# FileIngestor — verified model of the ingestion worker

This project models the ingestion stage of the concurrent map/reduce demo: the
`FileIngestor` worker that drains the shared queue of input file paths, asks the
file splitter for each file's lines, appends those lines to the line queue and
keeps the two progress counters of the run (`fileIngestedCount`,
`lineProducedCount`) up to date. It is modelled from the point of view of one
worker, as sequential imperative Dafny (`ingest.dfy`):

- `Wrappers.Option` stands for Java's `Optional` and for the `null` that
  `Queue.poll` returns on an empty queue.
- `Ingest.FileIngestor` is a class whose `fileQueue` and `lineQueue` fields are
  sequences the methods reassign; `Poll`, `IngestOneFile` and `IngestFiles`
  update them in place.
- `Ingest.ProgressState` holds the two counters of the run's context object.
  `MarkIngested` is the critical section that bumps the file counter; its
  precondition demands that all of the file's lines are already queued, and
  the ghost predicate `Published` states what the counter then promises to an
  observer: the lines of every counted file, in order, are in the line queue.
- The file splitter is a field `split: Path -> Option<seq<Line>>`: a pure
  function giving a file's lines in file order, or no result when the file
  cannot be split.
- `Ingest.Produced` is the specification of the whole drain. It gives the lines
  the polled files yield, in poll order. The lemmas about it state per-file
  order, that nothing is lost or invented, and that a file with no result or
  no lines adds no line.
- `Ingest.ThreeFileRun` is a small client: three files with two lines, no split
  result and three lines end with three files ingested and five lines produced.

## Model

| member | source | states |
|---|---|---|
| Ingest.FileIngestor.constructor | src/main/java/com/ps/mapreducedemo/ingest/FileIngestor.java:25-29 | the worker starts with the given file queue, line queue, context and splitter |
| Ingest.FileIngestor.Poll | src/main/java/com/ps/mapreducedemo/ingest/FileIngestor.java:49 | polling an empty queue yields nothing and leaves it empty; otherwise it yields the head path and removes exactly that path |
| Ingest.FileIngestor.IngestOneFile | src/main/java/com/ps/mapreducedemo/ingest/FileIngestor.java:62-73 | the file's lines are appended in order after the existing entries, the line counter rises by exactly the number of lines appended, and a file with no split result changes neither |
| Ingest.FileIngestor.MarkIngested | src/main/java/com/ps/mapreducedemo/ingest/FileIngestor.java:50-56 | the file counter rises by exactly one and the file joins the counted files; it may only be called once the line queue holds every line of the counted files and of this file, and it keeps `Published`: the counter never runs ahead of the lines |
| Ingest.FileIngestor.IngestAndCount | src/main/java/com/ps/mapreducedemo/ingest/FileIngestor.java:50-56 | one turn of the drain loop: the polled file's lines are appended (`IngestOneFile`) and only then is the file counted (`MarkIngested`); afterwards the file has joined the counted files, the file counter is up by one, the line queue is still its starting contents followed by the lines of all counted files, and the line counter rose by exactly the lines appended |
| Ingest.FileIngestor.IngestFiles | src/main/java/com/ps/mapreducedemo/ingest/FileIngestor.java:42-60 | returns true with the file queue empty; the file counter rises by the number of files that were queued, readable or not; the line queue becomes its old contents followed by `Produced` of the old file queue; the line counter rises by exactly the growth of the line queue; the counted files are exactly the queued ones, in queue order, and `Published` holds. Each file is counted through `IngestAndCount`, which calls `MarkIngested` only after the file's lines are appended, and the loop invariant states that at each loop head the counted files are exactly the polled ones and all their lines are already queued |
| Ingest.ProducedAppend | src/main/java/com/ps/mapreducedemo/ingest/FileIngestor.java:49-50 | draining two batches one after the other produces the first batch's lines followed by the second's |
| Ingest.ProducedSnoc | src/main/java/com/ps/mapreducedemo/ingest/FileIngestor.java:49-55 | ingesting one more file appends exactly that file's lines, as one loop iteration does before the file is counted |
| Ingest.FileBlock | src/main/java/com/ps/mapreducedemo/ingest/FileIngestor.java:65-71 | the i-th polled file's lines sit in the output as one contiguous block in their own order, right after the lines of the files polled before it |
| Ingest.ProducedPrefix | src/main/java/com/ps/mapreducedemo/ingest/FileIngestor.java:49-71 | what the first k polled files produce is a prefix of what the whole queue produces: ingesting further files only appends, never removes or reorders published lines |
| Ingest.ProducedMembership | src/main/java/com/ps/mapreducedemo/ingest/FileIngestor.java:65-71 | a line is produced if and only if the split result of some polled file contains it |
| Ingest.AbsentFileAddsNothing | src/main/java/com/ps/mapreducedemo/ingest/FileIngestor.java:65-66 | a file whose split gives no result or no lines adds no line: the output equals that of the same queue without the file |

## Left out

- Thread coordination: the lock of `synchronized (context.monitor)` and
  `notifyAll()` are not modelled; only the counter increment inside the block
  is kept, as `MarkIngested`.
- Several workers sharing the queues, and the atomicity of `poll`, `add` and
  `incrementAndGet`, are not modelled; one worker owns plain sequences and
  integer fields. Aliasing of the queues between workers is therefore not
  captured.
- The counters are unbounded naturals. The class that declares them
  (`MapReduceDemo`) is not part of this model, so their integer width and
  any wrap-around are not modelled.
- `FileSplitter` is not part of this model. It is a parameter: a pure function
  from a path to an optional list of lines.
- `run` and `call` are thin wrappers around `ingestFiles`; the thread id and the
  `logger.trace` calls are logging only.
- `IoUtilsImpl.java` (file reads and writes, path resolution, directory listing,
  parsing counts from files, cleaning directories) is operating-system and
  library I/O and is not modelled.
