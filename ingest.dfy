/** Optional values: the Java `Optional<List<String>>` returned by the file
    splitter and the `null` returned by `Queue.poll` on an empty queue. */
module Wrappers {
  datatype Option<+T> = None | Some(value: T)
}

/** The ingestion stage of the map/reduce demo, seen from one worker: it drains
    a queue of file paths, splits each file into lines, appends those lines to
    the line queue and keeps the shared progress counters up to date. */
module Ingest {
  import opened Wrappers

  /** A file path; only its identity matters here. */
  datatype Path = Path(name: string)
  /** One line of text produced by the splitter. */
  type Line = string
  /** The file splitter: the lines of a file in file order, or no result when
      the file could not be split. */
  type Splitter = Path -> Option<seq<Line>>

  /** The lines a file contributes: none when the split gave no result. */
  function LinesOf(split: Splitter, p: Path): (lines: seq<Line>)
  {
    match split(p)
    case None => []
    case Some(lines) => lines
  }

  /** Everything produced for `files`, polled in queue order: the concatenation
      of each file's lines, with each file's line order kept. */
  function Produced(split: Splitter, files: seq<Path>): (lines: seq<Line>)
  {
    if files == [] then []
    else Produced(split, files[..|files| - 1]) + LinesOf(split, files[|files| - 1])
  }

  /** Processing two batches of files one after the other produces the lines of
      the first batch followed by those of the second. */
  lemma {:induction false} ProducedAppend(split: Splitter, a: seq<Path>, b: seq<Path>)
    ensures Produced(split, a + b) == Produced(split, a) + Produced(split, b)
  {
    if b == [] {
      assert a + b == a;
    } else {
      var last := |b| - 1;
      assert (a + b)[..|a + b| - 1] == a + b[..last];
      assert (a + b)[|a + b| - 1] == b[last];
      ProducedAppend(split, a, b[..last]);
    }
  }

  /** Processing one more file appends exactly that file's lines. */
  lemma ProducedSnoc(split: Splitter, files: seq<Path>, p: Path)
    ensures Produced(split, files + [p]) == Produced(split, files) + LinesOf(split, p)
  {
    assert (files + [p])[..|files|] == files;
  }

  /** Per-file order: the lines of the i-th polled file sit in the output as one
      contiguous block, in their own order, right after the lines of the files
      polled before it. */
  lemma FileBlock(split: Splitter, files: seq<Path>, i: nat)
    requires i < |files|
    ensures var start := |Produced(split, files[..i])|;
            var end := start + |LinesOf(split, files[i])|;
            end <= |Produced(split, files)| &&
            Produced(split, files)[start..end] == LinesOf(split, files[i])
  {
    assert files == files[..i] + [files[i]] + files[i + 1..];
    ProducedSnoc(split, files[..i], files[i]);
    ProducedAppend(split, files[..i] + [files[i]], files[i + 1..]);
  }

  /** What the first `k` polled files produce is a prefix of what the whole
      queue produces: lines already published are never removed or reordered
      by ingesting further files. */
  lemma ProducedPrefix(split: Splitter, files: seq<Path>, k: nat)
    requires k <= |files|
    ensures |Produced(split, files[..k])| <= |Produced(split, files)|
    ensures Produced(split, files)[..|Produced(split, files[..k])|] == Produced(split, files[..k])
  {
    assert files == files[..k] + files[k..];
    ProducedAppend(split, files[..k], files[k..]);
  }

  /** Nothing lost and nothing invented: a line is produced exactly when some
      polled file's split result holds it. */
  lemma {:induction false} ProducedMembership(split: Splitter, files: seq<Path>, line: Line)
    ensures line in Produced(split, files) <==>
            exists i :: 0 <= i < |files| && line in LinesOf(split, files[i])
  {
    if files != [] {
      var init := files[..|files| - 1];
      ProducedMembership(split, init, line);
      if line in Produced(split, files) {
        if line !in Produced(split, init) {
          assert line in LinesOf(split, files[|files| - 1]);
        } else {
          var i :| 0 <= i < |init| && line in LinesOf(split, init[i]);
          assert files[i] == init[i];
        }
      } else {
        forall i | 0 <= i < |files|
          ensures line !in LinesOf(split, files[i])
        {
          if i < |init| {
            assert files[i] == init[i];
          }
        }
      }
    }
  }

  /** A file whose split gives no result, or no lines, adds no line: the output
      is the same as if it had not been in the queue at all. */
  lemma AbsentFileAddsNothing(split: Splitter, before: seq<Path>, p: Path, after: seq<Path>)
    requires LinesOf(split, p) == []
    ensures Produced(split, before + [p] + after) == Produced(split, before + after)
  {
    ProducedSnoc(split, before, p);
    ProducedAppend(split, before + [p], after);
    ProducedAppend(split, before, after);
  }

  /** The shared progress state of the run (the counters of the demo's context
      object): both counters only ever increase. */
  class ProgressState {
    var fileIngestedCount: nat
    var lineProducedCount: nat
  }

  /** One ingestion worker. */
  class FileIngestor {
    /** Paths still waiting to be ingested, head first. */
    var fileQueue: seq<Path>
    /** Lines produced so far, oldest first. */
    var lineQueue: seq<Line>
    const context: ProgressState
    const split: Splitter

    // Ghost bookkeeping of what has been published through the file counter:
    // the line queue and file counter when counting began, and the files
    // counted since then, in order.
    ghost var startLines: seq<Line>
    ghost var startCount: nat
    ghost var counted: seq<Path>

    /** What the file counter promises to an observer: every counted file's
        lines, in order, are already in the line queue (lines of the file in
        progress may follow them). */
    ghost predicate Published()
      reads this, context
    {
      context.fileIngestedCount == startCount + |counted| &&
      var published := startLines + Produced(split, counted);
      |published| <= |lineQueue| && lineQueue[..|published|] == published
    }

    constructor (fileQueue: seq<Path>, lineQueue: seq<Line>, context: ProgressState, split: Splitter)
      ensures this.fileQueue == fileQueue && this.lineQueue == lineQueue
      ensures this.context == context && this.split == split
      ensures counted == [] && Published()
    {
      this.fileQueue := fileQueue;
      this.lineQueue := lineQueue;
      this.context := context;
      this.split := split;
      startLines, startCount, counted := lineQueue, context.fileIngestedCount, [];
    }

    /** Removes and returns the head of the file queue; `None` when it is empty. */
    method Poll() returns (head: Option<Path>)
      modifies this`fileQueue
      ensures old(fileQueue) == [] ==> head == None && fileQueue == []
      ensures old(fileQueue) != [] ==> head == Some(old(fileQueue)[0]) && fileQueue == old(fileQueue)[1..]
    {
      if fileQueue == [] {
        head := None;
      } else {
        head := Some(fileQueue[0]);
        fileQueue := fileQueue[1..];
      }
    }

    /** Appends every line of `p`, in order, to the line queue, counting each
        one; a file without a split result changes nothing. */
    method IngestOneFile(p: Path)
      modifies this`lineQueue, context`lineProducedCount
      ensures lineQueue == old(lineQueue) + LinesOf(split, p)
      ensures context.lineProducedCount == old(context.lineProducedCount) + |LinesOf(split, p)|
      ensures split(p).None? ==> lineQueue == old(lineQueue) && context.lineProducedCount == old(context.lineProducedCount)
    {
      var lines := split(p);
      if lines.Some? {
        var ls := lines.value;
        var i := 0;
        while i < |ls|
          invariant 0 <= i <= |ls|
          invariant lineQueue == old(lineQueue) + ls[..i]
          invariant context.lineProducedCount == old(context.lineProducedCount) + i
        {
          lineQueue := lineQueue + [ls[i]];
          context.lineProducedCount := context.lineProducedCount + 1;
          i := i + 1;
        }
        assert ls[..i] == ls;
      }
    }

    /** The critical section after a file: counts `p` as ingested. It may only
        run once all of `p`'s lines are in the line queue, so that the counter
        never runs ahead of the lines. */
    method MarkIngested(ghost p: Path)
      requires Published()
      requires lineQueue == startLines + Produced(split, counted + [p])
      modifies this`counted, context`fileIngestedCount
      ensures counted == old(counted) + [p]
      ensures context.fileIngestedCount == old(context.fileIngestedCount) + 1
      ensures Published()
    {
      context.fileIngestedCount := context.fileIngestedCount + 1;
      counted := counted + [p];
    }

    /** One turn of the drain loop for the polled path `p`: its lines are
        appended first, and only then is it counted as ingested. */
    method IngestAndCount(p: Path)
      requires context.fileIngestedCount == startCount + |counted|
      requires lineQueue == startLines + Produced(split, counted)
      modifies this`lineQueue, this`counted, context`fileIngestedCount, context`lineProducedCount
      ensures counted == old(counted) + [p]
      ensures context.fileIngestedCount == old(context.fileIngestedCount) + 1
      ensures lineQueue == startLines + Produced(split, counted)
      ensures context.lineProducedCount - old(context.lineProducedCount) == |lineQueue| - |old(lineQueue)|
    {
      ghost var before := lineQueue;
      IngestOneFile(p);
      assert lineQueue == before + LinesOf(split, p);
      assert lineQueue[..|before|] == before;
      ProducedSnoc(split, counted, p);
      MarkIngested(p);
    }

    /** Drains the file queue. Every queued file is polled once, in queue order;
        its lines are appended before it is counted as ingested; files without a
        split result are counted too. Always answers `true`. */
    method IngestFiles() returns (done: bool)
      modifies this`fileQueue, this`lineQueue, this`startLines, this`startCount, this`counted
      modifies context`fileIngestedCount, context`lineProducedCount
      ensures done && fileQueue == []
      ensures counted == old(fileQueue) && Published()
      ensures context.fileIngestedCount == old(context.fileIngestedCount) + |old(fileQueue)|
      ensures lineQueue == old(lineQueue) + Produced(split, old(fileQueue))
      ensures context.lineProducedCount - old(context.lineProducedCount) == |lineQueue| - |old(lineQueue)|
    {
      startLines, startCount, counted := lineQueue, context.fileIngestedCount, [];
      var current := Poll();
      while current.Some?
        invariant current.Some? ==> old(fileQueue) == counted + [current.value] + fileQueue
        invariant current.None? ==> old(fileQueue) == counted && fileQueue == []
        // at each loop head the counted files are exactly the polled ones, and
        // every one of their lines is already in the line queue
        invariant startLines == old(lineQueue) && startCount == old(context.fileIngestedCount)
        invariant context.fileIngestedCount == startCount + |counted|
        invariant lineQueue == startLines + Produced(split, counted)
        invariant context.lineProducedCount - old(context.lineProducedCount) == |lineQueue| - |old(lineQueue)|
        decreases |old(fileQueue)| - |counted|
      {
        IngestAndCount(current.value);
        current := Poll();
      }
      done := true;
    }
  }

  /** The output for a queue of three files is their lines one after another. */
  lemma ProducedThree(split: Splitter, a: Path, b: Path, c: Path)
    ensures Produced(split, [a, b, c]) == LinesOf(split, a) + LinesOf(split, b) + LinesOf(split, c)
  {
    ProducedSnoc(split, [], a);
    ProducedSnoc(split, [a], b);
    ProducedSnoc(split, [a, b], c);
    assert [a] + [b] == [a, b] && [a, b] + [c] == [a, b, c];
  }

  /** Three files with two lines, no split result and three lines: three files
      ingested and five lines produced, each file's lines in their own order. */
  method ThreeFileRun(context: ProgressState)
    modifies context
  {
    var a, b, c := Path("a"), Path("b"), Path("c");
    var split: Splitter := p => if p == a then Some(["a1", "a2"])
                                else if p == b then None
                                else Some(["c1", "c2", "c3"]);
    assert LinesOf(split, a) == ["a1", "a2"];
    assert b != a && LinesOf(split, b) == [];
    assert c != a && c != b && LinesOf(split, c) == ["c1", "c2", "c3"];
    ProducedThree(split, a, b, c);
    context.fileIngestedCount, context.lineProducedCount := 0, 0;
    var worker := new FileIngestor([a, b, c], [], context, split);
    var done := worker.IngestFiles();
    assert done && worker.fileQueue == [];
    assert context.fileIngestedCount == 3 && context.lineProducedCount == 5;
    assert worker.lineQueue == ["a1", "a2", "c1", "c2", "c3"];
  }
}
