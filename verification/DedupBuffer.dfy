/**
 The burst-grouping buffer of src/dedup.rs and its pending file
 (src/dedup/persistence.rs).

 An item is named by its arrival number.  `Lane` is what the process and the
 disk hold for one source; the functions on it say what each critical section
 does, and class `DedupBuffer` is the code over the maps that all sources share.
 */
module DedupBuffer {
  import opened Wrappers

  type Source = string
  type Item = nat

  // ---- The pending file ----

  /** A terminated line of the file: a whole record, or text that does not parse as one. */
  datatype Line = Whole(item: Item) | Garbage

  /** What follows the last newline. */
  datatype Tail = Closed | OpenWhole(item: Item) | OpenGarbage

  datatype File = Missing | Present(lines: seq<Line>, tail: Tail, utf8: bool)

  /**
   What one append brought to disk: the record and its newline, the record
   alone, part of the record (perhaps cut inside a character), or nothing.
   */
  datatype Write = Full | BodyOnly | Torn(utf8: bool) | Nothing

  function Append(f: File, x: Item, w: Write): File {
    var p := if f.Missing? then Present([], Closed, true) else f;
    match w
    case Full => p.(lines := p.lines + [if p.tail.Closed? then Whole(x) else Garbage], tail := Closed)
    case BodyOnly => p.(tail := if p.tail.Closed? then OpenWhole(x) else OpenGarbage)
    case Torn(utf8) => p.(tail := OpenGarbage, utf8 := p.utf8 && utf8)
    case Nothing => f
  }

  function Records(lines: seq<Line>): seq<Item> {
    if lines == [] then []
    else
      var last := lines[|lines| - 1];
      Records(lines[..|lines| - 1]) + if last.Whole? then [last.item] else []
  }

  predicate Readable(f: File) {
    f.Present? && f.utf8
  }

  /** The items a later start can read back. */
  function Saved(f: File): seq<Item> {
    if Readable(f) then Records(f.lines) + (if f.tail.OpenWhole? then [f.tail.item] else []) else []
  }

  function Removed(f: File, ok: bool): File {
    if ok then Missing else f
  }

  // ---- One source ----

  /** `timers` are the deadlines of the sleeping flush tasks. */
  datatype Lane = Lane(queue: seq<Item>, active: bool, timers: seq<int>, file: File)

  datatype Setting = Setting(enabled: bool, strategy: string, overrideCritical: bool, window: nat)

  function Lower(s: string): string {
    seq(|s|, i requires 0 <= i < |s| => if 'A' <= s[i] <= 'Z' then s[i] - 'A' + 'a' else s[i])
  }

  /** Is the event buffered rather than delivered on its own? */
  predicate Accepts(setting: Option<Setting>, severity: string, bypass: bool) {
    && Lower(severity) != "resolved"
    && setting.Some?
    && setting.value.enabled
    && setting.value.strategy != "none"
    && (severity == "critical" ==> setting.value.overrideCritical)
    && !bypass
  }

  function SubmitLane(l: Lane, x: Item, now: int, window: nat, w: Write): Lane {
    Lane(l.queue + [x], true,
         if l.active then l.timers else l.timers + [now + window],
         Append(l.file, x, w))
  }

  /** The sleeping task with this deadline wakes up and is gone. */
  function WithoutOne(timers: seq<int>, deadline: int): seq<int> {
    if timers == [] then []
    else if timers[0] == deadline then timers[1..]
    else [timers[0]] + WithoutOne(timers[1..], deadline)
  }

  function FlushLane(l: Lane, removed: bool): Lane {
    Lane([], false, l.timers, Removed(l.file, removed))
  }

  function FireLane(l: Lane, deadline: int, removed: bool): Lane {
    FlushLane(l.(timers := WithoutOne(l.timers, deadline)), removed)
  }

  /** Did the read, the first removal and the removal inside the flush succeed? */
  datatype Restore = Restore(read: bool, removed: bool, cleared: bool)

  predicate Restores(f: File, r: Restore) {
    Readable(f) && r.read
  }

  function RestoredItems(f: File, r: Restore): seq<Item> {
    if Restores(f, r) then Saved(f) else []
  }

  function RestoreLane(l: Lane, r: Restore): Lane {
    if !Restores(l.file, r) then l
    else if Saved(l.file) == [] then l.(file := Removed(l.file, r.removed))
    else FlushLane(l.(file := Removed(l.file, r.removed)), r.cleared)
  }

  function Get<X, Y>(m: map<X, Y>, x: X, default: Y): Y {
    if x in m then m[x] else default
  }

  class DedupBuffer {
    var queues: map<Source, seq<Item>>
    var timerActive: map<Source, bool>
    var timers: map<Source, seq<int>>
    var files: map<Source, File>

    function QueueOf(s: Source): seq<Item>
      reads this
    {
      if s in queues then queues[s] else []
    }

    function ActiveOf(s: Source): bool
      reads this
    {
      s in timerActive && timerActive[s]
    }

    function TimersOf(s: Source): seq<int>
      reads this
    {
      if s in timers then timers[s] else []
    }

    function FileOf(s: Source): File
      reads this
    {
      if s in files then files[s] else Missing
    }

    function View(s: Source): Lane
      reads this
    {
      Lane(QueueOf(s), ActiveOf(s), TimersOf(s), FileOf(s))
    }

    /** A new process over the files an earlier one left. */
    constructor (disk: map<Source, File>)
      ensures forall s :: View(s) == Lane([], false, [], Get(disk, s, Missing))
    {
      queues, timerActive, timers, files := map[], map[], map[], disk;
    }

    /** The critical section of submit. */
    method Enqueue(source: Source, item: Item, now: int, window: nat, w: Write)
      modifies this
      ensures View(source) == SubmitLane(old(View(source)), item, now, window, w)
      ensures forall s | s != source :: View(s) == old(View(s))
    {
      queues := queues[source := QueueOf(source) + [item]];
      files := files[source := Append(FileOf(source), item, w)];
      if !ActiveOf(source) {
        timerActive := timerActive[source := true];
        timers := timers[source := TimersOf(source) + [now + window]];
      }
    }

    method Submit(source: Source, setting: Option<Setting>, severity: string, bypass: bool,
                  item: Item, now: int, w: Write)
      returns (buffered: bool)
      modifies this
      ensures buffered == Accepts(setting, severity, bypass)
      ensures buffered ==> View(source) == SubmitLane(old(View(source)), item, now, setting.value.window, w)
      ensures forall s | s != source || !buffered :: View(s) == old(View(s))
    {
      if Lower(severity) == "resolved" {
        return false;
      }
      if setting.None? {
        return false;
      }
      if !setting.value.enabled || setting.value.strategy == "none" {
        return false;
      }
      if severity == "critical" && !setting.value.overrideCritical {
        return false;
      }
      if bypass {
        return false;
      }
      Enqueue(source, item, now, setting.value.window, w);
      return true;
    }

    /** The critical section of flush_source; the items it returns are delivered outside it. */
    method FlushSource(source: Source, removed: bool) returns (items: seq<Item>)
      modifies this
      ensures items == old(View(source)).queue
      ensures View(source) == FlushLane(old(View(source)), removed)
      ensures forall s | s != source :: View(s) == old(View(s))
    {
      timerActive := timerActive[source := false];
      items := QueueOf(source);
      queues := queues[source := []];
      if removed {
        files := files[source := Missing];
      }
    }

    /** A sleeping task wakes up at its deadline, or later. */
    method TimerFires(source: Source, deadline: int, removed: bool) returns (items: seq<Item>)
      modifies this
      ensures items == old(View(source)).queue
      ensures View(source) == FireLane(old(View(source)), deadline, removed)
      ensures forall s | s != source :: View(s) == old(View(s))
    {
      timers := timers[source := WithoutOne(TimersOf(source), deadline)];
      items := FlushSource(source, removed);
    }

    method FlushAll(sources: set<Source>, removed: map<Source, bool>) returns (batches: map<Source, seq<Item>>)
      modifies this
      ensures batches.Keys == sources
      ensures forall s | s in sources :: batches[s] == old(View(s)).queue
      ensures forall s | s in sources :: View(s) == FlushLane(old(View(s)), Get(removed, s, false))
      ensures forall s | s !in sources :: View(s) == old(View(s))
    {
      var left := sources;
      batches := map[];
      while left != {}
        invariant left <= sources && batches.Keys == sources - left
        invariant forall s | s in batches ::
            batches[s] == old(View(s)).queue && View(s) == FlushLane(old(View(s)), Get(removed, s, false))
        invariant forall s | s !in batches :: View(s) == old(View(s))
        decreases left
      {
        var src :| src in left;
        var items := FlushSource(src, Get(removed, src, false));
        batches := batches[src := items];
        left := left - {src};
      }
    }

    /** The loop that reads the lines of a pending file. */
    static method ParseLines(f: File) returns (items: seq<Item>)
      requires Readable(f)
      ensures items == Saved(f)
    {
      items := [];
      for i := 0 to |f.lines|
        invariant items == Records(f.lines[..i])
      {
        assert f.lines[..i + 1][..i] == f.lines[..i];
        if f.lines[i].Whole? {
          items := items + [f.lines[i].item];
        }
      }
      assert f.lines[..|f.lines|] == f.lines;
      if f.tail.OpenWhole? {
        items := items + [f.tail.item];
      }
    }

    method RestoreSource(source: Source, r: Restore) returns (items: seq<Item>)
      requires View(source).queue == []
      modifies this
      ensures items == RestoredItems(old(View(source)).file, r)
      ensures View(source) == RestoreLane(old(View(source)), r)
      ensures forall s | s != source :: View(s) == old(View(s))
    {
      var file := FileOf(source);
      if !file.Present? {
        return [];
      }
      if !r.read || !file.utf8 {
        return [];
      }
      items := ParseLines(file);
      if r.removed {
        files := files[source := Missing];
      }
      if items == [] {
        return;
      }
      queues := queues[source := items];
      items := FlushSource(source, r.cleared);
    }

    /** Has the source been restored, as its own disk operations went? */
    predicate RestoredAs(source: Source, before: Lane, r: Restore, items: seq<Item>)
      reads this
    {
      items == RestoredItems(before.file, r) && View(source) == RestoreLane(before, r)
    }

    method RestorePending(sources: set<Source>, io: map<Source, Restore>) returns (batches: map<Source, seq<Item>>)
      requires forall s :: View(s).queue == []
      modifies this
      ensures batches.Keys == sources
      ensures forall s | s in sources ::
          RestoredAs(s, old(View(s)), Get(io, s, Restore(false, false, false)), batches[s])
      ensures forall s | s !in sources :: View(s) == old(View(s))
    {
      var left := sources;
      batches := map[];
      while left != {}
        invariant left <= sources && batches.Keys == sources - left
        invariant forall s | s in batches ::
            RestoredAs(s, old(View(s)), Get(io, s, Restore(false, false, false)), batches[s])
        invariant forall s | s !in batches :: View(s) == old(View(s))
        decreases left
      {
        var src :| src in left;
        assert View(src) == old(View(src));
        var items := RestoreSource(src, Get(io, src, Restore(false, false, false)));
        batches := batches[src := items];
        left := left - {src};
      }
    }
  }
}
