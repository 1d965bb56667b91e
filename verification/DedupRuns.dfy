/**
 Every run of one source of the grouping buffer: submissions, sleeping tasks
 that wake up late, shutdown flushes, deliveries that finish in any order,
 crashes and restarts, with failing disk operations.

 A crash in the middle of a critical section needs no event of its own: before
 the file is removed it is a crash before the flush, and after the item is
 pushed it is a submission whose write brought nothing.
 */
module DedupRuns {
  import opened DedupBuffer
  import opened Subsequences
  import opened Wrappers

  datatype Arming = Unarmed | Armed(at: int, window: nat)

  /** An event: its severity, the setting of its source, and whether a rule bypasses grouping for it. */
  datatype Input = Input(severity: string, setting: Option<Setting>, bypass: bool)

  /**
   Beside the lane, when and from what each item arrived, and what has become of it.  `handed` lists the items in
   the order they were taken out of the queue; a batch is in `inHand` until its
   delivery call is over.  `dropped` are batches that were in hand at a crash,
   `unsaved` the queued items a crash took that the file did not give back.
   */
  datatype World = World(
    lane: Lane,
    now: int,
    arrivals: seq<int>,
    inputs: seq<Input>,
    arming: Arming,
    handed: seq<Item>,
    inHand: seq<seq<Item>>,
    delivered: seq<Item>,
    dropped: seq<Item>,
    unsaved: seq<Item>)

  datatype Event =
    | Submit(wait: nat, input: Input, write: Write)
    | Fire(wait: nat, deadline: int, removed: bool)
    | Shutdown(removed: bool)
    | Delivered(batch: nat)
    | Restart(restore: Restore, configured: bool)

  const Initial := World(Lane([], false, [], Missing), 0, [], [], Unarmed, [], [], [], [], [])

  function Hand(batches: seq<seq<Item>>, items: seq<Item>): seq<seq<Item>> {
    if items == [] then batches else batches + [items]
  }

  function Flat(batches: seq<seq<Item>>): seq<Item> {
    if batches == [] then [] else Flat(batches[..|batches| - 1]) + batches[|batches| - 1]
  }

  function Recovered(w: World, r: Restore, configured: bool): seq<Item> {
    if configured then RestoredItems(w.lane.file, r) else []
  }

  /** A flush that leaves this lane behind hands over what was queued. */
  function HandOver(w: World, lane: Lane): World {
    w.(lane := lane, arming := Unarmed, handed := w.handed + w.lane.queue, inHand := Hand(w.inHand, w.lane.queue))
  }

  function Crash(w: World, r: Restore, configured: bool): World {
    var blank := Lane([], false, [], w.lane.file);
    var items := Recovered(w, r, configured);
    World(if configured then RestoreLane(blank, r) else blank,
          w.now, w.arrivals, w.inputs, Unarmed,
          w.handed + items, Hand([], items), w.delivered,
          w.dropped + Flat(w.inHand),
          w.unsaved + Except(w.lane.queue, Saved(w.lane.file)))
  }

  /** Is this an event that the buffer takes in? */
  predicate Buffered(e: Event) {
    e.Submit? && Accepts(e.input.setting, e.input.severity, e.input.bypass)
  }

  function Take(w: World, now: int, input: Input, write: Write): World
    requires input.setting.Some?
  {
    var window := input.setting.value.window;
    w.(lane := SubmitLane(w.lane, |w.arrivals|, now, window, write), now := now, arrivals := w.arrivals + [now],
       inputs := w.inputs + [input], arming := if w.lane.active then w.arming else Armed(now, window))
  }

  function Step(w: World, e: Event): World {
    match e
    case Submit(wait, input, write) => if Buffered(e) then Take(w, w.now + wait, input, write) else w
    case Fire(wait, deadline, removed) =>
      if deadline in w.lane.timers && deadline <= w.now + wait then
        HandOver(w.(now := w.now + wait), FireLane(w.lane, deadline, removed))
      else w
    case Shutdown(removed) => HandOver(w, FlushLane(w.lane, removed))
    case Delivered(i) =>
      if i < |w.inHand| then
        w.(inHand := w.inHand[..i] + w.inHand[i + 1..], delivered := w.delivered + w.inHand[i])
      else w
    case Restart(r, configured) => Crash(w, r, configured)
  }

  function Run(events: seq<Event>): World {
    if events == [] then Initial else Step(Run(events[..|events| - 1]), events[|events| - 1])
  }

  // ---- The timer ----

  predicate TimerInv(w: World) {
    && (w.lane.queue != [] ==> w.lane.active)
    && (forall i | 0 <= i < |w.arrivals| :: w.arrivals[i] <= w.now)
    && (forall x | x in w.lane.queue :: x < |w.arrivals|)
    && (w.lane.active ==>
          && w.arming.Armed?
          && w.arming.at <= w.now
          && w.arming.at + w.arming.window in w.lane.timers
          && forall x | x in w.lane.queue :: w.arming.at <= w.arrivals[x])
  }

  lemma TimerStep(w: World, e: Event)
    requires TimerInv(w)
    ensures TimerInv(Step(w, e))
  {}

  /**
   In every run, failures included, a non-empty queue has an armed timer, and that
   timer's task is still asleep with a deadline no later than the arming window
   after the arrival of any queued item.
   */
  lemma {:induction false} QueueHasTimer(events: seq<Event>)
    ensures var w := Run(events);
            && TimerInv(w)
            && (w.lane.queue != [] ==>
                  && w.lane.active && w.arming.Armed?
                  && exists d | d in w.lane.timers ::
                       forall x | x in w.lane.queue :: x < |w.arrivals| && d <= w.arrivals[x] + w.arming.window)
  {
    if events != [] {
      QueueHasTimer(events[..|events| - 1]);
      TimerStep(Run(events[..|events| - 1]), events[|events| - 1]);
      var w := Run(events);
      if w.lane.queue != [] {
        assert w.arming.at + w.arming.window in w.lane.timers;
      }
    }
  }

  /**
   A sleeping task goes only by waking up, or with the process: a flush lets the others of its source sleep on, and
   one that wakes takes no other with it.
   */
  lemma TasksSleepOn(events: seq<Event>, e: Event, d: int)
    requires d in Run(events).lane.timers && !e.Restart? && !(e.Fire? && e.deadline == d)
    ensures d in Step(Run(events), e).lane.timers
  {
    if e.Fire? {
      OthersStay(Run(events).lane.timers, e.deadline, d);
    }
  }

  lemma {:induction false} OthersStay(timers: seq<int>, deadline: int, d: int)
    requires d in timers && d != deadline
    ensures d in WithoutOne(timers, deadline)
  {
    if timers[0] != deadline && timers[0] != d {
      OthersStay(timers[1..], deadline, d);
    }
  }

  /** If every task whose deadline has come has run, no item waits longer than the arming window. */
  lemma NoItemOverdue(events: seq<Event>, x: Item)
    requires forall d | d in Run(events).lane.timers :: d > Run(events).now
    requires x in Run(events).lane.queue
    ensures var w := Run(events);
            w.arming.Armed? && x < |w.arrivals| && w.now < w.arrivals[x] + w.arming.window
  {
    QueueHasTimer(events);
  }

  // ---- What becomes of the items ----

  /** In how many of the five places the item is. */
  function Places(w: World, x: Item): nat {
    Count(w.delivered, x) + Count(Flat(w.inHand), x) + Count(w.dropped, x)
    + Count(w.lane.queue, x) + Count(w.unsaved, x)
  }

  /** An item that arrived is in exactly one place, and no other item is anywhere. */
  predicate OnePlace(w: World, x: Item) {
    Places(w, x) == if x < |w.arrivals| then 1 else 0
  }

  /** An item was handed over exactly when it is, or went, with a batch. */
  predicate Batched(w: World, x: Item) {
    Count(w.handed, x) == Count(w.delivered, x) + Count(Flat(w.inHand), x) + Count(w.dropped, x)
  }

  predicate Accounted(w: World, x: Item) {
    OnePlace(w, x) && Batched(w, x)
  }

  ghost predicate Conserved(w: World) {
    forall x: Item :: OnePlace(w, x)
  }

  ghost predicate ItemInv(w: World) {
    && Subseq(Saved(w.lane.file), w.lane.queue)
    && Increasing(w.handed + w.lane.queue)
    && (forall x | x in w.handed + w.lane.queue :: x < |w.arrivals|)
    && (forall x: Item :: Accounted(w, x))
  }

  /** No removal failed, and every restart tried to read the file.  Writes may fail in any way. */
  predicate Clean(e: Event) {
    match e
    case Submit(_, _, _) => true
    case Fire(_, _, removed) => removed
    case Shutdown(removed) => removed
    case Delivered(_) => true
    case Restart(r, configured) => configured && r.read && (r.removed || r.cleared)
  }

  predicate AllClean(events: seq<Event>) {
    forall i | 0 <= i < |events| :: Clean(events[i])
  }

  lemma RecordsSnoc(lines: seq<Line>, last: Line)
    ensures Records(lines + [last]) == Records(lines) + if last.Whole? then [last.item] else []
  {
    assert (lines + [last])[..|lines|] == lines;
  }

  function Base(f: File): File {
    if f.Missing? then Present([], Closed, true) else f
  }

  lemma SavedFull(p: File, x: Item)
    requires p.Present? && p.utf8
    ensures Saved(Append(p, x, Full)) == Records(p.lines) + if p.tail.Closed? then [x] else []
  {
    var last := if p.tail.Closed? then Whole(x) else Garbage;
    RecordsSnoc(p.lines, last);
    assert Records(p.lines + [last]) + [] == Records(p.lines + [last]);
  }

  lemma SavedPartial(p: File, x: Item, w: Write)
    requires p.Present? && p.utf8 && (w.BodyOnly? || w == Torn(true))
    ensures Saved(Append(p, x, w)) == Records(p.lines) + if w.BodyOnly? && p.tail.Closed? then [x] else []
  {}

  /** What an append adds to what can be read back; after an unfinished line it can also take one record away. */
  lemma SavedAppend(f: File, x: Item, w: Write)
    requires (f.Present? ==> f.utf8) && w != Torn(false)
    ensures Saved(f) == Saved(Base(f))
    ensures Saved(Append(f, x, w)) ==
              if w.Nothing? then Saved(f)
              else Records(Base(f).lines) + if !w.Torn? && Base(f).tail.Closed? then [x] else []
  {
    var p := Base(f);
    match w
    case Full => SavedFull(p, x);
    case Nothing =>
    case _ => SavedPartial(p, x, w);
  }

  /** A file that is no longer UTF-8 gives nothing back, now or later. */
  lemma UnreadableStays(f: File, x: Item, w: Write)
    requires (f.Present? && !f.utf8) || w == Torn(false)
    ensures Saved(Append(f, x, w)) == []
  {}

  lemma AppendSaved(f: File, queue: seq<Item>, x: Item, w: Write)
    requires Subseq(Saved(f), queue)
    ensures Subseq(Saved(Append(f, x, w)), queue + [x])
  {
    if (f.Present? && !f.utf8) || w == Torn(false) {
      UnreadableStays(f, x, w);
    } else {
      AppendReadable(f, queue, x, w);
    }
  }

  lemma AppendReadable(f: File, queue: seq<Item>, x: Item, w: Write)
    requires (f.Present? ==> f.utf8) && Subseq(Saved(f), queue) && w != Torn(false)
    ensures Subseq(Saved(Append(f, x, w)), queue + [x])
  {
    SavedAppend(f, x, w);
    var records := Records(Base(f).lines);
    assert Subseq(records, queue) by {
      if Base(f).tail.OpenWhole? {
        assert Saved(f)[..|Saved(f)| - 1] == records;
        SubseqFront(Saved(f), queue);
      } else {
        assert Saved(f) == records;
      }
    }
    SubseqExtend(records, queue, x);
    SubseqExtend(Saved(f), queue, x);
    assert records + [] == records;
  }

  lemma FlatSnoc(batches: seq<seq<Item>>, items: seq<Item>)
    ensures Flat(Hand(batches, items)) == Flat(batches) + items
  {
    if items != [] {
      assert (batches + [items])[..|batches|] == batches;
    }
  }

  lemma {:induction false} FlatRemove(batches: seq<seq<Item>>, i: nat, x: Item)
    requires i < |batches|
    ensures Count(Flat(batches), x) == Count(Flat(batches[..i] + batches[i + 1..]), x) + Count(batches[i], x)
  {
    var n := |batches| - 1;
    var front := batches[..n];
    CountConcat(Flat(front), batches[n], x);
    if i == n {
      assert batches[..i] + batches[i + 1..] == front;
    } else {
      FlatRemove(front, i, x);
      var less := batches[..i] + batches[i + 1..];
      assert less[..|less| - 1] == front[..i] + front[i + 1..];
      assert less[|less| - 1] == batches[n];
      CountConcat(Flat(front[..i] + front[i + 1..]), batches[n], x);
    }
  }

  lemma HandOverAccounts(w: World, now: int, lane: Lane, x: Item)
    requires lane.queue == [] && Accounted(w, x)
    ensures Accounted(HandOver(w.(now := now), lane), x)
  {
    FlatSnoc(w.inHand, w.lane.queue);
    CountConcat(Flat(w.inHand), w.lane.queue, x);
    CountConcat(w.handed, w.lane.queue, x);
  }

  lemma HandOverKeeps(w: World, now: int, lane: Lane)
    requires ItemInv(w) && lane.queue == [] && lane.file == Missing
    ensures ItemInv(HandOver(w.(now := now), lane))
  {
    var next := HandOver(w.(now := now), lane);
    assert next.handed + next.lane.queue == w.handed + w.lane.queue;
    forall x: Item ensures Accounted(next, x) {
      assert Accounted(w, x);
      HandOverAccounts(w, now, lane, x);
    }
  }

  lemma SubmitAccounts(w: World, e: Event, x: Item)
    requires Accounted(w, x) && Buffered(e)
    ensures Accounted(Step(w, e), x)
  {
    var n := |w.arrivals|;
    CountConcat(w.lane.queue, [n], x);
    assert Count([n], x) == if x == n then 1 else 0;
  }

  lemma SubmitKeeps(w: World, e: Event)
    requires ItemInv(w) && Buffered(e) && Clean(e)
    ensures ItemInv(Step(w, e))
  {
    var next := Step(w, e);
    var n := |w.arrivals|;
    AppendSaved(w.lane.file, w.lane.queue, n, e.write);
    var before := w.handed + w.lane.queue;
    assert next.handed + next.lane.queue == before + [n];
    assert forall i | 0 <= i < |before| :: before[i] in before;
    forall x: Item ensures Accounted(next, x) {
      assert Accounted(w, x);
      SubmitAccounts(w, e, x);
    }
  }

  lemma DeliveredAccounts(w: World, i: nat, x: Item)
    requires Accounted(w, x) && i < |w.inHand|
    ensures Accounted(Step(w, Delivered(i)), x)
  {
    FlatRemove(w.inHand, i, x);
    CountConcat(w.delivered, w.inHand[i], x);
  }

  lemma DeliveredKeeps(w: World, i: nat, next: World)
    requires ItemInv(w) && i < |w.inHand| && next == Step(w, Delivered(i))
    ensures ItemInv(next)
  {
    assert next.lane == w.lane && next.handed == w.handed && next.arrivals == w.arrivals;
    forall x: Item ensures Accounted(next, x) {
      assert Accounted(w, x);
      DeliveredAccounts(w, i, x);
    }
  }

  /** The queue splits into what the file gives back and what it does not. */
  lemma QueueSplits(head: seq<Item>, queue: seq<Item>, saved: seq<Item>, x: Item)
    requires Increasing(head + queue) && Subseq(saved, queue)
    ensures Count(queue, x) == Count(saved, x) + Count(Except(queue, saved), x)
  {
    CountExcept(queue, saved, x);
    assert forall i | 0 <= i < |queue| :: queue[i] == (head + queue)[|head| + i];
    assert Increasing(queue);
    SubseqIncreasing(saved, queue);
    CountIncreasing(saved, x);
    CountIncreasing(queue, x);
    if x in saved {
      SubseqMember(saved, queue, x);
    }
  }

  /** After a restart what the file gave back is the one batch in hand, and the queue is empty. */
  lemma CrashHands(w: World, r: Restore)
    requires r.read
    ensures var next := Crash(w, r, true);
            && next.handed == w.handed + Saved(w.lane.file)
            && Flat(next.inHand) == Saved(w.lane.file)
            && next.lane.queue == []
  {
    var saved := Saved(w.lane.file);
    assert Recovered(w, r, true) == saved;
    FlatSnoc([], saved);
    assert Flat([]) + saved == saved;
  }

  lemma CrashAccounts(w: World, r: Restore, x: Item)
    requires ItemInv(w) && r.read && (r.removed || r.cleared)
    ensures Accounted(Crash(w, r, true), x)
  {
    assert Accounted(w, x);
    var saved := Saved(w.lane.file);
    CrashHands(w, r);
    CountConcat(w.dropped, Flat(w.inHand), x);
    CountConcat(w.handed, saved, x);
    CountConcat(w.unsaved, Except(w.lane.queue, saved), x);
    QueueSplits(w.handed, w.lane.queue, saved, x);
  }

  lemma CrashKeeps(w: World, r: Restore)
    requires ItemInv(w) && r.read && (r.removed || r.cleared)
    ensures ItemInv(Crash(w, r, true))
  {
    var next := Crash(w, r, true);
    var saved := Saved(w.lane.file);
    forall x: Item ensures Accounted(next, x) {
      CrashAccounts(w, r, x);
    }
    IncreasingTail(w.handed, saved, w.lane.queue);
    assert next.lane.queue == [] && next.handed + [] == w.handed + saved;
    forall x | x in w.handed + saved ensures x < |w.arrivals| {
      if x in saved {
        SubseqMember(saved, w.lane.queue, x);
      }
      assert x in w.handed + w.lane.queue;
    }
    assert Saved(next.lane.file) == [];
  }

  lemma FlushKeeps(w: World, e: Event)
    requires ItemInv(w) && Clean(e) && (e.Fire? || e.Shutdown?)
    ensures ItemInv(Step(w, e))
  {
    if e.Shutdown? {
      HandOverKeeps(w, w.now, FlushLane(w.lane, e.removed));
    } else if Step(w, e) != w {
      HandOverKeeps(w, w.now + e.wait, FireLane(w.lane, e.deadline, e.removed));
    }
  }

  lemma CleanStepKeeps(w: World, e: Event)
    requires ItemInv(w) && Clean(e)
    ensures ItemInv(Step(w, e))
  {
    match e
    case Submit(_, _, _) => if Buffered(e) { SubmitKeeps(w, e); }
    case Fire(_, _, _) => FlushKeeps(w, e);
    case Shutdown(_) => FlushKeeps(w, e);
    case Delivered(i) => if i < |w.inHand| { DeliveredKeeps(w, i, Step(w, e)); }
    case Restart(r, _) => CrashKeeps(w, r);
  }

  lemma InvConserves(w: World)
    requires ItemInv(w)
    ensures Conserved(w)
  {
    forall x: Item ensures OnePlace(w, x) {
      assert Accounted(w, x);
    }
  }

  /**
   In every clean run each item that arrived is in exactly one place: delivered, in
   the hands of a delivery, dropped with such a batch at a crash, queued, or lost at a
   crash because the file did not give it back.  Items leave the queue in arrival
   order and never twice, and the file reads back as a subsequence of the queue.
   */
  lemma {:induction false} NothingVanishes(events: seq<Event>)
    requires AllClean(events)
    ensures var w := Run(events);
            && Conserved(w)
            && Increasing(w.handed + w.lane.queue)
            && Subseq(Saved(w.lane.file), w.lane.queue)
    ensures ItemInv(Run(events))
  {
    if events == [] {
      assert Flat([]) == [];
    } else {
      NothingVanishes(events[..|events| - 1]);
      CleanStepKeeps(Run(events[..|events| - 1]), events[|events| - 1]);
    }
    InvConserves(Run(events));
  }

  predicate FullWrites(events: seq<Event>) {
    forall i | 0 <= i < |events| :: Buffered(events[i]) ==> events[i].write == Full
  }

  predicate Exact(w: World) {
    && Saved(w.lane.file) == w.lane.queue
    && (w.lane.file.Present? ==> w.lane.file.utf8 && w.lane.file.tail == Closed)
    && w.unsaved == []
  }

  lemma {:induction false} ExceptAll(s: seq<Item>, out: seq<Item>)
    requires forall x | x in s :: x in out
    ensures Except(s, out) == []
  {
    if s != [] {
      ExceptAll(s[..|s| - 1], out);
    }
  }

  lemma ExactStep(w: World, e: Event)
    requires Exact(w) && Clean(e) && (Buffered(e) ==> e.write == Full)
    ensures Exact(Step(w, e))
  {
    if Buffered(e) {
      SavedAppend(w.lane.file, |w.arrivals|, Full);
      assert Saved(w.lane.file) == Records(Base(w.lane.file).lines);
    } else if e.Restart? {
      ExceptAll(w.lane.queue, w.lane.queue);
    }
  }

  /** When every write succeeds the file is the queue, and a crash costs only batches in hand. */
  lemma {:induction false} FullWritesLoseOnlyBatches(events: seq<Event>)
    requires AllClean(events) && FullWrites(events)
    ensures Exact(Run(events))
  {
    if events != [] {
      FullWritesLoseOnlyBatches(events[..|events| - 1]);
      ExactStep(Run(events[..|events| - 1]), events[|events| - 1]);
    }
  }

  // ---- What failing writes cost ----

  /** Does the event hand the queue over, or lose it? */
  predicate Empties(w: World, e: Event) {
    match e
    case Fire(wait, deadline, _) => deadline in w.lane.timers && deadline <= w.now + wait
    case Shutdown(_) => true
    case Restart(_, _) => true
    case _ => false
  }

  /** The writes since the file was last gone after the queue had been emptied. */
  function WritesSinceRemoval(events: seq<Event>): seq<Write> {
    if events == [] then []
    else
      var e, before := events[|events| - 1], events[..|events| - 1];
      if Buffered(e) then WritesSinceRemoval(before) + [e.write]
      else if Empties(Run(before), e) && Run(events).lane.file.Missing? then []
      else WritesSinceRemoval(before)
  }

  lemma UnreadableStep(w: World, e: Event, writes: seq<Write>)
    requires (w.lane.file.Present? && !w.lane.file.utf8) <==> Torn(false) in writes
    ensures var next := Step(w, e);
            (next.lane.file.Present? && !next.lane.file.utf8)
            <==> Torn(false) in (if Buffered(e) then writes + [e.write]
                                 else if Empties(w, e) && next.lane.file.Missing? then [] else writes)
  {}

  /**
   In every run, failing removals included, the file is unreadable if and only if a write was cut inside a
   character since it was last removed.
   */
  lemma {:induction false} UnreadableIff(events: seq<Event>)
    ensures var f := Run(events).lane.file;
            (f.Present? && !f.utf8) <==> Torn(false) in WritesSinceRemoval(events)
  {
    if events != [] {
      UnreadableIff(events[..|events| - 1]);
      UnreadableStep(Run(events[..|events| - 1]), events[|events| - 1], WritesSinceRemoval(events[..|events| - 1]));
    }
  }

  /** The writes since the queue was last emptied. */
  function WritesSince(events: seq<Event>): seq<Write> {
    if events == [] then []
    else
      var e, before := events[|events| - 1], events[..|events| - 1];
      if Buffered(e) then WritesSince(before) + [e.write]
      else if Empties(Run(before), e) then []
      else WritesSince(before)
  }

  /** The file as it was when the queue was last emptied. */
  function FileSince(events: seq<Event>): File {
    if events == [] then Missing
    else
      var e, before := events[|events| - 1], events[..|events| - 1];
      if Empties(Run(before), e) then Run(events).lane.file else FileSince(before)
  }

  /** Nothing stands before the next record on its line. */
  predicate Appendable(f: File) {
    f.Missing? || (f.utf8 && f.tail.Closed?)
  }

  /** Every write brought its record and its newline, save that the last may lack the newline. */
  predicate Intact(writes: seq<Write>) {
    forall i | 0 <= i < |writes| :: writes[i] == Full || (i == |writes| - 1 && writes[i] == BodyOnly)
  }

  /** What the file is after these writes, from a file that gave nothing back. */
  predicate WrittenOk(f: File, queue: seq<Item>, start: File, writes: seq<Write>) {
    && |queue| == |writes|
    && if Appendable(start) && Intact(writes) then
         && (f.Missing? ==> queue == [])
         && (f.Present? ==> f.utf8)
         && Saved(f) == queue
         && (Appendable(f) || (writes != [] && writes[|writes| - 1] == BodyOnly))
         && (Appendable(f) ==> writes == [] || writes[|writes| - 1] == Full)
       else if writes == [] then f == start && Saved(f) == [] && !Appendable(f)
       else |Saved(f)| < |queue|
  }

  lemma SavedGrowth(f: File, x: Item, w: Write)
    ensures |Saved(Append(f, x, w))| <= |Saved(f)| + 1
    ensures Saved(f) == [] && !Appendable(f) ==> Saved(Append(f, x, w)) == []
    ensures !w.Full? && !w.BodyOnly? ==> |Saved(Append(f, x, w))| <= |Saved(f)|
    ensures f.Present? && f.tail.OpenWhole? ==> |Saved(Append(f, x, w))| <= |Saved(f)|
  {
    if (f.Present? && !f.utf8) || w == Torn(false) {
      UnreadableStays(f, x, w);
    } else {
      SavedAppend(f, x, w);
    }
  }

  lemma IntactSnoc(writes: seq<Write>, w: Write)
    ensures Intact(writes + [w]) <==>
              Intact(writes) && (writes == [] || writes[|writes| - 1] == Full) && (w.Full? || w.BodyOnly?)
  {
    var all := writes + [w];
    if Intact(all) {
      forall i | 0 <= i < |writes| ensures writes[i] == Full {
        assert all[i] == writes[i];
      }
      assert all[|writes|] == w;
    }
  }

  lemma IntactWrite(f: File, queue: seq<Item>, start: File, writes: seq<Write>, x: Item, w: Write)
    requires WrittenOk(f, queue, start, writes) && Appendable(start) && Intact(writes + [w])
    ensures WrittenOk(Append(f, x, w), queue + [x], start, writes + [w])
  {
    IntactSnoc(writes, w);
    assert Appendable(f);
    SavedAppend(f, x, w);
    assert Saved(f) == Records(Base(f).lines);
  }

  lemma WriteKeepsOk(f: File, queue: seq<Item>, start: File, writes: seq<Write>, x: Item, w: Write)
    requires WrittenOk(f, queue, start, writes)
    ensures WrittenOk(Append(f, x, w), queue + [x], start, writes + [w])
  {
    if Appendable(start) && Intact(writes + [w]) {
      IntactSnoc(writes, w);
      IntactWrite(f, queue, start, writes, x, w);
    } else {
      SavedGrowth(f, x, w);
      IntactSnoc(writes, w);
    }
  }

  /** When the queue has been emptied in a clean run, what is left of the file gives nothing back. */
  lemma EmptiedGivesNothing(w: World, e: Event)
    requires Clean(e) && Empties(w, e)
    ensures Step(w, e).lane.queue == [] && Saved(Step(w, e).lane.file) == []
  {}

  lemma {:induction false} FileFollowsWrites(events: seq<Event>)
    requires AllClean(events)
    ensures WrittenOk(Run(events).lane.file, Run(events).lane.queue, FileSince(events), WritesSince(events))
  {
    if events != [] {
      var e, before := events[|events| - 1], events[..|events| - 1];
      var w := Run(before);
      FileFollowsWrites(before);
      if Buffered(e) {
        WriteKeepsOk(w.lane.file, w.lane.queue, FileSince(before), WritesSince(before), |w.arrivals|, e.write);
      } else if Empties(w, e) {
        EmptiedGivesNothing(w, e);
      }
    }
  }

  /**
   In every clean run the file gives back exactly the queue if and only if nothing was queued since the queue was
   last emptied, or the file was then ready for a record and every write since brought one, the last perhaps
   without its newline.
   */
  lemma SavedIsQueueIff(events: seq<Event>)
    requires AllClean(events)
    ensures var w := Run(events);
            Saved(w.lane.file) == w.lane.queue
            <==> w.lane.queue == [] || (Appendable(FileSince(events)) && Intact(WritesSince(events)))
  {
    FileFollowsWrites(events);
    NothingVanishes(events);
  }

  /** When the file was removed as the queue was last emptied, only the writes since count. */
  lemma SinceRemovalIff(events: seq<Event>)
    requires AllClean(events) && FileSince(events).Missing?
    ensures var w := Run(events); Saved(w.lane.file) == w.lane.queue <==> Intact(WritesSince(events))
  {
    SavedIsQueueIff(events);
    FileFollowsWrites(events);
  }

  lemma FlushRemoves(events: seq<Event>, e: Event)
    requires Clean(e) && Empties(Run(events), e) && !e.Restart?
    ensures FileSince(events + [e]).Missing? && WritesSince(events + [e]) == []
  {
    RunSnoc(events, e);
    assert (events + [e])[..|events|] == events;
  }

  lemma SinceSubmit(events: seq<Event>, e: Event, longer: seq<Event>)
    requires Buffered(e) && longer == events + [e]
    ensures FileSince(longer) == FileSince(events) && WritesSince(longer) == WritesSince(events) + [e.write]
  {
    assert longer[..|longer| - 1] == events;
  }

  predicate AllSubmits(events: seq<Event>) {
    forall i | 0 <= i < |events| :: Buffered(events[i])
  }

  function WritesOf(events: seq<Event>): seq<Write> {
    if events == [] then []
    else
      var e := events[|events| - 1];
      WritesOf(events[..|events| - 1]) + if Buffered(e) then [e.write] else []
  }

  lemma {:induction false} WritesAfter(events: seq<Event>, submissions: seq<Event>, whole: seq<Event>)
    requires AllSubmits(submissions) && whole == events + submissions
    ensures FileSince(whole) == FileSince(events) && WritesSince(whole) == WritesSince(events) + WritesOf(submissions)
  {
    if submissions == [] {
      assert whole == events;
    } else {
      var front, last := submissions[..|submissions| - 1], submissions[|submissions| - 1];
      var longer := events + front;
      assert longer + [last] == whole;
      WritesAfter(events, front, longer);
      SinceSubmit(longer, last, whole);
      WritesOfSnoc(submissions, front, last, WritesSince(events));
    }
  }

  lemma WritesOfSnoc(submissions: seq<Event>, front: seq<Event>, last: Event, writes: seq<Write>)
    requires submissions != [] && front == submissions[..|submissions| - 1] && last == submissions[|submissions| - 1]
    requires Buffered(last)
    ensures writes + WritesOf(submissions) == writes + WritesOf(front) + [last.write]
  {}

  lemma SubmitsClean(events: seq<Event>, submissions: seq<Event>)
    requires AllClean(events) && AllSubmits(submissions)
    ensures AllClean(events + submissions)
  {
    forall i | 0 <= i < |submissions| ensures Clean(submissions[i]) {
      assert Buffered(submissions[i]);
    }
  }

  /** After a flush of a clean run, and any submissions, the file gives back the queue if and only if each write did. */
  lemma SinceFlushIff(events: seq<Event>, flush: Event, submissions: seq<Event>)
    requires AllClean(events) && Clean(flush) && Empties(Run(events), flush) && !flush.Restart?
    requires AllSubmits(submissions)
    ensures var w := Run(events + [flush] + submissions);
            Saved(w.lane.file) == w.lane.queue <==> Intact(WritesOf(submissions))
  {
    var flushed := events + [flush];
    var whole := flushed + submissions;
    FlushRemoves(events, flush);
    AllCleanSnoc(events, flush);
    SubmitsClean(flushed, submissions);
    SinceFlushed(flushed, submissions, whole);
  }

  lemma SinceFlushed(flushed: seq<Event>, submissions: seq<Event>, whole: seq<Event>)
    requires whole == flushed + submissions && AllClean(whole) && AllSubmits(submissions)
    requires FileSince(flushed).Missing? && WritesSince(flushed) == []
    ensures Saved(Run(whole).lane.file) == Run(whole).lane.queue <==> Intact(WritesOf(submissions))
  {
    WritesAfter(flushed, submissions, whole);
    assert [] + WritesOf(submissions) == WritesOf(submissions);
    SinceRemovalIff(whole);
  }

  // ---- What failing disk operations cost ----

  ghost predicate HandedOnce(w: World) {
    forall x: Item :: Count(w.handed, x) <= 1
  }

  predicate Below(s: seq<Item>, bound: nat) {
    forall x | x in s :: x < bound
  }

  predicate Before(a: seq<Item>, b: seq<Item>) {
    forall x, y | x in a && y in b :: x < y
  }

  /**
   What every run keeps, whatever fails: the file has each item once, and what is queued is newer than all
   that was handed over.
   */
  predicate OrderInv(w: World) {
    && Increasing(Saved(w.lane.file)) && Below(Saved(w.lane.file), |w.arrivals|)
    && Increasing(w.lane.queue) && Below(w.lane.queue, |w.arrivals|)
    && Below(w.handed, |w.arrivals|)
    && Before(w.handed, w.lane.queue)
  }

  lemma IncreasingSnoc(s: seq<Item>, x: Item)
    requires Increasing(s) && Below(s, x)
    ensures Increasing(s + [x]) && Below(s + [x], x + 1)
  {
    assert forall i | 0 <= i < |s| :: s[i] in s;
  }

  lemma AppendKeepsOrder(f: File, x: Item, w: Write)
    requires Increasing(Saved(f)) && Below(Saved(f), x)
    ensures Increasing(Saved(Append(f, x, w))) && Below(Saved(Append(f, x, w)), x + 1)
  {
    if (f.Present? && !f.utf8) || w == Torn(false) {
      UnreadableStays(f, x, w);
    } else {
      SavedAppend(f, x, w);
      var records := Records(Base(f).lines);
      assert forall i | 0 <= i < |records| :: records[i] == Saved(f)[i];
      assert forall y | y in records :: y in Saved(f);
      IncreasingSnoc(records, x);
      assert records + [] == records;
    }
  }

  lemma SubmitKeepsOrder(w: World, e: Event)
    requires OrderInv(w) && Buffered(e)
    ensures OrderInv(Step(w, e))
  {
    AppendKeepsOrder(w.lane.file, |w.arrivals|, e.write);
    IncreasingSnoc(w.lane.queue, |w.arrivals|);
  }

  lemma EmptyKeepsOrder(w: World, e: Event)
    requires OrderInv(w) && !Buffered(e)
    ensures OrderInv(Step(w, e))
  {
    var next := Step(w, e);
    assert next.lane.file == w.lane.file || next.lane.file == Missing;
    if e.Restart? {
      assert next.handed == w.handed + Recovered(w, e.restore, e.configured);
    }
  }

  lemma OrderStep(w: World, e: Event)
    requires OrderInv(w)
    ensures OrderInv(Step(w, e))
  {
    if Buffered(e) {
      SubmitKeepsOrder(w, e);
    } else {
      EmptyKeepsOrder(w, e);
    }
  }

  lemma {:induction false} AlwaysInOrder(events: seq<Event>)
    ensures OrderInv(Run(events))
  {
    if events != [] {
      AlwaysInOrder(events[..|events| - 1]);
      OrderStep(Run(events[..|events| - 1]), events[|events| - 1]);
    }
  }

  /** The file would give back an item that has been handed over before. */
  predicate HasStale(w: World) {
    exists x | x in Saved(w.lane.file) :: x in w.handed
  }

  predicate Restoring(e: Event) {
    e.Restart? && e.configured && e.restore.read
  }

  /** What this event takes out of the queue, or out of the file at a restart. */
  function TakenOut(w: World, e: Event): seq<Item> {
    if !Empties(w, e) then []
    else if e.Restart? then Recovered(w, e.restore, e.configured)
    else w.lane.queue
  }

  /** What the file still gave when it was taken out, since the file was last gone. */
  function Leftover(events: seq<Event>): set<Item> {
    if events == [] then {}
    else
      var e, before := events[|events| - 1], events[..|events| - 1];
      if Run(events).lane.file.Missing? then {}
      else Leftover(before) + set x | x in TakenOut(Run(before), e) && x in Saved(Run(before).lane.file)
  }

  /** Whenever a restart read the file, it gave nothing left over. */
  predicate NothingReread(events: seq<Event>) {
    events == [] ||
    var e, before := events[|events| - 1], events[..|events| - 1];
    && NothingReread(before)
    && (Restoring(e) ==> forall x | x in Saved(Run(before).lane.file) :: x !in Leftover(before))
  }

  lemma StepHands(w: World, e: Event)
    ensures Step(w, e).handed == w.handed + TakenOut(w, e)
  {}

  lemma StepLeaves(w: World, e: Event, x: Item)
    requires !Buffered(e) && x in Saved(Step(w, e).lane.file)
    ensures Step(w, e).lane.file == w.lane.file
  {}

  lemma SubmitLeaves(w: World, e: Event, x: Item)
    requires Buffered(e) && x in Saved(Step(w, e).lane.file)
    ensures x in Saved(w.lane.file) || x == |w.arrivals|
  {
    var f := w.lane.file;
    if (f.Present? && !f.utf8) || e.write == Torn(false) {
      UnreadableStays(f, |w.arrivals|, e.write);
    } else {
      SavedAppend(f, |w.arrivals|, e.write);
    }
  }

  /** What is left over is exactly what the file gives back of all that was handed over. */
  lemma {:induction false} StaleIsLeftover(events: seq<Event>)
    ensures forall x | x in Leftover(events) :: x in Run(events).handed
    ensures forall x | x in Saved(Run(events).lane.file) :: x in Run(events).handed <==> x in Leftover(events)
  {
    if events != [] {
      var e, before := events[|events| - 1], events[..|events| - 1];
      var w := Run(before);
      StaleIsLeftover(before);
      AlwaysInOrder(before);
      StepHands(w, e);
      forall x | x in Saved(Run(events).lane.file)
        ensures x in Run(events).handed <==> x in Leftover(events)
      {
        if Buffered(e) {
          SubmitLeaves(w, e, x);
        } else {
          StepLeaves(w, e, x);
        }
      }
    }
  }

  lemma HandedGrows(w: World, e: Event, x: Item)
    requires OrderInv(w)
    ensures Count(Step(w, e).handed, x) >= Count(w.handed, x)
    ensures Count(w.handed, x) <= 1 && !(Restoring(e) && x in Saved(w.lane.file) && x in w.handed)
            ==> Count(Step(w, e).handed, x) <= 1
    ensures Restoring(e) && x in Saved(w.lane.file) && x in w.handed ==> Count(Step(w, e).handed, x) >= 2
  {
    CountConcat(w.handed, w.lane.queue, x);
    CountIncreasing(w.lane.queue, x);
    CountZero(w.handed, x);
    if e.Restart? {
      var items := Recovered(w, e.restore, e.configured);
      assert items == [] || items == Saved(w.lane.file);
      CountConcat(w.handed, items, x);
      CountIncreasing(items, x);
    }
  }

  lemma {:induction false} CountZero(s: seq<Item>, x: Item)
    ensures Count(s, x) > 0 <==> x in s
  {
    if s != [] {
      CountZero(s[..|s| - 1], x);
      assert s == s[..|s| - 1] + [s[|s| - 1]];
    }
  }

  /**
   In every run, whatever removals and writes fail, no item is handed over twice if and only if no restart that
   read the file got an item that the file still gave when a flush, or an earlier restart, took it out, with no
   removal of the file in between.
   */
  lemma {:induction false} HandedOnceIff(events: seq<Event>)
    ensures HandedOnce(Run(events)) <==> NothingReread(events)
  {
    if events != [] {
      var e, before := events[|events| - 1], events[..|events| - 1];
      var w, next := Run(before), Run(events);
      HandedOnceIff(before);
      AlwaysInOrder(before);
      StaleIsLeftover(before);
      forall x: Item
        ensures Count(next.handed, x) >= Count(w.handed, x)
        ensures Count(w.handed, x) <= 1 && !(Restoring(e) && x in Saved(w.lane.file) && x in Leftover(before))
                ==> Count(next.handed, x) <= 1
        ensures Restoring(e) && x in Saved(w.lane.file) && x in Leftover(before) ==> Count(next.handed, x) >= 2
      {
        HandedGrows(w, e, x);
      }
      if HandedOnce(next) {
        forall x: Item ensures Count(w.handed, x) <= 1 {
          assert Count(next.handed, x) <= 1;
        }
      }
    }
  }

  /**
   A flush leaves stale items exactly when the removal failed and the file gave something that was handed
   over or queued.
   */
  lemma FlushLeavesStaleIff(events: seq<Event>, removed: bool)
    ensures var w := Run(events);
            HasStale(Step(w, Shutdown(removed)))
            <==> !removed && exists x | x in Saved(w.lane.file) :: x in w.handed || x in w.lane.queue
  {
    var w := Run(events);
    var next := Step(w, Shutdown(removed));
    assert forall x :: x in next.handed <==> x in w.handed || x in w.lane.queue;
  }

  /** A restart that reads the file leaves stale items exactly when it gave something back and both removals failed. */
  lemma RestoreLeavesStaleIff(events: seq<Event>, r: Restore)
    requires r.read
    ensures var w := Run(events);
            HasStale(Step(w, Restart(r, true))) <==> Saved(w.lane.file) != [] && !r.removed && !r.cleared
  {
    var w := Run(events);
    var next := Step(w, Restart(r, true));
    var saved := Saved(w.lane.file);
    assert next.handed == w.handed + saved;
    if saved != [] && !r.removed && !r.cleared {
      assert saved[0] in next.handed && saved[0] in Saved(next.lane.file);
    }
  }

  /** A restart that does not read the file leaves it as it is, and the next one that does hands over what it gives. */
  lemma UnreadFileStays(events: seq<Event>, r: Restore, configured: bool, again: Restore)
    requires (!configured || !r.read) && again.read
    ensures var w := Run(events);
            var missed := Step(w, Restart(r, configured));
            var next := Step(missed, Restart(again, true));
            && missed.lane.file == w.lane.file && missed.handed == w.handed
            && next.handed == w.handed + Saved(w.lane.file)
            && (again.removed ==> Saved(next.lane.file) == [])
  {
    var w := Run(events);
    assert w.handed + [] == w.handed;
  }

  /**
   A flush followed by a crash and a restart hands nothing over twice if and only if
   the flush removed the file or the file gave nothing back.
   */
  lemma HandedTwiceUnlessRemoved(events: seq<Event>, removed: bool, r: Restore)
    requires AllClean(events) && r.read && (r.removed || r.cleared)
    ensures HandedOnce(Step(Step(Run(events), Shutdown(removed)), Restart(r, true)))
            <==> removed || Saved(Run(events).lane.file) == []
  {
    NothingVanishes(events);
    var w := Run(events);
    var saved := Saved(w.lane.file);
    var handed := w.handed + w.lane.queue;
    var last := Step(Step(w, Shutdown(removed)), Restart(r, true));
    forall x: Item ensures Count(handed, x) <= 1 {
      CountIncreasing(handed, x);
    }
    if removed || saved == [] {
      assert last.handed == handed;
    } else {
      var x := saved[0];
      assert last.handed == handed + saved;
      SubseqMember(saved, w.lane.queue, x);
      assert x in handed;
      CountIncreasing(handed, x);
      assert handed == w.handed + w.lane.queue;
      CountConcat(handed, saved, x);
      CountZero(saved, x);
      assert Count(last.handed, x) >= 2;
    }
  }

  /**
   After a restart that leaves the file behind (the source is no longer configured, or the
   read fails) the next flush deletes what it held: every item is still accounted for
   if and only if the file was restored or gave nothing back.
   */
  lemma OrphansAreLost(events: seq<Event>, r: Restore, configured: bool)
    requires AllClean(events) && (r.removed || r.cleared)
    ensures Conserved(Step(Step(Run(events), Restart(r, configured)), Shutdown(true)))
            <==> (configured && r.read) || Saved(Run(events).lane.file) == []
  {
    NothingVanishes(events);
    var w := Run(events);
    var saved := Saved(w.lane.file);
    var started := Step(w, Restart(r, configured));
    var last := Step(started, Shutdown(true));
    assert Flat([]) == [];
    if configured && r.read {
      CleanStepKeeps(w, Restart(r, configured));
      CleanStepKeeps(started, Shutdown(true));
      InvConserves(last);
    } else {
      assert last.lane.queue == [] && last.inHand == [];
      forall x: Item
        ensures Places(last, x) == Places(w, x) - Count(saved, x)
      {
        CountConcat(w.dropped, Flat(w.inHand), x);
        CountConcat(w.unsaved, Except(w.lane.queue, saved), x);
        QueueSplits(w.handed, w.lane.queue, saved, x);
      }
      assert saved == [] ==> Conserved(last) by {
        forall x: Item ensures saved == [] ==> OnePlace(last, x) {
          assert OnePlace(w, x) && Places(last, x) == Places(w, x) - Count(saved, x);
        }
      }
      if saved != [] {
        CountZero(saved, saved[0]);
        SubseqMember(saved, w.lane.queue, saved[0]);
        assert saved[0] in w.handed + w.lane.queue;
        assert OnePlace(w, saved[0]) && !OnePlace(last, saved[0]);
      }
    }
  }

  lemma RunSnoc(events: seq<Event>, e: Event)
    ensures Run(events + [e]) == Step(Run(events), e)
  {
    assert (events + [e])[..|events|] == events;
  }

  /** A warning from a source that groups for one second. */
  const PLAIN := Input("warning", Some(Setting(true, "key", false, 1)), false)

  lemma PlainIsBuffered()
    ensures Buffered(Submit(0, PLAIN, Full))
  {
    assert Lower("warning")[0] == 'w' && "resolved"[0] == 'r';
  }

  /** One item whose timer fires while the earlier deliveries are still under way. */
  lemma OneShort(w: World)
    requires w.lane == Lane([], false, [], Missing)
    ensures var next := Step(Step(w, Submit(0, PLAIN, Full)), Fire(1, w.now + 1, true));
            |next.inHand| == |w.inHand| + 1 && next.lane == w.lane
  {
    PlainIsBuffered();
    var mid := Step(w, Submit(0, PLAIN, Full));
    assert mid.lane.timers == [w.now + 1];
    assert mid.lane.queue == [|w.arrivals|];
  }

  lemma AllCleanSnoc(events: seq<Event>, e: Event)
    requires AllClean(events) && Clean(e)
    ensures AllClean(events + [e])
  {}

  ghost predicate Busy(events: seq<Event>, n: nat) {
    AllClean(events) && |Run(events).inHand| == n && Run(events).lane == Lane([], false, [], Missing)
  }

  lemma Busier(events: seq<Event>, n: nat)
    requires Busy(events, n)
    ensures Busy(events + [Submit(0, PLAIN, Full)] + [Fire(1, Run(events).now + 1, true)], n + 1)
  {
    var w := Run(events);
    var submitted := events + [Submit(0, PLAIN, Full)];
    RunSnoc(events, Submit(0, PLAIN, Full));
    RunSnoc(submitted, Fire(1, w.now + 1, true));
    AllCleanSnoc(events, Submit(0, PLAIN, Full));
    AllCleanSnoc(submitted, Fire(1, w.now + 1, true));
    OneShort(w);
  }

  /** Any number of batches can be in hand at once, so a crash can drop more than one. */
  lemma {:induction false} ManyBatchesInHand(n: nat)
    ensures exists events :: Busy(events, n)
  {
    if n == 0 {
      assert Busy([], 0);
    } else {
      ManyBatchesInHand(n - 1);
      var events :| Busy(events, n - 1);
      Busier(events, n - 1);
    }
  }
}
