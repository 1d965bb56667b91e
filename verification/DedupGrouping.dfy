/**
 Which events the grouping buffer holds back, in every run of `DedupRuns`, said of the events themselves and without
 the test that decides it.
 */
module DedupGrouping {
  import opened DedupBuffer
  import opened DedupRuns
  import opened Subsequences
  import opened Text
  import opened Wrappers

  predicate Recovery(i: Input) {
    Spells(i.severity, "resolved")
  }

  /** The source has no setting, is switched off, or does not group. */
  predicate NotGrouping(i: Input) {
    match i.setting
    case None => true
    case Some(setting) => !setting.enabled || setting.strategy == "none"
  }

  /** A critical event of a source that does not group critical ones. */
  predicate Urgent(i: Input) {
    i.severity == "critical" && i.setting.Some? && !i.setting.value.overrideCritical
  }

  /** The event is delivered on its own. */
  predicate Alone(i: Input) {
    Recovery(i) || NotGrouping(i) || Urgent(i) || i.bypass
  }

  lemma LowerSpells(s: string, word: string)
    requires forall i | 0 <= i < |word| :: 'a' <= word[i] <= 'z'
    ensures Lower(s) == word <==> Spells(s, word)
  {
    assert |Lower(s)| == |s|;
    if Spells(s, word) {
      assert forall i | 0 <= i < |s| :: Lower(s)[i] == word[i];
    }
    if Lower(s) == word {
      forall i | 0 <= i < |s| ensures SameLetter(s[i], word[i]) {
        assert Lower(s)[i] == word[i];
      }
    }
  }

  lemma BufferedIff(e: Event)
    requires e.Submit?
    ensures Buffered(e) <==> !Alone(e.input)
  {
    LowerSpells(e.input.severity, "resolved");
  }

  /** An event joins the end of the queue as a new item, or is delivered on its own and leaves no trace. */
  lemma SubmissionJoinsIff(events: seq<Event>, wait: nat, input: Input, write: Write)
    ensures var (w, next) := (Run(events), Step(Run(events), Submit(wait, input, write)));
            if Alone(input) then next == w
            else next.lane.queue == w.lane.queue + [|w.arrivals|]
                 && next.arrivals == w.arrivals + [w.now + wait]
                 && next.inputs == w.inputs + [input]
  {
    BufferedIff(Submit(wait, input, write));
  }

  /** What was submitted and is not delivered on its own, in order. */
  function Grouped(events: seq<Event>): seq<Input> {
    if events == [] then []
    else
      var e := events[|events| - 1];
      Grouped(events[..|events| - 1]) + if e.Submit? && !Alone(e.input) then [e.input] else []
  }

  /** In every run exactly the submitted events that are not delivered on their own have arrived, in order. */
  lemma {:induction false} ArrivedAreGrouped(events: seq<Event>)
    ensures Run(events).inputs == Grouped(events)
    ensures |Run(events).arrivals| == |Run(events).inputs|
  {
    if events != [] {
      var e := events[|events| - 1];
      ArrivedAreGrouped(events[..|events| - 1]);
      if e.Submit? {
        BufferedIff(e);
      }
    }
  }

  /** The item is queued, in hand, delivered, dropped or lost, or a later start would read it back. */
  predicate Somewhere(w: World, x: Item) {
    x in w.lane.queue || x in Flat(w.inHand) || x in w.delivered || x in w.dropped || x in w.unsaved
    || x in Saved(w.lane.file)
  }

  predicate AllArrived(w: World) {
    && (forall x | x in w.lane.queue :: x < |w.arrivals|)
    && (forall x | x in Flat(w.inHand) :: x < |w.arrivals|)
    && (forall x | x in w.delivered :: x < |w.arrivals|)
    && (forall x | x in w.dropped :: x < |w.arrivals|)
    && (forall x | x in w.unsaved :: x < |w.arrivals|)
    && (forall x | x in Saved(w.lane.file) :: x < |w.arrivals|)
  }

  lemma DeliveredArrived(w: World, i: nat)
    requires AllArrived(w) && i < |w.inHand|
    ensures AllArrived(Step(w, Delivered(i)))
  {
    var rest := w.inHand[..i] + w.inHand[i + 1..];
    forall x: Item ensures (x in Flat(rest) ==> x in Flat(w.inHand)) && (x in w.inHand[i] ==> x in Flat(w.inHand)) {
      FlatRemove(w.inHand, i, x);
      CountZero(Flat(w.inHand), x);
      CountZero(Flat(rest), x);
      CountZero(w.inHand[i], x);
    }
  }

  lemma HandArrived(w: World, items: seq<Item>)
    requires AllArrived(w) && forall x | x in items :: x < |w.arrivals|
    ensures forall x | x in Flat(Hand(w.inHand, items)) :: x < |w.arrivals|
  {
    FlatSnoc(w.inHand, items);
  }

  lemma {:induction false} ExceptArrived(s: seq<Item>, out: seq<Item>)
    ensures forall x | x in Except(s, out) :: x in s
  {
    if s != [] {
      ExceptArrived(s[..|s| - 1], out);
    }
  }

  lemma RestartArrived(w: World, r: Restore, configured: bool)
    requires AllArrived(w)
    ensures AllArrived(Crash(w, r, configured))
  {
    var items := Recovered(w, r, configured);
    FlatSnoc([], items);
    assert Flat([]) == [];
    ExceptArrived(w.lane.queue, Saved(w.lane.file));
  }

  lemma TakeArrived(w: World, e: Event)
    requires AllArrived(w) && Buffered(e)
    ensures AllArrived(Step(w, e))
  {
    forall x | x in Saved(Step(w, e).lane.file) ensures x <= |w.arrivals| {
      SubmitLeaves(w, e, x);
    }
  }

  lemma {:induction false} EverythingArrived(events: seq<Event>)
    ensures AllArrived(Run(events))
  {
    if events == [] {
      assert Flat([]) == [];
    } else {
      var e, before := events[|events| - 1], events[..|events| - 1];
      var w := Run(before);
      EverythingArrived(before);
      match e
      case Submit(_, _, _) => if Buffered(e) { TakeArrived(w, e); }
      case Fire(_, _, _) => HandArrived(w, w.lane.queue);
      case Shutdown(_) => HandArrived(w, w.lane.queue);
      case Delivered(i) => if i < |w.inHand| { DeliveredArrived(w, i); }
      case Restart(r, configured) => RestartArrived(w, r, configured);
    }
  }

  lemma {:induction false} GroupedCameIn(events: seq<Event>, x: nat)
    requires x < |Grouped(events)|
    ensures !Alone(Grouped(events)[x])
    ensures exists k | 0 <= k < |events| :: events[k].Submit? && events[k].input == Grouped(events)[x]
  {
    var n := |events| - 1;
    var before := events[..n];
    if x < |Grouped(before)| {
      GroupedCameIn(before, x);
      var k :| 0 <= k < |before| && before[k].Submit? && before[k].input == Grouped(before)[x];
      assert events[k] == before[k];
    } else {
      assert events[n].Submit? && events[n].input == Grouped(events)[x];
    }
  }

  /**
   In every run, failing disk operations and crashes included, whatever is queued, in hand, delivered, dropped, lost
   or in the file came from a submitted event that is no recovery in any letter case, from a configured source that is
   enabled and groups, not a critical one without override, and not bypassed.
   */
  lemma HeldItemsWereGroupable(events: seq<Event>, x: Item)
    requires Somewhere(Run(events), x)
    ensures var w := Run(events);
            && x < |w.inputs|
            && var i := w.inputs[x];
               && !Spells(i.severity, "resolved")
               && i.setting.Some? && i.setting.value.enabled && i.setting.value.strategy != "none"
               && (i.severity == "critical" ==> i.setting.value.overrideCritical)
               && !i.bypass
               && exists k | 0 <= k < |events| :: events[k].Submit? && events[k].input == i
  {
    EverythingArrived(events);
    ArrivedAreGrouped(events);
    GroupedCameIn(events, x);
  }
}
