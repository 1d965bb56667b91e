/**
 The suppression list against the trace of events that made it, for a fixed rule
 table and a clock that never runs backwards.
 */
module InhibitionRuns {
  import opened Wrappers
  import opened Inhibition

  /** `ack` and `mute` are what the acknowledgements and the schedule say about the alert. */
  datatype Event =
    | Alert(at: real, source: string, labels: Labels, dryRun: bool, ack: Option<string>, mute: Option<string>)
    | Cleanup(at: real)

  function Step(rules: seq<Rule>, list: seq<Suppression>, e: Event): seq<Suppression> {
    match e
    case Alert(at, source, labels, dryRun, ack, mute) =>
      AfterAlert(list, rules, source, labels, dryRun, ack.None? && mute.None?, at)
    case Cleanup(at) => Unexpired(list, at)
  }

  function Run(rules: seq<Rule>, events: seq<Event>): seq<Suppression> {
    if events == [] then [] else Step(rules, Run(rules, events[..|events| - 1]), events[|events| - 1])
  }

  predicate Ordered(events: seq<Event>) {
    forall i, j | 0 <= i < j < |events| :: events[i].at <= events[j].at
  }

  // ---- What an alert is for, by its labels ----

  /** The label is there and not empty, and this is its value. */
  predicate Carries(labels: Labels, name: string, value: string) {
    name in labels && labels[name] == value && value != ""
  }

  /** The alert comes from grafana and carries the source of this rule, and of none before it. */
  predicate IsOfRule(rules: seq<Rule>, source: string, labels: Labels, r: nat) {
    && source == "grafana" && "inhibition_source" in labels
    && r < |rules| && rules[r].source == labels["inhibition_source"]
    && forall j | 0 <= j < r :: rules[j].source != labels["inhibition_source"]
  }

  /** The alert is accepted for the key: it is no dry run, and carries the label that the rule anchors by, if any. */
  predicate IsFor(rules: seq<Rule>, e: Event, key: Key) {
    && e.Alert? && !e.dryRun && IsOfRule(rules, e.source, e.labels, key.rule)
    && (match rules[key.rule].matchBy
        case None => key.anchor.None?
        case Some(name) => key.anchor.Some? && Carries(e.labels, name, key.anchor.value))
  }

  /** The alert says that its source has recovered. */
  predicate Resolves(e: Event) {
    e.Alert? && Carries(e.labels, "status", "resolved")
  }

  /** The position of the last accepted alert for the key, or -1. */
  function LastFor(rules: seq<Rule>, events: seq<Event>, key: Key): (i: int)
    ensures -1 <= i < |events|
  {
    if events == [] then -1
    else if IsFor(rules, events[|events| - 1], key) then |events| - 1
    else LastFor(rules, events[..|events| - 1], key)
  }

  /** Was the last accepted alert for the key a firing less than the rule's TTL before this moment? */
  predicate Firing(rules: seq<Rule>, events: seq<Event>, key: Key, now: real) {
    var i := LastFor(rules, events, key);
    && i >= 0
    && key.rule < |rules|
    && !Resolves(events[i])
    && now < events[i].at + rules[key.rule].ttl as real
  }

  lemma {:induction false} LastForIs(rules: seq<Rule>, events: seq<Event>, key: Key)
    ensures var i := LastFor(rules, events, key);
            i >= 0 ==> IsFor(rules, events[i], key) && forall j | i < j < |events| :: !IsFor(rules, events[j], key)
    ensures LastFor(rules, events, key) < 0 ==> forall j | 0 <= j < |events| :: !IsFor(rules, events[j], key)
  {
    if events != [] && !IsFor(rules, events[|events| - 1], key) {
      LastForIs(rules, events[..|events| - 1], key);
    }
  }

  // ---- The invariant ----

  /** The entry is what the last accepted alert for its key put there. */
  predicate EntryOk(rules: seq<Rule>, events: seq<Event>, s: Suppression) {
    var i := LastFor(rules, events, KeyOf(s));
    && i >= 0
    && s.rule < |rules|
    && !Resolves(events[i])
    && s.expiry == events[i].at + rules[s.rule].ttl as real
  }

  predicate Has(list: seq<Suppression>, key: Key) {
    exists i | 0 <= i < |list| :: KeyOf(list[i]) == key
  }

  predicate InOrder(rules: seq<Rule>, events: seq<Event>, list: seq<Suppression>) {
    forall i, j | 0 <= i < j < |list| ::
      LastFor(rules, events, KeyOf(list[i])) < LastFor(rules, events, KeyOf(list[j]))
  }

  ghost predicate Inv(rules: seq<Rule>, events: seq<Event>, list: seq<Suppression>) {
    && (forall i | 0 <= i < |list| :: EntryOk(rules, events, list[i]))
    && InOrder(rules, events, list)
    && (forall key, now | Firing(rules, events, key, now) && (events == [] || events[|events| - 1].at <= now) ::
          Has(list, key))
  }

  // ---- The two filters ----

  lemma {:induction false} UnexpiredMembers(list: seq<Suppression>, now: real)
    ensures forall s :: s in Unexpired(list, now) <==> s in list && s.expiry > now
  {
    if list != [] {
      UnexpiredMembers(list[..|list| - 1], now);
      assert list == list[..|list| - 1] + [list[|list| - 1]];
    }
  }

  lemma {:induction false} WithoutKeyMembers(list: seq<Suppression>, key: Key)
    ensures forall s :: s in WithoutKey(list, key) <==> s in list && KeyOf(s) != key
  {
    if list != [] {
      WithoutKeyMembers(list[..|list| - 1], key);
      assert list == list[..|list| - 1] + [list[|list| - 1]];
    }
  }

  lemma OrderSnoc(rules: seq<Rule>, events: seq<Event>, list: seq<Suppression>, last: Suppression)
    requires InOrder(rules, events, list)
    requires forall s | s in list :: LastFor(rules, events, KeyOf(s)) < LastFor(rules, events, KeyOf(last))
    ensures InOrder(rules, events, list + [last])
  {
    assert forall i | 0 <= i < |list| :: list[i] in list;
  }

  lemma {:induction false} UnexpiredOrder(rules: seq<Rule>, events: seq<Event>, list: seq<Suppression>, now: real)
    requires InOrder(rules, events, list)
    ensures InOrder(rules, events, Unexpired(list, now))
  {
    if list != [] {
      var front, last := list[..|list| - 1], list[|list| - 1];
      assert forall i | 0 <= i < |front| :: front[i] == list[i];
      UnexpiredOrder(rules, events, front, now);
      UnexpiredMembers(front, now);
      OrderSnoc(rules, events, Unexpired(front, now), last);
    }
  }

  lemma {:induction false} WithoutKeyOrder(rules: seq<Rule>, events: seq<Event>, list: seq<Suppression>, key: Key)
    requires InOrder(rules, events, list)
    ensures InOrder(rules, events, WithoutKey(list, key))
  {
    if list != [] {
      var front, last := list[..|list| - 1], list[|list| - 1];
      assert forall i | 0 <= i < |front| :: front[i] == list[i];
      WithoutKeyOrder(rules, events, front, key);
      WithoutKeyMembers(front, key);
      OrderSnoc(rules, events, WithoutKey(front, key), last);
    }
  }

  // ---- Preservation ----

  /** What one more event does to the last alert for a key. */
  lemma LastForSnoc(rules: seq<Rule>, events: seq<Event>, e: Event, key: Key)
    ensures LastFor(rules, events + [e], key) == if IsFor(rules, e, key) then |events| else LastFor(rules, events, key)
  {
    assert (events + [e])[..|events|] == events;
  }

  /** Events that are not for any key in the list leave its entries in order and justified. */
  lemma Unmoved(rules: seq<Rule>, events: seq<Event>, e: Event, list: seq<Suppression>)
    requires forall i | 0 <= i < |list| :: EntryOk(rules, events, list[i]) && !IsFor(rules, e, KeyOf(list[i]))
    requires InOrder(rules, events, list)
    ensures forall i | 0 <= i < |list| :: EntryOk(rules, events + [e], list[i])
    ensures InOrder(rules, events + [e], list)
  {
    forall i | 0 <= i < |list|
      ensures LastFor(rules, events + [e], KeyOf(list[i])) == LastFor(rules, events, KeyOf(list[i]))
    {
      LastForSnoc(rules, events, e, KeyOf(list[i]));
    }
  }

  lemma StillFiring(rules: seq<Rule>, events: seq<Event>, e: Event, key: Key, now: real)
    requires Ordered(events + [e]) && e.at <= now
    requires !IsFor(rules, e, key) && Firing(rules, events + [e], key, now)
    ensures Firing(rules, events, key, now)
    ensures events == [] || events[|events| - 1].at <= now
  {
    LastForSnoc(rules, events, e, key);
    if events != [] {
      var all := events + [e];
      assert all[|events| - 1].at <= all[|events|].at;
    }
  }

  lemma CleanupKeeps(rules: seq<Rule>, events: seq<Event>, e: Event, list: seq<Suppression>)
    requires Inv(rules, events, list) && Ordered(events + [e]) && forall key :: !IsFor(rules, e, key)
    ensures Inv(rules, events + [e], Unexpired(list, e.at))
  {
    var kept := Unexpired(list, e.at);
    UnexpiredMembers(list, e.at);
    UnexpiredOrder(rules, events, list, e.at);
    forall i | 0 <= i < |kept| ensures EntryOk(rules, events, kept[i]) && !IsFor(rules, e, KeyOf(kept[i])) {
      assert kept[i] in list;
    }
    Unmoved(rules, events, e, kept);
    forall key, now | Firing(rules, events + [e], key, now) && e.at <= now
      ensures Has(kept, key)
    {
      StillFiring(rules, events, e, key, now);
      var i :| 0 <= i < |list| && KeyOf(list[i]) == key;
      assert EntryOk(rules, events, list[i]);
      assert list[i] in kept;
    }
  }

  lemma KeptEntries(rules: seq<Rule>, events: seq<Event>, e: Event, list: seq<Suppression>, key: Key)
    requires Inv(rules, events, list) && IsFor(rules, e, key)
    ensures var kept := WithoutKey(list, key);
            && (forall i | 0 <= i < |kept| :: EntryOk(rules, events + [e], kept[i]))
            && InOrder(rules, events + [e], kept)
            && forall s | s in kept :: LastFor(rules, events + [e], KeyOf(s)) < |events|
  {
    var kept := WithoutKey(list, key);
    WithoutKeyMembers(list, key);
    WithoutKeyOrder(rules, events, list, key);
    forall i | 0 <= i < |kept| ensures EntryOk(rules, events, kept[i]) && !IsFor(rules, e, KeyOf(kept[i])) {
      assert kept[i] in list;
    }
    Unmoved(rules, events, e, kept);
    forall s | s in kept ensures LastFor(rules, events + [e], KeyOf(s)) < |events| {
      LastForSnoc(rules, events, e, KeyOf(s));
    }
  }

  lemma {:induction false} FirstWithSourceIs(source: string, rules: seq<Rule>, from: nat)
    requires from <= |rules|
    ensures var r := FirstWithSource(source, rules, from);
            if r.Some? then
              && from <= r.value < |rules| && rules[r.value].source == source
              && forall j | from <= j < r.value :: rules[j].source != source
            else forall j | from <= j < |rules| :: rules[j].source != source
    decreases |rules| - from
  {
    if from < |rules| && rules[from].source != source {
      FirstWithSourceIs(source, rules, from + 1);
    }
  }

  lemma SourceRuleIs(rules: seq<Rule>, source: string, labels: Labels, r: nat)
    ensures IsOfRule(rules, source, labels, r) <==> source == "grafana" && SourceRule(labels, rules) == Some(r)
  {
    if "inhibition_source" in labels {
      FirstWithSourceIs(labels["inhibition_source"], rules, 0);
    }
  }

  lemma AlertKeyIs(rules: seq<Rule>, e: Event, key: Key)
    requires e.Alert?
    ensures IsFor(rules, e, key)
            <==> !e.dryRun && Arms(rules, e.source, e.labels)
                 && AlertKey(rules, SourceRule(e.labels, rules).value, e.labels) == Some(key)
  {
    SourceRuleIs(rules, e.source, e.labels, key.rule);
    if Arms(rules, e.source, e.labels) {
      SourceRuleIs(rules, e.source, e.labels, SourceRule(e.labels, rules).value);
    }
  }

  /** What an accepted alert does to the list. */
  lemma AcceptedStep(rules: seq<Rule>, list: seq<Suppression>, e: Event, key: Key)
    requires IsFor(rules, e, key)
    ensures key.rule < |rules|
    ensures Step(rules, list, e)
         == WithoutKey(list, key) +
            if Resolves(e) then [] else [Suppression(key.rule, key.anchor, e.at + rules[key.rule].ttl as real)]
  {
    AlertKeyIs(rules, e, key);
    SourceRuleIs(rules, e.source, e.labels, key.rule);
  }

  /** An event that is for no key leaves the list as it is, or takes out what has expired. */
  lemma OtherStep(rules: seq<Rule>, list: seq<Suppression>, e: Event)
    requires forall key :: !IsFor(rules, e, key)
    ensures Step(rules, list, e) == list || Step(rules, list, e) == Unexpired(list, e.at)
  {
    if e.Alert? && Arms(rules, e.source, e.labels) {
      var k := AlertKey(rules, SourceRule(e.labels, rules).value, e.labels);
      if k.Some? {
        AlertKeyIs(rules, e, k.value);
      }
    }
  }

  lemma AlertEntries(rules: seq<Rule>, events: seq<Event>, e: Event, list: seq<Suppression>, key: Key,
                     next: seq<Suppression>)
    requires Inv(rules, events, list) && IsFor(rules, e, key) && next == Step(rules, list, e)
    ensures (forall i | 0 <= i < |next| :: EntryOk(rules, events + [e], next[i])) && InOrder(rules, events + [e], next)
  {
    AcceptedStep(rules, list, e, key);
    KeptEntries(rules, events, e, list, key);
    LastForSnoc(rules, events, e, key);
    var kept := WithoutKey(list, key);
    if Resolves(e) {
      assert kept + [] == kept;
    } else {
      OrderSnoc(rules, events + [e], kept, Suppression(key.rule, key.anchor, e.at + rules[key.rule].ttl as real));
    }
  }

  lemma AlertHasOwn(rules: seq<Rule>, events: seq<Event>, e: Event, list: seq<Suppression>, key: Key,
                    next: seq<Suppression>, now: real)
    requires IsFor(rules, e, key) && next == Step(rules, list, e) && Firing(rules, events + [e], key, now)
    ensures Has(next, key)
  {
    AcceptedStep(rules, list, e, key);
    LastForSnoc(rules, events, e, key);
    assert KeyOf(next[|next| - 1]) == key;
  }

  lemma AlertHas(rules: seq<Rule>, events: seq<Event>, e: Event, list: seq<Suppression>, key: Key,
                 next: seq<Suppression>, other: Key, now: real)
    requires Inv(rules, events, list) && Ordered(events + [e]) && IsFor(rules, e, key) && next == Step(rules, list, e)
    requires Firing(rules, events + [e], other, now) && e.at <= now
    ensures Has(next, other)
  {
    if other == key {
      AlertHasOwn(rules, events, e, list, key, next, now);
    } else {
      assert !IsFor(rules, e, other);
      StillFiring(rules, events, e, other, now);
      AcceptedStep(rules, list, e, key);
      KeptHas(list, key, other, next);
    }
  }

  lemma KeptHas(list: seq<Suppression>, key: Key, other: Key, next: seq<Suppression>)
    requires Has(list, other) && other != key && WithoutKey(list, key) <= next
    ensures Has(next, other)
  {
    var kept := WithoutKey(list, key);
    WithoutKeyMembers(list, key);
    var i :| 0 <= i < |list| && KeyOf(list[i]) == other;
    assert list[i] in kept;
    var j :| 0 <= j < |kept| && kept[j] == list[i];
    assert next[j] == kept[j];
  }

  lemma AlertKeeps(rules: seq<Rule>, events: seq<Event>, e: Event, list: seq<Suppression>, key: Key,
                   next: seq<Suppression>)
    requires Inv(rules, events, list) && Ordered(events + [e]) && IsFor(rules, e, key) && next == Step(rules, list, e)
    ensures Inv(rules, events + [e], next)
  {
    AlertEntries(rules, events, e, list, key, next);
    forall other, now | Firing(rules, events + [e], other, now) && e.at <= now
      ensures Has(next, other)
    {
      AlertHas(rules, events, e, list, key, next, other, now);
    }
  }

  lemma IgnoredKeeps(rules: seq<Rule>, events: seq<Event>, e: Event, list: seq<Suppression>)
    requires Inv(rules, events, list) && Ordered(events + [e]) && forall key :: !IsFor(rules, e, key)
    ensures Inv(rules, events + [e], list)
  {
    Unmoved(rules, events, e, list);
    forall key, now | Firing(rules, events + [e], key, now) && e.at <= now
      ensures Has(list, key)
    {
      StillFiring(rules, events, e, key, now);
    }
  }

  lemma {:induction false} RunInv(rules: seq<Rule>, events: seq<Event>)
    requires Ordered(events)
    ensures Inv(rules, events, Run(rules, events))
  {
    if events != [] {
      var before, e := events[..|events| - 1], events[|events| - 1];
      assert before + [e] == events;
      RunInv(rules, before);
      var list := Run(rules, before);
      if key :| IsFor(rules, e, key) {
        AlertKeeps(rules, before, e, list, key, Run(rules, events));
      } else {
        OtherStep(rules, list, e);
        IgnoredKeeps(rules, before, e, list);
        CleanupKeeps(rules, before, e, list);
      }
    }
  }

  // ---- What holds after every trace ----

  predicate ActiveAt(list: seq<Suppression>, key: Key, now: real) {
    exists i | 0 <= i < |list| :: KeyOf(list[i]) == key && list[i].expiry > now
  }

  /** A key is suppressed if and only if its last accepted alert was a firing less than its TTL ago. */
  lemma ActiveIffFiring(rules: seq<Rule>, events: seq<Event>, key: Key, now: real)
    requires Ordered(events) && (events == [] || events[|events| - 1].at <= now)
    ensures ActiveAt(Run(rules, events), key, now) <==> Firing(rules, events, key, now)
  {
    RunInv(rules, events);
    var list := Run(rules, events);
    if ActiveAt(list, key, now) {
      var i :| 0 <= i < |list| && KeyOf(list[i]) == key && list[i].expiry > now;
      assert EntryOk(rules, events, list[i]);
    }
    if Firing(rules, events, key, now) {
      var i :| 0 <= i < |list| && KeyOf(list[i]) == key;
      assert EntryOk(rules, events, list[i]);
    }
  }

  /** The list holds a key once at most, the key whose alert came first in front. */
  lemma OnePerKeyInOrder(rules: seq<Rule>, events: seq<Event>, i: nat, j: nat)
    requires Ordered(events) && i < j < |Run(rules, events)|
    ensures var list := Run(rules, events);
            && KeyOf(list[i]) != KeyOf(list[j])
            && LastFor(rules, events, KeyOf(list[i])) < LastFor(rules, events, KeyOf(list[j]))
  {
    RunInv(rules, events);
  }

  // ---- When an alert is held back ----

  /** The rule is for alerts of this source. */
  predicate AppliesTo(rule: Rule, source: string) {
    rule.appliesTo == [] || exists i | 0 <= i < |rule.appliesTo| :: rule.appliesTo[i] == source
  }

  /** The rule is for every alert, for those with the label value of its anchor, or for those its pattern matches. */
  predicate Matches(rule: Rule, anchor: Option<string>, labels: Labels, regex: Regex) {
    || rule.matchAll
    || (rule.matchBy.Some? && anchor.Some? && Carries(labels, rule.matchBy.value, anchor.value))
    || (&& rule.matchLabel.Some? && rule.matchRegex.Some?
        && rule.matchLabel.value in labels && labels[rule.matchLabel.value] != ""
        && regex(rule.matchRegex.value, labels[rule.matchLabel.value]))
  }

  /** The source that the alert names, or no name at all. */
  predicate OwnSource(labels: Labels, source: string) {
    if "inhibition_source" in labels then source == labels["inhibition_source"] else source == ""
  }

  /**
   The key holds the alert back: it is firing, its rule is for the alert, and neither its source nor that of any
   key firing since before it is the alert's own.
   */
  ghost predicate Holds(rules: seq<Rule>, events: seq<Event>, key: Key, labels: Labels, source: string, regex: Regex,
                        now: real)
  {
    && Firing(rules, events, key, now)
    && AppliesTo(rules[key.rule], source)
    && Matches(rules[key.rule], key.anchor, labels, regex)
    && forall other | Firing(rules, events, other, now)
                      && LastFor(rules, events, other) <= LastFor(rules, events, key) ::
         !OwnSource(labels, rules[other.rule].source)
  }

  /** No key that was fired earlier holds the alert back. */
  ghost predicate HoldsFirst(rules: seq<Rule>, events: seq<Event>, key: Key, labels: Labels, source: string,
                             regex: Regex, now: real)
  {
    && Holds(rules, events, key, labels, source, regex, now)
    && forall other | Holds(rules, events, other, labels, source, regex, now) ::
         LastFor(rules, events, key) <= LastFor(rules, events, other)
  }

  lemma JudgeIs(rules: seq<Rule>, s: Suppression, labels: Labels, source: string, regex: Regex)
    requires s.rule < |rules|
    ensures var rule := rules[s.rule];
            var mine := AppliesTo(rule, source) && Matches(rule, s.anchor, labels, regex);
            Judge(rules, s, labels, source, regex)
            == if OwnSource(labels, rule.source) then Pass else if mine then Hold(rule.source) else Skip
  {
    var rule := rules[s.rule];
    assert source in rule.appliesTo <==> exists i | 0 <= i < |rule.appliesTo| :: rule.appliesTo[i] == source;
  }

  /** The list as the alert meets it: what fires, in the order of the last alerts. */
  ghost predicate IsFiringList(rules: seq<Rule>, events: seq<Event>, list: seq<Suppression>, now: real) {
    && (forall i | 0 <= i < |list| :: Firing(rules, events, KeyOf(list[i]), now))
    && InOrder(rules, events, list)
    && (forall key | Firing(rules, events, key, now) :: Has(list, key))
  }

  lemma MetList(rules: seq<Rule>, events: seq<Event>, now: real)
    requires Ordered(events) && (events == [] || events[|events| - 1].at <= now)
    ensures IsFiringList(rules, events, Unexpired(Run(rules, events), now), now)
  {
    RunInv(rules, events);
    var list := Run(rules, events);
    var met := Unexpired(list, now);
    UnexpiredMembers(list, now);
    UnexpiredOrder(rules, events, list, now);
    forall i | 0 <= i < |met| ensures Firing(rules, events, KeyOf(met[i]), now) {
      assert met[i] in list;
      var j :| 0 <= j < |list| && list[j] == met[i];
      assert EntryOk(rules, events, list[j]);
    }
    forall key | Firing(rules, events, key, now) ensures Has(met, key) {
      ActiveIffFiring(rules, events, key, now);
      var j :| 0 <= j < |list| && KeyOf(list[j]) == key && list[j].expiry > now;
      assert list[j] in met;
    }
  }

  /** An entry in front of another was alerted before it. */
  lemma PlaceOf(rules: seq<Rule>, events: seq<Event>, list: seq<Suppression>, now: real, i: nat, key: Key)
    returns (j: nat)
    requires IsFiringList(rules, events, list, now) && i < |list| && Firing(rules, events, key, now)
    ensures j < |list| && KeyOf(list[j]) == key
    ensures LastFor(rules, events, key) <= LastFor(rules, events, KeyOf(list[i])) <==> j <= i
  {
    j :| 0 <= j < |list| && KeyOf(list[j]) == key;
  }

  /** The first entry that says anything holds the alert back, so its key does, and none before it does. */
  lemma HoldingEntry(rules: seq<Rule>, events: seq<Event>, list: seq<Suppression>, labels: Labels, source: string,
                     regex: Regex, now: real, i: nat)
    requires IsFiringList(rules, events, list, now) && i < |list|
    requires Judge(rules, list[i], labels, source, regex).Hold?
    requires forall j | 0 <= j < i :: Judge(rules, list[j], labels, source, regex) == Skip
    ensures HoldsFirst(rules, events, KeyOf(list[i]), labels, source, regex, now)
    ensures Judge(rules, list[i], labels, source, regex) == Hold(rules[list[i].rule].source)
  {
    var key := KeyOf(list[i]);
    JudgeIs(rules, list[i], labels, source, regex);
    forall other | Firing(rules, events, other, now) && LastFor(rules, events, other) <= LastFor(rules, events, key)
      ensures !OwnSource(labels, rules[other.rule].source)
    {
      var j := PlaceOf(rules, events, list, now, i, other);
      JudgeIs(rules, list[j], labels, source, regex);
    }
    forall other | Holds(rules, events, other, labels, source, regex, now)
      ensures LastFor(rules, events, key) <= LastFor(rules, events, other)
    {
      var j := PlaceOf(rules, events, list, now, i, other);
      JudgeIs(rules, list[j], labels, source, regex);
    }
  }

  /** Where a key holds the alert back, the list does. */
  lemma HoldingKey(rules: seq<Rule>, events: seq<Event>, list: seq<Suppression>, labels: Labels, source: string,
                   regex: Regex, now: real, key: Key) returns (i: nat)
    requires IsFiringList(rules, events, list, now) && Holds(rules, events, key, labels, source, regex, now)
    ensures i < |list| && Judge(rules, list[i], labels, source, regex).Hold?
    ensures forall j | 0 <= j < i :: Judge(rules, list[j], labels, source, regex) == Skip
  {
    var at: nat :| at < |list| && KeyOf(list[at]) == key;
    JudgeIs(rules, list[at], labels, source, regex);
    i := 0;
    while Judge(rules, list[i], labels, source, regex) == Skip
      invariant i <= at < |list|
      invariant forall j | 0 <= j < i :: Judge(rules, list[j], labels, source, regex) == Skip
      decreases at - i
    {
      i := i + 1;
    }
    JudgeIs(rules, list[i], labels, source, regex);
    assert i < at ==> LastFor(rules, events, KeyOf(list[i])) < LastFor(rules, events, key);
    assert Firing(rules, events, KeyOf(list[i]), now);
  }

  /** A key that holds the alert back first is that of the first entry that says anything. */
  lemma FirstEntry(rules: seq<Rule>, events: seq<Event>, list: seq<Suppression>, labels: Labels, source: string,
                   regex: Regex, now: real, key: Key) returns (i: nat)
    requires IsFiringList(rules, events, list, now) && HoldsFirst(rules, events, key, labels, source, regex, now)
    ensures i < |list| && Judge(rules, list[i], labels, source, regex) == Hold(rules[key.rule].source)
    ensures forall j | 0 <= j < i :: Judge(rules, list[j], labels, source, regex) == Skip
  {
    i := HoldingKey(rules, events, list, labels, source, regex, now, key);
    HoldingEntry(rules, events, list, labels, source, regex, now, i);
    var j := PlaceOf(rules, events, list, now, i, key);
    var k := PlaceOf(rules, events, list, now, j, KeyOf(list[i]));
    assert i == j;
  }

  /**
   After every trace the list holds an alert back, in the name of this source, if and only if that is the source of
   the first key that does.
   */
  lemma HeldByIff(rules: seq<Rule>, events: seq<Event>, labels: Labels, source: string, regex: Regex, now: real,
                  holder: string)
    requires Ordered(events) && (events == [] || events[|events| - 1].at <= now)
    ensures HeldBy(Unexpired(Run(rules, events), now), rules, labels, source, regex, holder)
            <==> exists key :: NamesHolder(rules, events, key, labels, source, regex, now, holder)
  {
    MetList(rules, events, now);
    HeldByInList(rules, events, Unexpired(Run(rules, events), now), labels, source, regex, now, holder);
  }

  ghost predicate NamesHolder(rules: seq<Rule>, events: seq<Event>, key: Key, labels: Labels, source: string,
                              regex: Regex, now: real, holder: string)
  {
    HoldsFirst(rules, events, key, labels, source, regex, now) && rules[key.rule].source == holder
  }

  lemma HeldByInList(rules: seq<Rule>, events: seq<Event>, list: seq<Suppression>, labels: Labels, source: string,
                     regex: Regex, now: real, holder: string)
    requires IsFiringList(rules, events, list, now)
    ensures HeldBy(list, rules, labels, source, regex, holder)
            <==> exists key :: NamesHolder(rules, events, key, labels, source, regex, now, holder)
  {
    if HeldBy(list, rules, labels, source, regex, holder) {
      var i :| 0 <= i < |list| && Judge(rules, list[i], labels, source, regex) == Hold(holder)
               && forall j | 0 <= j < i :: Judge(rules, list[j], labels, source, regex) == Skip;
      HoldingEntry(rules, events, list, labels, source, regex, now, i);
      assert NamesHolder(rules, events, KeyOf(list[i]), labels, source, regex, now, holder);
    }
    if key :| NamesHolder(rules, events, key, labels, source, regex, now, holder) {
      var i := FirstEntry(rules, events, list, labels, source, regex, now, key);
    }
  }

  lemma HeldInList(rules: seq<Rule>, events: seq<Event>, list: seq<Suppression>, labels: Labels, source: string,
                   regex: Regex, now: real)
    requires IsFiringList(rules, events, list, now)
    ensures Held(list, rules, labels, source, regex)
            <==> exists key :: Holds(rules, events, key, labels, source, regex, now)
  {
    if Held(list, rules, labels, source, regex) {
      var i :| 0 <= i < |list| && Judge(rules, list[i], labels, source, regex).Hold?
               && forall j | 0 <= j < i :: Judge(rules, list[j], labels, source, regex) == Skip;
      HoldingEntry(rules, events, list, labels, source, regex, now, i);
    }
    if key :| Holds(rules, events, key, labels, source, regex, now) {
      var i := HoldingKey(rules, events, list, labels, source, regex, now, key);
    }
  }

  lemma ArmsIff(rules: seq<Rule>, source: string, labels: Labels)
    ensures Arms(rules, source, labels) <==> exists r :: IsOfRule(rules, source, labels, r)
  {
    if Arms(rules, source, labels) {
      SourceRuleIs(rules, source, labels, SourceRule(labels, rules).value);
    }
    if r :| IsOfRule(rules, source, labels, r) {
      SourceRuleIs(rules, source, labels, r);
    }
  }

  /**
   After every trace an alert is delivered if and only if it is a rule's own, or neither an acknowledgement nor a
   schedule nor any key holds it back.
   */
  lemma DeliveredIff(rules: seq<Rule>, events: seq<Event>, source: string, labels: Labels, ack: Option<string>,
                     mute: Option<string>, regex: Regex, now: real)
    requires Ordered(events) && (events == [] || events[|events| - 1].at <= now)
    ensures Delivers(Run(rules, events), rules, source, labels, ack, mute, regex, now)
            <==> || (exists r :: IsOfRule(rules, source, labels, r))
                 || (&& ack.None? && mute.None?
                     && forall key :: !Holds(rules, events, key, labels, source, regex, now))
  {
    MetList(rules, events, now);
    ArmsIff(rules, source, labels);
    HeldInList(rules, events, Unexpired(Run(rules, events), now), labels, source, regex, now);
  }
}
