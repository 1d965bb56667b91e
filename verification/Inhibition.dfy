/**
 The list of active suppressions of src/inhibition.rs: how source alerts arm and
 disarm it, how it expires, and how it decides whether an alert is held back.
 */
module Inhibition {
  import opened Wrappers

  type Labels = map<string, string>

  datatype Rule = Rule(
    source: string, matchBy: Option<string>, ttl: nat, matchAll: bool, appliesTo: seq<string>,
    matchLabel: Option<string>, matchRegex: Option<string>)

  datatype Suppression = Suppression(rule: nat, anchor: Option<string>, expiry: real)

  datatype Key = Key(rule: nat, anchor: Option<string>)

  /** Does the pattern compile and match this text? */
  type Regex = (string, string) -> bool

  function LabelOr(labels: Labels, name: string): string {
    if name in labels then labels[name] else ""
  }

  function KeyOf(s: Suppression): Key {
    Key(s.rule, s.anchor)
  }

  /** The key that an alert for this rule arms or disarms, if it is accepted. */
  function AlertKey(rules: seq<Rule>, idx: nat, labels: Labels): Option<Key> {
    if idx >= |rules| then None
    else if rules[idx].matchBy.None? then Some(Key(idx, None))
    else
      var val := LabelOr(labels, rules[idx].matchBy.value);
      if val == "" then None else Some(Key(idx, Some(val)))
  }

  function Unexpired(list: seq<Suppression>, now: real): seq<Suppression> {
    if list == [] then []
    else
      var last := list[|list| - 1];
      Unexpired(list[..|list| - 1], now) + if last.expiry > now then [last] else []
  }

  function WithoutKey(list: seq<Suppression>, key: Key): seq<Suppression> {
    if list == [] then []
    else
      var last := list[|list| - 1];
      WithoutKey(list[..|list| - 1], key) + if KeyOf(last) != key then [last] else []
  }

  function Registered(list: seq<Suppression>, rules: seq<Rule>, idx: nat, labels: Labels, resolved: bool, now: real)
    : seq<Suppression>
  {
    var key := AlertKey(rules, idx, labels);
    if key.None? then list
    else
      WithoutKey(list, key.value) +
      if resolved then [] else [Suppression(idx, key.value.anchor, now + rules[idx].ttl as real)]
  }

  /** What one active entry says about an alert: nothing, that it passes, or that it is held back. */
  datatype Verdict = Skip | Pass | Hold(source: string)

  function Judge(rules: seq<Rule>, s: Suppression, labels: Labels, source: string, regex: Regex): Verdict {
    if s.rule >= |rules| then Skip
    else
      var rule := rules[s.rule];
      if rule.source == LabelOr(labels, "inhibition_source") then Pass
      else if rule.appliesTo != [] && source !in rule.appliesTo then Skip
      else if rule.matchAll then Hold(rule.source)
      else if rule.matchBy.Some? && LabelOr(labels, rule.matchBy.value) != ""
              && s.anchor == Some(LabelOr(labels, rule.matchBy.value)) then Hold(rule.source)
      else if rule.matchLabel.Some? && rule.matchRegex.Some? && LabelOr(labels, rule.matchLabel.value) != ""
              && regex(rule.matchRegex.value, LabelOr(labels, rule.matchLabel.value)) then Hold(rule.source)
      else Skip
  }

  /** Is this an alert of a rule's own source? */
  predicate Arms(rules: seq<Rule>, source: string, labels: Labels) {
    source == "grafana" && SourceRule(labels, rules).Some?
  }

  /** The list after an incoming alert; `quiet` says that neither an acknowledgement nor a schedule holds it back. */
  function AfterAlert(list: seq<Suppression>, rules: seq<Rule>, source: string, labels: Labels, dryRun: bool,
                      quiet: bool, now: real): seq<Suppression>
  {
    if Arms(rules, source, labels) then
      if dryRun then list
      else
        Registered(list, rules, SourceRule(labels, rules).value, labels, LabelOr(labels, "status") == "resolved", now)
    else if quiet then Unexpired(list, now)
    else list
  }

  predicate Delivers(list: seq<Suppression>, rules: seq<Rule>, source: string, labels: Labels, ack: Option<string>,
                     mute: Option<string>, regex: Regex, now: real)
  {
    || Arms(rules, source, labels)
    || (ack.None? && mute.None? && !Held(Unexpired(list, now), rules, labels, source, regex))
  }

  class InhibitionList {
    var suppressions: seq<Suppression>

    constructor ()
      ensures suppressions == []
    {
      suppressions := [];
    }

    method CleanupExpired(now: real)
      modifies this
      ensures suppressions == Unexpired(old(suppressions), now)
    {
      var kept := [];
      for i := 0 to |suppressions|
        invariant suppressions == old(suppressions) && kept == Unexpired(suppressions[..i], now)
      {
        assert suppressions[..i + 1][..i] == suppressions[..i];
        if suppressions[i].expiry > now {
          kept := kept + [suppressions[i]];
        }
      }
      assert suppressions[..|suppressions|] == suppressions;
      suppressions := kept;
    }

    method RegisterSuppression(rules: seq<Rule>, idx: nat, labels: Labels, resolved: bool, now: real)
      modifies this
      ensures suppressions == Registered(old(suppressions), rules, idx, labels, resolved, now)
    {
      if idx >= |rules| {
        return;
      }
      var rule := rules[idx];
      var anchor := None;
      if rule.matchBy.Some? {
        var val := LabelOr(labels, rule.matchBy.value);
        if val == "" {
          return;
        }
        anchor := Some(val);
      }
      var kept := [];
      for i := 0 to |suppressions|
        invariant suppressions == old(suppressions) && kept == WithoutKey(suppressions[..i], Key(idx, anchor))
      {
        assert suppressions[..i + 1][..i] == suppressions[..i];
        if !(suppressions[i].rule == idx && suppressions[i].anchor == anchor) {
          kept := kept + [suppressions[i]];
        }
      }
      assert suppressions[..|suppressions|] == suppressions;
      suppressions := kept;
      if !resolved {
        suppressions := suppressions + [Suppression(idx, anchor, now + rule.ttl as real)];
      }
    }

    /** The alert is held back exactly when the first entry that decides anything says so. */
    method IsSuppressed(rules: seq<Rule>, labels: Labels, source: string, regex: Regex, now: real)
      returns (holder: Option<string>)
      modifies this
      ensures suppressions == Unexpired(old(suppressions), now)
      ensures holder.Some? <==> Held(suppressions, rules, labels, source, regex)
      ensures holder.Some? ==> HeldBy(suppressions, rules, labels, source, regex, holder.value)
    {
      CleanupExpired(now);
      var active := suppressions;
      if active == [] {
        return None;
      }
      var ownSource := LabelOr(labels, "inhibition_source");
      for i := 0 to |active|
        invariant active == suppressions == Unexpired(old(suppressions), now)
        invariant forall j | 0 <= j < i :: Judge(rules, active[j], labels, source, regex) == Skip
      {
        var s := active[i];
        if s.rule >= |rules| {
          continue;
        }
        var rule := rules[s.rule];
        if rule.source == ownSource {
          assert Judge(rules, active[i], labels, source, regex) == Pass;
          return None;
        }
        if rule.appliesTo != [] && source !in rule.appliesTo {
          continue;
        }
        if rule.matchAll {
          return Some(rule.source);
        }
        if rule.matchBy.Some? {
          var target := LabelOr(labels, rule.matchBy.value);
          if target != "" && Some(target) == s.anchor {
            return Some(rule.source);
          }
        }
        if rule.matchLabel.Some? && rule.matchRegex.Some? {
          var target := LabelOr(labels, rule.matchLabel.value);
          if target != "" && regex(rule.matchRegex.value, target) {
            return Some(rule.source);
          }
        }
      }
      return None;
    }

    /** `ack` and `mute` are what the acknowledgement and the schedule say about the alert. */
    method ApplyInhibition(rules: seq<Rule>, source: string, labels: Labels, dryRun: bool, ack: Option<string>,
                           mute: Option<string>, regex: Regex, now: real)
      returns (deliver: bool, reason: string)
      modifies this
      ensures suppressions == AfterAlert(old(suppressions), rules, source, labels, dryRun, ack.None? && mute.None?, now)
      ensures deliver <==> Delivers(old(suppressions), rules, source, labels, ack, mute, regex, now)
      ensures Arms(rules, source, labels) ==> reason == "source"
      ensures !Arms(rules, source, labels) && ack.Some? ==> reason == "ack-snoozed-" + ack.value
      ensures !Arms(rules, source, labels) && ack.None? && mute.Some? ==> reason == "scheduled-mute-" + mute.value
      ensures !Arms(rules, source, labels) && ack.None? && mute.None? ==>
                if deliver then reason == "ok"
                else exists holder ::
                       && HeldBy(Unexpired(old(suppressions), now), rules, labels, source, regex, holder)
                       && reason == "inhibited-by-" + holder
    {
      if source == "grafana" {
        var idx := AlertIsSource(labels, rules);
        if idx.Some? {
          if !dryRun {
            RegisterSuppression(rules, idx.value, labels, LabelOr(labels, "status") == "resolved", now);
          }
          return true, "source";
        }
      }
      if ack.Some? {
        return false, "ack-snoozed-" + ack.value;
      }
      if mute.Some? {
        return false, "scheduled-mute-" + mute.value;
      }
      var holder := IsSuppressed(rules, labels, source, regex, now);
      if holder.Some? {
        return false, "inhibited-by-" + holder.value;
      }
      return true, "ok";
    }
  }

  /** The first entry that decides anything holds the alert back in the name of this source. */
  predicate HeldBy(list: seq<Suppression>, rules: seq<Rule>, labels: Labels, source: string, regex: Regex,
                   holder: string)
  {
    exists i | 0 <= i < |list| ::
      && Judge(rules, list[i], labels, source, regex) == Hold(holder)
      && forall j | 0 <= j < i :: Judge(rules, list[j], labels, source, regex) == Skip
  }

  predicate Held(list: seq<Suppression>, rules: seq<Rule>, labels: Labels, source: string, regex: Regex) {
    exists i | 0 <= i < |list| ::
      && Judge(rules, list[i], labels, source, regex).Hold?
      && forall j | 0 <= j < i :: Judge(rules, list[j], labels, source, regex) == Skip
  }

  function SourceRule(labels: Labels, rules: seq<Rule>): Option<nat> {
    if "inhibition_source" !in labels then None else FirstWithSource(labels["inhibition_source"], rules, 0)
  }

  function FirstWithSource(source: string, rules: seq<Rule>, from: nat): Option<nat>
    requires from <= |rules|
    decreases |rules| - from
  {
    if from == |rules| then None
    else if rules[from].source == source then Some(from)
    else FirstWithSource(source, rules, from + 1)
  }

  /** The first rule whose source the alert carries. */
  method AlertIsSource(labels: Labels, rules: seq<Rule>) returns (idx: Option<nat>)
    ensures idx == SourceRule(labels, rules)
    ensures idx.Some? ==>
      && idx.value < |rules| && "inhibition_source" in labels && rules[idx.value].source == labels["inhibition_source"]
      && forall j | 0 <= j < idx.value :: rules[j].source != labels["inhibition_source"]
    ensures idx.None? && "inhibition_source" in labels ==>
      forall j | 0 <= j < |rules| :: rules[j].source != labels["inhibition_source"]
  {
    if "inhibition_source" !in labels {
      return None;
    }
    var source := labels["inhibition_source"];
    for i := 0 to |rules|
      invariant forall j | 0 <= j < i :: rules[j].source != source
      invariant SourceRule(labels, rules) == FirstWithSource(source, rules, i)
    {
      if rules[i].source == source {
        return Some(i);
      }
    }
    return None;
  }
}
