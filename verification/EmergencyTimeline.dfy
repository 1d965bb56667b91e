/**
 The timeline preview of an emergency profile in static/app-emergencies-core.js.
 Times are real numbers; attempts are counted in whole numbers.
 */
module EmergencyTimeline {
  import opened Wrappers

  datatype Kind = Initial | Escalation(channel: string) | Limit | Expiry

  datatype Point = Point(at: real, kind: Kind)

  datatype Fallback = Fallback(channel: string, enabled: bool, afterAttempts: int)

  datatype Profile = Profile(retry: real, expiry: real, maxAttempts: int, telegram: Fallback, smtp: Fallback)

  function Ceil(x: real): int {
    -((-x).Floor)
  }

  function Min(a: int, b: int): int { if a <= b then a else b }
  function Max(a: int, b: int): int { if a <= b then b else a }

  /** What the rounded-up quotient is when the interval is zero as well. */
  datatype Quotient = Finite(steps: int) | Infinite | MinusInfinite | NotANumber

  function Steps(p: Profile): Quotient {
    if p.retry != 0.0 then Finite(Ceil(p.expiry / p.retry))
    else if p.expiry > 0.0 then Infinite
    else if p.expiry < 0.0 then MinusInfinite
    else NotANumber
  }

  /** None stands for a count that is not a number, which compares with nothing. */
  function PossibleAttempts(p: Profile): Option<int> {
    match Steps(p)
    case Finite(n) => Some(Max(1, Min(p.maxAttempts, n)))
    case Infinite => Some(Max(1, p.maxAttempts))
    case MinusInfinite => Some(1)
    case NotANumber => None
  }

  function AttemptTime(p: Profile, index: int): real {
    index as real * p.retry
  }

  predicate Sorted(points: seq<Point>) {
    forall i, j | 0 <= i < j < |points| :: points[i].at <= points[j].at
  }

  /** The stable sort of the built-in: a point goes behind all points that are not later. */
  function InsertByTime(points: seq<Point>, p: Point): seq<Point> {
    if points == [] || points[|points| - 1].at <= p.at then points + [p]
    else InsertByTime(points[..|points| - 1], p) + [points[|points| - 1]]
  }

  function SortByTime(points: seq<Point>): seq<Point> {
    if points == [] then [] else InsertByTime(SortByTime(points[..|points| - 1]), points[|points| - 1])
  }

  predicate Shown(p: Profile, f: Fallback) {
    f.enabled && PossibleAttempts(p).Some? && f.afterAttempts <= PossibleAttempts(p).value
  }

  function EscalationPoints(p: Profile, f: Fallback): seq<Point> {
    if Shown(p, f) then [Point(AttemptTime(p, f.afterAttempts - 1), Escalation(f.channel))] else []
  }

  function LimitPoints(p: Profile): seq<Point> {
    if PossibleAttempts(p) == Some(p.maxAttempts) then [Point(AttemptTime(p, p.maxAttempts - 1), Limit)] else []
  }

  function Fallbacks(p: Profile): seq<Fallback> {
    [p.telegram, p.smtp]
  }

  function Escalations(p: Profile, fallbacks: seq<Fallback>): seq<Point> {
    if fallbacks == [] then []
    else Escalations(p, fallbacks[..|fallbacks| - 1]) + EscalationPoints(p, fallbacks[|fallbacks| - 1])
  }

  function Unsorted(p: Profile): seq<Point> {
    [Point(0.0, Initial)] + Escalations(p, Fallbacks(p)) + LimitPoints(p) + [Point(p.expiry, Expiry)]
  }

  /** The built-in sort. */
  method Sort(points: seq<Point>) returns (sorted: seq<Point>)
    ensures sorted == SortByTime(points)
    ensures Sorted(sorted) && multiset(sorted) == multiset(points)
  {
    SortFacts(points);
    sorted := SortByTime(points);
  }

  /** The list that renderTimeline shows. */
  method RenderTimeline(p: Profile) returns (points: seq<Point>)
    ensures points == SortByTime(Unsorted(p))
    ensures Sorted(points) && multiset(points) == multiset(Unsorted(p))
  {
    var possible := PossibleAttempts(p);
    points := [Point(0.0, Initial)];
    var fallbacks := Fallbacks(p);
    for i := 0 to |fallbacks|
      invariant points == [Point(0.0, Initial)] + Escalations(p, fallbacks[..i])
    {
      var fallback := fallbacks[i];
      assert fallbacks[..i + 1][..i] == fallbacks[..i];
      if fallback.enabled && possible.Some? && fallback.afterAttempts <= possible.value {
        points := points + [Point(AttemptTime(p, fallback.afterAttempts - 1), Escalation(fallback.channel))];
      }
    }
    assert fallbacks[..|fallbacks|] == fallbacks;
    if possible == Some(p.maxAttempts) {
      points := points + [Point(AttemptTime(p, p.maxAttempts - 1), Limit)];
    }
    assert points == [Point(0.0, Initial)] + Escalations(p, fallbacks) + LimitPoints(p);
    points := points + [Point(p.expiry, Expiry)];
    points := Sort(points);
  }

  // ---- Attempts before expiry ----

  /** An attempt happens before expiry exactly when its index is below the quotient rounded up. */
  lemma BeforeExpiryIff(p: Profile, index: int)
    requires p.retry > 0.0
    ensures AttemptTime(p, index) < p.expiry <==> index < Ceil(p.expiry / p.retry)
  {
    var q := p.expiry / p.retry;
    assert q * p.retry == p.expiry;
    var i := index as real;
    if i < q {
      assert i * p.retry < q * p.retry by { Scale(i, q, p.retry); }
      assert index < Ceil(q);
    } else {
      assert q * p.retry <= i * p.retry by { ScaleWeak(q, i, p.retry); }
      assert Ceil(q) <= index;
    }
  }

  lemma Scale(a: real, b: real, c: real)
    requires a < b && c > 0.0
    ensures a * c < b * c
  {
    assert (b - a) * c > 0.0;
  }

  lemma ScaleWeak(a: real, b: real, c: real)
    requires a <= b && c > 0.0
    ensures a * c <= b * c
  {
    assert (b - a) * c >= 0.0;
  }

  predicate InTime(p: Profile, index: int) {
    AttemptTime(p, index) < p.expiry
  }

  /** The attempt indices from 0 that are below the maximum and whose time is before expiry. */
  function AttemptIndices(p: Profile): set<int> {
    set i | 0 <= i < p.maxAttempts && InTime(p, i)
  }

  function Below(n: nat): (s: set<int>)
    ensures |s| == n
    ensures forall i :: i in s <==> 0 <= i < n
  {
    if n == 0 then {} else Below(n - 1) + {n - 1}
  }

  /** The number that is shown is the number of attempts that can happen. */
  lemma PossibleAttemptsCounts(p: Profile)
    requires p.retry > 0.0 && p.expiry > 0.0 && p.maxAttempts > 0
    ensures PossibleAttempts(p) == Some(|AttemptIndices(p)|)
  {
    BeforeExpiryIff(p, 0);
    var n := Min(p.maxAttempts, Ceil(p.expiry / p.retry));
    forall i ensures i in AttemptIndices(p) <==> 0 <= i < n {
      BeforeExpiryIff(p, i);
    }
    assert AttemptIndices(p) == Below(n);
  }

  // ---- The sorted list ----

  predicate NoneLater(points: seq<Point>, at: real) {
    forall i | 0 <= i < |points| :: points[i].at <= at
  }

  lemma {:induction false} InsertNoneLater(points: seq<Point>, p: Point, at: real)
    requires NoneLater(points, at) && p.at <= at
    ensures NoneLater(InsertByTime(points, p), at)
  {
    if points != [] && points[|points| - 1].at > p.at {
      InsertNoneLater(points[..|points| - 1], p, at);
    }
  }

  lemma SortedSnoc(points: seq<Point>, p: Point)
    requires Sorted(points) && NoneLater(points, p.at)
    ensures Sorted(points + [p])
  {}

  lemma {:induction false} InsertSorted(points: seq<Point>, p: Point)
    requires Sorted(points)
    ensures Sorted(InsertByTime(points, p))
  {
    if points == [] || points[|points| - 1].at <= p.at {
      assert NoneLater(points, p.at);
      SortedSnoc(points, p);
    } else {
      var front, last := points[..|points| - 1], points[|points| - 1];
      assert forall i | 0 <= i < |front| :: front[i] == points[i];
      InsertSorted(front, p);
      InsertNoneLater(front, p, last.at);
      SortedSnoc(InsertByTime(front, p), last);
    }
  }

  lemma {:induction false} InsertAdds(points: seq<Point>, p: Point)
    ensures multiset(InsertByTime(points, p)) == multiset(points) + multiset{p}
  {
    if points != [] && points[|points| - 1].at > p.at {
      var front := points[..|points| - 1];
      assert points == front + [points[|points| - 1]];
      InsertAdds(front, p);
    }
  }

  lemma {:induction false} SortFacts(points: seq<Point>)
    ensures Sorted(SortByTime(points))
    ensures multiset(SortByTime(points)) == multiset(points)
  {
    if points != [] {
      assert points == points[..|points| - 1] + [points[|points| - 1]];
      SortFacts(points[..|points| - 1]);
      var sorted, last := SortByTime(points[..|points| - 1]), points[|points| - 1];
      InsertSorted(sorted, last);
      InsertAdds(sorted, last);
    }
  }

  predicate CountsFromOne(p: Profile, f: Fallback) {
    Shown(p, f) ==> f.afterAttempts >= 1
  }

  lemma EscalationNotNegative(p: Profile, f: Fallback)
    requires p.retry > 0.0
    ensures AttemptTime(p, f.afterAttempts - 1) >= 0.0 <==> f.afterAttempts >= 1
  {
    var i := (f.afterAttempts - 1) as real;
    if f.afterAttempts >= 1 {
      ScaleWeak(0.0, i, p.retry);
    } else {
      Scale(i, 0.0, p.retry);
    }
  }

  /** A sorted arrangement starts no later and ends no earlier than any of its points. */
  lemma Extremes(t: seq<Point>, u: seq<Point>, q: Point)
    requires Sorted(t) && multiset(t) == multiset(u) && q in u
    ensures t != [] && t[0] in u && t[|t| - 1] in u
    ensures t[0].at <= q.at <= t[|t| - 1].at
  {
    assert q in multiset(t);
    assert t[0] in multiset(u) && t[|t| - 1] in multiset(u);
    var i :| 0 <= i < |t| && t[i] == q;
  }

  /** Every point before expiry is the initial one, an escalation that is shown, or the limit. */
  lemma PointsAre(p: Profile)
    ensures forall q :: q in Unsorted(p) <==>
      || q == Point(0.0, Initial)
      || q in EscalationPoints(p, p.telegram)
      || q in EscalationPoints(p, p.smtp)
      || q in LimitPoints(p)
      || q == Point(p.expiry, Expiry)
  {
    assert Fallbacks(p)[..1] == [p.telegram];
    assert Escalations(p, Fallbacks(p)) == EscalationPoints(p, p.telegram) + EscalationPoints(p, p.smtp) by {
      assert Escalations(p, [p.telegram]) == EscalationPoints(p, p.telegram);
    }
  }

  /** Every escalation and the attempt limit lie strictly before expiry. */
  lemma MilestonesBeforeExpiry(p: Profile, q: Point)
    requires p.retry > 0.0 && p.expiry > 0.0 && p.maxAttempts > 0
    requires q in Unsorted(p) && !q.kind.Expiry?
    ensures q.at < p.expiry
  {
    PointsAre(p);
    BeforeExpiryIff(p, 0);
    BeforeExpiryIff(p, p.maxAttempts - 1);
    BeforeExpiryIff(p, p.telegram.afterAttempts - 1);
    BeforeExpiryIff(p, p.smtp.afterAttempts - 1);
  }

  lemma StartsAtZeroIff(p: Profile, t: seq<Point>)
    requires p.retry > 0.0 && p.expiry > 0.0 && p.maxAttempts > 0
    requires Sorted(t) && multiset(t) == multiset(Unsorted(p)) && t != []
    ensures t[0].at == 0.0 <==> CountsFromOne(p, p.telegram) && CountsFromOne(p, p.smtp)
  {
    PointsAre(p);
    Extremes(t, Unsorted(p), Point(0.0, Initial));
    EscalationNotNegative(p, p.telegram);
    EscalationNotNegative(p, p.smtp);
    ScaleWeak(0.0, (p.maxAttempts - 1) as real, p.retry);
    if Shown(p, p.telegram) {
      Extremes(t, Unsorted(p), EscalationPoints(p, p.telegram)[0]);
    }
    if Shown(p, p.smtp) {
      Extremes(t, Unsorted(p), EscalationPoints(p, p.smtp)[0]);
    }
  }

  /**
   The timeline shows every point, in order, and ends at expiry; it starts at 0 if and only
   if every escalation shown is set to happen after at least one attempt.
   */
  lemma TimelineShape(p: Profile)
    requires p.retry > 0.0 && p.expiry > 0.0 && p.maxAttempts > 0
    ensures var t := SortByTime(Unsorted(p));
            && Sorted(t) && multiset(t) == multiset(Unsorted(p)) && t != []
            && t[|t| - 1] == Point(p.expiry, Expiry)
            && (t[0].at == 0.0 <==> CountsFromOne(p, p.telegram) && CountsFromOne(p, p.smtp))
  {
    var t := SortByTime(Unsorted(p));
    SortFacts(Unsorted(p));
    PointsAre(p);
    Extremes(t, Unsorted(p), Point(p.expiry, Expiry));
    if !t[|t| - 1].kind.Expiry? {
      MilestonesBeforeExpiry(p, t[|t| - 1]);
    }
    StartsAtZeroIff(p, t);
  }

  /** The first escalation is set to happen after no attempt at all. */
  predicate EscalatesAtOnce(p: Profile) {
    p.retry > 0.0 && p.telegram.enabled && p.telegram.afterAttempts == 0
  }

  lemma EarlyPoint(p: Profile)
    requires EscalatesAtOnce(p)
    ensures Point(-p.retry, Escalation(p.telegram.channel)) in Unsorted(p)
  {
    PointsAre(p);
    assert AttemptTime(p, -1) == -p.retry;
    assert Shown(p, p.telegram);
    assert Point(-p.retry, Escalation(p.telegram.channel)) == EscalationPoints(p, p.telegram)[0];
  }

  lemma StartsNoLater(t: seq<Point>, u: seq<Point>, q: Point)
    requires Sorted(t) && multiset(t) == multiset(u) && q in u
    ensures t != [] && t[0].at <= q.at && q in t
  {
    Extremes(t, u, q);
    assert q in multiset(t);
  }

  /** It is drawn one interval before the start. */
  lemma StartsBeforeZero(p: Profile)
    requires EscalatesAtOnce(p)
    ensures var t := SortByTime(Unsorted(p));
            && t != [] && t[0].at < 0.0
            && Point(-p.retry, Escalation(p.telegram.channel)) in t
  {
    EarlyPoint(p);
    SortFacts(Unsorted(p));
    StartsNoLater(SortByTime(Unsorted(p)), Unsorted(p), Point(-p.retry, Escalation(p.telegram.channel)));
  }

  /** An enabled escalation counts no attempt beyond the maximum, and the last one it counts is before expiry. */
  predicate Reached(p: Profile, f: Fallback) {
    f.enabled && f.afterAttempts <= p.maxAttempts && (f.afterAttempts - 1) as real * p.retry < p.expiry
  }

  lemma ShownIff(p: Profile, f: Fallback)
    requires p.retry >= 0.0 && p.expiry > 0.0 && p.maxAttempts > 0
    ensures Shown(p, f) <==> Reached(p, f)
  {
    if p.retry > 0.0 {
      BeforeExpiryIff(p, f.afterAttempts - 1);
      BeforeExpiryIff(p, 0);
    }
  }

  lemma LimitIff(p: Profile)
    requires p.retry >= 0.0 && p.expiry > 0.0 && p.maxAttempts > 0
    ensures PossibleAttempts(p) == Some(p.maxAttempts) <==> (p.maxAttempts - 1) as real * p.retry < p.expiry
  {
    if p.retry > 0.0 {
      BeforeExpiryIff(p, p.maxAttempts - 1);
      BeforeExpiryIff(p, 0);
    }
  }

  /** The point of an escalation: at the attempt whose number it counts to. */
  predicate IsEscalation(p: Profile, f: Fallback, q: Point) {
    q.kind == Escalation(f.channel) && q.at == (f.afterAttempts - 1) as real * p.retry
  }

  lemma EscalationIn(p: Profile, f: Fallback, q: Point)
    requires p.retry >= 0.0 && p.expiry > 0.0 && p.maxAttempts > 0
    ensures q in EscalationPoints(p, f) <==> Reached(p, f) && IsEscalation(p, f, q)
  {
    ShownIff(p, f);
  }

  lemma LimitIn(p: Profile, q: Point)
    requires p.retry >= 0.0 && p.expiry > 0.0 && p.maxAttempts > 0
    ensures q in LimitPoints(p) <==> q.kind == Limit && q.at == (p.maxAttempts - 1) as real * p.retry && q.at < p.expiry
  {
    LimitIff(p);
    var point := Point(AttemptTime(p, p.maxAttempts - 1), Limit);
    assert q == point <==> q.kind == Limit && q.at == (p.maxAttempts - 1) as real * p.retry;
    assert q in [point] <==> q == point;
  }

  lemma SortedHas(points: seq<Point>, q: Point)
    ensures q in SortByTime(points) <==> q in points
  {
    SortFacts(points);
    assert q in multiset(SortByTime(points)) <==> q in multiset(points);
  }

  /**
   The list shows the start, each escalation that is reached before expiry, the last attempt if that is before expiry,
   and the expiry, and nothing else.
   */
  lemma MilestonesAre(p: Profile, q: Point)
    requires p.retry >= 0.0 && p.expiry > 0.0 && p.maxAttempts > 0
    ensures q in SortByTime(Unsorted(p))
            <==> || q == Point(0.0, Initial)
                 || (Reached(p, p.telegram) && IsEscalation(p, p.telegram, q))
                 || (Reached(p, p.smtp) && IsEscalation(p, p.smtp, q))
                 || (q.kind == Limit && q.at == (p.maxAttempts - 1) as real * p.retry && q.at < p.expiry)
                 || q == Point(p.expiry, Expiry)
  {
    SortedHas(Unsorted(p), q);
    PointsAre(p);
    EscalationIn(p, p.telegram, q);
    EscalationIn(p, p.smtp, q);
    LimitIn(p, q);
  }

  // ---- Points at the same time ----

  /** The points at this time, in their order. */
  function At(points: seq<Point>, at: real): seq<Point> {
    if points == [] then []
    else
      var last := points[|points| - 1];
      At(points[..|points| - 1], at) + if last.at == at then [last] else []
  }

  lemma AtSnoc(points: seq<Point>, p: Point, longer: seq<Point>, at: real)
    requires longer == points + [p]
    ensures At(longer, at) == At(points, at) + if p.at == at then [p] else []
  {
    assert longer[..|points|] == points;
  }

  lemma {:induction false} InsertKeepsTies(points: seq<Point>, p: Point, at: real)
    ensures At(InsertByTime(points, p), at) == At(points, at) + if p.at == at then [p] else []
  {
    if points == [] || points[|points| - 1].at <= p.at {
      AtSnoc(points, p, InsertByTime(points, p), at);
    } else {
      var front, last := points[..|points| - 1], points[|points| - 1];
      InsertKeepsTies(front, p, at);
      AtSnoc(InsertByTime(front, p), last, InsertByTime(points, p), at);
      AtSnoc(front, last, points, at);
    }
  }

  lemma SortSnoc(points: seq<Point>, p: Point, longer: seq<Point>)
    requires longer == points + [p]
    ensures SortByTime(longer) == InsertByTime(SortByTime(points), p)
  {
    assert longer[..|points|] == points;
  }

  /** Points at the same time are listed in the order in which they were collected. */
  lemma {:induction false} TiesKeepOrder(points: seq<Point>, at: real)
    ensures At(SortByTime(points), at) == At(points, at)
  {
    if points != [] {
      var front, last := points[..|points| - 1], points[|points| - 1];
      assert points == front + [last];
      var sorted := SortByTime(front);
      TiesKeepOrder(front, at);
      SortSnoc(front, last, points);
      InsertKeepsTies(sorted, last, at);
      AtSnoc(front, last, points, at);
    }
  }
}
