/** Subsequences and strictly increasing sequences of numbers. */
module Subsequences {

  /** Can `a` be had from `b` by leaving elements out? */
  predicate Subseq(a: seq<nat>, b: seq<nat>) {
    a == [] || (b != [] && (Subseq(a, b[..|b| - 1])
                            || (a[|a| - 1] == b[|b| - 1] && Subseq(a[..|a| - 1], b[..|b| - 1]))))
  }

  predicate Increasing(s: seq<nat>) {
    forall i, j | 0 <= i < j < |s| :: s[i] < s[j]
  }

  lemma {:induction false} SubseqExtend(a: seq<nat>, b: seq<nat>, x: nat)
    requires Subseq(a, b)
    ensures Subseq(a, b + [x]) && Subseq(a + [x], b + [x])
  {
    assert (b + [x])[..|b|] == b && (a + [x])[..|a|] == a;
  }

  lemma {:induction false} SubseqFront(a: seq<nat>, b: seq<nat>)
    requires a != [] && Subseq(a, b)
    ensures Subseq(a[..|a| - 1], b)
  {
    if Subseq(a, b[..|b| - 1]) {
      SubseqFront(a, b[..|b| - 1]);
    }
  }

  lemma {:induction false} SubseqRefl(a: seq<nat>)
    ensures Subseq(a, a)
  {
    if a != [] {
      SubseqRefl(a[..|a| - 1]);
    }
  }

  lemma {:induction false} SubseqMember(a: seq<nat>, b: seq<nat>, x: nat)
    requires Subseq(a, b) && x in a
    ensures x in b
  {
    var front := b[..|b| - 1];
    if Subseq(a, front) {
      SubseqMember(a, front, x);
    } else if x in a[..|a| - 1] {
      SubseqMember(a[..|a| - 1], front, x);
    }
  }

  // ---- How often a number occurs ----

  function Count(s: seq<nat>, x: nat): nat {
    if s == [] then 0 else Count(s[..|s| - 1], x) + if s[|s| - 1] == x then 1 else 0
  }

  lemma {:induction false} CountConcat(a: seq<nat>, b: seq<nat>, x: nat)
    ensures Count(a + b, x) == Count(a, x) + Count(b, x)
  {
    if b == [] {
      assert a + b == a;
    } else {
      CountConcat(a, b[..|b| - 1], x);
      assert (a + b)[..|a + b| - 1] == a + b[..|b| - 1];
    }
  }

  lemma {:induction false} CountIncreasing(s: seq<nat>, x: nat)
    requires Increasing(s)
    ensures Count(s, x) == if x in s then 1 else 0
  {
    if s != [] {
      CountIncreasing(s[..|s| - 1], x);
      assert x in s <==> x in s[..|s| - 1] || x == s[|s| - 1];
    }
  }

  /** The elements of `s` that are not in `out`. */
  function Except(s: seq<nat>, out: seq<nat>): seq<nat> {
    if s == [] then []
    else Except(s[..|s| - 1], out) + if s[|s| - 1] in out then [] else [s[|s| - 1]]
  }

  lemma {:induction false} CountExcept(s: seq<nat>, out: seq<nat>, x: nat)
    ensures Count(Except(s, out), x) == if x in out then 0 else Count(s, x)
  {
    if s != [] {
      CountExcept(s[..|s| - 1], out, x);
      CountConcat(Except(s[..|s| - 1], out), if s[|s| - 1] in out then [] else [s[|s| - 1]], x);
      assert Count([s[|s| - 1]], x) == if s[|s| - 1] == x then 1 else 0;
    }
  }

  lemma {:induction false} SubseqIncreasing(a: seq<nat>, b: seq<nat>)
    requires Subseq(a, b) && Increasing(b)
    ensures Increasing(a)
  {
    if a != [] {
      var front := b[..|b| - 1];
      if Subseq(a, front) {
        SubseqIncreasing(a, front);
      } else {
        SubseqIncreasing(a[..|a| - 1], front);
        forall i | 0 <= i < |a| - 1 ensures a[i] < a[|a| - 1] {
          assert a[..|a| - 1][i] == a[i];
          SubseqMember(a[..|a| - 1], front, a[i]);
        }
      }
    }
  }

  /** Replacing the tail of an increasing sequence by a subsequence keeps it increasing. */
  lemma IncreasingTail(head: seq<nat>, a: seq<nat>, b: seq<nat>)
    requires Subseq(a, b) && Increasing(head + b)
    ensures Increasing(head + a)
  {
    var whole := head + b;
    assert forall i | 0 <= i < |b| :: b[i] == whole[|head| + i];
    assert Increasing(b);
    SubseqIncreasing(a, b);
    forall i, j | 0 <= i < |head| && 0 <= j < |a| ensures head[i] < a[j] {
      SubseqMember(a, b, a[j]);
      var k :| 0 <= k < |b| && b[k] == a[j];
      assert whole[i] == head[i] && whole[|head| + k] == a[j];
    }
    assert forall i | 0 <= i < |head| :: head[i] == whole[i];
  }
}
