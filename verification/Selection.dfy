/** Walking a half-open range of integers and keeping those that satisfy a predicate. */
module Selection {
  /** How many of `lo..hi` satisfy `p`. */
  ghost function Tally(p: int -> bool, lo: int, hi: int): nat
    decreases hi - lo
  {
    if hi <= lo then 0 else Tally(p, lo, hi - 1) + if p(hi - 1) then 1 else 0
  }

  /** Those of `lo..hi` that satisfy `p`, ascending. */
  ghost function Chosen(p: int -> bool, lo: int, hi: int): seq<int>
    decreases hi - lo
  {
    if hi <= lo then [] else Chosen(p, lo, hi - 1) + if p(hi - 1) then [hi - 1] else []
  }

  function Cut<T>(q: seq<T>, cap: int): seq<T>
    requires cap >= 0
  {
    if |q| <= cap then q else q[..cap]
  }

  /** `xs` lists, ascending, the first `cap` of all the integers that satisfy `p`. */
  ghost predicate IsFirst(xs: seq<int>, p: int -> bool, cap: int) {
    && (forall i, j :: 0 <= i < j < |xs| ==> xs[i] < xs[j])
    && (forall x :: x in xs ==> p(x))
    && |xs| <= cap
    && (forall x :: p(x) ==> x in xs || (|xs| == cap && forall y :: y in xs ==> y < x))
  }

  /** `IsFirst` determines the list. */
  lemma FirstIsUnique(a: seq<int>, b: seq<int>, p: int -> bool, cap: int)
    requires IsFirst(a, p, cap) && IsFirst(b, p, cap)
    ensures a == b
  {
    NotLonger(a, b, p, cap);
    NotLonger(b, a, p, cap);
    AgreeUpTo(a, b, p, cap, |a|);
  }

  lemma NotLonger(a: seq<int>, b: seq<int>, p: int -> bool, cap: int)
    requires IsFirst(a, p, cap) && IsFirst(b, p, cap)
    ensures |b| <= |a|
  {
    assert |a| < |b| ==> b[|a|] in b;
    AgreeUpTo(a, b, p, cap, if |a| < |b| then |a| else |b|);
  }

  lemma {:induction false} AgreeUpTo(a: seq<int>, b: seq<int>, p: int -> bool, cap: int, n: nat)
    requires IsFirst(a, p, cap) && IsFirst(b, p, cap) && n <= |a| && n <= |b|
    ensures forall i :: 0 <= i < n ==> a[i] == b[i]
  {
    if n > 0 {
      AgreeUpTo(a, b, p, cap, n - 1);
      assert a[n - 1] in a && b[n - 1] in b;
    }
  }

  lemma {:induction false} ChosenElements(p: int -> bool, lo: int, hi: int)
    ensures var q := Chosen(p, lo, hi);
            && (forall i, j :: 0 <= i < j < |q| ==> q[i] < q[j])
            && (forall x :: x in q <==> lo <= x < hi && p(x))
    decreases hi - lo
  {
    if lo < hi {
      ChosenElements(p, lo, hi - 1);
      var q := Chosen(p, lo, hi - 1);
      assert forall i :: 0 <= i < |q| ==> q[i] in q;
    }
  }

  lemma {:induction false} TallyGrows(p: int -> bool, lo: int, a: int, b: int)
    requires a <= b
    ensures Tally(p, lo, a) <= Tally(p, lo, b)
    decreases b - a
  {
    if a < b {
      TallyGrows(p, lo, a, b - 1);
    }
  }

  lemma {:induction false} ChosenGrows(p: int -> bool, lo: int, a: int, b: int)
    requires a <= b
    ensures Chosen(p, lo, a) <= Chosen(p, lo, b)
    decreases b - a
  {
    if a < b {
      ChosenGrows(p, lo, a, b - 1);
    }
  }

  /** A stretch without members changes neither the tally nor the list. */
  lemma {:induction false} TallyGap(p: int -> bool, lo: int, a: int, b: int)
    requires a <= b && forall d :: a <= d < b ==> !p(d)
    ensures Tally(p, lo, b) == Tally(p, lo, a)
    decreases b - a
  {
    if a < b {
      TallyGap(p, lo, a, b - 1);
    }
  }

  lemma {:induction false} ChosenGap(p: int -> bool, lo: int, a: int, b: int)
    requires a <= b && forall d :: a <= d < b ==> !p(d)
    ensures Chosen(p, lo, b) == Chosen(p, lo, a)
    decreases b - a
  {
    if a < b {
      ChosenGap(p, lo, a, b - 1);
    }
  }

  lemma {:induction false} TallySame(p: int -> bool, q: int -> bool, lo: int, hi: int)
    requires forall d :: p(d) <==> q(d)
    ensures Tally(p, lo, hi) == Tally(q, lo, hi)
    decreases hi - lo
  {
    if lo < hi {
      TallySame(p, q, lo, hi - 1);
    }
  }

  /** Stopping at `hi` loses nothing exactly when the cap was reached or nothing follows. */
  lemma CutIsFirst(p: int -> bool, lo: int, hi: int, cap: int)
    requires cap >= 0 && forall x :: p(x) ==> lo <= x
    ensures IsFirst(Cut(Chosen(p, lo, hi), cap), p, cap)
            <==> |Chosen(p, lo, hi)| >= cap || forall x :: x >= hi ==> !p(x)
  {
    ChosenElements(p, lo, hi);
    var q := Chosen(p, lo, hi);
    var out := Cut(q, cap);
    assert forall i :: 0 <= i < |out| ==> out[i] == q[i];
    assert forall x :: x in out ==> x in q;
    forall x | p(x) && x < hi ensures x in out || (|out| == cap && forall y :: y in out ==> y < x) {
      var k :| 0 <= k < |q| && q[k] == x;
      assert k < |out| ==> out[k] == x;
    }
  }
}
