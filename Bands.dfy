/**
  Interval guards with integer end points, as the colour classifier writes them
  (`a <= x < b`, `a < x <= b`, `x < a`, `a < x`), and the theory of a table of
  such guards run one after another, each overwriting the colour when it holds.
 */
module Bands {
  import opened Wrappers
  import opened Colors

  /** The lower end of a guard: absent, closed (`a <= x`) or open (`a < x`). */
  datatype Lower = NoLower | AtLeast(x: int) | Above(x: int)

  /** The upper end of a guard: absent, open (`x < b`) or closed (`x <= b`). */
  datatype Upper = NoUpper | Below(y: int) | AtMost(y: int)

  /** One guard of the classifier together with the colour name it assigns. */
  datatype Band = Band(lo: Lower, hi: Upper, color: Color)

  predicate MeetsLower(lo: Lower, v: real)
  {
    match lo
    case NoLower => true
    case AtLeast(x) => x as real <= v
    case Above(x) => x as real < v
  }

  predicate MeetsUpper(hi: Upper, v: real)
  {
    match hi
    case NoUpper => true
    case Below(y) => v < y as real
    case AtMost(y) => v <= y as real
  }

  /** The guard holds of `v`. */
  predicate Contains(b: Band, v: real)
  {
    MeetsLower(b.lo, v) && MeetsUpper(b.hi, v)
  }

  /** A syntactic test that some real satisfies the guard. */
  predicate Inhabited(b: Band)
  {
    if b.lo.NoLower? || b.hi.NoUpper? then true
    else if b.lo.AtLeast? && b.hi.AtMost? then b.lo.x <= b.hi.y
    else b.lo.x < b.hi.y
  }

  /** A value inside an inhabited guard. */
  function Pick(b: Band): (v: real)
    requires Inhabited(b)
    ensures Contains(b, v)
  {
    if b.lo.NoLower? && b.hi.NoUpper? then 0.0
    else if b.lo.NoLower? then b.hi.y as real - 1.0
    else if b.hi.NoUpper? then b.lo.x as real + 1.0
    else (b.lo.x + b.hi.y) as real / 2.0
  }

  /** Every value of `a` lies strictly below every value of `b`, read off the end points. */
  predicate Precedes(a: Band, b: Band)
  {
    !a.hi.NoUpper? && !b.lo.NoLower? &&
    if a.hi.AtMost? && b.lo.AtLeast? then a.hi.y < b.lo.x else a.hi.y <= b.lo.x
  }

  /** `a` ends exactly where `b` begins, with the shared end point in exactly one of them. */
  predicate Abuts(a: Band, b: Band)
  {
    ((a.hi.Below? && b.lo.AtLeast?) || (a.hi.AtMost? && b.lo.Above?)) && a.hi.y == b.lo.x
  }

  /** The guards are inhabited and listed from the lowest values to the highest. */
  ghost predicate Ascending(t: seq<Band>)
  {
    (forall i :: 0 <= i < |t| ==> Inhabited(t[i])) &&
    (forall i :: 0 <= i < |t| - 1 ==> Precedes(t[i], t[i + 1]))
  }

  /** Consecutive guards among the first `n` leave no value between them. */
  ghost predicate Seamless(t: seq<Band>, n: nat)
    requires n <= |t|
  {
    forall i :: 0 <= i < n - 1 ==> Abuts(t[i], t[i + 1])
  }

  /** Some guard of `t` holds of `v`. */
  ghost predicate Covered(t: seq<Band>, v: real)
  {
    exists i :: 0 <= i < |t| && Contains(t[i], v)
  }

  /** Executable form of `Ascending`, from position `i` on, evaluated on literal tables. */
  predicate AscendingFrom(t: seq<Band>, i: nat)
    decreases |t| - i
  {
    i >= |t| || (Inhabited(t[i]) && (i + 1 < |t| ==> Precedes(t[i], t[i + 1])) && AscendingFrom(t, i + 1))
  }

  /** Executable form of `Seamless`, from position `i` on. */
  predicate SeamlessFrom(t: seq<Band>, i: nat, n: nat)
    requires n <= |t|
    decreases n - i
  {
    i + 1 >= n || (Abuts(t[i], t[i + 1]) && SeamlessFrom(t, i + 1, n))
  }

  lemma {:induction false} AscendingFromSound(t: seq<Band>, i: nat)
    requires AscendingFrom(t, i)
    ensures forall j :: i <= j < |t| ==> Inhabited(t[j])
    ensures forall j :: i <= j < |t| - 1 ==> Precedes(t[j], t[j + 1])
    decreases |t| - i
  {
    if i < |t| {
      AscendingFromSound(t, i + 1);
    }
  }

  lemma CheckedAscending(t: seq<Band>)
    requires AscendingFrom(t, 0)
    ensures Ascending(t)
  {
    AscendingFromSound(t, 0);
  }

  lemma {:induction false} SeamlessFromSound(t: seq<Band>, i: nat, n: nat)
    requires n <= |t| && SeamlessFrom(t, i, n)
    ensures forall j :: i <= j < n - 1 ==> Abuts(t[j], t[j + 1])
    decreases n - i
  {
    if i + 1 < n {
      SeamlessFromSound(t, i + 1, n);
    }
  }

  lemma CheckedSeamless(t: seq<Band>, n: nat)
    requires n <= |t| && SeamlessFrom(t, 0, n)
    ensures Seamless(t, n)
  {
    SeamlessFromSound(t, 0, n);
  }

  lemma PrecedesSound(a: Band, b: Band, v: real, w: real)
    requires Precedes(a, b) && Contains(a, v) && Contains(b, w)
    ensures v < w
  {
  }

  lemma AbutsCovers(a: Band, b: Band, v: real)
    requires Abuts(a, b)
    ensures MeetsUpper(a.hi, v) || MeetsLower(b.lo, v)
    ensures !(MeetsUpper(a.hi, v) && MeetsLower(b.lo, v))
  {
  }

  /** In an ascending table, a value held by an earlier guard is below a value held by a later one. */
  lemma {:induction false} OrderedAcross(t: seq<Band>, i: nat, j: nat, v: real, w: real)
    requires Ascending(t)
    requires i < j < |t|
    requires Contains(t[i], v) && Contains(t[j], w)
    ensures v < w
    decreases j - i
  {
    if j == i + 1 {
      PrecedesSound(t[i], t[j], v, w);
    } else {
      var u := Pick(t[i + 1]);
      PrecedesSound(t[i], t[i + 1], v, u);
      OrderedAcross(t, i + 1, j, u, w);
    }
  }

  /** The guards of an ascending table are pairwise disjoint. */
  lemma Disjoint(t: seq<Band>, i: nat, j: nat, v: real)
    requires Ascending(t)
    requires i < |t| && j < |t| && i != j
    requires Contains(t[i], v)
    ensures !Contains(t[j], v)
  {
    if Contains(t[j], v) {
      if i < j {
        OrderedAcross(t, i, j, v, v);
      } else {
        OrderedAcross(t, j, i, v, v);
      }
    }
  }

  /**
    The colour left in the variable after running the first `n` guards of `t` in order,
    each one overwriting it when it holds; None (the empty name) when none holds.
   */
  function LastMatchIn(t: seq<Band>, n: nat, v: real): Option<Color>
    requires n <= |t|
  {
    if n == 0 then None
    else if Contains(t[n - 1], v) then Some(t[n - 1].color)
    else LastMatchIn(t, n - 1, v)
  }

  function LastMatch(t: seq<Band>, v: real): Option<Color>
  {
    LastMatchIn(t, |t|, v)
  }

  lemma {:induction false} LastMatchInHit(t: seq<Band>, n: nat, i: nat, v: real)
    requires Ascending(t)
    requires i < n <= |t|
    requires Contains(t[i], v)
    ensures LastMatchIn(t, n, v) == Some(t[i].color)
    decreases n
  {
    if n - 1 != i {
      Disjoint(t, i, n - 1, v);
      LastMatchInHit(t, n - 1, i, v);
    }
  }

  /** Last match wins is unique match: in an ascending table the guard that holds decides. */
  lemma LastMatchIsUnique(t: seq<Band>, i: nat, v: real)
    requires Ascending(t)
    requires i < |t| && Contains(t[i], v)
    ensures LastMatch(t, v) == Some(t[i].color)
  {
    LastMatchInHit(t, |t|, i, v);
  }

  /** In an ascending table every guard that holds names the outcome. */
  lemma LastMatchAgrees(t: seq<Band>, v: real)
    requires Ascending(t)
    ensures forall i :: 0 <= i < |t| && Contains(t[i], v) ==> LastMatch(t, v) == Some(t[i].color)
  {
    forall i | 0 <= i < |t| && Contains(t[i], v)
      ensures LastMatch(t, v) == Some(t[i].color)
    {
      LastMatchIsUnique(t, i, v);
    }
  }

  lemma {:induction false} LastMatchInMiss(t: seq<Band>, n: nat, v: real)
    requires n <= |t|
    requires forall i :: 0 <= i < n ==> !Contains(t[i], v)
    ensures LastMatchIn(t, n, v) == None
    decreases n
  {
    if n > 0 {
      LastMatchInMiss(t, n - 1, v);
    }
  }

  lemma {:induction false} LastMatchInSome(t: seq<Band>, n: nat, i: nat, v: real)
    requires i < n <= |t| && Contains(t[i], v)
    ensures LastMatchIn(t, n, v).Some?
    decreases n
  {
    if n - 1 != i && !Contains(t[n - 1], v) {
      LastMatchInSome(t, n - 1, i, v);
    }
  }

  /** The variable stays empty exactly when no guard holds. */
  lemma LastMatchEmptyIff(t: seq<Band>, v: real)
    ensures LastMatch(t, v).None? <==> !Covered(t, v)
  {
    if !Covered(t, v) {
      LastMatchInMiss(t, |t|, v);
    } else {
      var i :| 0 <= i < |t| && Contains(t[i], v);
      LastMatchInSome(t, |t|, i, v);
    }
  }

  /** The first `n` guards, when seamless, cover everything between the first lower end and the `n`-th upper end. */
  lemma {:induction false} SeamlessCovers(t: seq<Band>, n: nat, v: real)
    requires 0 < n <= |t| && Seamless(t, n)
    requires MeetsLower(t[0].lo, v) && MeetsUpper(t[n - 1].hi, v)
    ensures exists i :: 0 <= i < n && Contains(t[i], v)
    decreases n
  {
    if MeetsLower(t[n - 1].lo, v) {
      assert Contains(t[n - 1], v);
    } else {
      assert n - 1 != 0;
      AbutsCovers(t[n - 2], t[n - 1], v);
      SeamlessCovers(t, n - 1, v);
    }
  }

  lemma LowerUpward(lo: Lower, u: real, v: real)
    requires MeetsLower(lo, u) && u <= v
    ensures MeetsLower(lo, v)
  {
  }

  lemma UpperDownward(hi: Upper, u: real, v: real)
    requires MeetsUpper(hi, u) && v <= u
    ensures MeetsUpper(hi, v)
  {
  }

  /** A value held by guard `i` meets the lower end of every earlier guard and the upper end of every later one. */
  lemma Between(t: seq<Band>, i: nat, j: nat, v: real)
    requires Ascending(t)
    requires i < |t| && j < |t| && Contains(t[i], v)
    ensures j <= i ==> MeetsLower(t[j].lo, v)
    ensures i <= j ==> MeetsUpper(t[j].hi, v)
  {
    if j < i {
      var u := Pick(t[j]);
      OrderedAcross(t, j, i, u, v);
      LowerUpward(t[j].lo, u, v);
    } else if i < j {
      var u := Pick(t[j]);
      OrderedAcross(t, i, j, v, u);
      UpperDownward(t[j].hi, u, v);
    }
  }

  /** A value below the first guard of an ascending table is held by no guard. */
  lemma BelowFirst(t: seq<Band>, v: real)
    requires Ascending(t) && |t| > 0
    requires !MeetsLower(t[0].lo, v)
    ensures !Covered(t, v)
  {
    forall i | 0 <= i < |t| && Contains(t[i], v)
      ensures false
    {
      Between(t, i, 0, v);
    }
  }

  /** A value past guard `k` and short of guard `k + 1` of an ascending table is held by no guard. */
  lemma InGap(t: seq<Band>, k: nat, v: real)
    requires Ascending(t) && k + 1 < |t|
    requires !MeetsUpper(t[k].hi, v) && !MeetsLower(t[k + 1].lo, v)
    ensures !Covered(t, v)
  {
    forall i | 0 <= i < |t| && Contains(t[i], v)
      ensures false
    {
      if i <= k {
        Between(t, i, k, v);
      } else {
        Between(t, i, k + 1, v);
      }
    }
  }
}
