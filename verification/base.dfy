/** Small shared vocabulary: optional values and the extended reals used for
    "no next event" (+infinity). */
module Base {

  datatype Option<+T> = None | Some(value: T)

  /** A time that may be +infinity, as `double.PositiveInfinity` is used for
      the time of the next event of an empty queue. */
  datatype ExtReal = Finite(r: real) | PosInf {

    /** `this <= t` for a finite `t`; +infinity is above every real. */
    predicate AtMost(t: real) {
      Finite? && r <= t
    }
  }

  function Max(a: real, b: real): (m: real)
    ensures m >= a && m >= b
    ensures m == a || m == b
  {
    if a >= b then a else b
  }

  function Min(a: real, b: real): (m: real)
    ensures m <= a && m <= b
    ensures m == a || m == b
  {
    if a <= b then a else b
  }

  /** Removes the first occurrence of `x`, as `List<T>.Remove` does; the
      position and order facts are `RemoveFirstSplits`, the count fact
      `RemoveFirstMultiset`. */
  function RemoveFirst<T(==)>(s: seq<T>, x: T): (r: seq<T>)
    ensures x !in s ==> r == s
    ensures x in s ==> |r| == |s| - 1
    ensures forall y :: y in r ==> y in s
  {
    if |s| == 0 then s
    else if s[0] == x then s[1..]
    else [s[0]] + RemoveFirst(s[1..], x)
  }

  /** The removed element is the first `x`, at position `i`; everything
      before it and after it stays, in order. */
  lemma {:induction false} RemoveFirstSplits<T>(s: seq<T>, x: T) returns (i: nat)
    requires x in s
    ensures i < |s| && s[i] == x && x !in s[..i]
    ensures RemoveFirst(s, x) == s[..i] + s[i + 1..]
  {
    if s[0] == x {
      i := 0;
      assert s[..0] + s[1..] == s[1..];
    } else {
      var t := s[1..];
      assert s == [s[0]] + t;
      assert x in t;
      var j := RemoveFirstSplits(t, x);
      i := j + 1;
      ConsSplit(s[0], t, j);
    }
  }

  /** Cutting `[a] + t` around position `j + 1` is cutting `t` around `j`. */
  lemma ConsSplit<T>(a: T, t: seq<T>, j: nat)
    requires j < |t|
    ensures ([a] + t)[..j + 1] == [a] + t[..j]
    ensures ([a] + t)[j + 2..] == t[j + 1..]
    ensures [a] + (t[..j] + t[j + 1..]) == ([a] + t)[..j + 1] + ([a] + t)[j + 2..]
  {
  }

  /** Exactly one occurrence of `x` goes, if there is one. */
  lemma {:induction false} RemoveFirstMultiset<T>(s: seq<T>, x: T)
    ensures multiset(RemoveFirst(s, x)) == multiset(s) - multiset{x}
  {
    if |s| > 0 {
      assert s == [s[0]] + s[1..];
      if s[0] != x {
        RemoveFirstMultiset(s[1..], x);
      }
    }
  }

  /** Index of the first element satisfying `p`, if any. */
  function FirstIndex<T>(s: seq<T>, p: T -> bool): (r: Option<nat>)
    ensures r.Some? ==> r.value < |s| && p(s[r.value])
    ensures r.Some? ==> forall j :: 0 <= j < r.value ==> !p(s[j])
    ensures r.None? <==> forall j :: 0 <= j < |s| ==> !p(s[j])
    decreases |s|
  {
    if |s| == 0 then None
    else if p(s[0]) then Some(0)
    else
      match FirstIndex(s[1..], p)
      case None => None
      case Some(i) => Some(i + 1)
  }
}
