/** Sequence helpers: order-preserving filtering, subsequences and joining with a separator. */
module Seqs {

  /** `sub` can be obtained from `xs` by dropping elements, keeping the order of the rest. */
  predicate IsSubsequence<T(==)>(sub: seq<T>, xs: seq<T>)
    decreases |xs|
  {
    if sub == [] then true
    else if xs == [] then false
    else (sub[0] == xs[0] && IsSubsequence(sub[1..], xs[1..])) || IsSubsequence(sub, xs[1..])
  }

  /** Every sequence is a subsequence of itself. */
  lemma {:induction false} SubsequenceReflexive<T>(xs: seq<T>)
    ensures IsSubsequence(xs, xs)
    decreases |xs|
  {
    if xs != [] {
      SubsequenceReflexive(xs[1..]);
    }
  }

  /** A prefix of a subsequence is still a subsequence. */
  lemma {:induction false} SubsequencePrefix<T>(sub: seq<T>, xs: seq<T>, k: nat)
    requires IsSubsequence(sub, xs) && k <= |sub|
    ensures IsSubsequence(sub[..k], xs)
    decreases |xs|
  {
    if k > 0 {
      if sub[0] == xs[0] && IsSubsequence(sub[1..], xs[1..]) {
        SubsequencePrefix(sub[1..], xs[1..], k - 1);
        assert sub[..k][1..] == sub[1..][..k - 1];
      } else {
        SubsequencePrefix(sub, xs[1..], k);
      }
    }
  }

  /** Prefixing the same head to both sides keeps the subsequence relation, whether or not
      the head is kept in `sub`. */
  lemma KeepOrDropHead<T>(x: T, keep: bool, sub: seq<T>, xs: seq<T>)
    requires IsSubsequence(sub, xs)
    ensures IsSubsequence((if keep then [x] else []) + sub, [x] + xs)
  {
    assert ([x] + xs)[1..] == xs;
    if keep {
      assert ([x] + sub)[1..] == sub;
    } else {
      assert [] + sub == sub;
    }
  }

  /** Some value occurs twice in `xs`. */
  predicate HasDuplicate<T(==)>(xs: seq<T>) {
    exists i, j :: 0 <= i < j < |xs| && xs[i] == xs[j]
  }

  /** The distinct values of `xs` (what `new Set(xs)` holds). */
  function Elements<T>(xs: seq<T>): set<T> {
    set x | x in xs
  }

  lemma {:induction false} ElementsBound<T>(xs: seq<T>)
    ensures |Elements(xs)| <= |xs|
    decreases |xs|
  {
    if xs != [] {
      ElementsBound(xs[1..]);
      assert Elements(xs) == {xs[0]} + Elements(xs[1..]);
    }
  }

  /** The set of values is as large as the list exactly when no value repeats. */
  lemma {:induction false} DistinctIffNoDuplicate<T>(xs: seq<T>)
    ensures |Elements(xs)| == |xs| <==> !HasDuplicate(xs)
    decreases |xs|
  {
    if xs != [] {
      var h, t := xs[0], xs[1..];
      DistinctIffNoDuplicate(t);
      assert Elements(xs) == {h} + Elements(t);
      if h in t {
        var j :| 0 <= j < |t| && t[j] == h;
        assert xs[0] == xs[j + 1];
        ElementsBound(t);
        assert Elements(xs) == Elements(t);
      } else {
        assert h !in Elements(t);
        if HasDuplicate(xs) {
          var i, j :| 0 <= i < j < |xs| && xs[i] == xs[j];
          assert xs[j] == t[j - 1];
          assert t[i - 1] == t[j - 1];
        }
        if HasDuplicate(t) {
          var i, j :| 0 <= i < j < |t| && t[i] == t[j];
          assert xs[i + 1] == xs[j + 1];
        }
      }
    }
  }

  /** The elements of `xs` for which `keep` holds, in their original order
      (JavaScript's `Array.prototype.filter`). */
  function Filter<T(!new)>(xs: seq<T>, keep: T -> bool): (r: seq<T>)
    ensures forall i :: 0 <= i < |r| ==> keep(r[i])
    ensures forall x :: multiset(r)[x] == if keep(x) then multiset(xs)[x] else 0
    ensures IsSubsequence(r, xs)
    ensures |r| <= |xs|
    decreases |xs|
  {
    if xs == [] then []
    else
      var rest := Filter(xs[1..], keep);
      assert xs == [xs[0]] + xs[1..];
      if keep(xs[0]) then
        assert ([xs[0]] + rest)[1..] == rest;
        [xs[0]] + rest
      else
        rest
  }

  /** Filtering with a predicate that holds of every element changes nothing. */
  lemma {:induction false} FilterKeepsAll<T(!new)>(xs: seq<T>, keep: T -> bool)
    requires forall i :: 0 <= i < |xs| ==> keep(xs[i])
    ensures Filter(xs, keep) == xs
    decreases |xs|
  {
    if xs != [] {
      FilterKeepsAll(xs[1..], keep);
    }
  }

  /** The position at which the `i`-th part starts in `Join(parts, sep)`. */
  function JoinOffset(parts: seq<string>, sep: string, i: nat): nat
    requires i <= |parts|
  {
    if i == 0 then 0 else JoinOffset(parts, sep, i - 1) + |parts[i - 1]| + |sep|
  }

  /** The parts written one after the other with `sep` between neighbours
      (JavaScript's `Array.prototype.join`). */
  function Join(parts: seq<string>, sep: string): (r: string)
    ensures parts == [] ==> r == []
    ensures parts != [] ==> |r| + |sep| == JoinOffset(parts, sep, |parts|)
    decreases |parts|
  {
    if parts == [] then []
    else if |parts| == 1 then parts[0]
    else
      JoinOffsetShift(parts, sep, |parts|);
      parts[0] + sep + Join(parts[1..], sep)
  }

  /** Offsets of the tail are the offsets of the whole shifted by the first part and a separator. */
  lemma {:induction false} JoinOffsetShift(parts: seq<string>, sep: string, i: nat)
    requires 1 <= i <= |parts|
    ensures JoinOffset(parts, sep, i) == |parts[0]| + |sep| + JoinOffset(parts[1..], sep, i - 1)
  {
    if i > 1 {
      JoinOffsetShift(parts, sep, i - 1);
    }
  }

  /** Offsets grow with the index. */
  lemma {:induction false} JoinOffsetMonotone(parts: seq<string>, sep: string, i: nat, j: nat)
    requires i <= j <= |parts|
    ensures JoinOffset(parts, sep, i) <= JoinOffset(parts, sep, j)
    decreases j - i
  {
    if i < j {
      JoinOffsetMonotone(parts, sep, i, j - 1);
    }
  }

  /** Each part appears in the joined text at its offset. */
  lemma {:induction false} JoinPlacesParts(parts: seq<string>, sep: string, i: nat)
    requires i < |parts|
    ensures JoinOffset(parts, sep, i) + |parts[i]| <= |Join(parts, sep)|
    ensures Join(parts, sep)[JoinOffset(parts, sep, i)..JoinOffset(parts, sep, i) + |parts[i]|] == parts[i]
    decreases i
  {
    JoinOffsetMonotone(parts, sep, i + 1, |parts|);
    if |parts| > 1 {
      var r := Join(parts, sep);
      var tail := Join(parts[1..], sep);
      assert r == (parts[0] + sep) + tail;
      if i == 0 {
        assert r[..|parts[0]|] == parts[0];
      } else {
        JoinPlacesParts(parts[1..], sep, i - 1);
        JoinOffsetShift(parts, sep, i);
        var o := JoinOffset(parts[1..], sep, i - 1);
        assert parts[1..][i - 1] == parts[i];
        ShiftedSlice(parts[0] + sep, tail, o, o + |parts[i]|);
      }
    }
  }

  /** Neighbouring parts are separated by exactly one `sep`. */
  lemma {:induction false} JoinPlacesSeparators(parts: seq<string>, sep: string, i: nat)
    requires i + 1 < |parts|
    ensures JoinOffset(parts, sep, i + 1) <= |Join(parts, sep)|
    ensures Join(parts, sep)[JoinOffset(parts, sep, i) + |parts[i]|..JoinOffset(parts, sep, i + 1)] == sep
    decreases i
  {
    JoinOffsetMonotone(parts, sep, i + 2, |parts|);
    var r := Join(parts, sep);
    var tail := Join(parts[1..], sep);
    assert r == (parts[0] + sep) + tail;
    if i == 0 {
      assert r[|parts[0]|..|parts[0]| + |sep|] == sep;
    } else {
      JoinPlacesSeparators(parts[1..], sep, i - 1);
      JoinOffsetShift(parts, sep, i);
      JoinOffsetShift(parts, sep, i + 1);
      var o := JoinOffset(parts[1..], sep, i - 1);
      assert parts[1..][i - 1] == parts[i];
      ShiftedSlice(parts[0] + sep, tail, o + |parts[i]|, JoinOffset(parts[1..], sep, i));
    }
  }

  /** A slice of the second half of a concatenation, read at shifted positions. */
  lemma ShiftedSlice(a: string, b: string, lo: nat, hi: nat)
    requires lo <= hi <= |b|
    ensures (a + b)[|a| + lo..|a| + hi] == b[lo..hi]
  {
  }
}
