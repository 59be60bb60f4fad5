/** Shared vocabulary of the model: optional values, decimal text, and the
    sequence operations (filter, map-with-override, stable sort, prefix slice)
    that the store and the views are built from. */
module Common {

  datatype Option<T> = None | Some(value: T)

  // ---------------------------------------------------------------------
  // Decimal text: Number.prototype.toString, String.prototype.padStart and
  // the inverse reading used to state round trips.
  // ---------------------------------------------------------------------

  predicate IsDigit(c: char) { '0' <= c <= '9' }

  predicate AllDigits(s: string) { forall i :: 0 <= i < |s| ==> IsDigit(s[i]) }

  function DigitChar(d: nat): (c: char)
    requires d < 10
    ensures IsDigit(c) && c as int - '0' as int == d
  {
    ('0' as int + d) as char
  }

  /** Decimal rendering of a non-negative integer, without leading zeros. */
  function NatToString(n: nat): (s: string)
    ensures 1 <= |s| && AllDigits(s)
    ensures n < 10 ==> |s| == 1
    ensures n < 100 ==> |s| <= 2
    ensures n >= 10 ==> |s| >= 2 && s[0] != '0'
    decreases n
  {
    if n < 10 then [DigitChar(n)] else NatToString(n / 10) + [DigitChar(n % 10)]
  }

  /** Years 1000 to 9999 print with exactly four digits. */
  lemma FourDigits(n: nat)
    requires 1000 <= n <= 9999
    ensures |NatToString(n)| == 4
  {
    assert |NatToString(n / 10 / 10)| == 2;
    assert |NatToString(n / 10)| == 3;
  }

  /** Value of a string of decimal digits; leading zeros are allowed. */
  function DigitsValue(s: string): nat
    requires AllDigits(s)
  {
    if s == [] then 0 else DigitsValue(s[..|s| - 1]) * 10 + (s[|s| - 1] as int - '0' as int)
  }

  /** Reads a non-empty string of decimal digits; None for anything else. */
  function ParseNat(s: string): (r: Option<nat>)
    ensures r.Some? <==> s != [] && AllDigits(s)
  {
    if s != [] && AllDigits(s) then Some(DigitsValue(s)) else None
  }

  lemma {:induction false} ParseNatToString(n: nat)
    ensures ParseNat(NatToString(n)) == Some(n)
  {
    if n >= 10 {
      ParseNatToString(n / 10);
      var s := NatToString(n);
      assert s[..|s| - 1] == NatToString(n / 10);
      assert DigitsValue(s) == DigitsValue(NatToString(n / 10)) * 10 + n % 10;
    }
  }

  lemma {:induction false} LeadingZeroValue(s: string)
    requires AllDigits(s)
    ensures AllDigits("0" + s) && DigitsValue("0" + s) == DigitsValue(s)
  {
    if s != [] {
      var t := "0" + s;
      assert t[..|t| - 1] == "0" + s[..|s| - 1];
      LeadingZeroValue(s[..|s| - 1]);
    }
  }

  /** String(n).padStart(2, '0'): at least two digits, reading back as n. */
  function Pad2(n: nat): (s: string)
    ensures AllDigits(s) && |s| >= 2
    ensures n < 100 ==> |s| == 2
    ensures ParseNat(s) == Some(n)
  {
    var d := NatToString(n);
    ParseNatToString(n);
    if |d| >= 2 then d else (LeadingZeroValue(d); "0" + d)
  }

  /** Number.prototype.toString for any integer. */
  function IntToString(i: int): (s: string)
    ensures s != []
    ensures i < 0 <==> s[0] == '-'
  {
    if i < 0 then "-" + NatToString(-i) else NatToString(i)
  }

  /** Distinct integers render as distinct strings. */
  lemma IntToStringInjective(a: int, b: int)
    requires IntToString(a) == IntToString(b)
    ensures a == b
  {
    if a < 0 && b < 0 {
      assert IntToString(a)[1..] == NatToString(-a);
      assert IntToString(b)[1..] == NatToString(-b);
      ParseNatToString(-a);
      ParseNatToString(-b);
    } else if a >= 0 && b >= 0 {
      ParseNatToString(a);
      ParseNatToString(b);
    }
  }

  // ---------------------------------------------------------------------
  // Text search: String.prototype.includes and ASCII toLowerCase.
  // ---------------------------------------------------------------------

  /** `part` occurs in `text` at some position (every string contains ""). */
  predicate Contains(text: string, part: string)
    decreases |text|
  {
    part <= text || (text != [] && Contains(text[1..], part))
  }

  function LowerChar(c: char): char
  {
    if 'A' <= c <= 'Z' then (c as int + 32) as char else c
  }

  /** toLowerCase restricted to the ASCII letters: other characters, such as
      Thai script, have no case and are kept. */
  function Lower(s: string): (r: string)
    ensures |r| == |s|
    ensures forall i :: 0 <= i < |s| ==> r[i] == LowerChar(s[i])
    ensures forall i :: 0 <= i < |r| ==> !('A' <= r[i] <= 'Z')
  {
    seq(|s|, i requires 0 <= i < |s| => LowerChar(s[i]))
  }

  // ---------------------------------------------------------------------
  // Array.prototype.filter
  // ---------------------------------------------------------------------

  /** The elements of `s` satisfying `p`, in their original order. */
  function Filter<T>(s: seq<T>, p: T -> bool): (r: seq<T>)
    ensures |r| <= |s|
    ensures forall k :: 0 <= k < |r| ==> p(r[k])
  {
    if s == [] then []
    else Filter(s[..|s| - 1], p) + (if p(s[|s| - 1]) then [s[|s| - 1]] else [])
  }

  /** One more element of `s` considered: Filter grows by it exactly when
      it passes. */
  lemma FilterSnoc<T>(s: seq<T>, i: nat, p: T -> bool)
    requires i < |s|
    ensures p(s[i]) ==> Filter(s[..i + 1], p) == Filter(s[..i], p) + [s[i]]
    ensures !p(s[i]) ==> Filter(s[..i + 1], p) == Filter(s[..i], p)
  {
    assert s[..i + 1][..i] == s[..i];
    assert Filter(s[..i], p) + [] == Filter(s[..i], p);
  }

  /** Array.prototype.map. */
  function MapSeq<A, B>(s: seq<A>, f: A -> B): (r: seq<B>)
    ensures |r| == |s|
  {
    if s == [] then [] else MapSeq(s[..|s| - 1], f) + [f(s[|s| - 1])]
  }

  lemma {:induction false} MapSeqAt<A, B>(s: seq<A>, f: A -> B)
    ensures forall i :: 0 <= i < |s| ==> MapSeq(s, f)[i] == f(s[i])
  {
    if s != [] {
      MapSeqAt(s[..|s| - 1], f);
    }
  }

  lemma MapSeqSnoc<A, B>(s: seq<A>, x: A, f: A -> B)
    ensures MapSeq(s + [x], f) == MapSeq(s, f) + [f(x)]
  {
    assert (s + [x])[..|s|] == s;
  }

  /** One more element of `s` considered by a filter-then-map loop that
      appends to `prefix`. */
  lemma MapFilterSnoc<A, B>(prefix: seq<B>, s: seq<A>, i: nat, p: A -> bool, f: A -> B)
    requires i < |s|
    ensures p(s[i]) ==> prefix + MapSeq(Filter(s[..i + 1], p), f) == prefix + MapSeq(Filter(s[..i], p), f) + [f(s[i])]
    ensures !p(s[i]) ==> prefix + MapSeq(Filter(s[..i + 1], p), f) == prefix + MapSeq(Filter(s[..i], p), f)
  {
    FilterSnoc(s, i, p);
    if p(s[i]) {
      MapSeqSnoc(Filter(s[..i], p), s[i], f);
    }
  }

  /** A forEach that appends `f(x)` to `prefix` for each `x` passing `p`, and
      that throws (None) at the first element meeting `fails`. */
  method PushEach<A, B>(prefix: seq<B>, s: seq<A>, fails: A -> bool, p: A -> bool, f: A -> B)
    returns (r: Option<seq<B>>)
    ensures r.None? <==> exists i :: 0 <= i < |s| && fails(s[i])
    ensures r.Some? ==> r.value == prefix + MapSeq(Filter(s, p), f)
  {
    var pushed := prefix;
    var j := 0;
    while j < |s|
      invariant 0 <= j <= |s|
      invariant forall k :: 0 <= k < j ==> !fails(s[k])
      invariant pushed == prefix + MapSeq(Filter(s[..j], p), f)
    {
      if fails(s[j]) {
        return None;
      }
      MapFilterSnoc(prefix, s, j, p, f);
      if p(s[j]) {
        pushed := pushed + [f(s[j])];
      }
      j := j + 1;
    }
    assert s[..j] == s;
    r := Some(pushed);
  }

  /** The indices of `s` whose element satisfies `p`, in increasing order. */
  function Selected<T>(s: seq<T>, p: T -> bool): seq<nat>
  {
    if s == [] then []
    else Selected(s[..|s| - 1], p) + (if p(s[|s| - 1]) then [|s| - 1] else [])
  }

  predicate StrictlyIncreasing(ix: seq<nat>)
  {
    forall a, b :: 0 <= a < b < |ix| ==> ix[a] < ix[b]
  }

  /** Filter(s, p) is exactly the order-preserving subsequence of `s` made of
      the elements that satisfy `p`: it picks the increasing indices Selected(s, p),
      which are all and only the indices whose element satisfies `p`. */
  lemma {:induction false} FilterIsSelection<T>(s: seq<T>, p: T -> bool)
    ensures |Selected(s, p)| == |Filter(s, p)|
    ensures StrictlyIncreasing(Selected(s, p))
    ensures forall k :: 0 <= k < |Selected(s, p)| ==>
              Selected(s, p)[k] < |s| && Filter(s, p)[k] == s[Selected(s, p)[k]]
    ensures forall i :: 0 <= i < |s| ==> (p(s[i]) <==> i in Selected(s, p))
  {
    if s != [] {
      var n := |s| - 1;
      FilterIsSelection(s[..n], p);
      forall i | 0 <= i < n ensures s[..n][i] == s[i] { }
    }
  }

  /** Keys distinct along `s` stay distinct along any filter of it. */
  lemma FilterKeepsDistinct<T, K>(s: seq<T>, p: T -> bool, key: T -> K)
    requires forall i, j :: 0 <= i < j < |s| ==> key(s[i]) != key(s[j])
    ensures forall i, j :: 0 <= i < j < |Filter(s, p)| ==> key(Filter(s, p)[i]) != key(Filter(s, p)[j])
  {
    FilterIsSelection(s, p);
    var ix := Selected(s, p);
    forall i, j | 0 <= i < j < |Filter(s, p)|
      ensures key(Filter(s, p)[i]) != key(Filter(s, p)[j])
    {
      assert ix[i] < ix[j];
    }
  }

  /** Two filters that agree on every element give the same result. */
  lemma {:induction false} FilterExt<T>(s: seq<T>, p: T -> bool, q: T -> bool)
    requires forall k :: 0 <= k < |s| ==> p(s[k]) == q(s[k])
    ensures Filter(s, p) == Filter(s, q)
  {
    if s != [] {
      FilterExt(s[..|s| - 1], p, q);
    }
  }

  /** A filter every element passes keeps the whole sequence. */
  lemma {:induction false} FilterKeepsAll<T>(s: seq<T>, p: T -> bool)
    requires forall k :: 0 <= k < |s| ==> p(s[k])
    ensures Filter(s, p) == s
  {
    if s != [] {
      FilterKeepsAll(s[..|s| - 1], p);
    }
  }

  /** A filter no element passes yields nothing. */
  lemma {:induction false} FilterDropsAll<T>(s: seq<T>, p: T -> bool)
    requires forall k :: 0 <= k < |s| ==> !p(s[k])
    ensures Filter(s, p) == []
  {
    if s != [] {
      FilterDropsAll(s[..|s| - 1], p);
    }
  }

  /** Filtering with a weaker test and then a stronger one is filtering with
      the stronger one: the stronger result is a subsequence of the weaker. */
  lemma {:induction false} FilterNested<T>(s: seq<T>, strong: T -> bool, weak: T -> bool)
    requires forall k :: 0 <= k < |s| ==> strong(s[k]) ==> weak(s[k])
    ensures Filter(Filter(s, weak), strong) == Filter(s, strong)
  {
    if s != [] {
      var n := |s| - 1;
      FilterNested(s[..n], strong, weak);
      var w := Filter(s[..n], weak);
      if weak(s[n]) {
        assert Filter(s, weak) == w + [s[n]];
        assert (w + [s[n]])[..|w|] == w;
      } else {
        assert Filter(s, weak) == w;
      }
    }
  }

  /** Filtering twice with the same test changes nothing the second time. */
  lemma FilterIdempotent<T>(s: seq<T>, p: T -> bool)
    ensures Filter(Filter(s, p), p) == Filter(s, p)
  {
    FilterNested(s, p, p);
  }

  /** When every element passing `whole` passes exactly one of `left` and
      `right`, the two filters split the `whole` filter's count. */
  lemma {:induction false} FilterSplitCount<T>(s: seq<T>, whole: T -> bool, left: T -> bool, right: T -> bool)
    requires forall k :: 0 <= k < |s| ==> (whole(s[k]) <==> left(s[k]) || right(s[k]))
    requires forall k :: 0 <= k < |s| ==> !(left(s[k]) && right(s[k]))
    ensures |Filter(s, left)| + |Filter(s, right)| == |Filter(s, whole)|
  {
    if s != [] {
      FilterSplitCount(s[..|s| - 1], whole, left, right);
    }
  }

  /** Filter distributes over concatenation. */
  lemma {:induction false} FilterAppend<T>(a: seq<T>, b: seq<T>, p: T -> bool)
    ensures Filter(a + b, p) == Filter(a, p) + Filter(b, p)
    decreases |b|
  {
    if b != [] {
      var n := |b| - 1;
      assert (a + b)[..|a + b| - 1] == a + b[..n];
      FilterAppend(a, b[..n], p);
    } else {
      assert a + b == a;
    }
  }

  // ---------------------------------------------------------------------
  // Array.prototype.find
  // ---------------------------------------------------------------------

  /** Index of the first element satisfying `p`, if any. */
  function FindIndex<T>(s: seq<T>, p: T -> bool): (r: Option<nat>)
    ensures r.Some? ==> r.value < |s| && p(s[r.value])
    ensures r.Some? ==> forall j :: 0 <= j < r.value ==> !p(s[j])
    ensures r.None? <==> forall j :: 0 <= j < |s| ==> !p(s[j])
  {
    if s == [] then None
    else if p(s[0]) then Some(0)
    else match FindIndex(s[1..], p)
      case Some(i) => Some(i + 1)
      case None => None
  }

  /** The first element satisfying `p`, if any. */
  function Find<T>(s: seq<T>, p: T -> bool): (r: Option<T>)
    ensures r.None? <==> forall j :: 0 <= j < |s| ==> !p(s[j])
    ensures r.Some? ==> exists k :: 0 <= k < |s| && s[k] == r.value && p(s[k]) && forall j :: 0 <= j < k ==> !p(s[j])
  {
    match FindIndex(s, p)
    case Some(k) => Some(s[k])
    case None => None
  }

  // ---------------------------------------------------------------------
  // Array.prototype.map with a callback that rewrites matching elements
  // ---------------------------------------------------------------------

  /** `s` with every element satisfying `hit` replaced by its image under `f`. */
  function ReplaceWhere<T>(s: seq<T>, hit: T -> bool, f: T -> T): (r: seq<T>)
    ensures |r| == |s|
    ensures forall k :: 0 <= k < |s| && !hit(s[k]) ==> r[k] == s[k]
    ensures forall k :: 0 <= k < |s| && hit(s[k]) ==> r[k] == f(s[k])
  {
    if s == [] then []
    else
      var last := s[|s| - 1];
      ReplaceWhere(s[..|s| - 1], hit, f) + [if hit(last) then f(last) else last]
  }

  /** The sort key `new Date(s)` of the ascending date comparators: the
      instant `s` denotes, or 0 for an Invalid Date. */
  function InstantOrZero(instant: string -> Option<int>, s: string): (r: int)
    ensures instant(s).Some? ==> r == instant(s).value
  {
    if instant(s).Some? then instant(s).value else 0
  }

  // ---------------------------------------------------------------------
  // Array.prototype.sort with an ascending numeric comparator (stable)
  // ---------------------------------------------------------------------

  predicate SortedBy<T>(s: seq<T>, key: T -> int)
  {
    forall i, j :: 0 <= i < j < |s| ==> key(s[i]) <= key(s[j])
  }

  /** Places `x` after every element whose key is not greater than its own. */
  function InsertBy<T>(x: T, s: seq<T>, key: T -> int): (r: seq<T>)
    requires SortedBy(s, key)
    ensures |r| == |s| + 1
    ensures key(r[0]) == if s != [] && key(s[0]) <= key(x) then key(s[0]) else key(x)
    ensures SortedBy(r, key)
    ensures multiset(r) == multiset(s) + multiset{x}
  {
    if s == [] then [x]
    else if key(x) < key(s[0]) then [x] + s
    else
      var rest := InsertBy(x, s[1..], key);
      assert s == [s[0]] + s[1..];
      assert key(s[0]) <= key(rest[0]);
      assert forall j :: 0 <= j < |rest| ==> key(rest[0]) <= key(rest[j]);
      [s[0]] + rest
  }

  /** Stable insertion sort of `s` in ascending key order. */
  function SortBy<T>(s: seq<T>, key: T -> int): (r: seq<T>)
    ensures |r| == |s|
    ensures SortedBy(r, key)
    ensures multiset(r) == multiset(s)
  {
    if s == [] then []
    else
      var n := |s| - 1;
      assert s == s[..n] + [s[n]];
      InsertBy(s[n], SortBy(s[..n], key), key)
  }

  /** Sorting keeps every element, so a property all elements share survives it. */
  lemma SortByKeeps<T>(s: seq<T>, key: T -> int, p: T -> bool)
    requires forall k :: 0 <= k < |s| ==> p(s[k])
    ensures forall k :: 0 <= k < |SortBy(s, key)| ==> p(SortBy(s, key)[k])
  {
    var r := SortBy(s, key);
    forall k | 0 <= k < |r|
      ensures p(r[k])
    {
      assert r[k] in multiset(r);
      assert r[k] in multiset(s);
      var m :| 0 <= m < |s| && s[m] == r[k];
    }
  }

  // ---------------------------------------------------------------------
  // Array.prototype.slice(0, n)
  // ---------------------------------------------------------------------

  function Min(a: nat, b: nat): nat { if a <= b then a else b }

  /** The first `n` elements of `s`, or all of them when there are fewer. */
  function Take<T>(s: seq<T>, n: nat): (r: seq<T>)
    ensures |r| == Min(n, |s|)
    ensures r <= s
  {
    s[..Min(n, |s|)]
  }

  // ---------------------------------------------------------------------
  // Integer division
  // ---------------------------------------------------------------------

  lemma {:induction false} MulAtLeast(d: nat, k: nat)
    requires d >= 1
    ensures d * k >= k
  {
    if d > 1 {
      MulAtLeast(d - 1, k);
      assert d * k == (d - 1) * k + k;
    }
  }

  /** Division by a positive number has a unique quotient and remainder. */
  lemma DivModUnique(a: int, k: int, q: int, r: int)
    requires k > 0 && 0 <= r < k && a == q * k + r
    ensures a / k == q && a % k == r
  {
    var q', r' := a / k, a % k;
    assert a == q' * k + r';
    if q' > q {
      assert q' * k - q * k == (q' - q) * k;
      MulAtLeast(q' - q, k);
    } else if q' < q {
      assert q * k - q' * k == (q - q') * k;
      MulAtLeast(q - q', k);
    }
  }

  /** Adding a multiple of the divisor leaves the remainder unchanged. */
  lemma ModAddMultiple(a: int, k: int, c: int)
    requires k > 0
    ensures (a + c * k) % k == a % k
  {
    var q, r := a / k, a % k;
    assert a + c * k == (q + c) * k + r;
    DivModUnique(a + c * k, k, q + c, r);
  }

  /** Stepping down by one lowers the quotient exactly at a multiple. */
  lemma DivStep(y: int, k: int)
    requires k > 0
    ensures y / k - (y - 1) / k == if y % k == 0 then 1 else 0
  {
    var q, r := y / k, y % k;
    if r == 0 {
      assert y - 1 == (q - 1) * k + (k - 1);
      DivModUnique(y - 1, k, q - 1, k - 1);
    } else {
      DivModUnique(y - 1, k, q, r - 1);
    }
  }

  /** Reducing one summand first does not change the remainder of a sum. */
  lemma ModOfSum(a: int, d: int, k: int)
    requires k > 0
    ensures (a % k + d) % k == (a + d) % k
  {
    ModAddMultiple(a % k + d, k, a / k);
  }
}
