/** Building blocks shared by the modules of the model: optional values,
    results, the JavaScript array helpers the source relies on (`find`,
    `findIndex`, `filter`, `[...new Set(xs)]`) and integer-to-text
    conversion as `Number.prototype.toString` and `padStart` perform it. */
module Common {

  datatype Option<+T> = None | Some(value: T) {
    /** `x ?? fallback` */
    function GetOr(fallback: T): T {
      if Some? then value else fallback
    }
  }

  datatype Result<+T, +E> = Ok(value: T) | Err(error: E)

  function Min(a: int, b: int): int { if a <= b then a else b }

  function Max(a: int, b: int): int { if a >= b then a else b }

  // ---------------------------------------------------------------------
  // Array helpers
  // ---------------------------------------------------------------------

  /** `Array.prototype.findIndex`: the first index whose element satisfies `p`. */
  function FindIndex<T>(s: seq<T>, p: T -> bool): (r: Option<nat>)
    ensures r.Some? ==> r.value < |s| && p(s[r.value])
    ensures r.Some? ==> forall j :: 0 <= j < r.value ==> !p(s[j])
    ensures r.None? ==> forall j :: 0 <= j < |s| ==> !p(s[j])
  {
    if |s| == 0 then None
    else if p(s[0]) then Some(0)
    else
      var k := FindIndex(s[1..], p);
      if k.None? then None else Some(k.value + 1)
  }

  /** `Array.prototype.find`: the first element that satisfies `p`. */
  function Find<T>(s: seq<T>, p: T -> bool): (r: Option<T>)
    ensures r.None? <==> forall j :: 0 <= j < |s| ==> !p(s[j])
    ensures r.Some? ==> r.value in s && p(r.value)
    ensures r.Some? ==> FindIndex(s, p).Some? && r.value == s[FindIndex(s, p).value]
  {
    var k := FindIndex(s, p);
    if k.None? then None else Some(s[k.value])
  }

  /** The positions of the elements of `s` that satisfy `p`, ascending:
      exactly those positions, each once. */
  function Matching<T>(s: seq<T>, p: T -> bool): (r: seq<nat>)
    ensures |r| <= |s|
    ensures forall k :: 0 <= k < |r| ==> r[k] < |s| && p(s[r[k]])
    ensures forall k, l :: 0 <= k < l < |r| ==> r[k] < r[l]
    ensures forall i :: 0 <= i < |s| && p(s[i]) ==> i in r
  {
    if |s| == 0 then []
    else
      var front := Matching(s[..|s| - 1], p);
      if p(s[|s| - 1]) then front + [|s| - 1] else front
  }

  /** The elements of `s` at the positions `ps`, in the order of `ps`. */
  function Pick<T>(s: seq<T>, ps: seq<nat>): (r: seq<T>)
    requires forall k :: 0 <= k < |ps| ==> ps[k] < |s|
    ensures |r| == |ps|
    ensures forall k :: 0 <= k < |ps| ==> r[k] == s[ps[k]]
  {
    seq(|ps|, k requires 0 <= k < |ps| => s[ps[k]])
  }

  /** `Array.prototype.filter`: the elements at the `Matching` positions, in
      their order and with their repetitions. */
  function Filter<T>(s: seq<T>, p: T -> bool): (r: seq<T>)
    ensures r == Pick(s, Matching(s, p))
  {
    if |s| == 0 then []
    else
      var front := s[..|s| - 1];
      var last := s[|s| - 1];
      var f := Filter(front, p);
      var r := f + (if p(last) then [last] else []);
      assert forall k :: 0 <= k < |f| ==> f[k] == s[Matching(front, p)[k]];
      assert r == Pick(s, Matching(s, p));
      r
  }

  /** Every kept element satisfies `p` and comes from `s`; every element of
      `s` that satisfies `p` is kept. */
  lemma FilterMembers<T>(s: seq<T>, p: T -> bool)
    ensures forall k :: 0 <= k < |Filter(s, p)| ==> Filter(s, p)[k] in s && p(Filter(s, p)[k])
    ensures forall i :: 0 <= i < |s| && p(s[i]) ==> s[i] in Filter(s, p)
  {
    var f, m := Filter(s, p), Matching(s, p);
    forall i | 0 <= i < |s| && p(s[i]) ensures s[i] in f {
      var k :| 0 <= k < |m| && m[k] == i;
      assert f[k] == s[i];
    }
  }

  /** A non-empty list is its front with its last element appended. */
  lemma FrontAndLast<T>(s: seq<T>)
    requires |s| > 0
    ensures s[..|s| - 1] + [s[|s| - 1]] == s
  {
  }

  /** Filtering a list with one more element appended. */
  lemma FilterSnoc<T>(s: seq<T>, x: T, p: T -> bool)
    ensures Filter(s + [x], p) == Filter(s, p) + (if p(x) then [x] else [])
  {
    assert (s + [x])[..|s|] == s;
  }

  /** A list all of whose elements satisfy `p` is kept whole. */
  lemma {:induction false} FilterKeepsAll<T>(s: seq<T>, p: T -> bool)
    requires forall i :: 0 <= i < |s| ==> p(s[i])
    ensures Filter(s, p) == s
  {
    if |s| > 0 {
      var front, last := s[..|s| - 1], s[|s| - 1];
      FilterKeepsAll(front, p);
      FilterSnoc(front, last, p);
      FrontAndLast(s);
    }
  }

  predicate Distinct<T(==)>(s: seq<T>) {
    forall i, j :: 0 <= i < j < |s| ==> s[i] != s[j]
  }

  /** `[...new Set(s)]`: the distinct elements of `s`, each kept where it first appears. */
  function Dedup<T(==)>(s: seq<T>): (r: seq<T>)
    ensures Distinct(r)
    ensures forall i :: 0 <= i < |r| ==> r[i] in s
    ensures forall i :: 0 <= i < |s| ==> s[i] in r
    ensures |r| <= |s|
  {
    if |s| == 0 then []
    else
      var front := s[..|s| - 1];
      var d := Dedup(front);
      assert s == front + [s[|s| - 1]];
      if s[|s| - 1] in d then d else d + [s[|s| - 1]]
  }

  /** A prefix one longer is the prefix with the next element appended. */
  lemma PrefixStep<T>(s: seq<T>, i: nat)
    requires i < |s|
    ensures s[..i + 1] == s[..i] + [s[i]]
  {
  }

  /** Appending an element to the list appends it to `Dedup` unless it was already there. */
  lemma DedupAppend<T>(s: seq<T>, x: T)
    ensures Dedup(s + [x]) == if x in Dedup(s) then Dedup(s) else Dedup(s) + [x]
  {
    assert (s + [x])[..|s|] == s;
  }

  /** Position of the first occurrence of `x` in `s`. */
  function FirstIndexOf<T(==)>(s: seq<T>, x: T): (r: nat)
    requires x in s
    ensures r < |s| && s[r] == x
    ensures forall j :: 0 <= j < r ==> s[j] != x
  {
    if s[0] == x then 0 else 1 + FirstIndexOf(s[1..], x)
  }

  lemma {:induction false} FirstIndexOfFront<T>(s: seq<T>, x: T)
    requires |s| > 0 && x in s[..|s| - 1]
    ensures FirstIndexOf(s, x) == FirstIndexOf(s[..|s| - 1], x)
  {
    var front := s[..|s| - 1];
    var k := FirstIndexOf(front, x);
    assert s[k] == x;
  }

  /** `Dedup` lists the elements in the order of their first appearance in `s`. */
  lemma {:induction false} DedupFirstAppearance<T>(s: seq<T>, i: nat, j: nat)
    requires i < j < |Dedup(s)|
    ensures FirstIndexOf(s, Dedup(s)[i]) < FirstIndexOf(s, Dedup(s)[j])
  {
    var front := s[..|s| - 1];
    var last := s[|s| - 1];
    var d := Dedup(front);
    assert s == front + [last];
    assert Dedup(s)[i] == d[i];
    FirstIndexOfFront(s, d[i]);
    if j < |d| {
      assert Dedup(s)[j] == d[j];
      DedupFirstAppearance(front, i, j);
      FirstIndexOfFront(s, d[j]);
    } else {
      assert Dedup(s)[j] == last && last !in front;
      assert FirstIndexOf(s, last) == |s| - 1;
    }
  }

  /** A list without repetitions has as many entries as it has distinct elements. */
  lemma {:induction false} DistinctCardinality<T>(s: seq<T>)
    requires Distinct(s)
    ensures |set x | x in s| == |s|
  {
    if |s| > 0 {
      var tail := s[1..];
      assert Distinct(tail) by {
        forall i, j | 0 <= i < j < |tail| ensures tail[i] != tail[j] {
          assert tail[i] == s[i + 1] && tail[j] == s[j + 1];
        }
      }
      DistinctCardinality(tail);
      assert s[0] !in tail by {
        forall k | 0 <= k < |tail| ensures tail[k] != s[0] {
          assert tail[k] == s[k + 1];
        }
      }
      assert (set x | x in s) == (set x | x in tail) + {s[0]};
    }
  }

  /** The number of entries of `Dedup(s)` is the number of distinct elements of `s`. */
  lemma DedupCount<T>(s: seq<T>)
    ensures |Dedup(s)| == |set x | x in s|
  {
    DistinctCardinality(Dedup(s));
    assert (set x | x in Dedup(s)) == (set x | x in s);
  }

  // ---------------------------------------------------------------------
  // Decimal text, as Number.prototype.toString and String.prototype.padStart
  // produce it for integers
  // ---------------------------------------------------------------------

  predicate IsDigit(c: char) { '0' <= c <= '9' }

  predicate AllDigits(s: string) { forall i :: 0 <= i < |s| ==> IsDigit(s[i]) }

  function DigitChar(d: nat): (c: char)
    requires d < 10
    ensures IsDigit(c)
  {
    ('0' as int + d) as char
  }

  function DigitValue(c: char): (d: nat)
    requires IsDigit(c)
    ensures d < 10
  {
    c as int - '0' as int
  }

  /** Decimal numeral of `n` with no leading zeros. */
  function NatToString(n: nat): (r: string)
    ensures 1 <= |r| && AllDigits(r)
    ensures |r| == 1 <==> n < 10
    decreases n
  {
    if n < 10 then [DigitChar(n)] else NatToString(n / 10) + [DigitChar(n % 10)]
  }

  /** The value of a numeral read in base ten. */
  function DigitsValue(s: string): nat
    requires AllDigits(s)
  {
    if |s| == 0 then 0 else DigitsValue(s[..|s| - 1]) * 10 + DigitValue(s[|s| - 1])
  }

  /** Reading back the numeral of `n` gives `n`. */
  lemma {:induction false} NatToStringValue(n: nat)
    ensures DigitsValue(NatToString(n)) == n
    decreases n
  {
    if n >= 10 {
      var r := NatToString(n);
      assert r[..|r| - 1] == NatToString(n / 10);
      NatToStringValue(n / 10);
    }
  }

  /** `Number.prototype.toString()` for an integral number. */
  function IntToString(n: int): (r: string)
    ensures n >= 0 ==> r == NatToString(n)
    ensures n < 0 ==> r == "-" + NatToString(-n)
  {
    if n < 0 then "-" + NatToString(-n) else NatToString(n)
  }

  /** `s.padStart(2, '0')`. */
  function PadStart2(s: string): (r: string)
    ensures |s| >= 2 ==> r == s
    ensures |s| < 2 ==> |r| == 2 && r[2 - |s|..] == s && forall i :: 0 <= i < 2 - |s| ==> r[i] == '0'
  {
    if |s| >= 2 then s else seq(2 - |s|, _ => '0') + s
  }

  /** For `n < 100`, the padded numeral is exactly two digits worth `n`. */
  lemma TwoDigits(n: nat)
    requires n < 100
    ensures |PadStart2(NatToString(n))| == 2
    ensures AllDigits(PadStart2(NatToString(n)))
    ensures DigitsValue(PadStart2(NatToString(n))) == n
  {
    var p := PadStart2(NatToString(n));
    NatToStringValue(n);
    if n < 10 {
      assert p == ['0', DigitChar(n)];
      assert p[..1] == ['0'];
    } else {
      assert NatToString(n) == NatToString(n / 10) + [DigitChar(n % 10)];
      assert |NatToString(n / 10)| == 1;
    }
  }

  /** JavaScript's `%`: the remainder takes the sign of the dividend. */
  function JsRem(a: int, b: int): (r: int)
    requires b > 0
    ensures a >= 0 ==> r == a % b
    ensures a < 0 ==> -b < r <= 0
  {
    if a >= 0 then a % b else -((-a) % b)
  }
}
