/**
The text primitives the servers and scripts rely on: Go's `strings.Split` and
`strings.Trim`, lexicographic comparison (Go strings, and Lua strings in the C
locale), decimal rendering and `strconv.Atoi`.
*/
module Text {

  /** `a < b` on strings. */
  predicate LexLess(a: string, b: string)
    decreases |b|
  {
    b != [] && (a == [] || a[0] < b[0] || (a[0] == b[0] && LexLess(a[1..], b[1..])))
  }

  /** `strings.Split(s, sep)` for a one-character separator. */
  function Split(s: string, sep: char): (parts: seq<string>)
    ensures |parts| >= 1
    ensures forall p :: p in parts ==> sep !in p
  {
    if s == [] then [""]
    else
      var rest := Split(s[1..], sep);
      if s[0] == sep then [""] + rest else [[s[0]] + rest[0]] + rest[1..]
  }

  /** The maximal non-empty runs without `sep`: Lua's `gmatch(s, "[^sep]+")`. */
  function Runs(s: string, sep: char): seq<string> {
    NonEmpty(Split(s, sep))
  }

  function NonEmpty(parts: seq<string>): seq<string> {
    if parts == [] then []
    else (if parts[0] == "" then [] else [parts[0]]) + NonEmpty(parts[1..])
  }

  lemma {:induction false} SplitPlain(s: string, sep: char)
    requires sep !in s
    ensures Split(s, sep) == [s]
  {
    if s != [] {
      SplitPlain(s[1..], sep);
      assert [s[0]] + s[1..] == s;
    }
  }

  lemma {:induction false} SplitAt(a: string, sep: char, b: string)
    requires sep !in a
    ensures Split(a + [sep] + b, sep) == [a] + Split(b, sep)
  {
    var s := a + [sep] + b;
    if a == [] {
      assert s[1..] == b;
    } else {
      assert s[1..] == a[1..] + [sep] + b;
      SplitAt(a[1..], sep, b);
      assert [a[0]] + a[1..] == a;
    }
  }

  /** `strings.Trim(s, cutset)`. */
  function Trim(s: string, cutset: set<char>): string {
    TrimRight(TrimLeft(s, cutset), cutset)
  }

  function TrimLeft(s: string, cutset: set<char>): string {
    if s != [] && s[0] in cutset then TrimLeft(s[1..], cutset) else s
  }

  function TrimRight(s: string, cutset: set<char>): string {
    if s != [] && s[|s| - 1] in cutset then TrimRight(s[..|s| - 1], cutset) else s
  }

  /** Trimming undoes wrapping a text in braces when the text has none itself. */
  lemma TrimBraces(s: string)
    requires '{' !in s && '}' !in s
    ensures Trim("{" + s + "}", {'{', '}'}) == s
  {
    var cutset := {'{', '}'};
    var w := "{" + s + "}";
    assert w[1..] == s + "}";
    if s == [] {
      assert TrimLeft(w, cutset) == TrimLeft(w[1..], cutset);
      assert w[1..] == "}";
      assert (w[1..])[1..] == "";
    } else {
      assert TrimLeft(w, cutset) == TrimLeft(s + "}", cutset);
      assert (s + "}")[0] == s[0] && s[0] in s;
      assert (s + "}")[..|s|] == s;
      assert TrimRight(s + "}", cutset) == TrimRight(s, cutset);
      assert s[|s| - 1] in s;
    }
  }

  predicate IsDigit(c: char) { '0' <= c <= '9' }

  predicate AllDigits(s: string) { forall i :: 0 <= i < |s| ==> IsDigit(s[i]) }

  function DigitChar(d: nat): (c: char)
    requires d < 10
    ensures IsDigit(c) && DigitValue(c) == d
  {
    ('0' as int + d) as char
  }

  function DigitValue(c: char): (d: nat)
    requires IsDigit(c)
    ensures d < 10
  {
    c as int - '0' as int
  }

  /** The number a digit string denotes. */
  function Value(s: string): nat
    requires AllDigits(s)
  {
    if s == [] then 0 else 10 * Value(s[..|s| - 1]) + DigitValue(s[|s| - 1])
  }

  /** `strconv.Itoa` on natural numbers: decimal without leading zeros. */
  function Show(n: nat): (s: string)
    ensures s != [] && AllDigits(s) && Value(s) == n
  {
    if n < 10 then [DigitChar(n)]
    else
      var s := Show(n / 10) + [DigitChar(n % 10)];
      assert s[..|s| - 1] == Show(n / 10);
      s
  }

  const MAX_INT := 0x7fff_ffff_ffff_ffff

  /** `strconv.Atoi` with its error ignored, on unsigned text: zero when malformed, clamped when out of range. */
  function Atoi(s: string): nat {
    if s == [] || !AllDigits(s) then 0
    else if Value(s) > MAX_INT then MAX_INT
    else Value(s)
  }

  lemma DigitsHaveNo(s: string, c: char)
    requires AllDigits(s) && !IsDigit(c)
    ensures c !in s
  {}

  function Pow10(k: nat): (p: nat)
    ensures p >= 1
  {
    if k == 0 then 1 else 10 * Pow10(k - 1)
  }

  lemma {:induction false} Pow10Monotone(i: nat, j: nat)
    requires i <= j
    ensures Pow10(i) <= Pow10(j)
  {
    if i < j { Pow10Monotone(i, j - 1); }
  }

  lemma {:induction false} ValueBound(s: string)
    requires AllDigits(s)
    ensures Value(s) < Pow10(|s|)
  {
    if s != [] { ValueBound(s[..|s| - 1]); }
  }

  /** Comparing one more character on both sides. */
  lemma {:induction false} LexLessSnoc(a: string, x: char, b: string, y: char)
    requires |a| == |b|
    ensures LexLess(a + [x], b + [y]) <==> LexLess(a, b) || (a == b && x < y)
  {
    if a != [] {
      assert (a + [x])[1..] == a[1..] + [x];
      assert (b + [y])[1..] == b[1..] + [y];
      LexLessSnoc(a[1..], x, b[1..], y);
      assert a == [a[0]] + a[1..] && b == [b[0]] + b[1..];
    }
  }

  /** On digit strings of one width, string order is numeric order. */
  lemma {:induction false} LexLessSameWidth(a: string, b: string)
    requires |a| == |b| && AllDigits(a) && AllDigits(b)
    ensures LexLess(a, b) <==> Value(a) < Value(b)
    ensures a == b <==> Value(a) == Value(b)
  {
    if a != [] {
      var p, q := a[..|a| - 1], b[..|b| - 1];
      LexLessSameWidth(p, q);
      assert a == p + [a[|a| - 1]] && b == q + [b[|b| - 1]];
      LexLessSnoc(p, a[|a| - 1], q, b[|b| - 1]);
    }
  }

  /** A shorter text is less exactly when it is at most the other's prefix of its own length. */
  lemma {:induction false} LexLessShorter(a: string, b: string)
    requires |a| < |b|
    ensures LexLess(a, b) <==> LexLess(a, b[..|a|]) || a == b[..|a|]
    ensures !LexLess(b, a) <==> LexLess(a, b)
  {
    if a != [] {
      LexLessShorter(a[1..], b[1..]);
      assert b[..|a|][1..] == b[1..][..|a| - 1];
      assert a == [a[0]] + a[1..];
      assert b[..|a|] == [b[0]] + b[..|a|][1..];
    }
  }

  lemma {:induction false} ValueSplit(s: string, k: nat)
    requires AllDigits(s) && k <= |s|
    ensures Value(s) == Value(s[..k]) * Pow10(|s| - k) + Value(s[k..])
  {
    if k == |s| {
      assert s[..k] == s;
    } else {
      var t, tail := s[..|s| - 1], s[k..];
      ValueSplit(t, k);
      assert t[..k] == s[..k];
      assert t[k..] == tail[..|tail| - 1];
      ShiftSum(Value(s), Value(t), Value(t[k..]), Value(s[..k]), Pow10(|t| - k), DigitValue(s[|s| - 1]));
    }
  }

  lemma ShiftSum(v: int, t: int, w: int, u: int, p: int, d: int)
    requires v == 10 * t + d && t == u * p + w
    ensures v == u * (10 * p) + (10 * w + d)
  {}

  lemma {:induction false} ShowWidthMonotone(m: nat, n: nat)
    requires m <= n
    ensures |Show(m)| <= |Show(n)|
  {
    if m >= 10 { ShowWidthMonotone(m / 10, n / 10); }
  }

  /**
  When comparing decimal numbers as text agrees with comparing them as numbers:
  for m < n, exactly when m padded with zeros to n's width still does not exceed n.
  */
  lemma ShownOrderIff(m: nat, n: nat)
    requires m < n
    ensures |Show(m)| <= |Show(n)|
    ensures LexLess(Show(m), Show(n)) <==> m * Pow10(|Show(n)| - |Show(m)|) <= n
    ensures LexLess(Show(n), Show(m)) <==> !LexLess(Show(m), Show(n))
  {
    var a, b := Show(m), Show(n);
    ShowWidthMonotone(m, n);
    if |a| == |b| {
      LexLessSameWidth(a, b);
      LexLessSameWidth(b, a);
    } else {
      LexLessShorter(a, b);
      var head, tail := b[..|a|], b[|a|..];
      LexLessSameWidth(a, head);
      ValueSplit(b, |a|);
      ValueBound(tail);
      PaddedOrder(m, Value(head), Pow10(|b| - |a|), Value(tail));
    }
  }

  lemma PaddedOrder(m: nat, h: nat, p: nat, t: nat)
    requires t < p
    ensures m <= h <==> m * p <= h * p + t
  {
    if m <= h {
      assert m * p <= h * p;
    } else {
      assert (h + 1) * p <= m * p;
    }
  }

  /** Numbers of equal width compare alike as text and as numbers. */
  lemma ShownOrderSameWidth(m: nat, n: nat)
    requires |Show(m)| == |Show(n)|
    ensures LexLess(Show(m), Show(n)) <==> m < n
  {
    LexLessSameWidth(Show(m), Show(n));
  }
}
