/**
Redis stream IDs as the broker handles them. The broker stores them as text and
compares them in three different ways: `offsetLessThan` in Go, the commit script
`ack.lua`, and the arithmetic of `idPlusOne` in the trimmer. This module defines
the three on text, as written, and relates each to the real order of IDs.
*/
module Offsets {
  import opened Text
  import opened Wrappers

  /** A stream offset. The text "0", where a subscriber without a stored offset starts, is (0, 0). */
  datatype Offset = Offset(ms: nat, num: nat)

  const MIN_OFFSET := Offset(0, 0)

  /** IDs that Redis generates: thirteen-digit Unix milliseconds, and a sequence below Go's largest int. */
  predicate IsEntryId(o: Offset) {
    1_000_000_000_000 <= o.ms < 10_000_000_000_000 && o.num < MAX_INT
  }

  predicate IsOffset(o: Offset) {
    o == MIN_OFFSET || IsEntryId(o)
  }

  function Render(o: Offset): string {
    if o == MIN_OFFSET then "0" else Show(o.ms) + "-" + Show(o.num)
  }

  /** The order of IDs in a stream. */
  predicate Before(a: Offset, b: Offset) {
    a.ms < b.ms || (a.ms == b.ms && a.num < b.num)
  }

  predicate AtMost(a: Offset, b: Offset) {
    !Before(b, a)
  }

  // ----- the three comparisons on text -----

  /** offsetLessThan: the sequence numbers are compared even when the millisecond parts differ. */
  predicate OffsetLessThan(a: string, b: string) {
    var aParts, bParts := Split(a, '-'), Split(b, '-');
    if LexLess(aParts[0], bParts[0]) then true
    else if |aParts| == 1 || |bParts| == 1 then false
    else Atoi(aParts[1]) < Atoi(bParts[1])
  }

  datatype ScriptResult = Stored(offset: string) | Kept | ScriptError

  /** ack.lua: the sequence numbers are compared as text; comparing a missing part is a script error. */
  function AckScript(stored: Option<string>, newOffset: string): ScriptResult {
    match stored
    case None => Stored(newOffset)
    case Some(oldOffset) =>
      var n, o := Runs(newOffset, '-'), Runs(oldOffset, '-');
      if n == [] || o == [] then ScriptError
      else if LexLess(o[0], n[0]) then Stored(newOffset)
      else if n[0] != o[0] then Kept
      else if |n| < 2 || |o| < 2 then ScriptError
      else if LexLess(o[1], n[1]) then Stored(newOffset)
      else Kept
  }

  /** A Go int addition: wraps at 64 bits. */
  function WrapInt(n: int): int {
    if n > MAX_INT then n - 2 * (MAX_INT + 1) else n
  }

  function ShowInt(n: int): string {
    if n < 0 then "-" + Show(-n) else Show(n)
  }

  /** idPlusOne: text that is not of the form ms-seq is returned unchanged. */
  function IdPlusOne(id: string): string {
    var parts := Split(id, '-');
    if |parts| != 2 then id
    else parts[0] + "-" + ShowInt(WrapInt(Atoi(parts[1]) + 1))
  }

  // ----- what they compute on offsets -----

  /** offsetLessThan on offsets. */
  predicate LessThan(a: Offset, b: Offset) {
    a.ms < b.ms || a.num < b.num
  }

  /** The commit script's test for replacing a stored offset. */
  predicate Newer(n: Offset, o: Offset) {
    o.ms < n.ms || (o.ms == n.ms && LexLess(Show(o.num), Show(n.num)))
  }

  /** The commit script on offsets. */
  function Commit(stored: Option<Offset>, o: Offset): Option<Offset> {
    if stored.None? || Newer(o, stored.value) then Some(o) else stored
  }

  function Successor(o: Offset): Offset {
    Offset(o.ms, o.num + 1)
  }

  lemma RenderParts(o: Offset)
    requires IsEntryId(o)
    ensures Split(Render(o), '-') == [Show(o.ms), Show(o.num)]
    ensures Runs(Render(o), '-') == [Show(o.ms), Show(o.num)]
    ensures |Show(o.ms)| == 13 && Show(o.ms)[0] != '0'
  {
    DigitsHaveNo(Show(o.ms), '-');
    DigitsHaveNo(Show(o.num), '-');
    SplitAt(Show(o.ms), '-', Show(o.num));
    SplitPlain(Show(o.num), '-');
    var parts := [Show(o.ms), Show(o.num)];
    assert parts[1..] == [Show(o.num)] && parts[1..][1..] == [];
    assert NonEmpty(parts[1..]) == parts[1..] + NonEmpty(parts[1..][1..]);
    assert Render(o) == Show(o.ms) + ['-'] + Show(o.num);
    assert Pow10(12) == 1_000_000_000_000 && Pow10(13) == 10_000_000_000_000;
    WidthOf(o.ms, 13);
  }

  lemma {:induction false} WidthOf(n: nat, k: nat)
    requires k >= 1 && Pow10(k - 1) <= n < Pow10(k) && n > 0
    ensures |Show(n)| == k && Show(n)[0] != '0'
  {
    if n >= 10 {
      assert k >= 2 by { assert Pow10(1) == 10 * Pow10(0); }
      assert Pow10(k) == 10 * Pow10(k - 1) && Pow10(k - 1) == 10 * Pow10(k - 2);
      WidthOf(n / 10, k - 1);
    }
  }

  /** The text comparison of the broker is `LessThan` on every pair of offsets it can meet. */
  lemma OffsetLessThanIs(a: Offset, b: Offset)
    requires IsOffset(a) && IsOffset(b)
    ensures OffsetLessThan(Render(a), Render(b)) <==> LessThan(a, b)
  {
    SplitPlain("0", '-');
    if a != MIN_OFFSET { RenderParts(a); }
    if b != MIN_OFFSET { RenderParts(b); }
    if a != MIN_OFFSET && b != MIN_OFFSET {
      LexLessSameWidth(Show(a.ms), Show(b.ms));
    }
  }

  /** The commit script never fails on rendered IDs, and stores or keeps as `Commit` says. */
  lemma AckScriptIs(stored: Option<Offset>, o: Offset)
    requires IsEntryId(o) && (stored.Some? ==> IsEntryId(stored.value))
    ensures var held := if stored.Some? then Some(Render(stored.value)) else None;
            match AckScript(held, Render(o))
            case Stored(text) => Commit(stored, o) == Some(o) && text == Render(o)
            case Kept => Commit(stored, o) == stored
            case ScriptError => false
  {
    if stored.Some? {
      RenderParts(o);
      RenderParts(stored.value);
      LexLessSameWidth(Show(stored.value.ms), Show(o.ms));
    }
  }

  /** The trimmer's increment is the successor ID, and leaves "0" alone. */
  lemma IdPlusOneIs(o: Offset)
    requires IsOffset(o)
    ensures o == MIN_OFFSET ==> IdPlusOne(Render(o)) == Render(o)
    ensures IsEntryId(o) ==> IdPlusOne(Render(o)) == Render(Successor(o))
  {
    if o == MIN_OFFSET { SplitPlain("0", '-'); } else { RenderParts(o); }
  }

  /** Nothing lies strictly between an ID and its successor. */
  lemma SuccessorIsNext(o: Offset, e: Offset)
    ensures AtMost(Successor(o), e) <==> Before(o, e)
  {}

  // ----- how far each comparison is from the real order -----

  /** a and b are inverted when b has the later millisecond but the smaller sequence number. */
  predicate Inverted(a: Offset, b: Offset) {
    a.ms < b.ms && b.num < a.num
  }

  /** The broker's comparison contains the real order, and equals it except on inverted pairs. */
  lemma LessThanExactIff(a: Offset, b: Offset)
    ensures Before(a, b) ==> LessThan(a, b)
    ensures (LessThan(a, b) <==> Before(a, b)) <==> !Inverted(b, a)
  {}

  /**
  The commit script's comparison is the real order across milliseconds; within one
  millisecond it is right exactly when the older sequence number, padded with zeros
  to the width of the newer one, does not exceed it.
  */
  lemma NewerExactIff(n: Offset, o: Offset)
    requires Before(o, n)
    ensures o.ms == n.ms ==> |Show(o.num)| <= |Show(n.num)|
    ensures Newer(n, o) <==> o.ms != n.ms || o.num * Pow10(|Show(n.num)| - |Show(o.num)|) <= n.num
    ensures Newer(o, n) <==> !Newer(n, o)
  {
    if o.ms == n.ms { ShownOrderIff(o.num, n.num); }
  }
}
