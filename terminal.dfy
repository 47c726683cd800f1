/**
 * What the toolkit sends to the terminal: ECMA-48 control sequences that move
 * the cursor to an absolute cell before a piece of text (TUI.Write), the
 * erase-display sequence (clear), and the log of observable events a render
 * pass produces.
 */
module Terminal {
  import opened Wrappers
  import opened Decimal

  const Esc: char := '\U{1B}'

  /** Control Sequence Introducer followed by a decimal parameter and a final byte. */
  function Csi(n: int, final: char): string {
    [Esc, '['] + Itoa(n) + [final]
  }

  /** CUU 1000 then CUB 1000: the cursor goes to the top-left cell of any screen up to 1000 cells. */
  const Home: string := "\U{1B}[1000A\U{1B}[1000D"

  /** ED 2 (erase the whole display), then the cursor goes home. */
  const ClearScreen: string := "\U{1B}[2J" + Home

  /**
   * TUI.Write: go home, move right x columns (CUF) when x > 0, move down y
   * rows (CUD) when y > 0, then the text itself.
   */
  function CursorWrite(x: int, y: int, s: string): (out: string)
    ensures |out| >= |Home| + |s|
    ensures out[..|Home|] == Home
    ensures out[|out| - |s|..] == s
  {
    Home + (if x > 0 then Csi(x, 'C') else "") + (if y > 0 then Csi(y, 'B') else "") + s
  }

  /** A cursor position and the text written there. */
  datatype Placement = Placement(column: nat, row: nat, text: string)

  /** Number of leading digits of `s`. */
  function DigitRun(s: string): (k: nat)
    ensures k <= |s| && AllDigits(s[..k])
    ensures k < |s| ==> !IsDigit(s[k])
  {
    if s == [] || !IsDigit(s[0]) then 0
    else
      var k := 1 + DigitRun(s[1..]);
      assert s[..k] == [s[0]] + s[1..][..k - 1];
      k
  }

  /** Reads one `ESC [ digits final` sequence off the front of `r`, if there is one. */
  function DecodeMove(r: string, final: char): (nat, string) {
    if |r| >= 2 && r[0] == Esc && r[1] == '[' then
      var k := DigitRun(r[2..]);
      assert r[2..2 + k] == r[2..][..k];
      if k > 0 && 2 + k < |r| && r[2 + k] == final then (ValueOf(r[2..2 + k]), r[3 + k..])
      else (0, r)
    else (0, r)
  }

  /** How a terminal of at most 1000x1000 cells reads what CursorWrite sends. */
  function DecodeCursorWrite(out: string): Option<Placement> {
    if |out| < |Home| || out[..|Home|] != Home then None
    else
      var cuf := DecodeMove(out[|Home|..], 'C');
      var cud := DecodeMove(cuf.1, 'B');
      Some(Placement(cuf.0, cud.0, cud.1))
  }

  lemma {:induction false} DigitRunOfDigits(d: string, t: string)
    requires AllDigits(d)
    requires t == [] || !IsDigit(t[0])
    ensures DigitRun(d + t) == |d|
    decreases |d|
  {
    if d != [] {
      assert (d + t)[1..] == d[1..] + t;
      DigitRunOfDigits(d[1..], t);
    }
  }

  lemma DecodeOneMove(n: int, final: char, rest: string)
    requires n > 0 && !IsDigit(final)
    ensures DecodeMove(Csi(n, final) + rest, final) == (n, rest)
  {
    var r := Csi(n, final) + rest;
    var d := Itoa(n);
    assert r == [Esc, '['] + d + [final] + rest;
    assert r[2..] == d + ([final] + rest);
    DigitRunOfDigits(d, [final] + rest);
    assert r[2..2 + |d|] == d;
    assert d == Digits(n);
    ValueOfDigits(n);
    assert r[3 + |d|..] == rest;
  }

  lemma SkipOtherMove(n: int, final: char, other: char, rest: string)
    requires n > 0 && !IsDigit(final) && other != final
    ensures DecodeMove(Csi(n, final) + rest, other) == (0, Csi(n, final) + rest)
  {
    var r := Csi(n, final) + rest;
    var d := Itoa(n);
    assert r == [Esc, '['] + d + [final] + rest;
    assert r[2..] == d + ([final] + rest);
    DigitRunOfDigits(d, [final] + rest);
    assert r[2 + |d|] == final;
  }

  lemma CursorWriteShape(x: int, y: int, s: string)
    ensures CursorWrite(x, y, s) ==
            Home + ((if x > 0 then Csi(x, 'C') else "") + ((if y > 0 then Csi(y, 'B') else "") + s))
  {
    var a := if x > 0 then Csi(x, 'C') else "";
    var b := if y > 0 then Csi(y, 'B') else "";
    Regroup(Home, a, b, s);
  }

  lemma Regroup(h: string, a: string, b: string, s: string)
    ensures h + a + b + s == h + (a + (b + s))
  {
  }

  lemma DecodeAfterHome(r0: string)
    ensures DecodeCursorWrite(Home + r0) ==
            var cuf := DecodeMove(r0, 'C'); var cud := DecodeMove(cuf.1, 'B'); Some(Placement(cuf.0, cud.0, cud.1))
  {
    assert (Home + r0)[..|Home|] == Home;
    assert (Home + r0)[|Home|..] == r0;
  }

  /**
   * Every write lands where it was asked to, clamped at the home cell, and
   * carries its text unchanged, provided the text does not itself start with
   * an escape (otherwise CursorWrite(3, 0, "") and CursorWrite(0, 0, "\e[3C")
   * send the same bytes).
   */
  lemma CursorWriteDecodes(x: int, y: int, s: string)
    requires s == [] || s[0] != Esc
    ensures DecodeCursorWrite(CursorWrite(x, y, s)) ==
            Some(Placement(if x > 0 then x else 0, if y > 0 then y else 0, s))
  {
    var ys := (if y > 0 then Csi(y, 'B') else "") + s;
    var r0 := (if x > 0 then Csi(x, 'C') else "") + ys;
    CursorWriteShape(x, y, s);
    DecodeAfterHome(r0);
    DecodeRight(x, ys, y, s);
    DecodeDown(y, s);
  }

  /** A single positioned write, seen on the output stream, decodes to its own cell and text. */
  lemma PutDecodes(es: seq<Event>, cx: nat, cy: nat, s: string)
    requires es == [Put(cx, cy, s)] && (s == [] || s[0] != Esc)
    ensures DecodeCursorWrite(Stream(es)) == Some(Placement(cx, cy, s))
  {
    StreamOne(Put(cx, cy, s));
    CursorWriteDecodes(cx, cy, s);
  }

  lemma DecodeRight(x: int, ys: string, y: int, s: string)
    requires s == [] || s[0] != Esc
    requires ys == (if y > 0 then Csi(y, 'B') else "") + s
    ensures DecodeMove((if x > 0 then Csi(x, 'C') else "") + ys, 'C') == (if x > 0 then x else 0, ys)
  {
    if x > 0 {
      DecodeOneMove(x, 'C', ys);
    } else if y > 0 {
      SkipOtherMove(y, 'B', 'C', s);
      assert "" + ys == ys;
    } else {
      assert ys == s;
    }
  }

  lemma DecodeDown(y: int, s: string)
    requires s == [] || s[0] != Esc
    ensures DecodeMove((if y > 0 then Csi(y, 'B') else "") + s, 'B') == (if y > 0 then y else 0, s)
  {
    if y > 0 {
      DecodeOneMove(y, 'B', s);
    } else {
      assert "" + s == s;
    }
  }

  /**
   * One observable step of a render pass: a positioned write through
   * TUI.Write, a full clear, or a run of one of the opaque callbacks.
   */
  datatype Event =
    | Put(x: int, y: int, text: string)
    | Erase
    | PaneDrawn(tag: string)
    | PaneIterated(tag: string)
    | ScreenDrawn

  /** The bytes an event sends to the output stream (callbacks' own output is not modelled). */
  function Bytes(e: Event): string {
    match e
    case Put(x, y, t) => CursorWrite(x, y, t)
    case Erase => ClearScreen
    case _ => ""
  }

  /** The output stream of a sequence of events. */
  function Stream(es: seq<Event>): (out: string)
    decreases |es|
  {
    if es == [] then "" else Bytes(es[0]) + Stream(es[1..])
  }

  lemma StreamOne(e: Event)
    ensures Stream([e]) == Bytes(e)
  {
    assert [e][1..] == [];
  }

  lemma {:induction false} StreamAppend(a: seq<Event>, b: seq<Event>)
    ensures Stream(a + b) == Stream(a) + Stream(b)
    decreases |a|
  {
    if a == [] {
      assert a + b == b;
    } else {
      assert (a + b)[1..] == a[1..] + b;
      StreamAppend(a[1..], b);
    }
  }
}
