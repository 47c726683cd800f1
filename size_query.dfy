/**
 * The text half of TUI.getSize: the reply of `stty size` ("rows cols\n") is
 * split on spaces, the first field read as the height, the second, with its
 * first newline removed, as the width.
 */
module SizeQuery {
  import opened Wrappers
  import opened Decimal

  /** strings.Split(s, " "): the pieces between spaces, empty ones included. */
  function Fields(s: string): (r: seq<string>)
    ensures |r| >= 1
    ensures forall i :: 0 <= i < |r| ==> ' ' !in r[i]
    decreases |s|
  {
    if ' ' !in s then [s]
    else
      var i := IndexOf(s, ' ');
      [s[..i]] + Fields(s[i + 1..])
  }

  /** strings.Join(fs, " "). */
  function Join(fs: seq<string>): string
    requires |fs| >= 1
    decreases |fs|
  {
    if |fs| == 1 then fs[0] else fs[0] + " " + Join(fs[1..])
  }

  /** Position of the first occurrence of `c` in `s`. */
  function IndexOf(s: string, c: char): (i: nat)
    requires c in s
    ensures i < |s| && s[i] == c && c !in s[..i]
  {
    if s[0] == c then 0
    else
      var i := 1 + IndexOf(s[1..], c);
      assert s[..i] == [s[0]] + s[1..][..i - 1];
      i
  }

  /** strings.Replace(s, "\n", "", 1): the first newline, if any, is removed. */
  function RemoveFirstNewline(s: string): (r: string)
    ensures '\n' !in s ==> r == s
    ensures '\n' in s ==> |r| == |s| - 1
    ensures '\n' in s ==> exists i :: 0 <= i < |s| && s[i] == '\n' && '\n' !in s[..i] && r == s[..i] + s[i + 1..]
  {
    if '\n' in s then var i := IndexOf(s, '\n'); s[..i] + s[i + 1..] else s
  }

  /** Why a reply could not be read. */
  datatype SizeError =
    | NotANumber     // strconv.Atoi rejected a field
    | NoSecondField  // the reply has no space, and the source indexes past the split result

  /** The parse of getSize: (width, height), in that order, or the reason it failed. */
  function ParseSize(reply: string): (r: Result<(int, int), SizeError>)
    ensures r.Ok? ==> Atoi(Fields(reply)[0]) == Some(r.value.1)
    ensures r.Ok? ==> |Fields(reply)| >= 2 && Atoi(RemoveFirstNewline(Fields(reply)[1])) == Some(r.value.0)
    ensures r == Err(NoSecondField) <==> ' ' !in reply && Atoi(reply).Some?
    ensures r.Ok? <==> Atoi(Fields(reply)[0]).Some? && |Fields(reply)| >= 2
                       && Atoi(RemoveFirstNewline(Fields(reply)[1])).Some?
  {
    var nums := Fields(reply);
    match Atoi(nums[0])
    case None => Err(NotANumber)
    case Some(h) =>
      if |nums| < 2 then Err(NoSecondField)
      else
        match Atoi(RemoveFirstNewline(nums[1]))
        case None => Err(NotANumber)
        case Some(w) => Ok((w, h))
  }

  /** Splitting on spaces loses nothing: joining the fields back gives the text. */
  lemma {:induction false} JoinFields(s: string)
    ensures Join(Fields(s)) == s
    decreases |s|
  {
    if ' ' in s {
      var i := IndexOf(s, ' ');
      var head, rest := s[..i], s[i + 1..];
      var fs := Fields(rest);
      assert Fields(s) == [head] + fs;
      assert ([head] + fs)[1..] == fs;
      assert Join(Fields(s)) == head + " " + Join(fs);
      JoinFields(rest);
      assert s == head + " " + rest;
    } else {
      assert Fields(s) == [s];
    }
  }

  lemma {:induction false} IndexAfter(a: string, c: char, b: string)
    requires c !in a
    ensures IndexOf(a + [c] + b, c) == |a|
    decreases |a|
  {
    if a != [] {
      assert (a + [c] + b)[1..] == a[1..] + [c] + b;
      IndexAfter(a[1..], c, b);
    }
  }

  lemma FieldsOfTwo(a: string, b: string)
    requires ' ' !in a && ' ' !in b
    ensures Fields(a + " " + b) == [a, b]
  {
    var s := a + " " + b;
    IndexAfter(a, ' ', b);
    assert s[..|a|] == a;
    assert s[|a| + 1..] == b;
  }

  /** What `stty size` prints for a rows x cols terminal is read back as (cols, rows). */
  lemma ParseSttyReply(rows: nat, cols: nat)
    requires rows <= MaxInt && cols <= MaxInt
    ensures ParseSize(Itoa(rows) + " " + Itoa(cols) + "\n") == Ok((cols, rows))
  {
    var hs, cs := Itoa(rows), Itoa(cols);
    SttyFields(hs, cs);
    DropNewline(cs);
    AtoiItoa(rows);
    AtoiItoa(cols);
  }

  lemma SttyFields(hs: string, cs: string)
    requires AllDigits(hs) && AllDigits(cs)
    ensures Fields(hs + " " + cs + "\n") == [hs, cs + "\n"]
  {
    var ws := cs + "\n";
    assert hs + " " + cs + "\n" == hs + " " + ws;
    assert ' ' !in hs;
    assert ' ' !in ws by { assert ws[|ws| - 1] == '\n'; }
    FieldsOfTwo(hs, ws);
  }

  lemma DropNewline(cs: string)
    requires AllDigits(cs)
    ensures RemoveFirstNewline(cs + "\n") == cs
  {
    var ws := cs + "\n";
    assert '\n' !in cs;
    IndexAfter(cs, '\n', "");
    assert cs + ['\n'] + "" == ws;
    assert ws[..|cs|] == cs;
  }
}
