// FileStringComparer (FileStringComparer.cs): two multi-line texts side by
// side, each line of the one next to the same line of the other, and an "X"
// at the end of every row where they differ.
//
// Environment.NewLine, which StringBuilder.AppendLine appends, is a
// parameter. String.Trim strips the characters Char.IsWhiteSpace accepts.
module FileStringComparer {

  function Repeat(c: char, n: nat): (r: string)
    ensures |r| == n && forall i :: 0 <= i < n ==> r[i] == c
  {
    if n == 0 then "" else [c] + Repeat(c, n - 1)
  }

  // String.PadRight / PadLeft with spaces: the result is as long as the
  // wider of the string and the width ...
  function PadRight(s: string, width: int): (r: string)
    ensures |r| == if width > |s| then width else |s|
  {
    if width <= |s| then s else s + Repeat(' ', width - |s|)
  }

  function PadLeft(s: string, width: int): (r: string)
    ensures |r| == if width > |s| then width else |s|
  {
    if width <= |s| then s else Repeat(' ', width - |s|) + s
  }

  // ... holds the string at its start (PadRight) or its end (PadLeft), and
  // spaces everywhere else.
  lemma PadRightPads(s: string, width: int)
    ensures PadRight(s, width)[..|s|] == s
    ensures forall i :: |s| <= i < |PadRight(s, width)| ==> PadRight(s, width)[i] == ' '
  {
  }

  lemma PadLeftPads(s: string, width: int)
    ensures var r := PadLeft(s, width); r[|r| - |s|..] == s
    ensures forall i :: 0 <= i < |PadLeft(s, width)| - |s| ==> PadLeft(s, width)[i] == ' '
  {
  }

  // C#'s integer division, which truncates toward zero.
  function TruncDiv2(x: int): int
  {
    if x >= 0 then x / 2 else -((-x) / 2)
  }

  // PadCenter: left-pad to half the spare room plus the text, then
  // right-pad to the full length.
  function PadCenter(source: string, length: nat): string
  {
    var spaces := length - |source|;
    var padLeft := TruncDiv2(spaces) + |source|;
    PadRight(PadLeft(source, padLeft), length)
  }

  // The result is as long as the wider of length and source, holds source
  // after half the spare room (rounded down), and the two margins differ by
  // at most one.
  lemma PadCenterCentres(source: string, length: nat)
    ensures |PadCenter(source, length)| == if length > |source| then length else |source|
    ensures length <= |source| ==> PadCenter(source, length) == source
    ensures length > |source| ==>
      var left := (length - |source|) / 2;
      PadCenter(source, length) ==
        Repeat(' ', left) + source + Repeat(' ', length - |source| - left) &&
      (length - |source| - left == left || length - |source| - left == left + 1)
  {
    var spaces := length - |source|;
    if length > |source| {
      var left := spaces / 2;
      assert TruncDiv2(spaces) == left;
      if left > 0 {
        assert PadLeft(source, left + |source|) == Repeat(' ', left) + source;
      } else {
        assert PadLeft(source, left + |source|) == source;
        assert Repeat(' ', 0) == "";
      }
    } else {
      assert TruncDiv2(spaces) + |source| <= |source|;
    }
  }

  function Max(a: nat, b: nat): nat
  {
    if a >= b then a else b
  }

  // The running maximum of the line lengths, left to right; 0 for no lines.
  function MaxLen(lines: seq<string>): nat
  {
    if lines == [] then 0 else Max(MaxLen(lines[..|lines| - 1]), |lines[|lines| - 1]|)
  }

  lemma {:induction false} MaxLenBounds(lines: seq<string>)
    ensures forall i :: 0 <= i < |lines| ==> |lines[i]| <= MaxLen(lines)
    ensures lines == [] ==> MaxLen(lines) == 0
    ensures lines != [] ==> exists i :: 0 <= i < |lines| && |lines[i]| == MaxLen(lines)
  {
    if lines != [] {
      var init := lines[..|lines| - 1];
      MaxLenBounds(init);
      forall i | 0 <= i < |lines| ensures |lines[i]| <= MaxLen(lines) {
        if i < |lines| - 1 {
          assert lines[i] == init[i];
        }
      }
      if init != [] && MaxLen(init) >= |lines[|lines| - 1]| {
        var i :| 0 <= i < |init| && |init[i]| == MaxLen(init);
        assert lines[i] == init[i];
      }
    }
  }

  // GetMaxLineLength: the foreach with a running maximum.
  method GetMaxLineLength(strList: array<string>) returns (maxLen: nat)
    ensures maxLen == MaxLen(strList[..])
  {
    maxLen := 0;
    var i := 0;
    while i < strList.Length
      invariant 0 <= i <= strList.Length
      invariant maxLen == MaxLen(strList[..i])
    {
      assert strList[..i + 1][..i] == strList[..i];
      if |strList[i]| > maxLen {
        maxLen := |strList[i]|;
      }
      i := i + 1;
    }
    assert strList[..i] == strList[..];
  }

  // String.Replace("\r\n", "\n"): one left-to-right pass, matches do not
  // overlap.
  function ReplaceCrLf(s: string): string
  {
    if |s| >= 2 && s[0] == '\r' && s[1] == '\n' then "\n" + ReplaceCrLf(s[2..])
    else if s == [] then []
    else [s[0]] + ReplaceCrLf(s[1..])
  }

  function CountLf(s: string): nat
  {
    if s == [] then 0 else (if s[0] == '\n' then 1 else 0) + CountLf(s[1..])
  }

  lemma CountLfAppend(a: string, b: string)
    ensures CountLf(a + b) == CountLf(a) + CountLf(b)
  {
    if a != [] {
      assert (a + b)[1..] == a[1..] + b;
      assert (a + b)[0] == a[0];
      CountLfAppend(a[1..], b);
    } else {
      assert a + b == b;
    }
  }

  // The replacement keeps every line feed; a text without CR is untouched.
  lemma {:induction false} ReplaceCrLfKeepsLineFeeds(s: string)
    ensures CountLf(ReplaceCrLf(s)) == CountLf(s)
    ensures '\r' !in s ==> ReplaceCrLf(s) == s
    decreases |s|
  {
    if |s| >= 2 && s[0] == '\r' && s[1] == '\n' {
      ReplaceCrLfKeepsLineFeeds(s[2..]);
      CountLfAppend("\n", ReplaceCrLf(s[2..]));
      assert s[1..][1..] == s[2..];
    } else if s != [] {
      ReplaceCrLfKeepsLineFeeds(s[1..]);
      CountLfAppend([s[0]], ReplaceCrLf(s[1..]));
      assert s == [s[0]] + s[1..];
    }
  }

  // String.Split("\n"): the pieces between line feeds; never empty.
  function SplitLf(s: string): (pieces: seq<string>)
    ensures |pieces| >= 1
  {
    if s == [] then [""]
    else
      var rest := SplitLf(s[1..]);
      if s[0] == '\n' then [""] + rest else [[s[0]] + rest[0]] + rest[1..]
  }

  function JoinLf(pieces: seq<string>): string
    requires |pieces| >= 1
  {
    if |pieces| == 1 then pieces[0] else pieces[0] + "\n" + JoinLf(pieces[1..])
  }

  // Splitting loses nothing but the separators: one more piece than there
  // are line feeds, none containing one, and joining them gives the text
  // back.
  lemma {:induction false} SplitLfJoins(s: string)
    ensures |SplitLf(s)| == CountLf(s) + 1
    ensures forall i :: 0 <= i < |SplitLf(s)| ==> '\n' !in SplitLf(s)[i]
    ensures JoinLf(SplitLf(s)) == s
    decreases |s|
  {
    if s != [] {
      SplitLfJoins(s[1..]);
      var rest := SplitLf(s[1..]);
      var p := SplitLf(s);
      if s[0] == '\n' {
        assert p[1..] == rest;
        forall i | 0 <= i < |p| ensures '\n' !in p[i] {
          if i > 0 {
            assert p[i] == rest[i - 1];
          }
        }
        assert s == "\n" + s[1..];
      } else {
        assert p[0] == [s[0]] + rest[0];
        assert p[1..] == rest[1..];
        forall i | 0 <= i < |p| ensures '\n' !in p[i] {
          if i > 0 {
            assert p[i] == rest[i];
          }
        }
        if |rest| == 1 {
          assert s == [s[0]] + s[1..];
        } else {
          assert JoinLf(rest) == rest[0] + "\n" + JoinLf(rest[1..]);
          assert s == [s[0]] + s[1..];
        }
      }
    }
  }

  // Every piece right-padded to the same width.
  function PadAll(pieces: seq<string>, width: nat): (lines: seq<string>)
    ensures |lines| == |pieces|
    ensures forall i :: 0 <= i < |pieces| ==> lines[i] == PadRight(pieces[i], width)
  {
    if pieces == [] then [] else PadAll(pieces[..|pieces| - 1], width) + [PadRight(pieces[|pieces| - 1], width)]
  }

  // GetLines as a value: the pieces, each right-padded to the longest.
  function LinesOf(fileString: string): seq<string>
  {
    var pieces := SplitLf(ReplaceCrLf(fileString));
    PadAll(pieces, MaxLen(pieces))
  }

  // Padding every piece to the longest leaves each one its piece followed by
  // spaces, all of that one length.
  lemma PadAllToLongest(pieces: seq<string>)
    ensures var lines := PadAll(pieces, MaxLen(pieces));
      (forall i :: 0 <= i < |lines| ==>
        |lines[i]| == MaxLen(pieces) &&
        lines[i][..|pieces[i]|] == pieces[i] &&
        forall k :: |pieces[i]| <= k < |lines[i]| ==> lines[i][k] == ' ') &&
      MaxLen(lines) == MaxLen(pieces)
  {
    var w := MaxLen(pieces);
    var lines := PadAll(pieces, w);
    MaxLenBounds(pieces);
    forall i | 0 <= i < |lines|
      ensures |lines[i]| == w && lines[i][..|pieces[i]|] == pieces[i]
      ensures forall k :: |pieces[i]| <= k < |lines[i]| ==> lines[i][k] == ' '
    {
      assert lines[i] == PadRight(pieces[i], w);
    }
    PadAllMaxLen(pieces);
  }

  lemma PadAllMaxLen(pieces: seq<string>)
    ensures MaxLen(PadAll(pieces, MaxLen(pieces))) == MaxLen(pieces)
  {
    var w := MaxLen(pieces);
    var lines := PadAll(pieces, w);
    MaxLenBounds(pieces);
    MaxLenBounds(lines);
    forall i | 0 <= i < |lines| ensures |lines[i]| == w {
      assert lines[i] == PadRight(pieces[i], w);
    }
    if lines != [] {
      var i :| 0 <= i < |lines| && |lines[i]| == MaxLen(lines);
    }
  }

  // All lines are equally long, as long as the longest piece; each is its
  // piece followed by spaces; there is one line per line feed, plus one.
  lemma LinesOfPadded(fileString: string)
    ensures var pieces := SplitLf(ReplaceCrLf(fileString)); var lines := LinesOf(fileString);
      |lines| == CountLf(fileString) + 1 && |lines| == |pieces| &&
      (forall i :: 0 <= i < |lines| ==>
        |lines[i]| == MaxLen(pieces) &&
        lines[i][..|pieces[i]|] == pieces[i] &&
        forall k :: |pieces[i]| <= k < |lines[i]| ==> lines[i][k] == ' ') &&
      MaxLen(lines) == MaxLen(pieces)
  {
    var pieces := SplitLf(ReplaceCrLf(fileString));
    ReplaceCrLfKeepsLineFeeds(fileString);
    SplitLfJoins(ReplaceCrLf(fileString));
    assert |pieces| == CountLf(fileString) + 1;
    PadAllToLongest(pieces);
    assert LinesOf(fileString) == PadAll(pieces, MaxLen(pieces));
  }

  // GetLines: the split lines, padded in place.
  method GetLines(fileString: string) returns (strList: array<string>)
    ensures strList[..] == LinesOf(fileString)
  {
    var str2 := ReplaceCrLf(fileString);
    var pieces := SplitLf(str2);
    strList := new string[|pieces|](i requires 0 <= i < |pieces| => pieces[i]);
    assert strList[..] == pieces;
    var maxLen := GetMaxLineLength(strList);
    var i := 0;
    while i < strList.Length
      invariant 0 <= i <= strList.Length
      invariant forall k :: 0 <= k < i ==> strList[k] == PadRight(pieces[k], maxLen)
      invariant forall k :: i <= k < strList.Length ==> strList[k] == pieces[k]
    {
      strList[i] := PadRight(strList[i], maxLen);
      i := i + 1;
    }
  }

  // Char.IsWhiteSpace.
  predicate IsWhiteSpace(c: char)
  {
    ('\U{0009}' <= c <= '\U{000D}') || c == ' ' || c == '\U{0085}' || c == '\U{00A0}' ||
    c == '\U{1680}' || ('\U{2000}' <= c <= '\U{200A}') || c == '\U{2028}' || c == '\U{2029}' ||
    c == '\U{202F}' || c == '\U{205F}' || c == '\U{3000}'
  }

  function TrimStart(s: string): string
  {
    if s != [] && IsWhiteSpace(s[0]) then TrimStart(s[1..]) else s
  }

  function TrimEnd(s: string): string
  {
    if s != [] && IsWhiteSpace(s[|s| - 1]) then TrimEnd(s[..|s| - 1]) else s
  }

  // String.Trim.
  function Trim(s: string): string
  {
    TrimEnd(TrimStart(s))
  }

  // The rule line, the header line and the rule line again, then one row per
  // line of the longer text.
  function SideBySideRows(fileString1: string, fileString2: string, header1: string, header2: string)
    : seq<string>
  {
    Rows(LinesOf(fileString1), LinesOf(fileString2), header1, header2)
  }

  function Rule(m0: nat, m1: nat): string
  {
    Repeat('-', m0) + "---" + Repeat('-', m1)
  }

  function Rows(l1: seq<string>, l2: seq<string>, header1: string, header2: string): seq<string>
  {
    var m0 := MaxLen(l1);
    var m1 := MaxLen(l2);
    [Rule(m0, m1), PadCenter(header1, m0) + "   " + PadCenter(header2, m1), Rule(m0, m1)] +
    seq(Max(|l1|, |l2|), i requires 0 <= i < Max(|l1|, |l2|) => Row(l1, l2, m0, m1, i))
  }

  function Row(l1: seq<string>, l2: seq<string>, m0: nat, m1: nat, i: nat): string
    requires i < |l1| || i < |l2|
  {
    if i < |l1| && i < |l2| then CommonRow(l1[i], l2[i])
    else if i < |l2| then PadRight("", m0) + " | " + l2[i] + " | " + "X"
    else l1[i] + " | " + PadRight("", m1) + " | " + "X"
  }

  // A row where both texts have a line: X marks lines that differ once
  // trailing spaces are trimmed.
  function CommonRow(line1: string, line2: string): string
  {
    line1 + " | " + line2 + " | " + (if Trim(line1) != Trim(line2) then "X" else "")
  }

  // The StringBuilder's text: every row followed by the newline.
  function Text(rows: seq<string>, newline: string): string
  {
    if rows == [] then "" else Text(rows[..|rows| - 1], newline) + rows[|rows| - 1] + newline
  }

  ghost predicate RowsFrom(rows: seq<string>, l1: seq<string>, l2: seq<string>, m0: nat, m1: nat)
  {
    |rows| == 3 + Max(|l1|, |l2|) &&
    forall i :: 0 <= i < Max(|l1|, |l2|) ==> rows[3 + i] == Row(l1, l2, m0, m1, i)
  }

  // GetSideBySideFileStrings: the three header lines and the three loops.
  method GetSideBySideFileStrings(fileString1: string, fileString2: string, header1: string, header2: string,
                                  newline: string) returns (r: string)
    ensures r == Text(SideBySideRows(fileString1, fileString2, header1, header2), newline)
  {
    var strLists0 := GetLines(fileString1);
    var strLists1 := GetLines(fileString2);
    r := SideBySide(strLists0, strLists1, header1, header2, newline);
  }

  // The body of GetSideBySideFileStrings once both texts are split.
  method SideBySide(strLists0: array<string>, strLists1: array<string>, header1: string, header2: string,
                    newline: string) returns (r: string)
    ensures r == Text(Rows(strLists0[..], strLists1[..], header1, header2), newline)
  {
    var maxLens0 := GetMaxLineLength(strLists0);
    var maxLens1 := GetMaxLineLength(strLists1);
    ghost var rows := Rows(strLists0[..], strLists1[..], header1, header2);
    RowsHead(strLists0[..], strLists1[..], header1, header2, newline);
    var sb := "";
    var rule := Repeat('-', maxLens0) + "---" + Repeat('-', maxLens1);
    sb := sb + rule + newline;
    sb := sb + (PadCenter(header1, maxLens0) + "   " + PadCenter(header2, maxLens1)) + newline;
    sb := sb + rule + newline;
    sb := CommonRows(strLists0, strLists1, maxLens0, maxLens1, newline, sb, rows);
    sb := ExtraSecondRows(strLists0, strLists1, maxLens0, maxLens1, newline, sb, rows);
    r := ExtraFirstRows(strLists0, strLists1, maxLens0, maxLens1, newline, sb, rows);
  }

  lemma RowCommon(l1: seq<string>, l2: seq<string>, m0: nat, m1: nat, i: nat)
    requires i < |l1| && i < |l2|
    ensures Row(l1, l2, m0, m1, i) == CommonRow(l1[i], l2[i])
  {
  }

  lemma RowExtra(l1: seq<string>, l2: seq<string>, m0: nat, m1: nat, i: nat)
    requires (i < |l1|) != (i < |l2|)
    ensures i < |l2| ==> Row(l1, l2, m0, m1, i) == PadRight("", m0) + " | " + l2[i] + " | " + "X"
    ensures i < |l1| ==> Row(l1, l2, m0, m1, i) == l1[i] + " | " + PadRight("", m1) + " | " + "X"
  {
  }

  lemma RowsHead(l1: seq<string>, l2: seq<string>, header1: string, header2: string, newline: string)
    ensures var rows := Rows(l1, l2, header1, header2); var m0 := MaxLen(l1); var m1 := MaxLen(l2);
      var rule := Repeat('-', m0) + "---" + Repeat('-', m1);
      RowsFrom(rows, l1, l2, m0, m1) &&
      Text(rows[..3], newline) ==
        "" + rule + newline + (PadCenter(header1, m0) + "   " + PadCenter(header2, m1)) + newline + rule + newline
  {
    var rows := Rows(l1, l2, header1, header2);
    TextStep(rows, 0, newline);
    TextStep(rows, 1, newline);
    TextStep(rows, 2, newline);
  }

  // The first loop: the rows where both texts have a line.
  method CommonRows(a0: array<string>, a1: array<string>, m0: nat, m1: nat, newline: string,
                    sb0: string, ghost rows: seq<string>) returns (sb: string)
    requires RowsFrom(rows, a0[..], a1[..], m0, m1) && sb0 == Text(rows[..3], newline)
    ensures sb == Text(rows[..3 + (if a0.Length < a1.Length then a0.Length else a1.Length)], newline)
  {
    sb := sb0;
    var i := 0;
    while i < a0.Length && i < a1.Length
      invariant 0 <= i <= a0.Length && i <= a1.Length
      invariant sb == Text(rows[..3 + i], newline)
    {
      var row := CommonRow(a0[i], a1[i]);
      RowCommon(a0[..], a1[..], m0, m1, i);
      RowAppended(rows, a0[..], a1[..], m0, m1, i, newline, sb, row);
      sb := sb + row + newline;
      i := i + 1;
    }
  }

  // The second loop: the extra lines of the second text.
  method ExtraSecondRows(a0: array<string>, a1: array<string>, m0: nat, m1: nat, newline: string,
                         sb0: string, ghost rows: seq<string>) returns (sb: string)
    requires RowsFrom(rows, a0[..], a1[..], m0, m1)
    requires sb0 == Text(rows[..3 + (if a0.Length < a1.Length then a0.Length else a1.Length)], newline)
    ensures sb == Text(rows[..3 + a1.Length], newline)
  {
    sb := sb0;
    var blank := PadRight("", m0);
    var i := a0.Length;
    while i < a1.Length
      invariant a0.Length <= a1.Length ==> a0.Length <= i <= a1.Length && sb == Text(rows[..3 + i], newline)
      invariant a0.Length > a1.Length ==> sb == sb0
    {
      var row := blank + " | " + a1[i] + " | " + "X";
      RowExtra(a0[..], a1[..], m0, m1, i);
      RowAppended(rows, a0[..], a1[..], m0, m1, i, newline, sb, row);
      sb := sb + row + newline;
      i := i + 1;
    }
  }

  // The third loop: the extra lines of the first text.
  method ExtraFirstRows(a0: array<string>, a1: array<string>, m0: nat, m1: nat, newline: string,
                        sb0: string, ghost rows: seq<string>) returns (sb: string)
    requires RowsFrom(rows, a0[..], a1[..], m0, m1)
    requires sb0 == Text(rows[..3 + a1.Length], newline)
    ensures sb == Text(rows, newline)
  {
    sb := sb0;
    var blank := PadRight("", m1);
    var i := a1.Length;
    while i < a0.Length
      invariant a1.Length <= a0.Length ==> a1.Length <= i <= a0.Length && sb == Text(rows[..3 + i], newline)
      invariant a1.Length > a0.Length ==> sb == sb0
    {
      var row := a0[i] + " | " + blank + " | " + "X";
      RowExtra(a0[..], a1[..], m0, m1, i);
      RowAppended(rows, a0[..], a1[..], m0, m1, i, newline, sb, row);
      sb := sb + row + newline;
      i := i + 1;
    }
    assert rows[..|rows|] == rows;
  }

  // One more row of the layout, appended to the text so far.
  lemma RowAppended(rows: seq<string>, l1: seq<string>, l2: seq<string>, m0: nat, m1: nat, i: nat, newline: string,
                    sb: string, row: string)
    requires RowsFrom(rows, l1, l2, m0, m1) && (i < |l1| || i < |l2|)
    requires sb == Text(rows[..3 + i], newline) && row == Row(l1, l2, m0, m1, i)
    ensures sb + row + newline == Text(rows[..3 + (i + 1)], newline)
  {
    TextStep(rows, 3 + i, newline);
  }

  lemma TextStep(rows: seq<string>, k: nat, newline: string)
    requires k < |rows|
    ensures Text(rows[..k + 1], newline) == Text(rows[..k], newline) + rows[k] + newline
  {
    assert rows[..k + 1][..k] == rows[..k];
  }

  // Trailing spaces are trimmed away.
  lemma {:induction false} TrimEndSpaces(s: string, k: nat)
    ensures TrimEnd(s + Repeat(' ', k)) == TrimEnd(s)
  {
    if k > 0 {
      var t := s + Repeat(' ', k);
      assert t[|t| - 1] == ' ';
      assert t[..|t| - 1] == s + Repeat(' ', k - 1);
      TrimEndSpaces(s, k - 1);
    } else {
      assert s + Repeat(' ', k) == s;
    }
  }

  lemma {:induction false} TrimStartOfSpaces(k: nat)
    ensures TrimStart(Repeat(' ', k)) == ""
  {
    if k > 0 {
      assert Repeat(' ', k)[1..] == Repeat(' ', k - 1);
      TrimStartOfSpaces(k - 1);
    }
  }

  // Leading white space goes; the appended spaces stay unless nothing else
  // does.
  lemma {:induction false} TrimStartSpaces(s: string, k: nat)
    ensures TrimStart(s + Repeat(' ', k)) == if TrimStart(s) == "" then "" else TrimStart(s) + Repeat(' ', k)
  {
    if s == [] {
      assert s + Repeat(' ', k) == Repeat(' ', k);
      TrimStartOfSpaces(k);
    } else if IsWhiteSpace(s[0]) {
      assert (s + Repeat(' ', k))[1..] == s[1..] + Repeat(' ', k);
      TrimStartSpaces(s[1..], k);
    }
  }

  // The padding GetLines adds does not change what the comparison sees.
  lemma TrimPadded(s: string, width: int)
    ensures Trim(PadRight(s, width)) == Trim(s)
  {
    if width > |s| {
      var k := width - |s|;
      TrimStartSpaces(s, k);
      if TrimStart(s) != "" {
        TrimEndSpaces(TrimStart(s), k);
      }
    }
  }

  // Line i of the split text, or nothing past its end.
  function Piece(pieces: seq<string>, i: nat): string
  {
    if i < |pieces| then pieces[i] else ""
  }

  // A row is marked when only one text has that line or the two lines differ
  // once trimmed.
  predicate Marked(pieces1: seq<string>, pieces2: seq<string>, i: nat)
  {
    !(i < |pieces1| && i < |pieces2|) || Trim(pieces1[i]) != Trim(pieces2[i])
  }

  // One row of the comparison, in terms of the unpadded lines.
  lemma RowLayout(p1: seq<string>, p2: seq<string>, i: nat)
    requires i < |p1| || i < |p2|
    ensures var w1 := MaxLen(p1); var w2 := MaxLen(p2);
      |PadRight(Piece(p1, i), w1)| == w1 && |PadRight(Piece(p2, i), w2)| == w2 &&
      Row(PadAll(p1, w1), PadAll(p2, w2), w1, w2, i) ==
        PadRight(Piece(p1, i), w1) + " | " + PadRight(Piece(p2, i), w2) + " | " + (if Marked(p1, p2, i) then "X" else "")
  {
    var w1 := MaxLen(p1);
    var w2 := MaxLen(p2);
    MaxLenBounds(p1);
    MaxLenBounds(p2);
    var l1 := PadAll(p1, w1);
    var l2 := PadAll(p2, w2);
    if i < |p1| && i < |p2| {
      TrimPadded(p1[i], w1);
      TrimPadded(p2[i], w2);
      RowCommon(l1, l2, w1, w2, i);
    } else {
      RowExtra(l1, l2, w1, w2, i);
    }
  }

  // The comparison of two split texts.
  ghost predicate LaidOut(rows: seq<string>, p1: seq<string>, p2: seq<string>, header1: string, header2: string)
  {
    var w1 := MaxLen(p1); var w2 := MaxLen(p2);
    |rows| == 3 + Max(|p1|, |p2|) &&
    rows[0] == Repeat('-', w1) + "---" + Repeat('-', w2) && rows[2] == rows[0] &&
    rows[1] == PadCenter(header1, w1) + "   " + PadCenter(header2, w2) &&
    forall i :: 0 <= i < Max(|p1|, |p2|) ==>
      |PadRight(Piece(p1, i), w1)| == w1 && |PadRight(Piece(p2, i), w2)| == w2 &&
      rows[3 + i] == PadRight(Piece(p1, i), w1) + " | " + PadRight(Piece(p2, i), w2) + " | " +
        (if Marked(p1, p2, i) then "X" else "")
  }

  lemma RowsAt(l1: seq<string>, l2: seq<string>, header1: string, header2: string, i: nat)
    requires i < Max(|l1|, |l2|)
    ensures |Rows(l1, l2, header1, header2)| == 3 + Max(|l1|, |l2|)
    ensures Rows(l1, l2, header1, header2)[3 + i] == Row(l1, l2, MaxLen(l1), MaxLen(l2), i)
  {
  }

  lemma RowsLaidOut(p1: seq<string>, p2: seq<string>, header1: string, header2: string)
    ensures LaidOut(Rows(PadAll(p1, MaxLen(p1)), PadAll(p2, MaxLen(p2)), header1, header2), p1, p2, header1, header2)
  {
    var w1 := MaxLen(p1);
    var w2 := MaxLen(p2);
    var l1 := PadAll(p1, w1);
    var l2 := PadAll(p2, w2);
    PadAllMaxLen(p1);
    PadAllMaxLen(p2);
    var rows := Rows(l1, l2, header1, header2);
    forall i | 0 <= i < Max(|p1|, |p2|)
      ensures |PadRight(Piece(p1, i), w1)| == w1 && |PadRight(Piece(p2, i), w2)| == w2
      ensures rows[3 + i] == PadRight(Piece(p1, i), w1) + " | " + PadRight(Piece(p2, i), w2) + " | " +
          (if Marked(p1, p2, i) then "X" else "")
    {
      RowsAt(l1, l2, header1, header2, i);
      RowLayout(p1, p2, i);
    }
  }

  // The comparison: a rule, the centred headers and a rule, then one row per
  // line of the longer text (a text has one line per line feed, plus one).
  // Every row has both texts' lines, padded to their columns' widths and
  // followed by " | ", and ends with "X" exactly when the row is marked.
  lemma SideBySideLayout(fileString1: string, fileString2: string, header1: string, header2: string)
    ensures var p1 := SplitLf(ReplaceCrLf(fileString1)); var p2 := SplitLf(ReplaceCrLf(fileString2));
      |p1| == CountLf(fileString1) + 1 && |p2| == CountLf(fileString2) + 1 &&
      LaidOut(SideBySideRows(fileString1, fileString2, header1, header2), p1, p2, header1, header2)
  {
    ReplaceCrLfKeepsLineFeeds(fileString1);
    SplitLfJoins(ReplaceCrLf(fileString1));
    ReplaceCrLfKeepsLineFeeds(fileString2);
    SplitLfJoins(ReplaceCrLf(fileString2));
    RowsLaidOut(SplitLf(ReplaceCrLf(fileString1)), SplitLf(ReplaceCrLf(fileString2)), header1, header2);
  }
}
