/** Recognising the data fence on the way back in (src/domain/fence.rs). */
module Fence {
  import opened Text

  const BREAKS: set<char> := {'\n', '\r'}
  const OPENER: string := "----- data "
  const CLOSER: string := "----- end of data "
  const TAIL: string := " -----"

  function StripPrefix(s: string, prefix: string): Option<string> {
    if prefix <= s then Some(s[|prefix|..]) else None
  }

  function StripSuffix(s: string, suffix: string): Option<string> {
    if |suffix| <= |s| && s[|s| - |suffix|..] == suffix then Some(s[..|s| - |suffix|]) else None
  }

  predicate LowerHex(c: char) {
    '0' <= c <= '9' || 'a' <= c <= 'f'
  }

  /** Rust compares the byte length with 12; the digit test makes that the number of characters. */
  predicate IsNonce(n: string) {
    |n| == 12 && forall k | 0 <= k < |n| :: LowerHex(n[k])
  }

  predicate FenceLine(line: string) {
    var rest := match StripPrefix(line, CLOSER)
                case Some(r) => Some(r)
                case None => StripPrefix(line, OPENER);
    match rest
    case None => false
    case Some(r) =>
      match StripSuffix(r, TAIL)
      case None => false
      case Some(n) => IsNonce(n)
  }

  predicate AnyFence(lines: seq<string>) {
    exists i | 0 <= i < |lines| :: FenceLine(Trim(lines[i]))
  }

  predicate CarriesFence(content: string) {
    AnyFence(SplitOn(content, BREAKS))
  }

  // ---- what the scanner is meant to see ----

  /** Twelve hex digits in lower case. */
  predicate TwelveHex(n: string) {
    |n| == 12 && forall c | c in n :: '0' <= c <= '9' || 'a' <= c <= 'f'
  }

  lemma NonceIsTwelveHex(n: string)
    ensures IsNonce(n) <==> TwelveHex(n)
  {
    if TwelveHex(n) {
      forall k | 0 <= k < |n| ensures LowerHex(n[k]) {
        assert n[k] in n;
      }
    }
  }

  /** A whole marker, opening or closing. */
  ghost predicate IsMarker(t: string) {
    exists n :: TwelveHex(n) && (t == "----- data " + n + " -----" || t == "----- end of data " + n + " -----")
  }

  /** `s[i..j]` is a line: no break inside, a break or an end of the text on either side. */
  ghost predicate LineAt(s: string, i: nat, j: nat) {
    && i <= j <= |s|
    && Free(s[i..j], BREAKS)
    && (i == 0 || s[i - 1] in BREAKS)
    && (j == |s| || s[j] in BREAKS)
  }

  ghost predicate ShowsMarkerAt(s: string, i: nat, j: nat) {
    LineAt(s, i, j) && IsMarker(Trim(s[i..j]))
  }

  lemma MarkedBy(prefix: string, line: string)
    ensures (exists n :: IsNonce(n) && line == prefix + n + TAIL) <==>
            (prefix <= line && StripSuffix(line[|prefix|..], TAIL).Some? &&
             IsNonce(StripSuffix(line[|prefix|..], TAIL).value))
  {
    if prefix <= line && StripSuffix(line[|prefix|..], TAIL).Some? {
      var r := line[|prefix|..];
      var n := StripSuffix(r, TAIL).value;
      assert r == n + TAIL && line == prefix + r;
      assert line == prefix + n + TAIL;
    }
    forall n | IsNonce(n) && line == prefix + n + TAIL
      ensures prefix <= line && StripSuffix(line[|prefix|..], TAIL) == Some(n)
    {
      assert line[|prefix|..] == n + TAIL;
    }
  }

  lemma FenceLineIsMarker(line: string)
    ensures FenceLine(line) <==> IsMarker(line)
  {
    MarkedBy(OPENER, line);
    MarkedBy(CLOSER, line);
    assert CLOSER[6] != OPENER[6];
    assert !(CLOSER <= line && OPENER <= line);
    forall n ensures IsNonce(n) <==> TwelveHex(n) {
      NonceIsTwelveHex(n);
    }
    assert IsMarker(line) <==>
      (exists n :: IsNonce(n) && line == OPENER + n + TAIL) || (exists n :: IsNonce(n) && line == CLOSER + n + TAIL);
  }

  /** A line of the text after the first break is a line of the whole text, further along. */
  lemma LineShifts(s: string, k: nat, i: nat, j: nat)
    requires k < |s| && s[k] in BREAKS
    requires LineAt(s[k + 1..], i, j)
    ensures LineAt(s, i + k + 1, j + k + 1) && s[i + k + 1..j + k + 1] == s[k + 1..][i..j]
  {
    var rest := s[k + 1..];
    assert s[i + k + 1..j + k + 1] == rest[i..j];
    assert i > 0 ==> s[i + k] == rest[i - 1];
    assert j < |rest| ==> s[j + k + 1] == rest[j];
  }

  /** Every line is the part before the first break or a line of what follows it. */
  lemma LineSplits(s: string, k: nat, i: nat, j: nat)
    requires k < |s| && s[k] in BREAKS && Free(s[..k], BREAKS) && LineAt(s, i, j)
    ensures (i == 0 && j == k) ||
            (i > k && LineAt(s[k + 1..], i - k - 1, j - k - 1) && s[k + 1..][i - k - 1..j - k - 1] == s[i..j])
  {
    if i > k {
      var rest, a, b := s[k + 1..], i - k - 1, j - k - 1;
      assert rest[a..b] == s[i..j];
      assert a > 0 ==> rest[a - 1] == s[i - 1];
      assert b < |rest| ==> rest[b] == s[j];
    }
  }

  ghost predicate HasLine(s: string, line: string) {
    exists i: nat, j: nat :: LineAt(s, i, j) && s[i..j] == line
  }

  lemma HasLineSplits(s: string, k: nat, line: string)
    requires k < |s| && s[k] in BREAKS && Free(s[..k], BREAKS)
    ensures HasLine(s, line) <==> line == s[..k] || HasLine(s[k + 1..], line)
  {
    assert s[0..k] == s[..k] && LineAt(s, 0, k);
    if HasLine(s, line) {
      var i: nat, j: nat :| LineAt(s, i, j) && s[i..j] == line;
      LineSplits(s, k, i, j);
    }
    if HasLine(s[k + 1..], line) {
      var i: nat, j: nat :| LineAt(s[k + 1..], i, j) && s[k + 1..][i..j] == line;
      LineShifts(s, k, i, j);
    }
  }

  /** The parts of the split are exactly the lines of the text. */
  lemma {:induction false} SplitHoldsTheLines(s: string, line: string)
    ensures line in SplitOn(s, BREAKS) <==> HasLine(s, line)
  {
    if Free(s, BREAKS) {
      SplitFree(s, BREAKS);
      assert s[0..|s|] == s && LineAt(s, 0, |s|);
      forall i: nat, j: nat | LineAt(s, i, j) ensures i == 0 && j == |s| {}
    } else {
      var k := FirstBreak(s);
      var rest := s[k + 1..];
      SplitHoldsTheLines(rest, line);
      HasLineSplits(s, k, line);
      assert s == s[..k] + [s[k]] + rest;
      SplitCuts(s[..k], s[k], rest, BREAKS);
      SplitFree(s[..k], BREAKS);
    }
  }

  lemma {:induction false} FirstBreak(s: string) returns (k: nat)
    requires !Free(s, BREAKS)
    ensures k < |s| && s[k] in BREAKS && Free(s[..k], BREAKS)
  {
    if s[0] in BREAKS {
      k := 0;
    } else {
      var j := FirstBreak(s[1..]);
      k := j + 1;
      assert s[..k] == [s[0]] + s[1..][..j];
    }
  }

  /** The scanner agrees with the plain reading: some line, trimmed, is a whole marker. */
  lemma AgreesWithLines(content: string)
    ensures CarriesFence(content) <==> exists i: nat, j: nat :: ShowsMarkerAt(content, i, j)
  {
    var lines := SplitOn(content, BREAKS);
    if CarriesFence(content) {
      var p :| 0 <= p < |lines| && FenceLine(Trim(lines[p]));
      SplitHoldsTheLines(content, lines[p]);
      var i: nat, j: nat :| LineAt(content, i, j) && content[i..j] == lines[p];
      FenceLineIsMarker(Trim(lines[p]));
      assert ShowsMarkerAt(content, i, j);
    }
    if i: nat, j: nat :| ShowsMarkerAt(content, i, j) {
      SplitHoldsTheLines(content, content[i..j]);
      FenceLineIsMarker(Trim(content[i..j]));
    }
  }

  lemma AnyFenceInConcat(left: seq<string>, right: seq<string>)
    ensures AnyFence(left + right) <==> AnyFence(left) || AnyFence(right)
  {
    forall i | 0 <= i < |right| ensures (left + right)[|left| + i] == right[i] {}
    forall i | 0 <= i < |left| ensures (left + right)[i] == left[i] {}
  }

  /** A break between two texts makes the verdict the disjunction of theirs. */
  lemma BreakDisjoins(a: string, c: char, b: string)
    requires c in BREAKS
    ensures CarriesFence(a + [c] + b) <==> CarriesFence(a) || CarriesFence(b)
  {
    SplitCuts(a, c, b, BREAKS);
    AnyFenceInConcat(SplitOn(a, BREAKS), SplitOn(b, BREAKS));
  }

  lemma CrLfDisjoins(a: string, b: string)
    ensures CarriesFence(a + "\r\n" + b) <==> CarriesFence(a) || CarriesFence(b)
  {
    assert a + "\r\n" + b == (a + ['\r']) + ['\n'] + b;
    BreakDisjoins(a + ['\r'], '\n', b);
    assert a + ['\r'] == a + ['\r'] + "";
    BreakDisjoins(a, '\r', "");
    assert SplitOn("", BREAKS) == [""];
  }

  // ---- layout: line endings and padding ----

  datatype Line = Line(before: string, text: string, after: string, ending: string)

  ghost predicate WellLaid(l: Line) {
    && AllSpace(l.before) && AllSpace(l.after)
    && Free(l.before, BREAKS) && Free(l.text, BREAKS) && Free(l.after, BREAKS)
    && l.ending in {"\n", "\r", "\r\n"}
  }

  function Printed(l: Line): string {
    l.before + l.text + l.after
  }

  /** The text those lines print; the last one has no ending. */
  function Lay(lines: seq<Line>): string
    requires lines != []
  {
    if |lines| == 1 then Printed(lines[0]) else Printed(lines[0]) + lines[0].ending + Lay(lines[1..])
  }

  lemma {:induction false} LaidTextCarries(lines: seq<Line>)
    requires lines != [] && forall l | l in lines :: WellLaid(l)
    ensures CarriesFence(Lay(lines)) <==> exists i | 0 <= i < |lines| :: IsMarker(Trim(lines[i].text))
  {
    var first := lines[0];
    assert WellLaid(first);
    SplitFree(Printed(first), BREAKS);
    TrimPadded(first.before, first.text, first.after);
    FenceLineIsMarker(Trim(first.text));
    assert SplitOn(Printed(first), BREAKS)[0] == Printed(first);
    assert CarriesFence(Printed(first)) <==> IsMarker(Trim(first.text));
    if |lines| > 1 {
      LaidTextCarries(lines[1..]);
      if first.ending == "\r\n" {
        CrLfDisjoins(Printed(first), Lay(lines[1..]));
      } else {
        BreakDisjoins(Printed(first), first.ending[0], Lay(lines[1..]));
      }
      forall i | 0 < i < |lines| ensures lines[i] == lines[1..][i - 1] {}
    }
  }

  /** Rewriting line endings or padding lines with whitespace never changes the verdict. */
  lemma LayoutIsIrrelevant(a: seq<Line>, b: seq<Line>)
    requires a != [] && |a| == |b|
    requires (forall l | l in a :: WellLaid(l)) && (forall l | l in b :: WellLaid(l))
    requires forall i | 0 <= i < |a| :: Trim(a[i].text) == Trim(b[i].text)
    ensures CarriesFence(Lay(a)) <==> CarriesFence(Lay(b))
  {
    LaidTextCarries(a);
    LaidTextCarries(b);
  }

  lemma OneMoreLine(text: string, c: char, rest: seq<Line>)
    requires Free(text, BREAKS) && c in BREAKS && rest != []
    ensures Lay([Line("", text, "", [c])] + rest) == text + [c] + Lay(rest)
  {
    var first := Line("", text, "", [c]);
    assert Printed(first) == text;
    assert ([first] + rest)[1..] == rest;
  }

  lemma PlainLineIsWellLaid(text: string, c: char)
    requires Free(text, BREAKS) && c in BREAKS
    ensures WellLaid(Line("", text, "", [c]))
  {
    assert [c] == "\n" || [c] == "\r";
  }

  lemma LaidOneMore(text: string, c: char, after: string, rest: seq<Line>) returns (lines: seq<Line>)
    requires Free(text, BREAKS) && c in BREAKS
    requires rest != [] && (forall l | l in rest :: WellLaid(l)) && Lay(rest) == after
    ensures lines != [] && (forall l | l in lines :: WellLaid(l)) && Lay(lines) == text + [c] + after
  {
    var first := Line("", text, "", [c]);
    OneMoreLine(text, c, rest);
    PlainLineIsWellLaid(text, c);
    lines := [first] + rest;
    assert forall l | l in lines :: l == first || l in rest;
  }

  lemma LaidFromBreak(s: string, k: nat, rest: seq<Line>) returns (lines: seq<Line>)
    requires k < |s| && s[k] in BREAKS && Free(s[..k], BREAKS)
    requires rest != [] && (forall l | l in rest :: WellLaid(l)) && Lay(rest) == s[k + 1..]
    ensures lines != [] && (forall l | l in lines :: WellLaid(l)) && Lay(lines) == s
  {
    lines := LaidOneMore(s[..k], s[k], s[k + 1..], rest);
    assert s[..k] + [s[k]] + s[k + 1..] == s;
  }

  lemma OneLineLaid(s: string) returns (lines: seq<Line>)
    requires Free(s, BREAKS)
    ensures lines != [] && (forall l | l in lines :: WellLaid(l)) && Lay(lines) == s
  {
    var only := Line("", s, "", "\n");
    PlainLineIsWellLaid(s, '\n');
    assert Printed(only) == s;
    lines := [only];
  }

  /** Every text is laid out by some lines, so the lemma above speaks of every text. */
  lemma {:induction false} EveryTextIsLaid(s: string) returns (lines: seq<Line>)
    ensures lines != [] && (forall l | l in lines :: WellLaid(l)) && Lay(lines) == s
  {
    if Free(s, BREAKS) {
      lines := OneLineLaid(s);
    } else {
      var k := FirstBreak(s);
      var rest := EveryTextIsLaid(s[k + 1..]);
      lines := LaidFromBreak(s, k, rest);
    }
  }
}
