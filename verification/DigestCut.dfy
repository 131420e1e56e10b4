/** Cutting a digest to a budget at whole lines (client/openwebui-filter.py `fit_digest`). */
module DigestCut {
  import opened Text

  const MARKER: string := "\n\n[digest truncated by the OpenWebUI filter]"
  const FOOTER: string := "_("
  const HEADING: string := "###"
  const BULLET: string := "- "

  /** Python's notion of whitespace. */
  predicate IsPySpace(c: char) {
    IsSpace(c) || 0x1C <= c as int <= 0x1F
  }

  /** `not line.strip()`. */
  predicate Blank(line: string) {
    forall k | 0 <= k < |line| :: IsPySpace(line[k])
  }

  function LastNonBlank(lines: seq<string>): string {
    if lines == [] then ""
    else if !Blank(lines[|lines| - 1]) then lines[|lines| - 1]
    else LastNonBlank(lines[..|lines| - 1])
  }

  /** The first `k` lines must not end a cut: a blank line, a heading, or the note under a heading whose bullets go. */
  predicate Dangling(lines: seq<string>, k: nat)
    requires 1 <= k <= |lines|
  {
    var last := lines[k - 1];
    if Blank(last) || HEADING <= last then true
    else if BULLET <= last then false
    else
      && HEADING <= LastNonBlank(lines[..k - 1])
      && k < |lines| && BULLET <= lines[k]
  }

  function Body(digest: string): seq<string> {
    var lines := SplitOn(digest, {'\n'});
    if FOOTER <= lines[|lines| - 1] then lines[..|lines| - 1] else lines
  }

  function Footer(digest: string): (tail: seq<string>)
    ensures |tail| <= 1
  {
    var lines := SplitOn(digest, {'\n'});
    if FOOTER <= lines[|lines| - 1] then [lines[|lines| - 1]] else []
  }

  function Rendered(kept: seq<string>, tail: seq<string>): string {
    Join(kept + (if tail == [] then [] else [""] + tail), '\n') + MARKER
  }

  predicate Admissible(lines: seq<string>, tail: seq<string>, maxChars: int, k: int) {
    1 <= k <= |lines| && !Dangling(lines, k) && |Rendered(lines[..k], tail)| <= maxChars
  }

  ghost predicate Longest(lines: seq<string>, tail: seq<string>, maxChars: int, k: int) {
    Admissible(lines, tail, maxChars, k) && forall j :: Admissible(lines, tail, maxChars, j) ==> j <= k
  }

  /** One pass of the outer loop: the longest admissible prefix, or none. */
  method FitWith(lines: seq<string>, tail: seq<string>, maxChars: int) returns (text: Option<string>)
    ensures text.Some? ==> exists k :: Longest(lines, tail, maxChars, k) && text.value == Rendered(lines[..k], tail)
    ensures text.None? ==> forall j :: !Admissible(lines, tail, maxChars, j)
  {
    var kept := lines;
    while kept != []
      invariant |kept| <= |lines| && kept == lines[..|kept|]
      invariant forall j :: Admissible(lines, tail, maxChars, j) ==> j <= |kept|
      decreases |kept|
    {
      ghost var before := |kept|;
      while kept != [] && Dangling(lines, |kept|)
        invariant |kept| <= before && kept == lines[..|kept|]
        invariant forall j :: Admissible(lines, tail, maxChars, j) ==> j <= |kept|
        decreases |kept|
      {
        kept := kept[..|kept| - 1];
      }
      if kept == [] {
        break;
      }
      var candidate := Rendered(kept, tail);
      if |candidate| <= maxChars {
        assert Longest(lines, tail, maxChars, |kept|);
        return Some(candidate);
      }
      kept := kept[..|kept| - 1];
    }
    text := None;
  }

  method FitDigest(digest: string, maxChars: int) returns (cut: string)
    ensures |digest| <= maxChars ==> cut == digest
    ensures |digest| > maxChars ==>
              var lines, footer := Body(digest), Footer(digest);
              if exists k :: Admissible(lines, footer, maxChars, k) then
                exists k :: Longest(lines, footer, maxChars, k) && cut == Rendered(lines[..k], footer)
              else if exists k :: Admissible(lines, [], maxChars, k) then
                exists k :: Longest(lines, [], maxChars, k) && cut == Rendered(lines[..k], [])
              else cut == ""
    ensures maxChars >= 0 ==> |cut| <= maxChars
  {
    if |digest| <= maxChars {
      return digest;
    }
    var lines := SplitOn(digest, {'\n'});
    var footer := [];
    if FOOTER <= lines[|lines| - 1] {
      footer := [lines[|lines| - 1]];
      lines := lines[..|lines| - 1];
    }
    var text := FitWith(lines, footer, maxChars);
    if text.Some? {
      return text.value;
    }
    text := FitWith(lines, [], maxChars);
    if text.Some? {
      return text.value;
    }
    cut := "";
  }

  // ---- the rules of a cut, told by its lines ----

  /** A blank line is empty, or holds nothing but the characters Python's `str.strip` takes off. */
  lemma BlankExactly(line: string)
    ensures Blank(line) <==>
            forall c | c in line ::
              c as int in {9, 10, 11, 12, 13, 0x1C, 0x1D, 0x1E, 0x1F, 0x20, 0x85, 0xA0, 0x1680, 0x2028, 0x2029, 0x202F,
                           0x205F, 0x3000} || 0x2000 <= c as int <= 0x200A
  {
    forall c: char
      ensures IsPySpace(c) <==>
              c as int in {9, 10, 11, 12, 13, 0x1C, 0x1D, 0x1E, 0x1F, 0x20, 0x85, 0xA0, 0x1680, 0x2028, 0x2029, 0x202F,
                           0x205F, 0x3000} || 0x2000 <= c as int <= 0x200A
    {}
    if !Blank(line) {
      var k :| 0 <= k < |line| && !IsPySpace(line[k]);
      assert line[k] in line;
    }
  }

  /** The nearest line above `k` that is not blank is `j`. */
  predicate NearestAbove(lines: seq<string>, j: int, k: int) {
    0 <= j < k <= |lines| && !Blank(lines[j]) && forall i | j < i < k :: Blank(lines[i])
  }

  lemma {:induction false} LastNonBlankIs(lines: seq<string>, k: nat)
    requires k <= |lines|
    ensures (exists j :: NearestAbove(lines, j, k) && LastNonBlank(lines[..k]) == lines[j])
            || ((forall i | 0 <= i < k :: Blank(lines[i])) && LastNonBlank(lines[..k]) == "")
  {
    if k > 0 {
      assert lines[..k][..k - 1] == lines[..k - 1] && lines[..k][k - 1] == lines[k - 1];
      if !Blank(lines[k - 1]) {
        assert NearestAbove(lines, k - 1, k);
      } else {
        LastNonBlankIs(lines, k - 1);
        if j :| NearestAbove(lines, j, k - 1) && LastNonBlank(lines[..k - 1]) == lines[j] {
          assert NearestAbove(lines, j, k);
        }
      }
    }
  }

  /** A cut must not end on a blank line or a heading, nor on other text that stands right under a heading, blank lines
      aside, and has its first bullet cut off. */
  lemma DanglingExactly(lines: seq<string>, k: nat)
    requires 1 <= k <= |lines|
    ensures Dangling(lines, k) <==>
            || Blank(lines[k - 1]) || "###" <= lines[k - 1]
            || (&& !("- " <= lines[k - 1]) && k < |lines| && "- " <= lines[k]
                && exists j :: NearestAbove(lines, j, k - 1) && "###" <= lines[j])
  {
    LastNonBlankIs(lines, k - 1);
  }

  lemma FooterJoined(kept: seq<string>, footer: string)
    requires kept != []
    ensures Join(kept + ["", footer], '\n') == Join(kept, '\n') + ("\n\n" + footer)
  {
    var tail, more := ["", footer], kept + ["", footer];
    JoinCuts(more, |kept|);
    assert more[..|kept|] == kept && more[|kept|..] == tail && tail[1..] == [footer];
    Gap(Join(kept, '\n'), Join(tail, '\n'), footer);
  }

  lemma Gap(text: string, tail: string, footer: string)
    requires tail == "" + ['\n'] + footer
    ensures text + "\n" + tail == text + ("\n\n" + footer)
  {
  }

  /** The kept lines, a blank line and the footer when there is one, and the filter's own note. */
  lemma RenderedIs(kept: seq<string>, tail: seq<string>)
    requires kept != [] && |tail| <= 1
    ensures Rendered(kept, tail) ==
            Join(kept, '\n') + (if tail == [] then "" else "\n\n" + tail[0])
            + "\n\n[digest truncated by the OpenWebUI filter]"
  {
    if tail == [] {
      assert kept + [] == kept;
      NothingAdded(Join(kept, '\n'));
    } else {
      assert [""] + tail == ["", tail[0]];
      FooterJoined(kept, tail[0]);
    }
  }

  lemma NothingAdded(text: string)
    ensures text + "" == text
  {
  }

  lemma LastLineGivenBack(lines: seq<string>)
    requires lines != []
    ensures lines[..|lines| - 1] + [lines[|lines| - 1]] == lines && lines + [] == lines
  {
  }

  /** The footer is the last line when it starts with the server's mark; the rest are the lines to cut. */
  lemma FooterIsTheLastLine(digest: string)
    ensures Join(Body(digest) + Footer(digest), '\n') == digest
    ensures var lines := SplitOn(digest, {'\n'});
            Footer(digest) == if "_(" <= lines[|lines| - 1] then [lines[|lines| - 1]] else []
  {
    JoinSplit(digest, '\n');
    LastLineGivenBack(SplitOn(digest, {'\n'}));
  }

  // ---- what a cut is made of ----

  lemma {:induction false} JoinPrefix(lines: seq<string>, k: nat)
    requires 1 <= k <= |lines|
    ensures Join(lines[..k], '\n') <= Join(lines, '\n')
  {
    if k == |lines| {
      assert lines[..k] == lines;
    } else if k == 1 {
      assert lines[..1] == [lines[0]];
    } else {
      JoinPrefix(lines[1..], k - 1);
      assert lines[..k][1..] == lines[1..][..k - 1];
    }
  }

  /** What is kept is the digest's own beginning, up to the end of one of its lines. */
  lemma KeptIsABeginning(digest: string, k: nat)
    requires 1 <= k <= |Body(digest)|
    ensures var kept := Join(Body(digest)[..k], '\n');
            kept <= digest && (|kept| == |digest| || digest[|kept|] == '\n')
  {
    var all := SplitOn(digest, {'\n'});
    JoinSplit(digest, '\n');
    assert Body(digest)[..k] == all[..k];
    JoinPrefix(all, k);
    if k < |all| {
      JoinCuts(all, k);
    } else {
      assert all[..k] == all;
    }
  }

  lemma {:induction false} JoinCuts(lines: seq<string>, k: nat)
    requires 1 <= k < |lines|
    ensures Join(lines, '\n') == Join(lines[..k], '\n') + "\n" + Join(lines[k..], '\n')
  {
    if k == 1 {
      assert lines[..1] == [lines[0]];
    } else {
      JoinCuts(lines[1..], k - 1);
      assert lines[..k][1..] == lines[1..][..k - 1];
      assert lines[k..] == lines[1..][k - 1..];
      assert Join(lines, '\n') == lines[0] + "\n" + (Join(lines[1..][..k - 1], '\n') + "\n" + Join(lines[k..], '\n'));
    }
  }
}
