/** Hidden inputs: printing them, and reading the names and values back (src/authserver/pages.rs). */
module HiddenForm {
  import opened Text

  // ---- printing ----

  function EscapeChar(c: char): string {
    if c == '&' then "&amp;"
    else if c == '<' then "&lt;"
    else if c == '>' then "&gt;"
    else if c == '"' then "&quot;"
    else if c == '\'' then "&#39;"
    else [c]
  }

  function Escaped(s: string): string {
    if s == [] then [] else EscapeChar(s[0]) + Escaped(s[1..])
  }

  lemma {:induction false} EscapedSnoc(s: string, c: char)
    ensures Escaped(s + [c]) == Escaped(s) + EscapeChar(c)
  {
    if s == [] {
      assert (s + [c])[1..] == [];
    } else {
      assert (s + [c])[1..] == s[1..] + [c];
      EscapedSnoc(s[1..], c);
    }
  }

  method Escape(s: string) returns (out: string)
    ensures out == Escaped(s)
  {
    out := [];
    assert s[..0] == [];
    for i := 0 to |s|
      invariant out == Escaped(s[..i])
    {
      assert s[..i + 1] == s[..i] + [s[i]];
      EscapedSnoc(s[..i], s[i]);
      match s[i] {
        case '&' => out := out + "&amp;";
        case '<' => out := out + "&lt;";
        case '>' => out := out + "&gt;";
        case '"' => out := out + "&quot;";
        case '\'' => out := out + "&#39;";
        case c => out := out + [c];
      }
    }
    assert s[..|s|] == s;
  }

  const OPEN: string := "<input type=\"hidden\" name=\""
  const MIDDLE: string := "\" value=\""
  const CLOSE: string := "\">"

  function Hidden(field: (string, string)): string {
    OPEN + Escaped(field.0) + MIDDLE + Escaped(field.1) + CLOSE
  }

  method PrintHidden(name: string, value: string) returns (out: string)
    ensures out == Hidden((name, value))
  {
    var n := Escape(name);
    var v := Escape(value);
    out := OPEN + n + MIDDLE + v + CLOSE;
  }

  datatype FlowFields = FlowFields(clientId: string, redirectUri: string, codeChallenge: string,
                                   codeChallengeMethod: string, responseType: string,
                                   state: Option<string>, scope: Option<string>, resource: Option<string>)

  function Present(name: string, value: Option<string>): seq<(string, string)> {
    if value.Some? then [(name, value.value)] else []
  }

  function Required(f: FlowFields): seq<(string, string)> {
    [("client_id", f.clientId), ("redirect_uri", f.redirectUri), ("code_challenge", f.codeChallenge),
     ("code_challenge_method", f.codeChallengeMethod), ("response_type", f.responseType)]
  }

  /** The name and value pairs of a request; an absent optional is no pair at all. */
  function Fields(f: FlowFields): seq<(string, string)> {
    Required(f) + Present("state", f.state) + Present("scope", f.scope) + Present("resource", f.resource)
  }

  function Printed(fields: seq<(string, string)>): string {
    if fields == [] then [] else Hidden(fields[0]) + Printed(fields[1..])
  }

  lemma {:induction false} PrintedConcat(a: seq<(string, string)>, b: seq<(string, string)>)
    ensures Printed(a + b) == Printed(a) + Printed(b)
  {
    if a == [] {
      assert a + b == b;
    } else {
      assert (a + b)[1..] == a[1..] + b;
      PrintedConcat(a[1..], b);
    }
  }

  lemma PrintedOne(field: (string, string))
    ensures Printed([field]) == Hidden(field)
  {
    assert [field][1..] == [];
  }

  /** `out.push_str(&hidden(name, value))`. */
  method Push(out: string, ghost printed: seq<(string, string)>, name: string, value: string)
    returns (more: string, ghost now: seq<(string, string)>)
    requires out == Printed(printed)
    ensures now == printed + [(name, value)] && more == Printed(now)
  {
    var input := PrintHidden(name, value);
    PrintedConcat(printed, [(name, value)]);
    PrintedOne((name, value));
    more := out + input;
    now := printed + [(name, value)];
  }

  method PushFive(a: (string, string), b: (string, string), c: (string, string),
                  d: (string, string), e: (string, string))
    returns (out: string)
    ensures out == Printed([a, b, c, d, e])
  {
    ghost var printed := [];
    out, printed := Push([], printed, a.0, a.1);
    out, printed := Push(out, printed, b.0, b.1);
    out, printed := Push(out, printed, c.0, c.1);
    out, printed := Push(out, printed, d.0, d.1);
    out, printed := Push(out, printed, e.0, e.1);
    assert printed == [a, b, c, d, e];
  }

  function Optionals(f: FlowFields): seq<(string, Option<string>)> {
    [("state", f.state), ("scope", f.scope), ("resource", f.resource)]
  }

  lemma FieldsByPresence(f: FlowFields)
    ensures Fields(f) == Required(f) + PresentAll(Optionals(f))
  {
    var os := Optionals(f);
    assert os[1..][1..] == [os[2]] && os[1..][1..][1..] == [];
    var state, scope, resource := Present("state", f.state), Present("scope", f.scope), Present("resource", f.resource);
    assert PresentAll([os[2]]) == resource + [] == resource;
    assert PresentAll(os[1..]) == scope + resource;
    assert PresentAll(os) == state + (scope + resource);
  }

  method HiddenInputs(f: FlowFields) returns (out: string)
    ensures out == Printed(Fields(f))
  {
    out := PushFive(("client_id", f.clientId), ("redirect_uri", f.redirectUri), ("code_challenge", f.codeChallenge),
                    ("code_challenge_method", f.codeChallengeMethod), ("response_type", f.responseType));
    out := PushOptionals(out, Required(f), [("state", f.state), ("scope", f.scope), ("resource", f.resource)]);
    FieldsByPresence(f);
  }

  function PresentAll(optionals: seq<(string, Option<string>)>): seq<(string, string)> {
    if optionals == [] then [] else Present(optionals[0].0, optionals[0].1) + PresentAll(optionals[1..])
  }

  lemma {:induction false} PresentAllSnoc(optionals: seq<(string, Option<string>)>, last: (string, Option<string>))
    ensures PresentAll(optionals + [last]) == PresentAll(optionals) + Present(last.0, last.1)
  {
    var all := optionals + [last];
    if optionals == [] {
      assert all[1..] == [];
    } else {
      assert all[1..] == optionals[1..] + [last];
      PresentAllSnoc(optionals[1..], last);
    }
  }

  lemma PresentUpTo(printed: seq<(string, string)>, optionals: seq<(string, Option<string>)>, i: nat)
    requires i < |optionals|
    ensures printed + PresentAll(optionals[..i + 1]) ==
            printed + PresentAll(optionals[..i]) + Present(optionals[i].0, optionals[i].1)
  {
    assert optionals[..i + 1] == optionals[..i] + [optionals[i]];
    PresentAllSnoc(optionals[..i], optionals[i]);
  }

  /** The loop over the optional fields. */
  method PushOptionals(start: string, ghost printed: seq<(string, string)>, optionals: seq<(string, Option<string>)>)
    returns (out: string)
    requires start == Printed(printed)
    ensures out == Printed(printed + PresentAll(optionals))
  {
    out := start;
    assert optionals[..0] == [] && printed + [] == printed;
    for i := 0 to |optionals|
      invariant out == Printed(printed + PresentAll(optionals[..i]))
    {
      var (name, value) := optionals[i];
      ghost var so := printed + PresentAll(optionals[..i]);
      PresentUpTo(printed, optionals, i);
      if value.Some? {
        ghost var now;
        out, now := Push(out, so, name, value.value);
      } else {
        assert so + [] == so;
      }
    }
    assert optionals[..|optionals|] == optionals;
  }

  // ---- reading ----

  /** The entity at the head of the text, if it is one of the five. */
  function EntityAt(s: string): Option<(string, char)> {
    if "&amp;" <= s then Some(("&amp;", '&'))
    else if "&lt;" <= s then Some(("&lt;", '<'))
    else if "&gt;" <= s then Some(("&gt;", '>'))
    else if "&quot;" <= s then Some(("&quot;", '"'))
    else if "&#39;" <= s then Some(("&#39;", '\''))
    else None
  }

  function Unescaped(s: string): string
    decreases |s|
  {
    if s == [] then []
    else
      match EntityAt(s)
      case Some((entity, c)) => [c] + Unescaped(s[|entity|..])
      case None => [s[0]] + Unescaped(s[1..])
  }

  lemma EntityIsRead(entity: string, c: char, rest: string)
    requires entity != [] && EntityAt(entity + rest) == Some((entity, c))
    ensures Unescaped(entity + rest) == [c] + Unescaped(rest)
  {
    assert (entity + rest)[|entity|..] == rest;
  }

  lemma AmpOrLtIsFound(rest: string)
    ensures EntityAt("&amp;" + rest) == Some(("&amp;", '&'))
    ensures EntityAt("&lt;" + rest) == Some(("&lt;", '<'))
  {
    assert ("&lt;" + rest)[1] == 'l';
  }

  lemma GtIsFound(rest: string)
    ensures EntityAt("&gt;" + rest) == Some(("&gt;", '>'))
  {
    assert ("&gt;" + rest)[1] == 'g';
  }

  lemma QuotIsFound(rest: string)
    ensures EntityAt("&quot;" + rest) == Some(("&quot;", '"'))
  {
    assert ("&quot;" + rest)[1] == 'q';
  }

  lemma AposIsFound(rest: string)
    ensures EntityAt("&#39;" + rest) == Some(("&#39;", '\''))
  {
    assert ("&#39;" + rest)[1] == '#';
  }

  lemma PlainIsFound(c: char, rest: string)
    requires c != '&'
    ensures EntityAt([c] + rest) == None
  {
    assert ([c] + rest)[0] == c;
  }

  lemma EscapedHeadReads(c: char, rest: string)
    ensures Unescaped(EscapeChar(c) + rest) == [c] + Unescaped(rest)
  {
    if c == '&' || c == '<' {
      AmpOrLtIsFound(rest);
      EntityIsRead(EscapeChar(c), c, rest);
    } else if c == '>' {
      GtIsFound(rest);
      EntityIsRead(EscapeChar(c), c, rest);
    } else if c == '"' {
      QuotIsFound(rest);
      EntityIsRead(EscapeChar(c), c, rest);
    } else if c == '\'' {
      AposIsFound(rest);
      EntityIsRead(EscapeChar(c), c, rest);
    } else {
      PlainIsFound(c, rest);
      assert ([c] + rest)[1..] == rest;
    }
  }

  lemma {:induction false} UnescapedEscaped(s: string)
    ensures Unescaped(Escaped(s)) == s
  {
    if s != [] {
      EscapedHeadReads(s[0], Escaped(s[1..]));
      UnescapedEscaped(s[1..]);
    }
  }

  /** An escaped value cannot close the attribute it stands in, nor open a tag. */
  lemma {:induction false} EscapedIsInert(s: string)
    ensures forall c | c in Escaped(s) :: c !in "<>\"'"
  {
    if s != [] {
      EscapedIsInert(s[1..]);
    }
  }

  /** An attribute value: everything up to the next quote, with the text after it. */
  function Attribute(s: string, lead: string): Option<(string, string)> {
    if !(lead <= s) then None
    else
      match SplitOnce(s[|lead|..], '"')
      case None => None
      case Some((raw, rest)) => Some((Unescaped(raw), rest))
  }

  const VALUE_LEAD: string := " value=\""

  /** A run of hidden inputs and nothing else. */
  function ReadInputs(html: string): Option<seq<(string, string)>>
    decreases |html|
  {
    if html == [] then Some([])
    else
      match Attribute(html, OPEN)
      case None => None
      case Some((name, afterName)) =>
        match Attribute(afterName, VALUE_LEAD)
        case None => None
        case Some((value, afterValue)) =>
          if afterValue == [] || afterValue[0] != '>' || |afterValue| >= |html| then None
          else
            match ReadInputs(afterValue[1..])
            case None => None
            case Some(rest) => Some([(name, value)] + rest)
  }

  lemma AttributeReads(lead: string, value: string, rest: string)
    ensures Attribute(lead + Escaped(value) + "\"" + rest, lead) == Some((value, rest))
  {
    var s := lead + Escaped(value) + "\"" + rest;
    assert s[|lead|..] == Escaped(value) + ['"'] + rest;
    EscapedIsInert(value);
    SplitOnceAt(Escaped(value), '"', rest);
    UnescapedEscaped(value);
  }

  lemma Regrouped(open: string, name: string, quote: string, lead: string, value: string, end: string, rest: string)
    ensures open + name + (quote + lead) + value + (quote + end) + rest ==
            open + name + quote + (lead + value + quote + (end + rest))
  {
    var tail := value + quote + (end + rest);
    assert value + (quote + end) + rest == tail;
    assert lead + value + quote + (end + rest) == lead + tail;
    assert (quote + lead) + tail == quote + (lead + tail);
  }

  lemma InputSplits(name: string, value: string, rest: string)
    ensures Hidden((name, value)) + rest ==
            OPEN + Escaped(name) + "\"" + (VALUE_LEAD + Escaped(value) + "\"" + (">" + rest))
  {
    assert MIDDLE == "\"" + VALUE_LEAD && CLOSE == "\"" + ">";
    Regrouped(OPEN, Escaped(name), "\"", VALUE_LEAD, Escaped(value), ">", rest);
  }

  /** One more input in front of what is read already. */
  lemma OneMoreInput(field: (string, string), tail: string, rest: seq<(string, string)>)
    requires ReadInputs(tail) == Some(rest)
    ensures ReadInputs(Hidden(field) + tail) == Some([field] + rest)
  {
    var (name, value) := field;
    var afterValue := ">" + tail;
    var afterName := VALUE_LEAD + Escaped(value) + "\"" + afterValue;
    InputSplits(name, value, tail);
    AttributeReads(OPEN, name, afterName);
    AttributeReads(VALUE_LEAD, value, afterValue);
    InputIsRead(Hidden(field) + tail, field, afterName, afterValue, rest);
  }

  /** One unfolding of the reader. */
  lemma InputIsRead(html: string, field: (string, string), afterName: string, afterValue: string,
                    rest: seq<(string, string)>)
    requires Attribute(html, OPEN) == Some((field.0, afterName))
    requires Attribute(afterName, VALUE_LEAD) == Some((field.1, afterValue))
    requires afterValue != [] && afterValue[0] == '>' && |html| > |afterValue|
    requires ReadInputs(afterValue[1..]) == Some(rest)
    ensures ReadInputs(html) == Some([field] + rest)
  {
  }

  lemma PrintedHead(fields: seq<(string, string)>)
    requires fields != []
    ensures Printed(fields) == Hidden(fields[0]) + Printed(fields[1..])
  {
  }

  lemma HeadAndRest<T>(s: seq<T>)
    requires s != []
    ensures [s[0]] + s[1..] == s
  {
  }

  /** What the page prints is read back as the same names and values, whatever characters they hold. */
  lemma {:induction false} InputsReadBack(fields: seq<(string, string)>)
    ensures ReadInputs(Printed(fields)) == Some(fields)
  {
    if fields != [] {
      InputsReadBack(fields[1..]);
      OneMoreInput(fields[0], Printed(fields[1..]), fields[1..]);
      PrintedHead(fields);
      HeadAndRest(fields);
    }
  }
}
