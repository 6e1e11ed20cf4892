/**
 * The text form of a flat JSON object whose members are strings, as
 * `JSON.stringify` writes it and `JSON.parse` reads it back. This is the form in
 * which the signed-in user is kept in the browser's key-value store.
 */
module JsonText {
  import opened Wrappers

  type Members = seq<(string, string)>

  function EscapeChar(c: char): string {
    if c == '"' || c == '\\' then ['\\', c] else [c]
  }

  /** The body of a JSON string literal: quote and backslash are escaped. */
  function Escape(s: string): string {
    if s == [] then [] else EscapeChar(s[0]) + Escape(s[1..])
  }

  function Quote(s: string): string {
    ['"'] + Escape(s) + ['"']
  }

  function MemberText(m: (string, string)): string {
    Quote(m.0) + [':'] + Quote(m.1)
  }

  /** The members separated by commas, then the closing brace. */
  function MembersText(ms: Members): string
    requires |ms| >= 1
  {
    if |ms| == 1 then MemberText(ms[0]) + "}" else MemberText(ms[0]) + ([','] + MembersText(ms[1..]))
  }

  /** `JSON.stringify` of an object with these string members, in this order. */
  function Serialize(ms: Members): string {
    if ms == [] then "{}" else ['{'] + MembersText(ms)
  }

  /** Reads a string literal body up to its closing quote; returns the value and the text after the quote. */
  function ParseStringBody(s: string): (r: Option<(string, string)>)
    decreases |s|
    ensures r.Some? ==> |r.value.1| < |s|
  {
    if s == [] then None
    else if s[0] == '"' then Some(("", s[1..]))
    else if s[0] == '\\' then
      if |s| < 2 then None
      else match ParseStringBody(s[2..])
        case None => None
        case Some((v, rest)) => Some(([s[1]] + v, rest))
    else match ParseStringBody(s[1..])
      case None => None
      case Some((v, rest)) => Some(([s[0]] + v, rest))
  }

  function ParseString(s: string): (r: Option<(string, string)>)
    ensures r.Some? ==> |r.value.1| < |s|
  {
    if s != [] && s[0] == '"' then ParseStringBody(s[1..]) else None
  }

  function ParseMember(s: string): (r: Option<((string, string), string)>)
    ensures r.Some? ==> |r.value.1| < |s|
  {
    match ParseString(s)
    case None => None
    case Some((k, rest)) =>
      if rest == [] || rest[0] != ':' then None
      else match ParseString(rest[1..])
        case None => None
        case Some((v, rest2)) => Some(((k, v), rest2))
  }

  function ParseMembers(s: string): Option<Members>
    decreases |s|
  {
    match ParseMember(s)
    case None => None
    case Some((m, rest)) =>
      if rest == "}" then Some([m])
      else if rest != [] && rest[0] == ',' then
        match ParseMembers(rest[1..])
        case None => None
        case Some(ms) => Some([m] + ms)
      else None
  }

  /** `JSON.parse` of a flat object of strings; `None` where it would throw. */
  function Parse(text: string): Option<Members> {
    if text == "{}" then Some([])
    else if text != [] && text[0] == '{' then ParseMembers(text[1..])
    else None
  }

  lemma {:induction false} ParseEscaped(x: string, rest: string)
    ensures ParseStringBody(Escape(x) + ['"'] + rest) == Some((x, rest))
  {
    if x == [] {
      assert Escape(x) + ['"'] + rest == ['"'] + rest;
    } else {
      var tail := Escape(x[1..]) + ['"'] + rest;
      ParseEscaped(x[1..], rest);
      ParseEscapedChar(x[0], tail, x[1..], rest);
      assert Escape(x) + ['"'] + rest == EscapeChar(x[0]) + tail;
      assert [x[0]] + x[1..] == x;
    }
  }

  /** An escaped character in front of a string body is read back as that character. */
  lemma ParseEscapedChar(c: char, tail: string, v: string, rest: string)
    requires ParseStringBody(tail) == Some((v, rest))
    ensures ParseStringBody(EscapeChar(c) + tail) == Some(([c] + v, rest))
  {
    var s := EscapeChar(c) + tail;
    if c == '"' || c == '\\' {
      assert s[0] == '\\' && s[1] == c && s[2..] == tail;
    } else {
      assert s[0] == c && s[1..] == tail;
    }
  }

  lemma ParseQuoted(x: string, rest: string)
    ensures ParseString(Quote(x) + rest) == Some((x, rest))
  {
    ParseEscaped(x, rest);
    assert (Quote(x) + rest)[1..] == Escape(x) + ['"'] + rest;
  }

  lemma ParseMemberText(m: (string, string), rest: string)
    ensures ParseMember(MemberText(m) + rest) == Some((m, rest))
  {
    var after := [':'] + Quote(m.1) + rest;
    assert MemberText(m) + rest == Quote(m.0) + after;
    ParseQuoted(m.0, after);
    assert after[1..] == Quote(m.1) + rest;
    ParseQuoted(m.1, rest);
  }

  lemma ParseMembersStep(s: string, m: (string, string), rest: string, ms: Members)
    requires ParseMember(s) == Some((m, rest))
    requires rest != "}" && rest != [] && rest[0] == ','
    requires ParseMembers(rest[1..]) == Some(ms)
    ensures ParseMembers(s) == Some([m] + ms)
  {
  }

  lemma {:induction false} ParseMembersText(ms: Members)
    requires |ms| >= 1
    ensures ParseMembers(MembersText(ms)) == Some(ms)
  {
    if |ms| == 1 {
      ParseMemberText(ms[0], "}");
      assert ms == [ms[0]];
    } else {
      var tail := [','] + MembersText(ms[1..]);
      ParseMemberText(ms[0], tail);
      assert tail[0] == ',' && tail[1..] == MembersText(ms[1..]);
      ParseMembersText(ms[1..]);
      ParseMembersStep(MembersText(ms), ms[0], tail, ms[1..]);
      assert [ms[0]] + ms[1..] == ms;
    }
  }

  /** Reading back what was written gives the same members in the same order. */
  lemma ParseSerialize(ms: Members)
    ensures Parse(Serialize(ms)) == Some(ms)
  {
    if ms != [] {
      var text := Serialize(ms);
      assert MemberText(ms[0])[0] == '"';
      assert text[1] == '"';
      assert text[1..] == MembersText(ms);
      ParseMembersText(ms);
    }
  }
}
