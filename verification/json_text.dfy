/**
 * The JSON text of the verification file: `JSON.stringify({ verification: token }, null, 2)`
 * as the registration endpoint writes it, and the part of `JSON.parse` that reads such a
 * document back (an object with one string-valued member), so that the file instruction can
 * be shown to round-trip.
 */
module JsonText {
  import opened Wrappers

  // ---------------------------------------------------------------- writing

  function HexDigit(d: nat): (c: char)
    requires d < 16
  {
    if d < 10 then ('0' as int + d) as char else ('a' as int + d - 10) as char
  }

  /** How `JSON.stringify` writes one character inside a string literal. */
  function EscapeChar(c: char): (r: string)
    ensures r != []
  {
    if c == '"' then "\\\""
    else if c == '\\' then "\\\\"
    else if c == '\U{8}' then "\\b"
    else if c == '\t' then "\\t"
    else if c == '\n' then "\\n"
    else if c == '\U{C}' then "\\f"
    else if c == '\r' then "\\r"
    else if (c as int) < 0x20 then "\\u00" + [HexDigit(c as int / 16), HexDigit(c as int % 16)]
    else [c]
  }

  function EscapeBody(s: string): string
  {
    if s == [] then [] else EscapeChar(s[0]) + EscapeBody(s[1..])
  }

  /** `JSON.stringify` of a string. */
  function Quote(s: string): string
  {
    "\"" + EscapeBody(s) + "\""
  }

  /** The body of `/.well-known/scrapesafe.json` as the registration endpoint builds it:
      `JSON.stringify({ verification: token }, null, 2)`. */
  function VerificationDocument(token: string): string
  {
    MemberDocument("verification", token)
  }

  /** `JSON.stringify({ [name]: value }, null, 2)`. */
  function MemberDocument(name: string, value: string): string
  {
    "{" + "\n  " + Quote(name) + ": " + Quote(value) + "\n}"
  }

  /** `JSON.stringify({ [name]: value })`, without indentation. */
  function CompactMemberDocument(name: string, value: string): string
  {
    "{" + Quote(name) + ":" + Quote(value) + "}"
  }

  // ---------------------------------------------------------------- reading

  /** JSON's insignificant white space (RFC 8259, section 2). */
  predicate IsJsonSpace(c: char) { c == ' ' || c == '\t' || c == '\n' || c == '\r' }

  function SkipSpace(s: string): (r: string)
    ensures |r| <= |s|
    ensures r == [] || !IsJsonSpace(r[0])
  {
    if s != [] && IsJsonSpace(s[0]) then SkipSpace(s[1..]) else s
  }

  function HexValue(c: char): (r: Option<nat>)
    ensures r.Some? ==> r.value < 16
  {
    if '0' <= c <= '9' then Some(c as int - '0' as int)
    else if 'a' <= c <= 'f' then Some(c as int - 'a' as int + 10)
    else if 'A' <= c <= 'F' then Some(c as int - 'A' as int + 10)
    else None
  }

  /** The character of a `\uXXXX` escape; surrogate code units are not read. */
  function UnicodeEscape(h: string): Option<char>
    requires |h| == 4
  {
    match (HexValue(h[0]), HexValue(h[1]), HexValue(h[2]), HexValue(h[3]))
    case (Some(a), Some(b), Some(c), Some(d)) =>
      var v := 4096 * a + 256 * b + 16 * c + d;
      if 0xD800 <= v <= 0xDFFF then None else Some(v as char)
    case _ => None
  }

  /** The character an escape sequence stands for (the text after the backslash), with the
      length of that text. */
  function Unescape(s: string): Option<(char, nat)>
  {
    if s == [] then None
    else if s[0] == '"' || s[0] == '\\' || s[0] == '/' then Some((s[0], 1))
    else if s[0] == 'b' then Some(('\U{8}', 1))
    else if s[0] == 'f' then Some(('\U{C}', 1))
    else if s[0] == 'n' then Some(('\n', 1))
    else if s[0] == 'r' then Some(('\r', 1))
    else if s[0] == 't' then Some(('\t', 1))
    else if s[0] == 'u' && |s| >= 5 then
      match UnicodeEscape(s[1..5])
      case Some(c) => Some((c, 5))
      case None => None
    else None
  }

  /** Reads the characters of a string literal up to its closing quote; gives the decoded
      value and the text after the quote. */
  function StringBody(s: string): (r: Option<(string, string)>)
    ensures r.Some? ==> |r.value.1| < |s|
    decreases |s|
  {
    if s == [] then None
    else if s[0] == '"' then Some(([], s[1..]))
    else if s[0] == '\\' then
      match Unescape(s[1..])
      case None => None
      case Some((c, n)) =>
        match StringBody(s[1 + n..])
        case None => None
        case Some((v, rest)) => Some(([c] + v, rest))
    else if (s[0] as int) < 0x20 then None
    else
      match StringBody(s[1..])
      case None => None
      case Some((v, rest)) => Some(([s[0]] + v, rest))
  }

  /** A string literal at the start of `s` (after white space). */
  function StringLiteral(s: string): (r: Option<(string, string)>)
    ensures r.Some? ==> |r.value.1| < |s|
  {
    var t := SkipSpace(s);
    if t != [] && t[0] == '"' then StringBody(t[1..]) else None
  }

  /** `JSON.parse` of a text that holds one object with a single string-valued member:
      the member's name and value. Other texts give `None`. */
  function SingleMember(text: string): Option<(string, string)>
  {
    var a := SkipSpace(text);
    if a == [] || a[0] != '{' then None else MemberAndClose(a[1..])
  }

  /** The text after `{`: a name, a colon, then the value and the closing brace. */
  function MemberAndClose(s: string): Option<(string, string)>
  {
    match StringLiteral(s)
    case None => None
    case Some((name, rest)) =>
      var b := SkipSpace(rest);
      if b == [] || b[0] != ':' then None
      else match ValueAndClose(b[1..])
        case None => None
        case Some(value) => Some((name, value))
  }

  /** The text after the colon: a string value, the closing brace and nothing else. */
  function ValueAndClose(s: string): Option<string>
  {
    match StringLiteral(s)
    case None => None
    case Some((value, rest)) =>
      var c := SkipSpace(rest);
      if c != [] && c[0] == '}' && SkipSpace(c[1..]) == [] then Some(value) else None
  }

  // ---------------------------------------------------------------- round trip

  lemma {:induction false} SkipSpaceOver(w: string, x: string)
    requires forall k | 0 <= k < |w| :: IsJsonSpace(w[k])
    requires x == [] || !IsJsonSpace(x[0])
    ensures SkipSpace(w + x) == x
  {
    if w != [] {
      assert (w + x)[1..] == w[1..] + x;
      SkipSpaceOver(w[1..], x);
    } else {
      assert w + x == x;
    }
  }

  /** Reading back one written character leaves the rest of the text to be read. */
  lemma EscapeCharRead(c: char, rest: string)
    ensures StringBody(EscapeChar(c) + rest) ==
      match StringBody(rest)
      case None => None
      case Some((v, r)) => Some(([c] + v, r))
  {
    var e := EscapeChar(c);
    var s := e + rest;
    if c == '"' || c == '\\' || c == '\U{8}' || c == '\t' || c == '\n' || c == '\U{C}' || c == '\r' {
      assert |e| == 2 && s[0] == '\\';
      assert s[1..][0] == e[1];
      assert s[1 + 1..] == rest;
    } else if (c as int) < 0x20 {
      var h := [HexDigit(c as int / 16), HexDigit(c as int % 16)];
      assert e == "\\u00" + h;
      assert |e| == 6 && s[0] == '\\';
      assert s[1..][0] == 'u';
      assert s[1..][1..5] == ['0', '0'] + h;
      assert UnicodeEscape(s[1..][1..5]) == Some(c);
      assert s[1 + 5..] == rest;
    } else {
      assert s[0] == c && s[1..] == rest;
    }
  }

  lemma {:induction false} StringBodyOfEscape(t: string, rest: string)
    ensures StringBody(EscapeBody(t) + "\"" + rest) == Some((t, rest))
  {
    if t == [] {
      assert EscapeBody(t) + "\"" + rest == "\"" + rest;
    } else {
      assert EscapeBody(t) + "\"" + rest == EscapeChar(t[0]) + (EscapeBody(t[1..]) + "\"" + rest);
      StringBodyOfEscape(t[1..], rest);
      EscapeCharRead(t[0], EscapeBody(t[1..]) + "\"" + rest);
      assert [t[0]] + t[1..] == t;
    }
  }

  /** `JSON.parse` reads back what `JSON.stringify` wrote, for every string. */
  lemma {:induction false} QuoteRoundTrip(t: string, rest: string)
    ensures StringLiteral(Quote(t) + rest) == Some((t, rest))
  {
    var body := EscapeBody(t) + "\"" + rest;
    var s := Quote(t) + rest;
    assert s == "\"" + body;
    assert s[0] == '"' && s[1..] == body;
    assert SkipSpace(s) == s;
    StringBodyOfEscape(t, rest);
  }

  lemma {:induction false} EscapeBodyPlain(t: string)
    requires forall k | 0 <= k < |t| :: t[k] != '"' && t[k] != '\\' && (t[k] as int) >= 0x20
    ensures EscapeBody(t) == t
  {
    if t != [] {
      EscapeBodyPlain(t[1..]);
    }
  }

  lemma {:induction false} LiteralAfterSpace(w: string, t: string, rest: string)
    requires forall k | 0 <= k < |w| :: IsJsonSpace(w[k])
    ensures StringLiteral(w + Quote(t) + rest) == Some((t, rest))
  {
    var q := Quote(t) + rest;
    assert w + Quote(t) + rest == w + q;
    SkipSpaceOver(w, q);
    assert q[1..] == EscapeBody(t) + "\"" + rest;
    StringBodyOfEscape(t, rest);
  }

  /** The value reader accepts a literal followed by the closing brace and white space. */
  lemma ValueAndCloseStep(s: string, value: string, c: string)
    requires StringLiteral(s) == Some((value, c))
    requires SkipSpace(c) != [] && SkipSpace(c)[0] == '}' && SkipSpace(SkipSpace(c)[1..]) == []
    ensures ValueAndClose(s) == Some(value)
  {
  }

  /** The member reader accepts a name literal, a colon and an accepted value. */
  lemma MemberAndCloseStep(s: string, name: string, b: string, value: string)
    requires StringLiteral(s) == Some((name, b))
    requires b != [] && b[0] == ':' && ValueAndClose(b[1..]) == Some(value)
    ensures MemberAndClose(s) == Some((name, value))
  {
    assert SkipSpace(b) == b;
  }

  /** The document reader accepts an opening brace followed by an accepted member. */
  lemma SingleMemberStep(tail: string, m: (string, string))
    requires MemberAndClose(tail) == Some(m)
    ensures SingleMember("{" + tail) == Some(m)
  {
    var doc := "{" + tail;
    assert doc[0] == '{' && doc[1..] == tail;
    assert SkipSpace(doc) == doc;
  }

  predicate JsonSpaces(w: string) { forall k | 0 <= k < |w| :: IsJsonSpace(w[k]) }

  /** A one-member body with any white space around its name, colon and value reads back to
      the member. */
  lemma {:induction false} MemberAndCloseSpaced(w1: string, name: string, w2: string, value: string, w3: string)
    requires JsonSpaces(w1) && JsonSpaces(w2) && JsonSpaces(w3)
    ensures MemberAndClose(w1 + Quote(name) + ":" + w2 + Quote(value) + w3 + "}") == Some((name, value))
  {
    var qv := Quote(value);
    var close := w3 + "}";
    var r2 := w2 + qv + close;
    var r1 := [':'] + r2;
    var s := w1 + Quote(name) + ":" + w2 + qv + w3 + "}";
    assert s == w1 + Quote(name) + r1;
    LiteralAfterSpace(w1, name, r1);
    LiteralAfterSpace(w2, value, close);
    SkipSpaceOver(w3, "}");
    assert "}"[1..] == [];
    ValueAndCloseStep(r2, value, close);
    assert r1[0] == ':' && r1[1..] == r2;
    MemberAndCloseStep(s, name, r1, value);
  }

  /** A one-member object written with two-space indentation parses back to its member. */
  lemma {:induction false} MemberDocumentRoundTrip(name: string, value: string)
    ensures SingleMember(MemberDocument(name, value)) == Some((name, value))
  {
    var tail := "\n  " + Quote(name) + ":" + " " + Quote(value) + "\n" + "}";
    MemberAndCloseSpaced("\n  ", name, " ", value, "\n");
    assert MemberDocument(name, value) == "{" + tail;
    SingleMemberStep(tail, (name, value));
  }

  /** The verification file the owner is told to publish parses to an object whose single
      member is `verification` holding the token. */
  lemma VerificationDocumentRoundTrip(token: string)
    ensures SingleMember(VerificationDocument(token)) == Some(("verification", token))
  {
    MemberDocumentRoundTrip("verification", token);
  }

  /** A one-member object written without white space parses back to its member. */
  lemma {:induction false} CompactMemberDocumentRoundTrip(name: string, value: string)
    ensures SingleMember(CompactMemberDocument(name, value)) == Some((name, value))
  {
    var qn, qv := Quote(name), Quote(value);
    var tail := qn + ":" + qv + "}";
    assert "" + qn + ":" + "" + qv + "" + "}" == tail by {
      assert "" + qn == qn;
      assert qn + ":" + "" == qn + ":";
      assert qn + ":" + qv + "" == qn + ":" + qv;
    }
    MemberAndCloseSpaced("", name, "", value, "");
    assert CompactMemberDocument(name, value) == "{" + tail;
    SingleMemberStep(tail, (name, value));
  }
}
