/**
 * The HTML meta-tag pattern of the ownership check,
 * `/<meta\s+name=["']scrapesafe["']\s+content=["']([^"']+)["']/i`,
 * as a matcher over strings, and `html.match(...)` as the search for its leftmost match.
 *
 * `MatchAt` tries the pattern greedily in one pass; `RegexMatchAt` states what a match of
 * the pattern is, with no greedy choice, and `MatchAtIsRegexMatch` proves the two agree at
 * every start position. The `i` flag folds the ASCII letters of the literals; the capture
 * keeps the page's own characters.
 */
module MetaPattern {
  import opened Wrappers
  import opened Text

  predicate IsQuote(c: char) { c == '"' || c == '\'' }

  predicate QuoteFree(s: string) { forall k | 0 <= k < |s| :: !IsQuote(s[k]) }

  /** The literal `lit`, written in lower case, occurs at `i` ignoring the case of letters. */
  predicate LiteralAt(s: string, i: nat, lit: string)
  {
    i + |lit| <= |s| && Lower(s[i..i + |lit|]) == lit
  }

  predicate QuoteAt(s: string, i: nat) { i < |s| && IsQuote(s[i]) }

  /** The end of the longest run of white space starting at `i`. */
  function SpaceRun(s: string, i: nat): (j: nat)
    requires i <= |s|
    ensures i <= j <= |s|
    ensures forall k | i <= k < j :: IsJsSpace(s[k])
    ensures j == |s| || !IsJsSpace(s[j])
    decreases |s| - i
  {
    if i < |s| && IsJsSpace(s[i]) then SpaceRun(s, i + 1) else i
  }

  /** The end of the longest run of characters other than quotes starting at `i`. */
  function NonQuoteRun(s: string, i: nat): (j: nat)
    requires i <= |s|
    ensures i <= j <= |s|
    ensures forall k | i <= k < j :: !IsQuote(s[k])
    ensures j == |s| || IsQuote(s[j])
    decreases |s| - i
  {
    if i < |s| && !IsQuote(s[i]) then NonQuoteRun(s, i + 1) else i
  }

  /** `[^"']+` closed by `["']`, starting at `j`: the captured text. */
  function CaptureAt(s: string, j: nat): (r: Option<string>)
    requires j <= |s|
    ensures r.Some? ==> r.value != [] && QuoteFree(r.value)
    ensures r.Some? ==> OccursAt(s, r.value, j) && QuoteAt(s, j + |r.value|)
  {
    var e := NonQuoteRun(s, j);
    if e == j || e == |s| then None else Some(s[j..e])
  }

  /** `name=["']scrapesafe["']` at `a`. */
  predicate NameAttributeAt(s: string, a: nat)
  {
    LiteralAt(s, a, "name=") && QuoteAt(s, a + 5) && LiteralAt(s, a + 6, "scrapesafe") && QuoteAt(s, a + 16)
  }

  /** `\s+content=["']([^"']+)["']` starting at `j`. */
  function ContentAfter(s: string, j: nat): (r: Option<string>)
    requires j <= |s|
    ensures r.Some? ==> r.value != [] && QuoteFree(r.value)
  {
    var b := SpaceRun(s, j);
    if b == j || !LiteralAt(s, b, "content=") || !QuoteAt(s, b + 8) then None
    else CaptureAt(s, b + 9)
  }

  /** `\s+name=["']scrapesafe["']\s+content=["']([^"']+)["']` starting at `j`. */
  function AttributesAfter(s: string, j: nat): (r: Option<string>)
    requires j <= |s|
    ensures r.Some? ==> r.value != [] && QuoteFree(r.value)
  {
    var a := SpaceRun(s, j);
    if a == j || !NameAttributeAt(s, a) then None
    else ContentAfter(s, a + 17)
  }

  /** The capture group of the match that starts at index `i`, if the pattern matches there.
      A capture is non-empty and quote-free. */
  function MatchAt(s: string, i: nat): (r: Option<string>)
    requires i <= |s|
    ensures r.Some? ==> LiteralAt(s, i, "<meta")
    ensures r.Some? ==> r.value != [] && QuoteFree(r.value)
  {
    if !LiteralAt(s, i, "<meta") then None else AttributesAfter(s, i + 5)
  }

  /** The first present entry of `ms` at or after `i`. */
  function FirstSome<T>(ms: seq<Option<T>>, i: nat): (r: Option<T>)
    requires i <= |ms|
    ensures r.None? ==> forall k | i <= k < |ms| :: ms[k].None?
    ensures r.Some? ==> exists k :: i <= k < |ms| && ms[k] == r && forall j | i <= j < k :: ms[j].None?
    decreases |ms| - i
  {
    if i == |ms| then None
    else if ms[i].Some? then ms[i]
    else FirstSome(ms, i + 1)
  }

  /** The outcome of trying the pattern at every start position of `s`, end included. */
  function MatchTable(s: string): (t: seq<Option<string>>)
    ensures |t| == |s| + 1
  {
    seq(|s| + 1, k requires 0 <= k <= |s| => MatchAt(s, k))
  }

  /** `html.match(metaTagRegex)?.[1]`: the capture of the leftmost match, if any. */
  function MetaCapture(html: string): (r: Option<string>)
    ensures r.None? ==> forall k | 0 <= k <= |html| :: MatchAt(html, k).None?
    ensures r.Some? ==> exists k :: 0 <= k <= |html| && MatchAt(html, k) == r && forall j | 0 <= j < k :: MatchAt(html, j).None?
  {
    var t := MatchTable(html);
    var r := FirstSome(t, 0);
    assert forall k | 0 <= k <= |html| :: t[k] == MatchAt(html, k);
    r
  }

  // ---------------------------------------------------------------- the pattern as a relation

  /** `\s+` covers exactly `s[i..j]`: a non-empty run of white space. */
  predicate SpacesSpan(s: string, i: int, j: int)
  {
    0 <= i < j <= |s| && forall k | i <= k < j :: IsJsSpace(s[k])
  }

  /** `content=["']([^"']+)["']` fits at `b` with capture `c`. */
  predicate ContentFits(s: string, b: nat, c: string)
  {
    && LiteralAt(s, b, "content=") && QuoteAt(s, b + 8)
    && c != [] && QuoteFree(c) && OccursAt(s, c, b + 9) && QuoteAt(s, b + 9 + |c|)
  }

  /** The regular expression matches at `i` with capture `c`, read declaratively: some ends `a`
      and `b` of its two `\s+` runs make every piece of the pattern fit, with the literals
      compared under the `i` flag. No run is chosen greedily; any way of fitting the pieces
      counts. */
  ghost predicate RegexMatchAt(s: string, i: nat, c: string)
  {
    && LiteralAt(s, i, "<meta")
    && exists a: nat ::
      && SpacesSpan(s, i + 5, a) && NameAttributeAt(s, a)
      && exists b: nat :: SpacesSpan(s, a + 17, b) && ContentFits(s, b, c)
  }

  /** A literal that begins with a lower-case letter cannot begin on white space. */
  lemma {:induction false} LiteralLeadNotSpace(s: string, a: nat, lit: string)
    requires LiteralAt(s, a, lit) && lit != [] && 'a' <= lit[0] <= 'z'
    ensures !IsJsSpace(s[a])
  {
    var w := s[a..a + |lit|];
    assert Lower(w)[0] == LowerChar(w[0]) && w[0] == s[a];
  }

  /** What the greedy matcher reads as the `content` attribute fits the pattern, after the
      white space that ends at `b`. */
  lemma {:induction false} ContentAfterSound(s: string, j: nat) returns (b: nat)
    requires j <= |s| && ContentAfter(s, j).Some?
    ensures SpacesSpan(s, j, b) && ContentFits(s, b, ContentAfter(s, j).value)
  {
    b := SpaceRun(s, j);
    assert CaptureAt(s, b + 9) == ContentAfter(s, j);
  }

  /** What the greedy matcher reads as the two attributes fits the pattern, with white space
      ending at `a` and at `b`. */
  lemma {:induction false} AttributesAfterSound(s: string, j: nat) returns (a: nat, b: nat)
    requires j <= |s| && AttributesAfter(s, j).Some?
    ensures SpacesSpan(s, j, a) && NameAttributeAt(s, a)
    ensures SpacesSpan(s, a + 17, b) && ContentFits(s, b, AttributesAfter(s, j).value)
  {
    a := SpaceRun(s, j);
    assert ContentAfter(s, a + 17) == AttributesAfter(s, j);
    b := ContentAfterSound(s, a + 17);
  }

  /** What the greedy matcher finds is a match of the pattern. */
  lemma {:induction false} MatchAtSound(s: string, i: nat)
    requires i <= |s| && MatchAt(s, i).Some?
    ensures RegexMatchAt(s, i, MatchAt(s, i).value)
  {
    var c := MatchAt(s, i).value;
    assert AttributesAfter(s, i + 5) == Some(c);
    var a, b := AttributesAfterSound(s, i + 5);
    RegexMatchFromParts(s, i, a, b, c);
  }

  /** Pieces that fit one after another make a match. */
  lemma RegexMatchFromParts(s: string, i: nat, a: nat, b: nat, c: string)
    requires LiteralAt(s, i, "<meta") && SpacesSpan(s, i + 5, a) && NameAttributeAt(s, a)
    requires SpacesSpan(s, a + 17, b) && ContentFits(s, b, c)
    ensures RegexMatchAt(s, i, c)
  {
  }

  /** A run of white space that stops before a character that is not white space is the
      longest run from its start. */
  lemma SpaceRunEndsAt(s: string, j: nat, a: nat)
    requires SpacesSpan(s, j, a) && a < |s| && !IsJsSpace(s[a])
    ensures SpaceRun(s, j) == a
  {
  }

  /** A quote-free text closed by a quote is the capture `[^"']+["']` takes. */
  lemma {:induction false} CaptureFits(s: string, j: nat, c: string)
    requires j <= |s| && c != [] && QuoteFree(c) && OccursAt(s, c, j) && QuoteAt(s, j + |c|)
    ensures CaptureAt(s, j) == Some(c)
  {
    var e := j + |c|;
    forall k | j <= k < e
      ensures !IsQuote(s[k])
    {
      assert s[k] == s[j..e][k - j];
    }
    assert NonQuoteRun(s, j) == e;
  }

  /** Any run of white space followed by a fitting `content` attribute is what the greedy
      matcher reads from `j`. */
  lemma {:induction false} ContentAfterFits(s: string, j: nat, b: nat, c: string)
    requires j <= |s| && SpacesSpan(s, j, b) && ContentFits(s, b, c)
    ensures ContentAfter(s, j) == Some(c)
  {
    LiteralLeadNotSpace(s, b, "content=");
    SpaceRunEndsAt(s, j, b);
    CaptureFits(s, b + 9, c);
  }

  /** Any run of white space followed by a fitting `name` attribute and `content` attribute is
      what the greedy matcher reads from `j`. */
  lemma {:induction false} AttributesAfterFits(s: string, j: nat, a: nat, c: string)
    requires j <= |s| && SpacesSpan(s, j, a) && a < |s| && !IsJsSpace(s[a]) && NameAttributeAt(s, a)
    requires ContentAfter(s, a + 17) == Some(c)
    ensures AttributesAfter(s, j) == Some(c)
  {
    SpaceRunEndsAt(s, j, a);
  }

  /** Every match of the pattern at `i` is the one the greedy matcher finds: the white-space
      runs can only end where the next literal starts, and the capture only at the first
      quote. */
  lemma {:induction false} MatchAtComplete(s: string, i: nat, c: string)
    requires i <= |s| && RegexMatchAt(s, i, c)
    ensures MatchAt(s, i) == Some(c)
  {
    var a, b := RegexMatchParts(s, i, c);
    MatchAtFromParts(s, i, a, b, c);
  }

  /** The ends of the two white-space runs of a match. */
  lemma RegexMatchParts(s: string, i: nat, c: string) returns (a: nat, b: nat)
    requires RegexMatchAt(s, i, c)
    ensures LiteralAt(s, i, "<meta") && SpacesSpan(s, i + 5, a) && NameAttributeAt(s, a)
    ensures SpacesSpan(s, a + 17, b) && ContentFits(s, b, c)
  {
    a :| SpacesSpan(s, i + 5, a) && NameAttributeAt(s, a) &&
      exists b: nat :: SpacesSpan(s, a + 17, b) && ContentFits(s, b, c);
    b :| SpacesSpan(s, a + 17, b) && ContentFits(s, b, c);
  }

  /** Pieces that fit one after another are what the greedy matcher finds. */
  lemma {:induction false} MatchAtFromParts(s: string, i: nat, a: nat, b: nat, c: string)
    requires i <= |s| && LiteralAt(s, i, "<meta") && SpacesSpan(s, i + 5, a) && NameAttributeAt(s, a)
    requires SpacesSpan(s, a + 17, b) && ContentFits(s, b, c)
    ensures MatchAt(s, i) == Some(c)
  {
    ContentAfterFits(s, a + 17, b, c);
    LiteralLeadNotSpace(s, a, "name=");
    AttributesAfterFits(s, i + 5, a, c);
  }

  /** The greedy matcher at `i` and the pattern agree: it returns `c` exactly when the pattern
      matches at `i` with capture `c`. */
  lemma MatchAtIsRegexMatch(s: string, i: nat, c: string)
    requires i <= |s|
    ensures MatchAt(s, i) == Some(c) <==> RegexMatchAt(s, i, c)
  {
    if MatchAt(s, i) == Some(c) {
      MatchAtSound(s, i);
    }
    if RegexMatchAt(s, i, c) {
      MatchAtComplete(s, i, c);
    }
  }

  /** The greedy matcher finds nothing at `k` exactly when the pattern cannot match there. */
  lemma {:induction false} MatchAtNoneIff(s: string, k: nat)
    requires k <= |s|
    ensures MatchAt(s, k).None? <==> forall c :: !RegexMatchAt(s, k, c)
  {
    if MatchAt(s, k).Some? {
      MatchAtSound(s, k);
    } else {
      forall c
        ensures !RegexMatchAt(s, k, c)
      {
        if RegexMatchAt(s, k, c) {
          MatchAtComplete(s, k, c);
        }
      }
    }
  }

  /** `html.match(...)` finds nothing exactly when the pattern matches at no position. */
  lemma {:induction false} MetaCaptureNoneIffNoMatch(html: string)
    ensures MetaCapture(html).None? <==> forall k, c | 0 <= k <= |html| :: !RegexMatchAt(html, k, c)
  {
    if MetaCapture(html).None? {
      forall k, c | 0 <= k <= |html|
        ensures !RegexMatchAt(html, k, c)
      {
        MatchAtNoneIff(html, k);
      }
    } else {
      var k :| 0 <= k <= |html| && MatchAt(html, k) == MetaCapture(html);
      MatchAtSound(html, k);
    }
  }

  /** What `html.match(...)` finds is the capture of a match at the leftmost position where the
      pattern matches at all. */
  lemma {:induction false} MetaCaptureIsLeftmostMatch(html: string)
    requires MetaCapture(html).Some?
    ensures exists k ::
      && 0 <= k <= |html| && RegexMatchAt(html, k, MetaCapture(html).value)
      && forall j, c | 0 <= j < k :: !RegexMatchAt(html, j, c)
  {
    var r := MetaCapture(html);
    var k :| 0 <= k <= |html| && MatchAt(html, k) == r && forall j | 0 <= j < k :: MatchAt(html, j).None?;
    MatchAtSound(html, k);
    forall j, c | 0 <= j < k
      ensures !RegexMatchAt(html, j, c)
    {
      MatchAtNoneIff(html, j);
    }
  }

  /** The tag the registration endpoint tells the owner to paste into the page head. */
  function MetaTag(token: string): string
  {
    "<meta" + " " + "name=" + "\"" + "scrapesafe" + "\"" + " " + "content=" + "\"" + token + "\">"
  }

  lemma SliceOfSlice(s: string, p: nat, t: string, i: nat, j: nat)
    requires p + |t| <= |s| && s[p..p + |t|] == t && i <= j <= |t|
    ensures s[p + i..p + j] == t[i..j]
  {
    forall k | i <= k < j
      ensures s[p + k] == t[k]
    {
      assert s[p..p + |t|][k] == s[p + k];
    }
  }

  /** The literals of the pattern are already in lower case. */
  lemma PatternLiteralsLowerCase()
    ensures Lower("<meta") == "<meta" && Lower("name=") == "name="
    ensures Lower("scrapesafe") == "scrapesafe" && Lower("content=") == "content="
  {
    LowerIsLowerCase("<meta");
    LowerIsLowerCase("name=");
    LowerIsLowerCase("scrapesafe");
    LowerIsLowerCase("content=");
  }

  lemma LiteralOfSlice(s: string, i: nat, lit: string)
    requires i + |lit| <= |s| && s[i..i + |lit|] == lit && Lower(lit) == lit
    ensures LiteralAt(s, i, lit)
  {
  }

  /** Where the tag name and the `name` attribute lie within the instruction tag. */
  lemma {:induction false} MetaTagNamePieces(token: string)
    ensures var t := MetaTag(token);
      && |t| == 35 + |token|
      && t[..5] == "<meta" && t[5] == ' ' && t[6..11] == "name="
      && t[11] == '"' && t[12..22] == "scrapesafe" && t[22] == '"'
  {
    var head := "<meta name=\"scrapesafe\"";
    var t := MetaTag(token);
    assert t == head + " content=\"" + token + "\">";
    assert t[..23] == head;
  }

  /** Where the `content` attribute and the token lie within the instruction tag. */
  lemma {:induction false} MetaTagContentPieces(token: string)
    ensures var t := MetaTag(token);
      && |t| == 35 + |token|
      && t[23] == ' ' && t[24..32] == "content=" && t[32] == '"'
      && t[33..33 + |token|] == token && t[33 + |token|] == '"'
  {
    var head := "<meta name=\"scrapesafe\"";
    var t := MetaTag(token);
    assert t == head + " content=\"" + token + "\">";
    assert t[23..33] == " content=\"";
    assert t[33..33 + |token|] == token;
  }

  /** Where each piece of the instruction tag lies once the tag is placed at `p`. */
  lemma {:induction false} TagLayout(s: string, p: nat, token: string)
    requires p + |MetaTag(token)| <= |s| && s[p..p + |MetaTag(token)|] == MetaTag(token)
    ensures |MetaTag(token)| == 35 + |token|
    ensures s[p..p + 5] == "<meta" && s[p + 5] == ' ' && s[p + 6..p + 11] == "name="
    ensures s[p + 11] == '"' && s[p + 12..p + 22] == "scrapesafe" && s[p + 22] == '"'
    ensures s[p + 23] == ' ' && s[p + 24..p + 32] == "content=" && s[p + 32] == '"'
    ensures s[p + 33..p + 33 + |token|] == token && s[p + 33 + |token|] == '"'
  {
    var t := MetaTag(token);
    MetaTagNamePieces(token);
    MetaTagContentPieces(token);
    var w := s[p..p + |t|];
    assert s[p + 5] == w[5] && s[p + 11] == w[11] && s[p + 22] == w[22];
    assert s[p + 23] == w[23] && s[p + 32] == w[32] && s[p + 33 + |token|] == w[33 + |token|];
    SliceOfSlice(s, p, t, 0, 5);
    SliceOfSlice(s, p, t, 6, 11);
    SliceOfSlice(s, p, t, 12, 22);
    SliceOfSlice(s, p, t, 24, 32);
    SliceOfSlice(s, p, t, 33, 33 + |token|);
  }

  /** Wherever the instruction tag stands in a page, the pattern matches there and captures
      the token, for any non-empty token without quotes. */
  lemma MatchAtTag(s: string, p: nat, token: string)
    requires token != [] && QuoteFree(token)
    requires p + |MetaTag(token)| <= |s| && s[p..p + |MetaTag(token)|] == MetaTag(token)
    ensures MatchAt(s, p) == Some(token)
  {
    TagLayout(s, p, token);
    PatternLiteralsLowerCase();
    LiteralOfSlice(s, p, "<meta");
    AttributesOfTag(s, p, token);
  }

  lemma AttributesOfTag(s: string, p: nat, token: string)
    requires token != [] && QuoteFree(token) && p + 35 + |token| <= |s|
    requires s[p + 5] == ' ' && s[p + 6..p + 11] == "name="
    requires s[p + 11] == '"' && s[p + 12..p + 22] == "scrapesafe" && s[p + 22] == '"'
    requires s[p + 23] == ' ' && s[p + 24..p + 32] == "content=" && s[p + 32] == '"'
    requires s[p + 33..p + 33 + |token|] == token && s[p + 33 + |token|] == '"'
    ensures AttributesAfter(s, p + 5) == Some(token)
  {
    PatternLiteralsLowerCase();
    assert s[p + 6] == "name="[0];
    assert SpaceRun(s, p + 6) == p + 6;
    var a := p + 6;
    LiteralOfSlice(s, a, "name=");
    LiteralOfSlice(s, a + 6, "scrapesafe");
    assert NameAttributeAt(s, a);
    assert SpaceRun(s, p + 5) == p + 6;
    ContentOfTag(s, p, token);
  }

  lemma ContentOfTag(s: string, p: nat, token: string)
    requires token != [] && QuoteFree(token) && p + 35 + |token| <= |s|
    requires s[p + 23] == ' ' && s[p + 24..p + 32] == "content=" && s[p + 32] == '"'
    requires s[p + 33..p + 33 + |token|] == token && s[p + 33 + |token|] == '"'
    ensures ContentAfter(s, p + 23) == Some(token)
  {
    PatternLiteralsLowerCase();
    assert s[p + 24] == "content="[0];
    assert SpaceRun(s, p + 24) == p + 24;
    var b := p + 24;
    LiteralOfSlice(s, b, "content=");
    forall k | b + 9 <= k < b + 9 + |token|
      ensures !IsQuote(s[k])
    {
      assert s[k] == s[p + 33..p + 33 + |token|][k - (p + 33)];
    }
    NonQuoteRunOver(s, b + 9, |token|);
    assert CaptureAt(s, b + 9) == Some(token);
    assert SpaceRun(s, p + 23) == p + 24;
  }

  lemma {:induction false} NonQuoteRunOver(s: string, i: nat, n: nat)
    requires i + n < |s|
    requires forall k | i <= k < i + n :: !IsQuote(s[k])
    requires IsQuote(s[i + n])
    ensures NonQuoteRun(s, i) == i + n
    decreases n
  {
    if n > 0 {
      NonQuoteRunOver(s, i + 1, n - 1);
    }
  }

  /** No match can begin at a character other than `<`. */
  lemma NoMatchWithoutAngle(s: string, j: nat)
    requires j < |s| && s[j] != '<'
    ensures MatchAt(s, j).None?
  {
  }

  /** Round trip with the registration endpoint: a page that carries the instruction tag
      yields the token as its capture, provided no match of the pattern begins earlier. */
  lemma MetaCaptureOfInstruction(pre: string, token: string, post: string)
    requires token != [] && QuoteFree(token)
    requires forall j | 0 <= j < |pre| :: MatchAt(pre + MetaTag(token) + post, j).None?
    ensures MetaCapture(pre + MetaTag(token) + post) == Some(token)
  {
    var s := pre + MetaTag(token) + post;
    var p := |pre|;
    assert s[p..p + |MetaTag(token)|] == MetaTag(token);
    MatchAtTag(s, p, token);
    FirstSomeAfterNones(MatchTable(s), 0, p);
  }

  /** In particular when the text before the tag has no `<` at all. */
  lemma MetaCaptureAfterPlainText(pre: string, token: string, post: string)
    requires token != [] && QuoteFree(token)
    requires '<' !in pre
    ensures MetaCapture(pre + MetaTag(token) + post) == Some(token)
  {
    var s := pre + MetaTag(token) + post;
    forall j | 0 <= j < |pre|
      ensures MatchAt(s, j).None?
    {
      assert s[j] == pre[j];
      NoMatchWithoutAngle(s, j);
    }
    MetaCaptureOfInstruction(pre, token, post);
  }

  lemma {:induction false} FirstSomeAfterNones<T>(ms: seq<Option<T>>, i: nat, p: nat)
    requires i <= p < |ms|
    requires forall j | i <= j < p :: ms[j].None?
    requires ms[p].Some?
    ensures FirstSome(ms, i) == ms[p]
    decreases p - i
  {
    if i < p {
      FirstSomeAfterNones(ms, i + 1, p);
    }
  }
}
