/**
 * The ownership verification endpoint (`POST /api/owner/verify`): three checks that decide,
 * from what the network answered, whether a domain publishes its registration's token, and
 * the handler that validates the request, runs one check and on success marks the
 * registration verified.
 *
 * The network is an input: `Network` gives, for each host name or URL, what the resolver or
 * `fetch` answered (records, a response, or the error thrown). What the model computes is the
 * decision taken on those answers and the change to the store.
 */
module VerifyRoute {
  import opened Wrappers
  import opened Text
  import opened MetaPattern
  import opened SiteStore

  /** `{ success, details }` as every check returns it. */
  datatype CheckResult = CheckResult(success: bool, details: string)

  /** A check either returns a result or lets an error escape (only the DNS check does). */
  datatype CheckOutcome = Completed(result: CheckResult) | Escaped(message: string)

  /** What `dns.resolveTxt(host)` gave: the TXT records, each a list of character-strings,
      or the error it threw, with its `code` and `message`. */
  datatype DnsAnswer = TxtRecords(records: seq<seq<string>>) | DnsError(code: string, message: string)

  /** What reading a response body gave: the value, or the error `text()`/`json()` threw. */
  datatype BodyRead<B> = BodyThrew(message: string) | BodyValue(value: B)

  /** What `fetch(url, ...)` gave: the error it threw (a network failure or the ten-second
      timeout), or a response with its status line and its body as read. */
  datatype HttpAnswer<B> =
    | FetchThrew(message: string)
    | HttpResponse(status: int, statusText: string, body: BodyRead<B>)

  /** `json.verification` of the parsed well-known file: a string, or anything else
      (missing, a number, an object, ...). */
  datatype VerificationField = VerificationString(value: string) | VerificationOther

  /** The outside world as the checks see it. `fetchPage` reads the body with `text()`,
      `fetchWellKnown` with `json()`. */
  datatype Network = Network(
    resolveTxt: string -> DnsAnswer,
    fetchPage: string -> HttpAnswer<string>,
    fetchWellKnown: string -> HttpAnswer<VerificationField>)

  // ---------------------------------------------------------------- where the checks look

  function TxtHostname(domain: string): string
  {
    "_scrapesafe." + domain
  }

  function Scheme(domain: string): string
  {
    if Includes(domain, "localhost") then "http" else "https"
  }

  function PageUrl(domain: string): string
  {
    Scheme(domain) + "://" + domain
  }

  const WellKnownPath := "/.well-known/scrapesafe.json"

  function FileUrl(domain: string): string
  {
    PageUrl(domain) + WellKnownPath
  }

  /** `response.ok`. */
  predicate IsOk(status: int) { 200 <= status <= 299 }

  /** The URLs use plain `http` exactly for domains that mention `localhost`, and the file
      lives under the page URL. */
  lemma UrlsFollowDomain(domain: string)
    ensures PageUrl(domain) == (if Includes(domain, "localhost") then "http" else "https") + "://" + domain
    ensures FileUrl(domain) == PageUrl(domain) + "/.well-known/scrapesafe.json"
    ensures Scheme(domain) == "http" <==> exists i :: OccursAt(domain, "localhost", i)
  {
    IncludesIff(domain, "localhost");
  }

  // ---------------------------------------------------------------- DNS TXT

  /** The TXT answer after normalisation: all strings joined, double quotes removed, trimmed. */
  function NormalizedTxt(records: seq<seq<string>>): string
  {
    Trim(Remove(Join(Flatten(records)), '"'))
  }

  /** `verifyDNSTXT`. */
  function VerifyDnsTxt(domain: string, token: string, resolveTxt: string -> DnsAnswer): (r: CheckOutcome)
    ensures r.Escaped? <==>
      (resolveTxt(TxtHostname(domain)).DnsError? &&
       resolveTxt(TxtHostname(domain)).code != "ENOTFOUND" && resolveTxt(TxtHostname(domain)).code != "ENODATA")
    ensures r.Completed? ==> r.result.details != []
    ensures r.Completed? && r.result.success <==>
      resolveTxt(TxtHostname(domain)).TxtRecords? &&
      Includes(NormalizedTxt(resolveTxt(TxtHostname(domain)).records), Trim(token))
  {
    var host := TxtHostname(domain);
    match resolveTxt(host)
    case TxtRecords(records) =>
      var allValues := Join(Flatten(records));
      var normalizedToken := Trim(token);
      var normalizedValues := Trim(Remove(allValues, '"'));
      var found := normalizedValues == normalizedToken || Includes(normalizedValues, normalizedToken);
      assert normalizedValues == normalizedToken ==> Includes(normalizedValues, normalizedToken);
      if found then
        Completed(CheckResult(true, "Found valid token in TXT record at " + host))
      else
        Completed(CheckResult(false, "Token not found in TXT record at " + host + ". Found: "
          + (if allValues == "" then "no records" else allValues) + ", Expected: " + normalizedToken))
    case DnsError(code, message) =>
      if code == "ENOTFOUND" || code == "ENODATA" then
        Completed(CheckResult(false, "No TXT record found at " + host
          + ". Please ensure the DNS record is added and propagated."))
      else
        Escaped(message)
  }

  /** Only the answer for `_scrapesafe.<domain>` matters to the DNS check. */
  lemma DnsQueriesOnlyTxtHost(domain: string, token: string, f: string -> DnsAnswer, g: string -> DnsAnswer)
    requires f(TxtHostname(domain)) == g(TxtHostname(domain))
    ensures VerifyDnsTxt(domain, token, f) == VerifyDnsTxt(domain, token, g)
  {
  }

  /** `trimStart` stops at or before the first character that is not white space. */
  lemma TrimStartStopsAt(s: string, p: int)
    requires 0 <= p < |s| && !IsJsSpace(s[p])
    ensures |s| - |TrimStart(s)| <= p
  {
  }

  /** `trimEnd` stops at or after the last character that is not white space. */
  lemma TrimEndStopsAt(s: string, p: int)
    requires 0 <= p < |s| && !IsJsSpace(s[p])
    ensures p < |TrimEnd(s)|
  {
  }

  /** An occurrence that does not start with white space survives `trimStart`, shifted left by
      what was removed. */
  lemma {:induction false} CoreSurvivesTrimStart(s: string, t: string, i: int)
    requires OccursAt(s, t, i) && t != [] && !IsJsSpace(t[0])
    ensures OccursAt(TrimStart(s), t, i - (|s| - |TrimStart(s)|))
  {
    assert s[i] == t[0];
    TrimStartStopsAt(s, i);
    SuffixKeepsOccurrence(s, |s| - |TrimStart(s)|, t, i);
  }

  /** Dropping `d` characters ahead of an occurrence shifts it left by `d`. */
  lemma SuffixKeepsOccurrence(s: string, d: int, t: string, i: int)
    requires 0 <= d <= i && OccursAt(s, t, i)
    ensures OccursAt(s[d..], t, i - d)
  {
    assert s[d..][i - d..i - d + |t|] == s[i..i + |t|];
  }

  /** An occurrence that does not end with white space survives `trimEnd` in place. */
  lemma {:induction false} CoreSurvivesTrimEnd(u: string, t: string, i: int)
    requires OccursAt(u, t, i) && t != [] && !IsJsSpace(t[|t| - 1])
    ensures OccursAt(TrimEnd(u), t, i)
  {
    assert u[i + |t| - 1] == t[|t| - 1];
    TrimEndStopsAt(u, i + |t| - 1);
    var v := TrimEnd(u);
    assert v[i..i + |t|] == u[i..i + |t|];
  }

  /** Trimming never cuts into a piece of text that neither starts nor ends with white space. */
  lemma TrimKeepsCore(a: string, t: string, b: string)
    requires t != [] && Unpadded(t)
    ensures Includes(Trim(a + t + b), t)
  {
    var s := a + t + b;
    assert s[|a|..|a| + |t|] == t;
    CoreSurvivesTrimStart(s, t, |a|);
    var u := TrimStart(s);
    CoreSurvivesTrimEnd(u, t, |a| - (|s| - |u|));
    IncludesIff(Trim(s), t);
  }

  /** The DNS check tolerates providers that quote the value or add text around it: any TXT
      answer whose joined strings contain the token verifies, for a token that is non-empty,
      quote-free and not padded with white space. */
  lemma DnsAcceptsEmbeddedToken(domain: string, token: string, resolveTxt: string -> DnsAnswer, before: string, after: string)
    requires token != [] && Unpadded(token) && '"' !in token
    requires resolveTxt(TxtHostname(domain)).TxtRecords?
    requires Join(Flatten(resolveTxt(TxtHostname(domain)).records)) == before + token + after
    ensures VerifyDnsTxt(domain, token, resolveTxt) == Completed(CheckResult(true, "Found valid token in TXT record at " + TxtHostname(domain)))
  {
    var records := resolveTxt(TxtHostname(domain)).records;
    assert Remove(before + token + after, '"') == Remove(before, '"') + token + Remove(after, '"') by {
      RemoveAppend(before + token, after, '"');
      RemoveAppend(before, token, '"');
      RemoveAbsent(token, '"');
    }
    assert Includes(NormalizedTxt(records), token) by {
      TrimKeepsCore(Remove(before, '"'), token, Remove(after, '"'));
    }
    assert Trim(token) == token by {
      TrimPadded([], token, []);
      assert [] + token + [] == token;
    }
  }

  /** The record the registration endpoint asks for, and the same value wrapped in quotes,
      both verify. */
  lemma DnsAcceptsPlainAndQuoted(domain: string, token: string, resolveTxt: string -> DnsAnswer)
    requires token != [] && Unpadded(token) && '"' !in token
    requires resolveTxt(TxtHostname(domain)) == TxtRecords([[token]]) ||
             resolveTxt(TxtHostname(domain)) == TxtRecords([["\"" + token + "\""]])
    ensures VerifyDnsTxt(domain, token, resolveTxt).Completed?
    ensures VerifyDnsTxt(domain, token, resolveTxt).result.success
  {
    var records := resolveTxt(TxtHostname(domain)).records;
    assert Flatten(records) == records[0] + Flatten([]);
    assert Join(Flatten(records)) == records[0][0] + Join([]);
    if records == [[token]] {
      assert Join(Flatten(records)) == [] + token + [];
      DnsAcceptsEmbeddedToken(domain, token, resolveTxt, [], []);
    } else {
      DnsAcceptsEmbeddedToken(domain, token, resolveTxt, "\"", "\"");
    }
  }

  /** A missing record (`ENOTFOUND`, `ENODATA`) is an ordinary failure; any other resolver
      error escapes the check. */
  lemma DnsErrorsClassified(domain: string, token: string, resolveTxt: string -> DnsAnswer)
    requires resolveTxt(TxtHostname(domain)).DnsError?
    ensures var e := resolveTxt(TxtHostname(domain));
      if e.code == "ENOTFOUND" || e.code == "ENODATA" then
        VerifyDnsTxt(domain, token, resolveTxt).Completed? && !VerifyDnsTxt(domain, token, resolveTxt).result.success
      else
        VerifyDnsTxt(domain, token, resolveTxt) == Escaped(e.message)
  {
  }

  /** `includes('')` holds of every string, so a token that trims to nothing matches any TXT
      answer at all, even one with no records. */
  lemma DnsBlankTokenMatchesAnyAnswer(domain: string, token: string, resolveTxt: string -> DnsAnswer)
    requires Trim(token) == []
    requires resolveTxt(TxtHostname(domain)).TxtRecords?
    ensures VerifyDnsTxt(domain, token, resolveTxt).result.success
  {
    assert [] <= NormalizedTxt(resolveTxt(TxtHostname(domain)).records);
  }

  // ---------------------------------------------------------------- meta tag

  /** `verifyMetaTag`: errors of any kind become failures. */
  function VerifyMetaTag(domain: string, token: string, fetchPage: string -> HttpAnswer<string>): (r: CheckResult)
    ensures r.details != []
    ensures r.success <==>
      fetchPage(PageUrl(domain)).HttpResponse? && IsOk(fetchPage(PageUrl(domain)).status) &&
      fetchPage(PageUrl(domain)).body.BodyValue? &&
      MetaCapture(fetchPage(PageUrl(domain)).body.value) == Some(token)
  {
    var url := PageUrl(domain);
    match fetchPage(url)
    case FetchThrew(message) => CheckResult(false, "Failed to verify meta tag: " + message)
    case HttpResponse(status, statusText, body) =>
      if !IsOk(status) then
        CheckResult(false, "Failed to fetch " + url + ": " + IntToString(status) + " " + statusText)
      else match body
        case BodyThrew(message) => CheckResult(false, "Failed to verify meta tag: " + message)
        case BodyValue(html) =>
          if MetaCapture(html) == Some(token) then CheckResult(true, "Found valid meta tag in HTML head")
          else CheckResult(false, "Meta tag not found or token mismatch. Expected: " + token)
  }

  /** The meta-tag check compares the capture exactly: a page whose first tag carries a
      longer value that merely contains the token does not verify. */
  lemma MetaTagNeedsExactCapture(domain: string, token: string, fetchPage: string -> HttpAnswer<string>, extra: string)
    requires token != [] && QuoteFree(token) && extra != [] && QuoteFree(extra)
    requires fetchPage(PageUrl(domain)) == HttpResponse(200, "OK", BodyValue(MetaTag(token + extra)))
    ensures !VerifyMetaTag(domain, token, fetchPage).success
  {
    var html := MetaTag(token + extra);
    assert html == [] + MetaTag(token + extra) + [];
    MetaCaptureOfInstruction([], token + extra, []);
  }

  // ---------------------------------------------------------------- well-known file

  /** `verifyFile`: errors of any kind become failures. */
  function VerifyFile(domain: string, token: string, fetchWellKnown: string -> HttpAnswer<VerificationField>): (r: CheckResult)
    ensures r.details != []
    ensures r.success <==>
      fetchWellKnown(FileUrl(domain)).HttpResponse? && IsOk(fetchWellKnown(FileUrl(domain)).status) &&
      fetchWellKnown(FileUrl(domain)).body == BodyValue(VerificationString(token))
  {
    var url := FileUrl(domain);
    match fetchWellKnown(url)
    case FetchThrew(message) => CheckResult(false, "Failed to verify file: " + message)
    case HttpResponse(status, statusText, body) =>
      if !IsOk(status) then
        CheckResult(false, "Failed to fetch " + url + ": " + IntToString(status) + " " + statusText)
      else match body
        case BodyThrew(message) => CheckResult(false, "Failed to verify file: " + message)
        case BodyValue(field) =>
          if field == VerificationString(token) then
            CheckResult(true, "Found valid verification file at /.well-known/scrapesafe.json")
          else
            CheckResult(false, "Token mismatch in verification file. Expected: " + token)
  }

  /** A status outside 200-299 fails both HTTP checks, with the URL and status in the detail. */
  lemma HttpNonOkFails(domain: string, token: string, net: Network)
    requires net.fetchPage(PageUrl(domain)).HttpResponse? && !IsOk(net.fetchPage(PageUrl(domain)).status)
    requires net.fetchWellKnown(FileUrl(domain)).HttpResponse? && !IsOk(net.fetchWellKnown(FileUrl(domain)).status)
    ensures var p := net.fetchPage(PageUrl(domain));
      VerifyMetaTag(domain, token, net.fetchPage)
        == CheckResult(false, "Failed to fetch " + PageUrl(domain) + ": " + IntToString(p.status) + " " + p.statusText)
    ensures var f := net.fetchWellKnown(FileUrl(domain));
      VerifyFile(domain, token, net.fetchWellKnown)
        == CheckResult(false, "Failed to fetch " + FileUrl(domain) + ": " + IntToString(f.status) + " " + f.statusText)
  {
  }

  // ---------------------------------------------------------------- the endpoint

  /** The methods the endpoint accepts. */
  datatype VerifyMethod = DnsMethod | MetaTagMethod | FileMethod

  /** The `siteId` of the request body as JavaScript sees it. `IdOtherNumber` stands for a
      number that is neither an integer nor NaN (a fraction or an infinity). */
  datatype SiteIdField = IdAbsent | IdNotNumber | IdNaN | IdInteger(n: int) | IdOtherNumber

  /** The `method` of the request body; an absent one defaults to `dns`. */
  datatype MethodField = MethodAbsent | MethodText(name: string) | MethodNotText

  /** The request: a body that `request.json()` and the destructuring could not read (with the
      message of the error), or the two fields. */
  datatype VerifyRequest = UnreadableBody(message: string) | VerifyBody(siteId: SiteIdField, checkMethod: MethodField)

  datatype VerifyResponse =
    | Verified(details: string, storyIpId: string)   // 200 { ok: true, details, storyIpId, storySimulated: true }
    | NotVerified(error: string)                     // 400 { ok: false, error }
    | InvalidRequest(error: string)                  // 400 { error }
    | RegistrationNotFound(error: string)            // 404 { error }
    | ServerError(error: string)                     // 500 { ok: false, error }
  {
    function Status(): int
    {
      match this
      case Verified(_, _) => 200
      case NotVerified(_) => 400
      case InvalidRequest(_) => 400
      case RegistrationNotFound(_) => 404
      case ServerError(_) => 500
    }
  }

  /** `!siteId || typeof siteId !== 'number'` rejects the request. */
  predicate IdRejected(f: SiteIdField)
  {
    f.IdAbsent? || f.IdNotNumber? || f.IdNaN? || f == IdInteger(0)
  }

  /** The method named by the request, if it is one of `dns`, `metaTag`, `file`. */
  function MethodOf(f: MethodField): (m: Option<VerifyMethod>)
    ensures f == MethodText("dns") || f.MethodAbsent? <==> m == Some(DnsMethod)
    ensures f == MethodText("metaTag") <==> m == Some(MetaTagMethod)
    ensures f == MethodText("file") <==> m == Some(FileMethod)
  {
    match f
    case MethodAbsent => Some(DnsMethod)
    case MethodNotText => None
    case MethodText(name) =>
      if name == "dns" then Some(DnsMethod)
      else if name == "metaTag" then Some(MetaTagMethod)
      else if name == "file" then Some(FileMethod)
      else None
  }

  /** The name a client sends for a method. */
  function MethodName(m: VerifyMethod): (name: string)
    ensures MethodOf(MethodText(name)) == Some(m)
  {
    match m
    case DnsMethod => "dns"
    case MetaTagMethod => "metaTag"
    case FileMethod => "file"
  }

  /** The map key a numeric id can hit: only integers are keys. */
  function IdKey(f: SiteIdField): Option<int>
  {
    if f.IdInteger? then Some(f.n) else None
  }

  /** The `switch` on the method. */
  function RunCheck(m: VerifyMethod, domain: string, token: string, net: Network): CheckOutcome
  {
    match m
    case DnsMethod => VerifyDnsTxt(domain, token, net.resolveTxt)
    case MetaTagMethod => Completed(VerifyMetaTag(domain, token, net.fetchPage))
    case FileMethod => Completed(VerifyFile(domain, token, net.fetchWellKnown))
  }

  /** The message of a caught error, `error.message || 'Internal server error'`. */
  function ErrorMessage(message: string): (r: string)
    ensures r != []
    ensures message != "" ==> r == message
  {
    if message == "" then "Internal server error" else message
  }

  /** The mock Story Protocol id of a verified site. */
  function StoryIpId(siteId: int): (r: string)
    ensures |r| > 12 && r[..12] == "story:local:" && r[12..] == IntToString(siteId)
  {
    "story:local:" + IntToString(siteId)
  }

  /** Distinct sites get distinct mock Story Protocol ids. */
  lemma StoryIpIdInjective(a: nat, b: nat)
    requires StoryIpId(a) == StoryIpId(b)
    ensures a == b
  {
    assert StoryIpId(a)[12..] == IntToString(a) && StoryIpId(b)[12..] == IntToString(b);
    NatToStringInjective(a, b);
  }

  /** What `POST` answers, and the store after it. */
  function VerifyOutcome(st: StoreState, req: VerifyRequest, net: Network): (res: (VerifyResponse, StoreState))
    requires Consistent(st)
    ensures Consistent(res.1)
  {
    match req
    case UnreadableBody(message) => (ServerError(ErrorMessage(message)), st)
    case VerifyBody(idField, methodField) =>
      if IdRejected(idField) then (InvalidRequest("siteId is required and must be a number"), st)
      else if MethodOf(methodField).None? then (InvalidRequest("method must be one of: dns, metaTag, file"), st)
      else if IdKey(idField).None? || Lookup(st, IdKey(idField).value).None? then
        (RegistrationNotFound("Registration not found. Please register the domain first."), st)
      else
        var siteId := IdKey(idField).value;
        var registration := Lookup(st, siteId).value;
        match RunCheck(MethodOf(methodField).value, registration.domain, registration.verificationToken, net)
        case Escaped(message) => (ServerError(ErrorMessage(message)), st)
        case Completed(result) =>
          if result.success then
            (Verified(result.details, StoryIpId(siteId)), Updated(st, siteId, MarkVerified).0)
          else
            (NotVerified(result.details), st)
  }

  /** The handler itself, on the shared store. */
  method VerifyPost(store: SiteRegistrationStorage, req: VerifyRequest, net: Network) returns (resp: VerifyResponse)
    requires store.Valid()
    modifies store
    ensures store.Valid()
    ensures (resp, store.State()) == VerifyOutcome(old(store.State()), req, net)
  {
    if req.UnreadableBody? {
      return ServerError(ErrorMessage(req.message));
    }
    if IdRejected(req.siteId) {
      return InvalidRequest("siteId is required and must be a number");
    }
    var chosen := MethodOf(req.checkMethod);
    if chosen.None? {
      return InvalidRequest("method must be one of: dns, metaTag, file");
    }
    var registration: Option<SiteRegistration> := None;
    if req.siteId.IdInteger? {
      registration := store.Get(req.siteId.n);
    }
    if registration.None? {
      return RegistrationNotFound("Registration not found. Please register the domain first.");
    }
    var siteId := req.siteId.n;
    var outcome := RunCheck(chosen.value, registration.value.domain, registration.value.verificationToken, net);
    if outcome.Escaped? {
      return ServerError(ErrorMessage(outcome.message));
    }
    if outcome.result.success {
      var _ := store.Update(siteId, MarkVerified);
      resp := Verified(outcome.result.details, StoryIpId(siteId));
    } else {
      resp := NotVerified(outcome.result.details);
    }
  }

  // ---------------------------------------------------------------- properties of the endpoint

  /** A well-formed request for a stored id runs exactly the requested check, on the stored
      domain and token, and acts on its outcome. */
  lemma DispatchRunsRequestedCheck(st: StoreState, id: int, m: VerifyMethod, net: Network)
    requires Consistent(st) && id in st.registrations
    ensures var reg := st.registrations[id];
      var outcome := RunCheck(m, reg.domain, reg.verificationToken, net);
      VerifyOutcome(st, VerifyBody(IdInteger(id), MethodText(MethodName(m))), net) ==
        match outcome
        case Escaped(message) => (ServerError(ErrorMessage(message)), st)
        case Completed(result) =>
          if result.success then (Verified(result.details, StoryIpId(id)), Updated(st, id, MarkVerified).0)
          else (NotVerified(result.details), st)
  {
  }

  /** A malformed `siteId` or `method` is refused with 400 before the store or the network is
      consulted: the answer is the same whatever they hold, and the store is unchanged. */
  lemma InvalidInputRejectedFirst(st: StoreState, st2: StoreState, req: VerifyRequest, net: Network, net2: Network)
    requires Consistent(st) && Consistent(st2)
    requires req.VerifyBody? && (IdRejected(req.siteId) || MethodOf(req.checkMethod).None?)
    ensures VerifyOutcome(st, req, net).0.InvalidRequest?
    ensures VerifyOutcome(st, req, net).0.Status() == 400
    ensures VerifyOutcome(st, req, net) == (VerifyOutcome(st2, req, net2).0, st)
  {
  }

  /** An id with no registration gives 404, leaves the store as it was and does not depend on
      the network. */
  lemma UnknownSiteNotFound(st: StoreState, req: VerifyRequest, net: Network, net2: Network)
    requires Consistent(st)
    requires req.VerifyBody? && !IdRejected(req.siteId) && MethodOf(req.checkMethod).Some?
    requires req.siteId.IdInteger? ==> req.siteId.n !in st.registrations
    ensures VerifyOutcome(st, req, net) == (RegistrationNotFound("Registration not found. Please register the domain first."), st)
    ensures VerifyOutcome(st, req, net) == VerifyOutcome(st, req, net2)
    ensures VerifyOutcome(st, req, net).0.Status() == 404
  {
  }

  /** Only a passing check changes the store: every other answer leaves it exactly as it was. */
  lemma OnlySuccessChangesStore(st: StoreState, req: VerifyRequest, net: Network)
    requires Consistent(st)
    ensures !VerifyOutcome(st, req, net).0.Verified? ==> VerifyOutcome(st, req, net).1 == st
  {
  }

  /** A passing check marks the requested registration verified, changes nothing else, and
      answers 200 with the mock IP id `story:local:<siteId>`. */
  lemma SuccessMarksVerified(st: StoreState, req: VerifyRequest, net: Network)
    requires Consistent(st)
    requires VerifyOutcome(st, req, net).0.Verified?
    ensures req.VerifyBody? && req.siteId.IdInteger?
    ensures var id := req.siteId.n;
      var st' := VerifyOutcome(st, req, net).1;
      && id in st.registrations
      && st'.registrations == st.registrations[id := st.registrations[id].(verified := true)]
      && st'.order == st.order && st'.nextSiteId == st.nextSiteId
      && VerifyOutcome(st, req, net).0.storyIpId == "story:local:" + IntToString(id)
      && VerifyOutcome(st, req, net).0.Status() == 200
  {
    var id := req.siteId.n;
    var registration := st.registrations[id];
    assert VerifyOutcome(st, req, net).1 == Updated(st, id, MarkVerified).0;
    MarkVerifiedOnlySetsFlag(registration);
  }

  /** Verification is a one-way transition: across any request, every record keeps its id,
      domain, owner, token and creation time, and a verified record stays verified. */
  lemma VerifiedIsMonotone(st: StoreState, req: VerifyRequest, net: Network, id: int)
    requires Consistent(st)
    requires id in st.registrations
    ensures var st' := VerifyOutcome(st, req, net).1;
      && id in st'.registrations
      && st'.registrations[id].(verified := st.registrations[id].verified) == st.registrations[id]
      && (st.registrations[id].verified ==> st'.registrations[id].verified)
      && st'.registrations.Keys == st.registrations.Keys
  {
    var (resp, st') := VerifyOutcome(st, req, net);
    if resp.Verified? {
      SuccessMarksVerified(st, req, net);
    } else {
      OnlySuccessChangesStore(st, req, net);
    }
  }

  /** Verifying an already verified registration again, by any method, leaves the store as it
      was, whether the check passes or not. */
  lemma ReverifyIsHarmless(st: StoreState, req: VerifyRequest, net: Network)
    requires Consistent(st)
    requires req.VerifyBody? && req.siteId.IdInteger? && req.siteId.n in st.registrations
    requires st.registrations[req.siteId.n].verified
    ensures VerifyOutcome(st, req, net).1 == st
  {
    if VerifyOutcome(st, req, net).0.Verified? {
      SuccessMarksVerified(st, req, net);
      var id := req.siteId.n;
      assert st.registrations[id].(verified := true) == st.registrations[id];
      assert st.registrations[id := st.registrations[id]] == st.registrations;
    } else {
      OnlySuccessChangesStore(st, req, net);
    }
  }
}
