/**
 * The registration endpoint (`/api/owner/register`): `POST` validates a domain and a wallet,
 * returns the pending registration of an unverified domain unchanged or creates a new one
 * with a fresh token, and answers with the three sets of instructions; `GET` reads a
 * registration back by id.
 *
 * `randomUUID()` and the clock are inputs (`uuid`, `now`). The end of the file ties the
 * instructions to the checks of the verification endpoint: publishing any one of them lets
 * verification of the new registration pass.
 */
module RegisterRoute {
  import opened Wrappers
  import opened Text
  import opened MetaPattern
  import JsonText
  import opened SiteStore
  import opened AddressPatterns
  import opened VerifyRoute

  // ---------------------------------------------------------------- requests and responses

  /** A body field as JavaScript sees it: missing, not a string, or a string. */
  datatype TextField = TextAbsent | NotText | TextValue(text: string)

  /** `!field || typeof field !== 'string'` does not reject it. */
  predicate Provided(f: TextField) { f.TextValue? && f.text != "" }

  /** The body of a `POST`: one that `request.json()` or the destructuring could not read, or
      the two fields. */
  datatype RegisterRequest = RegisterUnreadable | RegisterBody(domain: TextField, ownerWallet: TextField)

  /** The message of the first check the body fails, in the order the handler checks. */
  function InputError(domain: TextField, ownerWallet: TextField): (e: Option<string>)
    ensures e.None? <==>
      Provided(domain) && Provided(ownerWallet) && IsValidDomain(domain.text) && IsValidWallet(ownerWallet.text)
  {
    if !Provided(domain) then Some("Domain is required")
    else if !Provided(ownerWallet) then Some("ownerWallet is required")
    else if !IsValidDomain(domain.text) then Some("Invalid domain format")
    else if !IsValidWallet(ownerWallet.text) then Some("Invalid wallet address format")
    else None
  }

  /** Both fields are present strings that match their patterns. */
  predicate ValidRegistration(req: RegisterRequest)
  {
    req.RegisterBody? && InputError(req.domain, req.ownerWallet).None?
  }

  datatype DnsInstruction = DnsInstruction(record: string, recordType: string, value: string, instructions: string)

  datatype MetaTagInstruction = MetaTagInstruction(tag: string, location: string, instructions: string)

  datatype FileInstruction = FileInstruction(path: string, content: string, instructions: string)

  datatype VerificationMethods = VerificationMethods(dns: DnsInstruction, metaTag: MetaTagInstruction, file: FileInstruction)

  datatype RegisterResponse =
    | Registration(siteId: int, domain: string, ownerWallet: string, verificationToken: string,
                   verificationMethods: VerificationMethods)    // 200
    | RegisterRejected(error: string)                           // 400 { error }
    | RegisterFailed(error: string)                             // 500 { error }
  {
    function Status(): int
    {
      match this
      case Registration(_, _, _, _, _) => 200
      case RegisterRejected(_) => 400
      case RegisterFailed(_) => 500
    }
  }

  /** The token handed out for a new registration. */
  function FreshToken(uuid: string): string
  {
    "scrapesafe-" + uuid
  }

  /** The three sets of instructions for a domain, as the request spelled it, and a token. */
  function InstructionsFor(domain: string, token: string): VerificationMethods
  {
    VerificationMethods(DnsInstructionFor(domain, token), MetaTagInstructionFor(token), FileInstructionFor(token))
  }

  function DnsInstructionFor(domain: string, token: string): DnsInstruction
  {
    DnsInstruction(TxtHostname(domain), "TXT", token,
      "Add a TXT record with name \"_scrapesafe\" and value \"" + token + "\"")
  }

  function MetaTagInstructionFor(token: string): MetaTagInstruction
  {
    MetaTagInstruction(MetaTag(token), "HTML <head> section",
      "Add this meta tag to your website's HTML <head> section")
  }

  function FileInstructionFor(token: string): FileInstruction
  {
    FileInstruction("/.well-known/scrapesafe.json", JsonText.VerificationDocument(token),
      "Create a file at /.well-known/scrapesafe.json with the verification token")
  }

  /** The answer about a stored registration, with the instructions built from the domain of
      the request. */
  function Answer(reg: SiteRegistration, requestedDomain: string): RegisterResponse
  {
    Registration(reg.siteId, reg.domain, reg.ownerWallet, reg.verificationToken,
      InstructionsFor(requestedDomain, reg.verificationToken))
  }

  // ---------------------------------------------------------------- POST

  /** What `POST` answers, and the store after it, for a fresh `uuid` and the instant `now`. */
  function RegisterOutcome(st: StoreState, req: RegisterRequest, uuid: string, now: Timestamp)
    : (res: (RegisterResponse, StoreState))
    requires Consistent(st)
    ensures Consistent(res.1)
    ensures res.1 != st ==> ValidRegistration(req) && res.0.Registration?
  {
    match req
    case RegisterUnreadable => (RegisterFailed("Internal server error"), st)
    case RegisterBody(domain, ownerWallet) =>
      if InputError(domain, ownerWallet).Some? then (RegisterRejected(InputError(domain, ownerWallet).value), st)
      else
        var existing := FirstWithDomain(st, domain.text);
        if existing.Some? && !existing.value.verified then
          (Answer(existing.value, domain.text), st)
        else
          var (st', reg) := Created(st, domain.text, ownerWallet.text, FreshToken(uuid), now);
          (Answer(reg, domain.text), st')
  }

  /** The handler itself, on the shared store. */
  method RegisterPost(store: SiteRegistrationStorage, req: RegisterRequest, uuid: string, now: Timestamp)
    returns (resp: RegisterResponse)
    requires store.Valid()
    modifies store
    ensures store.Valid()
    ensures (resp, store.State()) == RegisterOutcome(old(store.State()), req, uuid, now)
  {
    if req.RegisterUnreadable? {
      return RegisterFailed("Internal server error");
    }
    if !Provided(req.domain) {
      return RegisterRejected("Domain is required");
    }
    if !Provided(req.ownerWallet) {
      return RegisterRejected("ownerWallet is required");
    }
    var domain := req.domain.text;
    if !IsValidDomain(domain) {
      return RegisterRejected("Invalid domain format");
    }
    if !IsValidWallet(req.ownerWallet.text) {
      return RegisterRejected("Invalid wallet address format");
    }
    var existing := store.FindByDomain(domain);
    if existing.Some? && !existing.value.verified {
      return Answer(existing.value, domain);
    }
    var verificationToken := FreshToken(uuid);
    var registration := store.Create(domain, req.ownerWallet.text, verificationToken, now);
    resp := Answer(registration, domain);
  }

  // ---------------------------------------------------------------- GET

  /** The `siteId` search parameter: absent, or its text. */
  datatype QueryParam = ParamAbsent | ParamText(text: string)

  /** `Number(text)` where it is an integer written in decimal, with an optional sign and
      surrounding white space; `None` for every other text. */
  function NumberKey(text: string): (r: Option<int>)
    ensures forall n: nat :: DigitsValue(Trim(text)) == Some(n) ==> r == Some(n)
  {
    var t := Trim(text);
    if |t| > 0 && t[0] == '-' then Signed(-1, DigitsValue(t[1..]))
    else if |t| > 0 && t[0] == '+' then Signed(1, DigitsValue(t[1..]))
    else Signed(1, DigitsValue(t))
  }

  function Signed(sign: int, magnitude: Option<nat>): Option<int>
  {
    if magnitude.None? then None else Some(sign * magnitude.value)
  }

  datatype RegistrationDetails = RegistrationDetails(
    siteId: int, domain: string, ownerWallet: string, verificationToken: string,
    verified: bool, createdAt: Timestamp)

  datatype LookupResponse =
    | Details(details: RegistrationDetails)   // 200
    | LookupRejected(error: string)           // 400 { error }
    | LookupNotFound(error: string)           // 404 { error }
  {
    function Status(): int
    {
      match this
      case Details(_) => 200
      case LookupRejected(_) => 400
      case LookupNotFound(_) => 404
    }
  }

  function DetailsOf(reg: SiteRegistration): RegistrationDetails
  {
    RegistrationDetails(reg.siteId, reg.domain, reg.ownerWallet, reg.verificationToken, reg.verified, reg.createdAt)
  }

  /** What `GET` answers. */
  function LookupOutcome(st: StoreState, param: QueryParam): (r: LookupResponse)
    ensures r.Status() == 400 <==> param.ParamAbsent? || param.text == ""
    ensures r.Details? <==>
      (param.ParamText? && param.text != "" &&
       NumberKey(param.text).Some? && NumberKey(param.text).value in st.registrations)
    ensures r.Details? ==> r.details == DetailsOf(st.registrations[NumberKey(param.text).value])
  {
    if param.ParamAbsent? || param.text == "" then LookupRejected("siteId is required")
    else
      var key := NumberKey(param.text);
      if key.None? || Lookup(st, key.value).None? then LookupNotFound("Registration not found")
      else Details(DetailsOf(Lookup(st, key.value).value))
  }

  /** The `GET` handler, reading the shared store. */
  method RegisterGet(store: SiteRegistrationStorage, param: QueryParam) returns (resp: LookupResponse)
    ensures resp == LookupOutcome(store.State(), param)
  {
    if param.ParamAbsent? || param.text == "" {
      return LookupRejected("siteId is required");
    }
    var key := NumberKey(param.text);
    var registration: Option<SiteRegistration> := None;
    if key.Some? {
      registration := store.Get(key.value);
    }
    if registration.None? {
      return LookupNotFound("Registration not found");
    }
    resp := Details(DetailsOf(registration.value));
  }

  // ---------------------------------------------------------------- properties of POST

  /** A missing, non-string or malformed domain or wallet is refused with 400 before the store
      is consulted: the answer does not depend on the store, the uuid or the clock, and the
      store is unchanged. */
  lemma InvalidRegistrationRejected(st: StoreState, st2: StoreState, req: RegisterRequest,
                                    uuid: string, now: Timestamp, uuid2: string, now2: Timestamp)
    requires Consistent(st) && Consistent(st2)
    requires req.RegisterBody? && !ValidRegistration(req)
    ensures RegisterOutcome(st, req, uuid, now).0.RegisterRejected?
    ensures RegisterOutcome(st, req, uuid, now).0.Status() == 400
    ensures RegisterOutcome(st, req, uuid, now) == (RegisterOutcome(st2, req, uuid2, now2).0, st)
  {
  }

  /** Registering a domain whose first record is still unverified hands back that record,
      whoever asks (its id, its token and its owner's wallet), and changes nothing. */
  lemma PendingRegistrationReturned(st: StoreState, req: RegisterRequest, uuid: string, now: Timestamp)
    requires Consistent(st) && ValidRegistration(req)
    requires FirstWithDomain(st, req.domain.text).Some? && !FirstWithDomain(st, req.domain.text).value.verified
    ensures var e := FirstWithDomain(st, req.domain.text).value;
      && RegisterOutcome(st, req, uuid, now) == (Answer(e, req.domain.text), st)
      && e.domain == Lower(req.domain.text)
  {
    FindByDomainFirst(st, req.domain.text);
  }

  /** Otherwise exactly one record is created: under the counter's id, with the domain and
      wallet lower-cased, the token `scrapesafe-<uuid>`, unverified; every earlier record stays. */
  lemma NewRegistrationCreated(st: StoreState, req: RegisterRequest, uuid: string, now: Timestamp)
    requires Consistent(st) && ValidRegistration(req)
    requires FirstWithDomain(st, req.domain.text).None? || FirstWithDomain(st, req.domain.text).value.verified
    ensures var (resp, st') := RegisterOutcome(st, req, uuid, now);
      var d := req.domain.text;
      var w := req.ownerWallet.text;
      && resp == Answer(SiteRegistration(st.nextSiteId, Lower(d), Lower(w), "scrapesafe-" + uuid, now, false), d)
      && st.nextSiteId !in st.registrations
      && st'.registrations == st.registrations[st.nextSiteId := SiteRegistration(st.nextSiteId, Lower(d), Lower(w), "scrapesafe-" + uuid, now, false)]
      && |st'.registrations| == |st.registrations| + 1
      && st'.nextSiteId == st.nextSiteId + 1
  {
    var d := req.domain.text;
    var w := req.ownerWallet.text;
    ValidOutcome(st, req, uuid, now);
    var c := Created(st, d, w, FreshToken(uuid), now);
    assert RegisterOutcome(st, req, uuid, now) == (Answer(c.1, d), c.0);
    assert c.1 == SiteRegistration(st.nextSiteId, Lower(d), Lower(w), "scrapesafe-" + uuid, now, false);
    CreateAllocatesFreshId(st, d, w, FreshToken(uuid), now);
  }

  /** While a domain has no verified first record, registering it again gives the same
      answer and leaves the store as the first registration left it. */
  lemma RegisterIdempotent(st: StoreState, req: RegisterRequest, u1: string, n1: Timestamp, u2: string, n2: Timestamp)
    requires Consistent(st) && ValidRegistration(req)
    requires FirstWithDomain(st, req.domain.text).None? || !FirstWithDomain(st, req.domain.text).value.verified
    ensures var (r1, st1) := RegisterOutcome(st, req, u1, n1);
      RegisterOutcome(st1, req, u2, n2) == (r1, st1)
  {
    if FirstWithDomain(st, req.domain.text).None? {
      FindAfterCreate(st, req.domain.text, req.ownerWallet.text, FreshToken(u1), n1);
    }
  }

  /** Once the first record of a domain is verified, registering the domain creates a new
      record under a fresh id, and `findByDomain` still returns the verified one afterwards;
      so every later registration of that domain creates yet another record. */
  lemma VerifiedDomainRegistersAnew(st: StoreState, req: RegisterRequest, uuid: string, now: Timestamp)
    requires Consistent(st) && ValidRegistration(req)
    requires FirstWithDomain(st, req.domain.text).Some? && FirstWithDomain(st, req.domain.text).value.verified
    ensures var (resp, st') := RegisterOutcome(st, req, uuid, now);
      && resp.siteId == st.nextSiteId && resp.siteId !in st.registrations
      && st'.nextSiteId == st.nextSiteId + 1
      && FirstWithDomain(st', req.domain.text) == FirstWithDomain(st, req.domain.text)
  {
    var d := req.domain.text;
    var w := req.ownerWallet.text;
    var (st', reg) := Created(st, d, w, FreshToken(uuid), now);
    CreatesWhenNoPending(st, req, uuid, now);
    assert RegisterOutcome(st, req, uuid, now) == (Answer(reg, d), st');
    FindUnchangedByCreate(st, d, d, w, FreshToken(uuid), now);
    CreateAllocatesFreshId(st, d, w, FreshToken(uuid), now);
  }

  /** The outcome when no unverified record is found: the answer about a newly created one. */
  lemma CreatesWhenNoPending(st: StoreState, req: RegisterRequest, uuid: string, now: Timestamp)
    requires Consistent(st) && ValidRegistration(req)
    requires FirstWithDomain(st, req.domain.text).None? || FirstWithDomain(st, req.domain.text).value.verified
    ensures var (st', reg) := Created(st, req.domain.text, req.ownerWallet.text, FreshToken(uuid), now);
      RegisterOutcome(st, req, uuid, now) == (Answer(reg, req.domain.text), st')
  {
  }

  /** A registration answer describes a record the store now holds under its id, unverified. */
  lemma {:induction false} RegistrationStored(st: StoreState, req: RegisterRequest, uuid: string, now: Timestamp)
    requires Consistent(st) && IdsMatchKeys(st) && ValidRegistration(req)
    ensures var (resp, st') := RegisterOutcome(st, req, uuid, now);
      && resp.Registration?
      && IdsMatchKeys(st')
      && resp.siteId in st'.registrations
      && var reg := st'.registrations[resp.siteId];
      && resp == Answer(reg, req.domain.text)
      && reg.domain == Lower(req.domain.text) && !reg.verified
  {
    var d := req.domain.text;
    var e := FirstWithDomain(st, d);
    ValidOutcome(st, req, uuid, now);
    if e.Some? && !e.value.verified {
      FoundIsStored(st, d);
    } else {
      CreatedIsStored(st, d, req.ownerWallet.text, FreshToken(uuid), now);
    }
  }

  /** For a valid body, `POST` answers with the pending record for the domain when there is
      one, and otherwise with a record it creates. */
  lemma ValidOutcome(st: StoreState, req: RegisterRequest, uuid: string, now: Timestamp)
    requires Consistent(st) && ValidRegistration(req)
    ensures var e := FirstWithDomain(st, req.domain.text);
      RegisterOutcome(st, req, uuid, now) ==
        if e.Some? && !e.value.verified then (Answer(e.value, req.domain.text), st)
        else
          var c := Created(st, req.domain.text, req.ownerWallet.text, FreshToken(uuid), now);
          (Answer(c.1, req.domain.text), c.0)
  {
  }

  lemma CreatedIsStored(st: StoreState, domain: string, ownerWallet: string, token: string, now: Timestamp)
    requires IdsMatchKeys(st)
    ensures var (st', reg) := Created(st, domain, ownerWallet, token, now);
      && IdsMatchKeys(st')
      && reg.siteId in st'.registrations && st'.registrations[reg.siteId] == reg
      && reg.domain == Lower(domain) && !reg.verified
  {
    CreateKeepsIdsMatchingKeys(st, domain, ownerWallet, token, now);
  }

  // ---------------------------------------------------------------- properties of GET

  /** `Number` of the decimal rendering of an id is the id. */
  lemma NumberKeyOfId(n: nat)
    ensures NumberKey(IntToString(n)) == Some(n)
  {
    var s := NatToString(n);
    assert [] + s + [] == s;
    TrimPadded([], s, []);
    DigitsValueOfNatToString(n);
  }

  /** `GET` with the id a registration answer carried shows that registration, unverified. */
  lemma RegisterThenGet(st: StoreState, req: RegisterRequest, uuid: string, now: Timestamp)
    requires Consistent(st) && IdsMatchKeys(st) && ValidRegistration(req)
    ensures RegisterOutcome(st, req, uuid, now).0.Registration?
    ensures var (resp, st') := RegisterOutcome(st, req, uuid, now);
      var got := LookupOutcome(st', ParamText(IntToString(resp.siteId)));
      && got.Details?
      && got.details.siteId == resp.siteId
      && got.details.domain == resp.domain
      && got.details.ownerWallet == resp.ownerWallet
      && got.details.verificationToken == resp.verificationToken
      && !got.details.verified
  {
    RegistrationStored(st, req, uuid, now);
    var (resp, st') := RegisterOutcome(st, req, uuid, now);
    NumberKeyOfId(resp.siteId);
  }

  // ---------------------------------------------------------------- round trip with verification

  /** A token the checks can find: non-empty, without quotes, not padded with white space. */
  predicate WellFormedToken(t: string)
  {
    t != [] && QuoteFree(t) && Unpadded(t)
  }

  /** The characters of `crypto.randomUUID()`: hexadecimal digits and hyphens. */
  predicate IsUuidText(u: string)
  {
    forall i | 0 <= i < |u| :: IsHexDigit(u[i]) || u[i] == '-'
  }

  /** A token built from a UUID is well formed, holds no backslash or control character, and
      so `JSON.stringify` writes it between quotes without escaping anything. */
  lemma FreshTokenWellFormed(uuid: string)
    requires IsUuidText(uuid)
    ensures WellFormedToken(FreshToken(uuid))
    ensures forall k | 0 <= k < |FreshToken(uuid)| ::
      FreshToken(uuid)[k] != '\\' && (FreshToken(uuid)[k] as int) >= 0x20
    ensures JsonText.Quote(FreshToken(uuid)) == "\"" + FreshToken(uuid) + "\""
  {
    var t := FreshToken(uuid);
    forall k | 0 <= k < |t|
      ensures !IsQuote(t[k]) && t[k] != '\\' && (t[k] as int) >= 0x20
    {
      if k >= 11 {
        assert t[k] == uuid[k - 11];
      }
    }
    if uuid != [] {
      assert t[|t| - 1] == uuid[|uuid| - 1];
    }
    JsonText.EscapeBodyPlain(t);
  }

  /** The DNS record name of the instructions is the host the DNS check queries for the
      stored domain, up to case. */
  lemma DnsRecordNamesVerifyHost(domain: string, token: string)
    ensures Lower(InstructionsFor(domain, token).dns.record) == TxtHostname(Lower(domain))
  {
    var prefix := "_scrapesafe.";
    assert IsLowerCase(prefix) by {
      forall i | 0 <= i < |prefix|
        ensures !IsUpper(prefix[i])
      {
      }
    }
    LowerIsLowerCase(prefix);
    LowerAppend(prefix, domain);
  }

  /** What `response.json()` and `.verification` give for a file that holds exactly `text`,
      for the one-member documents the instructions describe. */
  function ParsedVerification(text: string): VerificationField
  {
    match JsonText.SingleMember(text)
    case Some((name, value)) => if name == "verification" then VerificationString(value) else VerificationOther
    case None => VerificationOther
  }

  /** `tag` occurs in `html` at `i`, and no match of the meta-tag pattern begins before it. */
  predicate TagFirstAt(html: string, tag: string, i: int)
  {
    0 <= i && i + |tag| <= |html| && html[i..i + |tag|] == tag &&
    forall j | 0 <= j < i :: MatchAt(html, j).None?
  }

  /** The site publishes the instruction for method `m`, as the check for `domain` sees it:
      the TXT record holds the value, the page carries the tag ahead of any other match, or
      the file parses to the token. */
  ghost predicate Publishes(net: Network, m: VerifyMethod, domain: string, methods: VerificationMethods)
  {
    match m
    case DnsMethod => net.resolveTxt(TxtHostname(domain)) == TxtRecords([[methods.dns.value]])
    case MetaTagMethod =>
      var a := net.fetchPage(PageUrl(domain));
      && a.HttpResponse? && IsOk(a.status) && a.body.BodyValue?
      && exists i :: TagFirstAt(a.body.value, methods.metaTag.tag, i)
    case FileMethod =>
      var a := net.fetchWellKnown(FileUrl(domain));
      a.HttpResponse? && IsOk(a.status) && a.body == BodyValue(ParsedVerification(methods.file.content))
  }

  /** The page check passes on a page that carries the instruction tag ahead of any other
      match. */
  lemma MetaTagInstructionPasses(domain: string, token: string, fetchPage: string -> HttpAnswer<string>, i: int)
    requires WellFormedToken(token)
    requires fetchPage(PageUrl(domain)).HttpResponse? && IsOk(fetchPage(PageUrl(domain)).status)
    requires fetchPage(PageUrl(domain)).body.BodyValue?
    requires TagFirstAt(fetchPage(PageUrl(domain)).body.value, MetaTag(token), i)
    ensures VerifyMetaTag(domain, token, fetchPage).success
  {
    var html := fetchPage(PageUrl(domain)).body.value;
    var tag := MetaTag(token);
    var pre := html[..i];
    var post := html[i + |tag|..];
    assert html == pre + tag + post;
    MetaCaptureOfInstruction(pre, token, post);
  }

  /** The file check passes on a file whose content is the instruction document. */
  lemma FileInstructionPasses(domain: string, token: string, fetchWellKnown: string -> HttpAnswer<VerificationField>)
    requires fetchWellKnown(FileUrl(domain)).HttpResponse? && IsOk(fetchWellKnown(FileUrl(domain)).status)
    requires fetchWellKnown(FileUrl(domain)).body == BodyValue(ParsedVerification(FileInstructionFor(token).content))
    ensures VerifyFile(domain, token, fetchWellKnown).success
  {
    JsonText.VerificationDocumentRoundTrip(token);
  }

  /** Each instruction, once published, passes its check. */
  lemma InstructionsPassChecks(m: VerifyMethod, requested: string, domain: string, token: string, net: Network)
    requires WellFormedToken(token)
    requires Publishes(net, m, domain, InstructionsFor(requested, token))
    ensures RunCheck(m, domain, token, net).Completed?
    ensures RunCheck(m, domain, token, net).result.success
  {
    var methods := InstructionsFor(requested, token);
    match m
    case DnsMethod =>
      assert methods.dns.value == token;
      DnsAcceptsPlainAndQuoted(domain, token, net.resolveTxt);
    case MetaTagMethod =>
      assert methods.metaTag.tag == MetaTag(token);
      var i :| TagFirstAt(net.fetchPage(PageUrl(domain)).body.value, methods.metaTag.tag, i);
      MetaTagInstructionPasses(domain, token, net.fetchPage, i);
    case FileMethod =>
      assert methods.file == FileInstructionFor(token);
      FileInstructionPasses(domain, token, net.fetchWellKnown);
  }

  /** Verifying a stored registration whose instruction is published passes and marks it. */
  lemma VerifyPublishedPasses(st: StoreState, id: int, requested: string, net: Network, m: VerifyMethod)
    requires Consistent(st) && id in st.registrations
    requires WellFormedToken(st.registrations[id].verificationToken)
    requires Publishes(net, m, st.registrations[id].domain, InstructionsFor(requested, st.registrations[id].verificationToken))
    ensures var (answer, st') := VerifyOutcome(st, VerifyBody(IdInteger(id), MethodText(MethodName(m))), net);
      && answer.Verified? && answer.storyIpId == StoryIpId(id)
      && st' == Updated(st, id, MarkVerified).0
  {
    var reg := st.registrations[id];
    InstructionsPassChecks(m, requested, reg.domain, reg.verificationToken, net);
    DispatchRunsRequestedCheck(st, id, m, net);
  }

  /** After a registration is marked verified, `GET` shows it verified. */
  lemma GetAfterMarkVerified(st: StoreState, id: nat)
    requires id in st.registrations
    ensures var got := LookupOutcome(Updated(st, id, MarkVerified).0, ParamText(IntToString(id)));
      && got.Details? && got.details.verified
      && got.details.verificationToken == st.registrations[id].verificationToken
  {
    MarkVerifiedOnlySetsFlag(st.registrations[id]);
    NumberKeyOfId(id);
  }

  /** End to end: register a domain, publish any one of the instructions from the answer,
      and verify with the id from the answer: the check passes, the answer is 200 with the
      mock IP id, and `GET` then shows the registration verified with the same token. */
  lemma RegisterThenVerify(st: StoreState, req: RegisterRequest, uuid: string, now: Timestamp, net: Network, m: VerifyMethod)
    requires Consistent(st) && IdsMatchKeys(st) && ValidRegistration(req)
    requires var resp := RegisterOutcome(st, req, uuid, now).0;
      WellFormedToken(resp.verificationToken) &&
      Publishes(net, m, resp.domain, resp.verificationMethods)
    ensures var (resp, st1) := RegisterOutcome(st, req, uuid, now);
      var (answer, st2) := VerifyOutcome(st1, VerifyBody(IdInteger(resp.siteId), MethodText(MethodName(m))), net);
      var got := LookupOutcome(st2, ParamText(IntToString(resp.siteId)));
      && answer.Verified? && answer.storyIpId == StoryIpId(resp.siteId)
      && got.Details? && got.details.verified
      && got.details.verificationToken == resp.verificationToken
  {
    RegistrationStored(st, req, uuid, now);
    var (resp, st1) := RegisterOutcome(st, req, uuid, now);
    var reg := st1.registrations[resp.siteId];
    assert resp == Answer(reg, req.domain.text);
    VerifyPublishedPasses(st1, resp.siteId, req.domain.text, net, m);
    GetAfterMarkVerified(st1, resp.siteId);
  }
}
