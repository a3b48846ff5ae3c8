# ScrapeSafe site ownership: a Dafny model

ScrapeSafe lets a website owner register a domain against a wallet address, and then prove
ownership of that domain with one of three checks: a DNS TXT record at `_scrapesafe.<domain>`,
a `<meta name="scrapesafe" content="…">` tag on the home page, or a
`/.well-known/scrapesafe.json` file holding the token. This project models:

- the in-memory registration store (`SiteStore`, from `src/lib/api-storage.ts`). It is a class
  with the store's two fields. Its methods are proved against the pure functions `Created`,
  `Updated`, `FirstWithDomain` and `AllRecords` over a `StoreState` value. The JS `Map`'s
  insertion order is kept as a sequence of keys beside the map.
- the registration endpoint (`RegisterRoute`, from `src/app/api/owner/register/route.ts`):
  - input validation, with the domain and wallet regular expressions as predicates
    (`AddressPatterns`);
  - the return of a pending registration;
  - the creation of a new registration and token;
  - the three sets of publishing instructions;
  - the GET lookup by site id.
- the verification endpoint (`VerifyRoute`, from `src/app/api/owner/verify/route.ts`):
  - the three checks, with the network as a `Network` value of lookup functions;
  - the request validation and dispatch;
  - marking a registration verified.
- the browser-side mock registry (`MockRegistry`, from `src/lib/storage.ts`):
  - assets, licenses and purchases as sequence fields of a class;
  - filter/find queries as functions;
  - the license upsert;
  - the wallet entry as the JSON text `saveWallet` stores.

Supporting modules:

- `Text`: JavaScript's `toLowerCase` on ASCII, `trim`, `includes`, `replace(/"/g, '')`,
  `flat().join('')`, and decimal numerals.
- `MetaPattern`: the meta-tag regular expression as a one-pass matcher. The matcher is proved
  equal to a declarative reading of the pattern, in which the white-space runs and the capture
  may end anywhere the pattern's pieces fit.
- `JsonText`: `JSON.stringify` of a one-member object, and a reader for such documents that
  proves the round trip.

The end-to-end lemma `RegisterRoute.RegisterThenVerify` ties the parts together:

1. register a valid domain;
2. publish any one of the returned instructions;
3. call verify with the returned site id and that method;
4. the answer is `ok`, and GET for the site id shows it verified with the same token.

## Model

| member | source | states |
|---|---|---|
| Text.Lower | src/lib/api-storage.ts:21-22 | `toLowerCase`: same length, each character lower-cased |
| Text.LowerIsLowerCase | src/lib/api-storage.ts:21-22 | the result has no upper-case letter, and lower-case text is left as it is |
| Text.LowerIdempotent | src/lib/api-storage.ts:36 | lower-casing twice is lower-casing once, so a stored (lower-cased) domain compares equal to the normalised query |
| Text.LowerAppend | src/lib/api-storage.ts:21 | lower-casing distributes over concatenation |
| Text.TrimStart | src/app/api/owner/verify/route.ts:15-16 | the result is a suffix, everything removed is white space, and it does not start with white space |
| Text.TrimEnd | src/app/api/owner/verify/route.ts:15-16 | the result is a prefix, everything removed is white space, and it does not end with white space |
| Text.TrimPadded | src/app/api/owner/verify/route.ts:15-16 | trimming white space around an unpadded core gives exactly the core |
| Text.Trim | src/app/api/owner/verify/route.ts:15-16 | `trim`: the result neither starts nor ends with white space |
| Text.TrimRemovesOnlyOuterSpace | src/app/api/owner/verify/route.ts:15-16 | the trimmed text occurs in the input with nothing but white space before and after it |
| Text.IncludesIff | src/app/api/owner/verify/route.ts:17 | `includes` holds iff the needle occurs at some position |
| Text.Includes | src/app/api/owner/verify/route.ts:17 | `includes`, read as a prefix test at each position; IncludesIff states what it means |
| Text.IncludesMiddle | src/app/api/owner/verify/route.ts:17 | a text includes any piece it was built around |
| Text.Join | src/app/api/owner/verify/route.ts:11 | `join('')`: the strings one after another; JoinAppend states it |
| Text.Flatten | src/app/api/owner/verify/route.ts:11 | `flat()`: every string of every record, record after record; FlattenAppend states it |
| Text.JoinAppend | src/app/api/owner/verify/route.ts:11 | joining two lists one after the other gives the two joined texts in order |
| Text.FlattenAppend | src/app/api/owner/verify/route.ts:11 | flattening two lists of records gives the two flattened lists in order |
| Text.JoinFlattenRecords | src/app/api/owner/verify/route.ts:11 | one more TXT record adds its joined strings at the end of the searched text |
| Text.Remove | src/app/api/owner/verify/route.ts:16 | `replace(/"/g, '')` leaves no quote and never lengthens the text |
| Text.RemoveAppend | src/app/api/owner/verify/route.ts:16 | quote removal distributes over concatenation |
| Text.RemoveAbsent | src/app/api/owner/verify/route.ts:16 | quote removal leaves a quote-free text unchanged |
| Text.DigitsValueOfNatToString | src/app/api/owner/register/route.ts:123 | reading the decimal numeral of `n` gives back `n` |
| Text.NatToStringInjective | src/app/api/owner/verify/route.ts:183 | distinct site ids give distinct numerals, hence distinct `storyIpId`s |
| Text.NatToString | src/app/api/owner/verify/route.ts:183 | the template-literal numeral of a natural number: non-empty and all decimal digits |
| Text.IntToString | src/app/api/owner/verify/route.ts:183 | the numeral of an integer: non-empty, starting with a digit exactly when the integer is not negative |
| MetaPattern.SpaceRun | src/app/api/owner/verify/route.ts:64 | `\s+` consumes a maximal run of white space |
| MetaPattern.NonQuoteRun | src/app/api/owner/verify/route.ts:64 | `[^"']+` consumes a maximal run of non-quotes, ending at a quote or the end |
| MetaPattern.CaptureAt | src/app/api/owner/verify/route.ts:64 | a capture is non-empty, quote-free, sits at its position and is closed by a quote |
| MetaPattern.MatchAt | src/app/api/owner/verify/route.ts:64 | the pattern tried at one start position in one pass: a match starts with `<meta` in any case, and its capture is non-empty and quote-free |
| MetaPattern.RegexMatchAt | src/app/api/owner/verify/route.ts:64 | the pattern read as a relation: `<meta` in any case, white space, the name attribute, white space, then `content="`, a non-empty quote-free capture and a quote, with no preference among the ways to fit the runs; MatchAtIsRegexMatch ties it to the matcher |
| MetaPattern.MatchAtSound | src/app/api/owner/verify/route.ts:64 | what the one-pass matcher returns is a match of the pattern, read declaratively, with that capture |
| MetaPattern.MatchAtComplete | src/app/api/owner/verify/route.ts:64 | every declarative match of the pattern at a position, however its white-space runs and capture are fitted, is the one the matcher returns |
| MetaPattern.MatchAtIsRegexMatch | src/app/api/owner/verify/route.ts:64 | the matcher returns capture `c` at `i` iff the pattern matches at `i` with capture `c` |
| MetaPattern.MetaCapture | src/app/api/owner/verify/route.ts:64-65 | `html.match`: no match at any position gives none; otherwise the capture of the leftmost matching position |
| MetaPattern.MetaCaptureNoneIffNoMatch | src/app/api/owner/verify/route.ts:64-65 | `html.match` finds nothing iff the pattern matches at no position of the page |
| MetaPattern.MetaCaptureIsLeftmostMatch | src/app/api/owner/verify/route.ts:64-65 | what `html.match` finds is the capture of a match at the leftmost position where the pattern matches |
| MetaPattern.MatchAtTag | src/app/api/owner/verify/route.ts:64 | the tag the owner is told to add matches the pattern and captures its token |
| MetaPattern.MetaTag | src/app/api/owner/register/route.ts:91 | the tag text the owner is given; MatchAtTag proves the pattern matches it and captures the token |
| MetaPattern.NoMatchWithoutAngle | src/app/api/owner/verify/route.ts:64 | no match can start where there is no `<` |
| MetaPattern.MetaCaptureOfInstruction | src/app/api/owner/verify/route.ts:64-67 | a page with the tag and no earlier match captures exactly the token |
| MetaPattern.MetaCaptureAfterPlainText | src/app/api/owner/verify/route.ts:64-67 | a page whose text before the tag holds no `<` captures exactly the token |
| JsonText.SkipSpace | src/app/api/owner/verify/route.ts:107 | JSON white space is skipped up to the first other character |
| JsonText.StringBody | src/app/api/owner/verify/route.ts:107 | reading a string body consumes input |
| JsonText.EscapeChar | src/app/api/owner/register/route.ts:97 | how `JSON.stringify` writes one character of a string; never empty; EscapeBodyPlain and QuoteRoundTrip state what the escaping preserves |
| JsonText.Quote | src/app/api/owner/register/route.ts:97 | `JSON.stringify` of a string; QuoteRoundTrip proves it reads back |
| JsonText.MemberDocument | src/app/api/owner/register/route.ts:97 | `JSON.stringify({ [name]: value }, null, 2)`; MemberDocumentRoundTrip proves it reads back |
| JsonText.VerificationDocument | src/app/api/owner/register/route.ts:97 | the verification file content; VerificationDocumentRoundTrip proves it reads back to the token |
| JsonText.CompactMemberDocument | src/lib/storage.ts:107 | `JSON.stringify({ [name]: value })` with no indentation; CompactMemberDocumentRoundTrip proves it reads back |
| JsonText.SingleMember | src/app/api/owner/verify/route.ts:107-108 | `JSON.parse` of a one-member object of strings, as the file check and `getWallet` read it; the round-trip lemmas state it reads back what the writers produce |
| JsonText.QuoteRoundTrip | src/app/api/owner/register/route.ts:97 | a string written as a JSON literal reads back to the same string, with the rest of the text untouched |
| JsonText.EscapeBodyPlain | src/app/api/owner/register/route.ts:97 | a string with no quote, backslash or control character is written unescaped |
| JsonText.MemberDocumentRoundTrip | src/app/api/owner/register/route.ts:97 | a one-member object written with two-space indentation reads back to its name and value |
| JsonText.VerificationDocumentRoundTrip | src/app/api/owner/register/route.ts:97 | the verification file content reads back to its `verification` member holding the token |
| JsonText.CompactMemberDocumentRoundTrip | src/lib/storage.ts:107 | a one-member object written without white space reads back to its name and value |
| SiteStore.EmptyStoreConsistent | src/lib/api-storage.ts:14-15 | the initial store (empty map, next id 1) satisfies the store invariant |
| SiteStore.Created | src/lib/api-storage.ts:17-29 | creating a registration preserves the store invariant |
| SiteStore.Updated | src/lib/api-storage.ts:45-53 | updating a registration preserves the store invariant |
| SiteStore.Merge | src/lib/api-storage.ts:50 | the spread `{ ...registration, ...updates }`: each field the patch names takes the patch's value, every other keeps the record's |
| SiteStore.Lookup | src/lib/api-storage.ts:31-33 | `get`: present exactly for a stored id, and then the stored record |
| SiteStore.AllRecords | src/lib/api-storage.ts:55-57 | the records in insertion order, one per key of the order |
| SiteStore.FirstWithDomainFrom | src/lib/api-storage.ts:35-43 | the scan from position `i` finds the first record with the domain, or shows that none after `i` has it |
| SiteStore.FirstWithDomain | src/lib/api-storage.ts:35-43 | `findByDomain`: nothing iff no stored record has the lower-cased domain; a found record has it |
| SiteStore.CreateAllocatesFreshId | src/lib/api-storage.ts:17-29 | the new id is `nextSiteId`: unused, above every stored id; the key set grows by exactly that id and the counter moves past it |
| SiteStore.CreateNormalizes | src/lib/api-storage.ts:19-26 | the record holds the lower-cased domain and wallet, the given token and time, and is not verified |
| SiteStore.GetAfterCreate | src/lib/api-storage.ts:17-33 | `get` of the new id returns the new record; `get` of any other id is unchanged |
| SiteStore.SuccessiveCreatesIncrease | src/lib/api-storage.ts:18 | two creations give increasing ids, and the second does not overwrite the first |
| SiteStore.UnknownId | src/lib/api-storage.ts:46-49 | `get` and `update` of an absent id return nothing and change nothing |
| SiteStore.UpdateMerges | src/lib/api-storage.ts:45-53 | `update` stores and returns the spread of the patch over the old record; keys, order, counter and other records are unchanged |
| SiteStore.MarkVerifiedOnlySetsFlag | src/app/api/owner/verify/route.ts:178 | the `{ verified: true }` patch changes only the flag |
| SiteStore.CreateKeepsIdsMatchingKeys | src/lib/api-storage.ts:17-29 | every record's `siteId` equals its key after a creation, if it did before |
| SiteStore.UpdateKeepsIdsMatchingKeys | src/lib/api-storage.ts:50-51 | an update that leaves `siteId` alone keeps every record's id equal to its key |
| SiteStore.FoundIsStored | src/lib/api-storage.ts:35-43 | the record found by domain is stored under its own id and has the lower-cased domain |
| SiteStore.FindByDomainFirst | src/lib/api-storage.ts:35-43 | `findByDomain` finds nothing iff no record has the lower-cased domain; otherwise it finds the first such record in insertion order |
| SiteStore.FindAfterCreate | src/lib/api-storage.ts:17-43 | after creating a domain nobody had, `findByDomain` returns the new record |
| SiteStore.FindUnchangedByCreate | src/lib/api-storage.ts:35-43 | once a domain is found, later creations do not change which record is found |
| SiteStore.AllRecordsOnePerId | src/lib/api-storage.ts:55-57 | `getAll` has one record per stored id and contains every stored record |
| SiteStore.SiteRegistrationStorage.constructor | src/lib/api-storage.ts:13-15 | a new storage is empty with next id 1 |
| SiteStore.SiteRegistrationStorage.Create | src/lib/api-storage.ts:17-29 | the new state and the returned record are those of `Created` |
| SiteStore.SiteRegistrationStorage.Get | src/lib/api-storage.ts:31-33 | returns the record stored under the id, or nothing when the id is absent |
| SiteStore.SiteRegistrationStorage.FindByDomain | src/lib/api-storage.ts:35-43 | the loop in insertion order returns the first record with the lower-cased domain, or nothing iff no record has it |
| SiteStore.SiteRegistrationStorage.Update | src/lib/api-storage.ts:45-53 | the new state and the result are those of `Updated` |
| SiteStore.SiteRegistrationStorage.GetAll | src/lib/api-storage.ts:55-57 | every stored record, once each, in insertion order |
| AddressPatterns.IsValidDomain | src/app/api/owner/register/route.ts:26-27 | the domain pattern read piece by piece, a split point for the first part and one length per dotted group; DomainPatternByLabels states what it accepts |
| AddressPatterns.IsValidWallet | src/app/api/owner/register/route.ts:35 | `0x` and forty hexadecimal digits of either case, and nothing more; WalletLowerValid shows the lower-cased wallet still matches |
| AddressPatterns.TldGroupsIffLabels | src/app/api/owner/register/route.ts:26 | `(?:\.[a-zA-Z]{2,})+` matches exactly a dot followed by dot-separated labels of two or more letters |
| AddressPatterns.DomainPatternByLabels | src/app/api/owner/register/route.ts:26 | the domain pattern holds iff the text splits at dots into at least two labels: first a 2–63 character host label, the rest two or more letters |
| AddressPatterns.DotlessNameInvalid | src/app/api/owner/register/route.ts:26-27 | a name without a dot (`localhost`) is never accepted |
| AddressPatterns.Labels | src/app/api/owner/register/route.ts:26 | splitting at dots gives at least one label, the first being the text before the first dot |
| VerifyRoute.TxtHostname | src/app/api/owner/verify/route.ts:7 | the host queried for TXT records, `_scrapesafe.<domain>`; DnsQueriesOnlyTxtHost shows no other name is consulted |
| VerifyRoute.Scheme | src/app/api/owner/verify/route.ts:44 | `http` for a domain mentioning `localhost`, else `https`; UrlsFollowDomain states it |
| VerifyRoute.PageUrl | src/app/api/owner/verify/route.ts:44-45 | the page URL; UrlsFollowDomain states it |
| VerifyRoute.FileUrl | src/app/api/owner/verify/route.ts:89-90 | the file URL; UrlsFollowDomain states it |
| VerifyRoute.IsOk | src/app/api/owner/verify/route.ts:56 | `response.ok`: a status from 200 to 299; HttpNonOkFails states what any other status gives |
| VerifyRoute.NormalizedTxt | src/app/api/owner/verify/route.ts:11-16 | the text the DNS check searches: records flattened and joined, double quotes removed, trimmed; DnsAcceptsEmbeddedToken shows a token anywhere in it is found |
| VerifyRoute.UrlsFollowDomain | src/app/api/owner/verify/route.ts:44-90 | the scheme is `http` iff the domain contains `localhost`; the file URL is the page URL plus the well-known path |
| VerifyRoute.VerifyDnsTxt | src/app/api/owner/verify/route.ts:6-39 | the check escapes iff the lookup fails with a code other than ENOTFOUND/ENODATA; it succeeds iff the joined, unquoted, trimmed TXT text includes the trimmed token |
| VerifyRoute.DnsQueriesOnlyTxtHost | src/app/api/owner/verify/route.ts:7-10 | the outcome depends only on the answer for `_scrapesafe.<domain>` |
| VerifyRoute.TrimKeepsCore | src/app/api/owner/verify/route.ts:16-17 | trimming text that has an unpadded piece inside keeps that piece |
| VerifyRoute.DnsAcceptsEmbeddedToken | src/app/api/owner/verify/route.ts:11-22 | a token found anywhere in the joined records passes, with the success message |
| VerifyRoute.DnsAcceptsPlainAndQuoted | src/app/api/owner/verify/route.ts:14-17 | a single record holding the token, with or without quotes, passes |
| VerifyRoute.DnsErrorsClassified | src/app/api/owner/verify/route.ts:30-37 | ENOTFOUND/ENODATA give a failed result; any other error escapes with its message |
| VerifyRoute.DnsBlankTokenMatchesAnyAnswer | src/app/api/owner/verify/route.ts:15-17 | a blank token passes against any TXT answer |
| VerifyRoute.VerifyMetaTag | src/app/api/owner/verify/route.ts:42-84 | succeeds iff the page answers 2xx with a readable body whose first pattern match captures exactly the token; every result has details |
| VerifyRoute.MetaTagNeedsExactCapture | src/app/api/owner/verify/route.ts:67 | a tag carrying the token plus extra characters fails |
| VerifyRoute.VerifyFile | src/app/api/owner/verify/route.ts:87-125 | succeeds iff the file answers 2xx with a body whose `verification` is exactly the token string |
| VerifyRoute.HttpNonOkFails | src/app/api/owner/verify/route.ts:56-105 | a non-2xx answer fails with `Failed to fetch <url>: <status> <statusText>` |
| VerifyRoute.MethodOf | src/app/api/owner/verify/route.ts:130-145 | a missing method means `dns`; `dns`, `metaTag` and `file` select their check; nothing else is accepted |
| VerifyRoute.MethodName | src/app/api/owner/verify/route.ts:140 | each check's name selects that check |
| VerifyRoute.IdRejected | src/app/api/owner/verify/route.ts:133 | `!siteId \|\| typeof siteId !== 'number'`: absent, not a number, NaN or zero; InvalidInputRejectedFirst states its effect |
| VerifyRoute.RunCheck | src/app/api/owner/verify/route.ts:159-174 | the `switch` on the method; DispatchRunsRequestedCheck states it at the endpoint |
| VerifyRoute.ErrorMessage | src/app/api/owner/verify/route.ts:197 | `error.message \|\| 'Internal server error'`: never empty, and a non-empty message is kept |
| VerifyRoute.StoryIpId | src/app/api/owner/verify/route.ts:183 | `story:local:<siteId>`: the fixed prefix followed by the id |
| VerifyRoute.StoryIpIdInjective | src/app/api/owner/verify/route.ts:183 | distinct sites get distinct mock Story Protocol ids |
| VerifyRoute.VerifyOutcome | src/app/api/owner/verify/route.ts:127-202 | the POST handler as a function of store, request and network; keeps the store invariant |
| VerifyRoute.VerifyPost | src/app/api/owner/verify/route.ts:127-202 | the handler over the storage object: its answer and new state are those of `VerifyOutcome` |
| VerifyRoute.DispatchRunsRequestedCheck | src/app/api/owner/verify/route.ts:148-191 | for a stored id, the answer is that of the requested check on the stored domain and token: an escape is a 500, success marks the record verified, failure leaves the store alone |
| VerifyRoute.InvalidInputRejectedFirst | src/app/api/owner/verify/route.ts:133-145 | a missing, zero, NaN or non-number id, or an unknown method, is a 400 whatever the store and network, with no change |
| VerifyRoute.UnknownSiteNotFound | src/app/api/owner/verify/route.ts:148-155 | a valid request for an absent id is a 404 with no network use and no change |
| VerifyRoute.OnlySuccessChangesStore | src/app/api/owner/verify/route.ts:176-191 | only a successful check changes the store |
| VerifyRoute.SuccessMarksVerified | src/app/api/owner/verify/route.ts:176-185 | on success the id was stored, only its `verified` flag is set, and the answer is 200 with `story:local:<id>` |
| VerifyRoute.VerifiedIsMonotone | src/app/api/owner/verify/route.ts:176-191 | a verify call keeps every key and every record's other fields, and never clears `verified` |
| VerifyRoute.ReverifyIsHarmless | src/app/api/owner/verify/route.ts:176-178 | verifying an already verified site leaves the store as it was |
| RegisterRoute.InputError | src/app/api/owner/register/route.ts:11-40 | a request is accepted iff both fields are non-empty strings, the domain matches the domain pattern and the wallet the wallet pattern |
| RegisterRoute.Provided | src/app/api/owner/register/route.ts:10-17 | `!field \|\| typeof field !== 'string'` fails: the field is a non-empty string; InputError states its use |
| RegisterRoute.Answer | src/app/api/owner/register/route.ts:78-101 | the POST answer: the stored record's id, domain, wallet and token, with instructions for the requested domain; NewRegistrationCreated and PendingRegistrationReturned state it |
| RegisterRoute.RegisterOutcome | src/app/api/owner/register/route.ts:5-109 | the POST handler as a function of store and request; keeps the invariant, and only a valid request that answers with a registration changes the store |
| RegisterRoute.RegisterPost | src/app/api/owner/register/route.ts:5-109 | the handler over the storage object: its answer and new state are those of `RegisterOutcome` |
| RegisterRoute.InvalidRegistrationRejected | src/app/api/owner/register/route.ts:11-40 | an invalid request is a 400 whatever the store, token and time, with no change |
| RegisterRoute.PendingRegistrationReturned | src/app/api/owner/register/route.ts:43-70 | an unverified registration of the same domain (any case) is returned unchanged, with no new record |
| RegisterRoute.NewRegistrationCreated | src/app/api/owner/register/route.ts:72-101 | with no pending registration, a record with the next id, lower-cased fields and token `scrapesafe-<uuid>` is added and returned |
| RegisterRoute.RegisterIdempotent | src/app/api/owner/register/route.ts:43-70 | registering a domain that is not yet verified twice gives the same answer and store as once |
| RegisterRoute.VerifiedDomainRegistersAnew | src/app/api/owner/register/route.ts:43-76 | a verified domain gets a fresh id on re-registration, and `findByDomain` still returns the first, verified, record |
| RegisterRoute.RegistrationStored | src/app/api/owner/register/route.ts:43-101 | a valid request answers with a registration stored under its own id, with the lower-cased domain |
| RegisterRoute.NumberKey | src/app/api/owner/register/route.ts:123 | `Number(siteId)` on trimmed decimal digits is their value |
| RegisterRoute.NumberKeyOfId | src/app/api/owner/register/route.ts:123 | the numeral of a site id reads back to that id |
| RegisterRoute.LookupOutcome | src/app/api/owner/register/route.ts:112-139 | 400 iff the parameter is absent or empty; details iff it names a stored id, and then those of that record |
| RegisterRoute.DetailsOf | src/app/api/owner/register/route.ts:131-138 | the GET answer's fields, all taken from the stored record; RegisterThenGet states what they hold after a registration |
| RegisterRoute.RegisterGet | src/app/api/owner/register/route.ts:112-139 | the GET handler over the storage object answers `LookupOutcome` |
| RegisterRoute.RegisterThenGet | src/app/api/owner/register/route.ts:78-137 | GET with the returned id shows the returned domain, wallet and token, not yet verified |
| RegisterRoute.FreshTokenWellFormed | src/app/api/owner/register/route.ts:73 | a token built from a UUID is non-empty, unpadded and quote-free, holds no backslash or control character, and so `JSON.stringify` writes it between quotes unescaped |
| RegisterRoute.FreshToken | src/app/api/owner/register/route.ts:73 | `scrapesafe-<uuid>`; FreshTokenWellFormed states its shape |
| RegisterRoute.InstructionsFor | src/app/api/owner/register/route.ts:83-100 | the three instructions for a domain and token; InstructionsPassChecks proves each passes its check |
| RegisterRoute.DnsInstructionFor | src/app/api/owner/register/route.ts:84-89 | the TXT instruction; DnsRecordNamesVerifyHost ties its record name to the queried host |
| RegisterRoute.MetaTagInstructionFor | src/app/api/owner/register/route.ts:90-94 | the meta-tag instruction; MetaTagInstructionPasses proves its tag passes |
| RegisterRoute.FileInstructionFor | src/app/api/owner/register/route.ts:95-99 | the file instruction; FileInstructionPasses proves its content passes |
| RegisterRoute.ParsedVerification | src/app/api/owner/verify/route.ts:107-108 | `json.verification` of a served one-member document; FileInstructionPasses uses it on the instructed file |
| RegisterRoute.DnsRecordNamesVerifyHost | src/app/api/owner/register/route.ts:85 | the DNS record name given, lower-cased, is the host the DNS check queries for the stored domain |
| RegisterRoute.MetaTagInstructionPasses | src/app/api/owner/register/route.ts:91 | a page whose first `<meta`-like text is the given tag passes the meta-tag check |
| RegisterRoute.FileInstructionPasses | src/app/api/owner/register/route.ts:97 | serving the given file content passes the file check |
| RegisterRoute.InstructionsPassChecks | src/app/api/owner/register/route.ts:83-100 | publishing any one of the three instructions makes that check succeed |
| RegisterRoute.VerifyPublishedPasses | src/app/api/owner/verify/route.ts:148-185 | a stored site that published an instruction for its token is verified by that method |
| RegisterRoute.GetAfterMarkVerified | src/app/api/owner/register/route.ts:131-137 | after marking verified, GET shows it verified with the same token |
| RegisterRoute.RegisterThenVerify | src/app/api/owner/register/route.ts:72-101 | register, publish one instruction and verify: the answer is `ok`, and GET shows the site verified with the token it was given |
| MockRegistry.LicenseTypeName | src/types/index.ts:2 | license types are stored as `scrape` and `train`, one name each |
| MockRegistry.MergeOnlyNamedFields | src/lib/storage.ts:43 | the spread with an empty patch keeps the asset; a patch naming only `verified` changes only that |
| MockRegistry.MergeAsset | src/lib/storage.ts:43 | the spread `{ ...asset, ...updates }`: every field the patch names takes the patch's value, every other keeps the asset's; MergeOnlyNamedFields gives the empty and flag-only patches |
| MockRegistry.Filter | src/lib/storage.ts:23-25 | `filter` keeps exactly the elements that pass, never more than it was given |
| MockRegistry.FilterAppend | src/lib/storage.ts:23-25 | `filter` keeps the list's order: it distributes over concatenation |
| MockRegistry.FindIndex | src/lib/storage.ts:41 | `findIndex` gives the first passing position, or none iff no element passes |
| MockRegistry.Find | src/lib/storage.ts:27-37 | `find` gives the first passing element of the list, or none iff no element passes |
| MockRegistry.FindPush | src/lib/storage.ts:27-37 | after an append, `find` gives the old first match, or else the new element if it passes |
| MockRegistry.AssetsOwnedBy | src/lib/storage.ts:23-25 | the assets whose owner equals the address ignoring case; their stored order and duplicates are kept, by FilterAppend and FilterPush on its `Filter` body |
| MockRegistry.AssetByDomain | src/lib/storage.ts:27-29 | the first asset whose domain equals the query ignoring case; none iff no asset has such a domain (assets without one never match) |
| MockRegistry.AssetById | src/lib/storage.ts:31-33 | the first asset with the id; none iff there is none |
| MockRegistry.AssetByIpId | src/lib/storage.ts:35-37 | the first asset with the IP id; none iff there is none |
| MockRegistry.UpdateChangesFirstMatchOnly | src/lib/storage.ts:39-46 | an update keeps the length; it replaces exactly the first asset with the id by the merge; with no such asset it changes nothing |
| MockRegistry.AssetsAfterUpdate | src/lib/storage.ts:39-46 | the list keeps its length and every asset with another id |
| MockRegistry.GetAfterUpdate | src/lib/storage.ts:31-46 | after an update that keeps the id, lookup by id gives the merged asset |
| MockRegistry.SaveThenQueryAssets | src/lib/storage.ts:17-33 | a saved asset is appended to its owner's listing; lookup by its id finds it unless an earlier asset has the same id |
| MockRegistry.LicensesAfterSave | src/lib/storage.ts:54-66 | the license replaces the first one with its asset and type in place, every other position unchanged; with none, it is appended at the end; the list grows iff no license had its slot |
| MockRegistry.LicenseFor | src/lib/storage.ts:72-76 | the first license for the asset and type name; none iff there is none |
| MockRegistry.LicensesForIp | src/lib/storage.ts:68-70 | the licenses of the asset; their stored order and duplicates are kept, by FilterAppend and FilterPush on its `Filter` body |
| MockRegistry.EnabledLicenses | src/lib/storage.ts:78-80 | the enabled licenses; their stored order and duplicates are kept, by FilterAppend and FilterPush on its `Filter` body |
| MockRegistry.SaveThenGetLicense | src/lib/storage.ts:54-76 | after saving a license, `getLicense` for its asset and type returns it |
| MockRegistry.SaveLicenseKeepsOtherSlots | src/lib/storage.ts:54-76 | saving a license leaves `getLicense` for every other asset or type as it was |
| MockRegistry.SaveLicenseKeepsSlotsUnique | src/lib/storage.ts:54-66 | saving keeps at most one license per asset and type |
| MockRegistry.PurchasesBy | src/lib/storage.ts:94-98 | the purchases whose buyer equals the address ignoring case; their stored order and duplicates are kept, by FilterAppend and FilterPush on its `Filter` body |
| MockRegistry.SaveThenPurchasesBy | src/lib/storage.ts:88-98 | a saved purchase is appended to its buyer's listing, whatever the address's case, and to no other |
| MockRegistry.WalletRoundTrip | src/lib/storage.ts:101-108 | the entry `saveWallet` writes reads back as `{ address }` with the same address |
| MockRegistry.WalletEntry | src/lib/storage.ts:107 | the text `JSON.stringify({ address })`; WalletRoundTrip proves it reads back |
| MockRegistry.ReadWallet | src/lib/storage.ts:101-104 | `getWallet`: a missing or empty entry is no wallet |
| MockRegistry.LocalRegistry.constructor | src/lib/storage.ts:12-15 | with nothing stored, every list is empty and there is no wallet |
| MockRegistry.LocalRegistry.SaveIPAsset | src/lib/storage.ts:17-21 | appends the asset; the other lists and the wallet are unchanged |
| MockRegistry.LocalRegistry.UpdateIPAsset | src/lib/storage.ts:39-46 | the asset list becomes `AssetsAfterUpdate` of the old one; nothing else changes |
| MockRegistry.LocalRegistry.SaveLicense | src/lib/storage.ts:54-66 | the license list becomes `LicensesAfterSave` of the old one; nothing else changes |
| MockRegistry.LocalRegistry.SavePurchasedLicense | src/lib/storage.ts:88-92 | appends the purchase; nothing else changes |
| MockRegistry.LocalRegistry.SaveWallet | src/lib/storage.ts:106-108 | stores the wallet entry, which then reads back with the address |
| MockRegistry.LocalRegistry.ClearWallet | src/lib/storage.ts:110-112 | removes the entry; the wallet then reads as absent |
| MockRegistry.LocalRegistry.Wallet | src/lib/storage.ts:101-104 | `getWallet` on the current entry; SaveWallet and ClearWallet state what it reads after each |

## Left out

- Network, DNS and time are inputs. DNS resolution, `fetch`, the ten-second timeouts and the
  reading of response bodies are not performed. They are the functions of the `Network` value,
  and reading a body either gives a value or fails with a message. The file check sees the body
  as the already-parsed `verification` member: a string, or something else.
- `randomUUID()` and `new Date()` are parameters (`uuid`, `now`). `toISOString` is not modelled:
  the GET answer carries the stored timestamp value.
- Text handling covers ASCII only. `toLowerCase` and the `i` flag of the meta-tag pattern
  fold ASCII letters only. The regular expressions are read over characters, not UTF-16
  code units.
- The JSON reader handles only one-member objects of string values. It does not read
  surrogate-pair `\u` escapes. It is used to state round trips of the documents the code
  writes. It is not a full `JSON.parse`.
- RegisterRoute.NumberKey reads only optionally signed decimal digit strings, with JavaScript
  white space around them. Other numerals that `Number()` accepts (`1.0`, `0x10`, `1e1`,
  `Infinity`) are treated as unknown ids.
- SiteStore.Merge and MockRegistry.MergeAsset: a patch field is either named with a value or
  absent. A JavaScript spread also copies a field that is present with the value `undefined`,
  which blanks the stored field. No caller in these files passes such a patch.
- SiteStore.UpdateKeepsIdsMatchingKeys: `update` can overwrite a record's `siteId` with a
  patch. The invariant that ids equal keys is therefore proved only for patches that leave
  `siteId` alone, which is how the endpoints use it.
- RegisterRoute.PendingRegistrationReturned: the existing registration is returned with its
  own wallet and token. This holds even when the caller gave another wallet. The model keeps
  this behaviour.
- The scheme of the page and file URLs is `http` for any domain that contains the text
  `localhost`. A registered domain can contain it (`localhost.example.com`,
  `mylocalhost.io`), and the source then fetches it over `http`; the model keeps this. Only a
  bare dotless `localhost` is refused at registration (AddressPatterns.DotlessNameInvalid).
- Each request is one atomic step on the store. In the source, the verification `POST` awaits
  the network between `siteStorage.get` (src/app/api/owner/verify/route.ts:148) and
  `siteStorage.update` (line 178), so other requests can run in between. The model does not
  interleave them. This loses nothing observable here: no path changes a stored record's
  domain or token or deletes a record, `update` re-reads the current record, and the answer
  uses only `siteId` and the check's details.
- Request parsing is not modelled. A request body that cannot be read is the
  `UnreadableBody`/`RegisterUnreadable` case, answered 500. JSON field types are the
  `SiteIdField`, `MethodField` and `TextField` variants.
- The mock registry keeps the parsed lists and the wallet entry, not their JSON text in
  `localStorage`. The JSON serialisation of the lists is not modelled. Only the wallet entry
  is kept as text, to state its round trip.
- MockRegistry.ReadWallet reads a stored entry that is not a one-member object as no wallet.
  Only `saveWallet` writes that key.
- The rest of the application is not part of this model:
  - the user interface pages and components;
  - the mock web3 and IPFS helpers;
  - the wallet context;
  - the scraper bot, market and license pages.
- Logging with `console.error` is not modelled.
