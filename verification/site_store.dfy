/**
 * The in-memory site registration store of the API routes (`SiteRegistrationStorage`):
 * a map from site id to registration, kept in the insertion order a JavaScript `Map`
 * iterates in, and a counter that hands out site ids.
 *
 * The pure functions on `StoreState` say what each operation does to the whole store; the
 * class `SiteRegistrationStorage` is the mutable object, and each of its methods is proved
 * to act on its state as the matching function says.
 */
module SiteStore {
  import opened Wrappers
  import opened Text

  /** `createdAt`: the instant of creation, opaque to the model. */
  type Timestamp = nat

  datatype SiteRegistration = SiteRegistration(
    siteId: int,
    domain: string,
    ownerWallet: string,
    verificationToken: string,
    createdAt: Timestamp,
    verified: bool)

  /** `Partial<SiteRegistration>`: the fields an update overwrites. */
  datatype RegistrationPatch = RegistrationPatch(
    siteId: Option<int>,
    domain: Option<string>,
    ownerWallet: Option<string>,
    verificationToken: Option<string>,
    createdAt: Option<Timestamp>,
    verified: Option<bool>)

  /** `{ verified: true }`, the one update the verification endpoint makes. */
  const MarkVerified := RegistrationPatch(None, None, None, None, None, Some(true))

  /** `{ ...registration, ...updates }`: every field the patch names takes the patch's value,
      every other field keeps the record's. */
  function Merge(r: SiteRegistration, p: RegistrationPatch): (m: SiteRegistration)
    ensures && (p.siteId.Some? ==> m.siteId == p.siteId.value)
            && (p.domain.Some? ==> m.domain == p.domain.value)
            && (p.ownerWallet.Some? ==> m.ownerWallet == p.ownerWallet.value)
            && (p.verificationToken.Some? ==> m.verificationToken == p.verificationToken.value)
            && (p.createdAt.Some? ==> m.createdAt == p.createdAt.value)
            && (p.verified.Some? ==> m.verified == p.verified.value)
    ensures && (p.siteId.None? ==> m.siteId == r.siteId)
            && (p.domain.None? ==> m.domain == r.domain)
            && (p.ownerWallet.None? ==> m.ownerWallet == r.ownerWallet)
            && (p.verificationToken.None? ==> m.verificationToken == r.verificationToken)
            && (p.createdAt.None? ==> m.createdAt == r.createdAt)
            && (p.verified.None? ==> m.verified == r.verified)
  {
    SiteRegistration(
      Pick(p.siteId, r.siteId), Pick(p.domain, r.domain), Pick(p.ownerWallet, r.ownerWallet),
      Pick(p.verificationToken, r.verificationToken), Pick(p.createdAt, r.createdAt),
      Pick(p.verified, r.verified))
  }

  /** The whole store: the map, the order its keys were first set in, and the next id. */
  datatype StoreState = StoreState(
    registrations: map<int, SiteRegistration>,
    order: seq<int>,
    nextSiteId: int)

  const EmptyStore := StoreState(map[], [], 1)

  /** What the store keeps true: ids are positive and below the counter, and the order lists
      every key exactly once. */
  predicate Consistent(st: StoreState)
  {
    && 1 <= st.nextSiteId
    && (forall id | id in st.registrations :: 1 <= id < st.nextSiteId)
    && (forall i | 0 <= i < |st.order| :: st.order[i] in st.registrations)
    && (forall id | id in st.registrations :: id in st.order)
    && (forall i, j | 0 <= i < j < |st.order| :: st.order[i] != st.order[j])
  }

  lemma EmptyStoreConsistent()
    ensures Consistent(EmptyStore)
  {
  }

  /** `get(siteId)`: the record stored under the id, `undefined` when there is none. */
  function Lookup(st: StoreState, siteId: int): (r: Option<SiteRegistration>)
    ensures r.Some? <==> siteId in st.registrations
    ensures r.Some? ==> r.value == st.registrations[siteId]
  {
    if siteId in st.registrations then Some(st.registrations[siteId]) else None
  }

  /** `create(domain, ownerWallet, verificationToken)` at instant `now`: the new store and the
      new registration. */
  function Created(st: StoreState, domain: string, ownerWallet: string, token: string, now: Timestamp)
    : (res: (StoreState, SiteRegistration))
    ensures Consistent(st) ==> Consistent(res.0)
  {
    var id := st.nextSiteId;
    var reg := SiteRegistration(id, Lower(domain), Lower(ownerWallet), token, now, false);
    (StoreState(st.registrations[id := reg], st.order + [id], id + 1), reg)
  }

  /** `update(siteId, updates)`: the new store and the merged record, or the unchanged
      store and `None` for an unknown id. */
  function Updated(st: StoreState, siteId: int, patch: RegistrationPatch)
    : (res: (StoreState, Option<SiteRegistration>))
    ensures Consistent(st) ==> Consistent(res.0)
  {
    if siteId !in st.registrations then (st, None)
    else
      var merged := Merge(st.registrations[siteId], patch);
      (st.(registrations := st.registrations[siteId := merged]), Some(merged))
  }

  /**
   * `getAll()`: the records in the map's iteration order. The ensures clauses are the
   * definition itself, written pointwise for callers; AllRecordsOnePerId states what the
   * list means (as many records as stored ids, and every stored record among them).
   */
  function AllRecords(st: StoreState): (all: seq<SiteRegistration>)
    requires Consistent(st)
    ensures |all| == |st.order|
    ensures forall i | 0 <= i < |all| :: all[i] == st.registrations[st.order[i]]
  {
    seq(|st.order|, i requires 0 <= i < |st.order| => st.registrations[st.order[i]])
  }

  /** The first record at or after position `i` of the iteration order whose stored domain
      is `normalized`. */
  function FirstWithDomainFrom(st: StoreState, normalized: string, i: nat): (r: Option<SiteRegistration>)
    requires Consistent(st) && i <= |st.order|
    ensures r.None? ==> forall k | i <= k < |st.order| :: st.registrations[st.order[k]].domain != normalized
    ensures r.Some? ==>
      exists k :: i <= k < |st.order| && st.registrations[st.order[k]] == r.value &&
        r.value.domain == normalized &&
        forall j | i <= j < k :: st.registrations[st.order[j]].domain != normalized
    decreases |st.order| - i
  {
    if i == |st.order| then None
    else if st.registrations[st.order[i]].domain == normalized then Some(st.registrations[st.order[i]])
    else FirstWithDomainFrom(st, normalized, i + 1)
  }

  /** `findByDomain(domain)`. */
  function FirstWithDomain(st: StoreState, domain: string): (r: Option<SiteRegistration>)
    requires Consistent(st)
    ensures r.None? <==> forall k | 0 <= k < |st.order| :: st.registrations[st.order[k]].domain != Lower(domain)
    ensures r.Some? ==> r.value.domain == Lower(domain)
  {
    FirstWithDomainFrom(st, Lower(domain), 0)
  }

  // ---------------------------------------------------------------- properties

  /** `create` hands out the counter's value, which no stored record has, and moves the
      counter past it. */
  lemma CreateAllocatesFreshId(st: StoreState, domain: string, ownerWallet: string, token: string, now: Timestamp)
    requires Consistent(st)
    ensures var (st', reg) := Created(st, domain, ownerWallet, token, now);
      && reg.siteId == st.nextSiteId && reg.siteId !in st.registrations
      && st'.nextSiteId == reg.siteId + 1
      && (forall id | id in st.registrations :: id < reg.siteId)
      && st'.registrations.Keys == st.registrations.Keys + {reg.siteId}
      && |st'.registrations| == |st.registrations| + 1
  {
  }

  /** `create` stores the domain and wallet lower-cased, the token as given, and the record
      unverified. */
  lemma CreateNormalizes(st: StoreState, domain: string, ownerWallet: string, token: string, now: Timestamp)
    ensures var reg := Created(st, domain, ownerWallet, token, now).1;
      && reg.domain == Lower(domain) && IsLowerCase(reg.domain)
      && reg.ownerWallet == Lower(ownerWallet) && IsLowerCase(reg.ownerWallet)
      && reg.verificationToken == token && reg.createdAt == now && !reg.verified
  {
    LowerIsLowerCase(domain);
    LowerIsLowerCase(ownerWallet);
  }

  /** After `create`, `get` of the new id is the new record and every other id reads as
      before. */
  lemma GetAfterCreate(st: StoreState, domain: string, ownerWallet: string, token: string, now: Timestamp, other: int)
    requires Consistent(st)
    ensures var (st', reg) := Created(st, domain, ownerWallet, token, now);
      && Lookup(st', reg.siteId) == Some(reg)
      && (other != reg.siteId ==> Lookup(st', other) == Lookup(st, other))
  {
  }

  /** Two creates in a row give strictly increasing ids, so no id is handed out twice. */
  lemma SuccessiveCreatesIncrease(st: StoreState, d1: string, w1: string, t1: string, n1: Timestamp,
                                  d2: string, w2: string, t2: string, n2: Timestamp)
    requires Consistent(st)
    ensures var (st1, r1) := Created(st, d1, w1, t1, n1);
      var (st2, r2) := Created(st1, d2, w2, t2, n2);
      r1.siteId < r2.siteId && r2.siteId !in st1.registrations && Lookup(st2, r1.siteId) == Some(r1)
  {
    CreateAllocatesFreshId(st, d1, w1, t1, n1);
    var (st1, r1) := Created(st, d1, w1, t1, n1);
    CreateAllocatesFreshId(st1, d2, w2, t2, n2);
  }

  /** `get` and `update` of an unknown id give `undefined`, and the update changes nothing. */
  lemma UnknownId(st: StoreState, siteId: int, patch: RegistrationPatch)
    requires siteId !in st.registrations
    ensures Lookup(st, siteId) == None
    ensures Updated(st, siteId, patch) == (st, None)
  {
  }

  /** `update` replaces the one record at the id by the merge of the patch into it; the other
      entries, the order and the counter stay as they were. */
  lemma UpdateMerges(st: StoreState, siteId: int, patch: RegistrationPatch, other: int)
    requires siteId in st.registrations
    ensures var (st', r) := Updated(st, siteId, patch);
      var old_ := st.registrations[siteId];
      && r == Some(Merge(old_, patch)) && Lookup(st', siteId) == r
      && st'.order == st.order && st'.nextSiteId == st.nextSiteId
      && st'.registrations.Keys == st.registrations.Keys
      && (other != siteId ==> Lookup(st', other) == Lookup(st, other))
  {
  }

  /** Marking a record verified changes its flag and nothing else about it. */
  lemma MarkVerifiedOnlySetsFlag(r: SiteRegistration)
    ensures Merge(r, MarkVerified) == r.(verified := true)
  {
  }

  /** Every record sits under its own `siteId`. `create` keeps this, and so does an `update`
      that leaves `siteId` alone; `update` itself accepts a patch that changes it. */
  predicate IdsMatchKeys(st: StoreState)
  {
    forall id | id in st.registrations :: st.registrations[id].siteId == id
  }

  lemma CreateKeepsIdsMatchingKeys(st: StoreState, domain: string, ownerWallet: string, token: string, now: Timestamp)
    requires IdsMatchKeys(st)
    ensures IdsMatchKeys(Created(st, domain, ownerWallet, token, now).0)
  {
  }

  lemma UpdateKeepsIdsMatchingKeys(st: StoreState, siteId: int, patch: RegistrationPatch)
    requires IdsMatchKeys(st)
    requires patch.siteId.None? || patch.siteId == Some(siteId)
    ensures IdsMatchKeys(Updated(st, siteId, patch).0)
  {
  }

  /** What `findByDomain` finds is stored under its own id, when ids match keys. */
  lemma FoundIsStored(st: StoreState, domain: string)
    requires Consistent(st) && IdsMatchKeys(st)
    requires FirstWithDomain(st, domain).Some?
    ensures var r := FirstWithDomain(st, domain).value;
      r.siteId in st.registrations && st.registrations[r.siteId] == r && r.domain == Lower(domain)
  {
    FindByDomainFirst(st, domain);
    var r := FirstWithDomain(st, domain).value;
    var k :| 0 <= k < |st.order| && st.registrations[st.order[k]] == r && r.domain == Lower(domain) &&
      forall j | 0 <= j < k :: st.registrations[st.order[j]].domain != Lower(domain);
    assert st.order[k] in st.registrations;
  }

  /** `findByDomain` finds a record exactly when some stored domain equals the lower-cased
      query, and then it is the first such record in insertion order. */
  lemma FindByDomainFirst(st: StoreState, domain: string)
    requires Consistent(st)
    ensures FirstWithDomain(st, domain).None? <==>
      forall id | id in st.registrations :: st.registrations[id].domain != Lower(domain)
    ensures FirstWithDomain(st, domain).Some? ==>
      (exists k :: 0 <= k < |st.order| && st.registrations[st.order[k]] == FirstWithDomain(st, domain).value
        && FirstWithDomain(st, domain).value.domain == Lower(domain)
        && forall j | 0 <= j < k :: st.registrations[st.order[j]].domain != Lower(domain))
  {
    var r := FirstWithDomain(st, domain);
    if r.None? {
      forall id | id in st.registrations
        ensures st.registrations[id].domain != Lower(domain)
      {
        var k :| 0 <= k < |st.order| && st.order[k] == id;
      }
    }
  }

  /** A domain registered into a store that had no record for it is found again. */
  lemma FindAfterCreate(st: StoreState, domain: string, ownerWallet: string, token: string, now: Timestamp)
    requires Consistent(st)
    requires FirstWithDomain(st, domain).None?
    ensures var (st', reg) := Created(st, domain, ownerWallet, token, now);
      FirstWithDomain(st', domain) == Some(reg)
  {
    var (st', reg) := Created(st, domain, ownerWallet, token, now);
    FindByDomainFirst(st, domain);
    var n := |st.order|;
    assert st'.order[n] == reg.siteId;
    forall k | 0 <= k < n
      ensures st'.registrations[st'.order[k]].domain != Lower(domain)
    {
      assert st'.order[k] == st.order[k];
      assert st.order[k] in st.registrations;
    }
    FirstWithDomainSkips(st', Lower(domain), 0, n);
  }

  /** Creating a record never changes what `findByDomain` finds for a domain that already had
      one: the earlier record stays first in insertion order. */
  lemma FindUnchangedByCreate(st: StoreState, domain: string, d: string, w: string, token: string, now: Timestamp)
    requires Consistent(st)
    requires FirstWithDomain(st, domain).Some?
    ensures FirstWithDomain(Created(st, d, w, token, now).0, domain) == FirstWithDomain(st, domain)
  {
    var st' := Created(st, d, w, token, now).0;
    var r := FirstWithDomain(st, domain).value;
    FindByDomainFirst(st, domain);
    var k :| 0 <= k < |st.order| && st.registrations[st.order[k]] == r && r.domain == Lower(domain) &&
      forall j | 0 <= j < k :: st.registrations[st.order[j]].domain != Lower(domain);
    forall j | 0 <= j <= k
      ensures st'.registrations[st'.order[j]] == st.registrations[st.order[j]]
    {
      assert st'.order[j] == st.order[j];
      assert st.order[j] in st.registrations;
    }
    FirstWithDomainSkips(st', Lower(domain), 0, k);
  }

  lemma {:induction false} FirstWithDomainSkips(st: StoreState, normalized: string, i: nat, n: nat)
    requires Consistent(st) && i <= n < |st.order|
    requires forall k | i <= k < n :: st.registrations[st.order[k]].domain != normalized
    requires st.registrations[st.order[n]].domain == normalized
    ensures FirstWithDomainFrom(st, normalized, i) == Some(st.registrations[st.order[n]])
    decreases n - i
  {
    var here := st.registrations[st.order[i]];
    if i < n {
      assert here.domain != normalized;
      assert FirstWithDomainFrom(st, normalized, i) == FirstWithDomainFrom(st, normalized, i + 1);
      FirstWithDomainSkips(st, normalized, i + 1, n);
    } else {
      assert here.domain == normalized;
    }
  }

  lemma {:induction false} DistinctCard(s: seq<int>)
    requires forall i, j | 0 <= i < j < |s| :: s[i] != s[j]
    ensures |set x | x in s| == |s|
  {
    if s != [] {
      var t := s[1..];
      DistinctCard(t);
      assert (set x | x in s) == (set x | x in t) + {s[0]};
      assert s[0] !in t;
    }
  }

  /** `getAll` returns one record per stored id: as many records as ids, each id's record
      among them. */
  lemma AllRecordsOnePerId(st: StoreState)
    requires Consistent(st)
    ensures |AllRecords(st)| == |st.registrations|
    ensures forall id | id in st.registrations :: st.registrations[id] in AllRecords(st)
  {
    DistinctCard(st.order);
    assert forall x :: x in st.order <==> x in st.registrations;
    assert (set x | x in st.order) == st.registrations.Keys;
    forall id | id in st.registrations
      ensures st.registrations[id] in AllRecords(st)
    {
      var k :| 0 <= k < |st.order| && st.order[k] == id;
      assert AllRecords(st)[k] == st.registrations[id];
    }
  }

  // ---------------------------------------------------------------- the mutable store

  class SiteRegistrationStorage {
    var registrations: map<int, SiteRegistration>
    /** The iteration order of the JavaScript `Map`: the order in which keys were first set. */
    var order: seq<int>
    var nextSiteId: int

    function State(): StoreState
      reads this
    {
      StoreState(registrations, order, nextSiteId)
    }

    ghost predicate Valid()
      reads this
    {
      Consistent(State())
    }

    constructor ()
      ensures Valid() && State() == EmptyStore
    {
      registrations := map[];
      order := [];
      nextSiteId := 1;
    }

    method Create(domain: string, ownerWallet: string, verificationToken: string, now: Timestamp)
      returns (reg: SiteRegistration)
      requires Valid()
      modifies this
      ensures Valid()
      ensures (State(), reg) == Created(old(State()), domain, ownerWallet, verificationToken, now)
    {
      var siteId := nextSiteId;
      nextSiteId := nextSiteId + 1;
      reg := SiteRegistration(siteId, Lower(domain), Lower(ownerWallet), verificationToken, now, false);
      registrations := registrations[siteId := reg];
      order := order + [siteId];
    }

    method Get(siteId: int) returns (r: Option<SiteRegistration>)
      ensures r.Some? <==> siteId in registrations
      ensures r.Some? ==> r.value == registrations[siteId]
    {
      if siteId in registrations {
        r := Some(registrations[siteId]);
      } else {
        r := None;
      }
    }

    method FindByDomain(domain: string) returns (r: Option<SiteRegistration>)
      requires Valid()
      ensures r == FirstWithDomain(State(), domain)
      ensures r.Some? ==> r.value.domain == Lower(domain)
      ensures r.None? <==> forall id | id in registrations :: registrations[id].domain != Lower(domain)
    {
      ghost var st := State();
      FindByDomainFirst(st, domain);
      var normalized := Lower(domain);
      var i := 0;
      while i < |order|
        invariant 0 <= i <= |order|
        invariant FirstWithDomainFrom(st, normalized, i) == FirstWithDomain(st, domain)
      {
        var registration := registrations[order[i]];
        if registration.domain == normalized {
          return Some(registration);
        }
        i := i + 1;
      }
      return None;
    }

    method Update(siteId: int, updates: RegistrationPatch) returns (r: Option<SiteRegistration>)
      requires Valid()
      modifies this
      ensures Valid()
      ensures (State(), r) == Updated(old(State()), siteId, updates)
    {
      if siteId !in registrations {
        return None;
      }
      var updated := Merge(registrations[siteId], updates);
      registrations := registrations[siteId := updated];
      r := Some(updated);
    }

    method GetAll() returns (all: seq<SiteRegistration>)
      requires Valid()
      ensures all == AllRecords(State())
      ensures |all| == |registrations|
      ensures forall id | id in registrations :: registrations[id] in all
    {
      AllRecordsOnePerId(State());
      var keys, records := order, registrations;
      all := seq(|keys|, i requires 0 <= i < |keys| && keys[i] in records => records[keys[i]]);
    }
  }
}
