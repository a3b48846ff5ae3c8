/**
 * The browser-side mock registry: IP assets, their licenses, purchased licenses and the
 * connected wallet, each list kept under its own local-storage key.
 *
 * Every operation of the registry re-reads its list, changes it and writes it back, so the
 * registry is modelled as an object holding the stored lists (`assets`, `licenses`,
 * `purchases`) and the wallet entry as the text stored under its key. The queries are
 * functions of a stored list; the writes are methods proved against them.
 */
module MockRegistry {
  import opened Wrappers
  import opened Text
  import JsonText

  datatype AssetType = Website | Content

  datatype LicenseType = Scrape | Train

  /** The text a license type is stored as, and the text `getLicense` compares with. */
  function LicenseTypeName(t: LicenseType): (name: string)
    ensures name == "scrape" || name == "train"
    ensures (name == "scrape") == t.Scrape?
  {
    match t
    case Scrape => "scrape"
    case Train => "train"
  }

  datatype IPAsset = IPAsset(
    id: string,
    ipId: string,
    assetType: AssetType,
    title: string,
    description: string,
    domain: Option<string>,
    contentUrl: Option<string>,
    metadataUri: string,
    ownerAddress: string,
    verified: bool,
    createdAt: string)

  /** A partial asset: `None` is a field the update does not name; the optional fields
      `domain` and `contentUrl` can also be named with no value, which clears them. */
  datatype AssetPatch = AssetPatch(
    id: Option<string>,
    ipId: Option<string>,
    assetType: Option<AssetType>,
    title: Option<string>,
    description: Option<string>,
    domain: Option<Option<string>>,
    contentUrl: Option<Option<string>>,
    metadataUri: Option<string>,
    ownerAddress: Option<string>,
    verified: Option<bool>,
    createdAt: Option<string>)

  const NoChanges := AssetPatch(None, None, None, None, None, None, None, None, None, None, None)

  datatype License = License(
    id: string,
    ipId: string,
    licenseType: LicenseType,
    enabled: bool,
    price: string,
    paymentToken: string,
    termsUri: string,
    receiverAddress: string,
    createdAt: string)

  datatype PurchasedLicense = PurchasedLicense(
    id: string,
    licenseId: string,
    ipId: string,
    licenseType: LicenseType,
    buyerAddress: string,
    txHash: string,
    purchasedAt: string)

  datatype WalletRecord = WalletRecord(address: string)

  /** The spread `{ ...asset, ...patch }`: every field the patch names takes the patch's value,
      every other field keeps the asset's. */
  function MergeAsset(a: IPAsset, p: AssetPatch): (m: IPAsset)
    ensures && (p.id.Some? ==> m.id == p.id.value)
            && (p.ipId.Some? ==> m.ipId == p.ipId.value)
            && (p.assetType.Some? ==> m.assetType == p.assetType.value)
            && (p.title.Some? ==> m.title == p.title.value)
            && (p.description.Some? ==> m.description == p.description.value)
            && (p.domain.Some? ==> m.domain == p.domain.value)
            && (p.contentUrl.Some? ==> m.contentUrl == p.contentUrl.value)
            && (p.metadataUri.Some? ==> m.metadataUri == p.metadataUri.value)
            && (p.ownerAddress.Some? ==> m.ownerAddress == p.ownerAddress.value)
            && (p.verified.Some? ==> m.verified == p.verified.value)
            && (p.createdAt.Some? ==> m.createdAt == p.createdAt.value)
    ensures && (p.id.None? ==> m.id == a.id)
            && (p.ipId.None? ==> m.ipId == a.ipId)
            && (p.assetType.None? ==> m.assetType == a.assetType)
            && (p.title.None? ==> m.title == a.title)
            && (p.description.None? ==> m.description == a.description)
            && (p.domain.None? ==> m.domain == a.domain)
            && (p.contentUrl.None? ==> m.contentUrl == a.contentUrl)
            && (p.metadataUri.None? ==> m.metadataUri == a.metadataUri)
            && (p.ownerAddress.None? ==> m.ownerAddress == a.ownerAddress)
            && (p.verified.None? ==> m.verified == a.verified)
            && (p.createdAt.None? ==> m.createdAt == a.createdAt)
  {
    IPAsset(
      Pick(p.id, a.id),
      Pick(p.ipId, a.ipId),
      Pick(p.assetType, a.assetType),
      Pick(p.title, a.title),
      Pick(p.description, a.description),
      Pick(p.domain, a.domain),
      Pick(p.contentUrl, a.contentUrl),
      Pick(p.metadataUri, a.metadataUri),
      Pick(p.ownerAddress, a.ownerAddress),
      Pick(p.verified, a.verified),
      Pick(p.createdAt, a.createdAt))
  }

  /** Merging the empty patch leaves the asset as it was, and merging a patch that names
      only `verified` sets that flag and nothing else. */
  lemma MergeOnlyNamedFields(a: IPAsset, verified: bool)
    ensures MergeAsset(a, NoChanges) == a
    ensures MergeAsset(a, NoChanges.(verified := Some(verified))) == a.(verified := verified)
  {
  }

  // ---------------------------------------------------------------- array built-ins

  /** `Array.prototype.filter`. */
  function Filter<T>(s: seq<T>, p: T -> bool): (r: seq<T>)
    ensures |r| <= |s|
    ensures forall i | 0 <= i < |r| :: r[i] in s && p(r[i])
    ensures forall i | 0 <= i < |s| && p(s[i]) :: s[i] in r
  {
    if s == [] then [] else (if p(s[0]) then [s[0]] else []) + Filter(s[1..], p)
  }

  /** Filtering keeps the order of the list: it distributes over concatenation. */
  lemma {:induction false} FilterAppend<T>(a: seq<T>, b: seq<T>, p: T -> bool)
    ensures Filter(a + b, p) == Filter(a, p) + Filter(b, p)
  {
    if a == [] {
      assert a + b == b;
    } else {
      assert (a + b)[0] == a[0];
      assert (a + b)[1..] == a[1..] + b;
      FilterAppend(a[1..], b, p);
    }
  }

  /** A list that grows by one element filters to the old result, extended by that element
      when it passes. */
  lemma FilterPush<T>(s: seq<T>, x: T, p: T -> bool)
    ensures Filter(s + [x], p) == Filter(s, p) + (if p(x) then [x] else [])
  {
    FilterAppend(s, [x], p);
    assert [x][1..] == [];
  }

  /** `Array.prototype.findIndex`, with `-1` as `None`. */
  function FindIndex<T>(s: seq<T>, p: T -> bool): (r: Option<nat>)
    ensures r.Some? ==> r.value < |s| && p(s[r.value])
    ensures r.Some? ==> forall j | 0 <= j < r.value :: !p(s[j])
    ensures r.None? <==> forall j | 0 <= j < |s| :: !p(s[j])
  {
    if s == [] then None
    else if p(s[0]) then Some(0)
    else match FindIndex(s[1..], p)
      case Some(i) => Some(i + 1)
      case None => None
  }

  /** `Array.prototype.find`: the first element that passes. */
  function Find<T>(s: seq<T>, p: T -> bool): (r: Option<T>)
    ensures r.Some? ==> r.value in s && p(r.value)
    ensures r.Some? ==> exists i | 0 <= i < |s| :: s[i] == r.value && p(s[i]) && forall j | 0 <= j < i :: !p(s[j])
    ensures r.None? <==> forall j | 0 <= j < |s| :: !p(s[j])
  {
    match FindIndex(s, p)
    case Some(i) => Some(s[i])
    case None => None
  }

  /** Lists that agree on `p` over the shorter one, where the longer has no further match,
      have the same first match. */
  lemma FindIndexAgrees<T>(s: seq<T>, t: seq<T>, p: T -> bool)
    requires |s| <= |t|
    requires forall j | 0 <= j < |s| :: p(s[j]) == p(t[j])
    requires forall j | |s| <= j < |t| :: !p(t[j])
    ensures FindIndex(s, p) == FindIndex(t, p)
  {
  }

  /** The first match in a list that grows by one element is the old first match, or else the
      new element when it matches. */
  lemma FindPush<T>(s: seq<T>, x: T, p: T -> bool)
    ensures Find(s + [x], p) == if Find(s, p).Some? then Find(s, p) else if p(x) then Some(x) else None
  {
    var t := s + [x];
    if FindIndex(s, p).Some? {
      FindIndexAgrees(s, t[..|s|], p);
      assert t[..|s|] == s;
      var i := FindIndex(s, p).value;
      assert FindIndex(t, p) == Some(i) by {
        assert p(t[i]);
      }
    } else if p(x) {
      assert FindIndex(t, p) == Some(|s|) by {
        assert t[|s|] == x;
      }
    } else {
      assert forall j | 0 <= j < |t| :: !p(t[j]) by {
        forall j | 0 <= j < |t|
          ensures !p(t[j])
        {
          if j < |s| {
            assert t[j] == s[j];
          }
        }
      }
    }
  }

  // ---------------------------------------------------------------- asset queries

  function OwnedBy(owner: string): IPAsset -> bool
  {
    (a: IPAsset) => Lower(a.ownerAddress) == Lower(owner)
  }

  function ServesDomain(domain: string): IPAsset -> bool
  {
    (a: IPAsset) => a.domain.Some? && Lower(a.domain.value) == Lower(domain)
  }

  function HasId(id: string): IPAsset -> bool
  {
    (a: IPAsset) => a.id == id
  }

  function HasIpId(ipId: string): IPAsset -> bool
  {
    (a: IPAsset) => a.ipId == ipId
  }

  /** `getIPAssetsByOwner`: the assets whose owner address equals `owner` ignoring case. */
  function AssetsOwnedBy(assets: seq<IPAsset>, owner: string): (r: seq<IPAsset>)
    ensures forall a :: a in r <==> a in assets && Lower(a.ownerAddress) == Lower(owner)
  {
    Filter(assets, OwnedBy(owner))
  }

  /** `getIPAssetByDomain`: the first asset whose domain equals `domain` ignoring case; an asset
      without a domain never matches. */
  function AssetByDomain(assets: seq<IPAsset>, domain: string): (r: Option<IPAsset>)
    ensures r.Some? ==> r.value in assets && r.value.domain.Some? && Lower(r.value.domain.value) == Lower(domain)
    ensures r.Some? ==> exists i | 0 <= i < |assets| ::
      && assets[i] == r.value
      && forall j | 0 <= j < i :: assets[j].domain.None? || Lower(assets[j].domain.value) != Lower(domain)
    ensures r.None? <==> forall a | a in assets :: a.domain.None? || Lower(a.domain.value) != Lower(domain)
  {
    var r := Find(assets, ServesDomain(domain));
    assert r.None? ==> forall a | a in assets :: !ServesDomain(domain)(a);
    r
  }

  /** `getIPAssetById`. */
  function AssetById(assets: seq<IPAsset>, id: string): (r: Option<IPAsset>)
    ensures r.Some? ==> r.value in assets && r.value.id == id
    ensures r.Some? ==> exists i | 0 <= i < |assets| :: assets[i] == r.value && forall j | 0 <= j < i :: assets[j].id != id
    ensures r.None? <==> forall a | a in assets :: a.id != id
  {
    var r := Find(assets, HasId(id));
    assert r.None? ==> forall a | a in assets :: !HasId(id)(a);
    r
  }

  /** `getIPAssetByIpId`. */
  function AssetByIpId(assets: seq<IPAsset>, ipId: string): (r: Option<IPAsset>)
    ensures r.Some? ==> r.value in assets && r.value.ipId == ipId
    ensures r.Some? ==> exists i | 0 <= i < |assets| :: assets[i] == r.value && forall j | 0 <= j < i :: assets[j].ipId != ipId
    ensures r.None? <==> forall a | a in assets :: a.ipId != ipId
  {
    var r := Find(assets, HasIpId(ipId));
    assert r.None? ==> forall a | a in assets :: !HasIpId(ipId)(a);
    r
  }

  /** The asset list after `updateIPAsset(id, patch)`. */
  function AssetsAfterUpdate(assets: seq<IPAsset>, id: string, patch: AssetPatch): (r: seq<IPAsset>)
    ensures |r| == |assets|
    ensures forall i | 0 <= i < |assets| && assets[i].id != id :: r[i] == assets[i]
  {
    match FindIndex(assets, HasId(id))
    case Some(i) => assets[i := MergeAsset(assets[i], patch)]
    case None => assets
  }

  /** An update merges the patch into the first asset with the id, and into no other: every
      other position keeps its asset, and with no such asset the list is unchanged. */
  lemma UpdateChangesFirstMatchOnly(assets: seq<IPAsset>, id: string, patch: AssetPatch)
    ensures var r := AssetsAfterUpdate(assets, id, patch);
      && |r| == |assets|
      && ((forall a | a in assets :: a.id != id) ==> r == assets)
    ensures var r := AssetsAfterUpdate(assets, id, patch);
      forall i | 0 <= i < |assets| && assets[i].id == id && (forall j | 0 <= j < i :: assets[j].id != id) ::
        r == assets[i := MergeAsset(assets[i], patch)]
  {
    var r := AssetsAfterUpdate(assets, id, patch);
    if (forall a | a in assets :: a.id != id) {
      assert FindIndex(assets, HasId(id)).None?;
    }
    forall i | 0 <= i < |assets| && assets[i].id == id && (forall j | 0 <= j < i :: assets[j].id != id)
      ensures r == assets[i := MergeAsset(assets[i], patch)]
    {
      assert HasId(id)(assets[i]);
    }
  }

  /** After an update that keeps the id, looking the id up gives the merged first asset. */
  lemma GetAfterUpdate(assets: seq<IPAsset>, id: string, patch: AssetPatch)
    requires patch.id.None? || patch.id == Some(id)
    ensures AssetById(AssetsAfterUpdate(assets, id, patch), id) ==
      match AssetById(assets, id)
      case Some(a) => Some(MergeAsset(a, patch))
      case None => None
  {
    var r := AssetsAfterUpdate(assets, id, patch);
    match FindIndex(assets, HasId(id))
    case None =>
    case Some(i) =>
      assert FindIndex(r, HasId(id)) == Some(i) by {
        assert HasId(id)(r[i]);
        assert forall j | 0 <= j < i :: r[j] == assets[j];
      }
  }

  /** Saving an asset appends it: an owner's listing grows by it when the owner matches, and a
      lookup by id finds it only when no earlier asset has the same id. */
  lemma SaveThenQueryAssets(assets: seq<IPAsset>, a: IPAsset, owner: string)
    ensures AssetsOwnedBy(assets + [a], owner) ==
      AssetsOwnedBy(assets, owner) + (if Lower(a.ownerAddress) == Lower(owner) then [a] else [])
    ensures AssetById(assets + [a], a.id) ==
      if AssetById(assets, a.id).Some? then AssetById(assets, a.id) else Some(a)
  {
    FilterPush(assets, a, OwnedBy(owner));
    FindPush(assets, a, HasId(a.id));
  }

  // ---------------------------------------------------------------- licenses

  /** Whether `l` is for the same asset and the same kind of use as `license`. */
  function SameSlot(license: License): License -> bool
  {
    (l: License) => l.ipId == license.ipId && l.licenseType == license.licenseType
  }

  function HasSlot(ipId: string, licenseType: string): License -> bool
  {
    (l: License) => l.ipId == ipId && LicenseTypeName(l.licenseType) == licenseType
  }

  function ForIp(ipId: string): License -> bool
  {
    (l: License) => l.ipId == ipId
  }

  function IsEnabled(l: License): bool { l.enabled }

  /** The license list after `saveLicense(license)`: the license replaces the first one for
      the same asset and type, or is appended when there is none. */
  function LicensesAfterSave(ls: seq<License>, license: License): (r: seq<License>)
    ensures license in r
    ensures |r| == |ls| || |r| == |ls| + 1
    ensures |r| == |ls| <==> exists l | l in ls :: SameSlot(license)(l)
    ensures forall l | l in ls && (l.ipId != license.ipId || l.licenseType != license.licenseType) :: l in r
    ensures match FindIndex(ls, SameSlot(license))
      case Some(k) => |r| == |ls| && r[k] == license && forall j | 0 <= j < |ls| && j != k :: r[j] == ls[j]
      case None => r == ls + [license]
  {
    var k := FindIndex(ls, SameSlot(license));
    if k.Some? then
      var r := ls[k.value := license];
      assert r[k.value] == license;
      assert forall j | 0 <= j < |ls| && j != k.value :: r[j] == ls[j];
      r
    else
      ls + [license]
  }

  /** `getLicense(ipId, licenseType)`. */
  function LicenseFor(ls: seq<License>, ipId: string, licenseType: string): (r: Option<License>)
    ensures r.Some? ==> r.value in ls && r.value.ipId == ipId && LicenseTypeName(r.value.licenseType) == licenseType
    ensures r.Some? ==> exists i | 0 <= i < |ls| ::
      && ls[i] == r.value
      && forall j | 0 <= j < i :: ls[j].ipId != ipId || LicenseTypeName(ls[j].licenseType) != licenseType
    ensures r.None? <==> forall l | l in ls :: l.ipId != ipId || LicenseTypeName(l.licenseType) != licenseType
  {
    var r := Find(ls, HasSlot(ipId, licenseType));
    assert r.None? ==> forall l | l in ls :: !HasSlot(ipId, licenseType)(l);
    r
  }

  /** `getLicensesByIpId`. */
  function LicensesForIp(ls: seq<License>, ipId: string): (r: seq<License>)
    ensures forall l :: l in r <==> l in ls && l.ipId == ipId
  {
    Filter(ls, ForIp(ipId))
  }

  /** `getEnabledLicenses`. */
  function EnabledLicenses(ls: seq<License>): (r: seq<License>)
    ensures forall l :: l in r <==> l in ls && l.enabled
  {
    Filter(ls, IsEnabled)
  }

  /** At most one license per asset and type of use. */
  predicate SlotsUnique(ls: seq<License>)
  {
    forall i, j | 0 <= i < j < |ls| :: !SameSlot(ls[i])(ls[j])
  }

  /** Saving a license makes it the one `getLicense` returns for its asset and type. */
  lemma SaveThenGetLicense(ls: seq<License>, license: License)
    ensures LicenseFor(LicensesAfterSave(ls, license), license.ipId, LicenseTypeName(license.licenseType)) == Some(license)
  {
    var r := LicensesAfterSave(ls, license);
    var p := HasSlot(license.ipId, LicenseTypeName(license.licenseType));
    assert forall l :: p(l) == SameSlot(license)(l);
    match FindIndex(ls, SameSlot(license))
    case Some(i) =>
      assert r[i] == license;
      assert forall j | 0 <= j < i :: r[j] == ls[j];
      assert FindIndex(r, p) == Some(i);
    case None =>
      assert r[|ls|] == license;
      assert forall j | 0 <= j < |ls| :: r[j] == ls[j];
      assert FindIndex(r, p) == Some(|ls|);
  }

  /** Saving a license leaves what `getLicense` returns for every other asset or type. */
  lemma SaveLicenseKeepsOtherSlots(ls: seq<License>, license: License, ipId: string, licenseType: string)
    requires ipId != license.ipId || licenseType != LicenseTypeName(license.licenseType)
    ensures LicenseFor(LicensesAfterSave(ls, license), ipId, licenseType) == LicenseFor(ls, ipId, licenseType)
  {
    var r := LicensesAfterSave(ls, license);
    var p := HasSlot(ipId, licenseType);
    assert !p(license);
    assert forall j | 0 <= j < |ls| :: p(ls[j]) == p(r[j]);
    FindIndexAgrees(ls, r, p);
  }

  /** Saving licenses one at a time never stores two for the same asset and type. */
  lemma SaveLicenseKeepsSlotsUnique(ls: seq<License>, license: License)
    requires SlotsUnique(ls)
    ensures SlotsUnique(LicensesAfterSave(ls, license))
  {
    var r := LicensesAfterSave(ls, license);
    match FindIndex(ls, SameSlot(license))
    case Some(k) =>
      forall i, j | 0 <= i < j < |r|
        ensures !SameSlot(r[i])(r[j])
      {
        if i == k {
          assert !SameSlot(ls[k])(ls[j]);
        } else if j == k {
          assert !SameSlot(ls[i])(ls[k]);
        }
      }
    case None =>
      forall i, j | 0 <= i < j < |r|
        ensures !SameSlot(r[i])(r[j])
      {
        if j == |ls| {
          assert !SameSlot(license)(ls[i]);
        }
      }
  }

  // ---------------------------------------------------------------- purchases

  function BoughtBy(buyer: string): PurchasedLicense -> bool
  {
    (p: PurchasedLicense) => Lower(p.buyerAddress) == Lower(buyer)
  }

  /** `getPurchasedLicensesByBuyer`: the purchases whose buyer equals `buyer` ignoring case. */
  function PurchasesBy(purchases: seq<PurchasedLicense>, buyer: string): (r: seq<PurchasedLicense>)
    ensures forall p :: p in r <==> p in purchases && Lower(p.buyerAddress) == Lower(buyer)
  {
    Filter(purchases, BoughtBy(buyer))
  }

  /** A saved purchase is appended: its buyer's listing ends with it, under any spelling of the
      buyer's address, and every other buyer's listing is unchanged. */
  lemma SaveThenPurchasesBy(purchases: seq<PurchasedLicense>, p: PurchasedLicense, buyer: string)
    ensures PurchasesBy(purchases + [p], buyer) ==
      PurchasesBy(purchases, buyer) + (if Lower(p.buyerAddress) == Lower(buyer) then [p] else [])
  {
    FilterPush(purchases, p, BoughtBy(buyer));
  }

  // ---------------------------------------------------------------- wallet

  /** The text `saveWallet(address)` stores. */
  function WalletEntry(address: string): string
  {
    JsonText.CompactMemberDocument("address", address)
  }

  /** `getWallet` on the stored entry: a missing or empty entry is no wallet. */
  function ReadWallet(entry: Option<string>): (r: Option<WalletRecord>)
    ensures entry.None? || entry == Some("") ==> r.None?
  {
    match entry
    case None => None
    case Some(text) =>
      if text == "" then None
      else match JsonText.SingleMember(text)
        case Some((name, value)) => if name == "address" then Some(WalletRecord(value)) else None
        case None => None
  }

  /** A saved wallet reads back with the address it was saved with. */
  lemma WalletRoundTrip(address: string)
    ensures ReadWallet(Some(WalletEntry(address))) == Some(WalletRecord(address))
  {
    JsonText.CompactMemberDocumentRoundTrip("address", address);
  }

  // ---------------------------------------------------------------- the registry

  class LocalRegistry {
    var assets: seq<IPAsset>
    var licenses: seq<License>
    var purchases: seq<PurchasedLicense>
    var walletEntry: Option<string>

    /** Nothing stored yet: every list reads as empty and there is no wallet. */
    constructor()
      ensures assets == [] && licenses == [] && purchases == []
      ensures walletEntry == None
    {
      assets := [];
      licenses := [];
      purchases := [];
      walletEntry := None;
    }

    /** `saveIPAsset`. */
    method SaveIPAsset(asset: IPAsset)
      modifies this
      ensures assets == old(assets) + [asset]
      ensures licenses == old(licenses) && purchases == old(purchases) && walletEntry == old(walletEntry)
    {
      assets := assets + [asset];
    }

    /** `updateIPAsset`. */
    method UpdateIPAsset(id: string, updates: AssetPatch)
      modifies this
      ensures assets == AssetsAfterUpdate(old(assets), id, updates)
      ensures licenses == old(licenses) && purchases == old(purchases) && walletEntry == old(walletEntry)
    {
      var index := FindIndex(assets, HasId(id));
      if index.Some? {
        assets := assets[index.value := MergeAsset(assets[index.value], updates)];
      }
    }

    /** `saveLicense`. */
    method SaveLicense(license: License)
      modifies this
      ensures licenses == LicensesAfterSave(old(licenses), license)
      ensures assets == old(assets) && purchases == old(purchases) && walletEntry == old(walletEntry)
    {
      var existingIndex := FindIndex(licenses, SameSlot(license));
      if existingIndex.Some? {
        licenses := licenses[existingIndex.value := license];
      } else {
        licenses := licenses + [license];
      }
    }

    /** `savePurchasedLicense`. */
    method SavePurchasedLicense(purchase: PurchasedLicense)
      modifies this
      ensures purchases == old(purchases) + [purchase]
      ensures assets == old(assets) && licenses == old(licenses) && walletEntry == old(walletEntry)
    {
      purchases := purchases + [purchase];
    }

    /** `getWallet`. */
    function Wallet(): Option<WalletRecord>
      reads this
    {
      ReadWallet(walletEntry)
    }

    /** `saveWallet`: the wallet then reads back with this address. */
    method SaveWallet(address: string)
      modifies this
      ensures walletEntry == Some(WalletEntry(address))
      ensures Wallet() == Some(WalletRecord(address))
      ensures assets == old(assets) && licenses == old(licenses) && purchases == old(purchases)
    {
      walletEntry := Some(WalletEntry(address));
      WalletRoundTrip(address);
    }

    /** `clearWallet`: the wallet then reads as absent. */
    method ClearWallet()
      modifies this
      ensures walletEntry == None && Wallet() == None
      ensures assets == old(assets) && licenses == old(licenses) && purchases == old(purchases)
    {
      walletEntry := None;
    }
  }
}
