/** What `backup/service.go` and `backup/archive.go` move: configurations, documents, archives. */
module BackupModel {
  import opened Wrappers

  const MAXIMUM_PROVIDERS := 6
  const MAXIMUM_DEVICE_PROFILES := 32
  const MAXIMUM_SECRET_BYTES := 2560

  type Reference = nat
  type Secret = string
  type Settings = string

  datatype Header = Header(name: string, reference: Option<Reference>)

  datatype Definition = Definition(id: string, displayName: string, request: string, headers: seq<Header>)

  datatype DeviceProfile = DeviceProfile(id: string, settings: Settings)

  /** `structuredprovider.RestorableConfiguration`. */
  datatype Configuration = Configuration(
    definitions: seq<Definition>,
    web: Settings,
    application: Settings,
    devices: seq<DeviceProfile>)

  datatype ProviderSecret = ProviderSecret(headerIndex: nat, value: Secret)

  datatype Provider = Provider(definition: Definition, secrets: seq<ProviderSecret>)

  datatype Document = Document(
    providers: seq<Provider>,
    order: seq<string>,
    web: Settings,
    application: Settings,
    devices: seq<DeviceProfile>)

  /** The references of a configuration's headers. */
  function Active(c: Configuration): set<Reference> {
    set d, h | d in c.definitions && h in d.headers && h.reference.Some? :: h.reference.value
  }

  function DefinitionIds(definitions: seq<Definition>): seq<string> {
    seq(|definitions|, i requires 0 <= i < |definitions| => definitions[i].id)
  }

  function ProviderIds(providers: seq<Provider>): seq<string> {
    seq(|providers|, i requires 0 <= i < |providers| => providers[i].definition.id)
  }

  function DeviceIds(devices: seq<DeviceProfile>): seq<string> {
    seq(|devices|, i requires 0 <= i < |devices| => devices[i].id)
  }

  function Elements(ids: seq<string>): set<string> {
    set id | id in ids
  }

  predicate Distinct(ids: seq<string>) {
    forall i, j :: 0 <= i < j < |ids| ==> ids[i] != ids[j]
  }

  /** What the configuration owner guarantees of every configuration it hands out or accepts. */
  predicate ValidConfiguration(c: Configuration) {
    && |c.definitions| <= MAXIMUM_PROVIDERS && |c.devices| <= MAXIMUM_DEVICE_PROFILES
    && Distinct(DefinitionIds(c.definitions)) && Distinct(DeviceIds(c.devices))
  }

  // ------------------------------------------------------- validateDocument

  /** The checks that look at single fields: formats of definitions, profiles and settings. */
  datatype Formats = Formats(definition: Definition -> bool, device: DeviceProfile -> bool, rest: Document -> bool)

  /** A draft has no references, and its secrets are those of its headers, in order. */
  predicate ValidProvider(p: Provider, formats: Formats) {
    && formats.definition(p.definition)
    && (forall k :: 0 <= k < |p.definition.headers| ==> p.definition.headers[k].reference.None?)
    && |p.secrets| == |p.definition.headers|
    && (forall k :: 0 <= k < |p.secrets| ==>
          p.secrets[k].headerIndex == k && 0 < |p.secrets[k].value| <= MAXIMUM_SECRET_BYTES)
  }

  predicate ValidDocument(d: Document, formats: Formats) {
    && formats.rest(d) && |d.providers| <= MAXIMUM_PROVIDERS && |d.devices| <= MAXIMUM_DEVICE_PROFILES
    && (forall i :: 0 <= i < |d.providers| ==> ValidProvider(d.providers[i], formats))
    && Distinct(ProviderIds(d.providers)) && Distinct(d.order)
    && |d.order| == |d.providers| && (forall id :: id in d.order ==> id in ProviderIds(d.providers))
    && (forall i :: 0 <= i < |d.devices| ==> formats.device(d.devices[i]))
    && Distinct(DeviceIds(d.devices))
  }

  method ValidateProvider(p: Provider, formats: Formats) returns (ok: bool)
    ensures ok == ValidProvider(p, formats)
  {
    if !formats.definition(p.definition) || |p.secrets| != |p.definition.headers|
       || !(forall k :: 0 <= k < |p.definition.headers| ==> p.definition.headers[k].reference.None?) {
      return false;
    }
    for k := 0 to |p.secrets|
      invariant forall j :: 0 <= j < k ==>
                  p.secrets[j].headerIndex == j && 0 < |p.secrets[j].value| <= MAXIMUM_SECRET_BYTES
    {
      var secret := p.secrets[k];
      if secret.headerIndex != k || |secret.value| == 0 || |secret.value| > MAXIMUM_SECRET_BYTES {
        return false;
      }
    }
    ok := true;
  }

  /** A loop that collects identifiers and refuses a repeated one. */
  lemma DistinctStep(ids: seq<string>, i: nat, seen: set<string>)
    requires i < |ids| && Distinct(ids[..i]) && seen == Elements(ids[..i])
    ensures Distinct(ids[..i + 1]) <==> ids[i] !in seen
    ensures ids[..i + 1] == ids[..i] + [ids[i]]
    ensures Elements(ids[..i + 1]) == seen + {ids[i]}
    ensures !Distinct(ids[..i + 1]) ==> !Distinct(ids)
  {
    var a, b := ids[..i], ids[..i + 1];
    assert b == a + [ids[i]];
    if ids[i] in seen {
      var j :| 0 <= j < i && a[j] == ids[i];
      assert b[j] == b[i];
    }
  }

  /** The loop over the providers: their IDs, unless one is invalid or repeated. */
  method CollectProviders(d: Document, formats: Formats) returns (ids: Option<set<string>>)
    ensures ids.Some? <==> Distinct(ProviderIds(d.providers))
                           && forall i :: 0 <= i < |d.providers| ==> ValidProvider(d.providers[i], formats)
    ensures ids.Some? ==> ids.value == Elements(ProviderIds(d.providers))
  {
    hide Distinct, ValidProvider;
    var providerIds: set<string> := {};
    ghost var all := ProviderIds(d.providers);
    AllDistinct(all);
    for i := 0 to |d.providers|
      invariant Distinct(all[..i]) && providerIds == Elements(all[..i])
      invariant forall j :: 0 <= j < i ==> ValidProvider(d.providers[j], formats)
    {
      var ok := ValidateProvider(d.providers[i], formats);
      DistinctStep(all, i, providerIds);
      if !ok || d.providers[i].definition.id in providerIds {
        return None;
      }
      providerIds := providerIds + {d.providers[i].definition.id};
    }
    assert all[..|all|] == all;
    ids := Some(providerIds);
  }

  method CheckOrder(order: seq<string>, providerIds: set<string>) returns (ok: bool)
    ensures ok <==> |order| == |providerIds| && Distinct(order) && forall id :: id in order ==> id in providerIds
  {
    hide Distinct;
    if |order| != |providerIds| {
      return false;
    }
    var ordered: set<string> := {};
    AllDistinct(order);
    for i := 0 to |order|
      invariant Distinct(order[..i]) && ordered == Elements(order[..i])
      invariant forall id :: id in order[..i] ==> id in providerIds
    {
      DistinctStep(order, i, ordered);
      if order[i] !in providerIds || order[i] in ordered {
        return false;
      }
      ordered := ordered + {order[i]};
    }
    assert order[..|order|] == order;
    ok := true;
  }

  method CheckDevices(devices: seq<DeviceProfile>, formats: Formats) returns (ok: bool)
    ensures ok <==> Distinct(DeviceIds(devices)) && forall i :: 0 <= i < |devices| ==> formats.device(devices[i])
  {
    hide Distinct;
    var deviceIds: set<string> := {};
    ghost var all := DeviceIds(devices);
    AllDistinct(all);
    for i := 0 to |devices|
      invariant Distinct(all[..i]) && deviceIds == Elements(all[..i])
      invariant forall j :: 0 <= j < i ==> formats.device(devices[j])
    {
      DistinctStep(all, i, deviceIds);
      if !formats.device(devices[i]) || devices[i].id in deviceIds {
        return false;
      }
      deviceIds := deviceIds + {devices[i].id};
    }
    assert all[..|all|] == all;
    ok := true;
  }

  method ValidateDocument(d: Document, formats: Formats) returns (ok: bool)
    ensures ok <==> ValidDocument(d, formats)
    ensures ok ==> |d.order| == |d.providers| <= 6 && |d.devices| <= 32
    ensures ok ==> forall i, k :: 0 <= i < |d.providers| && 0 <= k < |d.providers[i].secrets| ==>
                     0 < |d.providers[i].secrets[k].value| <= 2560 && d.providers[i].secrets[k].headerIndex == k
  {
    hide Distinct, ValidProvider;
    if !formats.rest(d) || |d.providers| > MAXIMUM_PROVIDERS || |d.devices| > MAXIMUM_DEVICE_PROFILES {
      return false;
    }
    var providerIds := CollectProviders(d, formats);
    if providerIds.None? {
      return false;
    }
    CountDistinct(ProviderIds(d.providers));
    var orderOk := CheckOrder(d.order, providerIds.value);
    if !orderOk {
      return false;
    }
    ok := CheckDevices(d.devices, formats);
    if ok {
      SecretsBound(d, formats);
    }
  }

  lemma SecretsBound(d: Document, formats: Formats)
    requires ValidDocument(d, formats)
    ensures forall i, k :: 0 <= i < |d.providers| && 0 <= k < |d.providers[i].secrets| ==>
              0 < |d.providers[i].secrets[k].value| <= 2560 && d.providers[i].secrets[k].headerIndex == k
  {
    hide Distinct;
    forall i | 0 <= i < |d.providers|
      ensures ValidProvider(d.providers[i], formats)
    {
    }
  }

  lemma AllDistinct(ids: seq<string>)
    ensures Distinct(ids[..0])
  {
  }

  lemma {:induction false} CountDistinct(ids: seq<string>)
    requires Distinct(ids)
    ensures |Elements(ids)| == |ids|
  {
    if ids != [] {
      var n := |ids| - 1;
      CountDistinct(ids[..n]);
      assert ids == ids[..n] + [ids[n]];
      assert Elements(ids) == Elements(ids[..n]) + {ids[n]};
    }
  }

  // --------------------------------------------------------------- lookups

  /** A map filled by a loop: a later item of the same ID replaces an earlier one. */
  function Keyed<T>(items: seq<T>, ids: seq<string>): map<string, T>
    requires |items| == |ids|
  {
    if items == [] then map[] else Keyed(items[..|items| - 1], ids[..|ids| - 1])[ids[|ids| - 1] := items[|items| - 1]]
  }

  function ById(providers: seq<Provider>): map<string, Provider> {
    Keyed(providers, ProviderIds(providers))
  }

  function DefinitionsById(definitions: seq<Definition>): map<string, Definition> {
    Keyed(definitions, DefinitionIds(definitions))
  }

  function DevicesById(devices: seq<DeviceProfile>): map<string, DeviceProfile> {
    Keyed(devices, DeviceIds(devices))
  }

  lemma {:induction false} KeyedFinds<T>(items: seq<T>, ids: seq<string>, id: string)
    requires |items| == |ids|
    ensures id in Keyed(items, ids) <==> id in ids
    ensures id in ids ==> exists i :: 0 <= i < |ids| && ids[i] == id && Keyed(items, ids)[id] == items[i]
  {
    if items != [] {
      var n := |ids| - 1;
      KeyedFinds(items[..n], ids[..n], id);
      assert ids == ids[..n] + [ids[n]];
    }
  }

  lemma DistinctAt(ids: seq<string>, i: nat, j: nat)
    requires Distinct(ids) && i < |ids| && j < |ids| && ids[i] == ids[j]
    ensures i == j
  {
  }

  lemma KeyedAt<T>(items: seq<T>, ids: seq<string>, i: nat)
    requires |items| == |ids| && i < |ids| && Distinct(ids)
    ensures ids[i] in Keyed(items, ids) && Keyed(items, ids)[ids[i]] == items[i]
  {
    KeyedFinds(items, ids, ids[i]);
    var j :| 0 <= j < |ids| && ids[j] == ids[i] && Keyed(items, ids)[ids[i]] == items[j];
    DistinctAt(ids, i, j);
  }

  /** The display order names every provider of the archive exactly once. */
  lemma OrderIsPermutation(d: Document, formats: Formats)
    requires ValidDocument(d, formats)
    ensures multiset(d.order) == multiset(ProviderIds(d.providers))
  {
    var ids := ProviderIds(d.providers);
    CountDistinct(ids);
    CountDistinct(d.order);
    SubsetOfSameSize(Elements(d.order), Elements(ids));
    SameCounts(d.order, ids);
  }

  lemma SubsetOfSameSize(a: set<string>, b: set<string>)
    requires a <= b && |a| == |b|
    ensures a == b
  {
    assert |b - a| == |b| - |a|;
  }

  lemma SameCounts(a: seq<string>, b: seq<string>)
    requires Distinct(a) && Distinct(b) && Elements(a) == Elements(b)
    ensures multiset(a) == multiset(b)
  {
    hide Distinct;
    DistinctCounts(a);
    DistinctCounts(b);
    forall id
      ensures multiset(a)[id] == multiset(b)[id]
    {
      assert id in Elements(a) <==> id in Elements(b);
    }
  }

  lemma {:induction false} DistinctCounts(ids: seq<string>)
    requires Distinct(ids)
    ensures forall id :: multiset(ids)[id] == if id in ids then 1 else 0
  {
    if ids != [] {
      var n := |ids| - 1;
      DistinctCounts(ids[..n]);
      assert ids == ids[..n] + [ids[n]];
    }
  }
}
