/**
  The planning of an import (`backup/service.go`): the loops that merge providers
  and device profiles, proved to compute the plan that the decisions determine.
*/
module BackupPlan {
  import opened Wrappers
  import opened BackupModel
  import opened BackupChoices
  import Ordering

  // The loop that merges providers, after the first `i` of the backup order.

  predicate Placed(x: Definition, i: nat, d: Document, c: Configuration, mode: Mode, decisions: Decisions)
    requires i <= |d.order|
  {
    if x.id in d.order[..i] then PlannedDefinition(x, d, c, mode, decisions)
    else x.id in DefinitionsById(c.definitions) && x == DefinitionsById(c.definitions)[x.id]
  }

  predicate Merging(definitions: seq<Definition>, i: nat, d: Document, c: Configuration, mode: Mode, decisions: Decisions) {
    && i <= |d.order|
    && DefinitionIds(definitions) == KeepOrder(DefinitionIds(c.definitions), d.order[..i])
    && forall k :: 0 <= k < |definitions| ==> Placed(definitions[k], i, d, c, mode, decisions)
  }

  ghost predicate Backing(backup: map<string, Provider>, i: nat, d: Document, c: Configuration, mode: Mode, decisions: Decisions) {
    && i <= |d.order|
    && (forall id :: id in backup <==> id in d.order[..i] && FromBackup(id, d, c, mode, decisions))
    && (forall id :: id in backup ==> id in ById(d.providers) && backup[id] == ById(d.providers)[id])
  }

  ghost predicate Indexed(index: map<string, nat>, definitions: seq<Definition>) {
    && (forall id :: id in index ==> index[id] < |definitions| && definitions[index[id]].id == id)
    && (forall k :: 0 <= k < |definitions| ==> definitions[k].id in index)
  }

  lemma MergeStarts(d: Document, c: Configuration, mode: Mode, decisions: Decisions)
    requires WellFormed(d, c)
    ensures Merging(c.definitions, 0, d, c, mode, decisions) && Backing(map[], 0, d, c, mode, decisions)
  {
    hide Keyed;
    var ids := DefinitionIds(c.definitions);
    assert ids + Missing([], ids) == ids && d.order[..0] == [];
    forall k | 0 <= k < |c.definitions|
      ensures Placed(c.definitions[k], 0, d, c, mode, decisions)
    {
      KeyedAt(c.definitions, ids, k);
    }
  }

  /** A provider that both sides have: it is replaced in place, or kept. */
  lemma MergeConflict(definitions: seq<Definition>, i: nat, k: nat, d: Document, c: Configuration, mode: Mode, decisions: Decisions)
    requires WellFormed(d, c) && i < |d.order| && Merging(definitions, i, d, c, mode, decisions)
    requires k < |definitions| && definitions[k].id == d.order[i] && mode != Replace
    requires d.order[i] in ById(d.providers)
    ensures d.order[i] in DefinitionIds(c.definitions)
    ensures Merging(if Says(decisions, ProviderKey(d.order[i]))
                    then definitions[k := ById(d.providers)[d.order[i]].definition] else definitions,
                    i + 1, d, c, mode, decisions)
  {
    hide Distinct, Keyed, Says, KeepOrder;
    NextInOrder(d, c, i);
    assert DefinitionIds(definitions)[k] == d.order[i];
    OnlyCurrent(DefinitionIds(c.definitions), d.order[..i], d.order[i]);
    var x := ById(d.providers)[d.order[i]].definition;
    var after := if Says(decisions, ProviderKey(d.order[i])) then definitions[k := x] else definitions;
    assert DefinitionIds(after) == DefinitionIds(definitions);
    OnePlace(definitions, i, k, d, c);
    forall j | 0 <= j < |after|
      ensures Placed(after[j], i + 1, d, c, mode, decisions)
    {
      assert Placed(definitions[j], i, d, c, mode, decisions);
    }
  }

  lemma OnlyCurrent(current: seq<string>, order: seq<string>, id: string)
    requires id in KeepOrder(current, order) && id !in order
    ensures id in current
  {
    MissingIn(order, current, id);
  }

  lemma {:induction false} MissingIn(ids: seq<string>, known: seq<string>, id: string)
    ensures id in Missing(ids, known) ==> id in ids
  {
    if ids != [] {
      MissingIn(ids[..|ids| - 1], known, id);
    }
  }

  /** The identifier that is merged next stands in one place only. */
  lemma OnePlace(definitions: seq<Definition>, i: nat, k: nat, d: Document, c: Configuration)
    requires WellFormed(d, c) && i < |d.order| && k < |definitions| && definitions[k].id == d.order[i]
    requires DefinitionIds(definitions) == KeepOrder(DefinitionIds(c.definitions), d.order[..i])
    ensures forall j :: 0 <= j < |definitions| && j != k ==> definitions[j].id != d.order[i]
  {
    var ids := DefinitionIds(definitions);
    OrdersAreComplete(DefinitionIds(c.definitions), d.order[..i]);
    forall j | 0 <= j < |definitions| && j != k
      ensures definitions[j].id != d.order[i]
    {
      assert ids[j] != ids[k];
    }
  }

  /** A provider that only the archive has is appended. */
  lemma MergeNew(definitions: seq<Definition>, i: nat, d: Document, c: Configuration, mode: Mode, decisions: Decisions)
    requires WellFormed(d, c) && i < |d.order| && Merging(definitions, i, d, c, mode, decisions)
    requires d.order[i] !in DefinitionIds(definitions) && d.order[i] in ById(d.providers)
    ensures d.order[i] !in DefinitionIds(c.definitions)
    ensures Merging(definitions + [ById(d.providers)[d.order[i]].definition], i + 1, d, c, mode, decisions)
  {
    hide Distinct, Keyed, Says;
    NextInOrder(d, c, i);
    var x := ById(d.providers)[d.order[i]].definition;
    var after := definitions + [x];
    assert DefinitionIds(after) == DefinitionIds(definitions) + [x.id];
    forall j | 0 <= j < |after|
      ensures Placed(after[j], i + 1, d, c, mode, decisions)
    {
      assert j < |definitions| ==> Placed(definitions[j], i, d, c, mode, decisions) && DefinitionIds(definitions)[j] == after[j].id;
    }
  }

  /** The loop of `planImport` over the archive's providers. */
  method MergeProviders(d: Document, c: Configuration, mode: Mode, decisions: Decisions)
    returns (definitions: seq<Definition>, backup: map<string, Provider>)
    requires WellFormed(d, c) && mode != Replace
    ensures Merging(definitions, |d.order|, d, c, mode, decisions)
    ensures Backing(backup, |d.order|, d, c, mode, decisions)
  {
    hide WellFormed, Merging, Keyed, Says, Render, Indexed, Backing;
    var ordered := ProvidersInOrder(d, c);
    definitions, backup := c.definitions, map[];
    MergeStarts(d, c, mode, decisions);
    var currentIndex: map<string, nat> := IndexOf(c.definitions);
    for i := 0 to |ordered|
      invariant Merging(definitions, i, d, c, mode, decisions) && Indexed(currentIndex, definitions)
      invariant Backing(backup, i, d, c, mode, decisions)
    {
      var provider := ordered[i];
      var id := provider.definition.id;
      Lookup(currentIndex, definitions, id);
      if id in currentIndex {
        var k := currentIndex[id];
        MergeConflict(definitions, i, k, d, c, mode, decisions);
        BackMore(backup, i, d, c, mode, decisions);
        var decision := Render(ProviderKey(id));
        Deciding(decisions, ProviderKey(id));
        if decision in decisions && decisions[decision] == UseBackup {
          Reindexed(currentIndex, definitions, k, provider.definition);
          definitions := definitions[k := provider.definition];
          backup := backup[id := provider];
        }
        continue;
      }
      MergeNew(definitions, i, d, c, mode, decisions);
      BackMore(backup, i, d, c, mode, decisions);
      IndexedMore(currentIndex, definitions, provider.definition);
      currentIndex := currentIndex[id := |definitions|];
      definitions := definitions + [provider.definition];
      backup := backup[id := provider];
    }
  }

  method IndexOf(definitions: seq<Definition>) returns (index: map<string, nat>)
    ensures Indexed(index, definitions)
  {
    index := map[];
    for i := 0 to |definitions|
      invariant forall id :: id in index ==> index[id] < i && definitions[index[id]].id == id
      invariant forall k :: 0 <= k < i ==> definitions[k].id in index
    {
      index := index[definitions[i].id := i];
    }
  }

  lemma Lookup(index: map<string, nat>, definitions: seq<Definition>, id: string)
    requires Indexed(index, definitions)
    ensures id in index <==> id in DefinitionIds(definitions)
    ensures id in index ==> index[id] < |definitions| && definitions[index[id]].id == id
  {
    if id in index {
      assert DefinitionIds(definitions)[index[id]] == id;
    }
  }

  lemma Reindexed(index: map<string, nat>, definitions: seq<Definition>, k: nat, x: Definition)
    requires Indexed(index, definitions) && k < |definitions| && definitions[k].id == x.id
    ensures Indexed(index, definitions[k := x])
  {
  }

  lemma IndexedMore(index: map<string, nat>, definitions: seq<Definition>, x: Definition)
    requires Indexed(index, definitions)
    ensures Indexed(index[x.id := |definitions|], definitions + [x])
  {
  }

  lemma Deciding(decisions: Decisions, k: Key)
    ensures Says(decisions, k) <==> Render(k) in decisions && decisions[Render(k)] == UseBackup
  {
  }

  lemma BackMore(backup: map<string, Provider>, i: nat, d: Document, c: Configuration, mode: Mode, decisions: Decisions)
    requires WellFormed(d, c) && i < |d.order| && Backing(backup, i, d, c, mode, decisions)
    ensures d.order[i] in ById(d.providers)
    ensures Backing(if FromBackup(d.order[i], d, c, mode, decisions)
                    then backup[d.order[i] := ById(d.providers)[d.order[i]]] else backup, i + 1, d, c, mode, decisions)
  {
    hide Distinct, Keyed, Says;
    NextInOrder(d, c, i);
  }

  /** The IDs of an order that are known, in that order. */
  function Found(order: seq<string>, known: seq<string>): seq<string> {
    if order == [] then []
    else
      var front, last := Found(order[..|order| - 1], known), order[|order| - 1];
      if last in known then front + [last] else front
  }

  lemma {:induction false} AllFound(order: seq<string>, known: seq<string>)
    requires forall id :: id in order ==> id in known
    ensures Found(order, known) == order
  {
    if order != [] {
      AllFound(order[..|order| - 1], known);
    }
  }

  /** `definitionsInOrder`: an ID without a definition is passed over. */
  method DefinitionsInOrder(definitions: seq<Definition>, order: seq<string>) returns (result: seq<Definition>)
    ensures DefinitionIds(result) == Found(order, DefinitionIds(definitions))
    ensures forall x :: x in result ==>
              x in definitions && x.id in DefinitionsById(definitions) && DefinitionsById(definitions)[x.id] == x
  {
    hide Keyed;
    var byId := DefinitionsById(definitions);
    result := [];
    for i := 0 to |order|
      invariant DefinitionIds(result) == Found(order[..i], DefinitionIds(definitions))
      invariant forall x :: x in result ==> x in definitions && x.id in byId && byId[x.id] == x
    {
      KeyedFinds(definitions, DefinitionIds(definitions), order[i]);
      assert order[..i + 1][..i] == order[..i];
      if order[i] in byId {
        result := result + [byId[order[i]]];
      }
    }
    assert order[..|order|] == order;
  }

  /** The sorting of the merged profiles, by insertion. */
  function Insert(x: DeviceProfile, devices: seq<DeviceProfile>): seq<DeviceProfile> {
    if devices == [] then [x]
    else if Ordering.Less(x.id, devices[0].id) then [x] + devices
    else [devices[0]] + Insert(x, devices[1..])
  }

  function SortById(devices: seq<DeviceProfile>): seq<DeviceProfile> {
    if devices == [] then [] else Insert(devices[|devices| - 1], SortById(devices[..|devices| - 1]))
  }

  lemma {:induction false} InsertHas(x: DeviceProfile, devices: seq<DeviceProfile>)
    ensures forall y :: y in Insert(x, devices) <==> y == x || y in devices
  {
    if devices != [] && !Ordering.Less(x.id, devices[0].id) {
      InsertHas(x, devices[1..]);
      assert devices == [devices[0]] + devices[1..];
    }
  }

  lemma {:induction false} InsertSorts(x: DeviceProfile, devices: seq<DeviceProfile>)
    requires Ordering.Sorted(DeviceIds(devices)) && x.id !in DeviceIds(devices)
    ensures Ordering.Sorted(DeviceIds(Insert(x, devices)))
  {
    hide Ordering.Less;
    if devices != [] {
      var ids, rest := DeviceIds(devices), devices[1..];
      assert DeviceIds(rest) == ids[1..];
      if Ordering.Less(x.id, devices[0].id) {
        FrontSorts(x.id, ids);
        assert DeviceIds([x] + devices) == [x.id] + ids;
      } else {
        InsertSorts(x, rest);
        InsertHas(x, rest);
        Ordering.LessTotal(x.id, devices[0].id);
        var after := Insert(x, rest);
        assert devices[0].id == ids[0];
        forall j | 0 <= j < |after|
          ensures Ordering.Less(ids[0], after[j].id)
        {
          assert after[j] in after;
          if after[j] != x {
            var k :| 0 <= k < |rest| && rest[k] == after[j];
            assert ids[k + 1] == after[j].id;
          }
        }
        assert DeviceIds([devices[0]] + after) == [ids[0]] + DeviceIds(after);
      }
    }
  }

  lemma FrontSorts(id: string, ids: seq<string>)
    requires Ordering.Sorted(ids) && ids != [] && Ordering.Less(id, ids[0])
    ensures Ordering.Sorted([id] + ids)
  {
    hide Ordering.Less;
    forall j | 0 <= j < |ids|
      ensures Ordering.Less(id, ids[j])
    {
      if j > 0 {
        Ordering.LessTransitive(id, ids[0], ids[j]);
      }
    }
  }

  lemma {:induction false} SortSorts(devices: seq<DeviceProfile>)
    requires Distinct(DeviceIds(devices))
    ensures Ordering.Sorted(DeviceIds(SortById(devices)))
    ensures forall x :: x in SortById(devices) <==> x in devices
  {
    if devices != [] {
      var n := |devices| - 1;
      var front, ids := devices[..n], DeviceIds(devices);
      assert DeviceIds(front) == ids[..n];
      SortSorts(front);
      InsertHas(devices[n], SortById(front));
      assert devices == front + [devices[n]];
      forall x | x in SortById(front)
        ensures x.id != devices[n].id
      {
        var k :| 0 <= k < n && front[k] == x;
        assert ids[k] != ids[n];
      }
      InsertSorts(devices[n], SortById(front));
    }
  }

  // The loop that merges device profiles, after the first `i` of the archive's.

  predicate PlacedDevice(x: DeviceProfile, i: nat, d: Document, c: Configuration, decisions: Decisions)
    requires i <= |d.devices|
  {
    if x.id in DeviceIds(d.devices)[..i] then PlannedDevice(x, d, c, decisions)
    else x.id in DevicesById(c.devices) && x == DevicesById(c.devices)[x.id]
  }

  predicate MergingDevices(result: seq<DeviceProfile>, i: nat, d: Document, c: Configuration, decisions: Decisions) {
    && i <= |d.devices|
    && Distinct(DeviceIds(result))
    && Elements(DeviceIds(result)) == Elements(DeviceIds(c.devices)) + Elements(DeviceIds(d.devices)[..i])
    && forall k :: 0 <= k < |result| ==> PlacedDevice(result[k], i, d, c, decisions)
  }

  lemma DevicesStart(d: Document, c: Configuration, decisions: Decisions)
    requires WellFormed(d, c)
    ensures MergingDevices(c.devices, 0, d, c, decisions)
  {
    hide Keyed;
    forall k | 0 <= k < |c.devices|
      ensures PlacedDevice(c.devices[k], 0, d, c, decisions)
    {
      KeyedAt(c.devices, DeviceIds(c.devices), k);
    }
  }

  lemma NextDevice(d: Document, c: Configuration, i: nat)
    requires WellFormed(d, c) && i < |d.devices|
    ensures var ids, id := DeviceIds(d.devices), d.devices[i].id;
            && ids[..i + 1] == ids[..i] + [id] && id !in ids[..i] && id in ids
            && id in DevicesById(d.devices) && DevicesById(d.devices)[id] == d.devices[i]
    ensures d.devices[i].id in DevicesById(c.devices) <==> d.devices[i].id in DeviceIds(c.devices)
  {
    hide Keyed;
    var ids := DeviceIds(d.devices);
    KeyedAt(d.devices, ids, i);
    KeyedFinds(c.devices, DeviceIds(c.devices), d.devices[i].id);
    assert ids[i] == d.devices[i].id;
  }

  /** A profile that both sides have: replaced if equal or so decided, else kept. */
  lemma DeviceConflict(result: seq<DeviceProfile>, i: nat, k: nat, d: Document, c: Configuration, decisions: Decisions)
    requires WellFormed(d, c) && i < |d.devices| && MergingDevices(result, i, d, c, decisions)
    requires k < |result| && result[k].id == d.devices[i].id
    ensures (result[k] == d.devices[i] || Says(decisions, DeviceKey(d.devices[i].id)))
              ==> MergingDevices(result[k := d.devices[i]], i + 1, d, c, decisions)
    ensures (result[k] != d.devices[i] && !Says(decisions, DeviceKey(d.devices[i].id)))
              ==> MergingDevices(result, i + 1, d, c, decisions)
  {
    hide Keyed, Says;
    NextDevice(d, c, i);
    var id, ids := d.devices[i].id, DeviceIds(d.devices);
    assert DeviceIds(result)[k] == id;
    assert DeviceIds(result[k := d.devices[i]]) == DeviceIds(result);
    assert Elements(ids[..i + 1]) == Elements(ids[..i]) + {id};
    assert id in Elements(DeviceIds(result));
    forall j | 0 <= j < |result| && j != k
      ensures PlacedDevice(result[j], i + 1, d, c, decisions)
    {
      assert DeviceIds(result)[j] != DeviceIds(result)[k];
      assert PlacedDevice(result[j], i, d, c, decisions);
    }
    assert PlacedDevice(result[k], i, d, c, decisions);
  }

  lemma DeviceNew(result: seq<DeviceProfile>, i: nat, d: Document, c: Configuration, decisions: Decisions)
    requires WellFormed(d, c) && i < |d.devices| && MergingDevices(result, i, d, c, decisions)
    requires d.devices[i].id !in DeviceIds(result)
    ensures MergingDevices(result + [d.devices[i]], i + 1, d, c, decisions)
  {
    hide Keyed, Says, Distinct;
    NextDevice(d, c, i);
    var id, ids := d.devices[i].id, DeviceIds(d.devices);
    var after := result + [d.devices[i]];
    assert DeviceIds(after) == DeviceIds(result) + [id];
    OneDistinct(id);
    JoinDistinct(DeviceIds(result), [id]);
    assert Elements(ids[..i + 1]) == Elements(ids[..i]) + {id};
    assert id !in Elements(DeviceIds(result)) && id !in Elements(DeviceIds(c.devices));
    forall j | 0 <= j < |after|
      ensures PlacedDevice(after[j], i + 1, d, c, decisions)
    {
      assert j < |result| ==> PlacedDevice(result[j], i, d, c, decisions) && DeviceIds(result)[j] == after[j].id;
    }
  }

  lemma OneDistinct(id: string)
    ensures Distinct([id])
  {
  }

  ghost predicate IndexedDevices(index: map<string, nat>, devices: seq<DeviceProfile>) {
    && (forall id :: id in index ==> index[id] < |devices| && devices[index[id]].id == id)
    && (forall k :: 0 <= k < |devices| ==> devices[k].id in index)
  }

  method MergeDeviceProfiles(d: Document, c: Configuration, decisions: Decisions) returns (result: seq<DeviceProfile>)
    requires WellFormed(d, c)
    ensures PlannedDevices(result, d, c, decisions)
  {
    hide WellFormed, MergingDevices, Keyed, Says, Render;
    result := c.devices;
    var indexes: map<string, nat> := map[];
    for i := 0 to |result|
      invariant forall id :: id in indexes ==> indexes[id] < i && result[indexes[id]].id == id
      invariant forall k :: 0 <= k < i ==> result[k].id in indexes
    {
      indexes := indexes[result[i].id := i];
    }
    DevicesStart(d, c, decisions);
    for i := 0 to |d.devices|
      invariant MergingDevices(result, i, d, c, decisions) && IndexedDevices(indexes, result)
    {
      var profile := d.devices[i];
      if profile.id !in indexes {
        DeviceNew(result, i, d, c, decisions);
        indexes := indexes[profile.id := |result|];
        result := result + [profile];
        continue;
      }
      var k := indexes[profile.id];
      DeviceConflict(result, i, k, d, c, decisions);
      Deciding(decisions, DeviceKey(profile.id));
      var decision := Render(DeviceKey(profile.id));
      if result[k] == profile || (decision in decisions && decisions[decision] == UseBackup) {
        result := result[k := profile];
      }
    }
    DevicesMerged(result, d, c, decisions);
    result := SortById(result);
  }

  lemma DevicesMerged(result: seq<DeviceProfile>, d: Document, c: Configuration, decisions: Decisions)
    requires MergingDevices(result, |d.devices|, d, c, decisions)
    ensures PlannedDevices(SortById(result), d, c, decisions)
  {
    hide Keyed, Says, SortById, Ordering.Sorted;
    var sorted := SortById(result);
    SortSorts(result);
    assert DeviceIds(d.devices)[..|d.devices|] == DeviceIds(d.devices);
    forall x | x in sorted
      ensures PlannedDevice(x, d, c, decisions)
    {
      var k :| 0 <= k < |result| && result[k] == x;
      assert PlacedDevice(result[k], |d.devices|, d, c, decisions);
    }
    forall id
      ensures id in DeviceIds(sorted) <==> id in DeviceIds(result)
    {
      SameIds(sorted, result, id);
    }
  }

  lemma SameIds(a: seq<DeviceProfile>, b: seq<DeviceProfile>, id: string)
    requires forall x :: x in a <==> x in b
    ensures id in DeviceIds(a) <==> id in DeviceIds(b)
  {
    if id in DeviceIds(a) {
      var k :| 0 <= k < |a| && DeviceIds(a)[k] == id;
      assert a[k] in a;
      var j :| 0 <= j < |b| && b[j] == a[k];
      assert DeviceIds(b)[j] == id;
    }
    if id in DeviceIds(b) {
      var k :| 0 <= k < |b| && DeviceIds(b)[k] == id;
      assert b[k] in b;
      var j :| 0 <= j < |a| && a[j] == b[k];
      assert DeviceIds(a)[j] == id;
    }
  }

  // -------------------------------------------------------------- planImport

  method PlanImport(d: Document, c: Configuration, mode: Mode, decisions: Decisions) returns (r: Result<Plan, Error>)
    requires WellFormed(d, c)
    ensures r == Failure(InvalidMode) <==> mode == Unknown
    ensures r.Success? <==> mode != Unknown && Decided(decisions, d, c, mode)
    ensures r.Success? ==> IsPlan(r.value, d, c, mode, decisions)
    ensures r.Success? ==>
              var ids, current := DefinitionIds(r.value.configuration.definitions), DefinitionIds(c.definitions);
              if mode == Replace then ids == d.order
              else if "provider_order" in decisions && decisions["provider_order"] == UseBackup
              then Follows(ids, d.order, current) else Follows(ids, current, d.order)
  {
    hide WellFormed, Decided, Keyed, Conflicting, Lists, Shows, Render, Distinct, IsPlan, Follows;
    var preview := PreviewDocument(d, c, mode);
    if preview.None? {
      return Failure(InvalidMode);
    }
    ShownListed(preview.value.conflicts, d, c, mode);
    var decided := CheckDecisions(preview.value.conflicts, d, c, mode, decisions);
    if !decided {
      return Failure(ConflictDecision);
    }
    if mode == Replace {
      var plan := PlanReplace(d, c, decisions);
      PlannedOrderMeans(plan, d, c, mode, decisions);
      return Success(plan);
    }
    var plan := PlanMerge(d, c, mode, decisions);
    PlannedOrderMeans(plan, d, c, mode, decisions);
    r := Success(plan);
  }

  lemma FixedKeys()
    ensures Render(OrderKey) == "provider_order" && Render(WebKey) == "web_settings"
    ensures Render(ApplicationKey) == "application_settings"
  {
  }

  lemma Merged(definitions: seq<Definition>, backup: map<string, Provider>, d: Document, c: Configuration, mode: Mode, decisions: Decisions)
    requires WellFormed(d, c) && Merging(definitions, |d.order|, d, c, mode, decisions) && mode != Replace
    requires Backing(backup, |d.order|, d, c, mode, decisions)
    ensures DefinitionIds(definitions) == KeepOrder(DefinitionIds(c.definitions), d.order)
    ensures forall x :: x in definitions ==> PlannedDefinition(x, d, c, mode, decisions)
    ensures forall id :: id in backup <==> FromBackup(id, d, c, mode, decisions)
    ensures forall id :: id in backup ==> id in ById(d.providers) && backup[id] == ById(d.providers)[id]
    ensures Distinct(DefinitionIds(definitions))
    ensures forall id :: id in BackupOrder(DefinitionIds(c.definitions), d.order) ==> id in DefinitionIds(definitions)
  {
    hide Keyed, Says, Distinct;
    assert d.order[..|d.order|] == d.order;
    OrdersAreComplete(DefinitionIds(c.definitions), d.order);
    forall id | id in BackupOrder(DefinitionIds(c.definitions), d.order)
      ensures id in DefinitionIds(definitions)
    {
      assert id in Elements(BackupOrder(DefinitionIds(c.definitions), d.order));
    }
    forall x | x in definitions
      ensures PlannedDefinition(x, d, c, mode, decisions)
    {
      var k :| 0 <= k < |definitions| && definitions[k] == x;
      assert Placed(definitions[k], |d.order|, d, c, mode, decisions);
      UnmergedIsCurrent(x, d, c, mode, decisions);
    }
  }

  lemma UnmergedIsCurrent(x: Definition, d: Document, c: Configuration, mode: Mode, decisions: Decisions)
    ensures x.id !in d.order ==> !FromBackup(x.id, d, c, mode, decisions)
  {
  }

  /** Both modes that keep what only the configuration has. */
  method PlanMerge(d: Document, c: Configuration, mode: Mode, decisions: Decisions) returns (p: Plan)
    requires WellFormed(d, c) && (mode == Merge || mode == ProvidersOnly)
    ensures IsPlan(p, d, c, mode, decisions)
  {
    hide WellFormed, Keyed, Merging, Backing, Render, Distinct, Found, Ordering.Sorted;
    var definitions, backup := MergeProviders(d, c, mode, decisions);
    Merged(definitions, backup, d, c, mode, decisions);
    if "provider_order" in decisions && decisions["provider_order"] == UseBackup {
      var _, backupOrder := ProviderOrderChoices(c.definitions, d.order);
      AllFound(backupOrder, DefinitionIds(definitions));
      definitions := DefinitionsInOrder(definitions, backupOrder);
    }
    Deciding(decisions, OrderKey);
    Deciding(decisions, WebKey);
    Deciding(decisions, ApplicationKey);
    FixedKeys();
    var planned := Configuration(definitions, c.web, c.application, c.devices);
    if mode == Merge {
      if c.web != d.web && "web_settings" in decisions && decisions["web_settings"] == UseBackup {
        planned := planned.(web := d.web);
      }
      if c.application != d.application && "application_settings" in decisions && decisions["application_settings"] == UseBackup {
        planned := planned.(application := d.application);
      }
      var devices := MergeDeviceProfiles(d, c, decisions);
      planned := planned.(devices := devices);
    }
    p := Plan(planned, backup);
  }

  /** `configurationFromDocument`, with every provider from the archive. */
  method PlanReplace(d: Document, c: Configuration, decisions: Decisions) returns (p: Plan)
    requires WellFormed(d, c)
    ensures IsPlan(p, d, c, Replace, decisions)
  {
    hide Keyed, Distinct;
    var ordered := ProvidersInOrder(d, c);
    var definitions: seq<Definition> := [];
    for i := 0 to |ordered|
      invariant |definitions| == i && forall j :: 0 <= j < i ==> definitions[j] == ordered[j].definition
    {
      definitions := definitions + [ordered[i].definition];
    }
    assert DefinitionIds(definitions) == d.order;
    p := Plan(Configuration(definitions, d.web, d.application, d.devices), ById(d.providers));
    forall id
      ensures id in p.backup <==> id in d.order
    {
      KeyedFinds(d.providers, ProviderIds(d.providers), id);
      assert id in Elements(d.order) <==> id in Elements(ProviderIds(d.providers));
    }
    forall x | x in definitions
      ensures PlannedDefinition(x, d, c, Replace, decisions)
    {
      var k :| 0 <= k < |definitions| && definitions[k] == x;
      assert d.order[k] in d.order;
    }
  }
}
