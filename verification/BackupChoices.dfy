/**
  What an import has to decide (`backup/service.go`): the conflicts between an
  archive and the current configuration, and the plan that decisions determine.
*/
module BackupChoices {
  import opened Wrappers
  import opened BackupModel
  import Ordering

  datatype Mode = Merge | Replace | ProvidersOnly | Unknown

  datatype Decision = KeepCurrent | UseBackup | Other

  datatype Key = ProviderKey(id: string) | OrderKey | WebKey | ApplicationKey | DeviceKey(id: string)

  /** Its kind is that of the key. */
  datatype Conflict = Conflict(key: Key, currentLabel: string, backupLabel: string, decisionRequired: bool)

  datatype ProviderPreview = ProviderPreview(id: string, displayName: string, secretCount: nat, conflict: bool)

  datatype Preview = Preview(providers: seq<ProviderPreview>, deviceProfileCount: nat, replaceWarning: bool,
                             conflicts: seq<Conflict>)

  datatype Error = InvalidMode | ConflictDecision

  type Decisions = map<string, Decision>

  function Render(k: Key): string {
    match k
    case ProviderKey(id) => "provider:" + id
    case OrderKey => "provider_order"
    case WebKey => "web_settings"
    case ApplicationKey => "application_settings"
    case DeviceKey(id) => "device:" + id
  }

  /** The conflict a decision key stands for, if any. */
  function Parse(key: string): Option<Key> {
    if key == "provider_order" then Some(OrderKey)
    else if key == "web_settings" then Some(WebKey)
    else if key == "application_settings" then Some(ApplicationKey)
    else if "provider:" <= key then Some(ProviderKey(key[9..]))
    else if "device:" <= key then Some(DeviceKey(key[7..]))
    else None
  }

  /** No identifier, however chosen, makes two conflicts share a decision. */
  lemma ParseInvertsRender(k: Key, key: string)
    ensures Parse(Render(k)) == Some(k)
    ensures Parse(key).Some? ==> Render(Parse(key).value) == key
  {
    if k.ProviderKey? {
      PrefixedKey("provider:", k.id);
      assert Render(k)[8] == ':' && "provider_order"[8] == '_';
    } else if k.DeviceKey? {
      PrefixedKey("device:", k.id);
      assert Render(k)[0] == 'd' && "provider_order"[0] == 'p' && "web_settings"[0] == 'w' && "application_settings"[0] == 'a';
      assert !("provider:" <= Render(k));
    }
    RenderInvertsParse(key);
  }

  lemma RenderInvertsParse(key: string)
    ensures Parse(key).Some? ==> Render(Parse(key).value) == key
  {
    hide Render;
    if "provider:" <= key {
      assert "provider:" + key[9..] == key;
    } else if "device:" <= key {
      assert "device:" + key[7..] == key;
    }
    Rendered(Parse(key));
  }

  lemma Rendered(k: Option<Key>)
    ensures k == Some(OrderKey) ==> Render(k.value) == "provider_order"
    ensures k == Some(WebKey) ==> Render(k.value) == "web_settings"
    ensures k == Some(ApplicationKey) ==> Render(k.value) == "application_settings"
    ensures k.Some? && k.value.ProviderKey? ==> Render(k.value) == "provider:" + k.value.id
    ensures k.Some? && k.value.DeviceKey? ==> Render(k.value) == "device:" + k.value.id
  {
  }

  lemma PrefixedKey(prefix: string, id: string)
    ensures prefix <= prefix + id && (prefix + id)[|prefix|..] == id
  {
  }

  // ------------------------------------------------------- specification

  /** What a validated document and a stored configuration satisfy. */
  predicate WellFormed(d: Document, c: Configuration) {
    && Distinct(ProviderIds(d.providers)) && Distinct(d.order) && Elements(d.order) == Elements(ProviderIds(d.providers))
    && Distinct(DeviceIds(d.devices)) && Distinct(DefinitionIds(c.definitions)) && Distinct(DeviceIds(c.devices))
  }

  /** The elements of `ids` that are not in `known`, in their order. */
  function Missing(ids: seq<string>, known: seq<string>): seq<string> {
    if ids == [] then []
    else
      var front, last := Missing(ids[..|ids| - 1], known), ids[|ids| - 1];
      if last in known then front else front + [last]
  }

  function KeepOrder(current: seq<string>, backup: seq<string>): seq<string> {
    current + Missing(backup, current)
  }

  function BackupOrder(current: seq<string>, backup: seq<string>): seq<string> {
    backup + Missing(current, backup)
  }

  predicate OrdersDiffer(d: Document, c: Configuration) {
    KeepOrder(DefinitionIds(c.definitions), d.order) != BackupOrder(DefinitionIds(c.definitions), d.order)
  }

  /** Where the archive and the current configuration disagree. */
  predicate Conflicting(k: Key, d: Document, c: Configuration, mode: Mode) {
    match k
    case ProviderKey(id) => id in d.order && id in DefinitionIds(c.definitions)
    case OrderKey => mode != Replace && OrdersDiffer(d, c)
    case WebKey => mode != ProvidersOnly && c.web != d.web
    case ApplicationKey => mode != ProvidersOnly && c.application != d.application
    case DeviceKey(id) =>
      mode != ProvidersOnly && id in DevicesById(c.devices) && id in DevicesById(d.devices)
      && DevicesById(c.devices)[id] != DevicesById(d.devices)[id]
  }

  /** Replace overwrites everything, so nothing is left to decide. */
  predicate Requires(k: Key, d: Document, c: Configuration, mode: Mode) {
    mode != Replace && Conflicting(k, d, c, mode)
  }

  /** Exactly the required decisions, each with a proper value. */
  ghost predicate Decided(decisions: Decisions, d: Document, c: Configuration, mode: Mode) {
    && (forall key :: key in decisions ==> Parse(key).Some? && Requires(Parse(key).value, d, c, mode) && decisions[key] != Other)
    && (forall k :: Requires(k, d, c, mode) ==> Render(k) in decisions)
  }

  predicate Says(decisions: Decisions, k: Key) {
    Render(k) in decisions && decisions[Render(k)] == UseBackup
  }

  predicate FromBackup(id: string, d: Document, c: Configuration, mode: Mode, decisions: Decisions) {
    id in d.order && (mode == Replace || id !in DefinitionIds(c.definitions) || Says(decisions, ProviderKey(id)))
  }

  function PlannedOrder(d: Document, c: Configuration, mode: Mode, decisions: Decisions): seq<string> {
    if mode == Replace then d.order
    else if Says(decisions, OrderKey) then BackupOrder(DefinitionIds(c.definitions), d.order)
    else KeepOrder(DefinitionIds(c.definitions), d.order)
  }

  predicate PlannedDefinition(x: Definition, d: Document, c: Configuration, mode: Mode, decisions: Decisions) {
    if FromBackup(x.id, d, c, mode, decisions)
    then x.id in ById(d.providers) && x == ById(d.providers)[x.id].definition
    else x.id in DefinitionsById(c.definitions) && x == DefinitionsById(c.definitions)[x.id]
  }

  predicate PlannedDevice(x: DeviceProfile, d: Document, c: Configuration, decisions: Decisions) {
    if x.id in DeviceIds(d.devices) && (x.id !in DeviceIds(c.devices) || Says(decisions, DeviceKey(x.id)))
    then x.id in DevicesById(d.devices) && x == DevicesById(d.devices)[x.id]
    else x.id in DevicesById(c.devices) && x == DevicesById(c.devices)[x.id]
  }

  /** One profile for each ID of either side, sorted by ID, each from the decided side. */
  predicate PlannedDevices(devices: seq<DeviceProfile>, d: Document, c: Configuration, decisions: Decisions) {
    && Ordering.Sorted(DeviceIds(devices))
    && Elements(DeviceIds(devices)) == Elements(DeviceIds(c.devices)) + Elements(DeviceIds(d.devices))
    && forall x :: x in devices ==> PlannedDevice(x, d, c, decisions)
  }

  datatype Plan = Plan(configuration: Configuration, backup: map<string, Provider>)

  ghost predicate IsPlan(p: Plan, d: Document, c: Configuration, mode: Mode, decisions: Decisions) {
    && DefinitionIds(p.configuration.definitions) == PlannedOrder(d, c, mode, decisions)
    && (forall x :: x in p.configuration.definitions ==> PlannedDefinition(x, d, c, mode, decisions))
    && (forall id :: id in p.backup <==> FromBackup(id, d, c, mode, decisions))
    && (forall id :: id in p.backup ==> id in ById(d.providers) && p.backup[id] == ById(d.providers)[id])
    && p.configuration.web == (if mode == Replace || (mode == Merge && Says(decisions, WebKey)) then d.web else c.web)
    && p.configuration.application ==
         (if mode == Replace || (mode == Merge && Says(decisions, ApplicationKey)) then d.application else c.application)
    && (match mode
        case Replace => p.configuration.devices == d.devices
        case Merge => PlannedDevices(p.configuration.devices, d, c, decisions)
        case _ => p.configuration.devices == c.devices)
  }

  // --------------------------------------------------- nothing is lost

  lemma {:induction false} MissingElements(ids: seq<string>, known: seq<string>)
    requires Distinct(ids)
    ensures Distinct(Missing(ids, known))
    ensures forall id :: id in Missing(ids, known) <==> id in ids && id !in known
  {
    if ids != [] {
      var n := |ids| - 1;
      MissingElements(ids[..n], known);
      assert ids == ids[..n] + [ids[n]];
    }
  }

  lemma JoinDistinct(a: seq<string>, b: seq<string>)
    requires Distinct(a) && Distinct(b) && forall id :: id in b ==> id !in a
    ensures Distinct(a + b) && Elements(a + b) == Elements(a) + Elements(b)
  {
    forall i, j | 0 <= i < j < |a + b|
      ensures (a + b)[i] != (a + b)[j]
    {
      assert j >= |a| ==> (a + b)[j] == b[j - |a|] && b[j - |a|] in b;
      assert i < |a| ==> (a + b)[i] == a[i] && a[i] in a;
    }
  }

  /** Either order names every provider of either side exactly once. */
  lemma OrdersAreComplete(current: seq<string>, backup: seq<string>)
    requires Distinct(current) && Distinct(backup)
    ensures Distinct(KeepOrder(current, backup)) && Distinct(BackupOrder(current, backup))
    ensures Elements(KeepOrder(current, backup)) == Elements(current) + Elements(backup)
    ensures Elements(BackupOrder(current, backup)) == Elements(current) + Elements(backup)
    ensures multiset(KeepOrder(current, backup)) == multiset(BackupOrder(current, backup))
  {
    hide Distinct;
    MissingElements(backup, current);
    MissingElements(current, backup);
    JoinDistinct(current, Missing(backup, current));
    JoinDistinct(backup, Missing(current, backup));
    SameCounts(KeepOrder(current, backup), BackupOrder(current, backup));
  }

  /** A plan loses and duplicates no provider, and takes each from the decided side. */
  lemma NoProviderIsLost(p: Plan, d: Document, c: Configuration, mode: Mode, decisions: Decisions)
    requires WellFormed(d, c) && IsPlan(p, d, c, mode, decisions)
    ensures var ids := DefinitionIds(p.configuration.definitions);
            && Distinct(ids)
            && Elements(ids) == Elements(d.order) + (if mode == Replace then {} else Elements(DefinitionIds(c.definitions)))
            && |ids| == |Elements(ids)|
  {
    hide Distinct, IsPlan;
    OrdersAreComplete(DefinitionIds(c.definitions), d.order);
    PlanOrder(p, d, c, mode, decisions);
    CountDistinct(DefinitionIds(p.configuration.definitions));
  }

  lemma PlanOrder(p: Plan, d: Document, c: Configuration, mode: Mode, decisions: Decisions)
    requires IsPlan(p, d, c, mode, decisions)
    ensures DefinitionIds(p.configuration.definitions) == PlannedOrder(d, c, mode, decisions)
  {
  }

  /** The decisions determine the plan completely. */
  lemma PlanIsDetermined(p: Plan, q: Plan, d: Document, c: Configuration, mode: Mode, decisions: Decisions)
    requires IsPlan(p, d, c, mode, decisions) && IsPlan(q, d, c, mode, decisions)
    ensures p == q
  {
    hide Keyed, Says, FromBackup, PlannedOrder, PlannedDevices;
    SameDefinitions(p, q, d, c, mode, decisions);
    if mode == Merge {
      SameDevices(p.configuration.devices, q.configuration.devices, d, c, decisions);
    }
    assert p.backup == q.backup;
  }

  lemma SameDefinitions(p: Plan, q: Plan, d: Document, c: Configuration, mode: Mode, decisions: Decisions)
    requires IsPlan(p, d, c, mode, decisions) && IsPlan(q, d, c, mode, decisions)
    ensures p.configuration.definitions == q.configuration.definitions
  {
    hide Keyed, Says, FromBackup, PlannedOrder, PlannedDevices;
    var a, b := p.configuration.definitions, q.configuration.definitions;
    assert |DefinitionIds(a)| == |DefinitionIds(b)|;
    forall i | 0 <= i < |a|
      ensures a[i] == b[i]
    {
      assert DefinitionIds(a)[i] == DefinitionIds(b)[i];
      assert a[i] in a && b[i] in b;
    }
  }

  lemma SameDevices(a: seq<DeviceProfile>, b: seq<DeviceProfile>, d: Document, c: Configuration, decisions: Decisions)
    requires PlannedDevices(a, d, c, decisions) && PlannedDevices(b, d, c, decisions)
    ensures a == b
  {
    hide Keyed, Says, Ordering.Sorted;
    forall id
      ensures id in DeviceIds(a) <==> id in DeviceIds(b)
    {
      assert id in Elements(DeviceIds(a)) <==> id in Elements(DeviceIds(b));
    }
    Ordering.SortedUnique(DeviceIds(a), DeviceIds(b));
    assert |a| == |DeviceIds(b)|;
    forall i | 0 <= i < |a|
      ensures a[i] == b[i]
    {
      assert DeviceIds(a)[i] == DeviceIds(b)[i];
      assert a[i] in a && b[i] in b;
    }
  }

  // ------------------------------------------------ the plan in its own terms

  predicate UsesBackup(decisions: Decisions, key: string) {
    key in decisions && decisions[key] == UseBackup
  }

  /** `rest` are the elements of `all` that are not in `front`, in their order. */
  ghost predicate OthersOf(rest: seq<string>, all: seq<string>, front: seq<string>) {
    && Distinct(rest) && (forall x :: x in rest <==> x in all && x !in front)
    && forall i, j :: 0 <= i < j < |rest| ==> Precedes(rest[i], rest[j], all)
  }

  ghost predicate Precedes(x: string, y: string, all: seq<string>) {
    exists a, b :: 0 <= a < b < |all| && all[a] == x && all[b] == y
  }

  lemma {:induction false} MissingOthers(ids: seq<string>, known: seq<string>)
    requires Distinct(ids)
    ensures OthersOf(Missing(ids, known), ids, known)
  {
    MissingElements(ids, known);
    if ids != [] {
      var n := |ids| - 1;
      MissingOthers(ids[..n], known);
      var rest, front := Missing(ids, known), Missing(ids[..n], known);
      forall i, j | 0 <= i < j < |rest|
        ensures Precedes(rest[i], rest[j], ids)
      {
        if j < |front| {
          assert Precedes(front[i], front[j], ids[..n]);
          var a, b :| 0 <= a < b < n && ids[..n][a] == rest[i] && ids[..n][b] == rest[j];
          assert ids[a] == rest[i] && ids[b] == rest[j];
        } else {
          MissingElements(ids[..n], known);
          assert front[i] in ids[..n];
          var a :| 0 <= a < n && ids[..n][a] == rest[i];
          assert ids[a] == rest[i] && ids[n] == rest[j];
        }
      }
    }
  }

  /** One side's order first, then what only the other side has, in its order. */
  ghost predicate Follows(ids: seq<string>, first: seq<string>, second: seq<string>) {
    first <= ids && OthersOf(ids[|first|..], second, first)
  }

  /** Which decision gives which order. */
  lemma PlannedOrderMeans(p: Plan, d: Document, c: Configuration, mode: Mode, decisions: Decisions)
    requires WellFormed(d, c) && IsPlan(p, d, c, mode, decisions)
    ensures var ids, current := DefinitionIds(p.configuration.definitions), DefinitionIds(c.definitions);
            if mode == Replace then ids == d.order
            else if "provider_order" in decisions && decisions["provider_order"] == UseBackup
            then Follows(ids, d.order, current) else Follows(ids, current, d.order)
  {
    hide Distinct, OthersOf, Keyed;
    var current := DefinitionIds(c.definitions);
    MissingOthers(current, d.order);
    MissingOthers(d.order, current);
    PlanOrder(p, d, c, mode, decisions);
    assert Render(OrderKey) == "provider_order";
    assert (current + Missing(d.order, current))[|current|..] == Missing(d.order, current);
    assert (d.order + Missing(current, d.order))[|d.order|..] == Missing(current, d.order);
  }

  /** The two orders begin with the current and with the archive's order. */
  lemma OrdersMean(current: seq<string>, backup: seq<string>)
    requires Distinct(current) && Distinct(backup)
    ensures Follows(KeepOrder(current, backup), current, backup)
    ensures Follows(BackupOrder(current, backup), backup, current)
  {
    hide Distinct, OthersOf;
    MissingOthers(current, backup);
    MissingOthers(backup, current);
    assert (current + Missing(backup, current))[|current|..] == Missing(backup, current);
    assert (backup + Missing(current, backup))[|backup|..] == Missing(current, backup);
  }

  /** The side that a provider's definition and secrets come from. */
  lemma PlannedProviderMeans(p: Plan, d: Document, c: Configuration, mode: Mode, decisions: Decisions, i: nat)
    requires WellFormed(d, c) && IsPlan(p, d, c, mode, decisions) && i < |p.configuration.definitions|
    ensures var x := p.configuration.definitions[i];
            if x.id in d.order
               && (mode == Replace || x.id !in DefinitionIds(c.definitions) || UsesBackup(decisions, "provider:" + x.id))
            then exists j :: 0 <= j < |d.providers| && d.providers[j].definition == x
                      && x.id in p.backup && p.backup[x.id] == d.providers[j]
            else x in c.definitions && x.id !in p.backup
  {
    hide Distinct, Keyed, PlannedOrder, PlannedDevices;
    var x := p.configuration.definitions[i];
    assert x in p.configuration.definitions && PlannedDefinition(x, d, c, mode, decisions);
    assert Render(ProviderKey(x.id)) == "provider:" + x.id;
    KeyedFinds(d.providers, ProviderIds(d.providers), x.id);
    KeyedFinds(c.definitions, DefinitionIds(c.definitions), x.id);
  }

  /** The side that the settings come from. */
  lemma PlannedSettingsMean(p: Plan, d: Document, c: Configuration, mode: Mode, decisions: Decisions)
    requires IsPlan(p, d, c, mode, decisions)
    ensures p.configuration.web ==
              if mode == Replace || (mode == Merge && UsesBackup(decisions, "web_settings")) then d.web else c.web
    ensures p.configuration.application ==
              if mode == Replace || (mode == Merge && UsesBackup(decisions, "application_settings")) then d.application
              else c.application
    ensures mode == Replace ==> p.configuration.devices == d.devices
    ensures mode == ProvidersOnly || mode == Unknown ==> p.configuration.devices == c.devices
  {
    hide Keyed, PlannedOrder, PlannedDevices, FromBackup, PlannedDefinition;
    assert Render(WebKey) == "web_settings" && Render(ApplicationKey) == "application_settings";
  }

  /** The side that a device profile comes from, when profiles are merged. */
  lemma PlannedDeviceMeans(p: Plan, d: Document, c: Configuration, decisions: Decisions, i: nat)
    requires WellFormed(d, c) && IsPlan(p, d, c, Merge, decisions) && i < |p.configuration.devices|
    ensures var x := p.configuration.devices[i];
            if x.id in DeviceIds(d.devices) && (x.id !in DeviceIds(c.devices) || UsesBackup(decisions, "device:" + x.id))
            then x in d.devices else x in c.devices
  {
    hide Distinct, Keyed, PlannedOrder, FromBackup, PlannedDefinition, Ordering.Sorted;
    var x := p.configuration.devices[i];
    assert x in p.configuration.devices && PlannedDevice(x, d, c, decisions);
    assert Render(DeviceKey(x.id)) == "device:" + x.id;
    KeyedFinds(d.devices, DeviceIds(d.devices), x.id);
    KeyedFinds(c.devices, DeviceIds(c.devices), x.id);
  }

  /** What has to be decided: every provider of both sides, a different order, and what differs in settings and profiles. */
  lemma DecidedMeans(decisions: Decisions, d: Document, c: Configuration, mode: Mode)
    requires Decided(decisions, d, c, mode)
    ensures mode == Replace ==> decisions == map[]
    ensures mode != Replace ==> forall id :: "provider:" + id in decisions <==> id in d.order && id in DefinitionIds(c.definitions)
    ensures mode != Replace ==>
              && ("provider_order" in decisions <==>
                    KeepOrder(DefinitionIds(c.definitions), d.order) != BackupOrder(DefinitionIds(c.definitions), d.order))
              && ("web_settings" in decisions <==> mode != ProvidersOnly && c.web != d.web)
              && ("application_settings" in decisions <==> mode != ProvidersOnly && c.application != d.application)
    ensures forall key :: key in decisions ==> decisions[key] == UseBackup || decisions[key] == KeepCurrent
  {
    hide Decided, Keyed, KeepOrder, BackupOrder, Parse, Render;
    DecidedValues(decisions, d, c, mode);
    forall id: string
      ensures "provider:" + id in decisions <==> Requires(ProviderKey(id), d, c, mode)
    {
      Rendered(Some(ProviderKey(id)));
      DecidedKey(decisions, d, c, mode, ProviderKey(id));
    }
    Rendered(Some(OrderKey));
    Rendered(Some(WebKey));
    Rendered(Some(ApplicationKey));
    DecidedKey(decisions, d, c, mode, OrderKey);
    DecidedKey(decisions, d, c, mode, WebKey);
    DecidedKey(decisions, d, c, mode, ApplicationKey);
  }

  lemma DecidedValues(decisions: Decisions, d: Document, c: Configuration, mode: Mode)
    requires Decided(decisions, d, c, mode)
    ensures mode == Replace ==> decisions == map[]
    ensures forall key :: key in decisions ==> decisions[key] == UseBackup || decisions[key] == KeepCurrent
  {
    hide Conflicting, Parse, Render;
    if mode == Replace {
      assert decisions.Keys == {};
    }
  }

  lemma DecidedKey(decisions: Decisions, d: Document, c: Configuration, mode: Mode, k: Key)
    requires Decided(decisions, d, c, mode)
    ensures Render(k) in decisions <==> Requires(k, d, c, mode)
  {
    hide Conflicting;
    ParseInvertsRender(k, Render(k));
  }

  /** A device profile has to be decided exactly if both sides have it and differ. */
  lemma DecidedDeviceMeans(decisions: Decisions, d: Document, c: Configuration, mode: Mode, i: nat, j: nat)
    requires WellFormed(d, c) && Decided(decisions, d, c, mode) && mode != Replace
    requires i < |d.devices| && j < |c.devices| && d.devices[i].id == c.devices[j].id
    ensures "device:" + d.devices[i].id in decisions <==> mode != ProvidersOnly && d.devices[i] != c.devices[j]
  {
    hide Distinct, Keyed, Decided, KeepOrder, BackupOrder, Parse, Render;
    var id := d.devices[i].id;
    Rendered(Some(DeviceKey(id)));
    DecidedKey(decisions, d, c, mode, DeviceKey(id));
    KeyedAt(d.devices, DeviceIds(d.devices), i);
    KeyedAt(c.devices, DeviceIds(c.devices), j);
  }

  // ------------------------------------------------------------ operations

  /** `providerOrderChoices`. */
  method ProviderOrderChoices(current: seq<Definition>, backupOrder: seq<string>)
    returns (keep: seq<string>, useBackup: seq<string>)
    ensures keep == KeepOrder(DefinitionIds(current), backupOrder)
    ensures useBackup == BackupOrder(DefinitionIds(current), backupOrder)
  {
    var currentIds: seq<string> := [];
    for i := 0 to |current|
      invariant currentIds == DefinitionIds(current)[..i]
    {
      currentIds := currentIds + [current[i].id];
    }
    assert currentIds == DefinitionIds(current);
    keep := AppendMissing(currentIds, backupOrder, currentIds);
    useBackup := AppendMissing(backupOrder, currentIds, backupOrder);
  }

  /** The two loops of `providerOrderChoices` that append what a set does not hold. */
  method AppendMissing(start: seq<string>, ids: seq<string>, known: seq<string>) returns (r: seq<string>)
    ensures r == start + Missing(ids, known)
  {
    var knownSet := Elements(known);
    r := start;
    for i := 0 to |ids|
      invariant r == start + Missing(ids[..i], known)
    {
      assert ids[..i + 1][..i] == ids[..i];
      if ids[i] !in knownSet {
        r := r + [ids[i]];
      }
    }
    assert ids[..|ids|] == ids;
  }

  ghost predicate Lists(conflicts: seq<Conflict>, k: Key) {
    exists i :: 0 <= i < |conflicts| && conflicts[i].key == k
  }

  /** Everything that may conflict, in the order of the preview. */
  function AllKeys(d: Document): seq<Key> {
    ProviderKeys(d.order) + [OrderKey] + [WebKey] + [ApplicationKey] + DeviceKeys(d.devices)
  }

  function ProviderKeys(ids: seq<string>): seq<Key> {
    seq(|ids|, i requires 0 <= i < |ids| => ProviderKey(ids[i]))
  }

  function DeviceKeys(devices: seq<DeviceProfile>): seq<Key> {
    seq(|devices|, i requires 0 <= i < |devices| => DeviceKey(devices[i].id))
  }

  /** Those of the keys that conflict. */
  function Select(keys: seq<Key>, d: Document, c: Configuration, mode: Mode): seq<Key> {
    if keys == [] then []
    else
      var front, last := Select(keys[..|keys| - 1], d, c, mode), keys[|keys| - 1];
      if Conflicting(last, d, c, mode) then front + [last] else front
  }

  function KeysOf(conflicts: seq<Conflict>): seq<Key> {
    seq(|conflicts|, i requires 0 <= i < |conflicts| => conflicts[i].key)
  }

  /** How a conflict is shown. */
  function Shown(k: Key, d: Document, c: Configuration, mode: Mode): Conflict {
    match k
    case ProviderKey(id) =>
      Conflict(k, if id in DefinitionsById(c.definitions) then DefinitionsById(c.definitions)[id].displayName else "",
               if id in ById(d.providers) then ById(d.providers)[id].definition.displayName else "", mode != Replace)
    case OrderKey => Conflict(k, "current Provider order", "backup Provider order", mode != Replace)
    case WebKey => Conflict(k, "current settings", "backup settings", mode != Replace)
    case ApplicationKey => Conflict(k, "current settings", "backup settings", mode != Replace)
    case DeviceKey(id) => Conflict(k, id, id, mode != Replace)
  }

  /** A provider is shown under its name on either side, a device profile under its ID. */
  lemma ShownMeans(k: Key, d: Document, c: Configuration, mode: Mode)
    requires WellFormed(d, c) && Conflicting(k, d, c, mode)
    ensures var x := Shown(k, d, c, mode);
            && x.key == k && x.decisionRequired == (mode != Replace)
            && (k.ProviderKey? ==>
                  exists i, j :: 0 <= i < |c.definitions| && 0 <= j < |d.providers|
                    && c.definitions[i].id == d.providers[j].definition.id == k.id
                    && x.currentLabel == c.definitions[i].displayName
                    && x.backupLabel == d.providers[j].definition.displayName)
            && (k.DeviceKey? ==> x.currentLabel == x.backupLabel == k.id)
  {
    hide Keyed, Distinct;
    if k.ProviderKey? {
      KeyedFinds(c.definitions, DefinitionIds(c.definitions), k.id);
      assert k.id in Elements(d.order);
      KeyedFinds(d.providers, ProviderIds(d.providers), k.id);
    }
  }

  /** The conflicts among the keys, each once, in order and as it should be shown. */
  ghost predicate Shows(conflicts: seq<Conflict>, keys: seq<Key>, d: Document, c: Configuration, mode: Mode) {
    && KeysOf(conflicts) == Select(keys, d, c, mode)
    && forall x :: x in conflicts ==> x == Shown(x.key, d, c, mode)
  }

  lemma ShowsMore(conflicts: seq<Conflict>, keys: seq<Key>, k: Key, d: Document, c: Configuration, mode: Mode)
    requires Shows(conflicts, keys, d, c, mode)
    ensures Shows(if Conflicting(k, d, c, mode) then conflicts + [Shown(k, d, c, mode)] else conflicts, keys + [k], d, c, mode)
  {
    hide Conflicting, Keyed;
    assert (keys + [k])[..|keys|] == keys;
    assert KeysOf(conflicts + [Shown(k, d, c, mode)]) == KeysOf(conflicts) + [k];
  }

  lemma {:induction false} Selected(keys: seq<Key>, d: Document, c: Configuration, mode: Mode, k: Key)
    ensures k in Select(keys, d, c, mode) <==> k in keys && Conflicting(k, d, c, mode)
  {
    hide Conflicting;
    if keys != [] {
      Selected(keys[..|keys| - 1], d, c, mode, k);
      assert keys == keys[..|keys| - 1] + [keys[|keys| - 1]];
    }
  }

  lemma AllKeysConflict(d: Document, c: Configuration, mode: Mode, k: Key)
    ensures Conflicting(k, d, c, mode) ==> k in AllKeys(d)
  {
    hide Keyed;
    if Conflicting(k, d, c, mode) {
      match k
      case ProviderKey(id) =>
        var i :| 0 <= i < |d.order| && d.order[i] == id;
        assert ProviderKeys(d.order)[i] == k;
      case DeviceKey(id) =>
        KeyedFinds(d.devices, DeviceIds(d.devices), id);
        var i :| 0 <= i < |d.devices| && DeviceIds(d.devices)[i] == id;
        assert DeviceKeys(d.devices)[i] == k;
      case _ =>
    }
  }

  /** A preview lists a key exactly if archive and configuration disagree on it. */
  lemma ShownListed(conflicts: seq<Conflict>, d: Document, c: Configuration, mode: Mode)
    requires Shows(conflicts, AllKeys(d), d, c, mode)
    ensures forall k :: Lists(conflicts, k) <==> Conflicting(k, d, c, mode)
    ensures forall x :: x in conflicts ==> x.decisionRequired == (mode != Replace)
  {
    hide Conflicting, Select, AllKeys, Keyed;
    forall k
      ensures Lists(conflicts, k) <==> Conflicting(k, d, c, mode)
    {
      Selected(AllKeys(d), d, c, mode, k);
      AllKeysConflict(d, c, mode, k);
      if Lists(conflicts, k) {
        var i :| 0 <= i < |conflicts| && conflicts[i].key == k;
        assert KeysOf(conflicts)[i] == k;
      }
      if k in KeysOf(conflicts) {
        var i :| 0 <= i < |KeysOf(conflicts)| && KeysOf(conflicts)[i] == k;
        assert conflicts[i].key == k;
      }
    }
  }

  lemma NextInOrder(d: Document, c: Configuration, i: nat)
    requires WellFormed(d, c) && i < |d.order|
    ensures d.order[..i + 1] == d.order[..i] + [d.order[i]] && d.order[i] !in d.order[..i] && d.order[i] in d.order
    ensures d.order[i] in ById(d.providers) && ById(d.providers)[d.order[i]].definition.id == d.order[i]
    ensures var ids := DefinitionIds(c.definitions);
            KeepOrder(ids, d.order[..i + 1]) ==
              KeepOrder(ids, d.order[..i]) + (if d.order[i] in ids then [] else [d.order[i]])
  {
    hide Keyed;
    assert d.order[..i + 1][..i] == d.order[..i];
    assert d.order[i] in Elements(d.order);
    KeyedFinds(d.providers, ProviderIds(d.providers), d.order[i]);
  }

  /** `providersInOrder`. */
  method ProvidersInOrder(d: Document, ghost c: Configuration) returns (ordered: seq<Provider>)
    requires WellFormed(d, c)
    ensures |ordered| == |d.order|
    ensures forall i :: 0 <= i < |ordered| ==> d.order[i] in ById(d.providers) && ordered[i] == ById(d.providers)[d.order[i]]
    ensures forall i :: 0 <= i < |ordered| ==> ordered[i].definition.id == d.order[i]
  {
    hide Distinct, Keyed;
    var byId := ById(d.providers);
    ordered := [];
    for i := 0 to |d.order|
      invariant |ordered| == i
      invariant forall j :: 0 <= j < i ==> d.order[j] in byId && ordered[j] == byId[d.order[j]]
      invariant forall j :: 0 <= j < i ==> ordered[j].definition.id == d.order[j]
    {
      NextInOrder(d, c, i);
      ordered := ordered + [byId[d.order[i]]];
    }
  }

  /** One line a provider, in the archive's order. */
  predicate Lines(providers: seq<ProviderPreview>, n: nat, d: Document, c: Configuration) {
    && |providers| == n <= |d.order|
    && forall i :: 0 <= i < n ==>
         && d.order[i] in ById(d.providers)
         && providers[i] == ProviderPreview(d.order[i], ById(d.providers)[d.order[i]].definition.displayName,
                                            |ById(d.providers)[d.order[i]].secrets|, d.order[i] in DefinitionIds(c.definitions))
  }

  /** `previewDocument`: the providers, and the conflicts, each marked as to be decided or not. */
  method PreviewDocument(d: Document, c: Configuration, mode: Mode) returns (r: Option<Preview>)
    requires WellFormed(d, c)
    ensures r.None? <==> mode == Unknown
    ensures r.Some? ==> Shows(r.value.conflicts, AllKeys(d), d, c, mode)
    ensures r.Some? ==> Lines(r.value.providers, |d.order|, d, c)
    ensures r.Some? ==> r.value.deviceProfileCount == |d.devices| && r.value.replaceWarning == (mode == Replace)
  {
    hide Distinct, Shows, Lines, WellFormed, Keyed, KeepOrder, BackupOrder;
    if mode == Unknown {
      return None;
    }
    var required := mode != Replace;
    var providers, conflicts := ProviderConflicts(d, c, mode);
    ghost var keys := ProviderKeys(d.order);
    ShowsMore(conflicts, keys, OrderKey, d, c, mode);
    if mode != Replace {
      var keep, useBackup := ProviderOrderChoices(c.definitions, d.order);
      if keep != useBackup {
        conflicts := conflicts + [Conflict(OrderKey, "current Provider order", "backup Provider order", true)];
      }
    }
    ShowsMore(conflicts, keys + [OrderKey], WebKey, d, c, mode);
    if mode != ProvidersOnly && c.web != d.web {
      conflicts := conflicts + [Conflict(WebKey, "current settings", "backup settings", required)];
    }
    ShowsMore(conflicts, keys + [OrderKey] + [WebKey], ApplicationKey, d, c, mode);
    if mode != ProvidersOnly && c.application != d.application {
      conflicts := conflicts + [Conflict(ApplicationKey, "current settings", "backup settings", required)];
    }
    conflicts := DeviceConflicts(conflicts, keys + [OrderKey] + [WebKey] + [ApplicationKey], d, c, mode);
    r := Some(Preview(providers, |d.devices|, mode == Replace, conflicts));
  }

  /** The loop over the archive's providers. */
  method ProviderConflicts(d: Document, c: Configuration, mode: Mode)
    returns (providers: seq<ProviderPreview>, conflicts: seq<Conflict>)
    requires WellFormed(d, c)
    ensures Shows(conflicts, ProviderKeys(d.order), d, c, mode) && Lines(providers, |d.order|, d, c)
  {
    hide Keyed, WellFormed, Shows;
    var current := DefinitionsById(c.definitions);
    var ordered := ProvidersInOrder(d, c);
    providers, conflicts := [], [];
    NothingShown(d, c, mode);
    for i := 0 to |ordered|
      invariant Shows(conflicts, ProviderKeys(d.order)[..i], d, c, mode) && Lines(providers, i, d, c)
    {
      var provider := ordered[i];
      var id := provider.definition.id;
      var conflict := id in current;
      KeyedFinds(c.definitions, DefinitionIds(c.definitions), id);
      assert ProviderKeys(d.order)[..i + 1] == ProviderKeys(d.order)[..i] + [ProviderKey(id)];
      ShowsMore(conflicts, ProviderKeys(d.order)[..i], ProviderKey(id), d, c, mode);
      providers := providers + [ProviderPreview(id, provider.definition.displayName, |provider.secrets|, conflict)];
      if conflict {
        var backupLabel := provider.definition.displayName;
        conflicts := conflicts + [Conflict(ProviderKey(id), current[id].displayName, backupLabel, mode != Replace)];
      }
    }
    assert ProviderKeys(d.order)[..|d.order|] == ProviderKeys(d.order);
  }

  lemma NothingShown(d: Document, c: Configuration, mode: Mode)
    ensures Shows([], ProviderKeys(d.order)[..0], d, c, mode)
  {
  }

  /** The loop over the archive's device profiles, which only two of the modes have. */
  method DeviceConflicts(before: seq<Conflict>, ghost keys: seq<Key>, d: Document, c: Configuration, mode: Mode)
    returns (conflicts: seq<Conflict>)
    requires WellFormed(d, c) && Shows(before, keys, d, c, mode)
    ensures Shows(conflicts, keys + DeviceKeys(d.devices), d, c, mode)
  {
    hide Distinct, Keyed, Shows, WellFormed;
    var current := DevicesById(c.devices);
    conflicts := before;
    ghost var more := DeviceKeys(d.devices);
    assert keys + more[..0] == keys;
    for i := 0 to |d.devices|
      invariant Shows(conflicts, keys + more[..i], d, c, mode)
    {
      var profile := d.devices[i];
      assert keys + more[..i + 1] == keys + more[..i] + [DeviceKey(profile.id)];
      ShowsMore(conflicts, keys + more[..i], DeviceKey(profile.id), d, c, mode);
      DeviceAt(d, c, i);
      if mode != ProvidersOnly && profile.id in current && current[profile.id] != profile {
        conflicts := conflicts + [Conflict(DeviceKey(profile.id), profile.id, profile.id, mode != Replace)];
      }
    }
    assert more[..|d.devices|] == more;
  }

  lemma DeviceAt(d: Document, c: Configuration, i: nat)
    requires WellFormed(d, c) && i < |d.devices|
    ensures d.devices[i].id in DevicesById(d.devices) && DevicesById(d.devices)[d.devices[i].id] == d.devices[i]
  {
    hide Keyed, Distinct;
    KeyedAt(d.devices, DeviceIds(d.devices), i);
  }

  /** The first part of `planImport`: the decisions, taken one by one in any order. */
  method CheckDecisions(conflicts: seq<Conflict>, d: Document, c: Configuration, mode: Mode, decisions: Decisions)
    returns (ok: bool)
    requires forall k :: Lists(conflicts, k) <==> Conflicting(k, d, c, mode)
    requires forall x :: x in conflicts ==> x.decisionRequired == (mode != Replace)
    ensures ok <==> Decided(decisions, d, c, mode)
  {
    hide Conflicting, Decided, Requires;
    var required := RequiredKeys(conflicts);
    KeysRequired(conflicts, d, c, mode, required);
    KnownKeys(d, c, mode, required, decisions);
    if mode == Replace && |decisions| != 0 {
      NotEmpty(decisions);
      return false;
    }
    ok := TakeDecisions(required, decisions);
  }

  lemma NotEmpty(decisions: Decisions)
    ensures |decisions| != 0 ==> decisions.Keys != {}
  {
  }

  method TakeDecisions(keys: set<string>, decisions: Decisions) returns (ok: bool)
    ensures ok <==> decisions.Keys == keys && forall key :: key in decisions ==> decisions[key] != Other
  {
    var required, left := keys, decisions.Keys;
    while left != {}
      invariant left <= decisions.Keys && required == keys - (decisions.Keys - left)
      invariant forall key :: key in decisions.Keys - left ==> key in keys && decisions[key] != Other
      decreases left
    {
      var key :| key in left;
      if key !in required || decisions[key] == Other {
        return false;
      }
      required := required - {key};
      left := left - {key};
    }
    ok := required == {};
  }

  method RequiredKeys(conflicts: seq<Conflict>) returns (required: set<string>)
    ensures forall key :: key in required <==>
              exists i :: 0 <= i < |conflicts| && conflicts[i].decisionRequired && Render(conflicts[i].key) == key
  {
    hide Render;
    required := {};
    for i := 0 to |conflicts|
      invariant forall key :: key in required <==>
                  exists j :: 0 <= j < i && conflicts[j].decisionRequired && Render(conflicts[j].key) == key
    {
      if conflicts[i].decisionRequired {
        required := required + {Render(conflicts[i].key)};
      }
    }
  }

  lemma KeysRequired(conflicts: seq<Conflict>, d: Document, c: Configuration, mode: Mode, required: set<string>)
    requires forall k :: Lists(conflicts, k) <==> Conflicting(k, d, c, mode)
    requires forall x :: x in conflicts ==> x.decisionRequired == (mode != Replace)
    requires forall key :: key in required <==>
               exists i :: 0 <= i < |conflicts| && conflicts[i].decisionRequired && Render(conflicts[i].key) == key
    ensures forall k :: Requires(k, d, c, mode) <==> Render(k) in required
    ensures forall key :: key in required ==> Parse(key).Some? && Requires(Parse(key).value, d, c, mode)
  {
    hide Render, Parse, Conflicting;
    forall key | key in required
      ensures Parse(key).Some? && Requires(Parse(key).value, d, c, mode)
    {
      var i :| 0 <= i < |conflicts| && conflicts[i].decisionRequired && Render(conflicts[i].key) == key;
      ParseInvertsRender(conflicts[i].key, key);
      assert Lists(conflicts, conflicts[i].key) && conflicts[i] in conflicts;
    }
    forall k
      ensures Requires(k, d, c, mode) <==> Render(k) in required
    {
      ParseInvertsRender(k, Render(k));
      if Requires(k, d, c, mode) {
        assert Lists(conflicts, k);
        var i :| 0 <= i < |conflicts| && conflicts[i].key == k;
        assert conflicts[i] in conflicts;
      }
    }
  }

  /** Deciding is covering the required keys exactly. */
  lemma KnownKeys(d: Document, c: Configuration, mode: Mode, required: set<string>, decisions: Decisions)
    requires forall k :: Requires(k, d, c, mode) <==> Render(k) in required
    requires forall key :: key in required ==> Parse(key).Some? && Requires(Parse(key).value, d, c, mode)
    ensures mode == Replace ==> required == {}
    ensures Decided(decisions, d, c, mode) <==>
              decisions.Keys == required && forall key :: key in decisions ==> decisions[key] != Other
  {
    hide Render, Parse, Conflicting;
    forall key | key in decisions && Parse(key).Some? && Requires(Parse(key).value, d, c, mode)
      ensures key in required
    {
      ParseInvertsRender(Parse(key).value, key);
    }
    forall key | key in required && Decided(decisions, d, c, mode)
      ensures key in decisions
    {
      ParseInvertsRender(Parse(key).value, key);
    }
  }
}
