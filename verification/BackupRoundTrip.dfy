/**
  `Export` of `backup/service.go`, and what becomes of its archive: imported with
  Replace it brings back the same configuration with the same secrets.
*/
module BackupRoundTrip {
  import opened Wrappers
  import opened BackupModel
  import opened BackupChoices
  import opened BackupVault
  import opened BackupBackend
  import opened BackupStaging
  import opened BackupOutcome

  /** A definition without its references. */
  function Stripped(x: Definition): Definition {
    x.(headers := seq(|x.headers|, k requires 0 <= k < |x.headers| => Header(x.headers[k].name, None)))
  }

  /** The provider is the definition's draft, with the secrets its references stood for. */
  ghost predicate ProviderOf(p: Provider, x: Definition, w: World) {
    && p.definition == Stripped(x) && |p.secrets| == |x.headers|
    && forall k :: 0 <= k < |x.headers| ==> SecretOf(p.secrets[k], x.headers[k], k, w)
  }

  ghost predicate SecretOf(s: ProviderSecret, h: Header, k: nat, w: World) {
    s.headerIndex == k && h.reference.Some? && h.reference.value in w.vault && w.vault[h.reference.value] == Some(s.value)
  }

  /** The document shows the configuration and the secrets of one moment. */
  ghost predicate ExportOf(d: Document, w: World) {
    && |d.providers| == |w.config.definitions| && d.order == DefinitionIds(w.config.definitions)
    && (forall i :: 0 <= i < |d.providers| ==> ProviderOf(d.providers[i], w.config.definitions[i], w))
    && d.web == w.config.web && d.application == w.config.application && d.devices == w.config.devices
  }

  /** A header has no reference, so its secret cannot be read. */
  ghost predicate Unbound(c: Configuration) {
    exists x, h :: x in c.definitions && h in x.headers && h.reference.None?
  }

  /** The loop over one definition's headers. */
  method ExportProvider(store: Backend, x: Definition, ghost w: World, me: ImportId) returns (p: Option<Provider>)
    requires Valid(store.View()) && Valid(w) && x in w.config.definitions && Rely(w, store.View(), me)
    modifies store
    ensures Valid(store.View()) && Rely(w, store.View(), me) && store.calls == old(store.calls)
    ensures p.Some? ==> ProviderOf(p.value, x, w)
    ensures store.faults >= old(store.faults)
    ensures p.None? ==> store.faults > old(store.faults) || |store.commits| > |w.commits|
                        || exists h :: h in x.headers && h.reference.None?
  {
    hide Valid, Rely;
    var draft := x;
    var secrets: seq<ProviderSecret> := [];
    for k := 0 to |x.headers|
      invariant Valid(store.View()) && Rely(w, store.View(), me) && store.calls == old(store.calls)
      invariant store.faults == old(store.faults)
      invariant draft == x.(headers := draft.headers) && |draft.headers| == |x.headers| && |secrets| == k
      invariant forall j :: 0 <= j < k ==> draft.headers[j] == Header(x.headers[j].name, None) && SecretOf(secrets[j], x.headers[j], j, w)
      invariant forall j :: k <= j < |x.headers| ==> draft.headers[j] == x.headers[j]
    {
      ghost var before := store.View();
      store.Others(me);
      RelyTransitive(w, before, store.View(), me);
      var reference := draft.headers[k].reference;
      var readable := *;
      if !readable {
        store.faults := store.faults + 1;
        return None;
      }
      StillThere(w, store.View(), me, x, k);
      if reference.None? || reference.value !in store.vault || store.vault[reference.value].None? {
        return None;
      }
      ReadsOld(w, store.View(), me, x, k);
      draft := draft.(headers := draft.headers[k := draft.headers[k].(reference := None)]);
      secrets := secrets + [ProviderSecret(k, store.vault[reference.value].value)];
    }
    assert draft.headers == Stripped(x).headers;
    p := Some(Provider(draft, secrets));
  }

  /** Whatever is read later is what was there when the configuration was read. */
  lemma ReadsOld(w: World, w': World, me: ImportId, x: Definition, k: nat)
    requires Valid(w) && x in w.config.definitions && Rely(w, w', me) && k < |x.headers| && x.headers[k].reference.Some?
    requires x.headers[k].reference.value in w'.vault
    ensures x.headers[k].reference.value in w.vault
    ensures w.vault[x.headers[k].reference.value] == w'.vault[x.headers[k].reference.value]
  {
    hide ValidConfiguration, Chained, Accounted;
    var r := x.headers[k].reference.value;
    assert x.headers[k] in x.headers;
    assert r in Active(w.config);
    assert Settled(w, w', r);
  }

  /** Without a commit since then, what the configuration refers to is still there. */
  lemma StillThere(w: World, w': World, me: ImportId, x: Definition, k: nat)
    requires Valid(w) && Valid(w') && Rely(w, w', me) && x in w.config.definitions && k < |x.headers|
    ensures x.headers[k] in x.headers
    ensures x.headers[k].reference.Some? && |w'.commits| <= |w.commits| ==>
              x.headers[k].reference.value in w'.vault && w'.vault[x.headers[k].reference.value].Some?
  {
    hide ValidConfiguration, Chained, Accounted;
    NoCommitNoChange(w, w');
    if x.headers[k].reference.Some? {
      assert x.headers[k] in x.headers;
      assert x.headers[k].reference.value in Active(w.config);
    }
  }

  /**
    `Export`: a consistent archive of the configuration as read, whatever other
    imports do meanwhile, or nothing, for a cause: a fault, a commit by others since
    then, a header without a reference, or a document that the formats refuse. Export
    itself takes no step on the store.
  */
  method Export(store: Backend, formats: Formats, me: ImportId) returns (d: Option<Document>, ghost w: World)
    requires Valid(store.View())
    modifies store
    ensures Valid(store.View()) && Valid(w) && Rely(old(store.View()), w, me) && Rely(w, store.View(), me)
    ensures store.calls == old(store.calls)
    ensures d.Some? ==> ExportOf(d.value, w) && ValidDocument(d.value, formats)
    ensures d.None? ==>
              || store.faults > old(store.faults) || |store.commits| > |w.commits| || Unbound(w.config)
              || exists refused :: ExportOf(refused, w) && !ValidDocument(refused, formats)
  {
    hide Valid, Rely, ValidDocument;
    store.Others(me);
    w := store.View();
    RelyReflexive(w, me);
    var read := *;
    if !read {
      store.faults := store.faults + 1;
      return None, w;
    }
    var configuration := store.config;
    var providers: seq<Provider> := [];
    var order: seq<string> := [];
    for i := 0 to |configuration.definitions|
      invariant Valid(store.View()) && Rely(w, store.View(), me) && store.calls == old(store.calls)
      invariant store.faults >= old(store.faults)
      invariant |providers| == i && order == DefinitionIds(configuration.definitions)[..i]
      invariant forall j :: 0 <= j < i ==> ProviderOf(providers[j], configuration.definitions[j], w)
    {
      var provider := ExportProvider(store, configuration.definitions[i], w, me);
      if provider.None? {
        return None, w;
      }
      providers := providers + [provider.value];
      order := order + [configuration.definitions[i].id];
    }
    var document := Document(providers, order, configuration.web, configuration.application, configuration.devices);
    var ok := ValidateDocument(document, formats);
    if !ok {
      assert ExportOf(document, w);
      return None, w;
    }
    var encrypted := *;
    if !encrypted {
      store.faults := store.faults + 1;
      return None, w;
    }
    d := Some(document);
  }

  /** Same definitions in the same order, and each header's reference leads to the same secret. */
  ghost predicate SameConfiguration(a: World, b: World) {
    && |a.config.definitions| == |b.config.definitions|
    && (forall i :: 0 <= i < |a.config.definitions| ==> SameDefinition(a.config.definitions[i], b.config.definitions[i], a, b))
    && a.config.web == b.config.web && a.config.application == b.config.application && a.config.devices == b.config.devices
  }

  ghost predicate SameDefinition(x: Definition, y: Definition, a: World, b: World) {
    && x.id == y.id && x.displayName == y.displayName && x.request == y.request
    && Stripped(x) == Stripped(y) && |x.headers| == |y.headers|
    && forall k :: 0 <= k < |x.headers| ==> SameSecret(x.headers[k], y.headers[k], a, b)
  }

  ghost predicate SameSecret(x: Header, y: Header, a: World, b: World) {
    && x.name == y.name && x.reference.Some? && y.reference.Some?
    && x.reference.value in a.vault && y.reference.value in b.vault
    && a.vault[x.reference.value] == b.vault[y.reference.value] && a.vault[x.reference.value].Some?
  }

  /** Exporting and importing with Replace, at any two moments, restores everything. */
  lemma RoundTrip(d: Document, formats: Formats, exported: World, plan: Plan, at: World, me: ImportId,
                  decisions: Decisions, mine: map<Reference, Secret>)
    requires ExportOf(d, exported) && ValidDocument(d, formats)
    requires Commits(at, me, plan, d, Mode.Replace, decisions, mine)
    ensures SameConfiguration(exported, at)
  {
    hide Distinct, ValidProvider, ValidDocument, Decided, ProviderOf, Resolves, SameDefinition, Keyed, FromBackup, Stripped;
    ReplacedOrder(d, plan, at, me, decisions, mine);
    assert |DefinitionIds(at.config.definitions)| == |DefinitionIds(exported.config.definitions)|;
    forall i | 0 <= i < |exported.config.definitions|
      ensures SameDefinition(exported.config.definitions[i], at.config.definitions[i], exported, at)
    {
      assert DefinitionIds(at.config.definitions)[i] == d.order[i];
      CommittedDefinitions(at, me, plan, d, formats, Mode.Replace, decisions, mine, i);
      ReplacedFromBackup(d, at, decisions, i);
      ProviderAt(d, formats, exported, i);
      BackAgain(exported.config.definitions[i], at.config.definitions[i], d.providers[i], exported, at);
    }
  }

  lemma ReplacedOrder(d: Document, plan: Plan, at: World, me: ImportId, decisions: Decisions, mine: map<Reference, Secret>)
    requires Commits(at, me, plan, d, Mode.Replace, decisions, mine)
    ensures DefinitionIds(at.config.definitions) == d.order
    ensures at.config.web == d.web && at.config.application == d.application && at.config.devices == d.devices
  {
    hide Decided, FromBackup, Keyed, Bound;
    var planned, placed := plan.configuration.definitions, at.config.definitions;
    forall i | 0 <= i < |placed|
      ensures placed[i].id == planned[i].id
    {
      assert DefinitionFilled(plan, planned[i], placed[i], mine);
      BoundId(plan, planned[i], placed[i], mine);
    }
    assert DefinitionIds(placed) == DefinitionIds(planned);
  }

  lemma BoundId(plan: Plan, before: Definition, after: Definition, mine: map<Reference, Secret>)
    requires DefinitionFilled(plan, before, after, mine)
    ensures after.id == before.id
  {
  }

  lemma ReplacedFromBackup(d: Document, at: World, decisions: Decisions, i: nat)
    requires at.commits != [] && i < |d.order|
    ensures FromBackup(d.order[i], d, at.commits[|at.commits| - 1].expected, Mode.Replace, decisions)
  {
  }

  lemma ProviderAt(d: Document, formats: Formats, w: World, i: nat)
    requires ExportOf(d, w) && ValidDocument(d, formats) && i < |d.providers|
    ensures d.order[i] in ById(d.providers) && ById(d.providers)[d.order[i]] == d.providers[i]
  {
    hide Distinct, ValidProvider, Keyed;
    assert ProviderOf(d.providers[i], w.config.definitions[i], w);
    assert ProviderIds(d.providers)[i] == d.order[i];
    KeyedAt(d.providers, ProviderIds(d.providers), i);
  }

  lemma BackAgain(x: Definition, y: Definition, p: Provider, a: World, b: World)
    requires ProviderOf(p, x, a) && Resolves(y, p, b)
    ensures SameDefinition(x, y, a, b)
  {
    forall k | 0 <= k < |x.headers|
      ensures SameSecret(x.headers[k], y.headers[k], a, b) && Stripped(x).headers[k] == Stripped(y).headers[k]
    {
      assert SecretOf(p.secrets[k], x.headers[k], k, a);
      assert HeaderResolves(y.headers[k], p.definition.headers[k], p.secrets[k].value, b);
      assert p.definition.headers[k] == Stripped(x).headers[k];
    }
    assert Stripped(x).headers == Stripped(y).headers;
  }
}
