/**
  What an import of `backup/service.go` holds while it stages secrets, and what
  it builds: the planned configuration with a reference in every backup header.
*/
module BackupStaging {
  import opened Wrappers
  import opened BackupModel
  import opened BackupChoices
  import opened BackupVault
  import opened BackupBackend

  /** What an import knows while it stages: its references are journaled, and `mine` hold their secrets. */
  ghost predicate Holding(w: World, me: ImportId, staged: seq<Reference>, mine: map<Reference, Secret>) {
    && me !in w.closed
    && (forall r :: r in staged ==> Owns(w, me, r) && r in w.journal)
    && (forall r :: r in mine ==> r in staged && r in w.vault && w.vault[r] == Some(mine[r]))
  }

  lemma HoldingStays(w: World, w': World, me: ImportId, staged: seq<Reference>, mine: map<Reference, Secret>)
    requires Holding(w, me, staged, mine) && Rely(w, w', me)
    ensures Holding(w', me, staged, mine)
  {
    hide Active;
    forall r | r in staged
      ensures Owns(w', me, r) && r in w'.journal
    {
      assert MineUnchanged(w, w', r);
    }
    forall r | r in mine
      ensures r in staged && r in w'.vault && w'.vault[r] == Some(mine[r])
    {
      assert MineUnchanged(w, w', r);
    }
  }

  lemma CommitsGrow(w: World, w': World, me: ImportId)
    requires Rely(w, w', me)
    ensures w.commits <= w'.commits && w'.start == w.start && w.owner.Keys <= w'.owner.Keys
  {
    hide Active;
  }

  lemma MineStays(w: World, w': World, me: ImportId, r: Reference)
    requires Owns(w, me, r) && me !in w.closed && Rely(w, w', me)
    ensures MineUnchanged(w, w', r) && Owns(w', me, r) && me !in w'.closed
  {
    hide Active;
  }

  /** The steps on one reference of an import's own leave what it holds. */
  lemma StepHolds(w: World, me: ImportId, op: Op, staged: seq<Reference>, mine: map<Reference, Secret>)
    requires Valid(w) && Allowed(w, me, op) && Holding(w, me, staged, mine)
    requires op.Reserve? || op.Stage? || (op.Write? && op.r !in mine) || (op.Remove? && op.r !in staged)
    ensures Holding(Perform(w, me, op), me, staged, mine)
  {
    hide Active, ValidConfiguration, Chained;
  }

  /** Nothing that was staged is forgotten or overwritten. */
  ghost predicate Kept(before: map<Reference, Secret>, after: map<Reference, Secret>) {
    forall r :: r in before ==> r in after && after[r] == before[r]
  }

  /** A draft has no references, and its secrets are those of its headers, in order. */
  predicate Draft(definition: Definition, provider: Provider) {
    && (forall k :: 0 <= k < |definition.headers| ==> definition.headers[k].reference.None?)
    && |provider.secrets| == |definition.headers|
    && forall k :: 0 <= k < |provider.secrets| ==> provider.secrets[k].headerIndex == k
  }

  predicate Drafts(plan: Plan) {
    forall i :: 0 <= i < |plan.configuration.definitions| && plan.configuration.definitions[i].id in plan.backup ==>
                  Draft(plan.configuration.definitions[i], plan.backup[plan.configuration.definitions[i].id])
  }

  function References(x: Definition): set<Reference> {
    set h | h in x.headers && h.reference.Some? :: h.reference.value
  }

  lemma NoReferences(definition: Definition, provider: Provider)
    requires Draft(definition, provider)
    ensures References(definition) == {}
  {
  }

  lemma ReferencesMore(definition: Definition, filled: Definition, provider: Provider, mine: map<Reference, Secret>,
                       k: nat, r: Reference)
    requires Draft(definition, provider) && k < |provider.secrets| && Bound(definition, filled, provider, mine, k)
    ensures k < |filled.headers|
    ensures References(filled.(headers := filled.headers[k := filled.headers[k].(reference := Some(r))])) == References(filled) + {r}
  {
    var a, b := filled.headers, filled.headers[k := filled.headers[k].(reference := Some(r))];
    assert b[k].reference == Some(r) && a[k].reference.None?;
    forall h | h in a && h.reference.Some?
      ensures h in b
    {
      var j :| 0 <= j < |a| && a[j] == h;
      assert b[j] == h;
    }
  }

  lemma ActivatedMore(activated: seq<Reference>, mine: map<Reference, Secret>, r: Reference)
    requires (forall a :: a in activated ==> a in mine) && r !in mine && |RefSet(activated)| == |activated|
    ensures RefSet(activated + [r]) == RefSet(activated) + {r} && |RefSet(activated + [r])| == |activated| + 1
  {
    assert r !in RefSet(activated);
    assert RefSet(activated + [r]) == RefSet(activated) + {r};
  }

  lemma ReferenceIn(x: Definition, h: Header)
    requires h in x.headers && h.reference.Some?
    ensures h.reference.value in References(x)
  {
  }

  lemma ActiveMore(c: Configuration, i: nat, x: Definition)
    requires i < |c.definitions| && References(c.definitions[i]) == {}
    ensures Active(c.(definitions := c.definitions[i := x])) == Active(c) + References(x)
  {
    var a, b := c.definitions, c.definitions[i := x];
    forall d, h | d in a && h in d.headers && h.reference.Some?
      ensures d in b
    {
      var j :| 0 <= j < |a| && a[j] == d;
      ReferenceIn(d, h);
      assert b[j] == d;
    }
    assert b[i] == x;
  }

  predicate HeaderBound(before: Header, after: Header, secret: Secret, mine: map<Reference, Secret>) {
    && after.reference.Some? && after == before.(reference := after.reference)
    && after.reference.value in mine && mine[after.reference.value] == secret
  }

  /** The first `n` headers have fresh references to the archive's secrets; all else is as before. */
  predicate Bound(before: Definition, after: Definition, provider: Provider, mine: map<Reference, Secret>, n: nat) {
    && n <= |before.headers| == |after.headers| == |provider.secrets|
    && after == before.(headers := after.headers)
    && (forall k :: 0 <= k < n ==> HeaderBound(before.headers[k], after.headers[k], provider.secrets[k].value, mine))
    && (forall k :: n <= k < |before.headers| ==> after.headers[k] == before.headers[k])
  }

  predicate DefinitionFilled(plan: Plan, before: Definition, after: Definition, mine: map<Reference, Secret>) {
    if before.id in plan.backup then Bound(before, after, plan.backup[before.id], mine, |before.headers|)
    else after == before
  }

  predicate FilledUpTo(plan: Plan, filled: Configuration, mine: map<Reference, Secret>, n: nat) {
    && filled == plan.configuration.(definitions := filled.definitions)
    && n <= |filled.definitions| == |plan.configuration.definitions|
    && (forall i :: 0 <= i < n ==> DefinitionFilled(plan, plan.configuration.definitions[i], filled.definitions[i], mine))
    && (forall i :: n <= i < |filled.definitions| ==> filled.definitions[i] == plan.configuration.definitions[i])
  }

  /** The planned configuration, with a live reference to the archive's secret in every backup header. */
  predicate Filled(plan: Plan, filled: Configuration, mine: map<Reference, Secret>) {
    FilledUpTo(plan, filled, mine, |plan.configuration.definitions|)
  }

  lemma BoundStart(definition: Definition, provider: Provider, mine: map<Reference, Secret>)
    requires Draft(definition, provider)
    ensures Bound(definition, definition, provider, mine, 0)
  {
  }

  lemma BoundMore(definition: Definition, filled: Definition, provider: Provider, before: map<Reference, Secret>,
                  mine: map<Reference, Secret>, k: nat, r: Reference)
    requires Draft(definition, provider) && k < |provider.secrets| && Bound(definition, filled, provider, before, k)
    requires r !in before && mine == before[r := provider.secrets[k].value]
    ensures k < |filled.headers| && Bound(definition, filled.(headers := filled.headers[k := filled.headers[k].(reference := Some(r))]),
                                          provider, mine, k + 1)
  {
    var after := filled.(headers := filled.headers[k := filled.headers[k].(reference := Some(r))]);
    forall j | 0 <= j < k + 1
      ensures HeaderBound(definition.headers[j], after.headers[j], provider.secrets[j].value, mine)
    {
      assert j < k ==> HeaderBound(definition.headers[j], filled.headers[j], provider.secrets[j].value, before);
    }
  }

  lemma BoundStays(before: Definition, after: Definition, provider: Provider, older: map<Reference, Secret>,
                   mine: map<Reference, Secret>, n: nat)
    requires Bound(before, after, provider, older, n) && Kept(older, mine)
    ensures Bound(before, after, provider, mine, n)
  {
    forall k | 0 <= k < n
      ensures HeaderBound(before.headers[k], after.headers[k], provider.secrets[k].value, mine)
    {
      assert HeaderBound(before.headers[k], after.headers[k], provider.secrets[k].value, older);
    }
  }

  lemma FillMore(plan: Plan, filled: Configuration, before: map<Reference, Secret>, mine: map<Reference, Secret>,
                 i: nat, bound: Definition)
    requires FilledUpTo(plan, filled, before, i) && i < |filled.definitions| && Kept(before, mine)
    requires filled.definitions[i].id in plan.backup
    requires Bound(filled.definitions[i], bound, plan.backup[filled.definitions[i].id], mine, |filled.definitions[i].headers|)
    ensures FilledUpTo(plan, filled.(definitions := filled.definitions[i := bound]), mine, i + 1)
  {
    hide Bound;
    forall j | 0 <= j < i
      ensures DefinitionFilled(plan, plan.configuration.definitions[j], filled.definitions[j], mine)
    {
      var x := plan.configuration.definitions[j];
      if x.id in plan.backup {
        BoundStays(x, filled.definitions[j], plan.backup[x.id], before, mine, |x.headers|);
      }
    }
  }

  lemma NotClosed(w: World, me: ImportId, staged: seq<Reference>, mine: map<Reference, Secret>)
    requires Holding(w, me, staged, mine)
    ensures me !in w.closed
  {
  }

  lemma OwnedOnly(w: World, me: ImportId, staged: seq<Reference>, mine: map<Reference, Secret>)
    requires Holding(w, me, staged, mine)
    ensures forall r :: r in staged || r in mine ==> r in w.owner
  {
  }

  lemma StageMore(w: World, me: ImportId, staged: seq<Reference>, mine: map<Reference, Secret>, r: Reference)
    requires Holding(w, me, staged, mine) && Owns(w, me, r) && r in w.journal
    ensures Holding(w, me, staged + [r], mine)
  {
  }

  lemma MineMore(w: World, me: ImportId, staged: seq<Reference>, mine: map<Reference, Secret>, r: Reference, secret: Secret)
    requires Holding(w, me, staged, mine) && r in staged && r in w.vault && w.vault[r] == Some(secret)
    ensures Holding(w, me, staged, mine[r := secret])
  {
  }
}
