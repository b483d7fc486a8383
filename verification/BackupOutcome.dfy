/**
  How an import of `backup/service.go` can end: what a commit means, what rollback
  and retirement leave, and what may cause a failure.
*/
module BackupOutcome {
  import opened Wrappers
  import opened BackupModel
  import opened BackupChoices
  import opened BackupVault
  import opened BackupBackend
  import opened BackupStaging
  import BackupReceipts
  import Ordering

  /** A plan fit for staging: decided, complete, small enough, and without references of its own. */
  ghost predicate Admitted(plan: Plan, d: Document, formats: Formats, current: Configuration, mode: Mode,
                           decisions: Decisions)
  {
    && ValidDocument(d, formats) && WellFormed(d, current) && Drafts(plan) && Active(plan.configuration) <= Active(current)
    && Decided(decisions, d, current, mode) && IsPlan(plan, d, current, mode, decisions)
    && |plan.configuration.definitions| <= MAXIMUM_PROVIDERS && |plan.configuration.devices| <= MAXIMUM_DEVICE_PROFILES
  }

  /** The receipt that this import was let through by. */
  ghost predicate Honoured(e: BackupReceipts.Event, q: Request, configuration: Configuration) {
    && q.previewId.Some? && q.previewId.value in q.receipts
    && BackupReceipts.IsPresentation(e, q.previewId.value, q.archive, configuration, q.mode, true)
    && BackupReceipts.Matches(q.receipts[q.previewId.value], q.archive, configuration, q.mode, e.now)
  }

  /** What the caller of `Import` hands over, and the receipts that there are. */
  datatype Request = Request(
    archive: string,
    decrypted: Option<Document>,
    mode: Mode,
    decisions: Decisions,
    previewId: Option<BackupReceipts.Token>,
    receipts: map<BackupReceipts.Token, BackupReceipts.Receipt>)

  /** No receipt lets the request through: `presented` is what was recorded when its ID was presented. */
  ghost predicate NotPreviewed(q: Request, current: Configuration, presented: seq<BackupReceipts.Event>) {
    || q.previewId.None?
    || (&& |presented| == 1
        && BackupReceipts.IsPresentation(presented[0], q.previewId.value, q.archive, current, q.mode, false)
        && !(q.previewId.value in q.receipts
             && BackupReceipts.Matches(q.receipts[q.previewId.value], q.archive, current, q.mode, presented[0].now)))
  }

  /** The plan that the request determines has too many providers or device profiles. */
  ghost predicate Oversized(q: Request, current: Configuration, plan: Plan) {
    && q.decrypted.Some? && Decided(q.decisions, q.decrypted.value, current, q.mode)
    && IsPlan(plan, q.decrypted.value, current, q.mode, q.decisions)
    && (|plan.configuration.definitions| > MAXIMUM_PROVIDERS || |plan.configuration.devices| > MAXIMUM_DEVICE_PROFILES)
  }

  /** The causes of a failure that lie in the request itself. */
  ghost predicate Cause(e: ImportError, q: Request, current: Configuration, plan: Plan, presented: seq<BackupReceipts.Event>) {
    match e
    case Undecryptable => q.decrypted.None?
    case PreviewRequired => NotPreviewed(q, current, presented)
    case BadChoice(InvalidMode) => q.mode == Unknown
    case BadChoice(ConflictDecision) => q.decrypted.Some? && !Decided(q.decisions, q.decrypted.value, current, q.mode)
    case CommitFailed => Oversized(q, current, plan)
    case _ => false
  }

  lemma CurrentIsValid(w: World)
    requires Valid(w)
    ensures ValidConfiguration(w.config)
  {
  }

  lemma NothingDone(w: World, me: ImportId, staged: seq<Reference>, mine: map<Reference, Secret>)
    requires Valid(w) && Holding(w, me, staged, mine)
    ensures NotCommitted(w, me) && (staged == [] ==> AllGone(w, staged) && DeletedOrJournaled(w, staged))
  {
    hide Active;
  }

  datatype ImportError =
    | Undecryptable | CommitFailed | PreviewRequired | BadChoice(choice: BackupChoices.Error)
    | SecretsFailed | RollbackPending | CleanupPending

  datatype Outcome = Outcome(committed: bool, imported: nat, cleanupPending: bool, warning: bool, error: Option<ImportError>)

  /** A failure after the checks: of the rollback, or else of the swap if that was refused and of the staging if not. */
  predicate Blames(o: Outcome, refused: bool) {
    o == Failed(RollbackPending) || o == Failed(if refused then CommitFailed else SecretsFailed)
  }

  predicate LetThrough(presented: seq<BackupReceipts.Event>) {
    |presented| == 1 && presented[0].Presented? && presented[0].accepted
  }

  /** The checks of a request come in turn: decryption, the receipt, the mode. */
  predicate InTurn(error: Option<ImportError>, q: Request, presented: seq<BackupReceipts.Event>) {
    && (q.decrypted.None? <==> error == Some(Undecryptable))
    && |presented| <= 1 && (q.decrypted.None? ==> presented == [])
    && (error == Some(PreviewRequired) ==> !LetThrough(presented))
    && (presented != [] && !LetThrough(presented) ==> error == Some(PreviewRequired))
    && (error == Some(BadChoice(InvalidMode)) <==> LetThrough(presented) && q.mode == Unknown)
  }

  lemma StillInTurn(error: Option<ImportError>, q: Request, presented: seq<BackupReceipts.Event>)
    requires InTurn(None, q, presented) && LetThrough(presented)
    requires error.Some? ==> !error.value.Undecryptable? && !error.value.PreviewRequired? && !error.value.BadChoice?
    ensures InTurn(error, q, presented)
  {
  }

  /** What a commit reports: how many providers came from the archive, and the first thing that went wrong after it. */
  predicate Reported(o: Outcome, imported: nat, warned: bool) {
    && o.imported == imported && o.warning == warned
    && (warned ==> o.error == Some(CommitFailed) && !o.cleanupPending)
    && (!warned ==> o.error == if o.cleanupPending then Some(CleanupPending) else None)
  }

  function Failed(e: ImportError): Outcome {
    Outcome(false, 0, false, false, Some(e))
  }

  /** `at` is the moment after the commit: the planned configuration is in place, with the archive's secrets. */
  ghost predicate Commits(at: World, me: ImportId, plan: Plan, d: Document, mode: Mode, decisions: Decisions,
                          mine: map<Reference, Secret>)
  {
    && at.commits != [] && at.commits[|at.commits| - 1].author == me
    && at.config == at.commits[|at.commits| - 1].replacement
    && Decided(decisions, d, at.commits[|at.commits| - 1].expected, mode)
    && IsPlan(plan, d, at.commits[|at.commits| - 1].expected, mode, decisions)
    && Filled(plan, at.config, mine)
    && forall r :: r in mine ==> r in at.vault && at.vault[r] == Some(mine[r])
  }

  /** The references that the commit retired are neither in the vault nor in the journal. */
  ghost predicate RetiredGone(at: World, w: World) {
    at.commits != [] &&
    forall r :: r in Active(at.commits[|at.commits| - 1].expected) && r !in Active(at.config) ==>
                  r !in w.vault && r !in w.journal
  }

  /** They will not be used again, and are deleted or to be deleted. */
  ghost predicate RetiredKept(at: World, w: World) {
    at.commits != [] &&
    forall r :: r in Active(at.commits[|at.commits| - 1].expected) && r !in Active(at.config) ==>
                  Spent(w, r) && (r in w.vault ==> r in w.journal)
  }

  lemma ValidIsWellFormed(d: Document, formats: Formats, c: Configuration)
    requires ValidDocument(d, formats) && ValidConfiguration(c)
    ensures WellFormed(d, c)
  {
    hide Distinct, ValidProvider;
    CountDistinct(ProviderIds(d.providers));
    CountDistinct(d.order);
    SubsetOfSameSize(Elements(d.order), Elements(ProviderIds(d.providers)));
  }

  /** What the archive's validation promises makes the staging loop's indexing right. */
  lemma PlanDrafts(plan: Plan, d: Document, formats: Formats, c: Configuration, mode: Mode, decisions: Decisions)
    requires ValidDocument(d, formats) && IsPlan(plan, d, c, mode, decisions)
    ensures Drafts(plan)
  {
    hide FromBackup, Keyed, PlannedOrder, PlannedDevices;
    forall i | 0 <= i < |plan.configuration.definitions| && plan.configuration.definitions[i].id in plan.backup
      ensures Draft(plan.configuration.definitions[i], plan.backup[plan.configuration.definitions[i].id])
    {
      var x := plan.configuration.definitions[i];
      assert PlannedDefinition(x, d, c, mode, decisions);
      KeyedFinds(d.providers, ProviderIds(d.providers), x.id);
      var j :| 0 <= j < |d.providers| && ProviderIds(d.providers)[j] == x.id && ById(d.providers)[x.id] == d.providers[j];
      assert ValidProvider(d.providers[j], formats);
    }
  }

  /** The planned references are current ones: drafts have none. */
  lemma PlanReferences(plan: Plan, d: Document, formats: Formats, c: Configuration, mode: Mode, decisions: Decisions)
    requires ValidDocument(d, formats) && IsPlan(plan, d, c, mode, decisions)
    ensures Active(plan.configuration) <= Active(c)
  {
    hide FromBackup, Keyed, PlannedOrder, PlannedDevices;
    forall x, h | x in plan.configuration.definitions && h in x.headers && h.reference.Some?
      ensures h.reference.value in Active(c)
    {
      assert PlannedDefinition(x, d, c, mode, decisions);
      KeyedFinds(d.providers, ProviderIds(d.providers), x.id);
      KeyedFinds(c.definitions, DefinitionIds(c.definitions), x.id);
      DraftHasNone(d, formats, x, h);
      assert x in c.definitions;
    }
  }

  lemma DraftHasNone(d: Document, formats: Formats, x: Definition, h: Header)
    requires ValidDocument(d, formats) && h in x.headers
    ensures h.reference.Some? ==> forall j :: 0 <= j < |d.providers| ==> d.providers[j].definition != x
  {
    forall j | 0 <= j < |d.providers| && d.providers[j].definition == x
      ensures h.reference.None?
    {
      assert ValidProvider(d.providers[j], formats);
    }
  }

  /** A plan that is small enough is acceptable to the configuration owner. */
  lemma PlanIsAcceptable(plan: Plan, filled: Configuration, mine: map<Reference, Secret>, d: Document, c: Configuration,
                         mode: Mode, decisions: Decisions)
    requires WellFormed(d, c) && IsPlan(plan, d, c, mode, decisions) && Filled(plan, filled, mine)
    requires |plan.configuration.definitions| <= MAXIMUM_PROVIDERS && |plan.configuration.devices| <= MAXIMUM_DEVICE_PROFILES
    ensures ValidConfiguration(filled)
  {
    hide IsPlan, WellFormed, DefinitionFilled, Distinct;
    NoProviderIsLost(plan, d, c, mode, decisions);
    FilledIds(plan, filled, mine);
    PlanDevicesDistinct(plan, d, c, mode, decisions);
    assert |DefinitionIds(filled.definitions)| == |filled.definitions|;
  }

  lemma PlanDevicesDistinct(plan: Plan, d: Document, c: Configuration, mode: Mode, decisions: Decisions)
    requires WellFormed(d, c) && IsPlan(plan, d, c, mode, decisions)
    ensures Distinct(DeviceIds(plan.configuration.devices))
  {
    hide Keyed, PlannedDefinition, FromBackup, Distinct, PlannedOrder, Ordering.Sorted;
    if mode == Merge {
      SortedDistinct(DeviceIds(plan.configuration.devices));
    }
  }

  lemma FilledIds(plan: Plan, filled: Configuration, mine: map<Reference, Secret>)
    requires Filled(plan, filled, mine)
    ensures DefinitionIds(filled.definitions) == DefinitionIds(plan.configuration.definitions)
  {
    hide HeaderBound;
    var planned, placed := plan.configuration.definitions, filled.definitions;
    forall i | 0 <= i < |placed|
      ensures placed[i].id == planned[i].id
    {
      assert DefinitionFilled(plan, planned[i], placed[i], mine);
    }
  }

  lemma SortedDistinct(ids: seq<string>)
    requires Ordering.Sorted(ids)
    ensures Distinct(ids)
  {
    forall i, j | 0 <= i < j < |ids|
      ensures ids[i] != ids[j]
    {
      Ordering.LessTotal(ids[i], ids[j]);
    }
  }

  /** After staging the swap is possible exactly if the configuration is the one that was read. */
  lemma StagedIsSwappable(w: World, me: ImportId, staged: seq<Reference>, mine: map<Reference, Secret>,
                          activated: seq<Reference>, plan: Plan, filled: Configuration, current: Configuration)
    requires Valid(w) && Holding(w, me, staged, mine)
    requires (forall r :: r in activated ==> r in mine) && |RefSet(activated)| == |activated|
    requires Active(filled) == Active(plan.configuration) + RefSet(activated)
    requires Active(plan.configuration) <= Active(current)
    requires ValidConfiguration(filled)
    ensures Swappable(w, current, filled, activated) <==> w.config == current
    ensures Allowed(w, me, Swap(current, filled, RefSet(activated))) <==> w.config == current
  {
    hide Active, ValidConfiguration, Valid;
    StagedIsNew(w, me, staged, mine, activated);
    if w.config == current {
      assert Active(filled) - Active(current) == RefSet(activated);
    }
  }

  /** What an import has staged is journaled, holds a secret and is not in use. */
  lemma StagedIsNew(w: World, me: ImportId, staged: seq<Reference>, mine: map<Reference, Secret>, activated: seq<Reference>)
    requires Valid(w) && Holding(w, me, staged, mine) && forall r :: r in activated ==> r in mine
    ensures me !in w.closed
    ensures forall r :: r in RefSet(activated) ==>
              r in w.journal && r !in Active(w.config) && Owns(w, me, r) && r in w.vault && w.vault[r].Some?
  {
    hide Active, Chained, Accounted, ValidConfiguration;
  }

  /** If nobody committed, the configuration is the one that was read. */
  lemma NoCommitNoChange(before: World, after: World)
    requires Valid(before) && Valid(after) && before.start == after.start && before.commits <= after.commits
    ensures |after.commits| == |before.commits| ==> after.config == before.config
  {
    hide Active;
    assert |after.commits| == |before.commits| ==> after.commits == before.commits;
  }

  lemma OwnReferences(w: World, me: ImportId, staged: seq<Reference>, mine: map<Reference, Secret>,
                      activated: seq<Reference>)
    requires Holding(w, me, staged, mine) && forall r :: r in activated ==> r in mine
    ensures me !in w.closed
    ensures forall r :: r in activated ==> Owns(w, me, r) && r in w.vault && w.vault[r].Some?
  {
  }

  lemma Retires(w: World, me: ImportId, expected: Configuration, replacement: Configuration, activated: set<Reference>,
                retired: seq<Reference>)
    requires Valid(w) && Allowed(w, me, Swap(expected, replacement, activated))
    requires RefSet(retired) == Active(expected) - Active(replacement)
    ensures var after := Perform(w, me, Swap(expected, replacement, activated));
            && AllSpent(after, retired) && me in after.closed && CommittedBy(after, me) && after.commits != []
            && after.commits[|after.commits| - 1].expected == expected && after.config == replacement
  {
    hide Active, ValidConfiguration, Chained;
    var after := Perform(w, me, Swap(expected, replacement, activated));
    assert after.commits[|w.commits|].author == me;
    forall r | r in retired
      ensures Spent(after, r) && r !in after.reserved
    {
      assert r in RefSet(retired);
    }
  }

  ghost predicate CommittedBy(w: World, me: ImportId) {
    exists k :: 0 <= k < |w.commits| && w.commits[k].author == me
  }

  lemma StillCommitted(w: World, w': World, me: ImportId)
    requires CommittedBy(w, me) && Rely(w, w', me)
    ensures CommittedBy(w', me)
  {
    hide Active;
    var k :| 0 <= k < |w.commits| && w.commits[k].author == me;
    assert w'.commits[k] == w.commits[k];
  }

  lemma CommitIs(w: World, me: ImportId, expected: Configuration, filled: Configuration, activated: set<Reference>,
                 plan: Plan, d: Document, mode: Mode, decisions: Decisions, staged: seq<Reference>,
                 mine: map<Reference, Secret>)
    requires Holding(w, me, staged, mine) && Filled(plan, filled, mine)
    requires Decided(decisions, d, expected, mode) && IsPlan(plan, d, expected, mode, decisions)
    ensures Commits(Perform(w, me, Swap(expected, filled, activated)), me, plan, d, mode, decisions, mine)
  {
    hide Active, IsPlan, Decided, Filled;
  }

  lemma GoneIsRetired(at: World, w: World, retired: seq<Reference>)
    requires at.commits != [] && RefSet(retired) == Active(at.commits[|at.commits| - 1].expected) - Active(at.config)
    requires AllGone(w, retired)
    ensures RetiredGone(at, w)
  {
    hide Active;
    forall r | r in Active(at.commits[|at.commits| - 1].expected) && r !in Active(at.config)
      ensures r !in w.vault && r !in w.journal
    {
      assert r in RefSet(retired);
    }
  }

  lemma KeptIsRetired(at: World, w: World, retired: seq<Reference>)
    requires at.commits != [] && RefSet(retired) == Active(at.commits[|at.commits| - 1].expected) - Active(at.config)
    requires DeletedOrJournaled(w, retired)
    ensures RetiredKept(at, w)
  {
    hide Active;
    forall r | r in Active(at.commits[|at.commits| - 1].expected) && r !in Active(at.config)
      ensures Spent(w, r) && (r in w.vault ==> r in w.journal)
    {
      assert r in RefSet(retired);
    }
  }

  function Reversed(refs: seq<Reference>): seq<Reference> {
    if refs == [] then [] else [refs[|refs| - 1]] + Reversed(refs[..|refs| - 1])
  }

  ghost predicate AllSpent(w: World, refs: seq<Reference>) {
    forall r :: r in refs ==> Spent(w, r) && r !in w.reserved
  }

  /** Never to be used again; deleted, or to be deleted when the journal is worked off. */
  ghost predicate DeletedOrJournaled(w: World, refs: seq<Reference>) {
    forall r :: r in refs ==> Spent(w, r) && (r in w.vault ==> r in w.journal)
  }

  lemma StillClosed(w: World, w': World, me: ImportId)
    requires me in w.closed && Rely(w, w', me)
    ensures me in w'.closed
  {
    hide Active;
  }

  lemma SpentIsJournaled(w: World, refs: seq<Reference>)
    requires Valid(w) && AllSpent(w, refs)
    ensures DeletedOrJournaled(w, refs)
  {
    hide Active, ValidConfiguration, Chained, ActiveOk;
  }

  /** Deleted from the vault, and nobody will use them again. */
  ghost predicate AllAbsent(w: World, refs: seq<Reference>) {
    forall r :: r in refs ==> Spent(w, r) && r !in w.vault
  }

  /** Neither in the vault nor to be cleaned up. */
  ghost predicate AllGone(w: World, refs: seq<Reference>) {
    forall r :: r in refs ==> r !in w.vault && r !in w.journal
  }

  ghost predicate NotCommitted(w: World, me: ImportId) {
    forall k :: 0 <= k < |w.commits| ==> w.commits[k].author != me
  }

  lemma SpentStays(w: World, w': World, me: ImportId, refs: seq<Reference>)
    requires AllSpent(w, refs) && Rely(w, w', me)
    ensures AllSpent(w', refs)
  {
    hide Active;
    forall r | r in refs
      ensures Spent(w', r) && r !in w'.reserved
    {
      assert Spent(w, r) && StaysSpent(w, w', r);
    }
  }

  lemma AbsentStays(w: World, w': World, me: ImportId, refs: seq<Reference>)
    requires AllAbsent(w, refs) && Rely(w, w', me)
    ensures AllAbsent(w', refs)
  {
    hide Active;
    forall r | r in refs
      ensures Spent(w', r) && r !in w'.vault
    {
      assert Spent(w, r) && StaysSpent(w, w', r);
    }
  }

  lemma OneSpent(w: World, me: ImportId, refs: seq<Reference>, i: nat)
    requires AllSpent(w, refs) && i < |refs|
    ensures Allowed(w, me, Remove(refs[i]))
  {
    hide Active;
    assert refs[i] in refs;
  }

  lemma Harmless(start: World, w: World, me: ImportId, op: Op, absent: seq<Reference>)
    requires Valid(w) && Allowed(w, me, op) && me in w.closed && !op.Crash? && !op.Adopt? && Rely(start, w, me) && AllAbsent(w, absent)
    ensures Rely(start, Perform(w, me, op), me) && AllAbsent(Perform(w, me, op), absent)
    ensures op.Remove? ==> AllAbsent(Perform(w, me, op), [op.r])
  {
    hide Valid, Rely, Active;
    OthersAreHarmless(w, me, op, me);
    RelyTransitive(start, w, Perform(w, me, op), me);
    AbsentStays(w, Perform(w, me, op), me, absent);
  }

  lemma AbsentMore(w: World, refs: seq<Reference>, r: Reference)
    requires AllAbsent(w, refs) && AllAbsent(w, [r])
    ensures AllAbsent(w, refs + [r])
  {
    assert r in [r];
  }

  lemma AbsentCompletes(w: World, me: ImportId, refs: seq<Reference>)
    requires AllAbsent(w, refs)
    ensures Allowed(w, me, Complete(RefSet(refs)))
  {
  }

  lemma Completed(w: World, refs: seq<Reference>)
    requires AllAbsent(w, refs) && w.journal !! RefSet(refs)
    ensures AllGone(w, refs)
  {
    forall r | r in refs
      ensures r !in w.vault && r !in w.journal
    {
      assert r in RefSet(refs);
    }
  }

  lemma NothingGone(w: World)
    ensures AllGone(w, []) && AllAbsent(w, [])
  {
  }

  lemma {:induction false} ReversedHas(refs: seq<Reference>)
    ensures forall r :: r in Reversed(refs) <==> r in refs
  {
    if refs != [] {
      ReversedHas(refs[..|refs| - 1]);
      assert refs == refs[..|refs| - 1] + [refs[|refs| - 1]];
    }
  }

  lemma GoneReversed(w: World, refs: seq<Reference>)
    ensures AllGone(w, Reversed(refs)) ==> AllGone(w, refs)
    ensures DeletedOrJournaled(w, Reversed(refs)) ==> DeletedOrJournaled(w, refs)
  {
    hide Active;
    ReversedHas(refs);
  }

  /** An import that ends before it has staged anything. */
  lemma EndsEmpty(w: World, me: ImportId, staged: seq<Reference>)
    requires Valid(w) && me !in w.closed && NotCommitted(w, me) && staged == []
    ensures Allowed(w, me, GiveUp)
    ensures var after := Perform(w, me, GiveUp);
            && NotCommitted(after, me) && me in after.closed && after.commits == w.commits
            && AllGone(after, staged) && DeletedOrJournaled(after, staged)
  {
  }

  /** An import that gives up has not committed, and what it staged will not be used. */
  lemma GivenUp(w: World, me: ImportId, staged: seq<Reference>, mine: map<Reference, Secret>)
    requires Valid(w) && Holding(w, me, staged, mine)
    ensures Allowed(w, me, GiveUp)
    ensures var after := Perform(w, me, GiveUp);
            AllSpent(after, Reversed(staged)) && NotCommitted(after, me) && me in after.closed && after.commits == w.commits
  {
    hide Active, ValidConfiguration, Accounted;
    ReversedHas(staged);
  }

  lemma StillNotCommitted(w: World, w': World, me: ImportId)
    requires NotCommitted(w, me) && Rely(w, w', me)
    ensures NotCommitted(w', me)
  {
    hide Active;
    forall k | 0 <= k < |w'.commits|
      ensures w'.commits[k].author != me
    {
      assert k < |w.commits| ==> w'.commits[k] == w.commits[k];
    }
  }

  /**
    What a commit means for each definition in place: one from the archive has a
    live reference to the archive's secret in every header, any other is the one
    that was there before.
  */
  lemma CommittedDefinitions(at: World, me: ImportId, plan: Plan, d: Document, formats: Formats, mode: Mode,
                             decisions: Decisions, mine: map<Reference, Secret>, i: nat)
    requires ValidDocument(d, formats) && Commits(at, me, plan, d, mode, decisions, mine) && i < |at.config.definitions|
    ensures var x, expected := at.config.definitions[i], at.commits[|at.commits| - 1].expected;
            if FromBackup(x.id, d, expected, mode, decisions)
            then x.id in ById(d.providers) && Resolves(x, ById(d.providers)[x.id], at)
            else x in expected.definitions
  {
    hide Keyed, FromBackup, PlannedOrder, PlannedDevices, ValidProvider, Distinct, Decided;
    var x, expected := at.config.definitions[i], at.commits[|at.commits| - 1].expected;
    var planned := plan.configuration.definitions[i];
    assert PlannedDefinition(planned, d, expected, mode, decisions);
    assert DefinitionFilled(plan, planned, x, mine);
    KeyedFinds(expected.definitions, DefinitionIds(expected.definitions), x.id);
    PlanDrafts(plan, d, formats, expected, mode, decisions);
    if FromBackup(x.id, d, expected, mode, decisions) {
      BoundResolves(planned, x, ById(d.providers)[x.id], mine, at);
    }
  }

  /** A definition of the archive, as its draft says, with its secrets in the vault. */
  ghost predicate Resolves(x: Definition, provider: Provider, w: World) {
    && x == provider.definition.(headers := x.headers)
    && |x.headers| == |provider.definition.headers| == |provider.secrets|
    && forall k :: 0 <= k < |x.headers| ==>
         HeaderResolves(x.headers[k], provider.definition.headers[k], provider.secrets[k].value, w)
  }

  ghost predicate HeaderResolves(h: Header, draft: Header, secret: Secret, w: World) {
    h.name == draft.name && h.reference.Some? && h.reference.value in w.vault && w.vault[h.reference.value] == Some(secret)
  }

  lemma BoundResolves(before: Definition, after: Definition, provider: Provider, mine: map<Reference, Secret>, w: World)
    requires before == provider.definition && Bound(before, after, provider, mine, |before.headers|)
    requires forall r :: r in mine ==> r in w.vault && w.vault[r] == Some(mine[r])
    ensures Resolves(after, provider, w)
  {
    forall k | 0 <= k < |after.headers|
      ensures HeaderResolves(after.headers[k], provider.definition.headers[k], provider.secrets[k].value, w)
    {
      assert HeaderBound(before.headers[k], after.headers[k], provider.secrets[k].value, mine);
    }
  }
}
