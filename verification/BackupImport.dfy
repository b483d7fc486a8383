/**
  `Import` of `backup/service.go` among other imports: staging fresh references
  behind the journal, the configuration swap, and rollback or retirement. Other
  imports may take any steps between two steps of this one.
*/
module BackupImport {
  import opened Wrappers
  import opened BackupModel
  import opened BackupChoices
  import opened BackupVault
  import opened BackupBackend
  import opened BackupStaging
  import opened BackupOutcome
  import BackupPlan
  import BackupReceipts

  const CREATE_ATTEMPTS := 8

  /** One call of `Import`: the references it has staged and activated. `mine` are the secrets it has written. */
  class Import {
    const store: Backend
    const me: ImportId
    var staged: seq<Reference>
    var activated: seq<Reference>
    ghost var mine: map<Reference, Secret>

    ghost predicate Staging()
      reads this, store
    {
      && Valid(store.View()) && Holding(store.View(), me, staged, mine)
      && (forall r :: r in activated ==> r in mine)
      && |RefSet(activated)| == |activated|
    }

    constructor (store: Backend, me: ImportId)
      requires Valid(store.View()) && me !in store.closed
      ensures Staging() && this.store == store && this.me == me && staged == [] && activated == [] && mine == map[]
    {
      this.store, this.me := store, me;
      staged, activated, mine := [], [], map[];
    }

    /** Other imports take some steps. */
    method Yield()
      requires Staging()
      modifies store
      ensures store.refusals == old(store.refusals) && store.warnings == old(store.warnings)
      ensures Staging() && Rely(old(store.View()), store.View(), me) && store.faults == old(store.faults)
      ensures old(store.commits) <= store.commits && old(store.owner).Keys <= store.owner.Keys
    {
      hide Valid, Holding, Rely;
      ghost var before := store.View();
      store.Others(me);
      HoldingStays(before, store.View(), me, staged, mine);
      CommitsGrow(before, store.View(), me);
    }

    /** `PutNew` with the callback of `Import`: reserve, journal, then write. */
    method PutNew(secret: Secret) returns (r: Reference, ok: bool)
      requires Staging()
      modifies this`staged, this`mine, store
      ensures store.refusals == old(store.refusals) && store.warnings == old(store.warnings)
      ensures Staging()
      ensures ok ==> r !in old(store.owner) && r !in old(mine) && mine == old(mine)[r := secret]
      ensures !ok ==> mine == old(mine)
      ensures old(store.commits) <= store.commits && store.faults >= old(store.faults)
      ensures !ok ==> store.faults > old(store.faults)
    {
      hide Valid, Holding, RefSet;
      r := 0;
      for i := 0 to CREATE_ATTEMPTS
        invariant store.refusals == old(store.refusals) && store.warnings == old(store.warnings)
        invariant Staging() && mine == old(mine) && old(store.owner).Keys <= store.owner.Keys
        invariant old(store.commits) <= store.commits && store.faults >= old(store.faults) + i
      {
        Yield();
        var created, duplicate;
        r, created, duplicate := TryReserve();
        if duplicate {
          continue;
        }
        if !created {
          return r, false;
        }
        var journaled, again := Callback(r);
        if again {
          continue;
        }
        if !journaled {
          return r, false;
        }
        ok := WriteSecret(r, secret);
        return r, ok;
      }
      ok := false;
    }

    method TryReserve() returns (r: Reference, created: bool, duplicate: bool)
      requires Staging()
      modifies store
      ensures store.refusals == old(store.refusals) && store.warnings == old(store.warnings)
      ensures Staging()
      ensures created ==> !duplicate && r !in old(store.owner) && Pending(r) && r in store.reserved && r !in staged
      ensures old(store.owner).Keys <= store.owner.Keys
      ensures store.commits == old(store.commits) && store.faults == old(store.faults) + if created then 0 else 1
    {
      hide Valid, Holding;
      ghost var w := store.View();
      NotClosed(w, me, staged, mine);
      OwnedOnly(w, me, staged, mine);
      r, created, duplicate := store.Create(me);
      if store.View() != w {
        StepHolds(w, me, Reserve(r), staged, mine);
      }
    }

    /** The reference is this import's own, reserved or journaled by it, and holds no secret yet. */
    ghost predicate Pending(r: Reference)
      reads this, store
    {
      Owns(store.View(), me, r) && r in store.vault && r !in mine
    }

    /** The callback, after which a reservation that could not be journaled is deleted again. */
    method Callback(r: Reference) returns (journaled: bool, again: bool)
      requires Staging() && Pending(r) && r in store.reserved && r !in staged
      modifies this`staged, store
      ensures store.refusals == old(store.refusals) && store.warnings == old(store.warnings)
      ensures Staging() && !(journaled && again)
      ensures journaled ==> Pending(r) && r in store.journal && staged == old(staged) + [r]
      ensures !journaled ==> staged == old(staged) && (r !in store.vault || (store.faults > old(store.faults) + 1 && !again))
      ensures old(store.commits) <= store.commits && store.faults >= old(store.faults) + if journaled then 0 else 1
      ensures old(store.owner).Keys <= store.owner.Keys
    {
      hide Valid, Holding, Rely;
      ghost var w := store.View();
      NotClosed(w, me, staged, mine);
      Yield();
      MineStays(w, store.View(), me, r);
      w := store.View();
      NotClosed(w, me, staged, mine);
      StepHolds(w, me, Stage(r), staged, mine);
      journaled := store.StageCleanup(me, r);
      if journaled {
        StageMore(store.View(), me, staged, mine, r);
        staged := staged + [r];
        return true, false;
      }
      w := store.View();
      Yield();
      MineStays(w, store.View(), me, r);
      w := store.View();
      StepHolds(w, me, Remove(r), staged, mine);
      var deleted := store.Delete(me, r);
      again := *;
      again := again && deleted;
    }

    method WriteSecret(r: Reference, secret: Secret) returns (ok: bool)
      requires Staging() && Pending(r) && r in store.journal && r in staged
      modifies this`mine, store
      ensures store.refusals == old(store.refusals) && store.warnings == old(store.warnings)
      ensures Staging() && mine == if ok then old(mine)[r := secret] else old(mine)
      ensures old(store.commits) <= store.commits && store.faults >= old(store.faults)
      ensures !ok ==> store.faults > old(store.faults)
    {
      hide Valid, Holding, Rely;
      ghost var w := store.View();
      NotClosed(w, me, staged, mine);
      Yield();
      MineStays(w, store.View(), me, r);
      w := store.View();
      NotClosed(w, me, staged, mine);
      StepHolds(w, me, Write(r, secret), staged, mine);
      ok := store.Update(me, r, secret);
      if ok {
        MineMore(store.View(), me, staged, mine, r, secret);
        mine := mine[r := secret];
      }
    }

    /** The staging of one provider's secrets into its headers. */
    method StageProvider(definition: Definition, provider: Provider) returns (filled: Definition, ok: bool)
      requires Staging() && Draft(definition, provider)
      modifies this, store
      ensures store.refusals == old(store.refusals) && store.warnings == old(store.warnings)
      ensures Staging() && Kept(old(mine), mine)
      ensures ok ==> Bound(definition, filled, provider, mine, |provider.secrets|)
      ensures ok ==> RefSet(activated) == RefSet(old(activated)) + References(filled)
      ensures old(store.commits) <= store.commits && store.faults >= old(store.faults)
      ensures !ok ==> store.faults > old(store.faults)
    {
      hide Holding, Bound, Valid, References, RefSet;
      filled := definition;
      BoundStart(definition, provider, mine);
      NoReferences(definition, provider);
      for k := 0 to |provider.secrets|
        invariant store.refusals == old(store.refusals) && store.warnings == old(store.warnings)
        invariant Staging() && Kept(old(mine), mine)
        invariant Bound(definition, filled, provider, mine, k)
        invariant RefSet(activated) == RefSet(old(activated)) + References(filled)
        invariant old(store.commits) <= store.commits && store.faults >= old(store.faults)
      {
        ghost var before := mine;
        var secret := provider.secrets[k];
        var reference, put := PutNew(secret.value);
        if !put {
          return filled, false;
        }
        BoundMore(definition, filled, provider, before, mine, k, reference);
        ReferencesMore(definition, filled, provider, before, k, reference);
        ActivatedMore(activated, before, reference);
        var header := filled.headers[secret.headerIndex];
        filled := filled.(headers := filled.headers[secret.headerIndex := header.(reference := Some(reference))]);
        activated := activated + [reference];
      }
      ok := true;
    }

    /** The staging loop over the planned definitions. */
    method StageAll(plan: Plan) returns (filled: Configuration, ok: bool)
      requires Staging() && Drafts(plan)
      modifies this, store
      ensures store.refusals == old(store.refusals) && store.warnings == old(store.warnings)
      ensures Staging() && Kept(old(mine), mine)
      ensures ok ==> Filled(plan, filled, mine)
      ensures ok && old(activated) == [] ==> Active(filled) == Active(plan.configuration) + RefSet(activated)
      ensures old(store.commits) <= store.commits && store.faults >= old(store.faults)
      ensures !ok ==> store.faults > old(store.faults)
    {
      hide Holding, Bound, Valid, References, RefSet, Active;
      filled := plan.configuration;
      for i := 0 to |plan.configuration.definitions|
        invariant store.refusals == old(store.refusals) && store.warnings == old(store.warnings)
        invariant Staging() && Kept(old(mine), mine)
        invariant FilledUpTo(plan, filled, mine, i)
        invariant Active(filled) + RefSet(old(activated)) == Active(plan.configuration) + RefSet(activated)
        invariant old(store.commits) <= store.commits && store.faults >= old(store.faults)
      {
        ghost var before := mine;
        var definition := filled.definitions[i];
        if definition.id in plan.backup {
          var bound, done := StageProvider(definition, plan.backup[definition.id]);
          if !done {
            return filled, false;
          }
          FillMore(plan, filled, before, mine, i, bound);
          NoReferences(definition, plan.backup[definition.id]);
          ActiveMore(filled, i, bound);
          filled := filled.(definitions := filled.definitions[i := bound]);
        }
      }
      ok := true;
    }

    /** The deletions of `rollback` and of `cleanupRetired`, and the end of their journal entries. */
    method Cleanup(refs: seq<Reference>) returns (ok: bool)
      requires Valid(store.View()) && me in store.closed && AllSpent(store.View(), refs)
      modifies store
      ensures store.refusals == old(store.refusals) && store.warnings == old(store.warnings)
      ensures Valid(store.View()) && Rely(old(store.View()), store.View(), me)
      ensures ok ==> AllGone(store.View(), refs)
      ensures DeletedOrJournaled(store.View(), refs)
      ensures store.faults >= old(store.faults) && (!ok ==> store.faults > old(store.faults))
    {
      hide Valid, Rely, AllSpent, AllAbsent, AllGone, DeletedOrJournaled;
      ghost var start := store.View();
      RelyReflexive(start, me);
      NothingGone(start);
      var deleted: seq<Reference> := [];
      var pending := false;
      for i := 0 to |refs|
        invariant store.refusals == old(store.refusals) && store.warnings == old(store.warnings)
        invariant Valid(store.View()) && me in store.closed && Rely(start, store.View(), me)
        invariant AllAbsent(store.View(), deleted) && (!pending ==> deleted == refs[..i])
        invariant store.faults >= old(store.faults) && (pending ==> store.faults > old(store.faults))
      {
        Wait(start, deleted);
        SpentStays(start, store.View(), me, refs);
        OneSpent(store.View(), me, refs, i);
        ghost var w := store.View();
        Harmless(start, w, me, Remove(refs[i]), deleted);
        var removed := store.Delete(me, refs[i]);
        if removed {
          AbsentMore(store.View(), deleted, refs[i]);
          deleted := deleted + [refs[i]];
        } else {
          pending := true;
        }
      }
      assert refs[..|refs|] == refs;
      if |deleted| != 0 {
        Wait(start, deleted);
        AbsentCompletes(store.View(), me, deleted);
        Harmless(start, store.View(), me, Complete(RefSet(deleted)), deleted);
        var completed := store.CompleteCleanup(me, deleted);
        if completed {
          Completed(store.View(), deleted);
        }
        pending := pending || !completed;
      } else {
        NothingGone(store.View());
      }
      ok := !pending;
      SpentStays(start, store.View(), me, refs);
      SpentIsJournaled(store.View(), refs);
    }

    method Wait(ghost start: World, ghost absent: seq<Reference>)
      requires Valid(store.View()) && me in store.closed && Rely(start, store.View(), me) && AllAbsent(store.View(), absent)
      modifies store
      ensures store.refusals == old(store.refusals) && store.warnings == old(store.warnings)
      ensures Valid(store.View()) && me in store.closed && Rely(start, store.View(), me) && AllAbsent(store.View(), absent)
      ensures store.faults == old(store.faults)
    {
      hide Valid, AllAbsent;
      ghost var w := store.View();
      store.Others(me);
      RelyTransitive(start, w, store.View(), me);
      AbsentStays(w, store.View(), me, absent);
    }

    /** `rollback`: newest first. */
    method Rollback() returns (ok: bool)
      requires Staging()
      modifies store
      ensures store.refusals == old(store.refusals) && store.warnings == old(store.warnings)
      ensures Valid(store.View()) && NotCommitted(store.View(), me) && me in store.closed
      ensures ok ==> AllGone(store.View(), staged)
      ensures DeletedOrJournaled(store.View(), staged)
      ensures old(store.commits) <= store.commits && store.faults >= old(store.faults)
      ensures !ok ==> store.faults > old(store.faults)
    {
      hide Valid, Rely, Holding, AllSpent, AllGone, NotCommitted, Perform, DeletedOrJournaled;
      NotClosed(store.View(), me, staged, mine);
      GivenUp(store.View(), me, staged, mine);
      store.Take(me, GiveUp);
      ghost var w := store.View();
      ok := Cleanup(Reversed(staged));
      StillNotCommitted(w, store.View(), me);
      StillClosed(w, store.View(), me);
      CommitsGrow(w, store.View(), me);
      GoneReversed(store.View(), staged);
    }

    /** `rollback` and the error it leaves. */
    method Abandon(e: ImportError) returns (outcome: Outcome)
      requires Staging()
      modifies store
      ensures store.refusals == old(store.refusals) && store.warnings == old(store.warnings)
      ensures Valid(store.View()) && NotCommitted(store.View(), me) && me in store.closed
      ensures outcome == Failed(e) || outcome == Failed(RollbackPending)
      ensures outcome.error != Some(RollbackPending) ==> AllGone(store.View(), staged)
      ensures DeletedOrJournaled(store.View(), staged)
      ensures old(store.commits) <= store.commits && store.faults >= old(store.faults)
      ensures outcome.error == Some(RollbackPending) && e != RollbackPending ==> store.faults > old(store.faults)
    {
      hide Valid, Holding, AllGone, NotCommitted, DeletedOrJournaled;
      var ok := Rollback();
      outcome := Failed(if ok then e else RollbackPending);
    }

    /** `cleanupRetired` after the commit, and the result that is reported. */
    method Retire(ghost at: World, retired: seq<Reference>, swapped: bool, imported: nat) returns (outcome: Outcome)
      requires Valid(store.View()) && store.View() == at && me in store.closed && AllSpent(at, retired)
      requires at.commits != [] && RefSet(retired) == Active(at.commits[|at.commits| - 1].expected) - Active(at.config)
      modifies store
      ensures store.refusals == old(store.refusals) && store.warnings == old(store.warnings)
      ensures Valid(store.View()) && Rely(at, store.View(), me)
      ensures outcome.committed && outcome.imported == imported && outcome.warning == !swapped
      ensures outcome.warning ==> outcome.error == Some(CommitFailed)
      ensures !outcome.warning ==> outcome.error == if outcome.cleanupPending then Some(CleanupPending) else None
      ensures outcome.warning ==> !outcome.cleanupPending
      ensures Reported(outcome, imported, !swapped)
      ensures store.faults >= old(store.faults) && (outcome.cleanupPending ==> store.faults > old(store.faults))
      ensures outcome.error.None? ==> RetiredGone(at, store.View())
      ensures RetiredKept(at, store.View())
    {
      hide Valid, Rely, AllSpent, AllGone, RetiredGone, RetiredKept, DeletedOrJournaled, Active;
      RelyReflexive(at, me);
      var clean := true;
      if |retired| != 0 {
        clean := Cleanup(retired);
      } else {
        NothingGone(store.View());
        SpentIsJournaled(at, retired);
      }
      KeptIsRetired(at, store.View(), retired);
      if clean {
        assert AllGone(store.View(), retired) by {
          assert |retired| == 0 ==> retired == [];
        }
        GoneIsRetired(at, store.View(), retired);
      }
      if !swapped {
        return Outcome(true, imported, false, true, Some(CommitFailed));
      }
      outcome := Outcome(true, imported, !clean, false, if clean then None else Some(CleanupPending));
    }

    /** The import from the plan on: staging, the swap, and rollback or retirement. */
    method Execute(plan: Plan, current: Configuration, ghost d: Document, ghost formats: Formats, ghost mode: Mode,
                   ghost decisions: Decisions)
      returns (outcome: Outcome, ghost at: World)
      requires Staging() && activated == [] && store.config == current
      requires Admitted(plan, d, formats, current, mode, decisions)
      modifies this, store
      ensures Valid(store.View()) && me in store.closed
      ensures outcome.committed ==> CommittedBy(store.View(), me) && Commits(at, me, plan, d, mode, decisions, mine)
                                    && at.commits[|at.commits| - 1].expected == current && Rely(at, store.View(), me)
      ensures !outcome.committed ==> NotCommitted(store.View(), me) && outcome.error.Some?
                                     && DeletedOrJournaled(store.View(), staged)
                                     && (outcome.error != Some(RollbackPending) ==> AllGone(store.View(), staged))
      ensures !outcome.committed ==> store.faults > old(store.faults)
                                     || (outcome.error == Some(CommitFailed) && |store.commits| > |old(store.commits)|)
      ensures outcome.committed ==> RetiredKept(at, store.View())
      ensures outcome.error.None? ==> outcome.committed && RetiredGone(at, store.View())
      ensures outcome.committed ==> Reported(outcome, |plan.backup|, store.warnings > old(store.warnings))
      ensures outcome.committed && outcome.error.Some? ==> store.faults > old(store.faults)
      ensures !outcome.committed ==> Blames(outcome, store.refusals > old(store.refusals))
      ensures outcome.committed ==> store.refusals == old(store.refusals)
      ensures outcome.error in [Some(RollbackPending), Some(SecretsFailed)] ==> store.faults > old(store.faults)
      ensures store.faults >= old(store.faults) && store.refusals >= old(store.refusals)
    {
      hide Valid, Holding, Rely, Decided, IsPlan, Filled, AllSpent, AllGone, NotCommitted, RetiredGone, RetiredKept,
           DeletedOrJournaled, Active, Drafts,
           CommittedBy, Commits, RefSet, Swappable, WellFormed, ValidDocument, ValidConfiguration;
      at := store.View();
      ghost var before := store.View();
      var filled, done := StageAll(plan);
      if !done {
        outcome := Abandon(SecretsFailed);
        return outcome, at;
      }
      PlanIsAcceptable(plan, filled, mine, d, current, mode, decisions);
      NoCommitNoChange(before, store.View());
      outcome, at := Place(plan, filled, current, d, mode, decisions);
    }

    /** The swap of the filled plan, and rollback or retirement. */
    method Place(plan: Plan, filled: Configuration, current: Configuration, ghost d: Document, ghost mode: Mode,
                 ghost decisions: Decisions)
      returns (outcome: Outcome, ghost at: World)
      requires Staging() && Filled(plan, filled, mine) && ValidConfiguration(filled)
      requires Active(filled) == Active(plan.configuration) + RefSet(activated) && Active(plan.configuration) <= Active(current)
      requires Decided(decisions, d, current, mode) && IsPlan(plan, d, current, mode, decisions)
      modifies store
      ensures Valid(store.View()) && me in store.closed
      ensures outcome.committed ==> CommittedBy(store.View(), me) && Commits(at, me, plan, d, mode, decisions, mine)
                                    && at.commits[|at.commits| - 1].expected == current && Rely(at, store.View(), me)
                                    && RetiredKept(at, store.View())
      ensures outcome.committed ==> Reported(outcome, |plan.backup|, store.warnings > old(store.warnings))
      ensures outcome.committed ==> store.refusals == old(store.refusals)
      ensures outcome.error.Some? && (outcome.committed || outcome.error == Some(RollbackPending)) ==> store.faults > old(store.faults)
      ensures outcome.error.None? ==> outcome.committed && RetiredGone(at, store.View())
      ensures !outcome.committed ==> NotCommitted(store.View(), me) && outcome.error.Some?
                                     && DeletedOrJournaled(store.View(), staged)
                                     && (outcome.error != Some(RollbackPending) ==> AllGone(store.View(), staged))
      ensures !outcome.committed ==> (outcome == Failed(CommitFailed) || outcome == Failed(RollbackPending))
                                     && store.refusals > old(store.refusals)
      ensures !outcome.committed ==> store.faults > old(store.faults)
                                     || (outcome.error == Some(CommitFailed)
                                         && (old(store.config) != current || |store.commits| > |old(store.commits)|))
      ensures !outcome.committed ==> old(store.commits) <= store.commits
      ensures store.faults >= old(store.faults)
    {
      hide Valid, Holding, Rely, Decided, IsPlan, Filled, AllSpent, AllGone, NotCommitted, RetiredGone, RetiredKept,
           DeletedOrJournaled, Active, CommittedBy, Commits, RefSet, Swappable, ValidConfiguration, Reported, Perform, Allowed;
      at := store.View();
      ghost var before := store.View();
      Yield();
      ghost var w := store.View();
      OwnReferences(w, me, staged, mine, activated);
      NoCommitNoChange(before, w);
      StagedIsSwappable(w, me, staged, mine, activated, plan, filled, current);
      var committed, swapped, retired := store.ReplaceConfiguration(me, current, filled, activated);
      if !committed {
        outcome := Abandon(CommitFailed);
        return outcome, at;
      }
      outcome, at := Settle(w, plan, filled, current, swapped, retired, d, mode, decisions);
    }

    /** After the commit. */
    method Settle(ghost w: World, plan: Plan, ghost filled: Configuration, ghost current: Configuration, swapped: bool,
                  retired: seq<Reference>, ghost d: Document, ghost mode: Mode, ghost decisions: Decisions)
      returns (outcome: Outcome, ghost at: World)
      requires Valid(w) && Holding(w, me, staged, mine) && Filled(plan, filled, mine)
      requires Allowed(w, me, Swap(current, filled, RefSet(activated)))
      requires Valid(store.View()) && store.View() == Perform(w, me, Swap(current, filled, RefSet(activated)))
      requires RefSet(retired) == Active(current) - Active(filled)
      requires Decided(decisions, d, current, mode) && IsPlan(plan, d, current, mode, decisions)
      modifies store
      ensures Valid(store.View()) && me in store.closed && CommittedBy(store.View(), me)
      ensures Commits(at, me, plan, d, mode, decisions, mine)
              && at.commits[|at.commits| - 1].expected == current && Rely(at, store.View(), me)
      ensures outcome.committed && Reported(outcome, |plan.backup|, !swapped) && RetiredKept(at, store.View())
      ensures outcome.error.None? ==> RetiredGone(at, store.View())
      ensures store.faults >= old(store.faults)
      ensures outcome.error.Some? && swapped ==> store.faults > old(store.faults)
      ensures store.refusals == old(store.refusals) && store.warnings == old(store.warnings)
    {
      hide Valid, Holding, Rely, Decided, IsPlan, Filled, AllSpent, RetiredGone, RetiredKept, Active, CommittedBy, Commits,
           RefSet, Perform, Allowed;
      at := store.View();
      Retires(w, me, current, filled, RefSet(activated), retired);
      CommitIs(w, me, current, filled, RefSet(activated), plan, d, mode, decisions, staged, mine);
      outcome := Retire(at, retired, swapped, |plan.backup|);
      StillCommitted(at, store.View(), me);
      StillClosed(at, store.View(), me);
    }

    /** The first part of `Import`: reading the configuration, using up the receipt, planning. */
    method Admit(previews: BackupReceipts.Previews, q: Request, formats: Formats)
      returns (r: Result<Plan, ImportError>, ghost presented: seq<BackupReceipts.Event>, ghost rejected: Plan)
      requires Valid(store.View()) && previews.Valid() && q.receipts == previews.previews
      requires q.decrypted.Some? ==> ValidDocument(q.decrypted.value, formats)
      modifies store`faults, previews
      ensures previews.Valid() && previews.log == old(previews.log) + presented
      ensures store.faults >= old(store.faults) && previews.faults >= old(previews.faults)
      ensures r.Success? ==> q.decrypted.Some? && Admitted(r.value, q.decrypted.value, formats, store.config, q.mode, q.decisions)
                             && |presented| == 1 && Honoured(presented[0], q, store.config)
      ensures r.Failure? ==> || (store.faults > old(store.faults) && r.error == CommitFailed)
                             || (previews.faults > old(previews.faults) && r.error == PreviewRequired)
                             || Cause(r.error, q, store.config, rejected, presented)
      ensures InTurn(if r.Failure? then Some(r.error) else None, q, presented)
      ensures r.Success? ==> LetThrough(presented)
      ensures r.Failure? ==> r.error.Undecryptable? || r.error.CommitFailed? || r.error.PreviewRequired? || r.error.BadChoice?
    {
      hide Valid, Admitted, Active, ValidDocument, ValidConfiguration, BackupReceipts.LogOk, BackupReceipts.Live,
           BackupReceipts.Matches;
      presented, rejected := [], Plan(store.config, map[]);
      assert previews.log + [] == previews.log;
      if q.decrypted.None? {
        return Failure(Undecryptable), presented, rejected;
      }
      var d := q.decrypted.value;
      var read := *;
      if !read {
        store.faults := store.faults + 1;
        return Failure(CommitFailed), presented, rejected;
      }
      var current := store.config;
      CurrentIsValid(store.View());
      ghost var before := previews.log;
      var accepted := previews.Consume(q.previewId, q.archive, current, q.mode);
      presented := previews.log[|before|..];
      if !accepted {
        return Failure(PreviewRequired), presented, rejected;
      }
      var planned, refused := PlanFor(q, d, formats, current, presented);
      r, rejected := planned, refused;
    }

    /**
      `Import`. Without a commit nothing is changed but what this import staged,
      and that is gone unless the rollback is reported as pending; and there is a
      cause: the request, a failure, or a commit by others. With one, the plan
      for the previewed archive and configuration is in place, and without an
      error the references it retired are gone too. Whatever is not gone is out of
      use and in the journal. In any case this import has ended, for good
      (`BackupVault.ClosedForGood`).
    */
    method Run(previews: BackupReceipts.Previews, q: Request, formats: Formats)
      returns (outcome: Outcome, ghost plan: Plan, ghost at: World,
               ghost presented: seq<BackupReceipts.Event>, ghost atRead: World)
      requires Staging() && staged == [] && activated == [] && previews.Valid() && q.receipts == previews.previews
      requires q.decrypted.Some? ==> ValidDocument(q.decrypted.value, formats)
      modifies this, store, previews
      ensures Valid(store.View()) && previews.Valid() && previews.log == old(previews.log) + presented
      ensures Rely(old(store.View()), atRead, me) && me in store.closed
      ensures outcome.committed ==>
                && q.decrypted.Some? && CommittedBy(store.View(), me) && Rely(at, store.View(), me)
                && Commits(at, me, plan, q.decrypted.value, q.mode, q.decisions, mine)
                && Admitted(plan, q.decrypted.value, formats, atRead.config, q.mode, q.decisions)
                && at.commits[|at.commits| - 1].expected == atRead.config
                && |presented| == 1 && Honoured(presented[0], q, atRead.config)
      ensures !outcome.committed ==> NotCommitted(store.View(), me) && outcome.error.Some?
                                     && DeletedOrJournaled(store.View(), staged)
                                     && (outcome.error != Some(RollbackPending) ==> AllGone(store.View(), staged))
      ensures !outcome.committed ==>
                || Cause(outcome.error.value, q, atRead.config, plan, presented)
                || (store.faults > old(store.faults)
                    && outcome.error in [Some(CommitFailed), Some(SecretsFailed), Some(RollbackPending)])
                || (previews.faults > old(previews.faults) && outcome.error == Some(PreviewRequired))
                || (outcome.error == Some(CommitFailed) && |store.commits| > |atRead.commits|)
      ensures outcome.committed ==> RetiredKept(at, store.View())
      ensures outcome.error.None? ==> outcome.committed && RetiredGone(at, store.View())
      ensures outcome.committed ==> Reported(outcome, |plan.backup|, store.warnings > old(store.warnings))
      ensures outcome.committed && outcome.error.Some? ==> store.faults > old(store.faults)
      ensures !outcome.committed ==> outcome == Failed(outcome.error.value)
      ensures outcome.error in [Some(RollbackPending), Some(SecretsFailed)] ==> store.faults > old(store.faults)
      ensures outcome.error == Some(SecretsFailed) ==> store.refusals == old(store.refusals)
      ensures store.refusals > old(store.refusals) ==> outcome.error in [Some(CommitFailed), Some(RollbackPending)]
      ensures InTurn(outcome.error, q, presented)
    {
      hide Valid, Holding, Rely, AllGone, NotCommitted, RetiredGone, RetiredKept, DeletedOrJournaled, CommittedBy,
           Commits, ValidDocument, Admitted, Cause, Honoured, InTurn;
      at := store.View();
      Yield();
      atRead := store.View();
      NothingDone(atRead, me, staged, mine);
      var admitted, seen, rejected := Admit(previews, q, formats);
      presented, plan := seen, rejected;
      if admitted.Failure? {
        NotClosed(atRead, me, staged, mine);
        EndsEmpty(atRead, me, staged);
        store.Take(me, GiveUp);
        return Failed(admitted.error), plan, at, presented, atRead;
      }
      plan := admitted.value;
      outcome, at := Execute(admitted.value, store.config, q.decrypted.value, formats, q.mode, q.decisions);
      StillInTurn(outcome.error, q, presented);
    }
  }

  /** Planning, with the bounds of the configuration. */
  method PlanFor(q: Request, d: Document, formats: Formats, current: Configuration,
                 ghost presented: seq<BackupReceipts.Event>)
    returns (r: Result<Plan, ImportError>, ghost rejected: Plan)
    requires q.decrypted == Some(d) && ValidDocument(d, formats) && ValidConfiguration(current)
    ensures r.Success? ==> Admitted(r.value, d, formats, current, q.mode, q.decisions)
    ensures r.Failure? ==> Cause(r.error, q, current, rejected, presented)
    ensures r == Failure(BadChoice(InvalidMode)) <==> q.mode == Unknown
    ensures r.Failure? ==> r.error.CommitFailed? || r.error.BadChoice?
  {
    hide Decided, IsPlan, Active, Drafts, ValidDocument, WellFormed, ValidConfiguration;
    ValidIsWellFormed(d, formats, current);
    rejected := Plan(current, map[]);
    var planned := BackupPlan.PlanImport(d, current, q.mode, q.decisions);
    if planned.Failure? {
      return Failure(BadChoice(planned.error)), rejected;
    }
    var plan := planned.value;
    rejected := plan;
    if |plan.configuration.definitions| > MAXIMUM_PROVIDERS || |plan.configuration.devices| > MAXIMUM_DEVICE_PROFILES {
      return Failure(CommitFailed), rejected;
    }
    PlanDrafts(plan, d, formats, current, q.mode, q.decisions);
    PlanReferences(plan, d, formats, current, q.mode, q.decisions);
    r := Success(plan);
  }
}
