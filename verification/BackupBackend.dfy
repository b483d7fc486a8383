/**
  The configuration owner and the secret store (`structuredprovider` and
  `secretstore`), by the contracts under which `backup/service.go` uses them.
*/
module BackupBackend {
  import opened Wrappers
  import opened BackupModel
  import opened BackupVault

  function RefSet(refs: seq<Reference>): set<Reference> {
    set r | r in refs
  }

  /** What `ReplaceConfiguration` checks before it swaps. */
  predicate Swappable(w: World, expected: Configuration, replacement: Configuration, activated: seq<Reference>) {
    && w.config == expected && |RefSet(activated)| == |activated| && Active(replacement) - Active(w.config) == RefSet(activated)
    && RefSet(activated) <= w.journal && ValidConfiguration(replacement)
  }

  method Listed(refs: set<Reference>) returns (list: seq<Reference>)
    ensures RefSet(list) == refs
  {
    list := [];
    var left := refs;
    while left != {}
      invariant left <= refs && RefSet(list) == refs - left
      decreases left
    {
      var r :| r in left;
      assert RefSet(list + [r]) == RefSet(list) + {r};
      list, left := list + [r], left - {r};
    }
  }

  /** The configuration owner and the secret store, by the contracts `Import` uses them under. */
  class Backend {
    var config: Configuration
    var journal: set<Reference>
    var vault: map<Reference, Option<Secret>>
    // who did what, for the specification
    var owner: map<Reference, ImportId>
    var reserved: set<Reference>
    var closed: set<ImportId>
    const start: Configuration
    var commits: seq<Commit>
    ghost var faults: nat  // steps that failed, whether or not they took effect
    ghost var calls: nat   // steps taken other than by `Others`
    ghost var refusals: nat  // replacements that were not committed
    ghost var warnings: nat  // replacements that were committed and reported an error

    function View(): World
      reads this
    {
      World(config, journal, vault, owner, reserved, closed, start, commits)
    }

    constructor (w: World)
      requires Valid(w)
      ensures View() == w
    {
      config, journal, vault := w.config, w.journal, w.vault;
      owner, reserved, closed, start, commits := w.owner, w.reserved, w.closed, w.start, w.commits;
      faults, calls, refusals, warnings := 0, 0, 0, 0;
    }

    /** One step, which keeps everything accounted for. */
    method Take(j: ImportId, op: Op)
      requires Valid(View()) && Allowed(View(), j, op)
      modifies `config, `journal, `vault, `owner, `reserved, `closed, `commits, `calls
      ensures View() == Perform(old(View()), j, op) && Valid(View()) && calls == old(calls) + 1
    {
      hide Valid, Allowed;
      OpKeepsValid(View(), j, op);
      var w := Perform(View(), j, op);
      config, journal, vault := w.config, w.journal, w.vault;
      owner, reserved, closed, commits := w.owner, w.reserved, w.closed, w.commits;
      calls := calls + 1;
    }

    /** Any steps of other imports. */
    method Others(me: ImportId)
      requires Valid(View())
      modifies this
      ensures Valid(View()) && Rely(old(View()), View(), me) && faults == old(faults) && calls == old(calls)
      ensures refusals == old(refusals) && warnings == old(warnings)
    {
      hide Valid, Allowed, Perform, Rely;
      var steps :| 0 <= steps;
      RelyReflexive(View(), me);
      for i := 0 to steps
        invariant Valid(View()) && Rely(old(View()), View(), me) && faults == old(faults)
        invariant refusals == old(refusals) && warnings == old(warnings)
      {
        var j: ImportId :| true;
        var op: Op := *;
        if j != me && !op.Crash? && !op.Adopt? && Allowed(View(), j, op) {
          OthersAreHarmless(View(), j, op, me);
          RelyTransitive(old(View()), View(), Perform(View(), j, op), me);
          Take(j, op);
        }
      }
      calls := old(calls);
    }

    /** A fresh placeholder; after an error it may exist all the same. A reference is never issued twice. */
    method Create(me: ImportId) returns (r: Reference, ok: bool, duplicate: bool)
      requires Valid(View()) && me !in closed
      modifies this
      ensures Valid(View())
      ensures ok ==> !duplicate && r !in old(owner) && View() == Perform(old(View()), me, Reserve(r))
      ensures !ok ==> View() == old(View()) || (r !in old(owner) && View() == Perform(old(View()), me, Reserve(r)))
      ensures faults == old(faults) + if ok then 0 else 1
      ensures refusals == old(refusals) && warnings == old(warnings)
    {
      r :| true;
      duplicate := r in owner;
      if duplicate {
        faults := faults + 1;
        return r, false, true;
      }
      ok := *;
      faults := faults + if ok then 0 else 1;
      var effect := *;
      if ok || effect {
        Take(me, Reserve(r));
      }
    }

    /** `StageCleanup` of one reserved reference; an error may come after the commit. */
    method StageCleanup(me: ImportId, r: Reference) returns (ok: bool)
      requires Valid(View()) && Allowed(View(), me, Stage(r))
      modifies this
      ensures Valid(View())
      ensures View() == Perform(old(View()), me, Stage(r)) || (!ok && View() == old(View()))
      ensures faults == old(faults) + if ok then 0 else 1
      ensures refusals == old(refusals) && warnings == old(warnings)
    {
      ok := *;
      faults := faults + if ok then 0 else 1;
      var effect := *;
      if ok || effect {
        Take(me, Stage(r));
      }
    }

    /** The write of the secret over its placeholder. */
    method Update(me: ImportId, r: Reference, secret: Secret) returns (ok: bool)
      requires Valid(View()) && Allowed(View(), me, Write(r, secret))
      modifies this
      ensures Valid(View())
      ensures View() == Perform(old(View()), me, Write(r, secret)) || (!ok && View() == old(View()))
      ensures faults == old(faults) + if ok then 0 else 1
      ensures refusals == old(refusals) && warnings == old(warnings)
    {
      ok := *;
      faults := faults + if ok then 0 else 1;
      var effect := *;
      if ok || effect {
        Take(me, Write(r, secret));
      }
    }

    /** `Delete`: idempotent, and may fail with or without effect. */
    method Delete(me: ImportId, r: Reference) returns (ok: bool)
      requires Valid(View()) && Allowed(View(), me, Remove(r))
      modifies this
      ensures Valid(View())
      ensures View() == Perform(old(View()), me, Remove(r)) || (!ok && View() == old(View()))
      ensures faults == old(faults) + if ok then 0 else 1
      ensures refusals == old(refusals) && warnings == old(warnings)
    {
      ok := *;
      faults := faults + if ok then 0 else 1;
      var effect := *;
      if ok || effect {
        Take(me, Remove(r));
      }
    }

    method CompleteCleanup(me: ImportId, refs: seq<Reference>) returns (ok: bool)
      requires Valid(View()) && Allowed(View(), me, Complete(RefSet(refs)))
      modifies this
      ensures Valid(View())
      ensures View() == Perform(old(View()), me, Complete(RefSet(refs))) || (!ok && View() == old(View()))
      ensures faults == old(faults) + if ok then 0 else 1
      ensures refusals == old(refusals) && warnings == old(warnings)
    {
      ok := *;
      faults := faults + if ok then 0 else 1;
      var effect := *;
      if ok || effect {
        Take(me, Complete(RefSet(refs)));
      }
    }

    /**
      `ReplaceConfiguration`: compare and swap, with the activated references
      exactly the new ones and all of them journaled. An error after the commit
      is a verification warning.
    */
    method ReplaceConfiguration(me: ImportId, expected: Configuration, replacement: Configuration, activated: seq<Reference>)
      returns (committed: bool, ok: bool, retired: seq<Reference>)
      requires Valid(View()) && me !in closed
      requires forall r :: r in activated ==> Owns(View(), me, r) && r in vault && vault[r].Some?
      modifies this
      ensures Valid(View()) && (ok ==> committed)
      ensures faults >= old(faults) && (committed && !ok ==> faults > old(faults))
      ensures refusals == old(refusals) + if committed then 0 else 1
      ensures warnings == old(warnings) + if committed && !ok then 1 else 0
      ensures committed ==>
                && config == replacement && |replacement.definitions| <= 6 && |replacement.devices| <= 32
                && Active(replacement) - Active(expected) == RefSet(activated) <= old(journal)
                && journal == (old(journal) - RefSet(activated)) + RefSet(retired) && vault == old(vault)
      ensures !committed ==> faults > old(faults) || !Swappable(old(View()), expected, replacement, activated)
      ensures RefSet(retired) == Active(expected) - Active(replacement)
      ensures !committed ==> View() == old(View())
      ensures committed ==>
                && old(config) == expected && View() == Perform(old(View()), me, Swap(expected, replacement, RefSet(activated)))
                && Allowed(old(View()), me, Swap(expected, replacement, RefSet(activated)))
    {
      hide Valid, Active, ValidConfiguration, RefSet, Perform, Allowed;
      retired := Listed(Active(expected) - Active(replacement));
      var added := RefSet(activated);
      if config != expected || |added| != |activated| || Active(replacement) - Active(config) != added
         || !(added <= journal) || !ValidConfiguration(replacement) {
        refusals := refusals + 1;
        return false, false, retired;
      }
      committed := *;  // the formats of the new state may be refused, or the file not be written
      if !committed {
        faults, refusals := faults + 1, refusals + 1;
        return false, false, retired;
      }
      CanSwap(View(), me, expected, replacement, activated, retired);
      Take(me, Swap(expected, replacement, added));
      var warned := *;
      if warned {
        faults, warnings := faults + 1, warnings + 1;
      }
      ok := !warned;
    }

    /** `StageCleanup` of what no import has journaled. */
    method StageOrphans(me: ImportId, orphans: seq<Reference>) returns (ok: bool)
      requires Valid(View()) && Allowed(View(), me, Adopt(RefSet(orphans)))
      modifies this
      ensures Valid(View())
      ensures View() == Perform(old(View()), me, Adopt(RefSet(orphans))) || (!ok && View() == old(View()))
      ensures faults == old(faults) + if ok then 0 else 1
      ensures refusals == old(refusals) && warnings == old(warnings)
    {
      ok := *;
      faults := faults + if ok then 0 else 1;
      var effect := *;
      if ok || effect {
        Take(me, Adopt(RefSet(orphans)));
      }
    }

    /** The loop that finds what neither the configuration nor the journal accounts for. */
    method FindOrphans() returns (orphans: seq<Reference>)
      ensures RefSet(orphans) == Orphans(View())
    {
      hide Active;
      var metadata := Listed(vault.Keys);
      var active := Active(config);
      orphans := [];
      for i := 0 to |metadata|
        invariant RefSet(orphans) == RefSet(metadata[..i]) - active - journal
      {
        var r := metadata[i];
        RefSetMore(metadata[..i], r);
        RefSetMore(orphans, r);
        assert metadata[..i + 1] == metadata[..i] + [r];
        if r in active || r in journal {
          continue;
        }
        orphans := orphans + [r];
      }
      assert metadata[..|metadata|] == metadata;
    }

    /**
      `ReconcileCleanup`, when no import is alive: it journals the orphans and works
      off the journal. The configuration keeps its secrets whatever fails.
    */
    method ReconcileCleanup(me: ImportId) returns (ok: bool)
      requires Valid(View()) && owner.Values <= closed
      modifies this
      ensures Valid(View()) && config == old(config) && commits == old(commits)
      ensures forall r :: r in Active(config) ==> r in vault && r in old(vault) && vault[r] == old(vault)[r]
      ensures ok ==> vault.Keys == Active(config) && journal == {}
      ensures faults >= old(faults) && (!ok ==> faults > old(faults))
    {
      hide Valid, Active, Orphans;
      ghost var start := View();
      QuietBegins(start);
      var listed := *;
      if !listed {
        faults := faults + 1;
        return false;
      }
      var orphans := FindOrphans();
      if |orphans| != 0 {
        OrphansAreSpent(start, me);
        var staged := StageOrphans(me, orphans);
        QuietAdopts(start, me);
        if !staged {
          return false;
        }
      } else {
        assert orphans == [] && RefSet(orphans) == {};
      }
      ok := RetryCleanup(me, start);
    }

    /** `RetryCleanup`: the deletions of what is journaled, and the end of its journal entries. */
    method RetryCleanup(me: ImportId, ghost start: World) returns (ok: bool)
      requires Quiet(start, View())
      modifies this
      ensures Quiet(start, View())
      ensures ok && Orphans(old(View())) == {} ==> vault.Keys == Active(config) && journal == {}
      ensures faults >= old(faults) && (!ok ==> faults > old(faults))
    {
      hide Valid, Active, Orphans;
      ghost var before := View();
      var references := Listed(journal);
      var deleted: seq<Reference> := [];
      var pending := false;
      for i := 0 to |references|
        invariant Quiet(start, View()) && Cleared(before, View(), deleted)
        invariant !pending ==> deleted == references[..i]
        invariant faults >= old(faults) && (pending ==> faults > old(faults))
      {
        var r := references[i];
        assert r in RefSet(references);
        CanClear(start, before, View(), me, deleted, r);
        var removed := Delete(me, r);
        if removed {
          deleted := deleted + [r];
        } else {
          pending := true;
        }
      }
      assert references[..|references|] == references;
      CanComplete(start, before, View(), me, deleted);
      if |deleted| != 0 {
        var completed := CompleteCleanup(me, deleted);
        pending := pending || !completed;
      } else {
        assert deleted == [] && RefSet(deleted) == {};
      }
      ok := !pending;
    }
  }

  /** What the checks establish, and what the swap does to the fields. */
  lemma CanSwap(w: World, me: ImportId, expected: Configuration, replacement: Configuration, activated: seq<Reference>,
                retired: seq<Reference>)
    requires Swappable(w, expected, replacement, activated) && me !in w.closed
    requires forall r :: r in activated ==> Owns(w, me, r) && r in w.vault && w.vault[r].Some?
    requires RefSet(retired) == Active(expected) - Active(replacement)
    ensures var op := Swap(expected, replacement, RefSet(activated));
            && Allowed(w, me, op) && Perform(w, me, op).config == replacement && Perform(w, me, op).vault == w.vault
            && Perform(w, me, op).journal == (w.journal - RefSet(activated)) + RefSet(retired)
    ensures |replacement.definitions| <= 6 && |replacement.devices| <= 32
    ensures Active(replacement) - Active(expected) == RefSet(activated) <= w.journal
  {
    hide Active;
  }

  lemma RefSetMore(refs: seq<Reference>, r: Reference)
    ensures RefSet(refs + [r]) == RefSet(refs) + {r}
  {
  }

  /** No import is alive, and what the configuration refers to is as it was. */
  ghost predicate Quiet(start: World, w: World) {
    && Valid(w) && w.owner.Values <= w.closed && w.config == start.config && w.commits == start.commits
    && forall r :: r in Active(w.config) ==> r in w.vault && r in start.vault && w.vault[r] == start.vault[r]
  }

  lemma QuietBegins(w: World)
    requires Valid(w) && w.owner.Values <= w.closed
    ensures Quiet(w, w)
  {
    hide Active, ValidConfiguration, Chained, Accounted;
  }

  lemma OrphansAreSpent(w: World, me: ImportId)
    requires Quiet(w, w)
    ensures Allowed(w, me, Adopt(Orphans(w)))
  {
    hide Active, ValidConfiguration, Chained, Accounted;
  }

  lemma QuietAdopts(w: World, me: ImportId)
    requires Quiet(w, w) && Allowed(w, me, Adopt(Orphans(w)))
    ensures Quiet(w, Perform(w, me, Adopt(Orphans(w)))) && Orphans(Perform(w, me, Adopt(Orphans(w)))) == {}
  {
    hide Active, Valid;
    OpKeepsValid(w, me, Adopt(Orphans(w)));
  }

  /** The journaled references that have been deleted so far. */
  ghost predicate Cleared(before: World, w: World, deleted: seq<Reference>) {
    && w.journal == before.journal && w.config == before.config && w.vault.Keys <= before.vault.Keys
    && forall r :: r in deleted ==> r in w.journal && r !in w.vault
  }

  lemma CanClear(start: World, before: World, w: World, me: ImportId, deleted: seq<Reference>, r: Reference)
    requires Quiet(start, w) && Cleared(before, w, deleted) && r in w.journal
    ensures Allowed(w, me, Remove(r)) && Quiet(start, Perform(w, me, Remove(r)))
    ensures Cleared(before, Perform(w, me, Remove(r)), deleted + [r])
    ensures Cleared(before, Perform(w, me, Remove(r)), deleted)
  {
    hide Active, ValidConfiguration, Chained, Accounted;
    OpKeepsValid(w, me, Remove(r));
  }

  lemma CanComplete(start: World, before: World, w: World, me: ImportId, deleted: seq<Reference>)
    requires Quiet(start, w) && Cleared(before, w, deleted)
    ensures var op := Complete(RefSet(deleted));
            && Allowed(w, me, op) && Quiet(start, Perform(w, me, op))
            && (RefSet(deleted) == before.journal && Orphans(before) == {} ==>
                  Perform(w, me, op).vault.Keys == Active(w.config) && Perform(w, me, op).journal == {})
  {
    hide Active, ValidConfiguration, Chained, Accounted;
    OpKeepsValid(w, me, Complete(RefSet(deleted)));
    if RefSet(deleted) == before.journal && Orphans(before) == {} {
      forall r | r in w.vault
        ensures r in Active(w.config)
      {
        assert r in RefSet(deleted) ==> r in deleted;
        assert r !in Orphans(before);
      }
    }
  }
}
