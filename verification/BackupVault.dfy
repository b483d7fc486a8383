/**
  The secrets of concurrent imports (`backup/service.go`): the configuration, the
  cleanup journal and the vault, as the steps of any number of imports change
  them. A crash may come between any two steps.
*/
module BackupVault {
  import opened Wrappers
  import opened BackupModel

  type ImportId = nat

  datatype Commit = Commit(author: ImportId, expected: Configuration, replacement: Configuration)

  /**
    In the vault, `None` is the placeholder of a reserved reference. The last
    fields only record what happened: who reserved each reference, which are not
    journaled yet, which imports have committed or given up, and the commits.
  */
  datatype World = World(
    config: Configuration,
    journal: set<Reference>,
    vault: map<Reference, Option<Secret>>,
    owner: map<Reference, ImportId>,
    reserved: set<Reference>,
    closed: set<ImportId>,
    start: Configuration,
    commits: seq<Commit>)

  datatype Op =
    | Reserve(r: Reference)
    | Stage(r: Reference)
    | Write(r: Reference, secret: Secret)
    | Remove(r: Reference)
    | Swap(expected: Configuration, replacement: Configuration, activated: set<Reference>)
    | Complete(refs: set<Reference>)
    | GiveUp
    | Crash
    | Adopt(refs: set<Reference>)

  predicate Owns(w: World, j: ImportId, r: Reference) {
    r in w.owner && w.owner[r] == j
  }

  /** Reserved by an import that will not activate it any more. */
  predicate Spent(w: World, r: Reference) {
    r in w.owner && w.owner[r] in w.closed && r !in Active(w.config)
  }

  predicate Allowed(w: World, j: ImportId, op: Op) {
    match op
    case Reserve(r) => r !in w.owner && j !in w.closed
    case Stage(r) => Owns(w, j, r) && j !in w.closed && r in w.reserved
    case Write(r, _) => Owns(w, j, r) && j !in w.closed && r in w.vault && r in w.journal
    case Remove(r) => (Owns(w, j, r) && j !in w.closed) || Spent(w, r)
    case Swap(expected, replacement, activated) =>
      && j !in w.closed && w.config == expected && ValidConfiguration(replacement)
      && Active(replacement) - Active(w.config) == activated && activated <= w.journal
      && forall r :: r in activated ==> Owns(w, j, r) && r in w.vault && w.vault[r].Some?
    case Complete(refs) =>
      forall r :: r in refs ==> r !in w.vault && ((Owns(w, j, r) && j !in w.closed) || Spent(w, r))
    case GiveUp => j !in w.closed
    case Crash => true
    case Adopt(refs) => forall r :: r in refs ==> Spent(w, r) && r in w.vault
  }

  function Perform(w: World, j: ImportId, op: Op): World {
    match op
    case Reserve(r) => w.(vault := w.vault[r := None], owner := w.owner[r := j], reserved := w.reserved + {r})
    case Stage(r) => w.(journal := w.journal + {r}, reserved := w.reserved - {r})
    case Write(r, secret) => w.(vault := w.vault[r := Some(secret)])
    case Remove(r) => w.(vault := w.vault - {r}, reserved := w.reserved - {r})
    case Swap(expected, replacement, activated) =>
      w.(config := replacement,
         journal := (w.journal - activated) + (Active(w.config) - Active(replacement)),
         closed := w.closed + {j},
         commits := w.commits + [Commit(j, expected, replacement)])
    case Complete(refs) => w.(journal := w.journal - refs)
    case GiveUp => w.(closed := w.closed + {j})
    case Crash => w.(closed := w.closed + w.owner.Values)  // no import survives
    case Adopt(refs) =>
      // `ReconcileCleanup` journals what nobody accounts for
      w.(journal := w.journal + refs, reserved := w.reserved - refs)
  }

  /** The configuration that the first `k` commits leave. */
  function Left(start: Configuration, commits: seq<Commit>, k: nat): Configuration
    requires k <= |commits|
  {
    if k == 0 then start else commits[k - 1].replacement
  }

  /** Each commit replaced what the one before left, and each is by another import. */
  ghost predicate Chained(w: World) {
    && w.config == Left(w.start, w.commits, |w.commits|)
    && (forall k {:trigger Left(w.start, w.commits, k)} ::
          0 <= k < |w.commits| ==> w.commits[k].expected == Left(w.start, w.commits, k))
    && (forall k :: 0 <= k < |w.commits| ==> w.commits[k].author in w.closed)
    && (forall i, k :: 0 <= i < k < |w.commits| ==> w.commits[i].author != w.commits[k].author)
  }

  /** Every vault entry is in use, to be cleaned up, or a placeholder just reserved. */
  ghost predicate Accounted(w: World) {
    && (forall r :: r in w.vault ==> r in Active(w.config) || r in w.journal || r in w.reserved)
    && (forall r :: r in w.vault && w.vault[r].Some? ==> r in Active(w.config) || r in w.journal)
  }

  /** What the configuration refers to is there, and nobody is about to delete it. */
  ghost predicate ActiveOk(w: World) {
    && (forall r :: r in Active(w.config) ==> r in w.vault && w.vault[r].Some?)
    && Active(w.config) !! w.journal && Active(w.config) !! w.reserved && w.journal !! w.reserved
    && (forall r :: r in Active(w.config) ==> r in w.owner && w.owner[r] in w.closed)
  }

  ghost predicate Valid(w: World) {
    && ValidConfiguration(w.config)
    && Accounted(w) && ActiveOk(w) && Chained(w)
    && (forall r :: r in w.vault || r in w.journal || r in w.reserved ==> r in w.owner)
  }

  lemma OpKeepsAccounted(w: World, j: ImportId, op: Op)
    requires Valid(w) && Allowed(w, j, op)
    ensures Accounted(Perform(w, j, op))
  {
    hide Active, Chained, ValidConfiguration;
  }

  lemma OpKeepsActive(w: World, j: ImportId, op: Op)
    requires Valid(w) && Allowed(w, j, op)
    ensures ActiveOk(Perform(w, j, op))
  {
    hide Active, Chained, ValidConfiguration, Accounted;
  }

  lemma OpKeepsChain(w: World, j: ImportId, op: Op)
    requires Valid(w) && Allowed(w, j, op)
    ensures Chained(Perform(w, j, op))
  {
    hide Active, ValidConfiguration, Accounted, ActiveOk;
    if op.Swap? {
      ChainGrows(w, Perform(w, j, op), Commit(j, op.expected, op.replacement));
    }
  }

  lemma ChainGrows(w: World, w': World, c: Commit)
    requires Chained(w) && c.expected == w.config && c.author !in w.closed
    requires w'.config == c.replacement && w'.commits == w.commits + [c]
    requires w'.closed == w.closed + {c.author} && w'.start == w.start
    ensures Chained(w')
  {
    forall k | 0 <= k < |w'.commits|
      ensures w'.commits[k].expected == Left(w'.start, w'.commits, k) && w'.commits[k].author in w'.closed
    {
      assert k < |w.commits| ==> w'.commits[k] == w.commits[k];
      assert Left(w'.start, w'.commits, k) == Left(w.start, w.commits, k);
    }
  }

  lemma OpKeepsValid(w: World, j: ImportId, op: Op)
    requires Valid(w) && Allowed(w, j, op)
    ensures Valid(Perform(w, j, op))
  {
    hide Active, ValidConfiguration, Chained;
    OpKeepsAccounted(w, j, op);
    OpKeepsActive(w, j, op);
    OpKeepsChain(w, j, op);
  }

  // -------------------------------------------------------------------- runs

  ghost predicate Next(w: World, w': World) {
    exists j: ImportId, op :: Allowed(w, j, op) && w' == Perform(w, j, op)
  }

  ghost predicate IsRun(run: seq<World>) {
    && run != [] && Valid(run[0])
    && forall i :: 0 <= i < |run| - 1 ==> Next(run[i], run[i + 1])
  }

  /**
    Crash-safe accounting: at every step of every interleaving each vault
    reference is active, journaled, or reserved and not yet journaled, and no
    reference of the configuration is missing its secret.
  */
  lemma {:induction false} SecretsAreAccountedFor(run: seq<World>, i: nat)
    requires IsRun(run) && i < |run|
    ensures Valid(run[i])
  {
    hide Valid, Allowed, Perform;
    if i > 0 {
      SecretsAreAccountedFor(run, i - 1);
      assert Next(run[i - 1], run[i - 1 + 1]);
      var j: ImportId, op :| Allowed(run[i - 1], j, op) && run[i] == Perform(run[i - 1], j, op);
      OpKeepsValid(run[i - 1], j, op);
    }
  }

  /** An import that has committed or given up takes no part any more, and what it left is never used again. */
  lemma {:induction false} ClosedForGood(run: seq<World>, i: nat, j: nat, me: ImportId)
    requires IsRun(run) && i <= j < |run| && me in run[i].closed
    ensures me in run[j].closed && run[i].commits <= run[j].commits
    ensures forall k :: |run[i].commits| <= k < |run[j].commits| ==> run[j].commits[k].author != me
    ensures forall r :: Spent(run[i], r) ==> Spent(run[j], r)
    decreases j
  {
    hide Valid, Allowed, Perform, Spent;
    if i < j {
      ClosedForGood(run, i, j - 1, me);
      assert Next(run[j - 1], run[j - 1 + 1]);
      var author: ImportId, op :| Allowed(run[j - 1], author, op) && run[j] == Perform(run[j - 1], author, op);
      SecretsAreAccountedFor(run, j - 1);
      ClosedStep(run[j - 1], author, op, me);
    }
  }

  lemma ClosedStep(w: World, j: ImportId, op: Op, me: ImportId)
    requires Valid(w) && Allowed(w, j, op) && me in w.closed
    ensures var w' := Perform(w, j, op);
            && me in w'.closed && (w'.commits == w.commits || (|w'.commits| == |w.commits| + 1 && w.commits <= w'.commits
                                                                && w'.commits[|w.commits|].author != me))
            && forall r :: Spent(w, r) ==> Spent(w', r)
  {
    hide Active, ValidConfiguration, Chained, Accounted;
  }

  /** What nobody accounts for once no import is alive. */
  function Orphans(w: World): set<Reference> {
    w.vault.Keys - Active(w.config) - w.journal
  }

  /** The steps of recovery: a crash, one journaling of all orphans, and the deletion of each journaled reference. */
  function RecoverySteps(w: World, order: seq<Reference>): seq<Op> {
    [Crash, Adopt(Orphans(w))] + seq(|order|, i requires 0 <= i < |order| => Remove(order[i])) + [Complete(set r | r in order)]
  }

  /** After a crash with `n` of the journaled references deleted. */
  ghost predicate Recovering(w: World, start: World, order: seq<Reference>, n: nat) {
    && Valid(w) && n <= |order| && w.config == start.config
    && w.vault == start.vault - (set r | r in order[..n]) && w.journal == (set r | r in order)
    && forall r :: r in w.journal ==> Spent(w, r)
  }

  lemma RecoveryBegins(w: World, j: ImportId, order: seq<Reference>)
    requires Valid(w) && (set r | r in order) == w.journal + Orphans(w)
    ensures Allowed(w, j, Crash) && Allowed(Perform(w, j, Crash), j, Adopt(Orphans(w)))
    ensures Recovering(Perform(Perform(w, j, Crash), j, Adopt(Orphans(w))), w, order, 0)
    ensures var adopted := Perform(Perform(w, j, Crash), j, Adopt(Orphans(w)));
            && adopted.vault == w.vault && adopted.config == w.config
            && forall r :: r in w.vault ==> r in Active(w.config) || r in adopted.journal
  {
    hide Active, ValidConfiguration, Chained;
    OpKeepsValid(w, j, Crash);
    var crashed := Perform(w, j, Crash);
    OpKeepsValid(crashed, j, Adopt(Orphans(w)));
  }

  lemma RecoveryGoesOn(w: World, start: World, j: ImportId, order: seq<Reference>, n: nat)
    requires Recovering(w, start, order, n) && n < |order|
    ensures Allowed(w, j, Remove(order[n])) && Recovering(Perform(w, j, Remove(order[n])), start, order, n + 1)
  {
    hide Active, ValidConfiguration, Chained, Valid;
    assert order[n] in w.journal;
    OpKeepsValid(w, j, Remove(order[n]));
    assert order[..n + 1] == order[..n] + [order[n]];
  }

  lemma RecoveryEnds(w: World, start: World, j: ImportId, order: seq<Reference>)
    requires Valid(start) && Recovering(w, start, order, |order|)
    requires (set r | r in order) == start.journal + Orphans(start)
    ensures Allowed(w, j, Complete(set r | r in order))
    ensures var after := Perform(w, j, Complete(set r | r in order));
            && after.journal == {} && after.config == start.config && after.vault.Keys == Active(start.config)
            && forall r :: r in after.vault ==> after.vault[r] == start.vault[r]
  {
    hide ValidConfiguration, Chained, Active;
    assert order[..|order|] == order;
  }

  /**
    Recovery from a crash at any moment, as a run: the orphans are journaled, and
    deleting what is journaled, in whatever order, leaves the configuration with its
    own secrets, nothing else in the vault, and an empty journal.
  */
  lemma RestartRecovers(w: World, j: ImportId, order: seq<Reference>) returns (run: seq<World>)
    requires Valid(w) && (set r | r in order) == w.journal + Orphans(w)
    ensures IsRun(run) && run[0] == w && |run| == |RecoverySteps(w, order)| + 1
    ensures forall i :: 0 <= i < |RecoverySteps(w, order)| ==>
              && Allowed(run[i], j, RecoverySteps(w, order)[i])
              && run[i + 1] == Perform(run[i], j, RecoverySteps(w, order)[i])
    ensures run[2].vault == w.vault && run[2].config == w.config
            && forall r :: r in w.vault ==> r in Active(w.config) || r in run[2].journal
    ensures var after := run[|run| - 1];
            && after.journal == {} && after.config == w.config && after.vault.Keys == Active(w.config)
            && forall r :: r in after.vault ==> after.vault[r] == w.vault[r]
  {
    hide Valid, Allowed, Perform, Recovering, Orphans, Active;
    var steps := RecoverySteps(w, order);
    var n := |order|;
    RecoveryBegins(w, j, order);
    var crashed := Perform(w, j, Crash);
    var adopted := Perform(crashed, j, Adopt(Orphans(w)));
    run := [w, crashed, adopted];
    for i := 0 to n
      invariant |run| == i + 3 && run[0] == w && run[2] == adopted && Recovering(run[i + 2], w, order, i)
      invariant forall k :: 0 <= k < i + 2 ==> Allowed(run[k], j, steps[k]) && run[k + 1] == Perform(run[k], j, steps[k])
    {
      RecoveryGoesOn(run[i + 2], w, j, order, i);
      assert steps[i + 2] == Remove(order[i]);
      run := run + [Perform(run[i + 2], j, steps[i + 2])];
    }
    RecoveryEnds(run[n + 2], w, j, order);
    run := run + [Perform(run[n + 2], j, steps[n + 2])];
    forall i | 0 <= i < |run| - 1
      ensures Next(run[i], run[i + 1])
    {
      assert Allowed(run[i], j, steps[i]);
    }
  }

  /**
    Of imports racing from one configuration, a second one can commit only after
    somebody has restored that configuration in between.
  */
  lemma RacersCannotBothCommit(w: World, i: nat, k: nat)
    requires Chained(w) && i < k < |w.commits|
    requires w.commits[i].expected == w.commits[k].expected != w.commits[i].replacement
    ensures w.commits[i].author != w.commits[k].author
    ensures exists m :: i < m < k && w.commits[m].expected != w.commits[i].expected
                        && w.commits[m].replacement == w.commits[i].expected
  {
    Restored(w, i, k);
  }

  lemma Linked(w: World, k: nat)
    requires Chained(w) && 0 < k < |w.commits|
    ensures w.commits[k].expected == w.commits[k - 1].replacement
  {
    assert w.commits[k].expected == Left(w.start, w.commits, k);
  }

  lemma {:induction false} Restored(w: World, i: nat, k: nat)
    requires Chained(w) && i < k < |w.commits|
    requires w.commits[i].expected == w.commits[k].expected != w.commits[i].replacement
    ensures exists m :: i < m < k && w.commits[m].expected != w.commits[i].expected
                        && w.commits[m].replacement == w.commits[i].expected
  {
    hide Chained;
    Linked(w, k);
    if w.commits[k - 1].expected == w.commits[i].expected {
      Restored(w, i, k - 1);
    }
  }

  /** So if no commit came from elsewhere or restored the base, there is only one. */
  lemma TwoCommitsNeedAnother(w: World, base: Configuration)
    requires Chained(w) && |w.commits| > 1
    ensures exists m :: 0 <= m < |w.commits| && (w.commits[m].expected != base || w.commits[m].replacement == base)
  {
    Linked(w, 1);
  }

  /** An open import with everything staged for a replacement of `base`. */
  ghost predicate Prepared(w: World, j: ImportId, base: Configuration, replacement: Configuration,
                           activated: set<Reference>)
  {
    && j !in w.closed && ValidConfiguration(replacement)
    && Active(replacement) - Active(base) == activated && activated <= w.journal
    && forall r :: r in activated ==> Owns(w, j, r) && r in w.vault && w.vault[r].Some?
  }

  /** Whatever others have committed meanwhile, it can commit exactly if the last of them left its base. */
  lemma RacerCanCommitExactly(w: World, j: ImportId, base: Configuration, replacement: Configuration,
                              activated: set<Reference>)
    requires Valid(w) && Prepared(w, j, base, replacement, activated)
    ensures Allowed(w, j, Swap(base, replacement, activated)) <==> Left(w.start, w.commits, |w.commits|) == base
  {
    hide Active, ValidConfiguration, Accounted, ActiveOk;
  }

  const BASE := Configuration([], "", "", [])
  const OTHER := Configuration([], "dark", "", [])
  const TARGET := Configuration([Definition("p", "", "", [Header("h", Some(7))])], "", "", [])

  /** Import 2 stages a secret, 0 commits and 1 restores; then 2 commits, from the base that 0 replaced. */
  function RacingSteps(): seq<(ImportId, Op)> {
    [(2, Reserve(7)), (2, Stage(7)), (2, Write(7, "key")),
     (0, Swap(BASE, OTHER, {})), (1, Swap(OTHER, BASE, {})), (2, Swap(BASE, TARGET, {7}))]
  }

  lemma SmallConfigurations()
    ensures ValidConfiguration(BASE) && ValidConfiguration(OTHER) && ValidConfiguration(TARGET)
    ensures Active(BASE) == Active(OTHER) == {} && Active(TARGET) == {7}
  {
    var x := TARGET.definitions[0];
    assert x in TARGET.definitions && x.headers[0] in x.headers;
  }

  /** The state of that run after `i` steps. */
  ghost predicate RacingAt(w: World, i: nat) {
    && w.config == (if i == 4 then OTHER else if i == 6 then TARGET else BASE)
    && w.commits == [Commit(0, BASE, OTHER), Commit(1, OTHER, BASE), Commit(2, BASE, TARGET)]
                      [..if i < 3 then 0 else if i > 6 then 3 else i - 3]
    && w.closed == (if i < 4 then {} else if i == 4 then {0} else if i == 5 then {0, 1} else {0, 1, 2})
    && w.owner == (if i == 0 then map[] else map[7 := 2])
    && w.reserved == (if i == 1 then {7} else {})
    && w.journal == (if 2 <= i < 6 then {7} else {})
    && w.vault == (if i == 0 then map[] else if i < 3 then map[7 := None] else map[7 := Some("key")])
  }

  lemma RacingStep(w: World, i: nat)
    requires i < |RacingSteps()| && RacingAt(w, i)
    ensures Allowed(w, RacingSteps()[i].0, RacingSteps()[i].1)
    ensures RacingAt(Perform(w, RacingSteps()[i].0, RacingSteps()[i].1), i + 1)
  {
    hide Active, ValidConfiguration;
    SmallConfigurations();
  }

  /** Two imports that race from one configuration do both commit in this run. */
  lemma RacersCanBothCommit() returns (run: seq<World>)
    ensures IsRun(run) && run[0] == World(BASE, {}, map[], map[], {}, {}, BASE, [])
    ensures |run| == |RacingSteps()| + 1
    ensures forall i :: 0 <= i < |RacingSteps()| ==>
              Allowed(run[i], RacingSteps()[i].0, RacingSteps()[i].1)
              && run[i + 1] == Perform(run[i], RacingSteps()[i].0, RacingSteps()[i].1)
    ensures run[|run| - 1].commits == [Commit(0, BASE, OTHER), Commit(1, OTHER, BASE), Commit(2, BASE, TARGET)]
  {
    hide Active, ValidConfiguration, Allowed, Perform;
    SmallConfigurations();
    var steps := RacingSteps();
    run := [World(BASE, {}, map[], map[], {}, {}, BASE, [])];
    for i := 0 to |steps|
      invariant |run| == i + 1 && run[0] == World(BASE, {}, map[], map[], {}, {}, BASE, [])
      invariant forall k :: 0 <= k < i ==>
                  Allowed(run[k], steps[k].0, steps[k].1) && run[k + 1] == Perform(run[k], steps[k].0, steps[k].1)
      invariant RacingAt(run[i], i)
    {
      RacingStep(run[i], i);
      run := run + [Perform(run[i], steps[i].0, steps[i].1)];
    }
    forall i | 0 <= i < |run| - 1
      ensures Next(run[i], run[i + 1])
    {
      assert Allowed(run[i], steps[i].0, steps[i].1);
    }
  }

  // -------------------------------------------------------------------- rely

  /** What the import `me` may count on while others take their steps. */
  ghost predicate Rely(w: World, w': World, me: ImportId) {
    && w.closed <= w'.closed && (me in w.closed <==> me in w'.closed)
    && (forall r :: r in w.owner ==> r in w'.owner && w'.owner[r] == w.owner[r])
    && (forall r :: r in w'.owner && r !in w.owner ==> w'.owner[r] != me)
    && (me !in w.closed ==> forall r :: Owns(w, me, r) ==> MineUnchanged(w, w', r))
    && (forall r :: Spent(w, r) ==> StaysSpent(w, w', r))
    && (forall r :: r in w.owner && w.owner[r] in w.closed ==> Settled(w, w', r))
    && w'.start == w.start && w.commits <= w'.commits
    && (forall k :: |w.commits| <= k < |w'.commits| ==> w'.commits[k].author != me)
  }

  ghost predicate MineUnchanged(w: World, w': World, r: Reference) {
    && (r in w.journal <==> r in w'.journal) && (r in w.reserved <==> r in w'.reserved)
    && (r in w.vault <==> r in w'.vault) && (r in w.vault ==> w'.vault[r] == w.vault[r])
    && (r in Active(w.config) <==> r in Active(w'.config))
  }

  ghost predicate StaysSpent(w: World, w': World, r: Reference) {
    && r !in Active(w'.config)
    && (r !in w.vault ==> r !in w'.vault) && (r !in w.journal ==> r !in w'.journal)
    && (r !in w.reserved ==> r !in w'.reserved)
  }

  /** The secret of a finished import is never rewritten; at most it is deleted. */
  ghost predicate Settled(w: World, w': World, r: Reference) {
    r in w'.vault ==> r in w.vault && w'.vault[r] == w.vault[r]
  }

  lemma RelyReflexive(w: World, me: ImportId)
    ensures Rely(w, w, me)
  {
  }

  lemma RelyTransitive(a: World, b: World, c: World, me: ImportId)
    requires Rely(a, b, me) && Rely(b, c, me)
    ensures Rely(a, c, me)
  {
    hide Active;
    forall k | |a.commits| <= k < |c.commits|
      ensures c.commits[k].author != me
    {
      assert k < |b.commits| ==> c.commits[k] == b.commits[k];
    }
    forall r | r in a.owner && a.owner[r] in a.closed
      ensures Settled(a, c, r)
    {
      assert Settled(a, b, r) && Settled(b, c, r);
    }
    forall r | Spent(a, r)
      ensures StaysSpent(a, c, r)
    {
      assert StaysSpent(a, b, r) && Spent(b, r) && StaysSpent(b, c, r);
    }
    if me !in a.closed {
      forall r | Owns(a, me, r)
        ensures MineUnchanged(a, c, r)
      {
        assert MineUnchanged(a, b, r) && Owns(b, me, r) && MineUnchanged(b, c, r);
      }
    }
  }

  /** Nobody else's step disturbs an import, nor do its own once it has committed or given up. */
  lemma OthersAreHarmless(w: World, j: ImportId, op: Op, me: ImportId)
    requires Valid(w) && Allowed(w, j, op) && (j != me || me in w.closed) && !op.Crash? && !op.Adopt?
    ensures Rely(w, Perform(w, j, op), me)
  {
    hide Active, ValidConfiguration, Chained, Accounted;
  }
}
