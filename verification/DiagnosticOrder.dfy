/**
  When the diagnostic log on disk is in the order of appending: in every run of
  successful turns, exactly as long as no new segment is dated before the last one
  while other segments remain; and a run in which one is, with a clock that never
  steps back.
*/
module DiagnosticOrder {
  import opened Decimal
  import opened Wrappers
  import opened DiagnosticLog
  import opened DiagnosticBatch
  import opened DiagnosticTurns

  // ----------------------------------------------------- turns keep invariants

  /** The last segment of this run, if there is one, is the last in the directory. */
  ghost predicate Newest(l: Log) {
    && (l.path.Some? ==> l.sequence > 0)
    && (!l.overtaken && l.sequence > 0 ==> l.files == [] || IsLast(l.files, Name(l.lastNs, l.sequence)))
  }

  ghost predicate RunInv(l: Log, b: Bounds) {
    Inv(l, b) && Newest(l) && l.clean
  }

  /** A new segment is named before the last of those that remain. */
  ghost predicate Behind(l: Log, d: Disk) {
    && l.batch != [] && l.dirty && l.path.None? && l.created.Some?
    && d.kept != [] && Before(Name(l.created.value, d.sequence), d.kept[|d.kept| - 1].name)
  }

  /** The steps of `persist`: its reading, retention and, for a new segment, the name. */
  ghost function Ready(l: Log, d: Disk): Log
    requires l.created.Some?
  {
    Named(Kept(Read(l, d.now), d.kept), d.sequence)
  }

  lemma ReadyKeeps(l: Log, b: Bounds, d: Disk)
    requires RunInv(l, b) && CanPersist(l, b, d) && l.batch != [] && l.dirty
    ensures l.created.Some? && Inv(Ready(l, d), b) && Room(Ready(l, d), b)
    ensures Ready(l, d).overtaken == l.overtaken
    ensures !l.overtaken && l.sequence > 0 ==> d.kept == [] || IsLast(d.kept, Name(l.lastNs, l.sequence))
  {
    hide Inv, Enforced, Room, InPlace, Absent, Has;
    var limits := PersistLimits(l, b, d.now);
    var r := Read(l, d.now);
    var k := Kept(r, d.kept);
    HasBegun(l, b);
    ReadKeeps(l, b, d.now);
    RetentionKeeps(r, b, d.kept, true, limits);
    RoomMade(l.files, k, b, true, limits);
    if l.path.None? {
      NamedKeeps(k, b, d.sequence);
      RoomNamed(k, b);
    }
    if !l.overtaken {
      NewestStays(l, b, d.kept, limits);
    }
  }

  lemma NamedKeeps(l: Log, b: Bounds, sequence: nat)
    requires Inv(l, b) && l.path.None? && l.batch != [] && l.created.Some?
    requires FirstFree(l.files, l.created.value, Restart(l, l.created.value).sequence, sequence)
    ensures Inv(Named(l, sequence), b)
  {
    hide Inv, Absent, Has;
    RestartKeeps(l, b);
    SkipsKeep(Restart(l, l.created.value), b, sequence);
    NameKeeps(Restart(l, l.created.value).(sequence := sequence), b, Name(l.created.value, sequence));
  }

  lemma {:induction false} SkipsKeep(l: Log, b: Bounds, sequence: nat)
    requires Inv(l, b) && l.path.None? && l.sequence <= sequence
    ensures Inv(l.(sequence := sequence), b)
    decreases sequence - l.sequence
  {
    hide Inv;
    if l.sequence < sequence {
      SkipKeeps(l, b);
      SkipsKeep(l.(sequence := l.sequence + 1), b, sequence);
    }
  }

  lemma NewestStays(l: Log, b: Bounds, kept: seq<Segment>, limits: Limits)
    requires RunInv(l, b) && !l.overtaken && limits.preserve == l.path && Enforced(l.files, kept, true, limits)
    ensures l.sequence > 0 ==> kept == [] || IsLast(kept, Name(l.lastNs, l.sequence))
  {
    hide SortedDir, Contents, Fits, Total, Flat, Bytes, AllListable, IsSuffix, Numbered, Retained, NonEmpty, Timely;
    var k: nat :| k <= Removable(l.files, l.path) && kept == l.files[k..];
  }

  // ----------------------------------------------------------- when it breaks

  lemma WrittenLast(files: seq<Segment>, s: Segment)
    requires SortedDir(files) && Follows(files, s.name)
    ensures IsLast(Put(files, s), s.name)
  {
    hide Put, SortedDir;
    if IsLast(files, s.name) {
      PutAgain(files, s);
    } else {
      FollowsOthers(files, s.name);
      PutLast(files, s);
    }
  }

  lemma FollowsOthers(files: seq<Segment>, name: Name)
    requires SortedDir(files) && Follows(files, name) && !IsLast(files, name)
    ensures forall i :: 0 <= i < |files| ==> Before(files[i].name, name)
  {
    forall i | 0 <= i < |files|
      ensures Before(files[i].name, name)
    {
      assert Before(files[|files| - 1].name, name);
      assert i < |files| - 1 ==> Before(files[i].name, files[|files| - 1].name);
    }
  }

  /** Whether the written segment comes last. */
  lemma FollowsExactly(l: Log, b: Bounds, d: Disk)
    requires RunInv(l, b) && CanPersist(l, b, d) && l.batch != [] && l.dirty && !l.overtaken
    requires SortedDir(d.kept) && l.created.Some?
    requires l.sequence > 0 ==> d.kept == [] || IsLast(d.kept, Name(l.lastNs, l.sequence))
    requires l.path.Some? ==> l.path.value == Name(l.lastNs, l.sequence)
    ensures Follows(d.kept, Ready(l, d).path.value) <==> !Behind(l, d)
  {
    hide Inv, Enforced, SortedDir, InPlace, Has, Follows, Absent;
    if l.path.None? {
      FreeFollows(d.kept, l.created.value, Restart(l, l.created.value).sequence, d.sequence);
    } else if d.kept != [] {
      LastFollows(d.kept);
    } else {
      NoneBefore(l.path.value);
    }
  }

  lemma FreeFollows(files: seq<Segment>, created: int, from: nat, sequence: nat)
    requires SortedDir(files) && FirstFree(files, created, from, sequence)
    ensures Follows(files, Name(created, sequence))
            <==> files == [] || !Before(Name(created, sequence), files[|files| - 1].name)
  {
    hide SortedDir, Has, Follows;
    FollowsLast(files, Name(created, sequence));
  }

  /** Once this run has a segment, the times alone decide. */
  lemma BehindInTime(l: Log, b: Bounds, d: Disk)
    requires RunInv(l, b) && CanPersist(l, b, d) && l.batch != [] && l.dirty && !l.broken
    requires l.sequence > 0 && l.path.None?
    ensures l.created.Some?
    ensures Behind(l, d) <==> d.kept != [] && l.created.value < l.lastNs
  {
    hide Inv, Enforced, InPlace, Has, Absent, Follows;
    BrokenIsOvertaken(l, b);
    ReadyKeeps(l, b, d);
    var k := Kept(Read(l, d.now), d.kept);
    Sorted(Ready(l, d), b);
    NextNameExactly(k, l.created.value, d.sequence);
    FreeFollows(d.kept, l.created.value, Restart(l, l.created.value).sequence, d.sequence);
  }

  lemma NoneBefore(name: Name)
    ensures Follows([], name)
  {
  }

  lemma FinishedKeeps(m: Log, b: Bounds, seal: bool)
    requires Inv(m, b) && m.path.Some? && Room(m, b) && m.batch != []
    ensures Inv(Finished(m, seal), b)
    ensures InPlace(Finished(m, seal)) <==> InPlace(Wrote(m))
  {
    hide Inv, InPlace, Follows, Put, Room;
    WriteKeeps(m, b);
    CleanKeeps(Wrote(m), b);
    var saved := Wrote(m).(persistedBytes := m.batchBytes, dirty := false);
    SameFilesInPlace(saved, Wrote(m));
    SealKeeps(saved, b);
    SealedInPlace(saved);
  }

  lemma SameFilesInPlace(k: Log, l: Log)
    requires k.files == l.files && k.history == l.history && k.batch == l.batch && k.saved == l.saved
    ensures InPlace(k) <==> InPlace(l)
  {
  }

  /** A `persist` breaks the order exactly if it is behind; otherwise the log stays a part of the history. */
  lemma PersistExactly(l: Log, b: Bounds, d: Disk, seal: bool)
    requires RunInv(l, b) && CanPersist(l, b, d)
    ensures RunInv(AfterPersist(l, b, d, seal), b)
    ensures AfterPersist(l, b, d, seal).broken <==> l.broken || Behind(l, d)
    ensures !l.broken ==> (InPlace(AfterPersist(l, b, d, seal)) <==> !Behind(l, d))
  {
    hide Inv, InPlace, Enforced, Follows, Put;
    BrokenIsOvertaken(l, b);
    if l.batch == [] {
      return;
    }
    HasBegun(l, b);
    if !l.dirty {
      CleanIsSaved(l, b);
      SealKeeps(l, b);
      SealedInPlace(l);
      return;
    }
    ReadyKeeps(l, b, d);
    var m := Ready(l, d);
    Sorted(m, b);
    if !l.overtaken {
      FollowsExactly(l, b, d);
      if !Behind(l, d) {
        WrittenLast(d.kept, Segment(m.path.value, m.batch));
      }
    }
    FinishedKeeps(m, b, seal);
    WroteBroken(m);
    BrokenIsOvertaken(m, b);
    BrokenIsOvertaken(Finished(m, seal), b);
  }

  lemma WroteBroken(m: Log)
    requires m.path.Some?
    ensures Wrote(m).broken <==> m.broken || !InPlace(Wrote(m))
  {
  }

  lemma BrokenIsOvertaken(l: Log, b: Bounds)
    requires Inv(l, b) && l.clean
    ensures l.broken <==> l.overtaken
    ensures !l.overtaken ==> InPlace(l)
    ensures l.overtaken ==> l.stale
  {
    hide InPlace;
  }

  lemma SealedInPlace(l: Log)
    requires l.saved == |l.batch|
    ensures InPlace(Sealed(l)) <==> InPlace(l)
  {
  }

  // ------------------------------------------------------------------- turns

  ghost predicate DropsBehind(l: Log, b: Bounds, o: Drops) {
    NeedsRoom(l, b, o.size) && Behind(Read(l, o.at), o.sealing)
  }

  /** One of the writes of a commit is behind. */
  ghost predicate CommitBehind(l: Log, b: Bounds, c: Commitment)
    requires CanCommit(l, b, c)
  {
    (c.drops.Some? && DropsBehind(l, b, c.drops.value)) || Behind(Dropped(l, b, c), c.disk)
  }

  ghost predicate ArrivalBehind(l: Log, b: Bounds, a: Arrival)
    requires CanPrepare(l, b, a)
  {
    || (Aged(l, a.now) && CommitBehind(l, b, a.aged))
    || (NeedsRoom(AfterAge(l, b, a), b, a.size) && CommitBehind(AfterAge(l, b, a), b, a.full))
  }

  ghost predicate TurnBehind(l: Log, b: Bounds, t: Turn)
    requires Possible(l, b, t)
  {
    match t
    case Arrived(a) => ArrivalBehind(Read(l, a.now), b, a)
    case Refused(a) => Aged(Read(l, a.now), a.now) && CommitBehind(Read(l, a.now), b, a.aged)
    case Flushed(c) => CommitBehind(l, b, c)
    case Ticked(tick) => CommitBehind(Read(l, tick.now), b, tick.c)
    case Stopped(c) => CommitBehind(l, b, c)
  }

  /** The clock has not stepped back to before `at`, or that is on record. */
  ghost predicate Reached(l: Log, at: int) {
    at <= l.clock || l.stale
  }

  lemma ReadExactly(l: Log, b: Bounds, now: int)
    requires RunInv(l, b)
    ensures RunInv(Read(l, now), b) && Read(l, now).broken == l.broken && Reached(Read(l, now), now)
    ensures forall at: int :: Reached(l, at) ==> Reached(Read(l, now), at)
  {
    hide Inv;
    ReadKeeps(l, b, now);
  }

  lemma PersistReaches(l: Log, b: Bounds, d: Disk, seal: bool, at: int)
    requires CanPersist(l, b, d) && Reached(l, at)
    ensures Reached(AfterPersist(l, b, d, seal), at)
  {
    hide Enforced, InPlace, Put, Follows, FirstFree;
  }

  lemma AppendExactly(l: Log, b: Bounds, event: Stored, now: int)
    requires RunInv(l, b) && Reached(l, now) && event.serial == l.appended
    requires event.size <= b.maximumSegmentBytes && !NeedsRoom(l, b, event.size)
    ensures RunInv(Append(l, event, now), b) && Append(l, event, now).broken == l.broken
    ensures forall at: int :: Reached(l, at) ==> Reached(Append(l, event, now), at)
  {
    hide Inv;
    EmptyIsClean(l, b);
    AppendKeeps(l, b, event, now);
  }

  lemma DropsExactly(l: Log, b: Bounds, o: Drops)
    requires RunInv(l, b) && CanAppendDrops(l, b, o)
    ensures RunInv(AfterDrops(l, b, o), b)
    ensures AfterDrops(l, b, o).broken <==> l.broken || DropsBehind(l, b, o)
    ensures forall at: int :: Reached(l, at) ==> Reached(AfterDrops(l, b, o), at)
  {
    hide RunInv, Behind, CanPersist, AfterPersist, Reached, Read, Append;
    var r := Read(l, o.at);
    ReadExactly(l, b, o.at);
    SameBatch(l, o.at);
    var m := r;
    if NeedsRoom(l, b, o.size) {
      m := AfterPersist(r, b, o.sealing, true);
      PersistExactly(r, b, o.sealing, true);
      PersistSeals(r, b, o.sealing);
      forall at: int | Reached(r, at)
        ensures Reached(m, at)
      {
        PersistReaches(r, b, o.sealing, true, at);
      }
    }
    AppendExactly(m, b, Stored(o.at, Overflow(o.count), o.size, m.appended), o.at);
  }

  lemma SameBatch(l: Log, now: int)
    ensures Read(l, now).batch == l.batch && Read(l, now).batchBytes == l.batchBytes && Read(l, now).created == l.created
  {
  }

  lemma CommitExactly(l: Log, b: Bounds, c: Commitment, seal: bool)
    requires RunInv(l, b) && CanCommit(l, b, c)
    ensures RunInv(AfterCommit(l, b, c, seal), b)
    ensures AfterCommit(l, b, c, seal).broken <==> l.broken || CommitBehind(l, b, c)
    ensures seal ==> AfterCommit(l, b, c, seal).batch == []
    ensures forall at: int :: Reached(l, at) ==> Reached(AfterCommit(l, b, c, seal), at)
  {
    hide RunInv, Behind, CanPersist, AfterPersist, AfterDrops, DropsBehind, CanAppendDrops, Reached;
    if c.drops.Some? {
      DropsExactly(l, b, c.drops.value);
    }
    var m := Dropped(l, b, c);
    PersistExactly(m, b, c.disk, seal);
    forall at: int | Reached(m, at)
      ensures Reached(AfterPersist(m, b, c.disk, seal), at)
    {
      PersistReaches(m, b, c.disk, seal, at);
    }
    if seal {
      PersistSeals(m, b, c.disk);
    }
  }

  lemma PersistSeals(l: Log, b: Bounds, d: Disk)
    requires CanPersist(l, b, d)
    ensures AfterPersist(l, b, d, true).batch == []
  {
    hide Enforced, InPlace, Put, Follows, FirstFree;
  }

  lemma ArrivalExactly(l: Log, b: Bounds, a: Arrival)
    requires RunInv(l, b) && CanArrive(l, b, a)
    ensures RunInv(AfterArrival(l, b, a), b)
    ensures AfterArrival(l, b, a).broken <==> l.broken || ArrivalBehind(Read(l, a.now), b, a)
  {
    hide RunInv, CanCommit, AfterCommit, CommitBehind, Reached, Read, Append;
    ReadExactly(l, b, a.now);
    var r := Read(l, a.now);
    if Aged(r, a.now) {
      CommitExactly(r, b, a.aged, true);
    }
    var m := AfterAge(r, b, a);
    if NeedsRoom(m, b, a.size) {
      CommitExactly(m, b, a.full, true);
    }
    var p := Prepared(r, b, a);
    AppendExactly(p, b, Stored(a.now, Report(a.text), a.size, p.appended), a.now);
  }

  lemma RefusalExactly(l: Log, b: Bounds, a: Arrival)
    requires RunInv(l, b) && CanAge(Read(l, a.now), b, a)
    ensures RunInv(AfterAge(Read(l, a.now), b, a), b)
    ensures AfterAge(Read(l, a.now), b, a).broken
            <==> l.broken || (Aged(Read(l, a.now), a.now) && CommitBehind(Read(l, a.now), b, a.aged))
  {
    hide RunInv, CanCommit, AfterCommit, CommitBehind, Reached, Read;
    ReadExactly(l, b, a.now);
    if Aged(Read(l, a.now), a.now) {
      CommitExactly(Read(l, a.now), b, a.aged, true);
    }
  }

  lemma TickExactly(l: Log, b: Bounds, t: Tick)
    requires RunInv(l, b) && CanTick(l, b, t)
    ensures RunInv(AfterTick(l, b, t), b)
    ensures AfterTick(l, b, t).broken <==> l.broken || CommitBehind(Read(l, t.now), b, t.c)
  {
    hide RunInv, CanCommit, AfterCommit, CommitBehind, Reached, Read, Kept, Enforced;
    ReadExactly(l, b, t.now);
    CommitExactly(Read(l, t.now), b, t.c, Aged(Read(l, t.now), t.now));
    var m := AfterTickCommit(l, b, t);
    if t.swept.Some? {
      SweepExactly(m, b, t.swept.value, TickLimits(m, b, t.now));
    }
  }

  lemma SweepExactly(l: Log, b: Bounds, after: seq<Segment>, limits: Limits)
    requires RunInv(l, b) && limits.preserve == l.path && Enforced(l.files, after, true, limits)
    ensures RunInv(Kept(l, after), b) && Kept(l, after).broken == l.broken
  {
    hide Inv, Enforced, InPlace;
    RetentionKeeps(l, b, after, true, limits);
    BrokenIsOvertaken(l, b);
    BrokenIsOvertaken(Kept(l, after), b);
    if !l.overtaken {
      NewestStays(l, b, after, limits);
    }
  }

  lemma TurnExactly(l: Log, b: Bounds, t: Turn)
    requires RunInv(l, b) && Possible(l, b, t)
    ensures RunInv(After(l, b, t), b)
    ensures After(l, b, t).broken <==> l.broken || TurnBehind(l, b, t)
  {
    hide RunInv, CanCommit, AfterCommit, CommitBehind, CanArrive, AfterArrival, ArrivalBehind, CanTick, AfterTick,
         CanAge, AfterAge, Aged;
    match t
    case Arrived(a) => ArrivalExactly(l, b, a);
    case Refused(a) => RefusalExactly(l, b, a);
    case Flushed(c) => CommitExactly(l, b, c, false);
    case Ticked(tick) => TickExactly(l, b, tick);
    case Stopped(c) => CommitExactly(l, b, c, true);
  }

  /**
    The exact condition: after any turns on any directory without empty files, the
    log on disk has always been a contiguous part of the history if and only if no
    write was behind; and one that is behind takes a stale time.
  */
  lemma {:induction false} RunExactly(run: seq<Log>, turns: seq<Turn>, b: Bounds, n: nat)
    requires IsRun(run, turns, b) && n <= |turns|
    ensures RunInv(run[n], b)
    ensures run[n].broken <==> exists i :: 0 <= i < n && TurnBehind(run[i], b, turns[i])
    ensures !run[n].broken ==> InPlace(run[n])
    ensures run[n].broken ==> run[n].stale
  {
    hide RunInv, Possible, After, TurnBehind, InPlace, Opened;
    if n == 0 {
      OpenedInv(run[0], b);
    } else {
      RunExactly(run, turns, b, n - 1);
      TurnExactly(run[n - 1], b, turns[n - 1]);
    }
    NotBroken(run[n], b);
  }

  lemma NotBroken(l: Log, b: Bounds)
    requires RunInv(l, b)
    ensures !l.broken ==> InPlace(l)
    ensures l.broken ==> l.stale
  {
    hide Inv, InPlace;
    BrokenIsOvertaken(l, b);
  }

  lemma OpenedInv(l: Log, b: Bounds)
    requires Opened(l, b)
    ensures RunInv(l, b) && !l.broken
  {
    hide Inv, Numbered, Flat, Total, SortedDir, NonEmpty, FromTheFuture;
    var files, now, later :| OpenedOn(l, b, files, now, later);
    StartOk(files, b, now, later);
  }

  /** A batch that starts with an event, after a segment of this run: the time at which it was received decides. */
  lemma EventBranchExactly(l: Log, b: Bounds, event: Stored, now: int, d: Disk, seal: bool)
    requires RunInv(l, b) && Reached(l, now) && !l.broken && l.batch == []
    requires event.serial == l.appended && event.size <= b.maximumSegmentBytes && l.sequence > 0
    requires CanPersist(Append(l, event, now), b, d)
    ensures InPlace(AfterPersist(Append(l, event, now), b, d, seal)) <==> d.kept == [] || now >= l.lastNs
  {
    hide RunInv, CanPersist, AfterPersist, InPlace, Reached;
    EmptyHasNoPath(l, b);
    AppendExactly(l, b, event, now);
    PersistExactly(Append(l, event, now), b, d, seal);
    BehindInTime(Append(l, event, now), b, d);
  }

  lemma EmptyHasNoPath(l: Log, b: Bounds)
    requires RunInv(l, b)
    ensures l.batch == [] ==> l.path.None?
  {
  }

  // ------------------------------------------------------------------ example

  const SMALL := Bounds(512, 128, 604_800_000_000_000)
  const FIRST := Segment(Name(0, 1), [Stored(0, Report("first"), 100, 0)])
  const COUNT := Segment(Name(20, 1), [Stored(20, Overflow(1), 100, 1)])

  /**
    The clock reads 0, 10, then 20 four times. An event begins a batch. A second one,
    received at 10, does not fit; the commit that seals the batch appends the count
    of a dropped event at 20, and seals that as well. The second event then begins a
    batch dated 10, after a segment dated 20.
  */
  function OverflowTurns(): seq<Turn> {
    var nothing := Commitment(None, Disk(0, [], 1));
    [Arrived(Arrival(0, "first", 100, nothing, nothing)),
     Arrived(Arrival(10, "second", 100, nothing,
                     Commitment(Some(Drops(1, 20, 100, Disk(20, [], 1))), Disk(20, [FIRST], 1)))),
     Flushed(Commitment(None, Disk(20, [FIRST, COUNT], 1)))]
  }

  lemma {:induction false} PowersGrow(n: nat)
    requires 0 < n
    ensures Pow10(n) >= 10 * n
  {
    if n > 1 {
      PowersGrow(n - 1);
    } else {
      assert Pow10(1) == 10 * Pow10(0);
    }
  }

  /** Retention has nothing to do when all files are young and there is room. */
  lemma KeepsEverything(files: seq<Segment>, l: Limits)
    requires SortedDir(files) && AllListable(files) && Total(files) + l.reserve <= l.maximum
    requires forall i :: 0 <= i < |files| ==> !Expired(files[i], l.cutoff)
    ensures Enforced(files, files, true, l)
  {
    hide SortedDir, Contents, AllListable;
    assert files[0..] == files;
    assert Retained(files, l, 0);
  }

  /** A new segment in the small example. */
  lemma SmallPersist(l: Log, d: Disk)
    requires l.batch != [] && l.dirty && l.path.None? && l.created.Some? && l.created.value != l.lastNs
    requires l.batchBytes == 100 && l.persistedBytes == 0 && d == Disk(20, l.files, 1)
    requires SortedDir(l.files) && Total(l.files) <= 200 && Absent(l.files, Name(l.created.value, 1))
    requires forall i :: 0 <= i < |l.files| ==> l.files[i].name.sequence == 1 && 0 <= l.files[i].name.ns <= 20
    ensures CanPersist(l, SMALL, d)
    ensures var m := AfterPersist(l, SMALL, d, true);
            && m.files == Put(l.files, Segment(Name(l.created.value, 1), l.batch)) && m.lastNs == l.created.value
            && m.batch == [] && m.batchBytes == 0 && m.created.None? && m.path.None? && m.persistedBytes == 0
            && m.appended == l.appended && m.clock == 20
  {
    hide SortedDir, Enforced, Put, InPlace, Follows, Total, Absent;
    PowersGrow(19);
    PowersGrow(8);
    KeepsEverything(l.files, PersistLimits(l, SMALL, 20));
  }

  /** The state in which the second event finds the log. */
  ghost predicate OneEvent(l: Log) {
    && l.files == [] && l.batch == FIRST.events && l.batchBytes == 100 && l.created == Some(0) && l.path.None?
    && l.persistedBytes == 0 && l.dirty && l.lastNs == -1 && l.appended == 1
  }

  lemma FirstTurn(l: Log)
    requires l == Start([], 0, 0)
    ensures Possible(l, SMALL, OverflowTurns()[0]) && !TurnBehind(l, SMALL, OverflowTurns()[0])
    ensures OneEvent(After(l, SMALL, OverflowTurns()[0]))
  {
    hide CanPersist, AfterPersist;
  }

  /** Two segments, and the second event in a batch of its own. */
  ghost predicate LateEvent(l: Log) {
    && l.files == [FIRST, COUNT] && l.batch == [Stored(10, Report("second"), 100, 2)] && l.batchBytes == 100
    && l.created == Some(10) && l.path.None? && l.persistedBytes == 0 && l.dirty && l.lastNs == 20
  }

  lemma SecondTurn(l: Log)
    requires OneEvent(l)
    ensures Possible(l, SMALL, OverflowTurns()[1]) && !TurnBehind(l, SMALL, OverflowTurns()[1])
    ensures LateEvent(After(l, SMALL, OverflowTurns()[1]))
  {
    hide CanPersist, AfterPersist;
    var a := OverflowTurns()[1].a;
    var c := a.full;
    var r := Read(l, 10);
    SealFirst(Read(r, 20));
    var m := Dropped(r, SMALL, c);
    SealCount(m);
  }

  lemma SealFirst(l: Log)
    requires OneEvent(l)
    ensures CanPersist(l, SMALL, Disk(20, [], 1))
    ensures var m := AfterPersist(l, SMALL, Disk(20, [], 1), true);
            && m.files == [FIRST] && m.lastNs == 0 && m.appended == 1
            && m.batch == [] && m.batchBytes == 0 && m.created.None? && m.path.None? && m.persistedBytes == 0
  {
    hide CanPersist, AfterPersist;
    SmallPersist(l, Disk(20, [], 1));
  }

  /** The batch that holds only the dropped count. */
  ghost predicate CountOnly(l: Log) {
    && l.files == [FIRST] && l.batch == COUNT.events && l.batchBytes == 100 && l.created == Some(20) && l.path.None?
    && l.persistedBytes == 0 && l.dirty && l.lastNs == 0 && l.appended == 2
  }

  lemma SealCount(l: Log)
    requires CountOnly(l)
    ensures CanPersist(l, SMALL, Disk(20, [FIRST], 1))
    ensures var m := AfterPersist(l, SMALL, Disk(20, [FIRST], 1), true);
            && m.files == [FIRST, COUNT] && m.lastNs == 20 && m.appended == 2
            && m.batch == [] && m.batchBytes == 0 && m.created.None? && m.path.None? && m.persistedBytes == 0
  {
    hide CanPersist, AfterPersist;
    SmallSizes();
    SmallPersist(l, Disk(20, [FIRST], 1));
  }

  lemma SmallSizes()
    ensures Total([FIRST]) == 100 && Total([FIRST, COUNT]) == 200
    ensures Put([], FIRST) == [FIRST] && Put([FIRST], COUNT) == [FIRST, COUNT]
  {
    assert [FIRST][1..] == [] && [FIRST, COUNT][1..] == [COUNT] && [COUNT][1..] == [];
    assert FIRST.events[..0] == [] && COUNT.events[..0] == [];
  }

  /** The example is a run of the worker, and its last write breaks the order. */
  lemma LogCanFallOutOfOrder() returns (run: seq<Log>)
    ensures IsRun(run, OverflowTurns(), SMALL) && run[0] == Start([], 0, 0)
    ensures TurnBehind(run[2], SMALL, OverflowTurns()[2])
    ensures InPlace(run[2]) && !InPlace(run[3])
  {
    hide InPlace, TurnBehind, Possible, After, Start, RunInv, OpenedOn;
    EmptyOpens();
    var turns := OverflowTurns();
    var run0 := Start([], 0, 0);
    FirstTurn(run0);
    var run1 := After(run0, SMALL, turns[0]);
    SecondTurn(run1);
    var run2 := After(run1, SMALL, turns[1]);
    LastTurn(run2);
    var run3 := After(run2, SMALL, turns[2]);
    run := [run0, run1, run2, run3];
    RunExactly(run, turns, SMALL, 2);
    LastTurnBreaks(run2);
  }

  lemma EmptyOpens()
    ensures OpenedOn(Start([], 0, 0), SMALL, [], 0, 0)
  {
  }

  lemma LastTurn(l: Log)
    requires LateEvent(l)
    ensures Possible(l, SMALL, OverflowTurns()[2]) && TurnBehind(l, SMALL, OverflowTurns()[2])
  {
    hide CanPersist, AfterPersist;
    SmallSizes();
    SmallPersist(l, Disk(20, [FIRST, COUNT], 1));
  }

  lemma LastTurnBreaks(l: Log)
    requires LateEvent(l) && RunInv(l, SMALL) && !l.broken
    ensures Possible(l, SMALL, OverflowTurns()[2]) && !InPlace(After(l, SMALL, OverflowTurns()[2]))
  {
    hide CanPersist, AfterPersist, RunInv, InPlace;
    LastTurn(l);
    PersistExactly(l, SMALL, Disk(20, [FIRST, COUNT], 1), false);
  }
}
