/**
  The worker of `diagnostics/service.go`: one command or tick at a time, with the
  callers' steps in between. No event is lost without being counted, and the log
  stays within its bounds. It is in order exactly until a write puts a segment
  before an existing one; `DiagnosticOrder` says when that happens.
*/
module DiagnosticWorker {
  import opened Wrappers
  import opened DiagnosticLog
  import opened DiagnosticIntake
  import opened DiagnosticBatch
  import opened DiagnosticNames
  import opened DiagnosticTurns
  import opened DiagnosticOrder

  function Weight(event: Event): nat {
    match event
    case Report(_) => 1
    case Overflow(count) => count
  }

  /** How many offered events the appended ones stand for. */
  function Accounted(history: seq<Stored>): nat {
    if history == [] then 0 else Accounted(history[..|history| - 1]) + Weight(history[|history| - 1].event)
  }

  lemma AccountedAppend(history: seq<Stored>, event: Stored)
    ensures Accounted(history + [event]) == Accounted(history) + Weight(event.event)
  {
    assert (history + [event])[..|history|] == history;
  }

  function Min(a: nat, b: nat): nat { if a < b then a else b }

  /** The clock moved on and nothing became stale. */
  predicate Onward(before: Log, after: Log) {
    after.stale == before.stale && after.clock >= before.clock
  }

  lemma OneMore(before: Log, after: Log, event: Event, at: int, size: nat)
    requires after.batch != [] && after.batch[|after.batch| - 1] == Stored(at, event, size, after.batch[|after.batch| - 1].serial)
    requires after.history == before.history + [after.batch[|after.batch| - 1]]
    ensures Appended(before, after, event, at, size)
  {
  }

  lemma ReadSame(l: Log)
    ensures forall now: int :: Read(l, now).clock == now && Read(l, now).files == l.files && Read(l, now).history == l.history
    ensures forall now: int :: Read(l, now).batch == l.batch && Read(l, now).batchBytes == l.batchBytes
    ensures forall now: int :: Read(l, now).stale == (l.stale || now < l.clock || now < 0)
    ensures forall now: int, b: Bounds, at: int, size: nat :: SealsFirst(Read(l, now), b, at, size) == SealsFirst(l, b, at, size)
  {
  }

  lemma ReadMovesOn(l: Log, now: int)
    ensures Read(l, now).history == l.history && Read(l, now).files == l.files
    ensures now >= l.clock && now >= 0 ==> Onward(l, Read(l, now))
  {
  }

  lemma KeptMovesOn(l: Log, now: int, files: seq<Segment>)
    ensures Kept(Read(l, now), files).history == l.history
    ensures now >= l.clock && now >= 0 ==> Onward(l, Kept(Read(l, now), files))
  {
  }

  /** The turn that a command, or none, leads to. */
  predicate Handles(command: Option<Command>, t: Turn) {
    match command
    case None => t.Ticked?
    case Some(Record(text)) => (t.Arrived? || t.Refused?) && t.a.text == text
    case Some(Flush) => t.Flushed?
    case Some(Stop) => t.Stopped?
  }

  function Received(command: Option<Command>): seq<Command> {
    if command.Some? then [command.value] else []
  }

  /** The commands of some turns, in order. */
  function AllReceived(commands: seq<Option<Command>>): seq<Command> {
    if commands == [] then [] else AllReceived(commands[..|commands| - 1]) + Received(commands[|commands| - 1])
  }

  /** Every file but the preserved one is less than the retention and an hour old. */
  predicate KeptYoung(files: seq<Segment>, preserve: Option<Name>, now: int, retention: nat) {
    forall s :: s in files && preserve != Some(s.name) ==> s.name.ns + 3_600_000_000_000 > now - retention
  }

  /** One event more, at the end of the history and of the batch. */
  predicate Appended(before: Log, after: Log, event: Event, at: int, size: nat) {
    && |after.history| == |before.history| + 1 && before.history <= after.history && after.batch != []
    && after.history[|before.history|] == after.batch[|after.batch| - 1]
    && after.batch[|after.batch| - 1].event == event && after.batch[|after.batch| - 1].timestamp == at
    && after.batch[|after.batch| - 1].size == size
  }

  /** The batch that an event finds is an hour old, or has no room for it. */
  predicate SealsFirst(l: Log, b: Bounds, at: int, size: nat) {
    && l.batch != []
    && (|| (l.created.Some? && at - l.created.value >= 3_600_000_000_000)
        || l.batchBytes + size > b.maximumSegmentBytes)
  }

  class Worker {
    const service: Service
    const directory: Directory
    const bounds: Bounds
    var batch: seq<Stored>
    var batchBytes: nat
    var activeCreated: Option<int>
    var activePath: Option<Name>
    var activePersistedBytes: nat
    var dirty: bool
    var lastSegmentNs: int
    var sequence: nat
    var lastRetentionCheck: int
    var appended: nat              // how many events have been appended; numbers them in the model
    ghost var log: Log             // all of this with the directory, and what has become of it
    ghost var stepped: bool        // the clock was once read behind an earlier reading, or negative
    ghost const floor: int         // the clock when the service opened
    ghost const clean: bool        // no empty file was found
    ghost const baseline: nat      // what the log found at the start accounts for

    ghost predicate Agrees()
      reads this, directory
    {
      && log.files == directory.files && log.batch == batch && log.batchBytes == batchBytes
      && log.created == activeCreated && log.path == activePath && log.persistedBytes == activePersistedBytes
      && log.dirty == dirty && log.lastNs == lastSegmentNs && log.sequence == sequence && log.appended == appended
      && log.floor == floor && log.clean == clean
    }

    ghost predicate Valid()
      reads this, directory, service
    {
      Agrees() && Inv(log, bounds) && service.Valid() && (stepped ==> log.stale)
    }

    /** The events and counts taken from the callers and not appended: what must not get lost. */
    ghost function Debt(): int
      reads this, service
    {
      service.taken + baseline - Accounted(log.history)
    }

    /** `Open` after its first enforcement at `now`, and the start of `run` at `later`. */
    constructor (service: Service, directory: Directory, bounds: Bounds, ghost now: int, later: int)
      requires service.Valid() && service.taken == 0 && SortedDir(directory.files)
      requires Total(directory.files) <= bounds.maximumBytes && bounds.maximumSegmentBytes <= bounds.maximumBytes
      requires Numbered(Flat(directory.files), NextNumber(Flat(directory.files)))
      ensures Valid() && Debt() == 0
      ensures this.service == service && this.directory == directory && this.bounds == bounds
      ensures log == Start(directory.files, now, later)
      ensures stepped <==> now < 0 || later < now
    {
      hide Inv, Flat, Total, SortedDir, Accounted, FromTheFuture, Service.Valid, Numbered, NonEmpty;
      this.service, this.directory, this.bounds := service, directory, bounds;
      batch, batchBytes, activeCreated, activePath, activePersistedBytes, dirty := [], 0, None, None, 0, false;
      lastSegmentNs, sequence, lastRetentionCheck, appended := -1, 0, later, NextNumber(Flat(directory.files));
      log, floor, clean := Start(directory.files, now, later), now, NonEmpty(directory.files);
      stepped := now < 0 || later < now;
      baseline := Accounted(Flat(directory.files));
      new;
      StartOk(directory.files, bounds, now, later);
    }

    /** The clock may be read at any time and may step back; that is recorded. */
    method Now() returns (now: int)
      requires Valid()
      modifies `log, `stepped
      ensures Valid() && log == Read(old(log), now)
      ensures stepped <==> old(stepped) || now < old(log.clock) || now < 0
    {
      hide Inv, Service.Valid;
      now := *;
      ReadKeeps(log, bounds, now);
      stepped := stepped || now < log.clock || now < 0;
      log := Read(log, now);
    }

    method Enforce(now: int, reserve: nat) returns (ok: bool)
      requires Valid()
      modifies directory, `log
      ensures Valid() && log == Kept(old(log), directory.files)
      ensures Enforced(old(directory.files), directory.files, ok,
                       Limits(now - bounds.retention, reserve, activePath, bounds.maximumBytes))
      ensures ok ==> KeptYoung(directory.files, activePath, now, bounds.retention)
      ensures directory.faults >= old(directory.faults) && (!ok ==> directory.faults > old(directory.faults))
    {
      hide Inv, Enforced, SortedDir, InPlace, Service.Valid, PreservesNewest, Total;
      var limits := Limits(now - bounds.retention, reserve, activePath, bounds.maximumBytes);
      Sorted(log, bounds);
      ok := directory.EnforceRetention(limits);
      RetentionKeeps(log, bounds, directory.files, ok, limits);
      log := Kept(log, directory.files);
    }

    method NextSegmentPath(created: int) returns (name: Option<Name>)
      requires Valid() && activePath.None?
      modifies `sequence, `log, directory`faults
      ensures Valid() && log == old(log).(sequence := sequence)
      ensures directory.faults == old(directory.faults) + if name.Some? then 0 else 1
      ensures name.Some? ==> name.value == Name(created, sequence) && FirstFree(directory.files, created, old(sequence), sequence)
    {
      hide Inv, Has, Absent, Service.Valid;
      for i := 0 to MAXIMUM_ENTRIES
        invariant Valid() && log == old(log).(sequence := sequence) && old(sequence) <= sequence
        invariant forall k :: old(sequence) < k <= sequence ==> Has(directory.files, Name(created, k))
        invariant directory.faults == old(directory.faults)
      {
        SkipKeeps(log, bounds);
        sequence, log := sequence + 1, log.(sequence := log.sequence + 1);
        var candidate := Name(created, sequence);
        var readable := *;
        if !readable {
          directory.faults := directory.faults + 1;
          return None;
        }
        if !Has(directory.files, candidate) {
          NotHas(directory.files, candidate);
          return Some(candidate);
        }
      }
      directory.faults := directory.faults + 1;
      name := None;
    }

    method RestartSequence() returns (created: int)
      requires Valid() && activePath.None? && batch != []
      modifies `lastSegmentNs, `sequence, `log
      ensures Valid() && activeCreated == Some(created) && lastSegmentNs == created && log == Restart(old(log), created)
      ensures sequence == if created == old(lastSegmentNs) then old(sequence) else 0
    {
      hide Inv, Service.Valid;
      HasBegun(log, bounds);
      created := activeCreated.value;
      RestartKeeps(log, bounds);
      log := Restart(log, created);
      if created != lastSegmentNs {
        lastSegmentNs, sequence := created, 0;
      }
    }

    /** Choosing the name of the next segment: a restart of the sequence, then the first free name. */
    method SelectPath() returns (ok: bool)
      requires Valid() && activePath.None? && batch != []
      modifies `lastSegmentNs, `sequence, `activePath, `log, directory`faults
      ensures Valid() && log == old(log).(lastNs := lastSegmentNs, sequence := sequence, path := activePath)
      ensures activeCreated == Some(lastSegmentNs)
      ensures if ok then activePath == Some(Name(lastSegmentNs, sequence)) && log == Named(old(log), sequence)
                         && FirstFree(directory.files, lastSegmentNs, Restart(old(log), lastSegmentNs).sequence, sequence)
              else activePath.None?
      ensures directory.faults >= old(directory.faults) && (!ok ==> directory.faults > old(directory.faults))
    {
      hide Inv, Absent, Has, Service.Valid, FirstFree, Restart, Named;
      var created := RestartSequence();
      RestartNamed(old(log), created);
      var name := NextSegmentPath(created);
      if name.None? {
        return false;
      }
      FreeIsAbsent(directory.files, created, old(log), sequence);
      NameKeeps(log, bounds, name.value);
      activePath, log := name, log.(path := name);
      ok := true;
    }

    /** `protectedfile.Replace` of the active segment by the whole batch. */
    method WriteActive() returns (ok: bool)
      requires Valid() && activePath.Some? && Room(log, bounds) && batch != []
      modifies directory, `log
      ensures Valid()
      ensures log == Wrote(old(log)) || (!ok && log == old(log))
      ensures ok ==> directory.files == Put(old(directory.files), Segment(activePath.value, batch))
      ensures directory.faults >= old(directory.faults) && (!ok ==> directory.faults > old(directory.faults))
    {
      hide Inv, Room, InPlace, Follows, Put, Service.Valid;
      WriteKeeps(log, bounds);
      ok := directory.Replace(activePath.value, batch);
      if ok || directory.files != log.files {
        log := Wrote(log);
      }
    }

    method Seal()
      requires Valid() && log.saved == |batch|
      modifies `batch, `batchBytes, `activeCreated, `activePath, `activePersistedBytes, `dirty, `log
      ensures Valid() && log == Sealed(old(log))
    {
      hide Inv, Service.Valid;
      SealKeeps(log, bounds);
      log := Sealed(log);
      batch, batchBytes, activeCreated, activePath, activePersistedBytes, dirty := [], 0, None, None, 0, false;
    }

    /**
      `persist`: the whole batch replaces the active segment, after retention has
      made room. `target` is that segment; `d` says what success depended on.
    */
    method Persist(seal: bool) returns (attempted: bool, ok: bool, ghost target: Option<Name>, ghost d: Disk)
      requires Valid()
      modifies this, directory
      ensures Valid() && log.history == old(log.history) && lastRetentionCheck == old(lastRetentionCheck)
      ensures attempted == old(dirty) && (!attempted ==> ok)
      ensures ok ==> CanPersist(old(log), bounds, d) && log == AfterPersist(old(log), bounds, d, seal)
      ensures if ok then !dirty && batch == if seal then [] else old(batch)
              else dirty && batch == old(batch)
      ensures lastSegmentNs == old(lastSegmentNs) || old(activeCreated) == Some(lastSegmentNs)
      ensures stepped || Onward(old(log), log)
      ensures old(stepped) ==> stepped
      ensures directory.faults >= old(directory.faults) && (!ok ==> directory.faults > old(directory.faults))
      ensures OnlyTarget(old(directory.files), directory.files, target)
      ensures old(activePath).Some? && target.Some? ==> target == old(activePath)
      ensures attempted && ok ==>
                && target.Some? && directory.files == Put(d.kept, Segment(target.value, old(batch)))
                && (old(activePath).None? ==> Absent(d.kept, target.value))
      ensures attempted && ok ==> log.clock == d.now && KeptYoung(directory.files, target, d.now, bounds.retention)
    {
      hide Inv, Enforced, Put, Absent, OnlyTarget, FirstFree, PersistLimits, Finished, Named, Kept, Service.Valid, KeptYoung;
      target, d := activePath, Disk(log.clock, directory.files, sequence);
      NothingWritten(directory.files, target);
      EmptyIsClean(log, bounds);
      if |batch| == 0 {
        return false, true, target, d;
      }
      if !dirty {
        CleanIsSaved(log, bounds);
        if seal {
          Seal();
        }
        return false, true, target, d;
      }
      HasBegun(log, bounds);
      ok, target, d := Rewrite(seal);
      attempted := true;
    }

    /** `persist` of a batch that is not all on disk. */
    method Rewrite(seal: bool) returns (ok: bool, ghost target: Option<Name>, ghost d: Disk)
      requires Valid() && batch != [] && dirty && activeCreated.Some?
      modifies this, directory
      ensures Valid() && log.history == old(log.history) && lastRetentionCheck == old(lastRetentionCheck)
      ensures ok ==> CanPersist(old(log), bounds, d) && log == AfterPersist(old(log), bounds, d, seal)
      ensures if ok then !dirty && batch == if seal then [] else old(batch)
              else dirty && batch == old(batch)
      ensures lastSegmentNs == old(lastSegmentNs) || old(activeCreated) == Some(lastSegmentNs)
      ensures stepped || Onward(old(log), log)
      ensures old(stepped) ==> stepped
      ensures directory.faults >= old(directory.faults) && (!ok ==> directory.faults > old(directory.faults))
      ensures OnlyTarget(old(directory.files), directory.files, target)
      ensures old(activePath).Some? && target.Some? ==> target == old(activePath)
      ensures ok ==> target.Some? && directory.files == Put(d.kept, Segment(target.value, old(batch)))
                     && (old(activePath).None? ==> Absent(d.kept, target.value))
      ensures ok ==> log.clock == d.now && KeptYoung(directory.files, target, d.now, bounds.retention)
    {
      hide Inv, Enforced, Put, Absent, OnlyTarget, FirstFree, Finished, Service.Valid, CanPersist, AfterPersist, InPlace,
           Named, Kept, Read, PersistLimits, Room, KeptYoung;
      ghost var before := log;
      target := activePath;
      ghost var now;
      ok, now := MakeRoom();
      d := Disk(now, directory.files, sequence);
      OnlyDeleted(before.files, d.kept, ok, PersistLimits(before, bounds, now), target);
      if ok && activePath.None? {
        RoomNamed(log, bounds);
        ok := SelectPath();
        d := d.(sequence := sequence);
      }
      if ok {
        target := activePath;
        TargetWritten(before.files, d.kept, Segment(target.value, batch));
        PersistPossible(before, bounds, d, seal);
        NamedAlready(log, sequence);
        PersistMeans(before, bounds, d, Segment(target.value, batch), seal);
        ok := Finish(seal);
      }
    }

    /** The part of `persist` before the write: the clock, the reserve and retention. */
    method MakeRoom() returns (ok: bool, ghost now: int)
      requires Valid() && batch != []
      modifies directory, `log, `stepped
      ensures Valid() && log.history == old(log.history)
      ensures log == if now < 0 then Read(old(log), now) else Kept(Read(old(log), now), directory.files)
      ensures Enforced(old(directory.files), directory.files, ok, PersistLimits(old(log), bounds, now))
      ensures ok ==> Room(log, bounds) && now >= 0
      ensures directory.faults >= old(directory.faults) && (!ok ==> directory.faults > old(directory.faults))
      ensures stepped || Onward(old(log), log)
      ensures old(stepped) ==> stepped
    {
      hide Inv, Enforced, Room, SortedDir, Service.Valid, Kept, Read, Onward;
      ghost var before := log;
      Sorted(before, bounds);
      var length := batchBytes;
      var at := Now();
      now := at;
      KeepAll(directory.files, PersistLimits(before, bounds, now));
      ReadMovesOn(before, now);
      if at < 0 {
        directory.faults := directory.faults + 1;
        return false, now;
      }
      var reserve := if length > activePersistedBytes then length - activePersistedBytes else 0;
      ok := Enforce(at, reserve);
      KeptMovesOn(before, now, directory.files);
      RoomMade(before.files, log, bounds, ok, PersistLimits(before, bounds, now));
    }

    /** The part of `persist` from the write on. */
    method Finish(seal: bool) returns (ok: bool)
      requires Valid() && activePath.Some? && Room(log, bounds) && batch != [] && dirty
      modifies directory, `batch, `batchBytes, `activeCreated, `activePath, `activePersistedBytes, `dirty, `log
      ensures Valid() && log.history == old(log.history) && log.stale == old(log.stale) && log.clock == old(log.clock)
      ensures ok ==> log == Finished(old(log), seal)
      ensures ok ==> directory.files == Put(old(directory.files), Segment(old(activePath).value, old(batch)))
      ensures if ok then !dirty && batch == if seal then [] else old(batch)
              else dirty && batch == old(batch) && (directory.files == old(directory.files)
                     || directory.files == Put(old(directory.files), Segment(old(activePath).value, old(batch))))
      ensures directory.faults >= old(directory.faults) && (!ok ==> directory.faults > old(directory.faults))
    {
      hide Inv, Room, Put, InPlace, Follows, Service.Valid;
      ok := WriteActive();
      if ok {
        CleanKeeps(log, bounds);
        log := log.(persistedBytes := log.batchBytes, dirty := false);
        activePersistedBytes, dirty := batchBytes, false;
        if seal {
          Seal();
        }
      }
    }

    /** `batch = append(batch, …)`, with the start of a new batch. */
    method Add(event: Event, size: nat, now: int)
      requires Valid() && batchBytes + size <= bounds.maximumSegmentBytes && (now <= log.clock || log.stale)
      modifies `batch, `batchBytes, `activeCreated, `dirty, `appended, `log
      ensures Valid() && log == Append(old(log), Stored(now, event, size, old(appended)), now)
      ensures batch == old(batch) + [Stored(now, event, size, old(appended))]
      ensures log.history == old(log.history) + [Stored(now, event, size, old(appended))]
      ensures log.clock == old(log.clock) && activeCreated == if old(batch) == [] then Some(now) else old(activeCreated)
      ensures log.stale == (old(log.stale) || (old(batch) == [] && (now < lastSegmentNs || now < floor)))
      ensures Debt() == old(Debt()) - Weight(event)
    {
      hide Inv, Accounted, Service.Valid;
      var stored := Stored(now, event, size, appended);
      AppendKeeps(log, bounds, stored, now);
      AccountedAppend(log.history, stored);
      log := Append(log, stored, now);
      if |batch| == 0 {
        activeCreated := Some(now);
      }
      batch, batchBytes, dirty, appended := batch + [stored], batchBytes + size, true, appended + 1;
    }

    /** `dropped.Add`, after whatever the callers do meanwhile. */
    method GiveUp(count: nat)
      requires Valid() && count < WRAP
      modifies service
      ensures Valid() && service.taken == old(service.taken) - count
      ensures service.stopped == old(service.stopped) && old(service.commands) <= service.commands
    {
      hide Inv, Agrees;
      service.Others();
      service.AddDropped(count);
    }

    /** A full batch is sealed before the overflow event. */
    method SealFor(size: nat) returns (ok: bool, ghost d: Disk)
      requires Valid() && size <= bounds.maximumSegmentBytes
      modifies this, directory
      ensures Valid() && log.history == old(log.history) && lastRetentionCheck == old(lastRetentionCheck)
      ensures ok ==> if NeedsRoom(old(log), bounds, size)
                     then CanPersist(old(log), bounds, d) && log == AfterPersist(old(log), bounds, d, true)
                     else log == old(log)
      ensures ok ==> batchBytes + size <= bounds.maximumSegmentBytes
      ensures ok && batch != [] ==> batch == old(batch)
      ensures lastSegmentNs == old(lastSegmentNs) || old(activeCreated) == Some(lastSegmentNs)
      ensures directory.faults >= old(directory.faults) && (!ok ==> directory.faults > old(directory.faults))
      ensures stepped || Onward(old(log), log)
      ensures old(stepped) ==> stepped
    {
      hide Inv, Put, Absent, OnlyTarget, Service.Valid, CanPersist, AfterPersist, KeptYoung;
      ok, d := true, Disk(log.clock, directory.files, sequence);
      EmptyIsClean(log, bounds);
      if batchBytes + size > bounds.maximumSegmentBytes && |batch| != 0 {
        var _, sealed, _, disk := Persist(true);
        ok, d := sealed, disk;
        EmptyIsClean(log, bounds);
      }
    }

    /** The first part of `commit`: the dropped count becomes an event of its own. */
    method AppendOverflow(count: nat) returns (ok: bool, ghost o: Drops)
      requires Valid() && 0 < count < WRAP
      modifies this, directory, service
      ensures Valid() && Debt() == old(Debt()) - count && service.stopped == old(service.stopped)
      ensures old(service.commands) <= service.commands
      ensures ok ==> o.count == count && CanAppendDrops(old(log), bounds, o) && log == AfterDrops(old(log), bounds, o)
      ensures ok ==> Appended(old(log), log, Overflow(count), o.at, o.size) && batch != []
      ensures lastRetentionCheck == old(lastRetentionCheck)
      ensures directory.faults >= old(directory.faults) && (!ok ==> directory.faults > old(directory.faults))
      ensures stepped || Onward(old(log), log)
      ensures old(stepped) ==> stepped
    {
      hide Inv, Accounted, Service.Valid, CanPersist, AfterPersist, Append, Read, Appended;
      ReadSame(log);
      var now := Now();
      TimesBound(log, bounds);
      var size :| 0 < size;
      ok := size <= bounds.maximumSegmentBytes;
      directory.faults := directory.faults + if ok then 0 else 1;
      o := Drops(count, now, size, Disk(now, directory.files, sequence));
      if ok {
        var room, d := SealFor(size);
        ok, o := room, o.(sealing := d);
      }
      if !ok {
        GiveUp(count);
        return false, o;
      }
      Add(Overflow(count), size, now);
      OneMore(old(log), log, Overflow(count), now, size);
    }

    /** `commit`. */
    method Commit(seal: bool) returns (attempted: bool, ok: bool, ghost c: Commitment)
      requires Valid()
      modifies this, directory, service
      ensures Valid() && Debt() == old(Debt()) && service.stopped == old(service.stopped)
      ensures old(service.commands) <= service.commands
      ensures ok ==> CanCommit(old(log), bounds, c) && log == AfterCommit(old(log), bounds, c, seal)
      ensures ok ==> !dirty && if seal then batch == [] else old(batch) != [] ==> batch != []
      ensures directory.faults >= old(directory.faults) && (!ok ==> directory.faults > old(directory.faults))
      ensures lastRetentionCheck == old(lastRetentionCheck)
      ensures stepped || Onward(old(log), log)
      ensures old(stepped) ==> stepped
    {
      hide Inv, Put, Absent, OnlyTarget, Accounted, Agrees, CanPersist, AfterPersist, CanAppendDrops, AfterDrops;
      service.Others();
      var count := service.SwapDropped();
      c := Commitment(None, Disk(log.clock, directory.files, sequence));
      if count != 0 {
        var done, o := AppendOverflow(count);
        if !done {
          return true, false, c;
        }
        c := c.(drops := Some(o));
      }
      var tried, done, _, d := Persist(seal);
      attempted, ok, c := tried, done, c.(disk := d);
    }

    /** Before an event read at `at`, of encoded length `size`: an old or full batch is sealed. */
    method PrepareFor(at: int, text: string, size: nat) returns (ok: bool, ghost a: Arrival)
      requires Valid()
      modifies this, directory, service
      ensures Valid() && Debt() == old(Debt()) && service.stopped == old(service.stopped)
      ensures old(service.commands) <= service.commands
      ensures a.now == at && a.text == text && a.size == size
      ensures ok ==> CanPrepare(old(log), bounds, a) && log == Prepared(old(log), bounds, a)
      ensures !ok && directory.faults == old(directory.faults) ==>
                size > bounds.maximumSegmentBytes && CanAge(old(log), bounds, a) && log == AfterAge(old(log), bounds, a)
      ensures ok ==> batchBytes + size <= bounds.maximumSegmentBytes
      ensures ok && SealsFirst(old(log), bounds, at, size) ==> batch == []
      ensures ok && !SealsFirst(old(log), bounds, at, size) ==> log == old(log)
      ensures !SealsFirst(old(log), bounds, at, size) ==> directory.files == old(directory.files)
      ensures directory.faults >= old(directory.faults)
      ensures !ok ==> size > bounds.maximumSegmentBytes || directory.faults > old(directory.faults)
      ensures ok && batch != [] ==> activeCreated.Some? && at - activeCreated.value < SEGMENT_AGE
      ensures stepped || Onward(old(log), log)
      ensures old(stepped) ==> stepped
    {
      hide Inv, Accounted, Service.Valid, CanCommit, AfterCommit;
      ok := true;
      ghost var nothing := Commitment(None, Disk(log.clock, directory.files, sequence));
      a := Arrival(at, text, size, nothing, nothing);
      if |batch| != 0 && activeCreated.Some? && at - activeCreated.value >= SEGMENT_AGE {
        var _, committed, c := Commit(true);
        ok, a := committed, a.(aged := c);
      }
      ok := ok && size <= bounds.maximumSegmentBytes;
      if ok && batchBytes + size > bounds.maximumSegmentBytes && |batch| != 0 {
        var _, committed, c := Commit(true);
        ok, a := committed, a.(full := c);
      }
      EmptyIsClean(log, bounds);
      if batch != [] {
        HasBegun(log, bounds);
      }
    }

    /** An event that has been received is appended, or counted as dropped: if too long, or after a failure. */
    method HandleEvent(text: string) returns (handled: bool, size: nat, ghost a: Arrival)
      requires Valid()
      modifies this, directory, service
      ensures Valid() && Debt() == old(Debt()) - 1 && service.stopped == old(service.stopped)
      ensures old(service.commands) <= service.commands
      ensures a.text == text && a.size == size
      ensures handled ==> CanArrive(old(log), bounds, a) && log == AfterArrival(old(log), bounds, a)
      ensures directory.faults >= old(directory.faults)
      ensures !handled && directory.faults == old(directory.faults) ==>
                var t := Refused(a); Possible(old(log), bounds, t) && log == After(old(log), bounds, t)
      ensures !handled ==> size > bounds.maximumSegmentBytes || directory.faults > old(directory.faults)
      ensures handled ==> activeCreated.Some? && a.now - activeCreated.value < 3_600_000_000_000
      ensures handled ==> batch != [] && log.history != [] && log.history[|log.history| - 1] == batch[|batch| - 1]
                          && batch[|batch| - 1].event == Report(text) && batch[|batch| - 1].timestamp == a.now
                          && batch[|batch| - 1].size == size
      ensures handled && SealsFirst(old(log), bounds, a.now, size) ==> |batch| == 1
      ensures handled && !SealsFirst(old(log), bounds, a.now, size) ==>
                batch[..|batch| - 1] == old(batch) && directory.files == old(directory.files) && log.clock == a.now
      ensures stepped || log.stale == old(log.stale) || a.now < lastSegmentNs
      ensures old(stepped) ==> stepped
    {
      hide Inv, Accounted, Service.Valid, CanPrepare, Prepared, Append, SealsFirst, Read, CanAge, AfterAge;
      ReadSame(log);
      var at := Now();
      TimesBound(log, bounds);
      size :| 0 < size;
      var ok, arrival := PrepareFor(at, text, size);
      handled, a := ok, arrival;
      if !handled {
        GiveUp(1);
        return;
      }
      Add(Report(text), size, at);
    }

    method HandleFlush() returns (ok: bool, ghost c: Commitment)
      requires Valid()
      modifies this, directory, service
      ensures Valid() && Debt() == old(Debt()) && service.stopped == old(service.stopped)
      ensures old(service.commands) <= service.commands
      ensures ok ==> CanCommit(old(log), bounds, c) && log == AfterCommit(old(log), bounds, c, false)
      ensures ok ==> !dirty
      ensures directory.faults >= old(directory.faults) && (!ok ==> directory.faults > old(directory.faults))
      ensures stepped || log.stale == old(log.stale)
      ensures old(stepped) ==> stepped
    {
      hide Inv, CanCommit, AfterCommit;
      var _, committed, d := Commit(false);
      ok, c := committed, d;
    }

    /** The stop command: nothing is queued behind it, and the last batch is sealed if possible. */
    method HandleStop() returns (ok: bool, ghost c: Commitment)
      requires Valid() && service.stopped
      modifies this, directory, service
      ensures Valid() && Debt() == old(Debt()) && service.stopped
      ensures service.commands == []
      ensures ok ==> CanCommit(old(log), bounds, c) && log == AfterCommit(old(log), bounds, c, true)
      ensures ok ==> !dirty && batch == []
      ensures directory.faults >= old(directory.faults) && (!ok ==> directory.faults > old(directory.faults))
      ensures stepped || log.stale == old(log.stale)
      ensures old(stepped) ==> stepped
    {
      hide Inv, CanCommit, AfterCommit;
      var _, committed, d := Commit(true);
      ok, c := committed, d;
    }

    /** The first part of a tick: the clock, and a commit that seals a batch of an hour. */
    method TickCommit() returns (at: int, committed: bool, ghost t: Tick)
      requires Valid()
      modifies this, directory, service
      ensures Valid() && Debt() == old(Debt()) && service.stopped == old(service.stopped)
      ensures old(service.commands) <= service.commands
      ensures stepped || log.stale == old(log.stale)
      ensures old(stepped) ==> stepped
      ensures t.now == at && t.swept.None? && lastRetentionCheck == old(lastRetentionCheck)
      ensures committed ==> CanCommit(Read(old(log), at), bounds, t.c) && log == AfterTickCommit(old(log), bounds, t)
      ensures committed && old(batch) != [] && old(activeCreated).Some? ==>
                (batch == [] <==> at - old(activeCreated).value >= 3_600_000_000_000)
      ensures committed ==> !dirty
      ensures directory.faults >= old(directory.faults) && (!committed ==> directory.faults > old(directory.faults))
    {
      hide Inv, Service.Valid, CanCommit, AfterCommit, Accounted;
      at := Now();
      var seal := |batch| != 0 && activeCreated.Some? && at - activeCreated.value >= SEGMENT_AGE;
      var _, done, c := Commit(seal);
      committed, t := done, DiagnosticTurns.Tick(at, c, None);
    }

    /** A tick seals a batch that is an hour old, and enforces retention when it is due. */
    method Tick() returns (committed: bool, checked: bool, enforced: bool, ghost t: Tick)
      requires Valid()
      modifies this, directory, service
      ensures Valid() && Debt() == old(Debt()) && service.stopped == old(service.stopped)
      ensures old(service.commands) <= service.commands
      ensures stepped || log.stale == old(log.stale)
      ensures old(stepped) ==> stepped
      ensures checked <==> committed && (t.now < old(lastRetentionCheck)
                                         || t.now - old(lastRetentionCheck) >= bounds.retention
                                         || t.now - old(lastRetentionCheck) >= 3_600_000_000_000)
      ensures enforced ==> KeptYoung(directory.files, activePath, t.now, bounds.retention)
      ensures enforced <==> checked && t.swept.Some?
      ensures committed ==> CanCommit(Read(old(log), t.now), bounds, t.c)
      ensures committed && !checked ==> log == AfterTickCommit(old(log), bounds, t)
      ensures checked ==> var m := AfterTickCommit(old(log), bounds, t);
                          && Enforced(m.files, directory.files, enforced, TickLimits(m, bounds, t.now))
                          && log == Kept(m, directory.files)
      ensures committed && checked == enforced ==> CanTick(old(log), bounds, t) && log == AfterTick(old(log), bounds, t)
      ensures committed && old(batch) != [] && old(activeCreated).Some? ==>
                (batch == [] <==> t.now - old(activeCreated).value >= 3_600_000_000_000)
      ensures committed ==> !dirty
      ensures lastRetentionCheck == if enforced then t.now else old(lastRetentionCheck)
      ensures directory.faults >= old(directory.faults)
      ensures !committed || checked != enforced ==> directory.faults > old(directory.faults)
    {
      hide Inv, Enforced, Service.Valid, CanCommit, AfterCommit, Read, Aged, InPlace, KeptYoung;
      var at;
      at, committed, t := TickCommit();
      var interval := Min(bounds.retention, SEGMENT_AGE);
      enforced := false;
      checked := committed && (at < lastRetentionCheck || at - lastRetentionCheck >= interval);
      if checked {
        enforced := Enforce(at, 0);
        if enforced {
          t, lastRetentionCheck := t.(swept := Some(directory.files)), at;
        }
      }
    }

    /** One turn of the loop in `run`: a command, or a tick. */
    method Step() returns (running: bool, ghost now: int, ghost command: Option<Command>, ghost t: Turn)
      requires Valid() && Debt() == 0 && !service.stopped
      modifies this, directory, service
      ensures Valid() && Debt() == 0
      ensures running == !service.stopped
      ensures service.stopped ==> service.commands == []
      ensures directory.faults >= old(directory.faults)
      ensures Handles(command, t) && old(service.commands) <= Received(command) + service.commands
      ensures running <==> command != Some(Stop)
      ensures directory.faults == old(directory.faults) ==> Possible(old(log), bounds, t) && log == After(old(log), bounds, t)
      ensures stepped || log.stale == old(log.stale) || now < lastSegmentNs
      ensures old(stepped) ==> stepped
    {
      hide Inv, Agrees, Accounted, Service.Balanced, CanCommit, AfterCommit, CanArrive, AfterArrival, CanTick, AfterTick,
           CanAge, AfterAge;
      service.Others();
      running, now, command := true, log.clock, None;
      var ready := *;
      if ready && |service.commands| != 0 {
        var received := service.Receive();
        command := Some(received);
        match received
        case Record(text) =>
          var handled, _, arrival := HandleEvent(text);
          now, t := arrival.now, if handled then Arrived(arrival) else Refused(arrival);
        case Flush =>
          var _, c := HandleFlush();
          t := Flushed(c);
        case Stop =>
          var _, c := HandleStop();
          running, t := false, Stopped(c);
      } else {
        var _, _, _, tick := Tick();
        t := Ticked(tick);
      }
    }
  }

  lemma RestartNamed(l: Log, created: int)
    requires l.created == Some(created) && l.path.None?
    ensures forall n: nat :: Named(l, n) == Restart(l, created).(sequence := n, path := Some(Name(created, n)))
    ensures Restart(l, created).(sequence := 0) == l.(lastNs := created, sequence := 0)
  {
  }

  lemma FreeIsAbsent(files: seq<Segment>, created: int, l: Log, sequence: nat)
    requires FirstFree(files, created, Restart(l, created).sequence, sequence)
    ensures Absent(files, Name(created, sequence))
  {
  }

  /** After a `persist` the clock is that of its retention, and only the written file may be older than that allows. */
  lemma PersistMeans(l: Log, b: Bounds, d: Disk, s: Segment, seal: bool)
    requires CanPersist(l, b, d) && l.batch != [] && l.dirty && (l.path.Some? ==> l.path.value == s.name)
    ensures AfterPersist(l, b, d, seal).clock == d.now
    ensures KeptYoung(Put(d.kept, s), Some(s.name), d.now, b.retention)
  {
    hide Put, SortedDir, InPlace, Follows, Has, Absent, Total, Contents, Fits, PreservesNewest, NewestSuffix, Justified, FirstFree;
    PutSorted(d.kept, s);
  }

  lemma NamedAlready(l: Log, sequence: nat)
    ensures l.created.Some? && l.path.Some? ==> Named(l, sequence) == l
  {
  }

  /** What was chosen makes a possible `persist`. */
  lemma PersistPossible(l: Log, b: Bounds, d: Disk, seal: bool)
    requires l.batch != [] && l.dirty && l.created.Some? && d.now >= 0
    requires Enforced(l.files, d.kept, true, PersistLimits(l, b, d.now))
    requires l.path.None? ==> FirstFree(d.kept, l.created.value, Restart(l, l.created.value).sequence, d.sequence)
    ensures CanPersist(l, b, d)
    ensures AfterPersist(l, b, d, seal) == Finished(Named(Kept(Read(l, d.now), d.kept), d.sequence), seal)
    ensures l.path.None? ==> Absent(d.kept, Name(l.created.value, d.sequence))
  {
    hide Enforced, Has, Absent, InPlace;
  }

  /** Every file but the one written is as it was. */
  predicate OnlyTarget(before: seq<Segment>, after: seq<Segment>, target: Option<Name>) {
    forall s :: s in after ==> s in before || target == Some(s.name)
  }

  lemma NothingWritten(files: seq<Segment>, target: Option<Name>)
    ensures OnlyTarget(files, files, target)
  {
  }

  lemma OnlyDeleted(before: seq<Segment>, after: seq<Segment>, ok: bool, l: Limits, target: Option<Name>)
    requires Enforced(before, after, ok, l)
    ensures OnlyTarget(before, after, target) && OnlyTarget(before, after, None) && SortedDir(after)
  {
    hide SortedDir, Contents, NewestSuffix, PreservesNewest, Fits, Total;
  }

  lemma TargetWritten(before: seq<Segment>, kept: seq<Segment>, s: Segment)
    requires OnlyTarget(before, kept, None) && SortedDir(kept)
    ensures OnlyTarget(before, Put(kept, s), Some(s.name)) && OnlyTarget(before, kept, Some(s.name))
  {
    hide SortedDir, Put;
    PutSorted(kept, s);
  }

  /** What retention leaves when the service opens is still numbered in order. */
  lemma NumberedSuffix(before: seq<Segment>, after: seq<Segment>, l: Limits)
    requires Enforced(before, after, true, l) && l.preserve == None
    requires Numbered(Flat(before), NextNumber(Flat(before)))
    ensures Numbered(Flat(after), NextNumber(Flat(after)))
  {
    hide SortedDir, Contents, Flat, Total, Fits, AllListable, Retained;
    assert PreservesNewest(before, None);
    var k: nat :| k <= Removable(before, None) && after == before[k..];
    FlatOfFirst(before, k);
    SuffixNumbered(Flat(before[..k]), Flat(after));
  }

  lemma SuffixNumbered(front: seq<Stored>, back: seq<Stored>)
    requires Numbered(front + back, NextNumber(front + back))
    ensures Numbered(back, NextNumber(back))
  {
    forall i, j | 0 <= i < j < |back|
      ensures back[i].serial < back[j].serial
    {
      assert (front + back)[|front| + i] == back[i] && (front + back)[|front| + j] == back[j];
    }
  }

  lemma FitsAll(before: seq<Segment>, after: seq<Segment>, l: Limits)
    requires Enforced(before, after, true, l) && l.reserve == 0 && l.preserve == None
    ensures SortedDir(after) && Total(after) <= l.maximum
    ensures before == [] ==> after == []
  {
    hide SortedDir, Contents, NewestSuffix;
    assert after != [] ==> l.preserve != Some(after[0].name) && after[0] in before;
  }

  lemma StillNonEmpty(before: seq<Segment>, after: seq<Segment>, l: Limits)
    requires Enforced(before, after, true, l)
    ensures NonEmpty(before) ==> NonEmpty(after)
  {
    hide SortedDir, Contents, NewestSuffix, PreservesNewest, Fits, Total, AllListable;
  }

  lemma NotHas(files: seq<Segment>, name: Name)
    ensures Has(files, name) || Absent(files, name)
  {
  }

  /** `Open`: a directory that cannot be brought within its bounds is refused. */
  method Open(service: Service, directory: Directory, bounds: Bounds) returns (worker: Option<Worker>)
    requires service.Valid() && service.taken == 0 && SortedDir(directory.files)
    requires bounds.maximumSegmentBytes <= bounds.maximumBytes
    requires Numbered(Flat(directory.files), NextNumber(Flat(directory.files)))
    modifies directory
    ensures directory.faults >= old(directory.faults) && (worker.None? ==> directory.faults > old(directory.faults))
    ensures worker.Some? ==>
              && fresh(worker.value) && worker.value.Valid() && worker.value.Debt() == 0
              && worker.value.service == service && worker.value.directory == directory && worker.value.bounds == bounds
              && Enforced(old(directory.files), directory.files, true,
                          Limits(worker.value.floor - bounds.retention, 0, None, bounds.maximumBytes))
              && worker.value.log.history == Flat(directory.files)
              && KeptYoung(directory.files, None, worker.value.floor, bounds.retention)
              && Total(directory.files) <= bounds.maximumBytes
              && (old(directory.files) == [] && !worker.value.stepped ==> !worker.value.log.stale)
              && (NonEmpty(old(directory.files)) ==> Opened(worker.value.log, bounds))
  {
    hide Inv, Enforced, SortedDir, Total, Flat, Accounted, Numbered, NonEmpty;
    var now, later := *, *;
    var limits := Limits(now - bounds.retention, 0, None, bounds.maximumBytes);
    var ok := directory.EnforceRetention(limits);
    if !ok {
      return None;
    }
    FitsAll(old(directory.files), directory.files, limits);
    NumberedSuffix(old(directory.files), directory.files, limits);
    var created := new Worker(service, directory, bounds, now, later);
    StillNonEmpty(old(directory.files), directory.files, limits);
    assert NonEmpty(old(directory.files)) ==> OpenedOn(created.log, bounds, directory.files, now, later);
    worker := Some(created);
  }

  /**
    Up to `limit` turns, fewer only if the stop command has come, with any interference,
    failure and clock. Commands are handled in the order of sending. Every event
    offered while open is queued, appended, or stands in the dropped counter, in
    its wraps, or in an appended overflow event; after the stop command none is
    queued. The log keeps to its size. Its files in name order have always been the
    newest part of what was appended up to the last write if and only if no write
    put a segment before an existing one, which takes a stale time. Without faults
    the turns are a run, and that happens exactly if one of its writes is behind.
  */
  method Run(worker: Worker, limit: nat)
    returns (ghost run: seq<Log>, ghost commands: seq<Option<Command>>, ghost turns: seq<Turn>)
    requires worker.Valid() && worker.Debt() == 0 && !worker.service.stopped
    modifies worker, worker.directory, worker.service
    ensures worker.Valid() && worker.Debt() == 0
    ensures var service := worker.service;
            service.offered + worker.baseline ==
              Events(service.commands) + service.dropped + WRAP * service.wraps + Accounted(worker.log.history)
    ensures worker.service.stopped ==> worker.service.commands == []
    ensures |turns| == |commands| <= limit && (worker.service.stopped || |turns| == limit)
    ensures worker.service.stopped <==> commands != [] && commands[|commands| - 1] == Some(Stop)
    ensures forall i :: 0 <= i < |turns| ==> Handles(commands[i], turns[i])
    ensures old(worker.service.commands) <= AllReceived(commands) + worker.service.commands
    ensures Total(worker.directory.files) <= worker.bounds.maximumBytes
    ensures !worker.log.stale ==> !worker.log.overtaken
    ensures !worker.log.overtaken ==> IsSuffix(Flat(worker.directory.files), worker.log.history, Written(worker.log))
    ensures worker.clean ==> (worker.log.broken <==> worker.log.overtaken)
    ensures !worker.dirty ==> Written(worker.log) == |worker.log.history|
    ensures AllListable(worker.directory.files) ==> ListedInOrder(worker.directory.files)
    ensures worker.directory.faults == old(worker.directory.faults) && Opened(old(worker.log), worker.bounds) ==>
              && IsRun(run, turns, worker.bounds) && run[0] == old(worker.log) && run[|turns|] == worker.log
              && (worker.log.broken <==> exists i :: 0 <= i < |turns| && TurnBehind(run[i], worker.bounds, turns[i]))
  {
    hide Inv, Accounted, ListedInOrder, AllListable, IsSuffix, Flat, Total, Opened, TurnBehind, RunInv, InPlace,
         Possible, After, Handles, AllReceived, Service.Closing;
    NoneReceived(worker.service.commands);
    var left, running := limit, true;
    ghost var faults := worker.directory.faults;
    run, commands, turns := [worker.log], [], [];
    while running && left > 0
      invariant worker.Valid() && worker.Debt() == 0 && worker.directory.faults >= faults
      invariant |run| == |turns| + 1 && run[0] == old(worker.log) && run[|turns|] == worker.log
      invariant worker.directory.faults == faults && Opened(run[0], worker.bounds) ==> IsRun(run, turns, worker.bounds)
      invariant running == !worker.service.stopped
      invariant worker.service.stopped ==> worker.service.commands == []
      invariant |turns| == |commands| == limit - left
      invariant running <==> commands == [] || commands[|commands| - 1] != Some(Stop)
      invariant forall i :: 0 <= i < |turns| ==> Handles(commands[i], turns[i])
      invariant old(worker.service.commands) <= AllReceived(commands) + worker.service.commands
    {
      left := left - 1;
      ghost var queued := worker.service.commands;
      var ran, _, command, t := worker.Step();
      running := ran;
      ReceivedMore(commands, command, queued, worker.service.commands);
      commands := commands + [command];
      if worker.directory.faults == faults && Opened(run[0], worker.bounds) {
        RunGrows(run, turns, worker.bounds, t);
      }
      run, turns := run + [worker.log], turns + [t];
    }
    if worker.directory.faults == faults && Opened(run[0], worker.bounds) {
      RunExactly(run, turns, worker.bounds, |turns|);
    }
    LogIsBounded(worker.log, worker.bounds);
    if AllListable(worker.directory.files) {
      ListingOrder(worker.directory.files);
    }
  }

  lemma NoneReceived(queued: seq<Command>)
    ensures AllReceived([]) + queued == queued
  {
  }

  /** Commands are received in the order of sending, and none is lost. */
  lemma ReceivedMore(commands: seq<Option<Command>>, command: Option<Command>, before: seq<Command>, after: seq<Command>)
    requires before <= Received(command) + after
    ensures AllReceived(commands) + before <= AllReceived(commands + [command]) + after
  {
    assert (commands + [command])[..|commands|] == commands;
    var all := AllReceived(commands);
    assert all + Received(command) + after == all + (Received(command) + after);
  }

  lemma RunGrows(run: seq<Log>, turns: seq<Turn>, b: Bounds, t: Turn)
    requires IsRun(run, turns, b) && Possible(run[|turns|], b, t)
    ensures IsRun(run + [After(run[|turns|], b, t)], turns + [t], b)
  {
    hide Possible, After, Opened;
  }

  lemma LogIsBounded(l: Log, b: Bounds)
    requires Inv(l, b)
    ensures Total(l.files) <= b.maximumBytes && SortedDir(l.files)
    ensures !l.stale ==> !l.overtaken
    ensures !l.overtaken ==> IsSuffix(Flat(l.files), l.history, Written(l))
    ensures l.clean ==> (l.broken <==> l.overtaken)
    ensures !l.dirty ==> Written(l) == |l.history|
  {
  }
}
