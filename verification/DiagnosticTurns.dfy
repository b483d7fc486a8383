/**
  The turns of the worker of `diagnostics/service.go` that succeed, as functions of
  what the clock, the sizes, the counter of drops and retention were. The worker's
  methods are proved against them, and they make concrete runs.
*/
module DiagnosticTurns {
  import opened Decimal
  import opened Wrappers
  import opened DiagnosticLog
  import opened DiagnosticBatch

  /** What `persist` asks of retention. */
  function PersistLimits(l: Log, b: Bounds, now: int): Limits {
    var reserve := l.batchBytes - l.persistedBytes;
    Limits(now - b.retention, if reserve < 0 then 0 else reserve, l.path, b.maximumBytes)
  }

  /** The first free name of a series. */
  ghost predicate FirstFree(files: seq<Segment>, created: int, from: nat, sequence: nat) {
    && from < sequence && Absent(files, Name(created, sequence))
    && forall k :: from < k < sequence ==> Has(files, Name(created, k))
  }

  function Named(l: Log, sequence: nat): Log
    requires l.created.Some?
  {
    if l.path.Some? then l
    else l.(lastNs := l.created.value, sequence := sequence, path := Some(Name(l.created.value, sequence)))
  }

  lemma RoomNamed(l: Log, b: Bounds)
    ensures l.created.Some? ==> forall n: nat :: Room(Named(l, n), b) <==> Room(l, b)
  {
  }

  ghost function Finished(l: Log, seal: bool): Log
    requires l.path.Some?
  {
    var saved := Wrote(l).(persistedBytes := l.batchBytes, dirty := false);
    if seal then Sealed(saved) else saved
  }

  // One successful `persist`: its reading of the clock, what retention left, and
  // the number of the segment if it is new.

  datatype Disk = Disk(now: int, kept: seq<Segment>, sequence: nat)

  ghost predicate CanPersist(l: Log, b: Bounds, d: Disk) {
    l.batch != [] && l.dirty ==>
      && l.created.Some? && d.now >= 0
      && Enforced(l.files, d.kept, true, PersistLimits(l, b, d.now))
      && (l.path.None? ==> FirstFree(d.kept, l.created.value, Restart(l, l.created.value).sequence, d.sequence))
  }

  ghost function AfterPersist(l: Log, b: Bounds, d: Disk, seal: bool): Log
    requires CanPersist(l, b, d)
  {
    if l.batch == [] then l
    else if !l.dirty then if seal then Sealed(l) else l
    else Finished(Named(Kept(Read(l, d.now), d.kept), d.sequence), seal)
  }

  // One successful `commit`.

  /** The dropped count that becomes an event at `at`, and the `persist` that makes room for it. */
  datatype Drops = Drops(count: nat, at: int, size: nat, sealing: Disk)

  datatype Commitment = Commitment(drops: Option<Drops>, disk: Disk)

  predicate NeedsRoom(l: Log, b: Bounds, size: nat) {
    l.batchBytes + size > b.maximumSegmentBytes && l.batch != []
  }

  ghost predicate CanAppendDrops(l: Log, b: Bounds, o: Drops) {
    && 0 < o.count && 0 < o.size <= b.maximumSegmentBytes
    && (NeedsRoom(l, b, o.size) ==> CanPersist(Read(l, o.at), b, o.sealing))
  }

  ghost function AfterDrops(l: Log, b: Bounds, o: Drops): Log
    requires CanAppendDrops(l, b, o)
  {
    var r := Read(l, o.at);
    var m := if NeedsRoom(l, b, o.size) then AfterPersist(r, b, o.sealing, true) else r;
    Append(m, Stored(o.at, Overflow(o.count), o.size, m.appended), o.at)
  }

  ghost predicate CanDrop(l: Log, b: Bounds, c: Commitment) {
    c.drops.Some? ==> CanAppendDrops(l, b, c.drops.value)
  }

  ghost function Dropped(l: Log, b: Bounds, c: Commitment): Log
    requires CanDrop(l, b, c)
  {
    if c.drops.Some? then AfterDrops(l, b, c.drops.value) else l
  }

  ghost predicate CanCommit(l: Log, b: Bounds, c: Commitment) {
    CanDrop(l, b, c) && CanPersist(Dropped(l, b, c), b, c.disk)
  }

  ghost function AfterCommit(l: Log, b: Bounds, c: Commitment, seal: bool): Log
    requires CanCommit(l, b, c)
  {
    AfterPersist(Dropped(l, b, c), b, c.disk, seal)
  }

  // One event that is appended.

  /** The reading, the event and its size, and the commits of an old and of a full batch. */
  datatype Arrival = Arrival(now: int, text: string, size: nat, aged: Commitment, full: Commitment)

  predicate Aged(l: Log, now: int) {
    l.batch != [] && l.created.Some? && now - l.created.value >= SEGMENT_AGE
  }

  ghost predicate CanAge(l: Log, b: Bounds, a: Arrival) {
    Aged(l, a.now) ==> CanCommit(l, b, a.aged)
  }

  ghost function AfterAge(l: Log, b: Bounds, a: Arrival): Log
    requires CanAge(l, b, a)
  {
    if Aged(l, a.now) then AfterCommit(l, b, a.aged, true) else l
  }

  ghost predicate CanFit(l: Log, b: Bounds, a: Arrival) {
    NeedsRoom(l, b, a.size) ==> CanCommit(l, b, a.full)
  }

  ghost function AfterFit(l: Log, b: Bounds, a: Arrival): Log
    requires CanFit(l, b, a)
  {
    if NeedsRoom(l, b, a.size) then AfterCommit(l, b, a.full, true) else l
  }

  ghost predicate CanPrepare(l: Log, b: Bounds, a: Arrival) {
    a.size <= b.maximumSegmentBytes && CanAge(l, b, a) && CanFit(AfterAge(l, b, a), b, a)
  }

  ghost function Prepared(l: Log, b: Bounds, a: Arrival): Log
    requires CanPrepare(l, b, a)
  {
    AfterFit(AfterAge(l, b, a), b, a)
  }

  ghost predicate CanArrive(l: Log, b: Bounds, a: Arrival) {
    0 < a.size && CanPrepare(Read(l, a.now), b, a)
  }

  ghost function AfterArrival(l: Log, b: Bounds, a: Arrival): Log
    requires CanArrive(l, b, a)
  {
    var m := Prepared(Read(l, a.now), b, a);
    Append(m, Stored(a.now, Report(a.text), a.size, m.appended), a.now)
  }

  // One tick.

  /** The reading, the commit, and what retention left if it was due. */
  datatype Tick = Tick(now: int, c: Commitment, swept: Option<seq<Segment>>)

  ghost predicate CanTick(l: Log, b: Bounds, t: Tick) {
    && CanCommit(Read(l, t.now), b, t.c)
    && (t.swept.Some? ==>
          var m := AfterTickCommit(l, b, t); Enforced(m.files, t.swept.value, true, TickLimits(m, b, t.now)))
  }

  function TickLimits(l: Log, b: Bounds, now: int): Limits {
    Limits(now - b.retention, 0, l.path, b.maximumBytes)
  }

  ghost function AfterTickCommit(l: Log, b: Bounds, t: Tick): Log
    requires CanCommit(Read(l, t.now), b, t.c)
  {
    AfterCommit(Read(l, t.now), b, t.c, Aged(Read(l, t.now), t.now))
  }

  ghost function AfterTick(l: Log, b: Bounds, t: Tick): Log
    requires CanTick(l, b, t)
  {
    if t.swept.Some? then Kept(AfterTickCommit(l, b, t), t.swept.value) else AfterTickCommit(l, b, t)
  }

  // -------------------------------------------------------------------- runs

  /** An event that is appended, or is too long; a flush; a tick; the stop command. */
  datatype Turn =
    | Arrived(a: Arrival) | Refused(a: Arrival) | Flushed(c: Commitment) | Ticked(t: Tick) | Stopped(c: Commitment)

  ghost predicate Possible(l: Log, b: Bounds, t: Turn) {
    match t
    case Arrived(a) => CanArrive(l, b, a)
    case Refused(a) => a.size > b.maximumSegmentBytes && CanAge(Read(l, a.now), b, a)
    case Flushed(c) => CanCommit(l, b, c)
    case Ticked(tick) => CanTick(l, b, tick)
    case Stopped(c) => CanCommit(l, b, c)
  }

  ghost function After(l: Log, b: Bounds, t: Turn): Log
    requires Possible(l, b, t)
  {
    match t
    case Arrived(a) => AfterArrival(l, b, a)
    case Refused(a) => AfterAge(Read(l, a.now), b, a)
    case Flushed(c) => AfterCommit(l, b, c, false)
    case Ticked(tick) => AfterTick(l, b, tick)
    case Stopped(c) => AfterCommit(l, b, c, true)
  }

  /** The service has opened on a directory without empty files, which is within its bounds. */
  ghost predicate OpenedOn(l: Log, b: Bounds, files: seq<Segment>, now: int, later: int) {
    && l == Start(files, now, later) && SortedDir(files) && NonEmpty(files) && Total(files) <= b.maximumBytes
    && b.maximumSegmentBytes <= b.maximumBytes && Numbered(Flat(files), NextNumber(Flat(files)))
  }

  ghost predicate Opened(l: Log, b: Bounds) {
    exists files, now, later :: OpenedOn(l, b, files, now, later)
  }

  ghost predicate IsRun(run: seq<Log>, turns: seq<Turn>, b: Bounds) {
    && |run| == |turns| + 1 && Opened(run[0], b)
    && forall i :: 0 <= i < |turns| ==> Possible(run[i], b, turns[i]) && run[i + 1] == After(run[i], b, turns[i])
  }
}
