/**
  What the worker of `diagnostics/service.go` keeps between its steps: the
  batch, the active segment that repeats it, and the log on disk.
*/
module DiagnosticBatch {
  import opened Wrappers
  import opened DiagnosticLog

  datatype Bounds = Bounds(maximumBytes: nat, maximumSegmentBytes: nat, retention: nat)

  /**
    The local variables of `run` and the directory; `appended` numbers the events.
    Beyond those: `history` is every event ever put in a batch, `saved` counts the
    batch events on disk, `floor` is the clock when the service opened, `clock`
    the latest reading, and `clean` says that no empty file was found.

    `broken` records that the log on disk was once not a contiguous part of the
    history, `overtaken` that a segment was once written before an existing one in
    name order, and `stale` that some time was older than it should have been: the
    clock stepped back or was negative, a file was found from the future, or a
    batch was begun at a time before that of the last segment.
  */
  datatype Log = Log(
    files: seq<Segment>,
    batch: seq<Stored>,
    batchBytes: nat,
    created: Option<int>,
    path: Option<Name>,
    persistedBytes: nat,
    dirty: bool,
    lastNs: int,
    sequence: nat,
    appended: nat,
    history: seq<Stored>,
    saved: nat,
    floor: int,
    clock: int,
    clean: bool,
    broken: bool,
    overtaken: bool,
    stale: bool)

  // -------------------------------------------------------------- invariants

  ghost predicate BatchOk(l: Log, b: Bounds) {
    && l.batchBytes == Bytes(l.batch) <= b.maximumSegmentBytes <= b.maximumBytes
    && l.saved <= |l.batch| <= |l.history| && l.batch == l.history[|l.history| - |l.batch|..]
    && (!l.dirty ==> l.saved == |l.batch|)
    && (l.batch == [] ==> l.created.None? && l.path.None? && !l.dirty)
    && (l.batch != [] ==> l.created.Some?)
    && (l.path.None? ==> l.saved == 0 && l.persistedBytes == 0)
    && (l.path.Some? ==> l.path.value == Name(l.lastNs, l.sequence))
  }

  /** Events are told apart by their numbers. */
  ghost predicate Numbered(history: seq<Stored>, appended: nat) {
    && (forall i, j :: 0 <= i < j < |history| ==> history[i].serial < history[j].serial)
    && (forall i :: 0 <= i < |history| ==> history[i].serial < appended)
  }

  predicate NonEmpty(files: seq<Segment>) {
    forall s :: s in files ==> s.events != []
  }

  ghost predicate DiskOk(l: Log, b: Bounds) {
    && l.saved <= |l.batch|
    && SortedDir(l.files) && Total(l.files) <= b.maximumBytes
    && l.persistedBytes <= Bytes(l.batch[..l.saved])
    && (l.path.Some? ==> Contents(l.files, l.path.value) == l.batch[..l.saved])
    && (l.clean ==> NonEmpty(l.files))
  }

  /** How many events are, or once were, on disk. */
  function Written(l: Log): int {
    |l.history| - |l.batch| + l.saved
  }

  ghost predicate IsSuffix(flat: seq<Stored>, history: seq<Stored>, written: int) {
    |flat| <= written <= |history| && flat == history[written - |flat|..written]
  }

  /** The log on disk is a contiguous part of the history, up to what was last written. */
  ghost predicate InPlace(l: Log) {
    IsSuffix(Flat(l.files), l.history, Written(l))
  }

  ghost predicate InOrder(l: Log) {
    InPlace(l) && PreservesNewest(l.files, l.path)
  }

  /** A name given out by this run, or found when it began. */
  predicate Known(name: Name, l: Log) {
    name.ns < l.floor || name.ns < l.lastNs || (name.ns == l.lastNs && name.sequence <= l.sequence)
  }

  ghost predicate Timely(l: Log) {
    && 0 <= l.floor <= l.clock && l.lastNs <= l.clock
    && (l.created.Some? ==> l.created.value <= l.clock && l.floor <= l.created.value)
    && (l.created.Some? && l.path.None? ==> l.lastNs <= l.created.value)
    && (l.path.Some? ==> l.floor <= l.lastNs)
    && (forall s :: s in l.files ==> Known(s.name, l))
  }

  ghost predicate Inv(l: Log, b: Bounds) {
    && BatchOk(l, b) && Numbered(l.history, l.appended) && DiskOk(l, b)
    && (!l.overtaken ==> InOrder(l) && !l.broken)
    && (l.clean && l.overtaken ==> l.broken)
    && (!l.stale ==> !l.overtaken && Timely(l))
  }

  // ------------------------------------------------------------- transitions

  /** An empty batch before a directory found at `now`; the worker's first reading is `later`. */
  ghost function Start(files: seq<Segment>, now: int, later: int): Log {
    Log(files, [], 0, None, None, 0, false, -1, 0, NextNumber(Flat(files)), Flat(files), 0, now, later, NonEmpty(files),
        false, false, now < 0 || later < now || FromTheFuture(files, now))
  }

  function NextNumber(history: seq<Stored>): nat {
    if history == [] then 0 else history[|history| - 1].serial + 1
  }

  ghost predicate FromTheFuture(files: seq<Segment>, now: int) {
    exists s :: s in files && s.name.ns >= now
  }

  lemma StartOk(files: seq<Segment>, b: Bounds, now: int, later: int)
    requires SortedDir(files) && Total(files) <= b.maximumBytes && b.maximumSegmentBytes <= b.maximumBytes
    requires Numbered(Flat(files), NextNumber(Flat(files)))
    ensures Inv(Start(files, now, later), b)
  {
    hide Flat, Total, SortedDir, Contents, Numbered, NonEmpty, NextNumber;
    var l, flat := Start(files, now, later), Flat(files);
    assert BatchOk(l, b) by {
      assert flat[|flat|..] == [];
    }
    assert DiskOk(l, b);
    assert InOrder(l) by {
      assert flat[0..|flat|] == flat;
    }
    hide BatchOk, DiskOk, InOrder;
  }

  function Read(l: Log, now: int): Log {
    l.(clock := now, stale := l.stale || now < l.clock || now < 0)
  }

  /** `activeCreated = createdNS`, when it is not that of the last segment. */
  function Restart(l: Log, created: int): Log {
    if created != l.lastNs then l.(lastNs := created, sequence := 0) else l
  }

  ghost function Checked(l: Log): Log {
    l.(broken := l.broken || !InPlace(l))
  }

  /** After retention has left `files`. */
  ghost function Kept(l: Log, files: seq<Segment>): Log {
    Checked(l.(files := files))
  }

  /** No other file sorts after the name. */
  predicate Follows(files: seq<Segment>, name: Name) {
    forall i :: 0 <= i < |files| && files[i].name != name ==> Before(files[i].name, name)
  }

  /** After the whole batch has been written to the active segment. */
  ghost function Wrote(l: Log): Log
    requires l.path.Some?
  {
    Checked(l.(files := Put(l.files, Segment(l.path.value, l.batch)), saved := |l.batch|,
               overtaken := l.overtaken || !Follows(l.files, l.path.value)))
  }

  function Sealed(l: Log): Log {
    l.(batch := [], batchBytes := 0, created := None, path := None, persistedBytes := 0, dirty := false, saved := 0)
  }

  /** Appending to the batch; an empty batch begins at `now`. */
  function Append(l: Log, event: Stored, now: int): Log {
    l.(batch := l.batch + [event], batchBytes := l.batchBytes + event.size, dirty := true,
       created := if l.batch == [] then Some(now) else l.created,
       appended := l.appended + 1, history := l.history + [event],
       stale := l.stale || (l.batch == [] && (now < l.lastNs || now < l.floor)))
  }

  lemma ReadKeeps(l: Log, b: Bounds, now: int)
    requires Inv(l, b)
    ensures Inv(Read(l, now), b)
  {
    hide Bytes, Total, Flat, Contents, SortedDir, PreservesNewest, IsSuffix;
  }

  lemma BytesAppend(events: seq<Stored>, event: Stored)
    ensures Bytes(events + [event]) == Bytes(events) + event.size
  {
    assert (events + [event])[..|events|] == events;
  }

  lemma AppendKeeps(l: Log, b: Bounds, event: Stored, now: int)
    requires Inv(l, b) && l.batchBytes + event.size <= b.maximumSegmentBytes
    requires (now <= l.clock || l.stale) && event.serial == l.appended
    ensures Inv(Append(l, event, now), b)
  {
    hide Bytes, Total, Flat, Contents, SortedDir, PreservesNewest, NonEmpty, Numbered, IsSuffix;
    var l' := Append(l, event, now);
    BytesAppend(l.batch, event);
    NumberedAppend(l.history, l.appended, event);
    assert l'.history[|l'.history| - |l'.batch|..] == l.history[|l.history| - |l.batch|..] + [event];
    assert l'.batch[..l.saved] == l.batch[..l.saved];
    AppendSuffix(Flat(l.files), l.history, Written(l), event);
  }

  lemma NumberedAppend(history: seq<Stored>, appended: nat, event: Stored)
    requires Numbered(history, appended) && event.serial == appended
    ensures Numbered(history + [event], appended + 1)
  {
  }

  lemma AppendSuffix(flat: seq<Stored>, history: seq<Stored>, written: int, event: Stored)
    ensures IsSuffix(flat, history, written) ==> IsSuffix(flat, history + [event], written)
  {
  }

  lemma SealKeeps(l: Log, b: Bounds)
    requires Inv(l, b) && l.saved == |l.batch|
    ensures Inv(Sealed(l), b)
  {
    hide Total, Flat, Contents, SortedDir, IsSuffix, Numbered, NonEmpty;
    assert l.history[|l.history|..] == [];
  }

  /** The first segment name at a new time. */
  lemma RestartKeeps(l: Log, b: Bounds)
    requires Inv(l, b) && l.path.None? && l.created.Some?
    ensures Inv(Restart(l, l.created.value), b)
  {
    hide Bytes, Total, Flat, Contents, SortedDir, PreservesNewest, IsSuffix, Numbered, NonEmpty;
  }

  lemma SkipKeeps(l: Log, b: Bounds)
    requires Inv(l, b) && l.path.None?
    ensures Inv(l.(sequence := l.sequence + 1), b)
  {
    hide Bytes, Total, Flat, Contents, SortedDir, PreservesNewest, IsSuffix, Numbered, NonEmpty;
  }

  predicate Absent(files: seq<Segment>, name: Name) {
    forall i :: 0 <= i < |files| ==> files[i].name != name
  }

  lemma NameKeeps(l: Log, b: Bounds, name: Name)
    requires Inv(l, b) && l.path.None? && l.batch != [] && Absent(l.files, name)
    requires name == Name(l.lastNs, l.sequence) && l.created == Some(l.lastNs)
    ensures Inv(l.(path := Some(name)), b)
  {
    hide Bytes, Total, Flat, SortedDir, IsSuffix, Numbered, NonEmpty;
    ContentsAbsent(l.files, name);
    assert l.batch[..0] == [];
  }

  // ------------------------------------------------------------------- disk

  lemma {:induction false} FlatOfFirst(dir: seq<Segment>, k: nat)
    requires k <= |dir|
    ensures Flat(dir) == Flat(dir[..k]) + Flat(dir[k..])
  {
    assert dir == dir[..k] + dir[k..];
    FlatAppend(dir[..k], dir[k..]);
  }

  /** Retention, whatever it deleted, keeps the invariant; and it never breaks the order. */
  lemma RetentionKeeps(l: Log, b: Bounds, after: seq<Segment>, ok: bool, limits: Limits)
    requires Inv(l, b) && limits.preserve == l.path && Enforced(l.files, after, ok, limits)
    ensures Inv(Kept(l, after), b)
  {
    hide Bytes, Total, Flat, Contents, SortedDir, PreservesNewest, IsSuffix, NewestSuffix, Fits, Numbered;
    if !l.overtaken {
      SuffixStays(l, after, ok, limits);
    }
  }

  lemma SuffixStays(l: Log, after: seq<Segment>, ok: bool, limits: Limits)
    requires InOrder(l) && limits.preserve == l.path && NewestSuffix(l.files, after, ok, limits)
    ensures IsSuffix(Flat(after), l.history, Written(l)) && PreservesNewest(after, l.path)
  {
    hide Total, Flat, Retained;
    var k: nat :| k <= Removable(l.files, l.path) && after == l.files[k..];
    FlatOfFirst(l.files, k);
    assert Flat(after) == Flat(l.files)[|Flat(l.files[..k])|..];
    assert l.path.Some? && IsLast(l.files, l.path.value) ==> IsLast(after, l.path.value);
  }

  /** After a successful enforcement with room for the whole batch, writing it fits. */
  ghost predicate Room(l: Log, b: Bounds) {
    l.saved <= |l.batch| && Total(l.files) + Bytes(l.batch) <= b.maximumBytes + Bytes(l.batch[..l.saved])
  }

  lemma RoomAfter(l: Log, b: Bounds, limits: Limits)
    requires BatchOk(l, b) && DiskOk(l, b) && limits.preserve == l.path && limits.maximum == b.maximumBytes
    requires limits.reserve >= Bytes(l.batch) - l.persistedBytes
    requires Fits(l.files, limits)
    ensures Room(l, b)
  {
    hide Bytes, Total, Contents, SortedDir;
    NoBytes(l.batch);
    if forall i :: 0 <= i < |l.files| ==> l.path == Some(l.files[i].name) {
      OnlyPreserved(l.files, l.path);
    }
  }

  lemma NoBytes(events: seq<Stored>)
    ensures Bytes(events[..0]) == 0
  {
  }

  lemma OnlyPreserved(dir: seq<Segment>, path: Option<Name>)
    requires SortedDir(dir) && forall i :: 0 <= i < |dir| ==> path == Some(dir[i].name)
    ensures Total(dir) == if path.Some? then Bytes(Contents(dir, path.value)) else 0
  {
    assert |dir| > 1 ==> Before(dir[0].name, dir[1].name);
  }

  /** Rewriting the active segment with the whole batch; a new segment may overtake others. */
  lemma WriteKeeps(l: Log, b: Bounds)
    requires Inv(l, b) && l.path.Some? && Room(l, b) && l.batch != []
    ensures Inv(Wrote(l), b)
  {
    hide Bytes, Total, Flat, Contents, SortedDir, PreservesNewest, IsSuffix, Put, Numbered, NonEmpty, Follows, Timely;
    var s := Segment(l.path.value, l.batch);
    PutSorted(l.files, s);
    PutTotal(l.files, s);
    assert l.batch[..|l.batch|] == l.batch;
    FewerBytes(l.batch, l.saved);
    PutNonEmpty(l.files, s);
    if !l.overtaken {
      WriteExactly(l, b);
    }
    if !l.stale {
      WriteTimely(l, b);
    }
  }

  lemma PutNonEmpty(files: seq<Segment>, s: Segment)
    requires SortedDir(files) && s.events != []
    ensures NonEmpty(files) ==> NonEmpty(Put(files, s))
  {
    hide SortedDir, Put;
    PutSorted(files, s);
  }

  /** With timely names a new segment comes last. */
  lemma WriteTimely(l: Log, b: Bounds)
    requires BatchOk(l, b) && DiskOk(l, b) && Timely(l) && l.path.Some?
    ensures Follows(l.files, l.path.value) && Timely(Wrote(l))
  {
    hide Bytes, Total, Contents, Put, Flat, NonEmpty, InPlace;
    PutSorted(l.files, Segment(l.path.value, l.batch));
    forall i | 0 <= i < |l.files| && l.files[i].name != l.path.value
      ensures Before(l.files[i].name, l.path.value)
    {
      assert l.files[i] in l.files;
    }
  }

  lemma {:induction false} FewerBytes(events: seq<Stored>, n: nat)
    requires n <= |events|
    ensures Bytes(events[..n]) <= Bytes(events)
    decreases |events| - n
  {
    if n < |events| {
      FewerBytes(events, n + 1);
      assert events[..n + 1][..n] == events[..n];
    } else {
      assert events[..n] == events;
    }
  }

  /**
    Exactly when a write keeps the log a contiguous part of the history: the active
    segment is being rewritten, or no existing file sorts after the new one.
  */
  lemma WriteExactly(l: Log, b: Bounds)
    requires BatchOk(l, b) && DiskOk(l, b) && Numbered(l.history, l.appended) && InOrder(l)
    requires l.path.Some? && l.batch != []
    ensures Follows(l.files, l.path.value) ==> InOrder(Wrote(l))
    ensures NonEmpty(l.files) && InPlace(Wrote(l)) ==> Follows(l.files, l.path.value)
  {
    hide Bytes, Total, Contents, Put, Flat, NonEmpty, Numbered, SortedDir, IsSuffix, Follows;
    if IsLast(l.files, l.path.value) {
      RewriteLast(l, b);
    } else {
      NewSegmentExactly(l, b);
    }
  }

  /** The same for a new segment alone, in terms of the files there are. */
  lemma NewSegmentExactly(l: Log, b: Bounds)
    requires BatchOk(l, b) && DiskOk(l, b) && Numbered(l.history, l.appended) && InPlace(l)
    requires l.path.Some? && l.batch != [] && Absent(l.files, l.path.value)
    ensures Follows(l.files, l.path.value) ==> InOrder(Wrote(l))
    ensures NonEmpty(l.files) ==> (InPlace(Wrote(l)) <==> Follows(l.files, l.path.value))
    ensures Follows(l.files, l.path.value) <==> forall i :: 0 <= i < |l.files| ==> Before(l.files[i].name, l.path.value)
  {
    hide Bytes, Total, Contents, Put, Flat, NonEmpty, Numbered, SortedDir, IsSuffix;
    var s := Segment(l.path.value, l.batch);
    ContentsAbsent(l.files, l.path.value);
    if forall i :: 0 <= i < |l.files| ==> Before(l.files[i].name, s.name) {
      PutLast(l.files, s);
      FlatAppend(l.files, [s]);
      FlatOfOne(s);
      LongerSuffix(Flat(l.files), l.batch, l.history);
    } else {
      var p := PutSplits(l.files, s);
      if NonEmpty(l.files) {
        OvertakenIsBroken(l.files, s, p, l.history, l.appended);
      }
    }
  }

  lemma LongerSuffix(flat: seq<Stored>, batch: seq<Stored>, history: seq<Stored>)
    requires |batch| <= |history| && batch == history[|history| - |batch|..]
    requires IsSuffix(flat, history, |history| - |batch|)
    ensures IsSuffix(flat + batch, history, |history|)
  {
  }

  lemma {:induction false} PutSplits(dir: seq<Segment>, s: Segment) returns (p: nat)
    requires Absent(dir, s.name)
    ensures p <= |dir| && Put(dir, s) == dir[..p] + [s] + dir[p..]
    ensures forall i :: 0 <= i < p ==> Before(dir[i].name, s.name)
    ensures p < |dir| ==> Before(s.name, dir[p].name)
  {
    if dir == [] || Before(s.name, dir[0].name) {
      p := 0;
      assert dir[..0] + [s] + dir[0..] == [s] + dir;
    } else {
      var rest := dir[1..];
      var q := PutSplits(rest, s);
      p := q + 1;
      InsertAfterFirst(dir, s, q);
    }
  }

  lemma InsertAfterFirst<T>(all: seq<T>, x: T, q: nat)
    requires all != [] && q < |all|
    ensures [all[0]] + (all[1..][..q] + [x] + all[1..][q..]) == all[..q + 1] + [x] + all[q + 1..]
  {
  }

  /** A new segment before an older one separates events that belong together. */
  lemma OvertakenIsBroken(dir: seq<Segment>, s: Segment, p: nat, history: seq<Stored>, appended: nat)
    requires p < |dir| && NonEmpty(dir) && Numbered(history, appended) && s.events != []
    requires |s.events| <= |history| && s.events == history[|history| - |s.events|..]
    requires IsSuffix(Flat(dir), history, |history| - |s.events|)
    ensures !IsSuffix(Flat(dir[..p] + [s] + dir[p..]), history, |history|)
  {
    hide NonEmpty, Flat;
    var front, back := Flat(dir[..p]), Flat(dir[p..]);
    FlatOfFirst(dir, p);
    FlatOfFirst(dir[p..], 1);
    FlatAppend(dir[..p] + [s], dir[p..]);
    FlatAppend(dir[..p], [s]);
    FlatOfOne(s);
    FlatOfOne(dir[p]);
    assert dir[p..][..1] == [dir[p]] && dir[p] in dir;
    FirstIsNonEmpty(dir, p);
    assert back[0] in Flat(dir);
    var flat := front + s.events + back;
    var a, b := |front|, |front| + |s.events|;
    assert flat[a] == s.events[0] == history[|history| - |s.events|] && flat[b] == back[0];
    assert back[0] == Flat(dir)[|front|];
    SuffixIncreases(flat, history, appended, a, b);
  }

  lemma FirstIsNonEmpty(dir: seq<Segment>, p: nat)
    requires p < |dir| && NonEmpty(dir)
    ensures dir[p].events != []
  {
    assert dir[p] in dir;
  }

  lemma SuffixIncreases(flat: seq<Stored>, history: seq<Stored>, appended: nat, a: nat, b: nat)
    requires Numbered(history, appended) && a < b < |flat|
    ensures IsSuffix(flat, history, |history|) ==> flat[a].serial < flat[b].serial
  {
  }

  lemma RewriteLast(l: Log, b: Bounds)
    requires BatchOk(l, b) && DiskOk(l, b) && InOrder(l) && l.path.Some? && IsLast(l.files, l.path.value)
    ensures InOrder(Wrote(l)) && Follows(l.files, l.path.value)
  {
    hide Bytes, Total, Put, Flat, SortedDir, Follows, NonEmpty, IsSuffix, Contents;
    var s := Segment(l.path.value, l.batch);
    LastFollows(l.files);
    LastRewritten(l.files, s);
    FrontOfSuffix(Flat(l.files[..|l.files| - 1]), l.batch, l.saved, l.history, Written(l));
  }

  lemma LastRewritten(files: seq<Segment>, s: Segment)
    requires SortedDir(files) && IsLast(files, s.name)
    ensures IsLast(Put(files, s), s.name)
    ensures Flat(Put(files, s)) == Flat(files[..|files| - 1]) + s.events
    ensures Flat(files) == Flat(files[..|files| - 1]) + Contents(files, s.name)
  {
    hide Put, Flat, SortedDir, Contents;
    var n := |files| - 1;
    PutAgain(files, s);
    ContentsLast(files, files[n]);
    FlatOfFirst(files, n);
    assert files[n..] == [files[n]];
    FlatOfOne(files[n]);
    FlatOfOne(s);
    FlatAppend(files[..n], [s]);
  }

  lemma LastFollows(dir: seq<Segment>)
    requires SortedDir(dir) && dir != []
    ensures Follows(dir, dir[|dir| - 1].name)
  {
  }

  lemma FrontOfSuffix(front: seq<Stored>, batch: seq<Stored>, saved: nat, history: seq<Stored>, written: int)
    requires saved <= |batch| <= |history| && batch == history[|history| - |batch|..]
    requires written == |history| - |batch| + saved && IsSuffix(front + batch[..saved], history, written)
    ensures IsSuffix(front + batch, history, |history|)
  {
    var flat := front + batch[..saved];
    var start := written - |flat|;
    assert front == flat[..|front|] == history[start..start + |front|];
    assert start + |front| == |history| - |batch|;
  }

  // --------------------------------------------------- the times of segments

  /** In a sorted directory the last file decides whether a new name follows. */
  lemma FollowsLast(files: seq<Segment>, name: Name)
    requires SortedDir(files) && Absent(files, name)
    ensures Follows(files, name) <==> files == [] || Before(files[|files| - 1].name, name)
  {
    if files != [] {
      forall i | 0 <= i < |files|
        ensures Before(files[|files| - 1].name, name) ==> Before(files[i].name, name)
      {
        assert i < |files| - 1 ==> Before(files[i].name, files[|files| - 1].name);
      }
    }
  }

  /** After the last segment of this run, the next name follows exactly if its time is not before that one's. */
  lemma NextNameExactly(l: Log, created: int, sequence: nat)
    requires SortedDir(l.files) && Absent(l.files, Name(created, sequence)) && Restart(l, created).sequence < sequence
    requires l.files == [] || IsLast(l.files, Name(l.lastNs, l.sequence))
    ensures Follows(l.files, Name(created, sequence)) <==> l.files == [] || created >= l.lastNs
  {
    FollowsLast(l.files, Name(created, sequence));
  }

  // ------------------------------------------------ what the invariant says

  lemma CleanKeeps(l: Log, b: Bounds)
    requires Inv(l, b) && l.saved == |l.batch| && l.path.Some?
    ensures Inv(l.(persistedBytes := l.batchBytes, dirty := false), b)
  {
    hide SortedDir, Contents, PreservesNewest, Total, Flat;
    assert l.batch[..l.saved] == l.batch;
  }

  lemma RoomMade(before: seq<Segment>, l: Log, b: Bounds, ok: bool, limits: Limits)
    requires Inv(l, b) && Enforced(before, l.files, ok, limits)
    requires limits.preserve == l.path && limits.maximum == b.maximumBytes
    requires limits.reserve >= l.batchBytes - l.persistedBytes
    ensures ok ==> Room(l, b)
  {
    hide SortedDir, Contents, PreservesNewest, Total, Flat, Room, Fits, NewestSuffix, InOrder, Bytes;
    if ok {
      RoomAfter(l, b, limits);
    }
  }

  lemma TimesBound(l: Log, b: Bounds)
    requires Inv(l, b)
    ensures !l.stale ==> l.lastNs <= l.clock && l.floor <= l.clock
    ensures !l.stale && l.created.Some? ==> l.created.value <= l.clock
  {
  }

  lemma EmptyIsClean(l: Log, b: Bounds)
    requires Inv(l, b)
    ensures l.batch == [] ==> !l.dirty && l.batchBytes == 0
  {
  }

  lemma CleanIsSaved(l: Log, b: Bounds)
    requires Inv(l, b) && !l.dirty
    ensures l.saved == |l.batch|
  {
  }

  lemma HasBegun(l: Log, b: Bounds)
    requires Inv(l, b) && l.batch != []
    ensures l.created.Some? && (l.path.None? ==> l.saved == 0)
    ensures l.path.Some? ==> l.path.value == Name(l.lastNs, l.sequence)
  {
  }

  lemma Sorted(l: Log, b: Bounds)
    requires Inv(l, b)
    ensures SortedDir(l.files)
  {
  }
}
