/** The bounded cache of Deck diagnostics in `hub.go`, and its reference: a history. */
module HubRings {
  import opened Wrappers

  const MAXIMUM_RINGS := 32
  const MAXIMUM_UINT64 := 0xFFFF_FFFF_FFFF_FFFF

  datatype Snapshot = Snapshot(requestId: nat, events: seq<string>)

  datatype Cached = Cached(snapshot: Snapshot, sequence: nat)

  // ---------------------------------------------------------- request IDs

  function Outstanding(expected: map<nat, nat>, c: nat): nat {
    if c in expected then expected[c] else 0
  }

  /** `uint64` increment. */
  function Increment(n: nat): nat {
    if n >= MAXIMUM_UINT64 then 0 else n + 1
  }

  /** The next request ID: zero is skipped when the counter wraps. */
  function NextRequestId(n: nat): (id: nat)
    ensures 0 < id <= MAXIMUM_UINT64 && id != n
    ensures n < 0xFFFF_FFFF_FFFF_FFFF ==> id == n + 1
  {
    if n >= MAXIMUM_UINT64 then 1 else n + 1
  }

  /** What happens to the outstanding requests: `diagnosticExpected` as a history. */
  datatype Exchange =
    | Requested(c: nat, id: nat)
    | Cleared(c: nat)             // the request was not written, or the connection is gone
    | Answered(c: nat, id: nat)

  function ExpectedAfter(log: seq<Exchange>): map<nat, nat> {
    if log == [] then map[]
    else
      var before := ExpectedAfter(log[..|log| - 1]);
      match log[|log| - 1]
      case Requested(c, id) => before[c := id]
      case Cleared(c) => before - {c}
      case Answered(c, _) => before - {c}
  }

  /** The guards of `requestDiagnostics` and `acceptDiagnostics`. */
  predicate Permitted(expected: map<nat, nat>, next: Exchange) {
    match next
    case Requested(c, id) => Outstanding(expected, c) == 0 && id != 0
    case Cleared(_) => true
    case Answered(c, id) => id != 0 && Outstanding(expected, c) == id
  }

  predicate IsExchange(log: seq<Exchange>) {
    log == [] || (IsExchange(log[..|log| - 1]) && Permitted(ExpectedAfter(log[..|log| - 1]), log[|log| - 1]))
  }

  lemma {:induction false} OutstandingSince(log: seq<Exchange>, c: nat) returns (i: nat)
    requires IsExchange(log) && Outstanding(ExpectedAfter(log), c) != 0
    ensures i < |log| && log[i] == Requested(c, Outstanding(ExpectedAfter(log), c))
    ensures forall k :: i < k < |log| ==> log[k].c != c
  {
    var front := log[..|log| - 1];
    if log[|log| - 1] == Requested(c, Outstanding(ExpectedAfter(log), c)) {
      i := |log| - 1;
    } else {
      i := OutstandingSince(front, c);
      assert forall k :: i < k < |front| ==> log[k] == front[k];
    }
  }

  lemma {:induction false} ExchangePrefix(log: seq<Exchange>, n: nat)
    requires IsExchange(log) && n <= |log|
    ensures IsExchange(log[..n])
  {
    if n < |log| {
      ExchangePrefix(log[..|log| - 1], n);
      assert log[..|log| - 1][..n] == log[..n];
    } else {
      assert log[..n] == log;
    }
  }

  /**
    An accepted snapshot answers the connection's last request, and that one
    had neither been answered nor given up: there is at most one to answer.
  */
  lemma AnswerHasItsRequest(log: seq<Exchange>, j: nat, c: nat, id: nat) returns (i: nat)
    requires IsExchange(log) && j < |log| && log[j] == Answered(c, id)
    ensures i < j && log[i] == Requested(c, id)
    ensures forall k :: i < k < j ==> log[k].c != c
  {
    ExchangePrefix(log, j + 1);
    var longer := log[..j + 1];
    assert longer[..j] == log[..j];
    i := OutstandingSince(log[..j], c);
    assert forall k :: i < k < j ==> log[k] == log[..j][k];
  }

  /** The connection's last exchange is this request. */
  ghost predicate Waiting(log: seq<Exchange>, c: nat, id: nat) {
    exists i :: 0 <= i < |log| && log[i] == Requested(c, id) && forall k :: i < k < |log| ==> log[k].c != c
  }

  lemma {:induction false} OutstandingMeans(log: seq<Exchange>, c: nat)
    requires IsExchange(log)
    ensures forall id :: Waiting(log, c, id) <==> id != 0 && Outstanding(ExpectedAfter(log), c) == id
  {
    if log != [] {
      var n := |log| - 1;
      OutstandingMeans(log[..n], c);
      forall id
        ensures Waiting(log, c, id) <==> id != 0 && Outstanding(ExpectedAfter(log), c) == id
      {
        WaitingStep(log[..n], log[n], c, id);
        assert log[..n] + [log[n]] == log;
      }
    }
  }

  lemma WaitingStep(log: seq<Exchange>, e: Exchange, c: nat, id: nat)
    ensures Waiting(log + [e], c, id) <==> if e.c == c then e == Requested(c, id) else Waiting(log, c, id)
  {
    var more := log + [e];
    assert more[|log|] == e;
    if e.c != c && Waiting(log, c, id) {
      var i :| 0 <= i < |log| && log[i] == Requested(c, id) && forall k :: i < k < |log| ==> log[k].c != c;
      assert more[i] == log[i];
    }
    if e.c != c && Waiting(more, c, id) {
      var i :| 0 <= i < |more| && more[i] == Requested(c, id) && forall k :: i < k < |more| ==> more[k].c != c;
      assert log[i] == more[i];
      assert forall k :: i < k < |log| ==> more[k] == log[k];
    }
  }

  /**
    What the comparison of `acceptDiagnostics` means: the snapshot answers the
    connection's last exchange, a request; or there is no such request and the ID is
    zero, which is why the parser has to refuse it.
  */
  lemma ZeroIdWouldMatch(log: seq<Exchange>, c: nat, snapshot: Snapshot)
    requires IsExchange(log)
    ensures Outstanding(ExpectedAfter(log), c) == snapshot.requestId
            <==> (Waiting(log, c, snapshot.requestId)
                  || (snapshot.requestId == 0 && forall id :: !Waiting(log, c, id)))
  {
    hide Waiting, ExpectedAfter, IsExchange;
    OutstandingMeans(log, c);
    var id := Outstanding(ExpectedAfter(log), c);
    assert Waiting(log, c, id) <==> id != 0;
  }

  // -------------------------------------------------------------- the cache

  datatype Rings = Rings(rings: map<string, Cached>, next: nat) {
    /** Sequence numbers are distinct and already issued. */
    ghost predicate Sequenced() {
      && (forall d :: d in rings ==> rings[d].sequence <= next)
      && (forall d, e :: d in rings && e in rings && d != e ==> rings[d].sequence != rings[e].sequence)
    }
  }

  const NO_RINGS := Rings(map[], 0)

  predicate IsOldest(rings: map<string, Cached>, d: string) {
    d in rings && forall e :: e in rings ==> rings[d].sequence <= rings[e].sequence
  }

  /** The search of `acceptDiagnostics` for the smallest sequence number. */
  method OldestRing(rings: map<string, Cached>) returns (oldest: string)
    requires rings != map[]
    ensures IsOldest(rings, oldest)
  {
    assert rings.Keys != {};
    oldest :| oldest in rings;
    var remaining := rings.Keys - {oldest};
    while remaining != {}
      invariant remaining <= rings.Keys && oldest in rings
      invariant forall e :: e in rings && e !in remaining ==> rings[oldest].sequence <= rings[e].sequence
      decreases remaining
    {
      var candidate :| candidate in remaining;
      if rings[candidate].sequence < rings[oldest].sequence {
        oldest := candidate;
      }
      remaining := remaining - {candidate};
    }
  }

  lemma HasOldest(rings: map<string, Cached>) returns (oldest: string)
    requires rings != map[]
    ensures IsOldest(rings, oldest)
    decreases |rings|
  {
    assert rings.Keys != {};
    var d :| d in rings;
    var rest := rings - {d};
    assert rest.Keys == rings.Keys - {d};
    if rest == map[] {
      oldest := d;
      assert forall e :: e in rings ==> e == d || e in rest;
    } else {
      var o := HasOldest(rest);
      oldest := if rings[d].sequence <= rings[o].sequence then d else o;
      assert forall e :: e in rings ==> e == d || (e in rest && rest[e] == rings[e]);
    }
  }

  lemma OldestWitness(rings: map<string, Cached>)
    requires rings != map[]
    ensures exists d :: IsOldest(rings, d)
  {
    var d := HasOldest(rings);
  }

  ghost function Oldest(rings: map<string, Cached>): (d: string)
    requires rings != map[]
    ensures IsOldest(rings, d)
  {
    OldestWitness(rings);
    var d :| IsOldest(rings, d);
    d
  }

  lemma OldestIsUnique(rings: map<string, Cached>, d: string)
    requires IsOldest(rings, d)
    requires forall a, b :: a in rings && b in rings && a != b ==> rings[a].sequence != rings[b].sequence
    ensures rings != map[] && d == Oldest(rings)
  {
    var o := Oldest(rings);
    assert rings[o].sequence <= rings[d].sequence <= rings[o].sequence;
  }

  /** Storing one accepted snapshot, evicting the oldest other device when full. */
  ghost function Insert(r: Rings, device: string, snapshot: Snapshot): Rings {
    var kept := if device !in r.rings && |r.rings| >= MAXIMUM_RINGS
                then r.rings - {Oldest(r.rings)} else r.rings;
    Rings(kept[device := Cached(snapshot, r.next + 1)], r.next + 1)
  }

  // ------------------------------------------------------------ its reference

  /** One accepted snapshot. */
  datatype Accepted = Accepted(device: string, snapshot: Snapshot)

  /** The devices of a history, most recently accepted first. */
  function Recent(history: seq<Accepted>): seq<string> {
    if history == [] then []
    else
      var last := history[|history| - 1].device;
      [last] + Without(Recent(history[..|history| - 1]), last)
  }

  function Without(devices: seq<string>, d: string): seq<string> {
    if devices == [] then []
    else if devices[0] == d then Without(devices[1..], d)
    else [devices[0]] + Without(devices[1..], d)
  }

  /** Where a device was accepted last. */
  function LastIndex(history: seq<Accepted>, d: string): (i: int)
    ensures -1 <= i < |history|
    ensures i >= 0 ==> history[i].device == d
  {
    if history == [] then -1
    else if history[|history| - 1].device == d then |history| - 1
    else LastIndex(history[..|history| - 1], d)
  }

  function First(devices: seq<string>): seq<string> {
    if |devices| <= MAXIMUM_RINGS then devices else devices[..MAXIMUM_RINGS]
  }

  function Top(history: seq<Accepted>): seq<string> {
    First(Recent(history))
  }

  predicate NoDuplicates(devices: seq<string>) {
    forall i, j :: 0 <= i < j < |devices| ==> devices[i] != devices[j]
  }

  lemma {:induction false} WithoutProperties(devices: seq<string>, d: string)
    requires NoDuplicates(devices)
    ensures NoDuplicates(Without(devices, d))
    ensures forall x :: x in Without(devices, d) <==> x in devices && x != d
    ensures d !in devices ==> Without(devices, d) == devices
    ensures d in devices ==> |Without(devices, d)| == |devices| - 1
  {
    if devices != [] {
      var rest := devices[1..];
      WithoutProperties(rest, d);
      assert devices == [devices[0]] + rest;
      assert devices[0] !in rest;
    }
  }

  /** Removing keeps the order of the others. */
  lemma {:induction false} WithoutKeepsOrder(history: seq<Accepted>, devices: seq<string>, d: string)
    requires ByRecency(history, devices)
    ensures ByRecency(history, Without(devices, d))
  {
    if devices != [] {
      var rest := devices[1..];
      assert ByRecency(history, rest);
      WithoutKeepsOrder(history, rest, d);
      if devices[0] != d {
        var kept := Without(rest, d);
        forall j | 0 <= j < |kept|
          ensures LastIndex(history, devices[0]) > LastIndex(history, kept[j])
        {
          WithoutSubset(rest, d, kept[j]);
          var m :| 0 <= m < |rest| && rest[m] == kept[j];
          assert devices[m + 1] == kept[j];
        }
      }
    }
  }

  lemma {:induction false} WithoutSubset(devices: seq<string>, d: string, x: string)
    requires x in Without(devices, d)
    ensures x in devices && x != d
  {
    if devices[0] != d && x != devices[0] {
      WithoutSubset(devices[1..], d, x);
    } else if devices[0] == d {
      WithoutSubset(devices[1..], d, x);
    }
  }

  predicate ByRecency(history: seq<Accepted>, devices: seq<string>) {
    forall i, j :: 0 <= i < j < |devices| ==> LastIndex(history, devices[i]) > LastIndex(history, devices[j])
  }

  /** `Recent` lists each accepted device once, by the time it was accepted last. */
  lemma {:induction false} RecentIsByRecency(history: seq<Accepted>)
    ensures NoDuplicates(Recent(history)) && ByRecency(history, Recent(history))
    ensures forall d :: d in Recent(history) <==> LastIndex(history, d) >= 0
  {
    if history != [] {
      var front, last := history[..|history| - 1], history[|history| - 1].device;
      var before := Recent(front);
      RecentIsByRecency(front);
      WithoutProperties(before, last);
      WithoutKeepsOrder(front, before, last);
      var kept := Without(before, last);
      hide Without, LastIndex, Recent;
      forall d
        ensures LastIndex(history, d) == if d == last then |history| - 1 else LastIndex(front, d)
      {
        LastStep(history, d);
      }
      RecentStep(history);
      FrontRecency(front, history, kept, last);
    }
  }

  lemma LastStep(history: seq<Accepted>, d: string)
    requires history != []
    ensures LastIndex(history, d) ==
            if d == history[|history| - 1].device then |history| - 1 else LastIndex(history[..|history| - 1], d)
  {
  }

  lemma RecentStep(history: seq<Accepted>)
    requires history != []
    ensures Recent(history) ==
            [history[|history| - 1].device] + Without(Recent(history[..|history| - 1]), history[|history| - 1].device)
  {
  }

  /** The device accepted last goes to the front. */
  lemma FrontRecency(front: seq<Accepted>, history: seq<Accepted>, kept: seq<string>, last: string)
    requires history != [] && front == history[..|history| - 1]
    requires NoDuplicates(kept) && last !in kept && ByRecency(front, kept)
    requires forall d :: LastIndex(history, d) == if d == last then |history| - 1 else LastIndex(front, d)
    ensures NoDuplicates([last] + kept) && ByRecency(history, [last] + kept)
  {
    hide LastIndex;
    forall i | 0 <= i < |kept|
      ensures LastIndex(history, kept[i]) == LastIndex(front, kept[i]) < |history| - 1 && kept[i] != last
    {
      assert kept[i] in kept;
    }
  }

  /** The cache is the first 32 devices of the history, each with its latest snapshot. */
  ghost predicate Refines(r: Rings, history: seq<Accepted>) {
    && r.next == |history|
    && (forall d :: d in r.rings <==> d in Top(history))
    && (forall d :: d in r.rings ==>
          var i := LastIndex(history, d);
          i >= 0 && r.rings[d] == Cached(history[i].snapshot, i + 1))
  }

  lemma RefinesSequenced(r: Rings, history: seq<Accepted>)
    requires Refines(r, history)
    ensures r.Sequenced()
  {
  }

  lemma {:induction false} DistinctCount(devices: seq<string>)
    requires NoDuplicates(devices)
    ensures |set d | d in devices| == |devices|
  {
    if devices != [] {
      var rest := devices[1..];
      DistinctCount(rest);
      assert devices == [devices[0]] + rest && devices[0] !in rest;
      assert (set d | d in devices) == (set d | d in rest) + {devices[0]};
    }
  }

  lemma TopCount(r: Rings, history: seq<Accepted>)
    requires Refines(r, history)
    ensures |r.rings| == |Top(history)| <= MAXIMUM_RINGS && NoDuplicates(Top(history))
  {
    hide LastIndex, Recent, ByRecency;
    RecentIsByRecency(history);
    TopKeys(r.rings, Top(history));
  }

  lemma TopKeys(rings: map<string, Cached>, top: seq<string>)
    requires NoDuplicates(top) && forall d :: d in rings <==> d in top
    ensures |rings| == |top|
  {
    DistinctCount(top);
    assert rings.Keys == set d | d in top;
    assert |rings| == |rings.Keys|;
  }

  /** How accepting one more snapshot changes the first 32. */
  lemma TopAfter(history: seq<Accepted>, next: Accepted)
    ensures var top, device := Top(history), next.device;
            forall d :: d in Top(history + [next]) <==>
              d == device || (d in top && !(device !in top && |top| == MAXIMUM_RINGS && d == top[|top| - 1]))
  {
    var recent, device := Recent(history), next.device;
    RecentIsByRecency(history);
    RecentAppend(history, next);
    FirstAfter(recent, device);
  }

  lemma RecentAppend(history: seq<Accepted>, next: Accepted)
    ensures Recent(history + [next]) == [next.device] + Without(Recent(history), next.device)
  {
    assert (history + [next])[..|history|] == history;
  }

  lemma FirstAfter(recent: seq<string>, device: string)
    requires NoDuplicates(recent)
    ensures var top := First(recent);
            forall d :: d in First([device] + Without(recent, device)) <==>
              d == device || (d in top && !(device !in top && |top| == MAXIMUM_RINGS && d == top[|top| - 1]))
  {
    hide Without;
    var top, kept := First(recent), Without(recent, device);
    WithoutProperties(recent, device);
    if device in top {
      WithoutInPrefix(recent, device, |top|);
      TopOf(kept, device, |top| - 1);
    } else if |recent| < MAXIMUM_RINGS {
      assert kept == recent;
    } else {
      WithoutBeyond(recent, device, MAXIMUM_RINGS);
      assert First([device] + kept) == [device] + top[..MAXIMUM_RINGS - 1];
      assert top == top[..MAXIMUM_RINGS - 1] + [top[MAXIMUM_RINGS - 1]];
      assert top[MAXIMUM_RINGS - 1] !in top[..MAXIMUM_RINGS - 1];
    }
  }

  lemma TopOf(kept: seq<string>, device: string, n: nat)
    requires n < MAXIMUM_RINGS && n <= |kept| && (n < MAXIMUM_RINGS - 1 ==> n == |kept|)
    ensures First([device] + kept) == [device] + kept[..n]
  {
  }

  /** Removing a device found in the first `n` keeps the others of those, in front. */
  lemma {:induction false} WithoutInPrefix(devices: seq<string>, d: string, n: nat)
    requires NoDuplicates(devices) && n <= |devices| && d in devices[..n]
    ensures |Without(devices, d)| == |devices| - 1
    ensures n > 0 && forall x :: x in Without(devices, d)[..n - 1] <==> x in devices[..n] && x != d
  {
    var rest := devices[1..];
    WithoutProperties(devices, d);
    assert devices == [devices[0]] + rest;
    assert devices[..n] == [devices[0]] + rest[..n - 1];
    if devices[0] == d {
      WithoutProperties(rest, d);
      assert d !in rest;
      assert forall x :: x in rest[..n - 1] ==> x in rest;
    } else {
      assert d in rest[..n - 1];
      WithoutInPrefix(rest, d, n - 1);
      assert Without(devices, d)[..n - 1] == [devices[0]] + Without(rest, d)[..n - 2];
    }
  }

  /** Removing a device not found in the first `n` leaves those alone. */
  lemma {:induction false} WithoutBeyond(devices: seq<string>, d: string, n: nat)
    requires n <= |devices| && d !in devices[..n]
    ensures |Without(devices, d)| >= n && Without(devices, d)[..n] == devices[..n]
  {
    if n > 0 {
      var rest := devices[1..];
      assert devices[..n] == [devices[0]] + rest[..n - 1];
      WithoutBeyond(rest, d, n - 1);
    }
  }

  /** The device evicted is the last of the 32. */
  lemma OldestIsLast(r: Rings, history: seq<Accepted>)
    requires Refines(r, history) && |r.rings| == MAXIMUM_RINGS
    ensures |Top(history)| == MAXIMUM_RINGS && Oldest(r.rings) == Top(history)[MAXIMUM_RINGS - 1]
  {
    var top := Top(history);
    TopCount(r, history);
    RecentIsByRecency(history);
    var last := top[MAXIMUM_RINGS - 1];
    assert last in top;
    forall e | e in r.rings
      ensures r.rings[last].sequence <= r.rings[e].sequence
    {
      assert e in top;
      var i :| 0 <= i < |top| && top[i] == e;
      if i < MAXIMUM_RINGS - 1 {
        assert LastIndex(history, Recent(history)[i]) > LastIndex(history, Recent(history)[MAXIMUM_RINGS - 1]);
      }
    }
    RefinesSequenced(r, history);
    OldestIsUnique(r.rings, last);
  }

  /** Accepting a snapshot keeps the cache equal to the history's first 32 devices. */
  lemma InsertRefines(r: Rings, history: seq<Accepted>, next: Accepted)
    requires Refines(r, history)
    ensures Refines(Insert(r, next.device, next.snapshot), history + [next])
  {
    hide LastIndex, Top, IsOldest;
    var longer, r' := history + [next], Insert(r, next.device, next.snapshot);
    TopAfter(history, next);
    TopCount(r, history);
    if next.device !in r.rings && |r.rings| >= MAXIMUM_RINGS {
      OldestIsLast(r, history);
    }
    forall d | d in r'.rings
      ensures var i := LastIndex(longer, d);
              i >= 0 && r'.rings[d] == Cached(longer[i].snapshot, i + 1)
    {
      LastIndexAppend(history, next, d);
    }
  }

  lemma LastIndexAppend(history: seq<Accepted>, next: Accepted, d: string)
    ensures LastIndex(history + [next], d) == if next.device == d then |history| else LastIndex(history, d)
  {
    assert (history + [next])[..|history|] == history;
  }

  ghost function InsertAll(history: seq<Accepted>): Rings {
    if history == [] then NO_RINGS
    else
      var last := history[|history| - 1];
      Insert(InsertAll(history[..|history| - 1]), last.device, last.snapshot)
  }

  /** Over any sequence of accepted snapshots, the cache is what the history says. */
  lemma {:induction false} CacheRefinesHistory(history: seq<Accepted>)
    ensures Refines(InsertAll(history), history) && |InsertAll(history).rings| <= 32
  {
    hide Refines, Insert, InsertAll, Recent, LastIndex, Top;
    if history == [] {
      NothingAccepted();
    } else {
      var front, last := history[..|history| - 1], history[|history| - 1];
      CacheRefinesHistory(front);
      InsertAllStep(history);
      InsertRefines(InsertAll(front), front, last);
      assert front + [last] == history;
    }
    TopCount(InsertAll(history), history);
  }

  lemma NothingAccepted()
    ensures Refines(InsertAll([]), [])
  {
  }

  lemma InsertAllStep(history: seq<Accepted>)
    requires history != []
    ensures var last := history[|history| - 1];
            InsertAll(history) == Insert(InsertAll(history[..|history| - 1]), last.device, last.snapshot)
  {
    hide Insert;
  }
}
