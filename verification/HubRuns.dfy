/**
  Every interleaving of the goroutines of `hub.go`: connections from accept to
  the end of `removeConnection`, publishers between unlocking and signalling,
  and `Close`. Each step is one critical section, channel operation or callback.
*/
module HubRuns {
  import opened Wrappers
  import opened HubRegistry

  /** Where the goroutine of a connection is. */
  datatype Phase =
    | Greeting                                     // before `reserve`
    | Checking                                     // reserved or signalled, about to read the generation
    | Writing(generation: nat, document: Document) // snapshot copied, being written
    | Waiting                                      // in `select`
    | Leaving                                      // about to enter `removeConnection`
    | Removed                                      // OnDisconnect due
    | Calling                                      // OnDisconnect running
    | Called                                       // OnDisconnect returned
    | Gone

  /** `sent` is the local `snapshotGeneration`; `received` is what the Deck got. */
  datatype Conn = Conn(device: string, phase: Phase, reserved: bool, sent: nat,
                       received: seq<(nat, Document)>, disconnects: nat)

  datatype Event =
    | Opened(c: nat, device: string)
    | Callback(c: nat, device: string)
    | DisconnectStarted(c: nat, device: string)
    | DisconnectReturned(c: nat, device: string)

  /** `slots` are the full wake-up channels; `published` and `log` are history. */
  datatype State = State(registry: Registry, conns: seq<Conn>, publishers: seq<set<nat>>, slots: set<nat>,
                         published: seq<Document>, log: seq<Event>)

  datatype Step =
    | Accept(device: string)
    | Hello(c: nat)
    | HangUp(c: nat)
    | CallBack(c: nat)
    | Read(c: nat)
    | Written(c: nat, ok: bool)
    | Take(c: nat)
    | Quit(c: nat)
    | Remove(c: nat)
    | CallDisconnect(c: nat)
    | ReturnDisconnect(c: nat)
    | Finish(c: nat)
    | PublishLocked(document: Document, valid: bool)
    | Signal(p: nat, c: nat)
    | Close

  const START := State(EMPTY, [], [], {}, [], [])

  predicate In(s: State, c: nat, phase: Phase) {
    c < |s.conns| && s.conns[c].phase == phase
  }

  predicate Enabled(s: State, step: Step) {
    match step
    case Accept(_) => true
    case Hello(c) => In(s, c, Greeting)
    case HangUp(c) => In(s, c, Greeting)
    case CallBack(c) => In(s, c, Checking) || In(s, c, Waiting)
    case Read(c) => In(s, c, Checking)
    case Written(c, _) => c < |s.conns| && s.conns[c].phase.Writing?
    case Take(c) => In(s, c, Waiting) && c in s.slots
    case Quit(c) => In(s, c, Checking) || In(s, c, Waiting)
    case Remove(c) => In(s, c, Leaving)
    case CallDisconnect(c) => In(s, c, Removed)
    case ReturnDisconnect(c) => In(s, c, Calling)
    case Finish(c) => In(s, c, Called)
    case PublishLocked(_, _) => true
    case Signal(p, c) => p < |s.publishers| && c in s.publishers[p]
    case Close => true
  }

  function Move(s: State, c: nat, phase: Phase): State
    requires c < |s.conns|
  {
    s.(conns := s.conns[c := s.conns[c].(phase := phase)])
  }

  function Log(s: State, event: Event): State {
    s.(log := s.log + [event])
  }

  function Apply(s: State, step: Step): State
    requires Enabled(s, step)
  {
    match step
    case Accept(device) =>
      var (registry, ok) := AddConnection(s.registry, |s.conns|);
      if ok then s.(registry := registry, conns := s.conns + [Conn(device, Greeting, false, 0, [], 0)]) else s
    case Hello(c) =>
      var conn := s.conns[c];
      var (registry, ok) := Reserve(s.registry, conn.device, c);
      if ok
      then Log(s.(registry := registry, conns := s.conns[c := conn.(phase := Checking, reserved := true)]),
               Opened(c, conn.device))
      else Move(s, c, Leaving)
    case HangUp(c) => Move(s, c, Leaving)
    case CallBack(c) => Log(s, Callback(c, s.conns[c].device))
    case Read(c) =>
      var found := ReadLatest(s.registry, s.conns[c].sent);
      Move(s, c, if found.Some? then Writing(found.value.0, found.value.1) else Waiting)
    case Written(c, ok) =>
      var conn := s.conns[c];
      if ok
      then s.(conns := s.conns[c := conn.(phase := Waiting, sent := conn.phase.generation,
                received := conn.received + [(conn.phase.generation, conn.phase.document)])])
      else Move(s, c, Leaving)
    case Take(c) => Move(s, c, Checking).(slots := s.slots - {c})
    case Quit(c) => Move(s, c, Leaving)
    case Remove(c) =>
      var device := s.conns[c].device;
      Move(s, c, if IsSession(s.registry, device, c) then Removed else Gone)
      .(registry := BeginRemove(s.registry, device, c))
    case CallDisconnect(c) =>
      var conn := s.conns[c];
      Log(s.(conns := s.conns[c := conn.(phase := Calling, disconnects := conn.disconnects + 1)]),
          DisconnectStarted(c, conn.device))
    case ReturnDisconnect(c) => Log(Move(s, c, Called), DisconnectReturned(c, s.conns[c].device))
    case Finish(c) => Move(s, c, Gone).(registry := EndRemove(s.registry, s.conns[c].device, c))
    case PublishLocked(document, valid) =>
      if Publishable(s.registry, document, valid)
      then s.(registry := Publish(s.registry, document, valid), publishers := s.publishers + [s.registry.signals],
              published := s.published + [document])
      else s
    case Signal(p, c) =>
      s.(publishers := s.publishers[p := s.publishers[p] - {c}], slots := s.slots + {c})
    case Close => s.(registry := Shut(s.registry))
  }

  ghost predicate Next(s: State, s': State) {
    exists step :: Enabled(s, step) && s' == Apply(s, step)
  }

  ghost predicate IsRun(run: seq<State>) {
    && run != [] && run[0] == START
    && forall i :: 0 <= i < |run| - 1 ==> Next(run[i], run[i + 1])
  }

  // ------------------------------------------------ sessions and disconnects

  /** Between a successful `reserve` and the first section of `removeConnection`. */
  predicate Live(conn: Conn) {
    conn.reserved && (conn.phase.Checking? || conn.phase.Writing? || conn.phase.Waiting? || conn.phase.Leaving?)
  }

  predicate Departing(conn: Conn) {
    conn.reserved && (conn.phase.Removed? || conn.phase.Calling? || conn.phase.Called?)
  }

  predicate SessionOk(s: State, c: nat)
    requires c < |s.conns|
  {
    var conn := s.conns[c];
    && (Live(conn) <==> IsSession(s.registry, conn.device, c))
    && (Live(conn) <==> c in s.registry.signals)
    && (Departing(conn) <==> conn.device in s.registry.disconnecting && s.registry.disconnecting[conn.device] == c)
    && (conn.phase.Greeting? ==> !conn.reserved)
    && (!conn.reserved ==> conn.phase.Greeting? || conn.phase.Leaving? || conn.phase.Gone?)
    && conn.disconnects == (if conn.reserved && (conn.phase.Calling? || conn.phase.Called? || conn.phase.Gone?)
                            then 1 else 0)
  }

  predicate RegistryOk(s: State) {
    && (forall d :: d in s.registry.sessions ==>
          s.registry.sessions[d] < |s.conns| && s.conns[s.registry.sessions[d]].device == d)
    && (forall d :: d in s.registry.disconnecting ==>
          s.registry.disconnecting[d] < |s.conns| && s.conns[s.registry.disconnecting[d]].device == d)
    && (forall c :: c in s.registry.signals ==> c < |s.conns|)
    && s.registry.sessions.Keys !! s.registry.disconnecting.Keys
    && Counted(s.registry)
  }

  predicate Counted(r: Registry) {
    r.accepted == r.disconnections + |r.sessions|
  }

  ghost predicate SessionsInv(s: State) {
    RegistryOk(s) && forall c :: 0 <= c < |s.conns| ==> SessionOk(s, c)
  }

  lemma RemoveSession(sessions: map<string, nat>, d: string)
    requires d in sessions
    ensures |sessions - {d}| == |sessions| - 1
  {
    var rest := sessions - {d};
    assert rest.Keys == sessions.Keys - {d};
    assert |rest| == |rest.Keys| && |sessions| == |sessions.Keys|;
  }

  lemma AddSession(sessions: map<string, nat>, d: string, c: nat)
    requires d !in sessions
    ensures |sessions[d := c]| == |sessions| + 1
  {
    var more := sessions[d := c];
    assert more.Keys == sessions.Keys + {d};
    assert |more| == |more.Keys| && |sessions| == |sessions.Keys|;
  }

  /** The steps that touch neither sessions nor disconnects. */
  predicate Quiet(step: Step) {
    !step.Hello? && !step.Remove? && !step.Finish?
  }

  lemma QuietStep(s: State, step: Step)
    requires Enabled(s, step) && Quiet(step)
    ensures var r, r' := s.registry, Apply(s, step).registry;
            && r'.sessions == r.sessions && r'.disconnecting == r.disconnecting && r'.signals == r.signals
            && r'.accepted == r.accepted && r'.disconnections == r.disconnections
    ensures |Apply(s, step).conns| >= |s.conns|
    ensures forall c :: 0 <= c < |s.conns| ==> Apply(s, step).conns[c].device == s.conns[c].device
  {
  }

  lemma StepKeepsRegistry(s: State, step: Step)
    requires SessionsInv(s) && Enabled(s, step)
    ensures RegistryOk(Apply(s, step))
  {
    match step
    case Hello(c) => HelloKeepsRegistry(s, c);
    case Remove(c) => RemoveKeepsRegistry(s, c);
    case Finish(c) => FinishKeepsRegistry(s, c);
    case _ =>
      hide Apply, Enabled, SessionOk;
      QuietStep(s, step);
  }

  lemma HelloKeepsRegistry(s: State, c: nat)
    requires RegistryOk(s) && Enabled(s, Hello(c))
    ensures RegistryOk(Apply(s, Hello(c)))
  {
    ReserveCounts(s.registry, s.conns[c].device, c);
    HelloFields(s, c);
    hide Apply, Enabled, Counted;
  }

  lemma HelloFields(s: State, c: nat)
    requires Enabled(s, Hello(c))
    ensures var s' := Apply(s, Hello(c));
            && s'.registry == Reserve(s.registry, s.conns[c].device, c).0 && |s'.conns| == |s.conns|
            && forall e :: 0 <= e < |s.conns| ==> s'.conns[e].device == s.conns[e].device
  {
  }

  lemma ReserveCounts(r: Registry, d: string, c: nat)
    requires Counted(r)
    ensures Counted(Reserve(r, d, c).0)
  {
    if d !in r.sessions {
      AddSession(r.sessions, d, c);
    }
  }

  lemma RemoveKeepsRegistry(s: State, c: nat)
    requires RegistryOk(s) && Enabled(s, Remove(c))
    ensures RegistryOk(Apply(s, Remove(c)))
  {
    SameDevices(s, c);
    RemoveCounts(s.registry, s.conns[c].device, c);
    hide Apply, Enabled, Counted;
  }

  lemma RemoveCounts(r: Registry, d: string, c: nat)
    requires Counted(r)
    ensures Counted(BeginRemove(r, d, c))
  {
    if d in r.sessions {
      RemoveSession(r.sessions, d);
    }
  }

  lemma SameDevices(s: State, c: nat)
    requires Enabled(s, Remove(c))
    ensures var s' := Apply(s, Remove(c));
            && s'.registry == BeginRemove(s.registry, s.conns[c].device, c) && |s'.conns| == |s.conns|
            && forall e :: 0 <= e < |s.conns| ==> s'.conns[e].device == s.conns[e].device
  {
  }

  lemma FinishKeepsRegistry(s: State, c: nat)
    requires RegistryOk(s) && Enabled(s, Finish(c))
    ensures RegistryOk(Apply(s, Finish(c)))
  {
    FinishFields(s, c);
    hide Apply, Enabled, Counted;
  }

  lemma FinishFields(s: State, c: nat)
    requires Enabled(s, Finish(c))
    ensures var s' := Apply(s, Finish(c));
            && s'.registry == EndRemove(s.registry, s.conns[c].device, c) && |s'.conns| == |s.conns|
            && (Counted(s.registry) ==> Counted(s'.registry))
            && forall e :: 0 <= e < |s.conns| ==> s'.conns[e].device == s.conns[e].device
  {
  }

  lemma StepKeepsSession(s: State, step: Step, c: nat)
    requires RegistryOk(s) && Enabled(s, step) && c < |s.conns| && SessionOk(s, c)
    ensures c < |Apply(s, step).conns| && SessionOk(Apply(s, step), c)
  {
    match step
    case Hello(e) => HelloKeepsSession(s, e, c);
    case Remove(e) => RemoveKeepsSession(s, e, c);
    case Finish(e) => FinishKeepsSession(s, e, c);
    case _ =>
      hide RegistryOk;
      QuietStep(s, step);
      QuietPhase(s, step, c);
      hide Apply, Enabled;
  }

  lemma HelloKeepsSession(s: State, e: nat, c: nat)
    requires RegistryOk(s) && Enabled(s, Hello(e)) && c < |s.conns| && SessionOk(s, c)
    ensures SessionOk(Apply(s, Hello(e)), c)
  {
    hide RegistryOk;
  }

  lemma RemoveKeepsSession(s: State, e: nat, c: nat)
    requires RegistryOk(s) && Enabled(s, Remove(e)) && c < |s.conns| && SessionOk(s, c)
    ensures SessionOk(Apply(s, Remove(e)), c)
  {
  }

  lemma FinishKeepsSession(s: State, e: nat, c: nat)
    requires RegistryOk(s) && Enabled(s, Finish(e)) && c < |s.conns| && SessionOk(s, c)
    ensures SessionOk(Apply(s, Finish(e)), c)
  {
    hide RegistryOk;
  }

  /** A quiet step keeps a connection live, departing or neither. */
  lemma QuietPhase(s: State, step: Step, c: nat)
    requires Enabled(s, step) && Quiet(step) && c < |s.conns| && SessionOk(s, c)
    ensures var conn, conn' := s.conns[c], Apply(s, step).conns[c];
            && conn'.device == conn.device && conn'.reserved == conn.reserved
            && (Live(conn') <==> Live(conn)) && (Departing(conn') <==> Departing(conn))
            && (conn'.phase.Greeting? ==> !conn'.reserved)
            && (!conn'.reserved ==> conn'.phase.Greeting? || conn'.phase.Leaving? || conn'.phase.Gone?)
            && conn'.disconnects == (if conn'.reserved && (conn'.phase.Calling? || conn'.phase.Called? || conn'.phase.Gone?)
                                     then 1 else 0)
  {
  }

  lemma NewSessionOk(s: State, step: Step)
    requires RegistryOk(s) && Enabled(s, step) && |Apply(s, step).conns| > |s.conns|
    ensures |Apply(s, step).conns| == |s.conns| + 1 && SessionOk(Apply(s, step), |s.conns|)
  {
    assert step.Accept?;
  }

  lemma StepKeepsSessions(s: State, step: Step)
    requires SessionsInv(s) && Enabled(s, step)
    ensures SessionsInv(Apply(s, step))
  {
    hide SessionOk, RegistryOk;
    var s' := Apply(s, step);
    StepKeepsRegistry(s, step);
    forall c | 0 <= c < |s'.conns|
      ensures SessionOk(s', c)
    {
      if c < |s.conns| {
        StepKeepsSession(s, step, c);
      } else {
        NewSessionOk(s, step);
      }
    }
  }

  // ------------------------------------------------------ snapshot generations

  /** The generation the Deck has, or is being sent. */
  function Effective(conn: Conn): nat {
    if conn.phase.Writing? then conn.phase.generation else conn.sent
  }

  /** A wake-up is on its way: in the slot, or held by a publisher. */
  ghost predicate WakeUpDue(s: State, c: nat) {
    c in s.slots || exists p :: 0 <= p < |s.publishers| && c in s.publishers[p]
  }

  predicate IsPublished(s: State, generation: nat, document: Document) {
    0 < generation <= |s.published| && s.published[generation - 1] == document
  }

  predicate ReceivedOk(s: State, conn: Conn) {
    && (forall i, j :: 0 <= i < j < |conn.received| ==> conn.received[i].0 < conn.received[j].0)
    && (forall i :: 0 <= i < |conn.received| ==> IsPublished(s, conn.received[i].0, conn.received[i].1))
    && conn.sent == (if conn.received == [] then 0 else conn.received[|conn.received| - 1].0)
    && (conn.phase.Writing? ==> conn.sent < conn.phase.generation
                                && IsPublished(s, conn.phase.generation, conn.phase.document))
  }

  /** Live, without the newest generation, and not about to look for it. */
  predicate Behind(s: State, conn: Conn) {
    && Live(conn) && !s.registry.closed && !conn.phase.Checking? && !conn.phase.Leaving?
    && Effective(conn) < s.registry.generation
  }

  /** No lost update, for one connection. */
  ghost predicate UpdateOk(s: State, c: nat)
    requires c < |s.conns|
  {
    Behind(s, s.conns[c]) ==> WakeUpDue(s, c)
  }

  predicate PublishedOk(s: State) {
    && s.registry.generation == |s.published|
    && (s.registry.latest != "" ==> IsPublished(s, s.registry.generation, s.registry.latest))
    && (!s.registry.closed && s.registry.generation > 0 ==> s.registry.latest != "")
  }

  ghost predicate UpdatesInv(s: State) {
    && PublishedOk(s)
    && (forall c :: 0 <= c < |s.conns| ==> ReceivedOk(s, s.conns[c]))
    && (forall c :: 0 <= c < |s.conns| ==> UpdateOk(s, c))
  }

  lemma StepKeepsPublished(s: State, step: Step)
    requires PublishedOk(s) && Enabled(s, step)
    ensures PublishedOk(Apply(s, step))
  {
  }

  lemma StillPublished(s: State, step: Step, generation: nat, document: Document)
    requires Enabled(s, step) && IsPublished(s, generation, document)
    ensures IsPublished(Apply(s, step), generation, document)
  {
  }

  lemma SameReceived(s: State, step: Step, conn: Conn, conn': Conn)
    requires Enabled(s, step) && ReceivedOk(s, conn)
    requires conn'.received == conn.received && conn'.sent == conn.sent && (conn'.phase == conn.phase || !conn'.phase.Writing?)
    ensures ReceivedOk(Apply(s, step), conn')
  {
    hide Apply, IsPublished;
    forall i | 0 <= i < |conn.received|
      ensures IsPublished(Apply(s, step), conn.received[i].0, conn.received[i].1)
    {
      StillPublished(s, step, conn.received[i].0, conn.received[i].1);
    }
    if conn.phase.Writing? {
      StillPublished(s, step, conn.phase.generation, conn.phase.document);
    }
  }

  lemma StepKeepsReceived(s: State, step: Step, c: nat)
    requires PublishedOk(s) && Enabled(s, step) && c < |s.conns| && ReceivedOk(s, s.conns[c])
    ensures c < |Apply(s, step).conns| && ReceivedOk(Apply(s, step), Apply(s, step).conns[c])
  {
    var conn, conn' := s.conns[c], Apply(s, step).conns[c];
    if step == Read(c) {
      ReadReceived(s, c);
    } else if step.Written? && step.c == c && step.ok {
      WriteReceived(s, c);
    } else {
      hide ReceivedOk, PublishedOk;
      SameReceived(s, step, conn, conn');
    }
  }

  lemma ReadReceived(s: State, c: nat)
    requires PublishedOk(s) && Enabled(s, Read(c)) && ReceivedOk(s, s.conns[c])
    ensures ReceivedOk(Apply(s, Read(c)), Apply(s, Read(c)).conns[c])
  {
    var conn := s.conns[c];
    if conn.received != [] {
      assert IsPublished(s, conn.sent, conn.received[|conn.received| - 1].1);
    }
  }

  lemma WriteReceived(s: State, c: nat)
    requires Enabled(s, Written(c, true)) && ReceivedOk(s, s.conns[c])
    ensures ReceivedOk(Apply(s, Written(c, true)), Apply(s, Written(c, true)).conns[c])
  {
  }

  lemma StepKeepsUpdate(s: State, step: Step, c: nat)
    requires RegistryOk(s) && PublishedOk(s) && Enabled(s, step) && c < |s.conns|
    requires SessionOk(s, c) && ReceivedOk(s, s.conns[c]) && UpdateOk(s, c)
    ensures c < |Apply(s, step).conns| && UpdateOk(Apply(s, step), c)
  {
    match step
    case PublishLocked(document, valid) =>
      PublishWakes(s, document, valid, c);
    case Signal(p, e) =>
      SignalKeepsWakeUp(s, p, e, c);
    case _ =>
      OtherKeepsUpdate(s, step, c);
  }

  lemma PublishWakes(s: State, document: Document, valid: bool, c: nat)
    requires c < |s.conns| && SessionOk(s, c) && UpdateOk(s, c)
    ensures UpdateOk(Apply(s, PublishLocked(document, valid)), c)
  {
    var s' := Apply(s, PublishLocked(document, valid));
    if Publishable(s.registry, document, valid) && Live(s.conns[c]) {
      assert c in s'.publishers[|s.publishers|];
    }
  }

  lemma SignalKeepsWakeUp(s: State, p: nat, e: nat, c: nat)
    requires Enabled(s, Signal(p, e)) && c < |s.conns| && UpdateOk(s, c)
    ensures UpdateOk(Apply(s, Signal(p, e)), c)
  {
    var s' := Apply(s, Signal(p, e));
    if WakeUpDue(s, c) && c !in s.slots {
      var q :| 0 <= q < |s.publishers| && c in s.publishers[q];
      assert c in s'.slots || c in s'.publishers[q];
    }
  }

  /** No other step publishes, and none but `Take` consumes a wake-up. */
  lemma OtherKeepsUpdate(s: State, step: Step, c: nat)
    requires Enabled(s, step) && !step.PublishLocked? && !step.Signal?
    requires RegistryOk(s) && PublishedOk(s) && c < |s.conns|
    requires SessionOk(s, c) && ReceivedOk(s, s.conns[c]) && UpdateOk(s, c)
    ensures c < |Apply(s, step).conns| && UpdateOk(Apply(s, step), c)
  {
    hide ReceivedOk, SessionOk, RegistryOk;
    var s' := Apply(s, step);
    assert s'.publishers == s.publishers && s'.registry.generation == s.registry.generation;
    assert WakeUpDue(s, c) ==> WakeUpDue(s', c) || step == Take(c);
    if step == Written(c, true) || step == Written(c, false) {
      assert Effective(s'.conns[c]) == Effective(s.conns[c]) || s'.conns[c].phase.Leaving?;
    }
  }

  lemma NewConnOk(s: State, step: Step)
    requires Enabled(s, step) && |Apply(s, step).conns| > |s.conns|
    ensures |Apply(s, step).conns| == |s.conns| + 1
    ensures ReceivedOk(Apply(s, step), Apply(s, step).conns[|s.conns|]) && UpdateOk(Apply(s, step), |s.conns|)
  {
    assert step.Accept?;
  }

  lemma StepKeepsUpdates(s: State, step: Step)
    requires SessionsInv(s) && UpdatesInv(s) && Enabled(s, step)
    ensures UpdatesInv(Apply(s, step))
  {
    hide SessionOk, RegistryOk, PublishedOk, ReceivedOk, UpdateOk, Apply;
    var s' := Apply(s, step);
    StepKeepsPublished(s, step);
    forall c | 0 <= c < |s'.conns|
      ensures ReceivedOk(s', s'.conns[c]) && UpdateOk(s', c)
    {
      if c < |s.conns| {
        StepKeepsReceived(s, step, c);
        StepKeepsUpdate(s, step, c);
      } else {
        NewConnOk(s, step);
      }
    }
  }

  // ------------------------------------------------------- callback brackets

  /** What a device's callbacks may do next. */
  datatype Bracket = Free | Open(c: nat) | InDisconnect(c: nat) | Broken

  function Transition(b: Bracket, event: Event): Bracket {
    match event
    case Opened(c, _) => if b.Free? then Open(c) else Broken
    case Callback(c, _) => if b == Open(c) then b else Broken
    case DisconnectStarted(c, _) => if b == Open(c) then InDisconnect(c) else Broken
    case DisconnectReturned(c, _) => if b == InDisconnect(c) then Free else Broken
  }

  /** A device's log read from the start; `Broken` once callbacks overlap. */
  function BracketOf(log: seq<Event>, device: string): Bracket {
    if log == [] then Free
    else
      var before, last := BracketOf(log[..|log| - 1], device), log[|log| - 1];
      if last.device == device then Transition(before, last) else before
  }

  function Expected(s: State, device: string): Bracket {
    if device in s.registry.sessions then Open(s.registry.sessions[device])
    else if device in s.registry.disconnecting && s.registry.disconnecting[device] < |s.conns| then
      var c := s.registry.disconnecting[device];
      match s.conns[c].phase
      case Removed => Open(c)
      case Calling => InDisconnect(c)
      case _ => Free
    else Free
  }

  ghost predicate BracketsInv(s: State) {
    forall d :: BracketOf(s.log, d) == Expected(s, d)
  }

  lemma BracketAppend(log: seq<Event>, event: Event, device: string)
    ensures BracketOf(log + [event], device) ==
            if event.device == device then Transition(BracketOf(log, device), event) else BracketOf(log, device)
  {
    assert (log + [event])[..|log|] == log;
  }

  /** The connections that decide the bracket of `d`, and the one that moves. */
  lemma SessionsOf(s: State, c: nat, d: string)
    requires SessionsInv(s)
    ensures c < |s.conns| ==> SessionOk(s, c)
    ensures d in s.registry.sessions ==> d !in s.registry.disconnecting
    ensures d in s.registry.sessions ==>
              var e := s.registry.sessions[d]; e < |s.conns| && s.conns[e].device == d && SessionOk(s, e)
    ensures d in s.registry.disconnecting ==>
              var e := s.registry.disconnecting[d]; e < |s.conns| && s.conns[e].device == d && SessionOk(s, e)
  {
  }

  lemma StepKeepsBracket(s: State, step: Step, d: string)
    requires SessionsInv(s) && Enabled(s, step)
    requires BracketOf(s.log, d) == Expected(s, d)
    ensures BracketOf(Apply(s, step).log, d) == Expected(Apply(s, step), d)
  {
    match step
    case Hello(c) => HelloBracket(s, c, d);
    case Remove(c) => RemoveBracket(s, c, d);
    case Finish(c) => FinishBracket(s, c, d);
    case CallBack(c) => LoggedBracket(s, step, Callback(c, s.conns[c].device), c, d);
    case CallDisconnect(c) => LoggedBracket(s, step, DisconnectStarted(c, s.conns[c].device), c, d);
    case ReturnDisconnect(c) => LoggedBracket(s, step, DisconnectReturned(c, s.conns[c].device), c, d);
    case _ => SilentBracket(s, step, d);
  }

  lemma HelloBracket(s: State, c: nat, d: string)
    requires SessionsInv(s) && Enabled(s, Hello(c))
    requires BracketOf(s.log, d) == Expected(s, d)
    ensures BracketOf(Apply(s, Hello(c)).log, d) == Expected(Apply(s, Hello(c)), d)
  {
    hide BracketOf, RegistryOk;
    BracketAppend(s.log, Opened(c, s.conns[c].device), d);
    SessionsOf(s, c, d);
  }

  lemma RemoveBracket(s: State, c: nat, d: string)
    requires SessionsInv(s) && Enabled(s, Remove(c))
    requires BracketOf(s.log, d) == Expected(s, d)
    ensures BracketOf(Apply(s, Remove(c)).log, d) == Expected(Apply(s, Remove(c)), d)
  {
    hide BracketOf, RegistryOk;
    SessionsOf(s, c, d);
  }

  lemma FinishBracket(s: State, c: nat, d: string)
    requires SessionsInv(s) && Enabled(s, Finish(c))
    requires BracketOf(s.log, d) == Expected(s, d)
    ensures BracketOf(Apply(s, Finish(c)).log, d) == Expected(Apply(s, Finish(c)), d)
  {
    hide BracketOf, RegistryOk;
    SessionsOf(s, c, d);
  }

  lemma LoggedBracket(s: State, step: Step, event: Event, c: nat, d: string)
    requires SessionsInv(s) && Enabled(s, step)
    requires BracketOf(s.log, d) == Expected(s, d) && c < |s.conns|
    requires (step == CallBack(c) && event == Callback(c, s.conns[c].device))
          || (step == CallDisconnect(c) && event == DisconnectStarted(c, s.conns[c].device))
          || (step == ReturnDisconnect(c) && event == DisconnectReturned(c, s.conns[c].device))
    ensures BracketOf(Apply(s, step).log, d) == Expected(Apply(s, step), d)
  {
    hide BracketOf, RegistryOk;
    BracketAppend(s.log, event, d);
    SessionsOf(s, c, d);
  }

  lemma SilentBracket(s: State, step: Step, d: string)
    requires SessionsInv(s) && Enabled(s, step)
    requires Quiet(step) && !step.CallBack? && !step.CallDisconnect? && !step.ReturnDisconnect?
    requires BracketOf(s.log, d) == Expected(s, d)
    ensures BracketOf(Apply(s, step).log, d) == Expected(Apply(s, step), d)
  {
    hide BracketOf, RegistryOk;
    SessionsOf(s, 0, d);
  }

  // ---------------------------------------------------------------- all runs

  ghost predicate Inv(s: State) {
    SessionsInv(s) && UpdatesInv(s) && BracketsInv(s)
  }

  lemma StepKeepsInv(s: State, step: Step)
    requires Inv(s) && Enabled(s, step)
    ensures Inv(Apply(s, step))
  {
    hide UpdatesInv, Apply, SessionOk, Expected, BracketOf;
    var s' := Apply(s, step);
    StepKeepsSessions(s, step);
    StepKeepsUpdates(s, step);
    forall d
      ensures BracketOf(s'.log, d) == Expected(s', d)
    {
      StepKeepsBracket(s, step, d);
    }
  }

  lemma StartInv()
    ensures Inv(START)
  {
  }

  lemma {:induction false} RunKeepsInv(run: seq<State>, i: nat)
    requires IsRun(run) && i < |run|
    ensures Inv(run[i])
  {
    hide Inv, Enabled, Apply;
    if i == 0 {
      StartInv();
    } else {
      RunKeepsInv(run, i - 1);
      assert Next(run[i - 1], run[i]);
      var step :| Enabled(run[i - 1], step) && run[i] == Apply(run[i - 1], step);
      StepKeepsInv(run[i - 1], step);
    }
  }

  // ------------------------------------------------------------- consequences

  /**
    A live session that is behind will be woken, or is about to look by itself;
    and the generations it has received strictly increase.
  */
  lemma NoLostUpdate(run: seq<State>, i: nat, c: nat)
    requires IsRun(run) && i < |run| && c < |run[i].conns|
    requires Live(run[i].conns[c]) && !run[i].registry.closed && !run[i].conns[c].phase.Leaving?
    requires run[i].conns[c].sent < run[i].registry.generation
    ensures var s, conn := run[i], run[i].conns[c];
            || WakeUpDue(s, c)
            || conn.phase.Checking?
            || (conn.phase.Writing? && conn.phase.generation == s.registry.generation)
    ensures ReceivedOk(run[i], run[i].conns[c])
  {
    RunKeepsInv(run, i);
    var s := run[i];
    assert UpdateOk(s, c) && ReceivedOk(s, s.conns[c]);
    if s.conns[c].phase.Writing? {
      assert IsPublished(s, s.conns[c].phase.generation, s.conns[c].phase.document);
    }
  }

  /** Once nothing is under way, a waiting session has the newest document. */
  lemma QuiescentSessionIsCurrent(run: seq<State>, i: nat, c: nat)
    requires IsRun(run) && i < |run| && In(run[i], c, Waiting) && !run[i].registry.closed
    requires !WakeUpDue(run[i], c)
    ensures var s, received := run[i], run[i].conns[c].received;
            && s.conns[c].sent == |s.published|
            && (s.published != [] ==>
                  received != [] && received[|received| - 1] == (|s.published|, s.published[|s.published| - 1]))
  {
    RunKeepsInv(run, i);
    var s := run[i];
    assert SessionOk(s, c) && UpdateOk(s, c) && ReceivedOk(s, s.conns[c]);
    var received := s.conns[c].received;
    if received != [] {
      assert IsPublished(s, received[|received| - 1].0, received[|received| - 1].1);
    }
  }

  /** No connection of the device has a session or a disconnect that has not finished. */
  predicate NobodyThere(s: State, device: string) {
    forall e :: 0 <= e < |s.conns| && s.conns[e].device == device ==> !Live(s.conns[e]) && !Departing(s.conns[e])
  }

  lemma DeviceIsFree(s: State, device: string)
    requires SessionsInv(s)
    ensures NobodyThere(s, device) <==> device !in s.registry.sessions && device !in s.registry.disconnecting
  {
    if device in s.registry.sessions {
      var e := s.registry.sessions[device];
      assert SessionOk(s, e) && Live(s.conns[e]);
    }
    if device in s.registry.disconnecting {
      var e := s.registry.disconnecting[device];
      assert SessionOk(s, e) && Departing(s.conns[e]);
    }
    forall e | 0 <= e < |s.conns| && s.conns[e].device == device
      ensures Live(s.conns[e]) ==> device in s.registry.sessions
      ensures Departing(s.conns[e]) ==> device in s.registry.disconnecting
    {
      assert SessionOk(s, e);
    }
  }

  /** Exactly when a Deck that says hello gets its session. */
  lemma HelloIsGranted(run: seq<State>, i: nat, c: nat)
    requires IsRun(run) && i < |run| && Enabled(run[i], Hello(c))
    ensures Live(Apply(run[i], Hello(c)).conns[c])
            <==> !run[i].registry.closed && NobodyThere(run[i], run[i].conns[c].device)
  {
    hide SessionOk, RegistryOk, NobodyThere, UpdatesInv, BracketsInv;
    RunKeepsInv(run, i);
    DeviceIsFree(run[i], run[i].conns[c].device);
    Greets(run[i], c);
  }

  lemma Greets(s: State, c: nat)
    requires SessionsInv(s) && In(s, c, Greeting)
    ensures !s.conns[c].reserved
  {
    assert SessionOk(s, c);
  }

  /** A session that looks while it is behind is sent the newest document and then has received it. */
  lemma LookingDelivers(run: seq<State>, i: nat, c: nat)
    requires IsRun(run) && i < |run| && In(run[i], c, Checking) && !run[i].registry.closed
    requires run[i].conns[c].sent < run[i].registry.generation
    ensures var s := run[i];
            var reading := Apply(s, Read(c));
            && Enabled(reading, Written(c, true))
            && var conn := Apply(reading, Written(c, true)).conns[c];
               && conn.phase == Waiting && conn.sent == |s.published|
               && conn.received == s.conns[c].received + [(|s.published|, s.published[|s.published| - 1])]
  {
    RunKeepsInv(run, i);
  }

  /** Once its disconnect has been called and has returned, the device is free for a new connection. */
  lemma DeviceBecomesFree(run: seq<State>, i: nat, c: nat)
    requires IsRun(run) && i < |run| && In(run[i], c, Leaving) && Live(run[i].conns[c])
    ensures var device := run[i].conns[c].device;
            var removed := Apply(run[i], Remove(c));
            && Enabled(removed, CallDisconnect(c))
            && var calling := Apply(removed, CallDisconnect(c));
               && Enabled(calling, ReturnDisconnect(c)) && Enabled(Apply(calling, ReturnDisconnect(c)), Finish(c))
               && var after := Apply(Apply(calling, ReturnDisconnect(c)), Finish(c));
                  device !in after.registry.sessions && device !in after.registry.disconnecting
  {
    RunKeepsInv(run, i);
    assert SessionOk(run[i], c);
  }

  /** One session a Device ID, and a wake-up channel for exactly the sessions. */
  lemma SessionsAreUnique(run: seq<State>, i: nat, b: nat, c: nat)
    requires IsRun(run) && i < |run| && b < |run[i].conns| && c < |run[i].conns|
    ensures var s := run[i];
            && (Live(s.conns[b]) && Live(s.conns[c]) && s.conns[b].device == s.conns[c].device ==> b == c)
            && (c in s.registry.signals <==> Live(s.conns[c]))
            && s.registry.accepted == s.registry.disconnections + |s.registry.sessions|
  {
    RunKeepsInv(run, i);
    assert SessionOk(run[i], b) && SessionOk(run[i], c);
  }

  /**
    OnDisconnect runs exactly once for each accepted session, and the callbacks
    of a device never overlap: none of a newer connection comes before the
    previous OnDisconnect has returned.
  */
  lemma CallbacksAreBracketed(run: seq<State>, i: nat, c: nat, device: string)
    requires IsRun(run) && i < |run| && c < |run[i].conns|
    ensures !BracketOf(run[i].log, device).Broken?
    ensures var conn := run[i].conns[c];
            conn.disconnects <= 1 && (conn.phase.Gone? ==> conn.disconnects == if conn.reserved then 1 else 0)
  {
    RunKeepsInv(run, i);
    assert SessionOk(run[i], c);
    assert BracketOf(run[i].log, device) == Expected(run[i], device);
  }
}
