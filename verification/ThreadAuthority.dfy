/**
  Verified-session authority of `collector.go`. `Core` holds the fields guarded
  by the collector's mutex; `State` adds the supervisor, which runs one
  connection at a time, and the `LoadThread` calls, which may outlive theirs.
*/
module ThreadAuthority {
  import opened Wrappers
  import opened Ordering

  const MAXIMUM_THREAD_ID_BYTES := 512
  const MAXIMUM_OWNED_THREADS := 16

  datatype Error = InvalidThreadId | Unavailable | ThreadLimit | ProcessExited | SchemaChanged

  datatype SessionState = Running | WaitingApproval | WaitingInput | Completed | Failed

  /** `id` stands for the anonymized thread ID, which is injective. */
  datatype Session = Session(id: string, state: SessionState, lastActivity: int)

  // ----------------------------------------------------------- thread status

  datatype ThreadStatus = ThreadStatus(kind: string, activeFlags: Option<seq<string>>)

  function FlagState(flags: seq<string>, state: SessionState): Result<SessionState, Error> {
    if flags == [] then Success(state)
    else if flags[0] == "waitingOnApproval" then Success(WaitingApproval)
    else if flags[0] == "waitingOnUserInput" then FlagState(flags[1..], WaitingInput)
    else Failure(SchemaChanged)
  }

  function NormalizeThreadState(status: ThreadStatus): Result<SessionState, Error> {
    if status.kind == "active" then
      if status.activeFlags.None? then Failure(SchemaChanged) else FlagState(status.activeFlags.value, Running)
    else if status.kind == "idle" then
      if status.activeFlags.Some? then Failure(SchemaChanged) else Success(Completed)
    else if status.kind == "systemError" then
      if status.activeFlags.Some? then Failure(SchemaChanged) else Success(Failed)
    else Failure(SchemaChanged)
  }

  /** The first flag that does not wait for user input. */
  predicate Decides(flags: seq<string>, i: nat) {
    i < |flags| && flags[i] != "waitingOnUserInput" && forall j :: 0 <= j < i ==> flags[j] == "waitingOnUserInput"
  }

  /** That flag alone decides, whatever follows it; without one, waiting for input or running. */
  ghost predicate Classified(flags: seq<string>, r: Result<SessionState, Error>) {
    && (forall i: nat :: Decides(flags, i) ==>
          r == if flags[i] == "waitingOnApproval" then Success(WaitingApproval) else Failure(SchemaChanged))
    && ((forall i: nat :: !Decides(flags, i)) ==> r == Success(if flags == [] then Running else WaitingInput))
  }

  lemma {:induction false} FlagStateIsClassified(flags: seq<string>)
    ensures Classified(flags, FlagState(flags, Running))
    ensures flags != [] ==> Classified(flags, FlagState(flags, WaitingInput))
  {
    if flags != [] && flags[0] == "waitingOnUserInput" {
      FlagStateIsClassified(flags[1..]);
      forall i: nat
        ensures Decides(flags, i) <==> i > 0 && Decides(flags[1..], i - 1)
      {
        DecidesLater(flags, i);
      }
      if forall i: nat :: !Decides(flags, i) {
        forall i: nat
          ensures !Decides(flags[1..], i)
        {
          DecidesLater(flags, i + 1);
        }
      }
    } else if flags != [] {
      assert Decides(flags, 0);
    }
  }

  lemma DecidesLater(flags: seq<string>, i: nat)
    requires flags != [] && flags[0] == "waitingOnUserInput"
    ensures Decides(flags, i) <==> i > 0 && Decides(flags[1..], i - 1)
  {
    if i > 0 && Decides(flags[1..], i - 1) {
      forall j | 0 <= j < i
        ensures flags[j] == "waitingOnUserInput"
      {
        assert j > 0 ==> flags[j] == flags[1..][j - 1];
      }
    }
  }

  /** The loop of `normalizeThreadState`. */
  method NormalizeFlags(flags: seq<string>) returns (r: Result<SessionState, Error>)
    ensures Classified(flags, r)
    ensures r == FlagState(flags, Running)
  {
    FlagStateIsClassified(flags);
    var state := Running;
    for i := 0 to |flags|
      invariant FlagState(flags, Running) == FlagState(flags[i..], state)
    {
      if flags[i] == "waitingOnApproval" {
        return Success(WaitingApproval);
      } else if flags[i] == "waitingOnUserInput" {
        state := WaitingInput;
      } else {
        return Failure(SchemaChanged);
      }
    }
    r := Success(state);
  }

  /** What each kind of status means; every other combination is refused. */
  lemma StatusMeans(status: ThreadStatus)
    ensures var r := NormalizeThreadState(status);
            && (r == Success(Completed) <==> status == ThreadStatus("idle", None))
            && (r == Success(Failed) <==> status == ThreadStatus("systemError", None))
            && (r.Success? && r.value != Completed && r.value != Failed ==> status.kind == "active" && status.activeFlags.Some?)
            && (r.Failure? ==> r.error == SchemaChanged)
    ensures status.kind == "active" && status.activeFlags.Some? ==>
              Classified(status.activeFlags.value, NormalizeThreadState(status))
  {
    hide Classified, Decides;
    if status.activeFlags.Some? {
      FlagStateIsClassified(status.activeFlags.value);
      OnlyActive(status.activeFlags.value, Running);
    }
  }

  lemma {:induction false} OnlyActive(flags: seq<string>, state: SessionState)
    requires state == Running || state == WaitingInput
    ensures var r := FlagState(flags, state);
            if r.Success? then r.value in [Running, WaitingInput, WaitingApproval] else r.error == SchemaChanged
  {
    if flags != [] {
      OnlyActive(flags[1..], WaitingInput);
    }
  }

  // -------------------------------------------------------- critical sections

  /** Clients are numbered; every connection gets a new one. */
  datatype Core = Core(client: Option<nat>, owned: set<string>, pending: map<string, nat>,
                       sessions: map<string, Session>)

  const EMPTY := Core(None, {}, map[], map[])

  datatype LoadStart = Refused(error: Error) | AlreadyOwned | Started(client: nat)

  function ValidThreadId(thread: string): bool {
    0 < |thread| <= MAXIMUM_THREAD_ID_BYTES
  }

  function StartLoad(c: Core, thread: string): (Core, LoadStart) {
    if !ValidThreadId(thread) then (c, Refused(InvalidThreadId))
    else if c.client.None? then (c, Refused(Unavailable))
    else if thread in c.owned then (c, AlreadyOwned)
    else if thread in c.pending then (c, Refused(Unavailable))
    else if |c.owned| + |c.pending| >= MAXIMUM_OWNED_THREADS then (c, Refused(ThreadLimit))
    else (c.(pending := c.pending[thread := c.client.value]), Started(c.client.value))
  }

  function DropPending(c: Core, thread: string, client: nat): Core {
    if thread in c.pending && c.pending[thread] == client then c.(pending := c.pending - {thread}) else c
  }

  function CommitLoad(c: Core, thread: string, client: nat): (Core, bool) {
    if c.client != Some(client) then (c, false)
    else (DropPending(c.(owned := c.owned + {thread}), thread, client), true)
  }

  function Cleared(c: Core): Core {
    c.(owned := {}, pending := map[], sessions := map[])
  }

  function TearDown(c: Core, client: nat): Core {
    Cleared(if c.client == Some(client) then c.(client := None) else c)
  }

  datatype StatusResult = Ignored | Rejected(error: Error) | Changed(published: bool)

  function AcceptStatus(c: Core, thread: string, status: ThreadStatus, now: int): (Core, StatusResult) {
    if thread == "" then (c, Rejected(SchemaChanged))
    else if thread !in c.owned then (c, Ignored)
    else if status.kind == "notLoaded" then
      if status.activeFlags.Some? then (c, Rejected(SchemaChanged))
      else (c.(owned := c.owned - {thread}, sessions := c.sessions - {thread}), Changed(thread in c.sessions))
    else
      var state := NormalizeThreadState(status);
      if state.Failure? then (c, Rejected(state.error))
      else (c.(sessions := c.sessions[thread := Session(thread, state.value, now)]), Changed(true))
  }

  class Collector {
    var client: Option<nat>
    var ownedThreads: set<string>
    var pendingLoads: map<string, nat>
    var sessions: map<string, Session>

    function View(): Core
      reads this
    {
      Core(client, ownedThreads, pendingLoads, sessions)
    }

    constructor ()
      ensures View() == EMPTY
    {
      client, ownedThreads, pendingLoads, sessions := None, {}, map[], map[];
    }

    /** `LoadThread` up to its first unlock. */
    method Begin(thread: string) returns (r: LoadStart)
      modifies `pendingLoads
      ensures (View(), r) == StartLoad(old(View()), thread)
      ensures r == Refused(InvalidThreadId) <==> |thread| == 0 || |thread| > 512
      ensures r == AlreadyOwned <==> 0 < |thread| <= 512 && client.Some? && thread in ownedThreads
      ensures r.Started? <==>
                && 0 < |thread| <= 512 && client.Some? && thread !in ownedThreads && thread !in old(pendingLoads)
                && |ownedThreads| + |old(pendingLoads)| < 16
      ensures r == Refused(ThreadLimit) <==>
                && 0 < |thread| <= 512 && client.Some? && thread !in ownedThreads && thread !in old(pendingLoads)
                && |ownedThreads| + |old(pendingLoads)| >= 16
      ensures if r.Started? then Some(r.client) == client && pendingLoads == old(pendingLoads)[thread := r.client]
              else pendingLoads == old(pendingLoads)
    {
      if |thread| == 0 || |thread| > MAXIMUM_THREAD_ID_BYTES {
        return Refused(InvalidThreadId);
      }
      if client.None? {
        return Refused(Unavailable);
      }
      if thread in ownedThreads {
        return AlreadyOwned;
      }
      if thread in pendingLoads {
        return Refused(Unavailable);
      }
      if |ownedThreads| + |pendingLoads| >= MAXIMUM_OWNED_THREADS {
        return Refused(ThreadLimit);
      }
      pendingLoads := pendingLoads[thread := client.value];
      r := Started(client.value);
    }

    /** The last section of `LoadThread`, after a valid response. */
    method Commit(thread: string, loader: nat) returns (ok: bool)
      modifies `ownedThreads, `pendingLoads
      ensures (View(), ok) == CommitLoad(old(View()), thread, loader)
      ensures ok <==> client == Some(loader)
      ensures ownedThreads == if ok then old(ownedThreads) + {thread} else old(ownedThreads)
      ensures pendingLoads == if ok && thread in old(pendingLoads) && old(pendingLoads)[thread] == loader
                              then old(pendingLoads) - {thread} else old(pendingLoads)
    {
      if client != Some(loader) {
        return false;
      }
      ownedThreads := ownedThreads + {thread};
      if thread in pendingLoads && pendingLoads[thread] == loader {
        pendingLoads := pendingLoads - {thread};
      }
      ok := true;
    }

    /** The deferred section of `LoadThread`. */
    method End(thread: string, loader: nat)
      modifies `pendingLoads
      ensures View() == DropPending(old(View()), thread, loader)
      ensures pendingLoads == if thread in old(pendingLoads) && old(pendingLoads)[thread] == loader
                              then old(pendingLoads) - {thread} else old(pendingLoads)
    {
      if thread in pendingLoads && pendingLoads[thread] == loader {
        pendingLoads := pendingLoads - {thread};
      }
    }

    method Activate(connected: nat)
      modifies `client
      ensures View() == old(View()).(client := Some(connected)) && client == Some(connected)
    {
      client := Some(connected);
    }

    /** The deferred section of `runConnection`. */
    method Close(closing: nat)
      modifies this
      ensures View() == TearDown(old(View()), closing)
      ensures client == if old(client) == Some(closing) then None else old(client)
      ensures ownedThreads == {} && pendingLoads == map[] && sessions == map[]
    {
      if client == Some(closing) {
        client := None;
      }
      ownedThreads := {};
      pendingLoads := map[];
      sessions := map[];
    }

    /** `acceptStatus`: an unload ends ownership, any other status of an owned thread replaces its session. */
    method Status(thread: string, status: ThreadStatus, now: int) returns (r: StatusResult)
      modifies `ownedThreads, `sessions
      ensures (View(), r) == AcceptStatus(old(View()), thread, status, now)
      ensures r.Ignored? <==> thread != "" && thread !in old(ownedThreads)
      ensures r.Rejected? <==>
                || thread == ""
                || (thread in old(ownedThreads)
                    && if status.kind == "notLoaded" then status.activeFlags.Some? else NormalizeThreadState(status).Failure?)
      ensures !r.Changed? ==> ownedThreads == old(ownedThreads) && sessions == old(sessions)
      ensures r.Changed? && status.kind == "notLoaded" ==>
                && ownedThreads == old(ownedThreads) - {thread} && sessions == old(sessions) - {thread}
                && r.published == (thread in old(sessions))
      ensures r.Changed? && status.kind != "notLoaded" ==>
                && r.published && ownedThreads == old(ownedThreads) && NormalizeThreadState(status).Success?
                && sessions == old(sessions)[thread := Session(thread, NormalizeThreadState(status).value, now)]
    {
      if thread == "" {
        return Rejected(SchemaChanged);
      }
      if thread !in ownedThreads {
        return Ignored;
      }
      if status.kind == "notLoaded" {
        if status.activeFlags.Some? {
          return Rejected(SchemaChanged);
        }
        r := Changed(thread in sessions);
        ownedThreads := ownedThreads - {thread};
        sessions := sessions - {thread};
        return;
      }
      var state := NormalizeThreadState(status);
      if state.Failure? {
        return Rejected(state.error);
      }
      sessions := sessions[thread := Session(thread, state.value, now)];
      r := Changed(true);
    }
  }

  // -------------------------------------------------------------- goroutines

  datatype LoadPhase = Calling | Answered | Ending | Finished

  datatype Load = Load(thread: string, client: nat, phase: LoadPhase)

  datatype Supervisor = Idle | Initializing(client: nat) | Active(client: nat) | Closing(client: nat)

  datatype Event = Loaded(thread: string, client: nat) | Unloaded(thread: string) | ConnectionEnded

  /** `log` records what happened, so that authority can be read off it. */
  datatype State = State(core: Core, supervisor: Supervisor, loads: seq<Load>, clients: nat, log: seq<Event>)

  datatype Step =
    | Start(thread: string)
    | Answer(k: nat, valid: bool)
    | Commit(k: nat)
    | End(k: nat)
    | Connect
    | Initialize(ok: bool)
    | Notify(thread: string, status: ThreadStatus, now: int)
    | Leave
    | Close

  const START := State(EMPTY, Idle, [], 0, [])

  predicate Enabled(s: State, step: Step) {
    match step
    case Start(_) => true
    case Answer(k, _) => k < |s.loads| && s.loads[k].phase == Calling
    case Commit(k) => k < |s.loads| && s.loads[k].phase == Answered
    case End(k) => k < |s.loads| && s.loads[k].phase == Ending
    case Connect => s.supervisor.Idle?
    case Initialize(_) => s.supervisor.Initializing?
    case Notify(_, _, _) => s.supervisor.Active?
    case Leave => s.supervisor.Active?
    case Close => s.supervisor.Closing?
  }

  function At(s: State, k: nat, phase: LoadPhase): State
    requires k < |s.loads|
  {
    s.(loads := s.loads[k := s.loads[k].(phase := phase)])
  }

  function Apply(s: State, step: Step): State
    requires Enabled(s, step)
  {
    match step
    case Start(thread) =>
      var (core, r) := StartLoad(s.core, thread);
      if r.Started? then s.(core := core, loads := s.loads + [Load(thread, r.client, Calling)]) else s
    case Answer(k, valid) => At(s, k, if valid then Answered else Ending)
    case Commit(k) =>
      var (core, ok) := CommitLoad(s.core, s.loads[k].thread, s.loads[k].client);
      var s' := At(s, k, Ending).(core := core);
      if ok then s'.(log := s.log + [Loaded(s.loads[k].thread, s.loads[k].client)]) else s'
    case End(k) => At(s, k, Finished).(core := DropPending(s.core, s.loads[k].thread, s.loads[k].client))
    case Connect => s.(supervisor := Initializing(s.clients), clients := s.clients + 1)
    case Initialize(ok) =>
      var client := s.supervisor.client;
      if ok then s.(supervisor := Active(client), core := s.core.(client := Some(client)))
      else s.(supervisor := Closing(client))
    case Notify(thread, status, now) =>
      var (core, r) := AcceptStatus(s.core, thread, status, now);
      var s' := s.(core := core);
      if r.Rejected? then s'.(supervisor := Closing(s.supervisor.client))
      else if r.Changed? && status.kind == "notLoaded" then s'.(log := s.log + [Unloaded(thread)])
      else s'
    case Leave => s.(supervisor := Closing(s.supervisor.client))
    case Close =>
      s.(supervisor := Idle, core := TearDown(s.core, s.supervisor.client), log := s.log + [ConnectionEnded])
  }

  ghost predicate Next(s: State, s': State) {
    exists step :: Enabled(s, step) && s' == Apply(s, step)
  }

  ghost predicate IsRun(run: seq<State>) {
    && run != [] && run[0] == START
    && forall i :: 0 <= i < |run| - 1 ==> Next(run[i], run[i + 1])
  }

  // --------------------------------------------------------------- invariant

  /** Loaded through `client` and, since then, neither unloaded nor disconnected. */
  predicate Authority(log: seq<Event>, thread: string, client: nat) {
    log != [] &&
    var front := log[..|log| - 1];
    match log[|log| - 1]
    case Loaded(t, c) => (t == thread && c == client) || Authority(front, thread, client)
    case Unloaded(t) => t != thread && Authority(front, thread, client)
    case ConnectionEnded => false
  }

  /** The collector's fields fit together and belong to the open connection. */
  predicate CoreOk(s: State) {
    && (s.core.client.Some? ==>
          s.supervisor == Active(s.core.client.value) || s.supervisor == Closing(s.core.client.value))
    && (s.supervisor.Active? ==> s.core.client == Some(s.supervisor.client))
    && (s.core.client.None? ==> s.core == EMPTY)
    && (forall t :: t in s.core.pending ==> s.core.client == Some(s.core.pending[t]))
    && s.core.owned !! s.core.pending.Keys
    && s.core.sessions.Keys <= s.core.owned
  }

  /** Client numbers are new when a connection is opened. */
  predicate ClientsOk(s: State) {
    && (!s.supervisor.Idle? ==> s.supervisor.client < s.clients)
    && (forall k :: 0 <= k < |s.loads| ==> s.loads[k].client < s.clients)
    && (s.supervisor.Initializing? ==> forall k :: 0 <= k < |s.loads| ==> s.loads[k].client != s.supervisor.client)
  }

  predicate LogOk(s: State) {
    forall t :: t in s.core.owned ==> s.core.client.Some? && Authority(s.log, t, s.core.client.value)
  }

  predicate Inv(s: State) {
    CoreOk(s) && ClientsOk(s) && LogOk(s)
  }

  lemma AuthorityAppend(log: seq<Event>, event: Event, thread: string, client: nat)
    ensures Authority(log + [event], thread, client) ==
            match event
            case Loaded(t, c) => (t == thread && c == client) || Authority(log, thread, client)
            case Unloaded(t) => t != thread && Authority(log, thread, client)
            case ConnectionEnded => false
  {
    assert (log + [event])[..|log|] == log;
  }

  lemma StepKeepsCore(s: State, step: Step)
    requires CoreOk(s) && Enabled(s, step)
    ensures CoreOk(Apply(s, step))
  {
    hide NormalizeThreadState;
  }

  lemma StepKeepsClients(s: State, step: Step)
    requires CoreOk(s) && ClientsOk(s) && Enabled(s, step)
    ensures ClientsOk(Apply(s, step))
  {
    hide NormalizeThreadState, CommitLoad, DropPending, AcceptStatus, TearDown;
  }

  lemma StepKeepsLog(s: State, step: Step)
    requires CoreOk(s) && LogOk(s) && Enabled(s, step)
    ensures LogOk(Apply(s, step))
  {
    hide Authority, NormalizeThreadState;
    var s' := Apply(s, step);
    if s'.log != s.log {
      forall t | t in s'.core.owned
        ensures s'.core.client.Some? && Authority(s'.log, t, s'.core.client.value)
      {
        AuthorityAppend(s.log, s'.log[|s.log|], t, s'.core.client.value);
      }
    }
  }

  lemma StepKeepsInv(s: State, step: Step)
    requires Inv(s) && Enabled(s, step)
    ensures Inv(Apply(s, step))
  {
    hide CoreOk, ClientsOk, LogOk, Apply;
    StepKeepsCore(s, step);
    StepKeepsClients(s, step);
    StepKeepsLog(s, step);
  }

  lemma {:induction false} RunKeepsInv(run: seq<State>, i: nat)
    requires IsRun(run) && i < |run|
    ensures Inv(run[i])
  {
    if i > 0 {
      RunKeepsInv(run, i - 1);
      assert Next(run[i - 1], run[i]);
      var step :| Enabled(run[i - 1], step) && run[i] == Apply(run[i - 1], step);
      StepKeepsInv(run[i - 1], step);
    }
  }

  // ------------------------------------------------------------ consequences

  /**
    Every published session belongs to a thread loaded through the connection
    that is open now and not unloaded since; owned and pending never overlap.
  */
  lemma PublishedSessionsAreVerified(run: seq<State>, i: nat)
    requires IsRun(run) && i < |run|
    ensures var s := run[i];
            && s.core.owned !! s.core.pending.Keys
            && forall t :: t in s.core.sessions ==>
                 s.core.client.Some? && Authority(s.log, t, s.core.client.value)
  {
    RunKeepsInv(run, i);
  }

  /** A load that outlives its connection changes nothing any more. */
  lemma StaleLoadIsHarmless(run: seq<State>, i: nat, k: nat)
    requires IsRun(run) && i < |run| && k < |run[i].loads|
    requires run[i].core.client != Some(run[i].loads[k].client)
    ensures Enabled(run[i], Commit(k)) ==> Apply(run[i], Commit(k)).core == run[i].core
                                           && Apply(run[i], Commit(k)).log == run[i].log
    ensures Enabled(run[i], End(k)) ==> Apply(run[i], End(k)).core == run[i].core
  {
    RunKeepsInv(run, i);
  }

  // ------------------------------------------------------ the limit of sixteen

  function Total(c: Core): nat {
    |c.owned| + |c.pending|
  }

  /** A load that commits although its entry is gone, while everything is taken. */
  predicate Overflows(s: State, step: Step)
    requires Enabled(s, step)
  {
    && step.Commit? && s.core.client == Some(s.loads[step.k].client)
    && s.loads[step.k].thread !in s.core.owned && s.loads[step.k].thread !in s.core.pending
    && Total(s.core) == MAXIMUM_OWNED_THREADS
  }

  lemma RemoveKey<K, V>(m: map<K, V>, k: K)
    ensures |m - {k}| == if k in m then |m| - 1 else |m|
  {
    var rest := m - {k};
    assert rest.Keys == m.Keys - {k};
    assert |rest| == |rest.Keys| && |m| == |m.Keys|;
  }

  lemma InsertKey<K, V>(m: map<K, V>, k: K, v: V)
    ensures |m[k := v]| == if k in m then |m| else |m| + 1
  {
    var longer := m[k := v];
    assert longer.Keys == m.Keys + {k};
    assert |longer| == |longer.Keys| && |m| == |m.Keys|;
  }

  /** The limit survives a step exactly when the step is not such a commit. */
  lemma LimitSurvivesExactly(s: State, step: Step)
    requires CoreOk(s) && Enabled(s, step) && Total(s.core) <= MAXIMUM_OWNED_THREADS
    ensures Total(Apply(s, step).core) <= MAXIMUM_OWNED_THREADS <==> !Overflows(s, step)
  {
    if step.Commit? {
      CommitTotal(s.core, s.loads[step.k].thread, s.loads[step.k].client);
    } else {
      OtherStepsKeepLimit(s, step);
    }
  }

  lemma CommitTotal(c: Core, thread: string, client: nat)
    requires c.owned !! c.pending.Keys && forall t :: t in c.pending ==> c.client == Some(c.pending[t])
    ensures var c' := CommitLoad(c, thread, client).0;
            Total(c') == Total(c) + (if c.client == Some(client) && thread !in c.owned && thread !in c.pending
                                     then 1 else 0)
  {
    RemoveKey(c.pending, thread);
    if thread in c.owned {
      assert c.owned + {thread} == c.owned;
      assert thread !in c.pending.Keys;
    }
  }

  lemma OtherStepsKeepLimit(s: State, step: Step)
    requires Enabled(s, step) && !step.Commit? && Total(s.core) <= MAXIMUM_OWNED_THREADS
    ensures Total(Apply(s, step).core) <= MAXIMUM_OWNED_THREADS
  {
    hide NormalizeThreadState;
    if step.Start? && s.core.client.Some? {
      InsertKey(s.core.pending, step.thread, s.core.client.value);
    }
    if step.End? {
      RemoveKey(s.core.pending, s.loads[step.k].thread);
    }
  }

  /** `LoadThread` starts for a thread only after its previous call has returned. */
  predicate Serial(s: State, step: Step) {
    step.Start? ==> forall k :: 0 <= k < |s.loads| && s.loads[k].thread == step.thread ==> s.loads[k].phase == Finished
  }

  ghost predicate SerialNext(s: State, s': State) {
    exists step :: Enabled(s, step) && Serial(s, step) && s' == Apply(s, step)
  }

  ghost predicate IsSerialRun(run: seq<State>) {
    && run != [] && run[0] == START
    && forall i :: 0 <= i < |run| - 1 ==> SerialNext(run[i], run[i + 1])
  }

  predicate Loading(s: State, k: nat)
    requires k < |s.loads|
  {
    s.core.client == Some(s.loads[k].client) && (s.loads[k].phase == Calling || s.loads[k].phase == Answered)
  }

  /** At most one unfinished call a thread. */
  predicate OneCallEach(s: State) {
    forall j, k :: 0 <= j < k < |s.loads| && s.loads[j].thread == s.loads[k].thread ==>
      s.loads[j].phase == Finished || s.loads[k].phase == Finished
  }

  /** A call that is still loading has its entry. */
  predicate HasEntry(s: State, k: nat)
    requires k < |s.loads|
  {
    Loading(s, k) ==> s.loads[k].thread in s.core.pending
  }

  predicate EntriesOk(s: State) {
    OneCallEach(s) && forall k :: 0 <= k < |s.loads| ==> HasEntry(s, k)
  }

  lemma SerialStepKeepsOneCall(s: State, step: Step)
    requires OneCallEach(s) && Enabled(s, step) && Serial(s, step)
    ensures OneCallEach(Apply(s, step))
  {
    hide NormalizeThreadState, CommitLoad, DropPending, AcceptStatus, TearDown;
  }

  lemma SerialStepKeepsEntry(s: State, step: Step, k: nat)
    requires CoreOk(s) && ClientsOk(s) && OneCallEach(s) && Enabled(s, step) && Serial(s, step)
    requires k < |s.loads| && HasEntry(s, k)
    ensures k < |Apply(s, step).loads| && HasEntry(Apply(s, step), k)
  {
    hide NormalizeThreadState, CommitLoad, DropPending, AcceptStatus, TearDown;
    match step
    case Commit(j) =>
      CommitEffect(s.core, s.loads[j].thread, s.loads[j].client);
      if j != k {
        SameThread(s, j, k);
      }
    case End(j) =>
      DropEffect(s.core, s.loads[j].thread, s.loads[j].client);
      if j != k {
        SameThread(s, j, k);
      }
    case Notify(thread, status, now) => AcceptEffect(s.core, thread, status, now);
    case Close => TearDownEffect(s.core, s.supervisor.client);
    case _ =>
  }

  lemma SameThread(s: State, j: nat, k: nat)
    requires OneCallEach(s) && j < |s.loads| && k < |s.loads| && j != k
    ensures s.loads[j].thread == s.loads[k].thread ==> s.loads[j].phase == Finished || s.loads[k].phase == Finished
  {
  }

  lemma DropEffect(c: Core, thread: string, client: nat)
    ensures var c' := DropPending(c, thread, client);
            c'.client == c.client && c'.owned == c.owned && c.pending.Keys - {thread} <= c'.pending.Keys
  {
  }

  lemma CommitEffect(c: Core, thread: string, client: nat)
    ensures var c' := CommitLoad(c, thread, client).0;
            c'.client == c.client && c.pending.Keys - {thread} <= c'.pending.Keys
  {
    DropEffect(c.(owned := c.owned + {thread}), thread, client);
  }

  lemma AcceptEffect(c: Core, thread: string, status: ThreadStatus, now: int)
    ensures var c' := AcceptStatus(c, thread, status, now).0;
            c'.client == c.client && c'.pending == c.pending
  {
  }

  lemma TearDownEffect(c: Core, client: nat)
    ensures TearDown(c, client).client == if c.client == Some(client) then None else c.client
    ensures TearDown(c, client).client.Some? ==> c.client == TearDown(c, client).client
  {
  }

  lemma SerialStepKeepsEntries(s: State, step: Step)
    requires CoreOk(s) && ClientsOk(s) && EntriesOk(s) && Enabled(s, step) && Serial(s, step)
    ensures EntriesOk(Apply(s, step))
  {
    hide HasEntry, OneCallEach, CoreOk, ClientsOk, NormalizeThreadState, CommitLoad, DropPending, AcceptStatus, TearDown;
    var s' := Apply(s, step);
    SerialStepKeepsOneCall(s, step);
    forall k | 0 <= k < |s'.loads|
      ensures HasEntry(s', k)
    {
      if k < |s.loads| {
        SerialStepKeepsEntry(s, step, k);
      } else {
        NewCallHasEntry(s, step);
      }
    }
  }

  lemma NewCallHasEntry(s: State, step: Step)
    requires Enabled(s, step) && |Apply(s, step).loads| > |s.loads|
    ensures |Apply(s, step).loads| == |s.loads| + 1 && HasEntry(Apply(s, step), |s.loads|)
  {
    hide NormalizeThreadState, CommitLoad, DropPending, AcceptStatus, TearDown;
  }

  /** With serialized loads of each thread, the limit of sixteen always holds. */
  lemma {:induction false} SerialRunKeepsLimit(run: seq<State>, i: nat)
    requires IsSerialRun(run) && i < |run|
    ensures CoreOk(run[i]) && ClientsOk(run[i]) && EntriesOk(run[i])
    ensures Total(run[i].core) <= MAXIMUM_OWNED_THREADS
  {
    if i > 0 {
      var s := run[i - 1];
      SerialRunKeepsLimit(run, i - 1);
      assert SerialNext(s, run[i]);
      var step :| Enabled(s, step) && Serial(s, step) && run[i] == Apply(s, step);
      SerialStepIsSafe(s, step);
    }
  }

  lemma SerialStepIsSafe(s: State, step: Step)
    requires CoreOk(s) && ClientsOk(s) && EntriesOk(s) && Total(s.core) <= MAXIMUM_OWNED_THREADS
    requires Enabled(s, step) && Serial(s, step)
    ensures var s' := Apply(s, step);
            CoreOk(s') && ClientsOk(s') && EntriesOk(s') && Total(s'.core) <= MAXIMUM_OWNED_THREADS
  {
    SerialCommitHasEntry(s, step);
    hide CoreOk, ClientsOk, EntriesOk, Apply, Total, Overflows;
    StepKeepsCore(s, step);
    StepKeepsClients(s, step);
    SerialStepKeepsEntries(s, step);
    LimitSurvivesExactly(s, step);
  }

  lemma SerialCommitHasEntry(s: State, step: Step)
    requires EntriesOk(s) && Enabled(s, step)
    ensures !Overflows(s, step)
  {
    if step.Commit? {
      assert HasEntry(s, step.k);
    }
  }

  // A run that breaks the limit: the cleanup of one call takes the entry of the next.

  function Last(run: seq<State>): State
    requires run != []
  {
    run[|run| - 1]
  }

  lemma Extend(run: seq<State>, step: Step) returns (longer: seq<State>)
    requires IsRun(run) && Enabled(Last(run), step)
    ensures IsRun(longer) && Last(longer) == Apply(Last(run), step)
  {
    hide Enabled, Apply;
    longer := run + [Apply(Last(run), step)];
    assert Next(Last(run), Last(longer));
    forall i | 0 <= i < |longer| - 1
      ensures Next(longer[i], longer[i + 1])
    {
      if i < |run| - 1 {
        assert Next(run[i], run[i + 1]);
      }
    }
  }

  function Name(i: nat): (name: string)
    ensures |name| == i + 1
  {
    seq(i + 1, _ => 'a')
  }

  /** Connected, `n` threads loaded, no call under way. */
  ghost predicate Filled(s: State, n: nat) {
    && s.supervisor == Active(0) && s.core.client == Some(0) && s.core.pending == map[]
    && |s.core.owned| == n && forall t :: t in s.core.owned ==> |t| <= n
  }

  lemma LoadOne(run: seq<State>, n: nat) returns (longer: seq<State>)
    requires n < MAXIMUM_OWNED_THREADS && IsRun(run) && Filled(Last(run), n)
    ensures IsRun(longer)
    ensures var s := Last(longer);
            Filled(s, n + 1) && s.core.owned == Last(run).core.owned + {Name(n)}
            && |s.loads| > 0 && s.loads[|s.loads| - 1] == Load(Name(n), 0, Ending)
  {
    var s, k := Last(run), |Last(run).loads|;
    longer := Extend(run, Start(Name(n)));
    longer := Extend(longer, Answer(k, true));
    longer := Extend(longer, Commit(k));
    assert Last(longer).core.owned == s.core.owned + {Name(n)};
  }

  lemma {:induction false} Fill(n: nat) returns (run: seq<State>)
    requires n <= MAXIMUM_OWNED_THREADS
    ensures IsRun(run) && Filled(Last(run), n)
  {
    if n == 0 {
      run := Extend([START], Connect);
      run := Extend(run, Initialize(true));
    } else {
      run := Fill(n - 1);
      run := LoadOne(run, n - 1);
      run := Extend(run, End(|Last(run).loads| - 1));
    }
  }

  /** Fifteen threads owned, and a call for `x` loading without an entry. */
  ghost predicate EntryLost(s: State, k: nat, x: string) {
    && s.supervisor == Active(0) && s.core.client == Some(0) && s.core.pending == map[]
    && |s.core.owned| == 15 && x !in s.core.owned
    && (forall t :: t in s.core.owned ==> |t| <= 15)
    && k < |s.loads| && s.loads[k] == Load(x, 0, Calling)
  }

  /** A second call starts between the commit and the cleanup of the first. */
  lemma Overlap(run: seq<State>, fifteen: set<string>, x: string) returns (longer: seq<State>)
    requires IsRun(run) && Filled(Last(run), 16) && Last(run).core.owned == fifteen + {x} && x !in fifteen
    requires ValidThreadId(x)
    ensures IsRun(longer)
    ensures var s := Last(longer);
            && s.core.client == Some(0) && s.supervisor == Active(0)
            && s.core.owned == fifteen && s.core.pending == map[x := 0]
            && s.loads == Last(run).loads + [Load(x, 0, Calling)]
  {
    longer := Extend(run, Notify(x, ThreadStatus("notLoaded", None), 0));
    assert Last(longer).core.owned == fifteen;
    longer := Extend(longer, Start(x));
  }

  lemma LoseEntry() returns (run: seq<State>, k: nat)
    ensures IsRun(run) && EntryLost(Last(run), k, Name(15))
  {
    hide Apply;
    run := Fill(15);
    var fifteen := Last(run).core.owned;
    run := LoadOne(run, 15);
    k := |Last(run).loads|;
    run := Overlap(run, fifteen, Name(15));
    run := TakeEntry(run, k - 1, fifteen, Name(15));
  }

  lemma TakeEntry(run: seq<State>, j: nat, fifteen: set<string>, x: string) returns (longer: seq<State>)
    requires IsRun(run) && |fifteen| == 15 && x !in fifteen && forall t :: t in fifteen ==> |t| <= 15
    requires var s := Last(run);
             && s.core.client == Some(0) && s.supervisor == Active(0)
             && s.core.owned == fifteen && s.core.pending == map[x := 0]
             && j + 2 == |s.loads| && s.loads[j] == Load(x, 0, Ending) && s.loads[j + 1] == Load(x, 0, Calling)
    ensures IsRun(longer) && EntryLost(Last(longer), j + 1, x)
  {
    longer := Extend(run, End(j));
    assert Last(longer).core.pending == map[];
  }

  lemma LimitCanBeExceeded() returns (run: seq<State>)
    ensures IsRun(run) && Total(Last(run).core) == MAXIMUM_OWNED_THREADS + 1
  {
    var k;
    run, k := LoseEntry();
    var fifteen, x, y := Last(run).core.owned, Name(15), Name(16);
    run := Extend(run, Start(y));
    assert Last(run).core.pending == map[y := 0];
    run := Extend(run, Answer(k, true));
    run := Extend(run, Commit(k));
    assert Last(run).core.owned == fifteen + {x};
  }

  // -------------------------------------------------------- published order

  predicate Ordered(a: Session, b: Session) {
    !Less(b.id, a.id)
  }

  method Swap(a: array<Session>, i: nat)
    requires 0 < i < a.Length
    modifies a
    ensures a[..] == old(a[..])[i := old(a[i - 1])][i - 1 := old(a[i])]
    ensures multiset(a[..]) == multiset(old(a[..]))
  {
    a[i], a[i - 1] := a[i - 1], a[i];
  }

  /** `sortSessions`: insertion sort by swapping neighbours. */
  method SortSessions(a: array<Session>)
    modifies a
    ensures multiset(a[..]) == multiset(old(a[..]))
    ensures forall i, j :: 0 <= i < j < a.Length ==> Ordered(a[i], a[j])
  {
    var left := 1;
    while left < a.Length
      invariant 1 <= left
      invariant forall i, j :: 0 <= i < j < left && j < a.Length ==> Ordered(a[i], a[j])
      invariant multiset(a[..]) == multiset(old(a[..]))
    {
      var right := left;
      while right > 0 && Less(a[right].id, a[right - 1].id)
        invariant 0 <= right <= left
        invariant forall i, j :: 0 <= i < j <= left && j != right ==> Ordered(a[i], a[j])
        invariant multiset(a[..]) == multiset(old(a[..]))
      {
        forall j | right < j <= left
          ensures Ordered(a[right], a[j])
        {
          assert Ordered(a[right], a[j]);
        }
        LessTotal(a[right].id, a[right - 1].id);
        Swap(a, right);
        right := right - 1;
      }
      SortedPrefix(a[..left + 1], right);
      left := left + 1;
    }
  }

  lemma SortedPrefix(s: seq<Session>, right: nat)
    requires right < |s|
    requires forall i, j :: 0 <= i < j < |s| && j != right ==> Ordered(s[i], s[j])
    requires right > 0 ==> Ordered(s[right - 1], s[right])
    ensures forall i, j :: 0 <= i < j < |s| ==> Ordered(s[i], s[j])
  {
    forall i | 0 <= i < right
      ensures Ordered(s[i], s[right])
    {
      if i < right - 1 {
        OrderedTransitive(s[i], s[right - 1], s[right]);
      }
    }
  }

  lemma OrderedTransitive(a: Session, b: Session, c: Session)
    requires Ordered(a, b) && Ordered(b, c)
    ensures Ordered(a, c)
  {
    LessTotal(a.id, b.id);
    LessTotal(b.id, c.id);
    LessTotal(a.id, c.id);
    if Less(c.id, a.id) && Less(a.id, b.id) {
      LessTransitive(c.id, a.id, b.id);
    }
  }

  function Ids(sessions: seq<Session>): seq<string> {
    seq(|sessions|, i requires 0 <= i < |sessions| => sessions[i].id)
  }

  /** The order of publication does not depend on the order of map iteration. */
  lemma PublishedOrderIsDetermined(a: seq<Session>, b: seq<Session>)
    requires multiset(a) == multiset(b)
    requires forall i, j :: 0 <= i < j < |a| ==> Ordered(a[i], a[j]) && a[i].id != a[j].id
    requires forall i, j :: 0 <= i < j < |b| ==> Ordered(b[i], b[j]) && b[i].id != b[j].id
    ensures a == b
  {
    StrictlySorted(a);
    StrictlySorted(b);
    SameIds(a, b);
    SameIds(b, a);
    SortedUnique(Ids(a), Ids(b));
    forall i | 0 <= i < |a|
      ensures a[i] == b[i]
    {
      assert Ids(a)[i] == Ids(b)[i];
      assert a[i] in multiset(a);
      assert a[i] in b;
      var j :| 0 <= j < |b| && b[j] == a[i];
    }
  }

  lemma StrictlySorted(a: seq<Session>)
    requires forall i, j :: 0 <= i < j < |a| ==> Ordered(a[i], a[j]) && a[i].id != a[j].id
    ensures Sorted(Ids(a))
  {
    forall i, j | 0 <= i < j < |a|
      ensures Less(Ids(a)[i], Ids(a)[j])
    {
      LessTotal(a[i].id, a[j].id);
    }
  }

  lemma SameIds(a: seq<Session>, b: seq<Session>)
    requires multiset(a) == multiset(b)
    ensures forall x :: x in Ids(a) ==> x in Ids(b)
  {
    forall i | 0 <= i < |a|
      ensures Ids(a)[i] in Ids(b)
    {
      assert a[i] in multiset(a);
      assert a[i] in b;
      var j :| 0 <= j < |b| && b[j] == a[i];
      assert Ids(b)[j] == a[i].id;
    }
  }
}
