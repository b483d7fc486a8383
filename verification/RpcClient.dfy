/**
  The request/response correlator of `rpc.go`. `Core` holds the fields guarded
  by the client's mutex; `State` adds the goroutines: the calls with their
  one-slot channels, the reader between looking a waiter up and sending to it,
  and the sends that `fail` still owes.
*/
module RpcClient {
  import opened Wrappers

  datatype Error = Unavailable | ProcessExited | SchemaChanged

  datatype Message = Reply(id: int, body: string, isError: bool) | Terminated(error: Error)

  // ------------------------------------------------------- critical sections

  /** `nextID`, `pending` and `terminalError`; a waiter stands for its channel. */
  datatype Core = Core(nextId: int, pending: map<int, nat>, terminal: Option<Error>)

  const FRESH_CORE := Core(1, map[], None)

  function RegisterCore(c: Core, waiter: nat): Core {
    if c.terminal.Some? then c else c.(pending := c.pending[c.nextId := waiter], nextId := c.nextId + 1)
  }

  function RemoveCore(c: Core, id: int): Core {
    c.(pending := c.pending - {id})
  }

  function FailCore(c: Core, error: Error): Core {
    if c.terminal.Some? then c else c.(terminal := Some(error), pending := map[])
  }

  function Waiters(pending: map<int, nat>): set<nat> {
    set id | id in pending :: pending[id]
  }

  class Client {
    var nextId: int
    var pending: map<int, nat>
    var terminal: Option<Error>

    function View(): Core
      reads this
    {
      Core(nextId, pending, terminal)
    }

    constructor ()
      ensures View() == FRESH_CORE
    {
      nextId, pending, terminal := 1, map[], None;
    }

    /** The first section of `Call`. */
    method Register(waiter: nat) returns (id: Result<int, Error>)
      modifies this
      ensures View() == RegisterCore(old(View()), waiter)
      ensures terminal == old(terminal)
      ensures if terminal.Some? then pending == old(pending) && nextId == old(nextId)
              else pending == old(pending)[old(nextId) := waiter] && nextId == old(nextId) + 1
      ensures id == if old(terminal).Some? then Failure(old(terminal).value) else Success(old(nextId))
    {
      if terminal.Some? {
        return Failure(terminal.value);
      }
      id := Success(nextId);
      nextId := nextId + 1;
      pending := pending[nextId - 1 := waiter];
    }

    method RemovePending(id: int)
      modifies `pending
      ensures View() == RemoveCore(old(View()), id)
      ensures pending == old(pending) - {id}
    {
      pending := pending - {id};
    }

    /** The section of `accept` that takes the waiter out of the map. */
    method Take(id: int) returns (waiter: Option<nat>)
      modifies `pending
      ensures View() == RemoveCore(old(View()), id)
      ensures pending == old(pending) - {id}
      ensures waiter == if id in old(pending) then Some(old(pending)[id]) else None
    {
      waiter := if id in pending then Some(pending[id]) else None;
      pending := pending - {id};
    }

    /** The section of `fail`; the once-guard makes every later call do nothing. */
    method Fail(error: Error) returns (waiters: set<nat>)
      modifies this
      ensures View() == FailCore(old(View()), error) && nextId == old(nextId)
      ensures if old(terminal).Some? then terminal == old(terminal) && pending == old(pending)
              else terminal == Some(error) && pending == map[]
      ensures waiters == if old(terminal).Some? then {} else set id | id in old(pending) :: old(pending)[id]
    {
      if terminal.Some? {
        return {};
      }
      terminal := Some(error);
      waiters := Waiters(pending);
      pending := map[];
    }
  }

  // ------------------------------------------------------------ goroutines

  datatype Outcome = Got(message: Message) | WriteFailed | Canceled | Closed(error: Error)

  datatype Phase = Sending | Waiting | Returned(outcome: Outcome)

  /** One `Call`: `slot` is its channel, `sent` counts the sends it ever got. */
  datatype Call = Call(id: int, phase: Phase, slot: Option<Message>, sent: nat)

  datatype State = State(core: Core, calls: seq<Call>,
                         reading: Option<(nat, Message)>,  // the reader, about to send
                         readerDown: Option<Error>,        // the reader, about to fail
                         owed: set<nat>)                   // waiters `fail` has yet to tell

  datatype Step =
    | Begin
    | Written(k: nat)
    | WriteError(k: nat)
    | Cancel(k: nat)
    | ObserveDone(k: nat)
    | Receive(k: nat)
    | Lookup(id: int, body: string, isError: bool)
    | BadDocument(error: Error)
    | Send
    | Fail(error: Error)
    | Tell(k: nat)

  const START := State(FRESH_CORE, [], None, None, {})

  predicate Enabled(s: State, step: Step) {
    match step
    case Begin => true
    case Written(k) => k < |s.calls| && s.calls[k].phase == Sending
    case WriteError(k) => k < |s.calls| && s.calls[k].phase == Sending
    case Cancel(k) => k < |s.calls| && s.calls[k].phase == Waiting
    case ObserveDone(k) => k < |s.calls| && s.calls[k].phase == Waiting && s.core.terminal.Some?
    case Receive(k) => k < |s.calls| && s.calls[k].phase == Waiting && s.calls[k].slot.Some?
    case Lookup(id, _, _) => s.reading.None? && s.readerDown.None? && id > 0
    case BadDocument(_) => s.reading.None? && s.readerDown.None?
    case Send => s.reading.Some? && CanSend(s, s.reading.value.0)
    case Fail(error) => s.readerDown.Some? ==> error == s.readerDown.value || error == Unavailable
    case Tell(k) => k in s.owed && s.core.terminal.Some? && CanSend(s, k)
  }

  /** A send completes at once when the one slot is empty. */
  predicate CanSend(s: State, k: nat) {
    k < |s.calls| && s.calls[k].slot.None?
  }

  function Put(s: State, k: nat, message: Message): State
    requires k < |s.calls|
  {
    var call := s.calls[k];
    s.(calls := s.calls[k := call.(slot := Some(message), sent := call.sent + 1)])
  }

  function Return(s: State, k: nat, outcome: Outcome): State
    requires k < |s.calls|
  {
    s.(calls := s.calls[k := s.calls[k].(phase := Returned(outcome))])
  }

  function Apply(s: State, step: Step): State
    requires Enabled(s, step)
  {
    match step
    case Begin =>
      if s.core.terminal.Some? then s
      else s.(core := RegisterCore(s.core, |s.calls|),
              calls := s.calls + [Call(s.core.nextId, Sending, None, 0)])
    case Written(k) => s.(calls := s.calls[k := s.calls[k].(phase := Waiting)])
    case WriteError(k) => Return(s, k, WriteFailed).(core := RemoveCore(s.core, s.calls[k].id))
    case Cancel(k) => Return(s, k, Canceled).(core := RemoveCore(s.core, s.calls[k].id))
    case ObserveDone(k) => Return(s, k, Closed(s.core.terminal.value))
    case Receive(k) =>
      var call := s.calls[k];
      s.(calls := s.calls[k := call.(slot := None, phase := Returned(Got(call.slot.value)))])
    case Lookup(id, body, isError) =>
      if id in s.core.pending
      then s.(core := RemoveCore(s.core, id), reading := Some((s.core.pending[id], Reply(id, body, isError))))
      else s.(readerDown := Some(SchemaChanged))
    case BadDocument(error) => s.(readerDown := Some(error))
    case Send => Put(s, s.reading.value.0, s.reading.value.1).(reading := None)
    case Fail(error) =>
      if s.core.terminal.Some? then s
      else s.(core := FailCore(s.core, error), owed := Waiters(s.core.pending))
    case Tell(k) => Put(s, k, Terminated(s.core.terminal.value)).(owed := s.owed - {k})
  }

  ghost predicate Next(s: State, s': State) {
    exists step :: Enabled(s, step) && s' == Apply(s, step)
  }

  /** Every interleaving of any number of calls with the reader and `Close`. */
  ghost predicate IsRun(run: seq<State>) {
    && run != [] && run[0] == START
    && forall i :: 0 <= i < |run| - 1 ==> Next(run[i], run[i + 1])
  }

  // ------------------------------------------------------------- invariant

  predicate Pends(s: State, k: nat)
    requires k < |s.calls|
  {
    s.calls[k].id in s.core.pending && s.core.pending[s.calls[k].id] == k
  }

  function One(b: bool): nat { if b then 1 else 0 }

  /** Sends already made to call `k` plus all that are still possible. */
  function Tokens(s: State, k: nat): nat
    requires k < |s.calls|
  {
    s.calls[k].sent + One(Pends(s, k)) + One(s.reading.Some? && s.reading.value.0 == k) + One(k in s.owed)
  }

  predicate Addressed(s: State, k: nat, m: Message)
    requires k < |s.calls|
  {
    match m
    case Reply(id, _, _) => id == s.calls[k].id
    case Terminated(error) => s.core.terminal == Some(error)
  }

  predicate CallOk(s: State, k: nat)
    requires k < |s.calls|
  {
    var call := s.calls[k];
    && Tokens(s, k) <= 1
    && (call.slot.Some? ==> call.sent == 1 && Addressed(s, k, call.slot.value))
    && (call.phase.Returned? && call.phase.outcome.Got? ==>
          call.sent == 1 && call.slot.None? && Addressed(s, k, call.phase.outcome.message))
    && (call.phase.Returned? && call.phase.outcome.Closed? ==> s.core.terminal == Some(call.phase.outcome.error))
    && (call.phase.Returned? ==> !Pends(s, k))
    && (!call.phase.Returned? ==> Tokens(s, k) == 1 && (call.sent == 1 ==> call.slot.Some?))
  }

  predicate CoreOk(s: State) {
    && s.core.nextId == |s.calls| + 1
    && (s.reading.Some? ==> s.reading.value.0 < |s.calls| && s.reading.value.1.Reply?
                            && Addressed(s, s.reading.value.0, s.reading.value.1))
    && (s.core.terminal.Some? ==> s.core.pending == map[])
    && (s.owed != {} ==> s.core.terminal.Some?)
    && (forall id :: id in s.core.pending ==> s.core.pending[id] == id - 1 && 0 < id <= |s.calls|)
    && (forall k :: k in s.owed ==> k < |s.calls|)
    && (forall k :: 0 <= k < |s.calls| ==> s.calls[k].id == k + 1)
  }

  ghost predicate Inv(s: State) {
    CoreOk(s) && forall k :: 0 <= k < |s.calls| ==> CallOk(s, k)
  }

  lemma StepKeepsInv(s: State, step: Step)
    requires Inv(s) && Enabled(s, step)
    ensures Inv(Apply(s, step))
  {
    hide CallOk;
    var s' := Apply(s, step);
    StepKeepsCore(s, step);
    forall k | 0 <= k < |s'.calls|
      ensures CallOk(s', k)
    {
      if k < |s.calls| {
        assert CallOk(s, k);
        StepKeepsCall(s, step, k);
      } else {
        FreshCallOk(s, step);
      }
    }
  }

  lemma FreshCallOk(s: State, step: Step)
    requires CoreOk(s) && Enabled(s, step) && |Apply(s, step).calls| > |s.calls|
    ensures CallOk(Apply(s, step), |s.calls|)
  {
    assert step.Begin?;
  }

  lemma StepKeepsCore(s: State, step: Step)
    requires CoreOk(s) && Enabled(s, step)
    requires forall k :: 0 <= k < |s.calls| ==> CallOk(s, k)
    ensures CoreOk(Apply(s, step))
  {
    if step.Fail? && s.core.terminal.None? {
      assert forall k :: k in Waiters(s.core.pending) ==> k < |s.calls|;
    }
    if step.Lookup? && step.id in s.core.pending {
      assert CallOk(s, s.core.pending[step.id]);
    }
  }

  predicate OfCall(step: Step) {
    step.Begin? || step.Written? || step.WriteError? || step.Cancel? || step.ObserveDone? || step.Receive?
  }

  lemma StepKeepsCall(s: State, step: Step, k: nat)
    requires CoreOk(s) && Enabled(s, step) && k < |s.calls| && CallOk(s, k)
    ensures k < |Apply(s, step).calls| && CallOk(Apply(s, step), k)
  {
    hide CoreOk, CallOk, Enabled, Apply;
    if OfCall(step) {
      CallersKeepCall(s, step, k);
    } else {
      ReaderKeepsCall(s, step, k);
    }
  }

  lemma CallersKeepCall(s: State, step: Step, k: nat)
    requires OfCall(step) && CoreOk(s) && Enabled(s, step) && k < |s.calls| && CallOk(s, k)
    ensures k < |Apply(s, step).calls| && CallOk(Apply(s, step), k)
  {
    hide Waiters, FailCore;
  }

  lemma ReaderKeepsCall(s: State, step: Step, k: nat)
    requires !OfCall(step) && CoreOk(s) && Enabled(s, step) && k < |s.calls| && CallOk(s, k)
    ensures k < |Apply(s, step).calls| && CallOk(Apply(s, step), k)
  {
    if step.Fail? && s.core.terminal.None? {
      assert k in Waiters(s.core.pending) <==> Pends(s, k);
    }
  }

  /** No interleaving of `Call`, cancellation, `accept` and `fail` breaks it. */
  lemma {:induction false} RunKeepsInv(run: seq<State>, i: nat)
    requires IsRun(run) && i < |run|
    ensures Inv(run[i])
  {
    if i > 0 {
      RunKeepsInv(run, i - 1);
      var step :| Enabled(run[i - 1], step) && run[i] == Apply(run[i - 1], step);
      StepKeepsInv(run[i - 1], step);
    }
  }

  // ---------------------------------------------------------- consequences

  /** Each waiter gets at most one message, so no send ever waits for a slot. */
  lemma SendsNeverBlock(run: seq<State>, i: nat)
    requires IsRun(run) && i < |run|
    ensures forall k :: 0 <= k < |run[i].calls| ==> run[i].calls[k].sent <= 1
    ensures run[i].reading.Some? ==> CanSend(run[i], run[i].reading.value.0)
    ensures forall k :: k in run[i].owed ==> CanSend(run[i], k)
  {
    var s := run[i];
    RunKeepsInv(run, i);
    forall k | 0 <= k < |s.calls|
      ensures s.calls[k].sent <= 1
    {
      assert CallOk(s, k);
    }
    if s.reading.Some? {
      assert CallOk(s, s.reading.value.0);
    }
    forall k | k in s.owed
      ensures CanSend(s, k)
    {
      assert CallOk(s, k);
    }
  }

  /** A call returns a result only if the document carried its own, fresh ID. */
  lemma ResultsReachTheirCall(run: seq<State>, i: nat, j: nat, k: nat)
    requires IsRun(run) && i < |run| && j < |run[i].calls| && k < |run[i].calls|
    ensures j != k ==> run[i].calls[j].id != run[i].calls[k].id
    ensures var phase := run[i].calls[k].phase;
            phase.Returned? && phase.outcome.Got? && phase.outcome.message.Reply? ==>
              phase.outcome.message.id == run[i].calls[k].id
  {
    RunKeepsInv(run, i);
    assert CallOk(run[i], j) && CallOk(run[i], k);
  }

  /** A run together with the steps that were taken. */
  ghost predicate IsRunOf(run: seq<State>, steps: seq<Step>) {
    && |run| == |steps| + 1 && run[0] == START
    && forall i :: 0 <= i < |steps| ==> Enabled(run[i], steps[i]) && run[i + 1] == Apply(run[i], steps[i])
  }

  lemma RunOfIsRun(run: seq<State>, steps: seq<Step>)
    requires IsRunOf(run, steps)
    ensures IsRun(run)
  {
    hide Enabled, Apply;
    forall i | 0 <= i < |run| - 1
      ensures Next(run[i], run[i + 1])
    {
      assert Enabled(run[i], steps[i]);
    }
  }

  /** The document was read. */
  ghost predicate WasRead(steps: seq<Step>, m: Message) {
    m.Reply? ==> exists j :: 0 <= j < |steps| && steps[j] == Lookup(m.id, m.body, m.isError)
  }

  ghost predicate AllRead(s: State, steps: seq<Step>) {
    && (s.reading.Some? ==> WasRead(steps, s.reading.value.1))
    && forall k :: 0 <= k < |s.calls| ==>
         && (s.calls[k].slot.Some? ==> WasRead(steps, s.calls[k].slot.value))
         && (s.calls[k].phase.Returned? && s.calls[k].phase.outcome.Got? ==> WasRead(steps, s.calls[k].phase.outcome.message))
  }

  lemma StillRead(steps: seq<Step>, step: Step, m: Message)
    ensures WasRead(steps, m) ==> WasRead(steps + [step], m)
    ensures m.Reply? && step == Lookup(m.id, m.body, m.isError) ==> WasRead(steps + [step], m)
  {
    var more := steps + [step];
    assert more[|steps|] == step;
    if m.Reply? && WasRead(steps, m) {
      var j :| 0 <= j < |steps| && steps[j] == Lookup(m.id, m.body, m.isError);
      assert more[j] == steps[j];
    }
  }

  lemma StepKeepsRead(s: State, steps: seq<Step>, step: Step)
    requires AllRead(s, steps) && Enabled(s, step)
    ensures AllRead(Apply(s, step), steps + [step])
  {
    hide WasRead;
    forall m: Message
      ensures WasRead(steps, m) ==> WasRead(steps + [step], m)
      ensures m.Reply? && step == Lookup(m.id, m.body, m.isError) ==> WasRead(steps + [step], m)
      ensures m.Terminated? ==> WasRead(steps + [step], m)
    {
      StillRead(steps, step, m);
      if m.Terminated? {
        TerminatedRead(steps + [step], m);
      }
    }
  }

  lemma TerminatedRead(steps: seq<Step>, m: Message)
    ensures m.Terminated? ==> WasRead(steps, m)
  {
  }

  lemma {:induction false} RunKeepsRead(run: seq<State>, steps: seq<Step>)
    requires IsRunOf(run, steps)
    ensures AllRead(run[|steps|], steps)
  {
    hide WasRead, Enabled, Apply;
    if steps != [] {
      var n := |steps| - 1;
      RunKeepsRead(run[..n + 1], steps[..n]);
      StepKeepsRead(run[n], steps[..n], steps[n]);
      assert steps[..n] + [steps[n]] == steps;
    }
  }

  /** A call that returns a reply returns the body and the flag of a document that was read with its ID. */
  lemma ReplyWasRead(run: seq<State>, steps: seq<Step>, k: nat)
    requires IsRunOf(run, steps) && k < |run[|steps|].calls|
    ensures var phase := run[|steps|].calls[k].phase;
            phase.Returned? && phase.outcome.Got? && phase.outcome.message.Reply? ==>
              var m := phase.outcome.message;
              exists j :: 0 <= j < |steps| && steps[j] == Lookup(run[|steps|].calls[k].id, m.body, m.isError)
  {
    RunOfIsRun(run, steps);
    ResultsReachTheirCall(run, |steps|, k, k);
    RunKeepsRead(run, steps);
    var phase := run[|steps|].calls[k].phase;
    if phase.Returned? && phase.outcome.Got? && phase.outcome.message.Reply? {
      assert WasRead(steps, phase.outcome.message);
    }
  }

  /**
    Once `fail` has run the map stays empty and the error stays, a new call is
    refused with it, and every call still waiting can return.
  */
  lemma FailureIsFinal(run: seq<State>, i: nat, j: nat)
    requires IsRun(run) && i <= j < |run| && run[i].core.terminal.Some?
    ensures run[j].core.terminal == run[i].core.terminal && run[j].core.pending == map[]
    ensures Apply(run[j], Begin) == run[j]
    ensures forall k :: 0 <= k < |run[j].calls| && run[j].calls[k].phase == Waiting ==> Enabled(run[j], ObserveDone(k))
    decreases j
  {
    RunKeepsInv(run, j);
    if i < j {
      FailureIsFinal(run, i, j - 1);
      var step :| Enabled(run[j - 1], step) && run[j] == Apply(run[j - 1], step);
    }
  }

  /** Until then, a waiting call always has its answer or somebody who owes it. */
  lemma NobodyIsForgotten(run: seq<State>, i: nat, k: nat)
    requires IsRun(run) && i < |run| && k < |run[i].calls| && run[i].calls[k].phase == Waiting
    ensures var s := run[i];
            || s.calls[k].slot.Some?
            || Pends(s, k)
            || (s.reading.Some? && s.reading.value.0 == k)
            || k in s.owed
  {
    RunKeepsInv(run, i);
    assert CallOk(run[i], k);
  }

  /**
    A reply to a call that has returned, for instance because it was cancelled,
    has no waiter: `accept` rejects it, and the reader can only fail the client.
  */
  lemma LateReplyEndsTheClient(run: seq<State>, i: nat, k: nat, body: string)
    requires IsRun(run) && i < |run| && k < |run[i].calls| && run[i].calls[k].phase.Returned?
    requires run[i].reading.None? && run[i].readerDown.None?
    ensures var late := Lookup(run[i].calls[k].id, body, false);
            && Enabled(run[i], late)
            && Apply(run[i], late) == run[i].(readerDown := Some(SchemaChanged))
            && forall id, b, e :: !Enabled(Apply(run[i], late), Lookup(id, b, e))
  {
    RunKeepsInv(run, i);
    assert CallOk(run[i], k);
  }

  /** A call with this ID is under way and has not been sent an answer. */
  predicate Expected(s: State, id: int) {
    0 < id <= |s.calls| && !s.calls[id - 1].phase.Returned? && s.calls[id - 1].sent == 0
  }

  /**
    Exactly which replies the client survives: those to a call that is still under
    way and unanswered, unless the client has failed already. Any other brings the
    reader down, which can then fail the client at once.
  */
  lemma LateReplyExactly(run: seq<State>, i: nat, id: int, body: string, isError: bool)
    requires IsRun(run) && i < |run| && Enabled(run[i], Lookup(id, body, isError))
    ensures var after := Apply(run[i], Lookup(id, body, isError));
            && (after.readerDown.Some? <==> run[i].core.terminal.Some? || !Expected(run[i], id))
            && (after.readerDown.Some? ==>
                  after.readerDown == Some(SchemaChanged) && Enabled(after, Fail(SchemaChanged))
                  && Apply(after, Fail(SchemaChanged)).core.terminal.Some?)
  {
    RunKeepsInv(run, i);
    if 0 < id <= |run[i].calls| {
      assert CallOk(run[i], id - 1);
    }
  }

  /** Two calls are written; the first is cancelled, its reply arrives, and the second fails with it. */
  function LateReplySteps(): seq<Step> {
    [Begin, Written(0), Begin, Written(1), Cancel(0), Lookup(1, "late", false), Fail(SchemaChanged), Tell(1), Receive(1)]
  }

  /** The state of that run after `n` steps. */
  ghost predicate LateReplyAt(s: State, n: nat) {
    && s.core.nextId == (if n == 0 then 1 else if n < 3 then 2 else 3)
    && s.core.pending == (if n == 0 || n >= 7 then map[] else if n < 3 then map[1 := 0]
                          else if n < 5 then map[1 := 0, 2 := 1] else map[2 := 1])
    && s.core.terminal == (if n >= 7 then Some(SchemaChanged) else None)
    && s.calls == (if n == 0 then [] else [FirstCall(n)]) + (if n < 3 then [] else [SecondCall(n)])
    && s.reading.None? && s.readerDown == (if n >= 6 then Some(SchemaChanged) else None)
    && s.owed == (if n == 7 then {1} else {})
  }

  function FirstCall(n: nat): Call {
    Call(1, if n < 2 then Sending else if n < 5 then Waiting else Returned(Canceled), None, 0)
  }

  function SecondCall(n: nat): Call {
    Call(2, if n < 4 then Sending else if n < 9 then Waiting else Returned(Got(Terminated(SchemaChanged))),
         if n == 8 then Some(Terminated(SchemaChanged)) else None, if n < 8 then 0 else 1)
  }

  lemma LateReplyStep(s: State, n: nat)
    requires n < |LateReplySteps()| && LateReplyAt(s, n)
    ensures Enabled(s, LateReplySteps()[n]) && LateReplyAt(Apply(s, LateReplySteps()[n]), n + 1)
  {
    if n == 6 {
      assert s.core.pending[2] == 1;
      assert Waiters(s.core.pending) == {1};
    }
  }

  /** This is a run: an unrelated call fails because a cancelled one is answered late. */
  lemma LateReplyCanHappen() returns (run: seq<State>)
    ensures IsRun(run) && |run| == |LateReplySteps()| + 1
    ensures forall i :: 0 <= i < |LateReplySteps()| ==>
              Enabled(run[i], LateReplySteps()[i]) && run[i + 1] == Apply(run[i], LateReplySteps()[i])
    ensures |run[5].calls| == |run[9].calls| == 2
    ensures run[5].calls[0].phase == Returned(Canceled) && run[5].calls[1].phase == Waiting
    ensures run[9].core.terminal == Some(SchemaChanged)
            && run[9].calls[1].phase == Returned(Got(Terminated(SchemaChanged)))
  {
    hide Enabled, Apply;
    var steps := LateReplySteps();
    run := [START];
    for i := 0 to |steps|
      invariant |run| == i + 1 && run[0] == START
      invariant forall k :: 0 <= k < i ==> Enabled(run[k], steps[k]) && run[k + 1] == Apply(run[k], steps[k])
      invariant forall k :: 0 <= k <= i ==> LateReplyAt(run[k], k)
    {
      LateReplyStep(run[i], i);
      run := run + [Apply(run[i], steps[i])];
    }
    forall i | 0 <= i < |run| - 1
      ensures Next(run[i], run[i + 1])
    {
      assert Enabled(run[i], steps[i]);
    }
  }

  /** The answer to a waiting call is looked up, sent and returned unchanged. */
  lemma AnswerArrives(run: seq<State>, i: nat, id: int, body: string, isError: bool)
    requires IsRun(run) && i < |run| && Enabled(run[i], Lookup(id, body, isError)) && run[i].core.terminal.None?
    requires Expected(run[i], id) && run[i].calls[id - 1].phase == Waiting
    ensures var found := Apply(run[i], Lookup(id, body, isError));
            && Enabled(found, Send) && Enabled(Apply(found, Send), Receive(id - 1))
            && var after := Apply(Apply(found, Send), Receive(id - 1));
               after.calls[id - 1].phase == Returned(Got(Reply(id, body, isError))) && after.readerDown.None?
  {
    RunKeepsInv(run, i);
    assert CallOk(run[i], id - 1);
  }
}
