/**
  The callers' side of `diagnostics/service.go`: the bounded command queue, the
  counter of dropped events and the closing handshake, shared with the worker.
*/
module DiagnosticIntake {
  const WRAP := 0x1_0000_0000  // `dropped` is an atomic.Uint32

  datatype Command = Record(text: string) | Flush | Stop

  function Events(queue: seq<Command>): nat {
    if queue == [] then 0 else (if queue[0].Record? then 1 else 0) + Events(queue[1..])
  }

  lemma {:induction false} EventsAppend(queue: seq<Command>, command: Command)
    ensures Events(queue + [command]) == Events(queue) + if command.Record? then 1 else 0
  {
    if queue == [] {
      assert queue + [command] == [command];
      assert [command][1..] == [];
    } else {
      EventsAppend(queue[1..], command);
      assert (queue + [command])[1..] == queue[1..] + [command];
    }
  }

  predicate StopOnlyLast(queue: seq<Command>) {
    forall i :: 0 <= i < |queue| && queue[i].Stop? ==> i == |queue| - 1
  }

  class Service {
    const queueCapacity: nat
    var commands: seq<Command>
    var dropped: nat
    var closed: bool
    var locked: bool               // Close holds stateMu until its command is sent
    ghost var offered: nat         // valid events given to Record while open
    ghost var wraps: nat           // how often `dropped` has wrapped
    ghost var taken: int           // events and counts now with the worker
    ghost var stopped: bool        // the worker has received the stop command

    /** Every offered event is queued, counted, wrapped away or with the worker. */
    ghost predicate Balanced()
      reads this
    {
      offered == Events(commands) + dropped + WRAP * wraps + taken
    }

    ghost predicate Closing()
      reads this
    {
      && StopOnlyLast(commands)
      && (locked ==> closed)
      && ((Stop in commands || stopped) <==> (closed && !locked))
      && !(Stop in commands && stopped)
    }

    ghost predicate Valid()
      reads this
    {
      |commands| <= queueCapacity && dropped < WRAP && Balanced() && Closing() && (stopped ==> commands == [])
    }

    constructor (capacity: nat)
      ensures Valid() && offered == taken == 0 && !closed && commands == [] && dropped == 0 && queueCapacity == capacity
    {
      queueCapacity := capacity;
      commands, dropped, closed, locked := [], 0, false, false;
      offered, wraps, taken, stopped := 0, 0, 0, false;
    }

    /** `Record`: the reader lock is free, so Close is not waiting for room. */
    method RecordEvent(text: string, valid: bool) returns (ok: bool)
      requires Valid() && !locked
      modifies this
      ensures Valid() && taken == old(taken) && stopped == old(stopped) && closed == old(closed) && !locked
      ensures offered == old(offered) + if valid && !closed then 1 else 0
      ensures commands == old(commands) + if ok then [Record(text)] else []
      ensures ok <==> valid && !closed && |old(commands)| < queueCapacity
      ensures !ok && valid && !closed ==> dropped == (old(dropped) + 1) % WRAP
      ensures ok || !valid || closed ==> dropped == old(dropped)
    {
      if !valid || closed {
        assert commands + [] == commands;
        return false;
      }
      offered := offered + 1;
      if |commands| < queueCapacity {
        EventsAppend(commands, Record(text));
        commands := commands + [Record(text)];
        return true;
      }
      Count(1);
      assert commands + [] == commands;
      ok := false;
    }

    /** `dropped.Add`, modulo 2^32. */
    method Count(count: nat)
      requires dropped < WRAP && count < WRAP
      modifies `dropped, `wraps
      ensures dropped < WRAP && dropped == (old(dropped) + count) % WRAP
      ensures dropped + WRAP * wraps == old(dropped) + WRAP * old(wraps) + count
    {
      if dropped + count >= WRAP {
        wraps := wraps + 1;
        dropped := dropped + count - WRAP;
      } else {
        dropped := dropped + count;
      }
    }

    /** `Flush`, when its command goes into the queue. */
    method SendFlush()
      requires Valid() && !locked && !closed && |commands| < queueCapacity
      modifies `commands
      ensures Valid() && commands == old(commands) + [Flush]
    {
      EventsAppend(commands, Flush);
      commands := commands + [Flush];
    }

    method CloseBegin()
      requires Valid() && !locked && !closed
      modifies `closed, `locked
      ensures Valid() && locked
    {
      closed, locked := true, true;
    }

    method CloseSend()
      requires Valid() && locked && |commands| < queueCapacity
      modifies `commands, `locked
      ensures Valid() && closed && !locked && commands == old(commands) + [Stop]
    {
      EventsAppend(commands, Stop);
      commands := commands + [Stop];
      locked := false;
    }

    method CloseCancel()
      requires Valid() && locked
      modifies `closed, `locked
      ensures Valid() && !closed && !locked
    {
      closed, locked := false, false;
    }

    /** What any number of concurrent calls may do between two steps of the worker. */
    method Others()
      requires Valid()
      modifies this
      ensures Valid() && taken == old(taken) && stopped == old(stopped) && offered >= old(offered)
      ensures old(commands) <= commands
      ensures stopped ==> offered == old(offered) && dropped == old(dropped)
    {
      var calls :| 0 <= calls;
      for i := 0 to calls
        invariant Valid() && taken == old(taken) && stopped == old(stopped) && offered >= old(offered)
        invariant old(commands) <= commands
        invariant stopped ==> offered == old(offered) && dropped == old(dropped)
      {
        var choice := *;
        if locked {
          if choice && |commands| < queueCapacity {
            CloseSend();
          } else if !choice {
            CloseCancel();
          }
        } else if choice {
          var text, valid := *, *;
          var _ := RecordEvent(text, valid);
        } else if !closed {
          var other := *;
          if other {
            CloseBegin();
          } else if |commands| < queueCapacity {
            SendFlush();
          }
        }
      }
    }

    /** The worker takes the oldest command. Nothing is behind a stop command. */
    method Receive() returns (command: Command)
      requires Valid() && commands != []
      modifies `commands, `taken, `stopped
      ensures Valid() && [command] + commands == old(commands)
      ensures taken == old(taken) + if command.Record? then 1 else 0
      ensures stopped <==> command.Stop?
      ensures command.Stop? ==> commands == []
    {
      command := commands[0];
      assert StopOnlyLast(commands[1..]);
      taken := taken + if command.Record? then 1 else 0;
      commands := commands[1..];
      stopped := command.Stop?;
    }

    /** `dropped.Swap(0)`. */
    method SwapDropped() returns (count: nat)
      requires Valid()
      modifies `dropped, `taken
      ensures Valid() && dropped == 0 && count == old(dropped) && taken == old(taken) + count
    {
      count := dropped;
      dropped := 0;
      taken := taken + count;
    }

    /** `dropped.Add(count)` by the worker, which gives up what it has taken. */
    method AddDropped(count: nat)
      requires Valid() && count < WRAP
      modifies `dropped, `wraps, `taken
      ensures Valid() && dropped == (old(dropped) + count) % WRAP && taken == old(taken) - count
    {
      Count(count);
      taken := taken - count;
    }
  }
}
