/** Tracker instructions, handled one at a time per stream; while one is being handled only the
    latest newcomer waits.
 */
module InstructionThrottlers {
  import opened Identifiers
  import opened Options

  datatype Instruction = Instruction(counter: nat, id: int)

  // ---------- one stream ----------

  datatype Event = Accepted(instruction: Instruction) | Handled(instruction: Instruction) | Removed

  /** The promise of one call of the handler; a cancelled one is never waited for again. */
  datatype Handling = Handling(instruction: Instruction, cancelled: bool, done: bool)

  datatype Ongoing = Ongoing(promise: Option<nat>, handling: bool)

  datatype Slot = Slot(
    queued: Option<Instruction>,
    counter: Option<nat>,
    ongoing: Option<Ongoing>,
    promises: seq<Handling>,
    stopped: bool,
    log: seq<Event>)

  function Empty(): Slot {
    Slot(None, None, None, [], false, [])
  }

  /** Handle the queued instruction, if any. */
  function Invoked(s: Slot): Slot {
    if s.stopped then s
    else if s.queued.None? then
      if s.ongoing.Some? then s.(ongoing := Some(s.ongoing.value.(handling := false))) else s
    else
      s.(ongoing := Some(Ongoing(Some(|s.promises|), true)),
         queued := None,
         promises := s.promises + [Handling(s.queued.value, false, false)],
         log := s.log + [Handled(s.queued.value)])
  }

  predicate Accepts(counter: Option<nat>, instruction: Instruction) {
    counter.None? || counter.value == 0 || counter.value <= instruction.counter
  }

  /** The newcomer takes the place of the one in the queue. */
  function AcceptedBy(s: Slot, instruction: Instruction): Slot {
    s.(counter := Some(instruction.counter),
       queued := Some(instruction),
       ongoing := if s.ongoing.None? then Some(Ongoing(None, false)) else s.ongoing,
       log := s.log + [Accepted(instruction)])
  }

  function AddedTo(s: Slot, instruction: Instruction): Slot {
    if s.stopped || !Accepts(s.counter, instruction) then s
    else
      var t := AcceptedBy(s, instruction);
      if t.ongoing.value.handling then t else Invoked(t)
  }

  function Cancelled(promises: seq<Handling>, ongoing: Option<Ongoing>): seq<Handling> {
    if ongoing.Some? && ongoing.value.promise.Some? && ongoing.value.promise.value < |promises| then
      var p := ongoing.value.promise.value;
      promises[p := promises[p].(cancelled := true)]
    else promises
  }

  function Uncoupled(s: Slot): Slot {
    s.(promises := Cancelled(s.promises, s.ongoing), ongoing := None)
  }

  function Dropped(s: Slot): Slot {
    Uncoupled(s.(queued := None, counter := None, log := s.log + [Removed]))
  }

  function RemovedFrom(s: Slot): Slot {
    if s.stopped then s else Dropped(s)
  }

  function StoppedIn(s: Slot): Slot {
    Dropped(s).(stopped := true)
  }

  /** A call of the handler resolves or rejects; the wait for it goes on unless it was cancelled. */
  function Finished(s: Slot, p: nat): Slot
    requires p < |s.promises|
  {
    var t := s.(promises := s.promises[p := s.promises[p].(done := true)]);
    if s.promises[p].cancelled then t else Invoked(t)
  }

  predicate Busy(s: Slot) {
    s.ongoing.Some? && s.ongoing.value.handling
  }

  // ---------- all streams ----------

  /** The promises and the log belong to the surroundings, per stream. */
  class InstructionThrottler {
    var queue: map<StreamKey, Instruction>
    var instructionCounter: map<StreamKey, nat>
    var ongoingPromises: map<StreamKey, Ongoing>
    var stopped: bool
    var promises: map<StreamKey, seq<Handling>>
    ghost var log: StreamKey -> seq<Event>

    ghost function SlotOf(streamId: StreamKey): Slot
      reads this
    {
      Slot(if streamId in queue then Some(queue[streamId]) else None,
           if streamId in instructionCounter then Some(instructionCounter[streamId]) else None,
           if streamId in ongoingPromises then Some(ongoingPromises[streamId]) else None,
           if streamId in promises then promises[streamId] else [],
           stopped,
           log(streamId))
    }

    constructor ()
      ensures forall k :: SlotOf(k) == Empty()
    {
      queue, instructionCounter, ongoingPromises, stopped, promises, log := map[], map[], map[], false, map[], _ => [];
    }

    ghost method Record(streamId: StreamKey, e: Event)
      modifies this`log
      ensures SlotOf(streamId) == old(SlotOf(streamId)).(log := old(SlotOf(streamId)).log + [e])
      ensures forall k :: k != streamId ==> SlotOf(k) == old(SlotOf(k))
    {
      var was := log;
      log := k => if k == streamId then was(k) + [e] else was(k);
    }

    method Add(streamId: StreamKey, instruction: Instruction)
      modifies this
      ensures SlotOf(streamId) == AddedTo(old(SlotOf(streamId)), instruction)
      ensures forall k :: k != streamId ==> SlotOf(k) == old(SlotOf(k))
    {
      if stopped { return; }
      if streamId !in instructionCounter || instructionCounter[streamId] == 0
         || instructionCounter[streamId] <= instruction.counter {
        Accept(streamId, instruction);
        if !ongoingPromises[streamId].handling {
          InvokeHandleFnWithLock(streamId);
        }
      }
    }

    method Accept(streamId: StreamKey, instruction: Instruction)
      modifies this`instructionCounter, this`queue, this`ongoingPromises, this`log
      ensures streamId in ongoingPromises
      ensures SlotOf(streamId) == AcceptedBy(old(SlotOf(streamId)), instruction)
      ensures forall k :: k != streamId ==> SlotOf(k) == old(SlotOf(k))
    {
      instructionCounter := instructionCounter[streamId := instruction.counter];
      queue := queue[streamId := instruction];
      if streamId !in ongoingPromises {
        ongoingPromises := ongoingPromises[streamId := Ongoing(None, false)];
      }
      Record(streamId, Accepted(instruction));
    }

    /** The handler is called; what follows its promise is OnSettled. */
    method InvokeHandleFnWithLock(streamId: StreamKey)
      modifies this
      ensures SlotOf(streamId) == Invoked(old(SlotOf(streamId)))
      ensures forall k :: k != streamId ==> SlotOf(k) == old(SlotOf(k))
    {
      if stopped { return; }
      if streamId !in queue {
        if streamId in ongoingPromises {
          ongoingPromises := ongoingPromises[streamId := ongoingPromises[streamId].(handling := false)];
        }
        return;
      }
      var instruction := queue[streamId];
      queue := queue - {streamId};
      var made := if streamId in promises then promises[streamId] else [];
      promises := promises[streamId := made + [Handling(instruction, false, false)]];
      ongoingPromises := ongoingPromises[streamId := Ongoing(Some(|made|), true)];
      Record(streamId, Handled(instruction));
    }

    /** The p-th promise of the stream resolves or rejects. */
    method OnSettled(streamId: StreamKey, p: nat)
      requires streamId in promises && p < |promises[streamId]|
      modifies this
      ensures SlotOf(streamId) == Finished(old(SlotOf(streamId)), p)
      ensures forall k :: k != streamId ==> SlotOf(k) == old(SlotOf(k))
    {
      var cancelled := promises[streamId][p].cancelled;
      promises := promises[streamId := promises[streamId][p := promises[streamId][p].(done := true)]];
      if !cancelled { InvokeHandleFnWithLock(streamId); }
    }

    method Cancel(streamId: StreamKey)
      requires streamId in ongoingPromises
      modifies this`promises
      ensures var s := old(SlotOf(streamId)); SlotOf(streamId) == s.(promises := Cancelled(s.promises, s.ongoing))
      ensures forall k :: k != streamId ==> SlotOf(k) == old(SlotOf(k))
    {
      var promise := ongoingPromises[streamId].promise;
      if promise.Some? && streamId in promises && promise.value < |promises[streamId]| {
        promises := promises[streamId := promises[streamId][promise.value :=
            promises[streamId][promise.value].(cancelled := true)]];
      }
    }

    method Forget(streamId: StreamKey)
      modifies this`queue, this`instructionCounter
      ensures SlotOf(streamId) == old(SlotOf(streamId)).(queued := None, counter := None)
      ensures forall k :: k != streamId ==> SlotOf(k) == old(SlotOf(k))
    {
      queue := queue - {streamId};
      instructionCounter := instructionCounter - {streamId};
    }

    method CancelOngoing(streamId: StreamKey)
      modifies this`promises, this`ongoingPromises
      ensures SlotOf(streamId) == Uncoupled(old(SlotOf(streamId)))
      ensures forall k :: k != streamId ==> SlotOf(k) == old(SlotOf(k))
      ensures ongoingPromises == old(ongoingPromises) - {streamId}
    {
      if streamId in ongoingPromises { Cancel(streamId); }
      ongoingPromises := ongoingPromises - {streamId};
    }

    method RemoveStreamId(streamId: StreamKey)
      modifies this
      ensures SlotOf(streamId) == RemovedFrom(old(SlotOf(streamId)))
      ensures forall k :: k != streamId ==> SlotOf(k) == old(SlotOf(k))
    {
      if stopped { return; }
      Forget(streamId);
      CancelOngoing(streamId);
      Record(streamId, Removed);
    }

    method Stop()
      modifies this
      ensures forall k :: SlotOf(k) == StoppedIn(old(SlotOf(k)))
    {
      queue, instructionCounter := map[], map[];
      var streamIds := ongoingPromises.Keys;
      label cleared:
      while streamIds != {}
        invariant streamIds <= ongoingPromises.Keys <= old(ongoingPromises).Keys
        invariant forall k :: SlotOf(k) == if k in streamIds then old@cleared(SlotOf(k))
            else Uncoupled(old@cleared(SlotOf(k)))
      {
        var streamId :| streamId in streamIds;
        streamIds := streamIds - {streamId};
        CancelOngoing(streamId);
      }
      stopped := true;
      ghost var was := log;
      log := k => was(k) + [Removed];
    }

    method IsIdle() returns (idle: bool)
      ensures idle <==> forall k :: !Busy(SlotOf(k))
    {
      idle := !exists k :: k in ongoingPromises && ongoingPromises[k].handling;
      assert forall k :: Busy(SlotOf(k)) <==> k in ongoingPromises && ongoingPromises[k].handling;
    }
  }
}
