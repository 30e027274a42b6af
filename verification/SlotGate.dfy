/**
 * The counting gate in front of the shared worker pool. A submission goes through several atomic
 * stretches, in any interleaving with workers, cancellations and shutdown.
 */
module SlotGates {
  import opened Collections

  /** Where one submission stands. `watched`: its cancellation callback has been added. */
  datatype Stage =
    | Acquired                     // slot taken, not handed to the pool yet
    | Refused                      // the pool rejected it and the slot was given back
    | Queued(watched: bool)
    | Running(watched: bool)
    | Leaving(watched: bool)       // the callable ended and released its slot; the result is not set yet
    | Finished(watched: bool)
    | Cancelled(watched: bool)

  datatype Gate = Gate(max: nat, free: nat, closed: bool, stages: map<nat, Stage>, releases: map<nat, nat>)

  datatype Event =
    | Acquire(id: nat)
    | Dispatch(id: nat)            // the pool takes it
    | DispatchFails(id: nat)       // the pool raises
    | Watch(id: nat)               // add_done_callback
    | Start(id: nat)               // a worker picks it up
    | End(id: nat)                 // the callable's finally clause
    | SetResult(id: nat)
    | Cancel(id: nat)
    | Shutdown

  function Open(max: nat): Gate {
    Gate(max, max, false, map[], map[])
  }

  predicate Holds(stage: Stage) {
    match stage
    case Acquired => true
    case Queued(_) => true
    case Running(_) => true
    case Cancelled(watched) => !watched
    case _ => false
  }

  /** When a step is possible. A worker never starts a cancelled future, and only queued ones can be cancelled. */
  predicate Can(g: Gate, e: Event) {
    match e
    case Acquire(id) => id !in g.stages && g.free > 0
    case Dispatch(id) => id in g.stages && g.stages[id] == Acquired && !g.closed
    case DispatchFails(id) => id in g.stages && g.stages[id] == Acquired
    case Watch(id) =>
      && id in g.stages && !g.stages[id].Acquired? && !g.stages[id].Refused?
      && !g.stages[id].watched
    case Start(id) => id in g.stages && g.stages[id].Queued?
    case End(id) => id in g.stages && g.stages[id].Running?
    case SetResult(id) => id in g.stages && g.stages[id].Leaving?
    case Cancel(id) => id in g.stages && g.stages[id].Queued?
    case Shutdown => true
  }

  function At(g: Gate, id: nat, stage: Stage): Gate {
    g.(stages := g.stages[id := stage])
  }

  function Released(g: Gate, id: nat): Gate {
    g.(free := g.free + 1, releases := g.releases[id := (if id in g.releases then g.releases[id] else 0) + 1])
  }

  function Step(g: Gate, e: Event): Gate
    requires Can(g, e)
  {
    match e
    case Acquire(id) => At(g, id, Acquired).(free := g.free - 1)
    case Dispatch(id) => At(g, id, Queued(false))
    case DispatchFails(id) => Released(At(g, id, Refused), id)
    case Watch(id) =>
      (match g.stages[id]
       case Queued(_) => At(g, id, Queued(true))
       case Running(_) => At(g, id, Running(true))
       case Leaving(_) => At(g, id, Leaving(true))
       case Finished(_) => At(g, id, Finished(true))
       case Cancelled(_) => Released(At(g, id, Cancelled(true)), id)
       case _ => g)
    case Start(id) => At(g, id, Running(g.stages[id].watched))
    case End(id) => Released(At(g, id, Leaving(g.stages[id].watched)), id)
    case SetResult(id) => At(g, id, Finished(g.stages[id].watched))
    case Cancel(id) =>
      var c := At(g, id, Cancelled(g.stages[id].watched));
      if g.stages[id].watched then Released(c, id) else c
    case Shutdown => g.(closed := true)
  }

  /** The executor's own form: each method is one atomic stretch of the code. */
  class BoundedExecutor {
    const max: nat
    var free: nat
    var closed: bool
    var stages: map<nat, Stage>
    ghost var releases: map<nat, nat>

    ghost function View(): Gate
      reads this
    {
      Gate(max, free, closed, stages, releases)
    }

    constructor (maxWorkers: nat)
      ensures View() == Open(maxWorkers)
    {
      max, free, closed, stages, releases := maxWorkers, maxWorkers, false, map[], map[];
    }

    method ReleaseSlot(id: nat)
      modifies this`free, this`releases
      ensures View() == Released(old(View()), id)
    {
      free := free + 1;
      releases := releases[id := (if id in releases then releases[id] else 0) + 1];
    }

    /** False stands for the saturation error. */
    method AcquireSlot(id: nat) returns (ok: bool)
      requires id !in stages
      modifies this`free, this`stages
      ensures ok <==> Can(old(View()), Acquire(id))
      ensures View() == if ok then Step(old(View()), Acquire(id)) else old(View())
    {
      if free == 0 {
        return false;
      }
      free := free - 1;
      stages := stages[id := Acquired];
      return true;
    }

    /** Hands the wrapped callable to the pool; a pool that is shut down raises, and so may any other. */
    method DispatchTo(id: nat, poolRaises: bool) returns (accepted: bool)
      requires id in stages && stages[id] == Acquired
      modifies this
      ensures accepted <==> !old(closed) && !poolRaises
      ensures View() == Step(old(View()), if accepted then Dispatch(id) else DispatchFails(id))
    {
      if closed || poolRaises {
        stages := stages[id := Refused];
        ReleaseSlot(id);
        return false;
      }
      stages := stages[id := Queued(false)];
      return true;
    }

    /** Adds the compensation; a future that is already cancelled runs it at once. */
    method AddCallback(id: nat)
      requires Can(View(), Watch(id))
      modifies this
      ensures View() == Step(old(View()), Watch(id))
    {
      match stages[id] {
        case Cancelled(_) =>
          stages := stages[id := Cancelled(true)];
          ReleaseSlot(id);
        case Queued(_) => stages := stages[id := Queued(true)];
        case Running(_) => stages := stages[id := Running(true)];
        case Leaving(_) => stages := stages[id := Leaving(true)];
        case Finished(_) => stages := stages[id := Finished(true)];
      }
    }

    method WorkerStarts(id: nat)
      requires Can(View(), Start(id))
      modifies this`stages
      ensures View() == Step(old(View()), Start(id))
    {
      stages := stages[id := Running(stages[id].watched)];
    }

    method WorkerEnds(id: nat)
      requires Can(View(), End(id))
      modifies this
      ensures View() == Step(old(View()), End(id))
    {
      stages := stages[id := Leaving(stages[id].watched)];
      ReleaseSlot(id);
    }

    method WorkerSetsResult(id: nat)
      requires Can(View(), SetResult(id))
      modifies this`stages
      ensures View() == Step(old(View()), SetResult(id))
    {
      stages := stages[id := Finished(stages[id].watched)];
    }

    /** Cancelling only works on a future that has not started; its callback runs if it is there already. */
    method CancelFuture(id: nat) returns (cancelled: bool)
      requires id in stages && !stages[id].Acquired? && !stages[id].Refused?
      modifies this
      ensures id in stages && (cancelled <==> stages[id].Cancelled?)
      ensures View() == if Can(old(View()), Cancel(id)) then Step(old(View()), Cancel(id)) else old(View())
    {
      if stages[id].Queued? {
        var watched := stages[id].watched;
        stages := stages[id := Cancelled(watched)];
        if watched {
          ReleaseSlot(id);
        }
      }
      return stages[id].Cancelled?;
    }

    method ShutDown()
      modifies this`closed
      ensures View() == Step(old(View()), Shutdown)
    {
      closed := true;
    }
  }

  // ----- conservation

  ghost function Holders(stages: map<nat, Stage>): set<nat> {
    set id | id in stages && Holds(stages[id])
  }

  /** Free slots and held slots add up, and a submission has released its slot exactly if it no longer holds it. */
  ghost predicate Conserved(g: Gate) {
    && g.free + |Holders(g.stages)| == g.max
    && (forall id :: id in g.releases ==> id in g.stages)
    && (forall id :: id in g.stages ==>
        (if id in g.releases then g.releases[id] else 0) == if Holds(g.stages[id]) then 0 else 1)
  }

  /** Moving one submission to another stage changes the held slots by at most that one. */
  lemma HoldersAt(stages: map<nat, Stage>, id: nat, stage: Stage)
    ensures |Holders(stages[id := stage])|
         == |Holders(stages)| - (if id in stages && Holds(stages[id]) then 1 else 0) + (if Holds(stage) then 1 else 0)
  {
    var before, after := Holders(stages), Holders(stages[id := stage]);
    var rest := before - {id};
    assert before == if id in stages && Holds(stages[id]) then rest + {id} else rest;
    assert after == if Holds(stage) then rest + {id} else rest;
  }

  lemma MoveConserves(g: Gate, id: nat, stage: Stage)
    requires Conserved(g) && id in g.stages && Holds(stage) == Holds(g.stages[id])
    ensures Conserved(At(g, id, stage))
  {
    HoldersAt(g.stages, id, stage);
  }

  lemma ReleaseConserves(g: Gate, id: nat, stage: Stage)
    requires Conserved(g) && id in g.stages && Holds(g.stages[id]) && !Holds(stage)
    ensures Conserved(Released(At(g, id, stage), id)) && g.free < g.max
  {
    HoldersAt(g.stages, id, stage);
  }

  lemma AcquireConserves(g: Gate, id: nat)
    requires Conserved(g) && Can(g, Acquire(id))
    ensures Conserved(Step(g, Acquire(id)))
  {
    HoldersAt(g.stages, id, Acquired);
  }

  /** A step that gives a slot back. */
  predicate Releases(g: Gate, e: Event)
    requires Can(g, e)
  {
    match e
    case DispatchFails(_) => true
    case End(_) => true
    case Watch(id) => g.stages[id].Cancelled?
    case Cancel(id) => g.stages[id].watched
    case _ => false
  }

  /** Every step conserves slots, and no step releases into a gate that is already full. */
  lemma StepConserves(g: Gate, e: Event)
    requires Conserved(g) && Can(g, e)
    ensures Conserved(Step(g, e)) && Step(g, e).max == g.max
    ensures Releases(g, e) ==> g.free < g.max && Step(g, e).free == g.free + 1
  {
    hide Conserved;
    match e
    case Acquire(id) => AcquireConserves(g, id);
    case Dispatch(id) => MoveConserves(g, id, Queued(false));
    case DispatchFails(id) => ReleaseConserves(g, id, Refused);
    case Watch(id) =>
      if g.stages[id].Cancelled? {
        ReleaseConserves(g, id, Cancelled(true));
      } else {
        MoveConserves(g, id, Step(g, e).stages[id]);
      }
    case Start(id) => MoveConserves(g, id, Running(g.stages[id].watched));
    case End(id) => ReleaseConserves(g, id, Leaving(g.stages[id].watched));
    case SetResult(id) => MoveConserves(g, id, Finished(g.stages[id].watched));
    case Cancel(id) =>
      if g.stages[id].watched {
        ReleaseConserves(g, id, Cancelled(true));
      } else {
        MoveConserves(g, id, Cancelled(false));
      }
    case Shutdown => CloseConserves(g);
  }

  lemma CloseConserves(g: Gate)
    requires Conserved(g)
    ensures Conserved(g.(closed := true))
  {
  }

  /** The gate after a sequence of steps, or None when one of them was not possible. */
  ghost function RunEvents(max: nat, events: seq<Event>): Option<Gate> {
    if events == [] then Some(Open(max))
    else
      var last := |events| - 1;
      var before := RunEvents(max, events[..last]);
      if before.Some? && Can(before.value, events[last]) then Some(Step(before.value, events[last])) else None
  }

  /** Conservation over all interleavings. */
  lemma {:induction false} SlotsConserved(max: nat, events: seq<Event>)
    requires RunEvents(max, events).Some?
    ensures Conserved(RunEvents(max, events).value) && RunEvents(max, events).value.max == max
  {
    hide Conserved, Step, Can;
    if events == [] {
      OpenConserved(max);
    } else {
      var last := |events| - 1;
      SlotsConserved(max, events[..last]);
      StepConserves(RunEvents(max, events[..last]).value, events[last]);
    }
  }

  lemma OpenConserved(max: nat)
    ensures Conserved(Open(max))
  {
    assert Holders(map[]) == {};
  }

  /** The submission is over: rejected, finished, or cancelled with its callback in place. */
  predicate Settled(stage: Stage) {
    stage.Refused? || stage.Leaving? || stage.Finished? || (stage.Cancelled? && stage.watched)
  }

  /** No leak: once every submission is over, every slot is free, each released exactly once. */
  lemma NoSlotLeaks(max: nat, events: seq<Event>)
    requires RunEvents(max, events).Some?
    requires forall id :: id in RunEvents(max, events).value.stages ==> Settled(RunEvents(max, events).value.stages[id])
    ensures RunEvents(max, events).value.free == max
    ensures forall id :: id in RunEvents(max, events).value.stages ==>
              id in RunEvents(max, events).value.releases && RunEvents(max, events).value.releases[id] == 1
  {
    SlotsConserved(max, events);
    assert Holders(RunEvents(max, events).value.stages) == {};
  }

  /** Never over-released: whenever a slot is given back, at least one was out. */
  lemma NeverOverReleased(max: nat, events: seq<Event>, e: Event)
    requires RunEvents(max, events).Some? && Can(RunEvents(max, events).value, e)
        && Releases(RunEvents(max, events).value, e)
    ensures RunEvents(max, events).value.free < max
  {
    hide Conserved, Step, Can;
    SlotsConserved(max, events);
    StepConserves(RunEvents(max, events).value, e);
  }

  /** Submissions that take up a slot: handed in, queued, running, or cancelled without their compensation yet. */
  ghost function TakingSlots(stages: map<nat, Stage>): set<nat> {
    set id | id in stages &&
        (stages[id].Acquired? || stages[id].Queued? || stages[id].Running? || stages[id] == Cancelled(false))
  }

  /** A new submission gets a slot exactly while fewer than the maximum are taken: no slot is ever held back. */
  lemma SlotGrantedIff(max: nat, events: seq<Event>, id: nat)
    requires RunEvents(max, events).Some? && id !in RunEvents(max, events).value.stages
    ensures RunEvents(max, events + [Acquire(id)]).Some? <==> |TakingSlots(RunEvents(max, events).value.stages)| < max
  {
    hide Step;
    SlotsConserved(max, events);
    var g := RunEvents(max, events).value;
    assert TakingSlots(g.stages) == Holders(g.stages);
    assert (events + [Acquire(id)])[..|events|] == events;
  }
}
