// api/streaming.py and the event flow of api/runs.py: one run's event log, its live mirror
// and the subscriber that replays from disk, catches up from memory and then drains its
// queue. Every yield and every blocking queue.get is a step boundary; between two
// boundaries a coroutine runs alone.
module Streaming {
  import opened Events
  import EventLog

  // --- values ---

  datatype Item = Ev(event: Event) | Close

  // A LiveRun as its subscribers see it.
  datatype LiveView = LiveView(base: nat, events: seq<Event>, done: bool) {
    function End(): nat {
      base + |events|
    }

    function EventAt(sequence: int): Option<Event> {
      if 0 <= sequence - base < |events| then Some(events[sequence - base]) else None
    }
  }

  // Where a subscribe_events generator is suspended.
  datatype Phase =
    | Fresh
    | Replaying(pending: seq<Event>)
    | Attached(queue: seq<Item>, catchingUp: bool)
    | Ended

  datatype Sub = Sub(next: int, phase: Phase)

  datatype Pull = Yielded(event: Event) | Parked | Finished

  // read_artifact_events(run_id, after), as EventLog.ReplayReturnsTheLog gives it.
  function ReadArtifact(log: seq<Event>, after: int): seq<Event> {
    log[EventLog.SuffixStart(after + 1, |log|)..]
  }

  // --- subscribe_events, from one step boundary to the next ---

  // A pull blocks only with an emptied queue.
  function Drain(next: int, queue: seq<Item>): (r: (Sub, Pull))
    ensures r.0.phase.Attached? || r.0.phase.Ended?
    ensures r.1.Parked? ==> r.0.phase == Attached([], false)
    decreases |queue|
  {
    if queue == [] then (Sub(next, Attached([], false)), Parked)
    else if queue[0].Close? then (Sub(next, Ended), Finished)
    else if queue[0].event.sequence < next then Drain(next, queue[1..])
    else (Sub(queue[0].event.sequence + 1, Attached(queue[1..], false)), Yielded(queue[0].event))
  }

  function CatchUp(next: int, queue: seq<Item>, live: LiveView): (r: (Sub, Pull))
    ensures r.0.phase.Attached? || r.0.phase.Ended?
    ensures r.1.Parked? ==> r.0.phase == Attached([], false) && !live.done
  {
    match live.EventAt(next)
    case Some(e) => (Sub(next + 1, Attached(queue, true)), Yielded(e))
    case None => if live.done then (Sub(next, Ended), Finished) else Drain(next, queue)
  }

  function Handover(next: int, registered: Option<LiveView>): (r: (Sub, Pull))
    ensures r.0.phase.Attached? || r.0.phase.Ended?
    ensures r.1.Parked? ==> r.0.phase == Attached([], false)
  {
    match registered
    case None => (Sub(next, Ended), Finished)
    case Some(live) => CatchUp(next, [], live)
  }

  function FinishReplay(next: int, pending: seq<Event>, registered: Option<LiveView>): (r: (Sub, Pull))
    ensures !r.0.phase.Fresh?
    ensures r.1.Parked? ==> r.0.phase == Attached([], false)
    decreases |pending|
  {
    if pending == [] then Handover(next, registered)
    else if pending[0].sequence >= next then
      (Sub(pending[0].sequence + 1, Replaying(pending[1..])), Yielded(pending[0]))
    else FinishReplay(next, pending[1..], registered)
  }

  predicate ReadsDisk(next: int, registered: Option<LiveView>) {
    registered.None? || registered.value.base > next
  }

  // registered is manager.get(run_id) now; held is the LiveRun an attached subscriber kept.
  function Resume(sub: Sub, log: seq<Event>, registered: Option<LiveView>, held: LiveView): (Sub, Pull) {
    match sub.phase
    case Fresh =>
      if ReadsDisk(sub.next, registered) then
        FinishReplay(sub.next, ReadArtifact(log, sub.next - 1), registered)
      else Handover(sub.next, registered)
    case Replaying(pending) => FinishReplay(sub.next, pending, registered)
    case Attached(queue, catchingUp) =>
      if catchingUp then CatchUp(sub.next, queue, held) else Drain(sub.next, queue)
    case Ended => (sub, Finished)
  }

  function Delivered(sub: Sub, item: Item): Sub {
    if sub.phase.Attached? then sub.(phase := sub.phase.(queue := sub.phase.queue + [item])) else sub
  }

  // --- the objects ---

  // asyncio.Queue, unbounded.
  class EventQueue {
    var items: seq<Item>

    constructor ()
      ensures items == []
    {
      items := [];
    }
  }

  // The run's artifact, already read back as events.
  class Artifact {
    var log: seq<Event>
  }

  class LiveRun {
    const artifact: Artifact
    const baseSequence: nat
    var events: seq<Event>
    var subscribers: set<EventQueue>
    var done: bool

    // start_sequence is what next_sequence() counted on disk.
    constructor (artifact: Artifact)
      ensures this.artifact == artifact && View() == LiveView(|artifact.log|, [], false)
      ensures subscribers == {}
    {
      this.artifact := artifact;
      baseSequence := |artifact.log|;
      events, subscribers, done := [], {}, false;
    }

    ghost function View(): LiveView
      reads this
    {
      LiveView(baseSequence, events, done)
    }

    // put_nowait on every subscriber queue.
    method Broadcast(item: Item)
      modifies subscribers
      ensures forall q :: q in subscribers ==> q.items == old(q.items) + [item]
    {
      var left := subscribers;
      while left != {}
        invariant left <= subscribers
        invariant forall q :: q in subscribers - left ==> q.items == old(q.items) + [item]
        invariant forall q :: q in left ==> q.items == old(q.items)
        decreases left
      {
        var q :| q in left;
        q.items := q.items + [item];
        left := left - {q};
      }
    }

    // The run_project event sink: persist, mirror, fan out, all in one step.
    method Sink(event: Event)
      modifies this, artifact, subscribers
      ensures artifact.log == old(artifact.log) + [event]
      ensures View() == old(View()).(events := old(events) + [event])
      ensures subscribers == old(subscribers)
      ensures forall q :: q in subscribers ==> q.items == old(q.items) + [Ev(event)]
    {
      artifact.log := artifact.log + [event];
      events := events + [event];
      Broadcast(Ev(event));
    }

    // How every path of _drive ends: the close sentinel and done.set() with no await between.
    method Finish()
      modifies this, subscribers
      ensures View() == old(View()).(done := true)
      ensures subscribers == old(subscribers)
      ensures forall q :: q in subscribers ==> q.items == old(q.items) + [Close]
    {
      Broadcast(Close);
      done := true;
    }

    method EventAt(sequence: int) returns (r: Option<Event>)
      ensures r == View().EventAt(sequence)
    {
      var index := sequence - baseSequence;
      if 0 <= index < |events| {
        return Some(events[index]);
      }
      return None;
    }
  }

  // RunManager, restricted to one run id.
  class RunManager {
    const artifact: Artifact
    var live: LiveRun?

    constructor (artifact: Artifact)
      ensures this.artifact == artifact && live == null
    {
      this.artifact := artifact;
      live := null;
    }

    ghost function Registered(): Option<LiveView>
      reads this, live
    {
      if live == null then None else Some(live.View())
    }

    method ReadArtifactEvents(after: int) returns (r: seq<Event>)
      ensures r == ReadArtifact(artifact.log, after)
    {
      r := artifact.log[EventLog.SuffixStart(after + 1, |artifact.log|)..];
    }
  }

  datatype Where = AtStart | InReplay | InCatchUp | InDrain | AtEnd

  // The generator object: subscribe_events(manager, run_id, from_sequence).
  class Subscription {
    const manager: RunManager
    var nextSeq: int
    var at: Where
    var pending: seq<Event>
    var live: LiveRun?
    var queue: EventQueue

    constructor (manager: RunManager, fromSequence: int)
      ensures this.manager == manager && Valid() && View() == Sub(fromSequence, Fresh)
      ensures fresh(queue)
    {
      this.manager := manager;
      nextSeq, at, pending, live := fromSequence, AtStart, [], null;
      queue := new EventQueue();
    }

    ghost predicate Valid()
      reads this, live, queue
    {
      && ((at.InCatchUp? || at.InDrain?) ==> live != null && queue in live.subscribers)
      && ((at.AtStart? || at.InReplay?) ==> queue.items == [])
    }

    ghost function View(): Sub
      reads this, queue
    {
      Sub(nextSeq, match at
                   case AtStart => Fresh
                   case InReplay => Replaying(pending)
                   case InCatchUp => Attached(queue.items, true)
                   case InDrain => Attached(queue.items, false)
                   case AtEnd => Ended)
    }

    ghost function Held(): LiveView
      reads this, live
    {
      if live == null then LiveView(0, [], true) else live.View()
    }

    // One __anext__: runs the generator to its next yield, to its end, or until it blocks
    // on an empty queue.
    method Next() returns (r: Pull)
      requires Valid()
      modifies this, queue, live, manager.live
      ensures Valid()
      ensures (View(), r) == Resume(old(View()), manager.artifact.log, manager.Registered(), old(Held()))
      ensures manager.Registered() == old(manager.Registered())
      ensures old(at.InCatchUp? || at.InDrain?) ==> live == old(live) && Held() == old(Held())
      ensures !old(at.InCatchUp? || at.InDrain?) && (at.InCatchUp? || at.InDrain?) ==> live == manager.live
      ensures queue == old(queue)
    {
      if at.AtStart? {
        if manager.live == null || manager.live.baseSequence > nextSeq {
          pending := manager.ReadArtifactEvents(nextSeq - 1);
          at := InReplay;
        } else {
          r := Attach();
          return;
        }
      }
      if at.InReplay? {
        while pending != []
          invariant at.InReplay? && queue == old(queue) && queue.items == []
          invariant nextSeq == old(nextSeq) && manager.Registered() == old(manager.Registered())
          invariant FinishReplay(nextSeq, pending, old(manager.Registered()))
                    == Resume(old(View()), manager.artifact.log, old(manager.Registered()), old(Held()))
          decreases |pending|
        {
          var data := pending[0];
          pending := pending[1..];
          if data.sequence >= nextSeq {
            nextSeq := data.sequence + 1;
            return Yielded(data);
          }
        }
        r := Attach();
        return;
      }
      if at.InCatchUp? {
        r := RunCatchUp();
        return;
      }
      if at.InDrain? {
        r := RunDrain();
        return;
      }
      return Finished;
    }

    method Attach() returns (r: Pull)
      requires Valid() && (at.AtStart? || at.InReplay?)
      modifies this, queue, manager.live
      ensures Valid() && queue == old(queue)
      ensures (View(), r) == Handover(old(nextSeq), old(manager.Registered()))
      ensures manager.Registered() == old(manager.Registered())
      ensures live == manager.live
      ensures !at.AtStart? && !at.InReplay?
    {
      live := manager.live;
      if live == null {
        at := AtEnd;
        return Finished;
      }
      live.subscribers := live.subscribers + {queue};
      at := InCatchUp;
      r := RunCatchUp();
    }

    method RunCatchUp() returns (r: Pull)
      requires Valid() && at.InCatchUp?
      modifies this, queue, live
      ensures Valid() && queue == old(queue) && live == old(live)
      ensures (View(), r) == CatchUp(old(nextSeq), old(queue.items), old(live.View()))
      ensures live.View() == old(live.View())
      ensures !at.AtStart? && !at.InReplay?
    {
      var existing := live.EventAt(nextSeq);
      if existing.Some? {
        nextSeq := nextSeq + 1;
        return Yielded(existing.value);
      }
      if live.done {
        Leave();
        return Finished;
      }
      at := InDrain;
      r := RunDrain();
    }

    method RunDrain() returns (r: Pull)
      requires Valid() && at.InDrain?
      modifies this, queue, live
      ensures Valid() && queue == old(queue) && live == old(live)
      ensures (View(), r) == Drain(old(nextSeq), old(queue.items))
      ensures live.View() == old(live.View())
      ensures !at.AtStart? && !at.InReplay?
    {
      while queue.items != []
        invariant Valid() && at.InDrain? && queue == old(queue) && live == old(live)
        invariant nextSeq == old(nextSeq) && live.View() == old(live.View())
        invariant Drain(nextSeq, queue.items) == Drain(old(nextSeq), old(queue.items))
        decreases |queue.items|
      {
        var item := queue.items[0];
        queue.items := queue.items[1..];
        if item.Close? {
          Leave();
          return Finished;
        }
        if item.event.sequence >= nextSeq {
          nextSeq := item.event.sequence + 1;
          return Yielded(item.event);
        }
      }
      return Parked;
    }

    // The finally block.
    method Leave()
      requires live != null
      modifies this, live
      ensures at.AtEnd? && queue == old(queue) && live == old(live) && nextSeq == old(nextSeq)
      ensures live.View() == old(live.View()) && live.subscribers == old(live.subscribers) - {queue}
    {
      live.subscribers := live.subscribers - {queue};
      at := AtEnd;
    }
  }
}
