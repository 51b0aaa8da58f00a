// Every interleaving of one run's writers with one subscriber: events are emitted, the run
// closes, is pruned from the registry, is resumed under a new LiveRun, and the subscriber
// pulls, in any order whatsoever.
module StreamProtocol {
  import opened Events
  import opened Streaming
  import EventLog

  // Where the subscriber stood when it left the replay for a LiveRun: position of its next
  // event, that LiveRun's base, the length of the log then, and what it had yielded.
  datatype Join = Join(position: nat, base: nat, logged: nat, yielded: nat)

  // lives: every LiveRun this process made for the run, oldest first. readEnd (length of the
  // log when the artifact was read), livesAtRead and join are history only.
  datatype Sys = Sys(
    log: seq<Event>, lives: seq<LiveView>, registered: Option<nat>,
    sub: Sub, held: Option<nat>, yielded: seq<Event>,
    readEnd: nat, livesAtRead: Option<nat>, join: Option<Join>)

  datatype Action =
    | Emit(name: string, body: string)   // LiveRun.sink, numbered by next_sequence()
    | CloseRun                           // broadcast_close(); done.set()
    | Prune                              // RunManager._prune drops a finished LiveRun
    | Register                           // start_run / resume_run / start_approval_resume
    | Pull                               // the consumer asks for the next event

  function Init(log: seq<Event>, from: int): Sys {
    Sys(log, [], None, Sub(from, Fresh), None, [], 0, None, None)
  }

  predicate Running(s: Sys) {
    |s.lives| > 0 && !s.lives[|s.lives| - 1].done
  }

  function ViewOf(s: Sys, k: Option<nat>): Option<LiveView> {
    if k.Some? && k.value < |s.lives| then Some(s.lives[k.value]) else None
  }

  function HeldView(s: Sys): LiveView {
    var v := ViewOf(s, s.held);
    if v.Some? then v.value else LiveView(0, [], true)
  }

  function ChangeLast(s: Sys, live: LiveView, item: Item): Sys
    requires |s.lives| > 0
  {
    s.(lives := s.lives[|s.lives| - 1 := live],
       sub := if s.held == Some(|s.lives| - 1) then Delivered(s.sub, item) else s.sub)
  }

  function Position(sub: Sub): nat {
    if sub.next < 0 then 0 else sub.next
  }

  predicate Reads(s: Sys) {
    s.sub.phase.Fresh? && ReadsDisk(s.sub.next, ViewOf(s, s.registered))
  }

  // Records the subscriber's new position; leaving the replay for a LiveRun is a join.
  function Record(s: Sys, sub: Sub, pull: Pull): (t: Sys)
    ensures t.log == s.log && t.lives == s.lives && t.registered == s.registered
  {
    var registered := ViewOf(s, s.registered);
    var joins := (s.sub.phase.Fresh? || s.sub.phase.Replaying?) && !sub.phase.Replaying? && registered.Some?;
    s.(sub := sub,
       yielded := if pull.Yielded? then s.yielded + [pull.event] else s.yielded,
       held := if joins then s.registered else s.held,
       readEnd := if Reads(s) then |s.log| else s.readEnd,
       livesAtRead := if Reads(s) then Some(|s.lives|) else s.livesAtRead,
       join := if joins then Some(Join(Position(s.sub), registered.value.base, |s.log|, |s.yielded|)) else s.join)
  }

  function Pulled(s: Sys): (Sub, Pull) {
    Resume(s.sub, s.log, ViewOf(s, s.registered), HeldView(s))
  }

  // A step that is not enabled changes nothing.
  function Apply(s: Sys, a: Action): Sys {
    match a
    case Emit(name, body) =>
      if !Running(s) then s
      else
        var live := s.lives[|s.lives| - 1];
        var e := Event(live.End(), name, body);
        ChangeLast(s, live.(events := live.events + [e]), Ev(e)).(log := s.log + [e])
    case CloseRun =>
      if !Running(s) then s else ChangeLast(s, s.lives[|s.lives| - 1].(done := true), Close)
    case Prune => if Running(s) then s else s.(registered := None)
    case Register =>
      if Running(s) then s
      else s.(lives := s.lives + [LiveView(|s.log|, [], false)], registered := Some(|s.lives|))
    case Pull => Record(s, Pulled(s).0, Pulled(s).1)
  }

  function Exec(s: Sys, actions: seq<Action>): Sys {
    if actions == [] then s else Apply(Exec(s, actions[..|actions| - 1]), actions[|actions| - 1])
  }

  // --- the invariant ---

  function Start(from: int): nat {
    if from < 0 then 0 else from
  }

  function Slice(log: seq<Event>, i: nat, j: nat): (r: seq<Event>)
    ensures |r| == if i < j <= |log| then j - i else 0
  {
    if i < j <= |log| then log[i..j] else []
  }

  // The in-memory mirror is the stretch of the log from its base.
  ghost predicate Mirrors(live: LiveView, log: seq<Event>) {
    live.End() <= |log| && forall i :: 0 <= i < |live.events| ==> live.events[i] == log[live.base + i]
  }

  ghost predicate LivesOk(s: Sys) {
    && Numbered(s.log)
    && (forall k :: 0 <= k < |s.lives| ==> Mirrors(s.lives[k], s.log))
    && (forall k :: 0 <= k < |s.lives| - 1 ==> s.lives[k].done)
    && (|s.lives| > 0 ==> s.lives[|s.lives| - 1].End() == |s.log|)
    && (s.registered.Some? ==> s.registered.value == |s.lives| - 1)
    && (Running(s) ==> s.registered.Some?)
  }

  // The queue is log[head..end], then the close sentinel once the run is done.
  ghost predicate QueueHolds(queue: seq<Item>, log: seq<Event>, head: nat, end: nat, done: bool) {
    && head <= end <= |log|
    && |queue| == end - head + (if done then 1 else 0)
    && (forall i :: 0 <= i < end - head ==> queue[i] == Ev(log[head + i]))
    && (done ==> queue[|queue| - 1] == Close)
  }

  function Head(queue: seq<Item>, live: LiveView): int {
    live.End() + (if live.done then 1 else 0) - |queue|
  }

  // First position the subscriber serves from the LiveRun it joined.
  function Resumes(j: Join): nat {
    if j.base > j.position then j.logged else j.position
  }

  function Upto(join: Option<Join>, next: int): nat {
    var p := if next < 0 then 0 else next;
    if join.Some? && Resumes(join.value) > p then Resumes(join.value) else p
  }

  // What has been yielded: the log from the start to the join, then from where the joined
  // LiveRun took over.
  ghost predicate YieldsOk(log: seq<Event>, yielded: seq<Event>, from: int, join: Option<Join>, next: int) {
    var start, p := Start(from), Upto(join, next);
    match join
    case None =>
      && yielded == Slice(log, start, p)
      && start <= p && (p <= |log| || p == start)
    case Some(j) =>
      && start <= j.position && (j.position <= j.logged || j.position == start)
      && j.base <= j.logged <= |log| && j.yielded == |Slice(log, start, j.position)|
      && yielded == Slice(log, start, j.position) + Slice(log, Resumes(j), p)
      && (p <= |log| || p == Resumes(j))
  }

  ghost predicate JoinOk(live: LiveView, j: Join, next: int) {
    && j.base == live.base && j.logged <= live.End()
    && (Upto(Some(j), next) <= live.End() || Upto(Some(j), next) == Resumes(j))
  }

  // A LiveRun that was joined after it closed sends no sentinel: catching up ends the stream.
  ghost predicate QueueOk(log: seq<Event>, live: LiveView, j: Join, next: int, queue: seq<Item>, catchingUp: bool) {
    && (if catchingUp then j.base <= j.position < next
        else Head(queue, live) <= Upto(Some(j), next)
             && (Upto(Some(j), next) == Upto(None, next) || Head(queue, live) == Upto(Some(j), next)))
    && ((catchingUp && live.done)
        || (0 <= Head(queue, live) && QueueHolds(queue, log, Head(queue, live), live.End(), live.done)))
  }

  // Where the replay ends: the end of what was read, if that lies past the start.
  function ReadTo(s: Sys, from: int): nat {
    if s.readEnd > Start(from) then s.readEnd else Start(from)
  }

  ghost predicate PhaseOk(s: Sys, from: int) {
    match s.sub.phase
    case Fresh => s.sub.next == from && s.join.None? && s.readEnd == 0 && s.livesAtRead.None?
    case Replaying(pending) =>
      && s.join.None? && s.sub.next > Start(from) && s.livesAtRead.Some?
      && s.sub.next + |pending| == s.readEnd
      && pending == Slice(s.log, s.sub.next, s.readEnd)
    case Attached(queue, catchingUp) =>
      && s.held.Some? && s.join.Some? && s.held.value < |s.lives|
      && JoinOk(s.lives[s.held.value], s.join.value, s.sub.next)
      && QueueOk(s.log, s.lives[s.held.value], s.join.value, s.sub.next, queue, catchingUp)
    case Ended =>
      if s.join.None? then Upto(s.join, s.sub.next) == ReadTo(s, from)
      else && s.held.Some? && s.held.value < |s.lives|
           && JoinOk(s.lives[s.held.value], s.join.value, s.sub.next)
           && s.lives[s.held.value].done && Upto(s.join, s.sub.next) >= s.lives[s.held.value].End()
  }

  ghost predicate SubOk(s: Sys, from: int) {
    && YieldsOk(s.log, s.yielded, from, s.join, s.sub.next)
    && s.readEnd <= |s.log|
    && (s.join.Some? && s.livesAtRead.Some? ==> s.join.value.position == ReadTo(s, from))
    && PhaseOk(s, from)
  }

  // A LiveRun already there when the disk was read starts no later than what was read.
  ghost predicate ReadOk(s: Sys) {
    && (s.livesAtRead.Some? ==>
          s.livesAtRead.value <= |s.lives|
          && forall k :: 0 <= k < s.livesAtRead.value ==> s.lives[k].base <= s.readEnd)
    && (s.join.Some? ==> s.held.Some? && s.held.value < |s.lives| && s.join.value.base == s.lives[s.held.value].base)
    && (s.join.Some? && s.livesAtRead.None? ==> s.join.value.base <= s.join.value.position)
    && (s.sub.phase.Fresh? ==> s.livesAtRead.None? && s.join.None?)
    && (s.sub.phase.Replaying? ==> s.livesAtRead.Some?)
  }

  ghost predicate Inv(s: Sys, from: int) {
    LivesOk(s) && SubOk(s, from) && ReadOk(s)
  }

  // --- one step ---

  lemma {:induction false} DrainStep(next: int, queue: seq<Item>, log: seq<Event>, head: nat, end: nat, done: bool,
                                     upto: nat)
    requires Numbered(log) && QueueHolds(queue, log, head, end, done)
    requires next <= upto && head <= upto && (upto == (if next < 0 then 0 else next) || head == upto)
    ensures var (sub, pull) := Drain(next, queue);
            match pull
            case Parked => !done && upto >= end && sub == Sub(next, Attached([], false))
            case Finished => done && upto >= end && sub == Sub(next, Ended)
            case Yielded(e) =>
              && upto < end && e == log[upto] && sub.next == upto + 1
              && sub.phase.Attached? && !sub.phase.catchingUp
              && QueueHolds(sub.phase.queue, log, upto + 1, end, done)
              && |sub.phase.queue| < |queue|
    decreases |queue|
  {
    if queue != [] && head < end {
      assert queue[0] == Ev(log[head]);
      if head < next {
        DrainStep(next, queue[1..], log, head + 1, end, done, upto);
      }
    }
  }

  lemma GrowSlices(log: seq<Event>, e: Event, i: nat, j: nat)
    requires j <= |log| || i >= j
    ensures Slice(log + [e], i, j) == Slice(log, i, j)
  {
  }

  lemma ExtendSlice(log: seq<Event>, i: nat, j: nat)
    requires i <= j < |log|
    ensures Slice(log, i, j) + [log[j]] == Slice(log, i, j + 1)
  {
  }

  // Joining a LiveRun that does not hold it: the subscriber starts from an empty queue.
  lemma JoinWaits(log: seq<Event>, yielded: seq<Event>, from: int, live: LiveView, next: int)
    requires YieldsOk(log, yielded, from, None, next) && live.End() == |log| && live.EventAt(next).None?
    requires next < 0 ==> log == []
    ensures var j := Join(Upto(None, next), live.base, |log|, |yielded|);
            && YieldsOk(log, yielded, from, Some(j), next)
            && JoinOk(live, j, next)
            && (!live.done ==> QueueOk(log, live, j, next, [], false))
            && Upto(Some(j), next) >= live.End()
  {
  }

  ghost predicate Leaving(s: Sys, from: int, live: LiveView) {
    && YieldsOk(s.log, s.yielded, from, None, s.sub.next) && s.join.None? && s.readEnd <= |s.log|
    && (s.sub.phase.Fresh? || s.sub.phase.Replaying?)
    && s.registered.Some? && s.registered.value < |s.lives| && s.lives[s.registered.value] == live
    && Mirrors(live, s.log) && live.End() == |s.log|
    && ReplayDone(s, from)
  }

  // The replay, if the disk was read at all, has been yielded to its end.
  predicate ReplayDone(s: Sys, from: int) {
    if Reads(s) then Position(s.sub) == if |s.log| > Start(from) then |s.log| else Start(from)
    else s.livesAtRead.Some? ==> Position(s.sub) == ReadTo(s, from)
  }

  lemma HandoverYields(s: Sys, from: int, live: LiveView)
    requires Leaving(s, from, live) && live.EventAt(s.sub.next).Some?
    ensures var (sub, pull) := CatchUp(s.sub.next, [], live);
            SubOk(Record(s, sub, pull), from)
  {
  }

  lemma HandoverWaits(s: Sys, from: int, live: LiveView)
    requires Leaving(s, from, live) && live.EventAt(s.sub.next).None?
    requires s.sub.next < 0 ==> s.log == []
    ensures var (sub, pull) := CatchUp(s.sub.next, [], live);
            SubOk(Record(s, sub, pull), from)
  {
    var next := s.sub.next;
    JoinWaits(s.log, s.yielded, from, live, next);
    var j := Join(Upto(None, next), live.base, |s.log|, |s.yielded|);
    var sub := if live.done then Sub(next, Ended) else Sub(next, Attached([], false));
    var t := Record(s, sub, if live.done then Finished else Parked);
    assert t.join == Some(j) && t.held == s.registered && t.yielded == s.yielded;
  }

  // Leaving the replay: the registered LiveRun takes over, or there is none.
  lemma HandoverKeeps(s: Sys, from: int)
    requires s.registered.Some? ==> s.registered.value < |s.lives| && Leaving(s, from, s.lives[s.registered.value])
    requires YieldsOk(s.log, s.yielded, from, None, s.sub.next) && s.join.None? && s.readEnd <= |s.log|
    requires ReplayDone(s, from) && (s.registered.None? ==> Reads(s) || s.livesAtRead.Some?)
    requires s.sub.next < 0 ==> s.log == []
    ensures var (sub, pull) := Handover(s.sub.next, ViewOf(s, s.registered));
            SubOk(Record(s, sub, pull), from)
  {
    if s.registered.Some? {
      var live := s.lives[s.registered.value];
      if live.EventAt(s.sub.next).Some? {
        HandoverYields(s, from, live);
      } else {
        HandoverWaits(s, from, live);
      }
    }
  }

  lemma PullFresh(s: Sys, from: int)
    requires LivesOk(s) && SubOk(s, from) && s.sub.phase.Fresh?
    ensures SubOk(Record(s, Pulled(s).0, Pulled(s).1), from)
  {
    if Reads(s) {
      var pending := ReadArtifact(s.log, s.sub.next - 1);
      var k := EventLog.SuffixStart(s.sub.next, |s.log|);
      assert pending == s.log[k..];
      if pending == [] {
        assert Pulled(s) == Handover(s.sub.next, ViewOf(s, s.registered));
        HandoverKeeps(s, from);
      } else {
        assert pending[0] == s.log[k] && k == Position(s.sub);
        assert Pulled(s) == (Sub(k + 1, Replaying(pending[1..])), Yielded(s.log[k]));
        assert pending[1..] == Slice(s.log, k + 1, |s.log|);
        assert Slice(s.log, k, k + 1) == [s.log[k]];
      }
    } else {
      HandoverKeeps(s, from);
    }
  }

  lemma PullReplay(s: Sys, from: int)
    requires LivesOk(s) && SubOk(s, from) && s.sub.phase.Replaying?
    ensures SubOk(Record(s, Pulled(s).0, Pulled(s).1), from)
  {
    var pending := s.sub.phase.pending;
    if pending == [] {
      HandoverKeeps(s, from);
    } else {
      var k := s.sub.next;
      assert pending[0] == s.log[k];
      assert Pulled(s) == (Sub(k + 1, Replaying(pending[1..])), Yielded(s.log[k]));
      ExtendSlice(s.log, Start(from), k);
      assert pending[1..] == Slice(s.log, k + 1, s.readEnd);
    }
  }

  // An attached subscriber yields the event it stands at.
  lemma YieldNext(log: seq<Event>, yielded: seq<Event>, from: int, j: Join, next: int)
    requires YieldsOk(log, yielded, from, Some(j), next) && Upto(Some(j), next) < |log|
    ensures YieldsOk(log, yielded + [log[Upto(Some(j), next)]], from, Some(j), Upto(Some(j), next) + 1)
  {
    ExtendSlice(log, Resumes(j), Upto(Some(j), next));
  }

  // What an attached subscriber keeps, whatever it pulls.
  ghost predicate Keeps(log: seq<Event>, yielded: seq<Event>, from: int, live: LiveView, j: Join, sub: Sub,
                        pull: Pull)
  {
    var yielded' := if pull.Yielded? then yielded + [pull.event] else yielded;
    && YieldsOk(log, yielded', from, Some(j), sub.next)
    && JoinOk(live, j, sub.next)
    && match sub.phase
       case Attached(queue, catchingUp) => QueueOk(log, live, j, sub.next, queue, catchingUp)
       case Ended => live.done && Upto(Some(j), sub.next) >= live.End()
       case _ => false
  }

  lemma DrainKeeps(log: seq<Event>, yielded: seq<Event>, from: int, live: LiveView, j: Join, next: int,
                   queue: seq<Item>)
    requires Numbered(log) && live.End() <= |log|
    requires YieldsOk(log, yielded, from, Some(j), next) && JoinOk(live, j, next)
    requires QueueOk(log, live, j, next, queue, false)
    ensures var (sub, pull) := Drain(next, queue); Keeps(log, yielded, from, live, j, sub, pull)
  {
    var upto := Upto(Some(j), next);
    DrainStep(next, queue, log, Head(queue, live), live.End(), live.done, upto);
    if upto < live.End() {
      YieldNext(log, yielded, from, j, next);
    }
  }

  lemma CatchUpKeeps(log: seq<Event>, yielded: seq<Event>, from: int, live: LiveView, j: Join, next: int,
                     queue: seq<Item>)
    requires Numbered(log) && Mirrors(live, log)
    requires YieldsOk(log, yielded, from, Some(j), next) && JoinOk(live, j, next)
    requires QueueOk(log, live, j, next, queue, true)
    ensures var (sub, pull) := CatchUp(next, queue, live); Keeps(log, yielded, from, live, j, sub, pull)
  {
    if live.EventAt(next).Some? {
      assert live.EventAt(next).value == log[next];
      YieldNext(log, yielded, from, j, next);
    } else if !live.done {
      assert QueueOk(log, live, j, next, queue, false);
      DrainKeeps(log, yielded, from, live, j, next, queue);
    }
  }

  lemma PullAttached(s: Sys, from: int)
    requires LivesOk(s) && SubOk(s, from) && s.sub.phase.Attached?
    ensures SubOk(Record(s, Pulled(s).0, Pulled(s).1), from)
  {
    var live, j := s.lives[s.held.value], s.join.value;
    var Attached(queue, catchingUp) := s.sub.phase;
    assert Mirrors(live, s.log);
    if catchingUp {
      CatchUpKeeps(s.log, s.yielded, from, live, j, s.sub.next, queue);
    } else {
      DrainKeeps(s.log, s.yielded, from, live, j, s.sub.next, queue);
    }
    var (sub, pull) := Pulled(s);
    assert Keeps(s.log, s.yielded, from, live, j, sub, pull);
    KeepsSubOk(s, from, sub, pull);
  }

  lemma KeepsSubOk(s: Sys, from: int, sub: Sub, pull: Pull)
    requires s.sub.phase.Attached? && s.held.Some? && s.held.value < |s.lives| && s.join.Some?
    requires s.readEnd <= |s.log| && (s.livesAtRead.Some? ==> s.join.value.position == ReadTo(s, from))
    requires Keeps(s.log, s.yielded, from, s.lives[s.held.value], s.join.value, sub, pull)
    ensures SubOk(Record(s, sub, pull), from)
  {
  }

  lemma LivesStep(s: Sys, a: Action)
    requires LivesOk(s)
    ensures LivesOk(Apply(s, a))
  {
    if a.Emit? && Running(s) {
      var t, last := Apply(s, a), |s.lives| - 1;
      assert Mirrors(s.lives[last], s.log);
      assert Mirrors(t.lives[last], t.log);
      forall k | 0 <= k < last ensures Mirrors(t.lives[k], t.log) {
        assert Mirrors(s.lives[k], s.log);
      }
    }
  }

  lemma YieldsGrow(log: seq<Event>, e: Event, yielded: seq<Event>, from: int, join: Option<Join>, next: int)
    requires YieldsOk(log, yielded, from, join, next)
    ensures YieldsOk(log + [e], yielded, from, join, next)
  {
    GrowSlices(log, e, Start(from), Upto(join, next));
    if join.Some? {
      GrowSlices(log, e, Start(from), join.value.position);
      GrowSlices(log, e, Resumes(join.value), Upto(join, next));
    }
  }

  // An event, or the sentinel, arrives while the subscriber holds the LiveRun that sends it.
  lemma QueueGrows(log: seq<Event>, live: LiveView, j: Join, next: int, queue: seq<Item>, catchingUp: bool, e: Event)
    requires QueueOk(log, live, j, next, queue, catchingUp) && !live.done && live.End() == |log|
    ensures QueueOk(log + [e], live.(events := live.events + [e]), j, next, queue + [Ev(e)], catchingUp)
    ensures QueueOk(log, live.(done := true), j, next, queue + [Close], catchingUp)
  {
  }

  lemma QueueStays(log: seq<Event>, live: LiveView, j: Join, next: int, queue: seq<Item>, catchingUp: bool, e: Event)
    requires QueueOk(log, live, j, next, queue, catchingUp) && live.End() <= |log|
    ensures QueueOk(log + [e], live, j, next, queue, catchingUp)
  {
  }

  lemma EmitStep(s: Sys, from: int, name: string, body: string)
    requires LivesOk(s) && SubOk(s, from) && Running(s)
    ensures SubOk(Apply(s, Emit(name, body)), from)
  {
    var t := Apply(s, Emit(name, body));
    var e := Event(|s.log|, name, body);
    YieldsGrow(s.log, e, s.yielded, from, s.join, s.sub.next);
    if s.sub.phase.Attached? {
      EmitWhileAttached(s, from, name, body);
    } else if s.sub.phase.Replaying? {
      assert t.sub == s.sub;
      GrowSlices(s.log, e, s.sub.next, s.readEnd);
    }
  }

  lemma EmitWhileAttached(s: Sys, from: int, name: string, body: string)
    requires LivesOk(s) && PhaseOk(s, from) && Running(s) && s.sub.phase.Attached?
    ensures PhaseOk(Apply(s, Emit(name, body)), from)
  {
    var k, e := s.held.value, Event(|s.log|, name, body);
    var j, next, queue, catchingUp := s.join.value, s.sub.next, s.sub.phase.queue, s.sub.phase.catchingUp;
    if k == |s.lives| - 1 {
      QueueGrows(s.log, s.lives[k], j, next, queue, catchingUp, e);
    } else {
      assert Mirrors(s.lives[k], s.log);
      QueueStays(s.log, s.lives[k], j, next, queue, catchingUp, e);
    }
  }

  lemma CloseStep(s: Sys, from: int)
    requires LivesOk(s) && SubOk(s, from) && Running(s)
    ensures SubOk(Apply(s, CloseRun), from)
  {
    var t := Apply(s, CloseRun);
    if s.sub.phase.Attached? && s.held.value == |s.lives| - 1 {
      QueueGrows(s.log, s.lives[s.held.value], s.join.value, s.sub.next, s.sub.phase.queue, s.sub.phase.catchingUp,
                 Event(0, "", ""));
    }
    assert PhaseOk(t, from);
  }

  lemma PullStep(s: Sys, from: int)
    requires LivesOk(s) && SubOk(s, from)
    ensures SubOk(Apply(s, Pull), from)
  {
    match s.sub.phase
    case Fresh => PullFresh(s, from);
    case Replaying(_) => PullReplay(s, from);
    case Attached(_, _) => PullAttached(s, from);
    case Ended =>
  }

  lemma SubStep(s: Sys, from: int, a: Action)
    requires LivesOk(s) && SubOk(s, from)
    ensures SubOk(Apply(s, a), from)
  {
    match a
    case Emit(name, body) => if Running(s) { EmitStep(s, from, name, body); }
    case CloseRun => if Running(s) { CloseStep(s, from); }
    case Prune =>
    case Register =>
    case Pull => PullStep(s, from);
  }

  lemma ReadStep(s: Sys, a: Action)
    requires LivesOk(s) && ReadOk(s)
    ensures ReadOk(Apply(s, a))
  {
  }

  lemma {:induction false} RunKeepsInv(log: seq<Event>, from: int, actions: seq<Action>)
    requires Numbered(log)
    ensures Inv(Exec(Init(log, from), actions), from)
  {
    if actions != [] {
      var before := Exec(Init(log, from), actions[..|actions| - 1]);
      var a := actions[|actions| - 1];
      RunKeepsInv(log, from, actions[..|actions| - 1]);
      LivesStep(before, a);
      SubStep(before, from, a);
      ReadStep(before, a);
    }
  }

  // --- what every run delivers ---

  // No duplicate, no reordering, no event but the log's own, none before the one asked for:
  // unconditionally.
  lemma DeliveredInOrder(log: seq<Event>, from: int, actions: seq<Action>)
    requires Numbered(log)
    ensures var s := Exec(Init(log, from), actions); InOrder(s.log, s.yielded, Start(from))
  {
    RunKeepsInv(log, from, actions);
    var s := Exec(Init(log, from), actions);
    YieldsInOrder(s.log, s.yielded, from, s.join, s.sub.next);
  }

  ghost predicate InOrder(log: seq<Event>, yielded: seq<Event>, start: nat) {
    && (forall i :: 0 <= i < |yielded| ==>
          start <= yielded[i].sequence < |log| && log[yielded[i].sequence] == yielded[i])
    && (forall i, k :: 0 <= i < k < |yielded| ==> yielded[i].sequence < yielded[k].sequence)
  }

  lemma YieldsInOrder(log: seq<Event>, yielded: seq<Event>, from: int, join: Option<Join>, next: int)
    requires Numbered(log) && YieldsOk(log, yielded, from, join, next)
    ensures InOrder(log, yielded, Start(from))
  {
    var start := Start(from);
    var first := if join.None? then yielded else Slice(log, start, join.value.position);
    var gap := if join.None? then 0 else Resumes(join.value) - join.value.position;
    assert gap >= 0;
    forall i | 0 <= i < |yielded|
      ensures var at := if i < |first| then start + i else start + i + gap;
              at < |log| && yielded[i] == log[at]
    {
    }
  }

  ghost predicate Contiguous(log: seq<Event>, yielded: seq<Event>, from: int) {
    yielded == Slice(log, Start(from), Start(from) + |yielded|)
  }

  // The handover met a LiveRun whose base lies past the subscriber's position, and the
  // subscriber has yielded since.
  predicate Skipped(join: Option<Join>, yielded: seq<Event>) {
    join.Some? && join.value.base > join.value.position && |yielded| > join.value.yielded
  }

  // The events missing then: from the position to the end of the log at the handover.
  ghost predicate MissesOnly(log: seq<Event>, yielded: seq<Event>, from: int, j: Join)
    requires |yielded| >= j.yielded
  {
    yielded == Slice(log, Start(from), j.position) + Slice(log, j.logged, j.logged + |yielded| - j.yielded)
  }

  // Exactly-once, in order and without a gap, exactly when no such handover took place.
  lemma GapExactlyWhenSkipped(log: seq<Event>, from: int, actions: seq<Action>)
    requires Numbered(log)
    ensures var s := Exec(Init(log, from), actions);
            && (Contiguous(s.log, s.yielded, from) <==> !Skipped(s.join, s.yielded))
            && (Skipped(s.join, s.yielded) ==> MissesOnly(s.log, s.yielded, from, s.join.value))
  {
    RunKeepsInv(log, from, actions);
    var s := Exec(Init(log, from), actions);
    GapOfYields(s.log, s.yielded, from, s.join, s.sub.next);
  }

  lemma GapOfYields(log: seq<Event>, yielded: seq<Event>, from: int, join: Option<Join>, next: int)
    requires Numbered(log) && YieldsOk(log, yielded, from, join, next)
    ensures Contiguous(log, yielded, from) <==> !Skipped(join, yielded)
    ensures Skipped(join, yielded) ==> |yielded| >= join.value.yielded && MissesOnly(log, yielded, from, join.value)
  {
    if join.Some? {
      var j, start, u := join.value, Start(from), Upto(join, next);
      var first, second := Slice(log, start, j.position), Slice(log, Resumes(j), u);
      if j.base > j.position && |second| > 0 {
        assert yielded[|first|] == log[j.logged];
        assert j.logged > j.position;
        if start + |yielded| <= |log| {
          assert Slice(log, start, start + |yielded|)[|first|] == log[start + |first|];
        }
      } else if j.base <= j.position {
        assert yielded == Slice(log, start, u);
      }
    }
  }

  // While no further LiveRun is registered after the artifact was read, nothing is skipped:
  // the replay reaches at least the base of every LiveRun that was there.
  lemma SameLiveRunNoGap(log: seq<Event>, from: int, actions: seq<Action>)
    requires Numbered(log)
    ensures var s := Exec(Init(log, from), actions);
            && (Skipped(s.join, s.yielded) ==>
                s.livesAtRead.Some? && s.held.Some? && s.held.value >= s.livesAtRead.value)
            && (s.livesAtRead == Some(|s.lives|) ==> Contiguous(s.log, s.yielded, from))
  {
    RunKeepsInv(log, from, actions);
    GapExactlyWhenSkipped(log, from, actions);
  }

  // --- no lost close ---

  // A pull blocks only while the held LiveRun is still running.
  lemma ParkedOnlyWhileRunning(log: seq<Event>, from: int, actions: seq<Action>)
    requires Numbered(log)
    ensures var s := Exec(Init(log, from), actions);
            Pulled(s).1.Parked? ==> Running(s) && Apply(s, Pull).held == Some(|s.lives| - 1)
  {
    RunKeepsInv(log, from, actions);
    if Pulled(Exec(Init(log, from), actions)).1.Parked? {
      ParkedPull(Exec(Init(log, from), actions), from);
    }
  }

  lemma ParkedPull(s: Sys, from: int)
    requires Inv(s, from) && Pulled(s).1.Parked?
    ensures Running(s) && Apply(s, Pull).held == Some(|s.lives| - 1)
  {
    SubStep(s, from, Pull);
    var t := Apply(s, Pull);
    assert t.sub.phase == Attached([], false);
    assert QueueOk(t.log, t.lives[t.held.value], t.join.value, t.sub.next, [], false);
  }
}
