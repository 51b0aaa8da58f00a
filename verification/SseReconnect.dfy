// The wire: the frames one GET of a run's event stream sends, and what a client that reconnects
// with the last id it saw receives in all.
module SseReconnect {
  import opened Events
  import opened StreamProtocol

  // One SSE frame: its id field is the sequence number.
  datatype Frame = Frame(id: int, event: string, data: Event)

  function EncodeSse(e: Event): Frame {
    Frame(e.sequence, e.name, e)
  }

  // sse_run_stream: frames up to and including the first terminal event.
  function SseFrames(pulled: seq<Event>): seq<Frame> {
    if pulled == [] then []
    else if Terminal(pulled[0]) then [EncodeSse(pulled[0])]
    else [EncodeSse(pulled[0])] + SseFrames(pulled[1..])
  }

  // The first sequence served for a query and a Last-Event-ID header.
  function FirstServed(fromQuery: int, lastEventId: Option<int>): int {
    (if lastEventId.Some? && lastEventId.value > fromQuery then lastEventId.value else fromQuery) + 1
  }

  // What is served lies past the query's sequence and past the last id, and nothing in between is
  // left out.
  lemma ServesPastBoth(fromQuery: int, lastEventId: Option<int>)
    ensures var first := FirstServed(fromQuery, lastEventId);
            && first > fromQuery && (lastEventId.Some? ==> first > lastEventId.value)
            && (first == fromQuery + 1 || (lastEventId.Some? && first == lastEventId.value + 1))
  {
  }

  // The stream stops right after the first terminal event, if there is one.
  lemma {:induction false} SseStopsAtTerminal(pulled: seq<Event>)
    ensures var frames, n := SseFrames(pulled), |SseFrames(pulled)|;
            && n <= |pulled|
            && (forall i :: 0 <= i < n ==> frames[i] == EncodeSse(pulled[i]))
            && (forall i :: 0 <= i < n - 1 ==> pulled[i].name !in {"run.completed", "run.failed", "run.cancelled"})
            && (n < |pulled| ==> n > 0 && pulled[n - 1].name in {"run.completed", "run.failed", "run.cancelled"})
  {
    if pulled != [] && !Terminal(pulled[0]) {
      SseStopsAtTerminal(pulled[1..]);
    }
  }

  // --- sessions ---

  // One connection: any run of the protocol from the log the process started with, cut after so
  // many frames.
  datatype Session = Session(log: seq<Event>, actions: seq<Action>, cut: nat)

  function Served(s: Session, next: int): Sys {
    Exec(Init(s.log, next), s.actions)
  }

  function FramesIn(s: Session, next: int): seq<Frame> {
    var frames := SseFrames(Served(s, next).yielded);
    if s.cut < |frames| then frames[..s.cut] else frames
  }

  // Where the connection after these frames starts.
  function Next(fromQuery: int, got: seq<Frame>): int {
    FirstServed(fromQuery, if got == [] then None else Some(got[|got| - 1].id))
  }

  // The frames received over the sessions, each asking for what follows the last id seen.
  function Got(fromQuery: int, sessions: seq<Session>): seq<Frame> {
    if sessions == [] then []
    else
      var earlier := Got(fromQuery, sessions[..|sessions| - 1]);
      earlier + FramesIn(sessions[|sessions| - 1], Next(fromQuery, earlier))
  }

  function LastServed(fromQuery: int, sessions: seq<Session>): Sys
    requires sessions != []
  {
    Served(sessions[|sessions| - 1], Next(fromQuery, Got(fromQuery, sessions[..|sessions| - 1])))
  }

  function LogAfter(fromQuery: int, sessions: seq<Session>): seq<Event> {
    if sessions == [] then [] else LastServed(fromQuery, sessions).log
  }

  // The sessions are of one run: its log only grows from one to the next.
  ghost predicate Chained(fromQuery: int, sessions: seq<Session>) {
    sessions != [] ==>
      var earlier := sessions[..|sessions| - 1];
      && Chained(fromQuery, earlier)
      && Numbered(sessions[|sessions| - 1].log)
      && LogAfter(fromQuery, earlier) <= LogAfter(fromQuery, sessions)
  }

  // The session was skipped on joining a LiveRun, and lasted long enough to show it.
  predicate Crosses(s: Session, next: int) {
    var t := Served(s, next);
    Skipped(t.join, t.yielded) && |FramesIn(s, next)| > t.join.value.yielded
  }

  predicate SomeCrosses(fromQuery: int, sessions: seq<Session>) {
    sessions != [] &&
    var earlier := sessions[..|sessions| - 1];
    SomeCrosses(fromQuery, earlier) || Crosses(sessions[|sessions| - 1], Next(fromQuery, Got(fromQuery, earlier)))
  }

  // --- what is received ---

  // Frames of the log, none before start, in rising order.
  ghost predicate Rising(frames: seq<Frame>, log: seq<Event>, start: nat) {
    && (forall i :: 0 <= i < |frames| ==>
          start <= frames[i].id < |log| && frames[i] == EncodeSse(log[frames[i].id]))
    && (forall i, k :: 0 <= i < k < |frames| ==> frames[i].id < frames[k].id)
  }

  // The frames of log[start..], as many as there are.
  ghost predicate FramesOf(frames: seq<Frame>, log: seq<Event>, start: nat) {
    && (frames != [] ==> start + |frames| <= |log|)
    && forall i :: 0 <= i < |frames| ==> frames[i] == EncodeSse(log[start + i])
  }

  // Rising frames are a stretch of the log exactly when their ids are consecutive.
  predicate Consecutive(frames: seq<Frame>, start: nat) {
    forall i :: 0 <= i < |frames| ==> frames[i].id == start + i
  }

  lemma StretchIffConsecutive(frames: seq<Frame>, log: seq<Event>, from: nat, start: nat)
    requires Numbered(log) && Rising(frames, log, from)
    ensures FramesOf(frames, log, start) <==> Consecutive(frames, start)
  {
    if FramesOf(frames, log, start) {
      assert forall i :: 0 <= i < |frames| ==> frames[i].id == log[start + i].sequence;
    }
    if Consecutive(frames, start) && frames != [] {
      assert frames[|frames| - 1].id == start + |frames| - 1;
    }
  }

  lemma RisingJoins(first: seq<Frame>, second: seq<Frame>, before: seq<Event>, log: seq<Event>, start: nat, from: nat)
    requires Rising(first, before, start) && before <= log && Rising(second, log, from) && start <= from
    requires first != [] ==> first[|first| - 1].id < from
    ensures Rising(first + second, log, start)
  {
    var both := first + second;
    assert forall i :: 0 <= i < |first| ==> first[i].id <= first[|first| - 1].id;
    forall i | 0 <= i < |both|
      ensures start <= both[i].id < |log| && both[i] == EncodeSse(log[both[i].id])
    {
      assert both[i] == if i < |first| then first[i] else second[i - |first|];
    }
    forall i, k | 0 <= i < k < |both| ensures both[i].id < both[k].id {
      assert both[i] == if i < |first| then first[i] else second[i - |first|];
      assert both[k] == if k < |first| then first[k] else second[k - |first|];
    }
  }

  lemma ConsecutiveJoins(first: seq<Frame>, second: seq<Frame>, start: nat)
    ensures Consecutive(first + second, start) <==> Consecutive(first, start) && Consecutive(second, start + |first|)
  {
    var both := first + second;
    if Consecutive(both, start) {
      forall i | 0 <= i < |first| ensures first[i].id == start + i {
        assert both[i] == first[i];
      }
      forall i | 0 <= i < |second| ensures second[i].id == start + |first| + i {
        assert both[|first| + i] == second[i];
      }
    }
  }

  lemma NextFollows(fromQuery: int, got: seq<Frame>, log: seq<Event>)
    requires Rising(got, log, Start(fromQuery + 1))
    ensures Next(fromQuery, got) == if got == [] then fromQuery + 1 else got[|got| - 1].id + 1
  {
  }

  // What one session sends: a rising part of the log from the position asked for, and all of it
  // unless a join skipped events before the cut.
  ghost predicate Sends(s: Session, next: int) {
    var log := Served(s, next).log;
    && Numbered(log) && Rising(FramesIn(s, next), log, Start(next))
    && (Consecutive(FramesIn(s, next), Start(next)) <==> !Crosses(s, next))
  }

  lemma OneSession(s: Session, next: int)
    requires Numbered(s.log)
    ensures Sends(s, next)
  {
    var t, frames := Served(s, next), FramesIn(s, next);
    RunKeepsInv(s.log, next, s.actions);
    DeliveredInOrder(s.log, next, s.actions);
    SseStopsAtTerminal(t.yielded);
    assert FramesAre(frames, t.yielded);
    FramesRise(t.log, t.yielded, Start(next), frames);
    CrossingShows(t.log, t.yielded, next, t.join, t.sub.next, frames);
  }

  predicate FramesAre(frames: seq<Frame>, yielded: seq<Event>) {
    |frames| <= |yielded| && forall i :: 0 <= i < |frames| ==> frames[i] == EncodeSse(yielded[i])
  }

  lemma FramesRise(log: seq<Event>, yielded: seq<Event>, start: nat, frames: seq<Frame>)
    requires InOrder(log, yielded, start) && FramesAre(frames, yielded)
    ensures Rising(frames, log, start)
  {
  }

  // What was yielded first has consecutive numbers unless it goes past a join that skipped.
  lemma CrossingShows(log: seq<Event>, yielded: seq<Event>, from: int, join: Option<Join>, next: int,
                      frames: seq<Frame>)
    requires Numbered(log) && YieldsOk(log, yielded, from, join, next) && FramesAre(frames, yielded)
    ensures Consecutive(frames, Start(from)) <==> !(Skipped(join, yielded) && |frames| > join.value.yielded)
  {
    if Skipped(join, yielded) {
      SkippedIds(log, yielded, from, join.value, next, frames);
      if |frames| > join.value.yielded {
        assert frames[join.value.yielded].id != Start(from) + join.value.yielded;
      }
    } else {
      GapOfYields(log, yielded, from, join, next);
      ContiguousIds(log, yielded, from, frames);
    }
  }

  lemma ContiguousIds(log: seq<Event>, yielded: seq<Event>, from: int, frames: seq<Frame>)
    requires Numbered(log) && Contiguous(log, yielded, from) && FramesAre(frames, yielded)
    ensures Consecutive(frames, Start(from))
  {
    assert forall i :: 0 <= i < |yielded| ==> yielded[i] == log[Start(from) + i];
  }

  // The numbers around a join that skipped: consecutive before it, from the log's end then after.
  lemma SkippedIds(log: seq<Event>, yielded: seq<Event>, from: int, j: Join, next: int, frames: seq<Frame>)
    requires Numbered(log) && YieldsOk(log, yielded, from, Some(j), next) && FramesAre(frames, yielded)
    requires j.base > j.position
    ensures Start(from) <= j.position && (|frames| > j.yielded ==> Start(from) + j.yielded < j.logged)
    ensures forall i :: 0 <= i < |frames| ==>
              frames[i].id == if i < j.yielded then Start(from) + i else j.logged + i - j.yielded
    ensures |frames| > j.yielded ==> frames[j.yielded].id == j.logged
    ensures Start(from) + j.yielded <= j.position
  {
    var first, second := Slice(log, Start(from), j.position), Slice(log, j.logged, Upto(Some(j), next));
    assert yielded == first + second;
    forall i | 0 <= i < |frames|
      ensures frames[i].id == if i < |first| then Start(from) + i else j.logged + i - |first|
    {
      assert frames[i].id == yielded[i].sequence;
    }
  }

  // --- over all sessions ---

  // What is known after some sessions: what came is in order, and without a gap if none crossed.
  ghost predicate Known(fromQuery: int, got: seq<Frame>, log: seq<Event>, crossed: bool) {
    && Numbered(log) && Rising(got, log, Start(fromQuery + 1))
    && (Consecutive(got, Start(fromQuery + 1)) <==> !crossed)
    && (!crossed ==> Start(Next(fromQuery, got)) == Start(fromQuery + 1) + |got|)
  }

  lemma KnownStep(fromQuery: int, got: seq<Frame>, before: seq<Event>, crossed: bool, s: Session)
    requires var next := Next(fromQuery, got);
             Known(fromQuery, got, before, crossed) && Sends(s, next) && before <= Served(s, next).log
    ensures var next := Next(fromQuery, got);
            Known(fromQuery, got + FramesIn(s, next), Served(s, next).log, crossed || Crosses(s, next))
  {
    var next, start := Next(fromQuery, got), Start(fromQuery + 1);
    var more, log := FramesIn(s, next), Served(s, next).log;
    NextFollows(fromQuery, got, before);
    RisingJoins(got, more, before, log, start, Start(next));
    ConsecutiveJoins(got, more, start);
    NextFollows(fromQuery, got + more, log);
    if more != [] {
      assert (got + more)[|got + more| - 1] == more[|more| - 1];
    } else {
      assert got + more == got;
    }
  }

  lemma {:induction false} SessionsKnown(fromQuery: int, sessions: seq<Session>)
    requires Chained(fromQuery, sessions)
    ensures Known(fromQuery, Got(fromQuery, sessions), LogAfter(fromQuery, sessions), SomeCrosses(fromQuery, sessions))
  {
    if sessions != [] {
      var earlier, s := sessions[..|sessions| - 1], sessions[|sessions| - 1];
      SessionsKnown(fromQuery, earlier);
      OneSession(s, Next(fromQuery, Got(fromQuery, earlier)));
      KnownStep(fromQuery, Got(fromQuery, earlier), LogAfter(fromQuery, earlier), SomeCrosses(fromQuery, earlier), s);
    }
  }

  // Nothing is received twice, out of order, or from before the first event asked for; and over
  // any number of connections the client has each event from the first one asked for exactly
  // once if and only if no session lasted past a join that skipped. The next connection then
  // asks for the first event missing.
  lemma ReconnectsExactlyOnce(fromQuery: int, sessions: seq<Session>)
    requires Chained(fromQuery, sessions)
    ensures var start, got, log := Start(fromQuery + 1), Got(fromQuery, sessions), LogAfter(fromQuery, sessions);
            && Rising(got, log, start)
            && (FramesOf(got, log, start) <==> !SomeCrosses(fromQuery, sessions))
            && (!SomeCrosses(fromQuery, sessions) ==> Start(Next(fromQuery, got)) == start + |got|)
  {
    SessionsKnown(fromQuery, sessions);
    StretchIffConsecutive(Got(fromQuery, sessions), LogAfter(fromQuery, sessions),
                          Start(fromQuery + 1), Start(fromQuery + 1));
  }

  // --- a gap stays ---

  // Asked for, passed over, and not received.
  ghost predicate Missed(fromQuery: int, got: seq<Frame>, id: int) {
    Start(fromQuery + 1) <= id < Next(fromQuery, got) && forall i :: 0 <= i < |got| ==> got[i].id != id
  }

  lemma MissedStays(fromQuery: int, got: seq<Frame>, before: seq<Event>, more: seq<Frame>, log: seq<Event>, id: int)
    requires Missed(fromQuery, got, id) && Rising(got, before, Start(fromQuery + 1))
    requires Rising(more, log, Start(Next(fromQuery, got)))
    ensures Missed(fromQuery, got + more, id)
  {
    NextFollows(fromQuery, got, before);
    if more != [] {
      assert (got + more)[|got + more| - 1] == more[|more| - 1];
    } else {
      assert got + more == got;
    }
  }

  // Resuming by the last id never brings back an event that was passed over.
  lemma {:induction false} ResumingNeverFillsAGap(fromQuery: int, sessions: seq<Session>, more: seq<Session>, id: int)
    requires Chained(fromQuery, sessions + more) && Missed(fromQuery, Got(fromQuery, sessions), id)
    ensures Missed(fromQuery, Got(fromQuery, sessions + more), id)
  {
    if more == [] {
      assert sessions + more == sessions;
    } else {
      var earlier, s := sessions + more[..|more| - 1], more[|more| - 1];
      assert (sessions + more)[..|sessions + more| - 1] == earlier && (sessions + more)[|sessions + more| - 1] == s;
      ResumingNeverFillsAGap(fromQuery, sessions, more[..|more| - 1], id);
      MissedSession(fromQuery, earlier, s, id);
    }
  }

  lemma MissedSession(fromQuery: int, earlier: seq<Session>, s: Session, id: int)
    requires Chained(fromQuery, earlier) && Numbered(s.log) && Missed(fromQuery, Got(fromQuery, earlier), id)
    ensures Missed(fromQuery, Got(fromQuery, earlier) + FramesIn(s, Next(fromQuery, Got(fromQuery, earlier))), id)
  {
    var got := Got(fromQuery, earlier);
    var next := Next(fromQuery, got);
    SessionsKnown(fromQuery, earlier);
    OneSession(s, next);
    MissedStays(fromQuery, got, LogAfter(fromQuery, earlier), FramesIn(s, next), Served(s, next).log, id);
  }

  // What a session that crosses such a join leaves out: the events from the position it had
  // then to the end of the log then.
  ghost predicate LeavesOut(s: Session, next: int, id: int) {
    var t := Served(s, next);
    Crosses(s, next) && t.join.value.position <= id < t.join.value.logged
  }

  lemma CrossingLeavesOut(s: Session, next: int, id: int)
    requires Numbered(s.log) && LeavesOut(s, next, id)
    ensures var more := FramesIn(s, next);
            && Start(next) <= id < more[|more| - 1].id
            && forall i :: 0 <= i < |more| ==> more[i].id != id
  {
    var t := Served(s, next);
    RunKeepsInv(s.log, next, s.actions);
    SseStopsAtTerminal(t.yielded);
    SkippedIds(t.log, t.yielded, next, t.join.value, t.sub.next, FramesIn(s, next));
  }

  lemma CrossingMisses(fromQuery: int, got: seq<Frame>, before: seq<Event>, s: Session, id: int)
    requires Rising(got, before, Start(fromQuery + 1))
    requires Numbered(s.log) && LeavesOut(s, Next(fromQuery, got), id)
    ensures Missed(fromQuery, got + FramesIn(s, Next(fromQuery, got)), id)
  {
    var more := FramesIn(s, Next(fromQuery, got));
    NextFollows(fromQuery, got, before);
    CrossingLeavesOut(s, Next(fromQuery, got), id);
    assert (got + more)[|got + more| - 1] == more[|more| - 1];
    assert forall i :: 0 <= i < |got| ==> got[i].id <= got[|got| - 1].id;
  }

  // An event left out by a session on joining a LiveRun is never received, however often the
  // client reconnects.
  lemma SkippedForGood(fromQuery: int, earlier: seq<Session>, s: Session, more: seq<Session>, id: int)
    requires Chained(fromQuery, earlier + [s] + more)
    requires LeavesOut(s, Next(fromQuery, Got(fromQuery, earlier)), id)
    ensures Missed(fromQuery, Got(fromQuery, earlier + [s] + more), id)
  {
    var upto := earlier + [s];
    ChainedPrefix(fromQuery, upto, more);
    assert upto[..|upto| - 1] == earlier;
    SessionsKnown(fromQuery, earlier);
    CrossingMisses(fromQuery, Got(fromQuery, earlier), LogAfter(fromQuery, earlier), s, id);
    ResumingNeverFillsAGap(fromQuery, upto, more, id);
  }

  lemma {:induction false} ChainedPrefix(fromQuery: int, sessions: seq<Session>, more: seq<Session>)
    requires Chained(fromQuery, sessions + more)
    ensures Chained(fromQuery, sessions)
  {
    if more == [] {
      assert sessions + more == sessions;
    } else {
      assert (sessions + more)[..|sessions + more| - 1] == sessions + more[..|more| - 1];
      ChainedPrefix(fromQuery, sessions, more[..|more| - 1]);
    }
  }
}
