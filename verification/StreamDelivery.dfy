// What a subscriber ends up with: no close is lost, exactly when a stream that has ended holds
// the whole log, and the two ways in which it does not.
module StreamDelivery {
  import opened Events
  import opened Streaming
  import opened StreamProtocol

  // --- no lost close ---

  function Pulls(actions: seq<Action>): nat {
    if actions == [] then 0
    else Pulls(actions[..|actions| - 1]) + if actions[|actions| - 1].Pull? then 1 else 0
  }

  // Pulls left for an attached subscriber once the run has closed.
  function Remaining(s: Sys): int
    requires s.sub.phase.Attached?
  {
    var live := HeldView(s);
    if !s.sub.phase.catchingUp then |s.sub.phase.queue|
    else if s.sub.next > live.End() then 1
    else live.End() - s.sub.next + 1
  }

  lemma InvStep(s: Sys, from: int, a: Action)
    requires Inv(s, from)
    ensures Inv(Apply(s, a), from)
  {
    LivesStep(s, a);
    SubStep(s, from, a);
    ReadStep(s, a);
  }

  // An attached subscriber, in a state the protocol reaches, whose LiveRun has closed.
  ghost predicate Closed(s: Sys, from: int) {
    Inv(s, from) && s.sub.phase.Attached? && HeldView(s).done
  }

  // Each pull of a closed run comes closer to the end, or reaches it.
  lemma ClosedPull(s: Sys, from: int)
    requires Closed(s, from)
    ensures Remaining(s) > 0
    ensures var t := Apply(s, Pull);
            && t.join == s.join && HeldView(t) == HeldView(s)
            && (t.sub.phase.Ended? || (Closed(t, from) && Remaining(t) < Remaining(s)))
  {
    InvStep(s, from, Pull);
    if s.sub.phase.catchingUp {
      ClosedCatchUp(s, from);
    } else {
      ClosedDrain(s, from);
    }
  }

  // How a pull of a closed run comes closer.
  ghost predicate Nearer(s: Sys, t: Sys)
    requires s.sub.phase.Attached?
  {
    Remaining(s) > 0 && (t.sub.phase.Ended? || (t.sub.phase.Attached? && Remaining(t) < Remaining(s)))
  }

  lemma ClosedCatchUp(s: Sys, from: int)
    requires Closed(s, from) && s.sub.phase.catchingUp
    ensures Nearer(s, Apply(s, Pull))
  {
  }

  lemma ClosedDrain(s: Sys, from: int)
    requires Closed(s, from) && !s.sub.phase.catchingUp
    ensures Nearer(s, Apply(s, Pull))
  {
    var live, queue := HeldView(s), s.sub.phase.queue;
    DrainStep(s.sub.next, queue, s.log, Head(queue, live), live.End(), live.done, Upto(s.join, s.sub.next));
  }

  // Everything up to the last event of the LiveRun held has been yielded, but for the stretch
  // between the two if that LiveRun began past the subscriber's position.
  ghost predicate HasAll(s: Sys, from: int) {
    s.join.Some? && HasAllOf(s.log, s.yielded, from, s.join.value, HeldView(s).End())
  }

  ghost predicate HasAllOf(log: seq<Event>, yielded: seq<Event>, from: int, j: Join, end: nat) {
    if j.base <= j.position then yielded == Slice(log, Start(from), end)
    else yielded == Slice(log, Start(from), j.position) + Slice(log, j.logged, end)
  }

  // From s, where the run had closed, so many pulls and any steps of others have led to t.
  ghost predicate ClosesIn(s: Sys, t: Sys, from: int, pulls: nat)
    requires s.sub.phase.Attached?
  {
    && Inv(t, from) && t.join == s.join && t.join.Some? && HeldView(t) == HeldView(s)
    && (t.sub.phase.Ended? || (Closed(t, from) && 0 < Remaining(t) <= Remaining(s) - pulls))
  }

  // What others do, the run being resumed, emitting, closing again or pruned, is nothing to a
  // subscriber whose LiveRun has closed.
  lemma OthersLeaveClosed(s: Sys, from: int, a: Action)
    requires Inv(s, from) && s.join.Some? && !a.Pull?
    requires s.sub.phase.Ended? || Closed(s, from)
    ensures var t := Apply(s, a); t.sub == s.sub && t.join == s.join && HeldView(t) == HeldView(s)
  {
  }

  lemma ClosesInStep(s: Sys, t: Sys, from: int, pulls: nat, a: Action)
    requires s.sub.phase.Attached? && ClosesIn(s, t, from, pulls)
    ensures ClosesIn(s, Apply(t, a), from, pulls + if a.Pull? then 1 else 0)
  {
    InvStep(t, from, a);
    if !a.Pull? {
      OthersLeaveClosed(t, from, a);
    } else if Closed(t, from) {
      ClosedPull(t, from);
      if !Apply(t, a).sub.phase.Ended? {
        ClosedPull(Apply(t, a), from);
      }
    }
  }

  lemma {:induction false} ClosesInAll(s: Sys, from: int, later: seq<Action>)
    requires Closed(s, from)
    ensures ClosesIn(s, Exec(s, later), from, Pulls(later))
  {
    if later == [] {
      ClosedPull(s, from);
    } else {
      var before := later[..|later| - 1];
      ClosesInAll(s, from, before);
      ClosesInStep(s, Exec(s, before), from, Pulls(before), later[|later| - 1]);
    }
  }

  // After the close, whatever else happens to the run, each pull brings the subscriber closer
  // to its end: as many as Remaining, known in advance, end the stream wherever they fall. It
  // has then yielded every event up to its LiveRun's last.
  lemma NoLostClose(log: seq<Event>, from: int, actions: seq<Action>, later: seq<Action>)
    requires Numbered(log)
    requires var s := Exec(Init(log, from), actions); s.sub.phase.Attached? && HeldView(s).done
    ensures var s := Exec(Init(log, from), actions);
            var t := Exec(s, later);
            && t.join == s.join && HeldView(t) == HeldView(s)
            && (Pulls(later) >= Remaining(s) ==> t.sub.phase.Ended?)
            && (if t.sub.phase.Ended? then HasAll(t, from)
                else t.sub.phase.Attached? && 0 < Remaining(t) <= Remaining(s) - Pulls(later))
  {
    RunKeepsInv(log, from, actions);
    var s := Exec(Init(log, from), actions);
    ClosesInAll(s, from, later);
    if Exec(s, later).sub.phase.Ended? {
      EndedHasAll(Exec(s, later), from);
    }
  }

  lemma EndedHasAll(s: Sys, from: int)
    requires Inv(s, from) && s.sub.phase.Ended?
    ensures s.join.Some? ==> HeldView(s).done && HasAll(s, from)
    ensures s.join.None? ==> s.yielded == Slice(s.log, Start(from), ReadTo(s, from))
  {
    if s.join.Some? {
      EndOfYields(s.log, s.yielded, from, HeldView(s), s.join.value, s.sub.next);
    }
  }

  lemma EndOfYields(log: seq<Event>, yielded: seq<Event>, from: int, live: LiveView, j: Join, next: int)
    requires YieldsOk(log, yielded, from, Some(j), next) && JoinOk(live, j, next) && live.End() <= |log|
    requires Upto(Some(j), next) >= live.End()
    ensures HasAllOf(log, yielded, from, j, live.End())
  {
  }

  // A stream that ended on a LiveRun has all of it, less the stretch that was skipped on
  // joining; one that ended without a LiveRun has exactly what was on disk when it was read.
  lemma EndedStreams(log: seq<Event>, from: int, actions: seq<Action>)
    requires Numbered(log)
    ensures var s := Exec(Init(log, from), actions);
            s.sub.phase.Ended? ==>
              if s.join.None? then s.yielded == Slice(s.log, Start(from), ReadTo(s, from))
              else HeldView(s).done && HasAll(s, from)
  {
    RunKeepsInv(log, from, actions);
    if Exec(Init(log, from), actions).sub.phase.Ended? {
      EndedHasAll(Exec(Init(log, from), actions), from);
    }
  }

  // --- when a stream is whole ---

  // Every event with a sequence from `from` on, in order.
  ghost predicate Whole(s: Sys, from: int) {
    s.yielded == Slice(s.log, Start(from), |s.log|)
  }

  // Nothing was emitted that the stream had no way to reach: nothing since the disk was read, or
  // nothing but the events of the LiveRun joined, which was registered before anything else was
  // emitted. A LiveRun joined without a read held the event asked for.
  predicate NothingOutOfReach(s: Sys, from: int) {
    if s.join.None? then s.readEnd == |s.log|
    else
      && (s.livesAtRead.Some? ==> HeldView(s).base <= ReadTo(s, from))
      && HeldView(s).End() == |s.log|
  }

  // A stream that has ended is whole if and only if that is so, or the log has no event to ask
  // for.
  lemma WholeIffNothingOutOfReach(log: seq<Event>, from: int, actions: seq<Action>)
    requires Numbered(log)
    requires Exec(Init(log, from), actions).sub.phase.Ended?
    ensures var s := Exec(Init(log, from), actions);
            Whole(s, from) <==> Start(from) >= |s.log| || NothingOutOfReach(s, from)
  {
    RunKeepsInv(log, from, actions);
    var s := Exec(Init(log, from), actions);
    EndedHasAll(s, from);
    if s.join.Some? {
      WholeAfterJoin(s, from);
    }
  }

  lemma WholeAfterJoin(s: Sys, from: int)
    requires Inv(s, from) && s.sub.phase.Ended? && s.join.Some? && HasAll(s, from)
    ensures Whole(s, from) <==> Start(from) >= |s.log| || NothingOutOfReach(s, from)
  {
    var j, end := s.join.value, HeldView(s).End();
    assert Mirrors(HeldView(s), s.log);
    if j.base <= j.position {
      assert |Slice(s.log, Start(from), end)| == |Slice(s.log, Start(from), |s.log|)|
             <==> Start(from) >= |s.log| || end == |s.log|;
    } else {
      assert |s.yielded| < |s.log| - Start(from);
    }
  }

  // --- the two ways to miss events ---

  // A client still reading the replay of one event while the run is resumed, closes and is
  // resumed again: the second LiveRun's base is past what the replay reached.
  lemma ResumedTwiceSkips(first: Event)
    requires first.sequence == 0
    ensures var s1 := Apply(Init([first], 0), Pull);
            var s2 := Apply(Apply(s1, Register), Emit("a", ""));
            var s3 := Apply(Apply(s2, CloseRun), Register);
            var s4 := Apply(Apply(s3, Pull), Emit("b", ""));
            var s5 := Apply(s4, Pull);
            s5.yielded == [first, Event(2, "b", "")] && |s5.log| == 3 && Skipped(s5.join, s5.yielded)
  {
    var a, b, sub := Event(1, "a", ""), Event(2, "b", ""), Sub(1, Replaying([]));
    var closed := LiveView(1, [a], true);
    ReplaysOne(first);
    var s2 := Apply(Sys([first], [LiveView(1, [], false)], Some(0), sub, None, [first], 1, Some(0), None),
                    Emit("a", ""));
    EmitsOne(first, a, sub);
    var s3 := Apply(Apply(s2, CloseRun), Register);
    assert s3 == Sys([first, a], [closed, LiveView(2, [], false)], Some(1), sub, None, [first], 1, Some(0), None);
    SkippingPulls([first, a], closed, b, first);
  }

  lemma ReplaysOne(first: Event)
    requires first.sequence == 0
    ensures Apply(Apply(Init([first], 0), Pull), Register)
            == Sys([first], [LiveView(1, [], false)], Some(0), Sub(1, Replaying([])), None, [first], 1, Some(0), None)
  {
  }

  lemma EmitsOne(first: Event, a: Event, sub: Sub)
    requires a == Event(1, "a", "")
    ensures Apply(Sys([first], [LiveView(1, [], false)], Some(0), sub, None, [first], 1, Some(0), None), Emit("a", ""))
            == Sys([first, a], [LiveView(1, [a], false)], Some(0), sub, None, [first], 1, Some(0), None)
  {
    assert [first] + [a] == [first, a] && [] + [a] == [a];
    assert [LiveView(1, [], false)][0 := LiveView(1, [a], false)] == [LiveView(1, [a], false)];
  }

  lemma SkippingPulls(log: seq<Event>, closed: LiveView, b: Event, first: Event)
    requires |log| == 2 && b == Event(2, "b", "")
    ensures var s3 := Sys(log, [closed, LiveView(2, [], false)], Some(1), Sub(1, Replaying([])), None,
                          [first], 1, Some(0), None);
            var s5 := Apply(Apply(Apply(s3, Pull), Emit("b", "")), Pull);
            s5.yielded == [first, b] && s5.log == log + [b] && s5.join == Some(Join(1, 2, 2, 1))
  {
  }

  // A client still reading the replay while the run is resumed, closes and is pruned: the
  // stream ends without the events emitted meanwhile.
  lemma PrunedRunLosesItsTail(first: Event)
    requires first.sequence == 0
    ensures var s1 := Apply(Init([first], 0), Pull);
            var s2 := Apply(Apply(s1, Register), Emit("a", ""));
            var s3 := Apply(Apply(Apply(s2, CloseRun), Prune), Pull);
            s3.sub.phase.Ended? && s3.yielded == [first] && |s3.log| == 2
  {
  }
}
