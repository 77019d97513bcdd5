/** The frames of one logo trail and what it tells its caller (`startLogoTrail` in apps/web/lib/motion/logo-trail.ts).
    The clock may read anything at each frame; `cancel` may come between any two frames. */
module LogoRun {
  import opened LogoTrail

  datatype Call = Progress(t: real) | Arrive | Done

  const ARRIVE_AT := 0.8

  datatype State = State(
    startedAt: real,
    duration: real,
    /** A frame is requested and has not come yet. */
    requested: bool,
    cancelled: bool,
    arrived: bool,
    /** The progress of each frame drawn, and the callbacks fired. */
    drawn: seq<real>,
    calls: seq<Call>)

  datatype Event = FrameComes(now: real) | Cancels

  function Start(startedAt: real, duration: real): State {
    State(startedAt, duration, true, false, false, [], [])
  }

  /** The frame at progress `t`. */
  function Drawn(s: State, t: real): State {
    var arrives := !s.arrived && t >= ARRIVE_AT;
    s.(requested := t < 1.0, arrived := s.arrived || arrives, drawn := s.drawn + [t],
       calls := s.calls + [Progress(t)] + (if arrives then [Arrive] else []) + (if t < 1.0 then [] else [Done]))
  }

  /** The progress of a frame, whatever the clock reads. */
  function ProgressAt(s: State, now: real): (t: real)
    requires s.duration > 0.0
    ensures 0.0 <= t <= 1.0
  {
    Clamp01((now - s.startedAt) / s.duration)
  }

  function Next(s: State, e: Event): State
    requires s.duration > 0.0
  {
    match e
    case FrameComes(now) =>
      if !s.requested then s
      else if s.cancelled then s.(requested := false)
      else Drawn(s, ProgressAt(s, now))
    case Cancels => if s.cancelled then s else s.(cancelled := true, requested := false)
  }

  function Run(s: State, events: seq<Event>): (r: State)
    requires s.duration > 0.0
    ensures r.duration == s.duration
  {
    if events == [] then s else Next(Run(s, events[..|events| - 1]), events[|events| - 1])
  }

  class Trail {
    const startedAt: real
    const duration: real
    var requested: bool
    var cancelled: bool
    var arrived: bool
    var drawn: seq<real>
    var calls: seq<Call>

    ghost function Model(): State
      reads this
    {
      State(startedAt, duration, requested, cancelled, arrived, drawn, calls)
    }

    constructor (startedAt: real, duration: real)
      requires duration > 0.0
      ensures Model() == Start(startedAt, duration)
    {
      this.startedAt, this.duration := startedAt, duration;
      requested, cancelled, arrived := true, false, false;
      drawn, calls := [], [];
    }

    /** The browser runs the frame that was requested, if any. */
    method Frame(now: real)
      requires duration > 0.0
      modifies this
      ensures Model() == Next(old(Model()), FrameComes(now))
    {
      if !requested { return; }
      requested := false;
      if cancelled { return; }
      var t := Clamp01((now - startedAt) / duration);
      calls := calls + [Progress(t)];
      if !arrived && t >= ARRIVE_AT {
        arrived := true;
        calls := calls + [Arrive];
      }
      drawn := drawn + [t];
      if t < 1.0 {
        requested := true;
        return;
      }
      calls := calls + [Done];
    }

    method Cancel()
      requires duration > 0.0
      modifies this
      ensures Model() == Next(old(Model()), Cancels)
    {
      if cancelled { return; }
      cancelled := true;
      requested := false;
    }
  }

  // ---------------------------------------------------------------------------------------------
  // What the caller hears
  // ---------------------------------------------------------------------------------------------

  /** Arrived by one of these frames. */
  predicate HasArrived(drawn: seq<real>) {
    exists i :: 0 <= i < |drawn| && drawn[i] >= 0.8
  }

  /** What frames of these progresses are to be heard as: each its progress, the first one that is far enough the
      arrival, a complete one the end. */
  function Heard(drawn: seq<real>): seq<Call> {
    if drawn == [] then []
    else
      var front, t := drawn[..|drawn| - 1], drawn[|drawn| - 1];
      Heard(front) + [Progress(t)] + (if t >= ARRIVE_AT && !HasArrived(front) then [Arrive] else []) + (if t < 1.0 then [] else [Done])
  }

  function Count(calls: seq<Call>, c: Call): nat {
    if calls == [] then 0 else Count(calls[..|calls| - 1], c) + if calls[|calls| - 1] == c then 1 else 0
  }

  ghost predicate Inv(s: State) {
    && s.calls == Heard(s.drawn)
    && (s.arrived <==> HasArrived(s.drawn))
    && (forall i :: 0 <= i < |s.drawn| ==> 0.0 <= s.drawn[i] <= 1.0)
    && (forall i :: 0 <= i < |s.drawn| - 1 ==> s.drawn[i] < 1.0)
    && (s.requested && s.drawn != [] ==> s.drawn[|s.drawn| - 1] < 1.0)
  }

  lemma DrawnKeeps(s: State, t: real)
    requires Inv(s) && s.requested && 0.0 <= t <= 1.0
    ensures Inv(Drawn(s, t))
  {
    var after := Drawn(s, t).drawn;
    assert after[..|after| - 1] == s.drawn;
    if HasArrived(s.drawn) {
      var i :| 0 <= i < |s.drawn| && s.drawn[i] >= ARRIVE_AT;
      assert after[i] >= ARRIVE_AT;
    }
    if t >= ARRIVE_AT {
      assert after[|s.drawn|] >= ARRIVE_AT;
    }
  }

  lemma NextKeeps(s: State, e: Event)
    requires s.duration > 0.0 && Inv(s)
    ensures Inv(Next(s, e))
  {
    hide ProgressAt;
    hide HasArrived;
    hide Heard;
    if e.FrameComes? && s.requested && !s.cancelled {
      DrawnKeeps(s, ProgressAt(s, e.now));
      hide Drawn;
    }
  }

  /** The object goes through `Run`. */
  method Drive(startedAt: real, duration: real, events: seq<Event>) returns (trail: Trail)
    requires duration > 0.0
    ensures fresh(trail) && trail.Model() == Run(Start(startedAt, duration), events)
    ensures Inv(trail.Model())
  {
    hide Next;
    trail := new Trail(startedAt, duration);
    for k := 0 to |events|
      invariant fresh(trail) && trail.Model() == Run(Start(startedAt, duration), events[..k])
    {
      assert events[..k + 1][..k] == events[..k];
      match events[k]
      case FrameComes(now) => trail.Frame(now);
      case Cancels => trail.Cancel();
    }
    assert events[..|events|] == events;
    RunKeeps(Start(startedAt, duration), events);
  }

  lemma {:induction false} RunKeeps(s: State, events: seq<Event>)
    requires s.duration > 0.0 && Inv(s)
    ensures Inv(Run(s, events))
    decreases |events|
  {
    if events != [] {
      RunKeeps(s, events[..|events| - 1]);
      NextKeeps(Run(s, events[..|events| - 1]), events[|events| - 1]);
    }
  }

  lemma CountOneMore(calls: seq<Call>, last: Call, c: Call)
    ensures Count(calls + [last], c) == Count(calls, c) + if last == c then 1 else 0
  {
    assert (calls + [last])[..|calls|] == calls;
  }

  lemma {:induction false} HeardOnce(drawn: seq<real>)
    requires forall i :: 0 <= i < |drawn| - 1 ==> drawn[i] < 1.0
    ensures Count(Heard(drawn), Arrive) == if HasArrived(drawn) then 1 else 0
    ensures Count(Heard(drawn), Done) == if drawn != [] && drawn[|drawn| - 1] >= 1.0 then 1 else 0
    decreases |drawn|
  {
    if drawn != [] {
      var front, t := drawn[..|drawn| - 1], drawn[|drawn| - 1];
      HeardOnce(front);
      var told := Heard(front) + [Progress(t)];
      CountOneMore(Heard(front), Progress(t), Arrive);
      CountOneMore(Heard(front), Progress(t), Done);
      if t >= ARRIVE_AT && !HasArrived(front) {
        CountOneMore(told, Arrive, Arrive);
        CountOneMore(told, Arrive, Done);
        EndCounted(told + [Arrive], t);
      } else {
        EndCounted(told, t);
        assert told + [] == told;
      }
      ArrivedByTheLast(drawn);
    }
  }

  lemma EndCounted(calls: seq<Call>, t: real)
    ensures var ended := calls + (if t < 1.0 then [] else [Done]);
            Count(ended, Arrive) == Count(calls, Arrive) && Count(ended, Done) == Count(calls, Done) + if t < 1.0 then 0 else 1
  {
    CountOneMore(calls, Done, Arrive);
    CountOneMore(calls, Done, Done);
    assert calls + [] == calls;
  }

  lemma ArrivedByTheLast(drawn: seq<real>)
    requires drawn != []
    ensures HasArrived(drawn) <==> HasArrived(drawn[..|drawn| - 1]) || drawn[|drawn| - 1] >= ARRIVE_AT
  {
    if HasArrived(drawn[..|drawn| - 1]) {
      var i :| 0 <= i < |drawn| - 1 && drawn[..|drawn| - 1][i] >= ARRIVE_AT;
      assert drawn[i] >= ARRIVE_AT;
    }
    if HasArrived(drawn) {
      var i :| 0 <= i < |drawn| && drawn[i] >= ARRIVE_AT;
      if i < |drawn| - 1 {
        assert drawn[..|drawn| - 1][i] >= ARRIVE_AT;
      }
    }
  }

  /** Whatever the clock reads and whenever the trail is cancelled: the caller hears the progress of every frame drawn,
      the arrival once, with the first frame far enough, and the end once, after a last frame that is complete and
      after the arrival. */
  lemma CallbacksFireOnce(startedAt: real, duration: real, events: seq<Event>)
    requires duration > 0.0
    ensures var s := Run(Start(startedAt, duration), events);
            && s.calls == Heard(s.drawn)
            && Count(s.calls, Arrive) == (if HasArrived(s.drawn) then 1 else 0)
            && Count(s.calls, Done) == (if s.drawn != [] && s.drawn[|s.drawn| - 1] == 1.0 then 1 else 0)
            && Count(s.calls, Done) <= Count(s.calls, Arrive)
            && forall i :: 0 <= i < |s.drawn| - 1 ==> s.drawn[i] < 1.0
  {
    assert Inv(Start(startedAt, duration));
    hide Run;
    hide Heard;
    hide Count;
    hide HasArrived;
    var s := Run(Start(startedAt, duration), events);
    RunKeeps(Start(startedAt, duration), events);
    HeardOnce(s.drawn);
    if s.drawn != [] {
      ArrivedByTheLast(s.drawn);
    }
  }

  /** After `cancel`, or once it has ended, a trail is silent and draws nothing more. */
  lemma {:induction false} NothingAfterTheEnd(s: State, events: seq<Event>)
    requires s.duration > 0.0 && (s.cancelled || !s.requested)
    ensures var later := Run(s, events);
            later.calls == s.calls && later.drawn == s.drawn && (later.cancelled || !later.requested)
    decreases |events|
  {
    if events != [] {
      NothingAfterTheEnd(s, events[..|events| - 1]);
    }
  }

  /** Cancelling takes the frame back and marks the trail; nothing is drawn or told by it, and a second time it does
      nothing. A frame that comes is drawn and told, and asks for the next one exactly until the trail is complete. */
  lemma WhatEventsDo(s: State, now: real)
    requires s.duration > 0.0
    ensures Next(s, Cancels) == if s.cancelled then s else s.(cancelled := true, requested := false)
    ensures var after := Next(s, FrameComes(now));
            && (!s.requested ==> after == s)
            && (s.requested && s.cancelled ==> after == s.(requested := false))
            && (s.requested && !s.cancelled ==>
                  && |after.drawn| == |s.drawn| + 1 && after.drawn[..|s.drawn|] == s.drawn && !after.cancelled
                  && (after.requested <==> after.drawn[|s.drawn|] < 1.0)
                  && (now <= s.startedAt ==> after.drawn[|s.drawn|] == 0.0)
                  && (now >= s.startedAt + s.duration ==> after.drawn[|s.drawn|] == 1.0)
                  && (s.startedAt <= now <= s.startedAt + s.duration ==>
                        after.drawn[|s.drawn|] * s.duration == now - s.startedAt))
  {
    if s.requested && !s.cancelled {
      ProgressIs(s, now);
      hide ProgressAt;
    }
  }

  lemma ProgressIs(s: State, now: real)
    requires s.duration > 0.0
    ensures now <= s.startedAt ==> ProgressAt(s, now) == 0.0
    ensures now >= s.startedAt + s.duration ==> ProgressAt(s, now) == 1.0
    ensures s.startedAt <= now <= s.startedAt + s.duration ==> ProgressAt(s, now) * s.duration == now - s.startedAt
  {
    QuotientsGrow(now - s.startedAt, now - s.startedAt, s.duration);
    var x := (now - s.startedAt) / s.duration;
    ClampGrows(x, x);
    if s.startedAt <= now <= s.startedAt + s.duration {
      QuotientsGrow(0.0, now - s.startedAt, s.duration);
      QuotientsGrow(now - s.startedAt, s.duration, s.duration);
      assert 0.0 / s.duration == 0.0 && s.duration / s.duration == 1.0;
      assert x * s.duration == now - s.startedAt;
    }
  }
}
