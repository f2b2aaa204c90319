/** The intro animation's phase timeline
    (src/components/IntroAnimation/IntroAnimation.tsx). Time is whole
    milliseconds since the component mounted; each `setTimeout` is a pending
    timer with an absolute deadline, fired in deadline order as time passes.
    Cleanup clears every pending timer. */
module Intro {
  import opened Optional

  datatype Phase = Scatter | Resolve | Complete

  /** Phases in timeline order. */
  function Rank(p: Phase): nat {
    match p
    case Scatter => 0
    case Resolve => 1
    case Complete => 2
  }

  /** The three timer delays, in milliseconds after the effect runs. */
  const ResolveDelay: nat := 200
  const CompleteDelay: nat := 1400
  const DoneDelay: nat := 1800

  /** What a timer does when it fires: `setPhase(...)` or `onComplete()`. */
  datatype Action = SetPhase(phase: Phase) | NotifyDone

  datatype Timer = Timer(deadline: nat, action: Action)

  /** The timers the effect starts when it runs at time `start`, in the order
      they are due. */
  function Schedule(start: nat): (ts: seq<Timer>)
    ensures |ts| == 3
    ensures forall k :: 0 < k < |ts| ==> ts[k - 1].deadline < ts[k].deadline
    ensures forall k :: 0 <= k < |ts| ==> start < ts[k].deadline <= start + DoneDelay
  {
    [ Timer(start + ResolveDelay, SetPhase(Resolve)),
      Timer(start + CompleteDelay, SetPhase(Complete)),
      Timer(start + DoneDelay, NotifyDone) ]
  }

  /** Reference timeline: the phase at elapsed time t. */
  function PhaseAt(t: nat): Phase {
    if t < ResolveDelay then Scatter
    else if t < CompleteDelay then Resolve
    else Complete
  }

  /** Reference timeline: how many times `onComplete` has been called by t. */
  function DoneCount(t: nat): nat {
    if t < DoneDelay then 0 else 1
  }

  /** Reference timeline: the timers of the first schedule still pending at t. */
  function Remaining(t: nat): seq<Timer> {
    if t < ResolveDelay then Schedule(0)
    else if t < CompleteDelay then Schedule(0)[1..]
    else if t < DoneDelay then Schedule(0)[2..]
    else []
  }

  /** The reference phase only moves forward in time. */
  lemma PhaseAtMonotone(t1: nat, t2: nat)
    requires t1 <= t2
    ensures Rank(PhaseAt(t1)) <= Rank(PhaseAt(t2))
    ensures DoneCount(t1) <= DoneCount(t2)
  {
  }

  /** `now`: current time; `notified`: how many times `onComplete` has been
      called; `mounted`: false once the component is gone. */
  datatype IntroState = IntroState(now: nat, phase: Phase, pending: seq<Timer>, notified: nat, mounted: bool)

  /** What the outside world can do to the component: let time pass,
      re-render it (with a callback of the same or of a new identity), or
      unmount it. */
  datatype Event = Elapse(ms: nat) | Rerender(callbackChanged: bool) | Unmount

  /** Mount at time 0: phase Scatter, the three timers pending. */
  function Start(): (s: IntroState)
    ensures s.now == 0 && s.phase == Scatter && s.notified == 0 && s.mounted
    ensures |s.pending| == 3
  {
    IntroState(0, Scatter, Schedule(0), 0, true)
  }

  /** What one timer does to the state: `setPhase` changes only the phase,
      `onComplete()` only the completion count. */
  function Perform(s: IntroState, a: Action): (r: IntroState)
    ensures r.now == s.now && r.pending == s.pending && r.mounted == s.mounted
    ensures a.SetPhase? ==> r.phase == a.phase && r.notified == s.notified
    ensures a.NotifyDone? ==> r.phase == s.phase && r.notified == s.notified + 1
  {
    match a
    case SetPhase(p) => s.(phase := p)
    case NotifyDone => s.(notified := s.notified + 1)
  }

  /** Fire, in order, the pending timers whose deadline is at most t. */
  function FireDue(s: IntroState, t: nat): (r: IntroState)
    ensures r.now == s.now && r.mounted == s.mounted
    ensures |r.pending| <= |s.pending|
    decreases |s.pending|
  {
    if |s.pending| > 0 && s.pending[0].deadline <= t then
      FireDue(Perform(s.(pending := s.pending[1..]), s.pending[0].action), t)
    else s
  }

  /** One event. A new callback identity re-runs the effect: its cleanup
      clears the pending timers and a fresh schedule starts now, while the
      phase keeps its value. Unmounting runs the cleanup. */
  function Step(s: IntroState, e: Event): (r: IntroState)
    ensures e.Elapse? ==> r.now == s.now + e.ms
    ensures !e.Elapse? ==> r.now == s.now
    ensures e.Unmount? ==> !r.mounted && r.pending == []
  {
    match e
    case Elapse(d) => FireDue(s, s.now + d).(now := s.now + d)
    case Rerender(changed) =>
      if s.mounted && changed then s.(pending := Schedule(s.now)) else s
    case Unmount => s.(pending := [], mounted := false)
  }

  function Run(s: IntroState, events: seq<Event>): IntroState
    decreases |events|
  {
    if |events| == 0 then s else Run(Step(s, events[0]), events[1..])
  }

  /** Events that never hand the component a new callback and never unmount
      it: what the component sees while its parent keeps it on screen. */
  predicate Stable(events: seq<Event>) {
    forall k :: 0 <= k < |events| ==> events[k].Elapse? || events[k] == Rerender(false)
  }

  /** Total time the events let pass. */
  function Elapsed(events: seq<Event>): nat
    decreases |events|
  {
    if |events| == 0 then 0
    else (if events[0].Elapse? then events[0].ms else 0) + Elapsed(events[1..])
  }

  /** The state agrees with the reference timeline at time u. */
  predicate OnTimeline(s: IntroState, u: nat) {
    s.phase == PhaseAt(u) && s.notified == DoneCount(u) && s.pending == Remaining(u)
  }

  /** Firing the timers due by t moves a state that is on the timeline at u
      onto the timeline at t. */
  lemma {:induction false} FireDueFollowsTimeline(s: IntroState, u: nat, t: nat)
    requires OnTimeline(s, u) && u <= t
    ensures OnTimeline(FireDue(s, t), t)
    decreases |s.pending|
  {
    if |s.pending| > 0 && s.pending[0].deadline <= t {
      var d := s.pending[0].deadline;
      var s' := Perform(s.(pending := s.pending[1..]), s.pending[0].action);
      assert OnTimeline(s', d);
      FireDueFollowsTimeline(s', d, t);
    }
  }

  /** One stable event keeps a mounted state on the timeline at its clock. */
  lemma StepFollowsTimeline(s: IntroState, e: Event)
    requires s.mounted && OnTimeline(s, s.now)
    requires e.Elapse? || e == Rerender(false)
    ensures Step(s, e).mounted && OnTimeline(Step(s, e), Step(s, e).now)
  {
    if e.Elapse? {
      FireDueFollowsTimeline(s, s.now, s.now + e.ms);
    }
  }

  lemma {:induction false} RunFollowsTimeline(s: IntroState, events: seq<Event>)
    requires s.mounted && OnTimeline(s, s.now) && Stable(events)
    ensures Run(s, events).mounted && OnTimeline(Run(s, events), Run(s, events).now)
    ensures Run(s, events).now == s.now + Elapsed(events)
    decreases |events|
  {
    if |events| > 0 {
      StepFollowsTimeline(s, events[0]);
      assert Stable(events[1..]) by {
        forall k | 0 <= k < |events[1..]| ensures events[1..][k].Elapse? || events[1..][k] == Rerender(false) {
          assert events[1..][k] == events[k + 1];
        }
      }
      RunFollowsTimeline(Step(s, events[0]), events[1..]);
    }
  }

  /** The timeline with no unmount and no new callback: whatever same-callback
      re-renders happen, after elapsed time t the phase is Scatter before
      200 ms, Resolve from 200 ms, Complete from 1400 ms, and `onComplete` has
      fired once if t >= 1800 and never before. */
  lemma Timeline(events: seq<Event>)
    requires Stable(events)
    ensures var s := Run(Start(), events);
      && s.now == Elapsed(events)
      && s.phase == (if s.now < 200 then Scatter else if s.now < 1400 then Resolve else Complete)
      && s.notified == (if s.now < 1800 then 0 else 1)
  {
    RunFollowsTimeline(Start(), events);
  }

  /** Once unmounted, nothing changes but the clock. */
  lemma {:induction false} UnmountedIsInert(s: IntroState, events: seq<Event>)
    requires !s.mounted && s.pending == []
    ensures var r := Run(s, events);
      && r.phase == s.phase && r.notified == s.notified && !r.mounted && r.pending == []
    decreases |events|
  {
    if |events| > 0 {
      UnmountedIsInert(Step(s, events[0]), events[1..]);
    }
  }

  /** Cancellation at time c: after the events before the unmount, the state
      is frozen at the timeline's value at c, whatever follows. In particular
      an unmount before 1800 ms means `onComplete` is never called, and one
      before 1400 ms means the phase never reaches Complete. */
  lemma CancelledAt(before: seq<Event>, after: seq<Event>)
    requires Stable(before)
    ensures var c := Elapsed(before);
      var r := Run(Start(), before + [Unmount] + after);
      && r.phase == PhaseAt(c)
      && r.notified == DoneCount(c)
      && (c < DoneDelay ==> r.notified == 0)
  {
    RunFollowsTimeline(Start(), before);
    RunAppend(Start(), before, [Unmount] + after);
    var m := Run(Start(), before);
    assert Run(m, [Unmount] + after) == Run(Step(m, Unmount), after) by {
      assert ([Unmount] + after)[1..] == after;
    }
    UnmountedIsInert(Step(m, Unmount), after);
    assert before + [Unmount] + after == before + ([Unmount] + after);
  }

  /** Running two event sequences one after the other. */
  lemma {:induction false} RunAppend(s: IntroState, a: seq<Event>, b: seq<Event>)
    ensures Run(s, a + b) == Run(Run(s, a), b)
    decreases |a|
  {
    if |a| == 0 {
      assert a + b == b;
    } else {
      assert (a + b)[0] == a[0];
      assert (a + b)[1..] == a[1..] + b;
      RunAppend(Step(s, a[0]), a[1..], b);
    }
  }

  /** No phase is re-entered: along a stable run, the phase observed after a
      shorter prefix never ranks above the phase after a longer one. */
  lemma PhaseNeverGoesBack(events: seq<Event>, i: nat, j: nat)
    requires Stable(events) && i <= j <= |events|
    ensures Rank(Run(Start(), events[..i]).phase) <= Rank(Run(Start(), events[..j]).phase)
  {
    var a := events[..i];
    var b := events[i..j];
    assert events[..j] == a + b;
    assert Stable(a) by { forall k | 0 <= k < |a| ensures a[k].Elapse? || a[k] == Rerender(false) { assert a[k] == events[k]; } }
    assert Stable(b) by { forall k | 0 <= k < |b| ensures b[k].Elapse? || b[k] == Rerender(false) { assert b[k] == events[i + k]; } }
    RunFollowsTimeline(Start(), a);
    var m := Run(Start(), a);
    RunFollowsTimeline(m, b);
    RunAppend(Start(), a, b);
    PhaseAtMonotone(m.now, m.now + Elapsed(b));
  }

  /** Why a stable callback matters: a re-render with a new callback after
      the phase reached Complete restarts the schedule, and 200 ms later the
      phase is back at Resolve. */
  lemma NewCallbackRestartsTimers()
    ensures Run(Start(), [Elapse(1500), Rerender(true), Elapse(200)]).phase == Resolve
  {
    var s1 := Step(Start(), Elapse(1500));
    assert s1.phase == Complete && s1.now == 1500 && s1.mounted by {
      FireDueFollowsTimeline(Start(), 0, 1500);
    }
    var s2 := Step(s1, Rerender(true));
    assert s2.pending == Schedule(1500);
    var s3 := Step(s2, Elapse(200));
    assert s3.phase == Resolve;
    assert [Elapse(1500), Rerender(true), Elapse(200)][1..] == [Rerender(true), Elapse(200)];
    assert [Rerender(true), Elapse(200)][1..] == [Elapse(200)];
  }

  /** The spelled name and its letters. */
  const Name: string := "PREETHI"

  /** A letter's starting rotation, in degrees, a pure function of its index. */
  function ScatterRotate(i: int): int {
    (i - 3) * 25
  }

  /** One letter as rendered: its character, the rotation it starts from, and
      whether it is animating to the rest pose. */
  datatype LetterView = LetterView(ch: char, initialRotate: int, atRest: bool)

  /** The overlay as rendered: one view per letter of the name. */
  datatype Overlay = Overlay(letters: seq<LetterView>)

  /** The component's output for a phase: the overlay is present until the
      phase is Complete, and letters move to the rest pose once the phase has
      left Scatter. */
  function Render(phase: Phase): (v: Option<Overlay>)
    ensures v.Some? <==> phase != Complete
    ensures v.Some? ==> |v.value.letters| == |Name|
    ensures v.Some? ==> forall i :: 0 <= i < |Name| ==>
      v.value.letters[i].ch == Name[i]
      && v.value.letters[i].initialRotate == (i - 3) * 25
      && (v.value.letters[i].atRest <==> phase != Scatter)
  {
    if phase == Complete then None
    else Some(Overlay(seq(|Name|, i requires 0 <= i < |Name| =>
      LetterView(Name[i], ScatterRotate(i), phase != Scatter))))
  }

  /** Rendering is a function of the phase alone, and the starting rotations
      do not depend on the phase: every render gives each letter the same
      starting rotation. */
  lemma RotationsDeterministic(p: Phase, q: Phase)
    requires p != Complete && q != Complete
    ensures forall i :: 0 <= i < |Name| ==>
      Render(p).value.letters[i].initialRotate == Render(q).value.letters[i].initialRotate
  {
  }

  /** The overlay over time: shown before 1400 ms, letters at rest from 200 ms. */
  lemma OverlayOverTime(events: seq<Event>)
    requires Stable(events)
    ensures var s := Run(Start(), events);
      && (Render(s.phase).Some? <==> s.now < 1400)
      && (Render(s.phase).Some? ==> forall i :: 0 <= i < |Name| ==>
            (Render(s.phase).value.letters[i].atRest <==> 200 <= s.now))
  {
    Timeline(events);
  }
}
