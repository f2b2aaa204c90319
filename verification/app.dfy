/** The page shell (src/App.tsx): a one-way `introComplete` gate that keeps
    the intro overlay mounted until the intro reports completion, and then
    reveals the navigation and hero. The intro itself is the `Intro` model. */
module App {
  import Intro

  /** The gate, and the intro component's state (kept after it unmounts, so
      that its clock and completion count stay observable). */
  datatype AppState = AppState(introComplete: bool, intro: Intro.IntroState)

  /** Time passing, or a re-render of the shell. */
  datatype AppEvent = Tick(ms: nat) | Render

  /** `handleIntroComplete`: whatever the gate was, it is open afterwards. */
  function HandleIntroComplete(introComplete: bool): (r: bool)
    ensures r
  {
    true
  }

  /** The gate after the completion callback has been called n times. */
  function CallbackCalls(introComplete: bool, n: nat): (r: bool)
    decreases n
  {
    if n == 0 then introComplete else CallbackCalls(HandleIntroComplete(introComplete), n - 1)
  }

  /** Calling the callback any positive number of times opens the gate, and
      calling it never closes it. */
  lemma {:induction false} CallbackIdempotent(introComplete: bool, n: nat)
    ensures CallbackCalls(introComplete, n) == (introComplete || n > 0)
    decreases n
  {
    if n > 0 {
      CallbackIdempotent(HandleIntroComplete(introComplete), n - 1);
    }
  }

  /** First render: the gate is closed and the intro is mounted. */
  function Init(): (a: AppState)
    ensures !a.introComplete && a.intro.mounted
  {
    AppState(false, Intro.Start())
  }

  /** One event. Time reaches the intro's timers; every `onComplete` they
      fire calls `handleIntroComplete`; once the gate is open the overlay is
      no longer rendered, so the intro unmounts and its cleanup runs. A
      re-render hands the intro the same callback, since `handleIntroComplete`
      is memoised with no dependencies. */
  function Step(a: AppState, e: AppEvent): (r: AppState)
    ensures a.introComplete ==> r.introComplete
    ensures r.introComplete && !a.introComplete ==> !r.intro.mounted && r.intro.pending == []
    ensures e.Render? ==> r.introComplete == a.introComplete
  {
    match e
    case Tick(d) =>
      var i := Intro.Step(a.intro, Intro.Elapse(d));
      var calls := if i.notified > a.intro.notified then i.notified - a.intro.notified else 0;
      CallbackIdempotent(a.introComplete, calls);
      var gate := CallbackCalls(a.introComplete, calls);
      if gate then AppState(gate, Intro.Step(i, Intro.Unmount))
      else AppState(gate, i)
    case Render =>
      AppState(a.introComplete, Intro.Step(a.intro, Intro.Rerender(false)))
  }

  function Run(a: AppState, events: seq<AppEvent>): AppState
    decreases |events|
  {
    if |events| == 0 then a else Run(Step(a, events[0]), events[1..])
  }

  /** Total time the events let pass. */
  function Elapsed(events: seq<AppEvent>): nat
    decreases |events|
  {
    if |events| == 0 then 0
    else (if events[0].Tick? then events[0].ms else 0) + Elapsed(events[1..])
  }

  /** What the shell renders from the gate. */
  datatype PageView = PageView(introMounted: bool, contentShown: bool, navigationVisible: bool, heroVisible: bool)

  /** The overlay is mounted exactly while the gate is closed, and the
      content, navigation and hero all show exactly when it is open. */
  function View(a: AppState): (v: PageView)
    ensures v.introMounted <==> !a.introComplete
    ensures v.contentShown == v.navigationVisible == v.heroVisible == a.introComplete
  {
    PageView(!a.introComplete, a.introComplete, a.introComplete, a.introComplete)
  }

  /** The states the shell can reach: the intro's clock is the page's clock,
      the gate is open exactly from 1800 ms, the intro is mounted exactly
      while the gate is closed, and while mounted it follows its timeline. */
  predicate Consistent(a: AppState) {
    && a.intro.notified == Intro.DoneCount(a.intro.now)
    && (a.introComplete <==> a.intro.now >= Intro.DoneDelay)
    && (a.intro.mounted <==> !a.introComplete)
    && (a.intro.mounted ==> Intro.OnTimeline(a.intro, a.intro.now))
    && (!a.intro.mounted ==> a.intro.pending == [])
  }

  lemma StepConsistent(a: AppState, e: AppEvent)
    requires Consistent(a)
    ensures Consistent(Step(a, e))
    ensures Step(a, e).intro.now == a.intro.now + (if e.Tick? then e.ms else 0)
  {
    if e.Tick? && a.intro.mounted {
      Intro.StepFollowsTimeline(a.intro, Intro.Elapse(e.ms));
    }
  }

  /** Starting from the first render, after any events the gate is open
      exactly when 1800 ms have passed, and `onComplete` has been called once
      if so and never otherwise. */
  lemma {:induction false} GateOpensAt1800(events: seq<AppEvent>)
    ensures Run(Init(), events).introComplete <==> Elapsed(events) >= 1800
    ensures Run(Init(), events).intro.notified == (if Elapsed(events) >= 1800 then 1 else 0)
    ensures View(Run(Init(), events)).introMounted <==> Elapsed(events) < 1800
  {
    RunConsistent(Init(), events);
  }

  lemma {:induction false} RunConsistent(a: AppState, events: seq<AppEvent>)
    requires Consistent(a)
    ensures Consistent(Run(a, events))
    ensures Run(a, events).intro.now == a.intro.now + Elapsed(events)
    decreases |events|
  {
    if |events| > 0 {
      StepConsistent(a, events[0]);
      RunConsistent(Step(a, events[0]), events[1..]);
    }
  }

  /** How many steps of a run open the gate. */
  function Openings(a: AppState, events: seq<AppEvent>): nat
    decreases |events|
  {
    if |events| == 0 then 0
    else (if !a.introComplete && Step(a, events[0]).introComplete then 1 else 0)
         + Openings(Step(a, events[0]), events[1..])
  }

  /** The page is revealed exactly once: the gate opens on one step of a run
      that lasts 1800 ms or more, and on none of a shorter run. */
  lemma RevealedExactlyOnce(events: seq<AppEvent>)
    ensures Openings(Init(), events) == (if Elapsed(events) >= 1800 then 1 else 0)
  {
    OpeningsCount(Init(), events);
    GateOpensAt1800(events);
  }

  lemma {:induction false} OpeningsCount(a: AppState, events: seq<AppEvent>)
    ensures Openings(a, events) == (if !a.introComplete && Run(a, events).introComplete then 1 else 0)
    decreases |events|
  {
    if |events| > 0 {
      var b := Step(a, events[0]);
      OpeningsCount(b, events[1..]);
      if b.introComplete {
        StaysOpen(b, events[1..]);
      }
    }
  }

  /** An open gate stays open. */
  lemma {:induction false} StaysOpen(a: AppState, events: seq<AppEvent>)
    requires a.introComplete
    ensures Run(a, events).introComplete
    ensures Openings(a, events) == 0
    decreases |events|
  {
    if |events| > 0 {
      StaysOpen(Step(a, events[0]), events[1..]);
    }
  }
}
