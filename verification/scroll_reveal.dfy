/** The scroll-reveal controller behind `useScrollReveal`
    (src/hooks/useScrollReveal.ts): one element, one intersection observer,
    one `isVisible` flag. The browser's intersection geometry is abstracted
    away: the observer delivers batches of entries, each entry carrying only
    its `isIntersecting` flag. */
module ScrollReveal {
  import opened Optional

  /** The hook's options as a caller passes them; every field may be omitted. */
  datatype Options = Options(threshold: Option<real>, rootMargin: Option<string>, once: Option<bool>)

  /** The options after defaults are filled in. */
  datatype Settings = Settings(threshold: real, rootMargin: string, once: bool)

  /** `useScrollReveal()` with no argument. */
  function NoOptions(): Options {
    Options(None, None, None)
  }

  /** Destructuring with defaults: threshold 0.1, root margin
      "0px 0px -50px 0px", and one-shot reveal; a supplied field wins. */
  function Resolve(o: Options): (s: Settings)
    ensures o.threshold.Some? ==> s.threshold == o.threshold.value
    ensures o.threshold.None? ==> s.threshold == 0.1
    ensures o.rootMargin.Some? ==> s.rootMargin == o.rootMargin.value
    ensures o.rootMargin.None? ==> s.rootMargin == "0px 0px -50px 0px"
    ensures o.once.Some? ==> s.once == o.once.value
    ensures o.once.None? ==> s.once
  {
    Settings(o.threshold.GetOr(0.1), o.rootMargin.GetOr("0px 0px -50px 0px"), o.once.GetOr(true))
  }

  /** The observer's relation to the element. `Unobserved` is the state after
      `observer.unobserve(element)`; `Disconnected` after the effect cleanup. */
  datatype Observer = NoObserver | Observing | Unobserved | Disconnected

  datatype RevealState = RevealState(settings: Settings, visible: bool, observer: Observer)

  /** A notification from the observer: a non-empty batch of entries, split
      into the first entry and the rest. */
  datatype Event =
    | Notify(first: bool, later: seq<bool>)
    | Cleanup

  /** First render and effect: `isVisible` starts false; an observer is
      installed only when the element is attached. */
  function Mount(settings: Settings, attached: bool): (s: RevealState)
    ensures !s.visible && s.settings == settings
    ensures s.observer == Observing <==> attached
    ensures !attached ==> s.observer == NoObserver
  {
    RevealState(settings, false, if attached then Observing else NoObserver)
  }

  /** The observer callback, for a batch whose first entry is `entry`: the new
      `isVisible` and whether it calls `unobserve`. Only the first entry of a
      batch is read. */
  function Callback(once: bool, visible: bool, entry: bool): (r: (bool, bool))
    ensures entry ==> r.0 && (r.1 <==> once)
    ensures !entry ==> !r.1 && (r.0 <==> visible && once)
  {
    if entry then (true, once)
    else if !once then (false, false)
    else (visible, false)
  }

  /** One event. Entries reach the callback only while the element is
      observed; cleanup disconnects an installed observer. */
  function Step(s: RevealState, e: Event): (t: RevealState)
    ensures t.settings == s.settings
    ensures s.observer != Observing && e.Notify? ==> t == s
    ensures e.Cleanup? ==> t.visible == s.visible && t.observer != Observing
  {
    match e
    case Notify(first, _) =>
      if s.observer != Observing then s
      else
        var (v, unobserve) := Callback(s.settings.once, s.visible, first);
        s.(visible := v, observer := if unobserve then Unobserved else Observing)
    case Cleanup =>
      if s.observer == NoObserver then s else s.(observer := Disconnected)
  }

  /** A sequence of events, delivered in order. */
  function Run(s: RevealState, events: seq<Event>): RevealState
    decreases |events|
  {
    if |events| == 0 then s else Run(Step(s, events[0]), events[1..])
  }

  /** An intersecting first entry delivered while observing reveals the element. */
  lemma IntersectingReveals(s: RevealState, later: seq<bool>)
    requires s.observer == Observing
    ensures Step(s, Notify(true, later)).visible
    ensures s.settings.once ==> Step(s, Notify(true, later)).observer == Unobserved
  {
  }

  /** Only the first entry of a batch is read: a batch whose first entry is
      not intersecting leaves a one-shot hook hidden and still observing, even
      when a later entry of the same batch is intersecting. */
  lemma LaterEntriesIgnored(s: RevealState, later: seq<bool>)
    requires s.settings.once && s.observer == Observing
    ensures Step(s, Notify(false, later)) == s
  {
  }

  /** The default hook, just mounted, receiving the batch [not intersecting,
      intersecting], stays hidden. */
  lemma DefaultHookMissesLaterEntry()
    ensures Run(Mount(Resolve(NoOptions()), true), [Notify(false, [true])]).visible == false
    ensures Run(Mount(Resolve(NoOptions()), true), [Notify(false, [true])]).observer == Observing
  {
    var s := Mount(Resolve(NoOptions()), true);
    LaterEntriesIgnored(s, [true]);
    assert Run(s, [Notify(false, [true])]) == Run(Step(s, Notify(false, [true])), []);
  }

  /** Without an attached element no observer exists, so nothing the browser
      could report changes `isVisible`: it stays false. */
  lemma {:induction false} DetachedStaysHidden(settings: Settings, events: seq<Event>)
    ensures Run(Mount(settings, false), events) == Mount(settings, false)
    decreases |events|
  {
    if |events| > 0 {
      DetachedStaysHidden(settings, events[1..]);
    }
  }

  /** With `once`, no step hides a revealed element. */
  lemma OnceStepMonotone(s: RevealState, e: Event)
    requires s.settings.once && s.visible
    ensures Step(s, e).visible
  {
  }

  /** With `once`, a revealed element stays revealed for every later
      sequence of events. */
  lemma {:induction false} OnceStaysVisible(s: RevealState, events: seq<Event>)
    requires s.settings.once && s.visible
    ensures Run(s, events).visible
    decreases |events|
  {
    if |events| > 0 {
      OnceStepMonotone(s, events[0]);
      OnceStaysVisible(Step(s, events[0]), events[1..]);
    }
  }

  /** The states the controller can reach: with `once`, a visible element is
      no longer observed, because the only way to become visible is the
      callback that also unobserves. */
  predicate Consistent(s: RevealState) {
    s.settings.once && s.visible ==> s.observer != Observing
  }

  /** With `once`, after the first reveal the element is never observed again,
      so further entries are not even delivered. */
  lemma {:induction false} OnceStopsObserving(settings: Settings, attached: bool, events: seq<Event>)
    requires settings.once
    ensures Consistent(Run(Mount(settings, attached), events))
  {
    ConsistentPreserved(Mount(settings, attached), events);
  }

  lemma {:induction false} ConsistentPreserved(s: RevealState, events: seq<Event>)
    requires Consistent(s)
    ensures Consistent(Run(s, events))
    decreases |events|
  {
    if |events| > 0 {
      ConsistentPreserved(Step(s, events[0]), events[1..]);
    }
  }

  /** After cleanup no entry changes anything: the disconnected observer
      delivers nothing. */
  lemma {:induction false} CleanupIsFinal(s: RevealState, events: seq<Event>)
    requires s.observer == Disconnected || s.observer == NoObserver
    ensures Run(s, events) == s
    decreases |events|
  {
    if |events| > 0 {
      CleanupIsFinal(Step(s, events[0]), events[1..]);
    }
  }

  /** Whether a sequence holds no cleanup. */
  predicate NoCleanup(events: seq<Event>) {
    forall k :: 0 <= k < |events| ==> events[k].Notify?
  }

  /** Repeatable reveal: with `once` off and the element observed, after a
      non-empty run of notifications `isVisible` is the first entry of the
      latest batch, and observation goes on. */
  lemma {:induction false} RepeatableMirrorsLatest(s: RevealState, events: seq<Event>)
    requires !s.settings.once && s.observer == Observing
    requires |events| > 0 && NoCleanup(events)
    ensures Run(s, events).visible == events[|events| - 1].first
    ensures Run(s, events).observer == Observing
    decreases |events|
  {
    var t := Step(s, events[0]);
    assert t.observer == Observing && t.settings == s.settings;
    if |events| > 1 {
      RepeatableMirrorsLatest(t, events[1..]);
      assert events[1..][|events[1..]| - 1] == events[|events| - 1];
    }
  }

  /** The same, for the usual case of one entry per batch: `isVisible` equals
      the `isIntersecting` of the most recently delivered entry. */
  lemma RepeatableSingleEntries(s: RevealState, entries: seq<bool>)
    requires !s.settings.once && s.observer == Observing && |entries| > 0
    ensures Run(s, seq(|entries|, k requires 0 <= k < |entries| => Notify(entries[k], []))).visible
            == entries[|entries| - 1]
  {
    var events := seq(|entries|, k requires 0 <= k < |entries| => Notify(entries[k], []));
    RepeatableMirrorsLatest(s, events);
  }

  /** A hook used with no options, as Projects, About, Contact and Footer do,
      mounted on an attached element, is one-shot and starts observing. */
  lemma DefaultHookIsOneShot()
    ensures Resolve(NoOptions()).once
    ensures Mount(Resolve(NoOptions()), true).observer == Observing
    ensures !Mount(Resolve(NoOptions()), true).visible
  {
  }
}
