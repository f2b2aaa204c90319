# Portfolio page state machines, in Dafny

A model of the small amount of state behind a single-page portfolio site:
the intro animation's three-phase timer sequence, the page shell's one-way
`introComplete` gate, the scroll-reveal controller used by the Projects,
About, Contact and Footer components, the
project list's single-selection expand/collapse rule, and the contact links'
`mailto` rule. The intro, the gate, the scroll-reveal controller and the
expansion state are pure transition functions over explicit state, folded
over sequences of events, with lemmas about every sequence. Row and link
rendering are pure functions of that state and the static data.

| module | file | models |
|---|---|---|
| `Optional` | optional.dfy | `T \| null` / `T \| undefined` and destructuring defaults |
| `Projects` | projects.dfy | `expandedId`, `toggleProject`, `ProjectRow` rendering |
| `ScrollReveal` | scroll_reveal.dfy | `useScrollReveal`: option defaults, observer callback, guard, cleanup |
| `Intro` | intro.dfy | `IntroAnimation`: phase, the three timers, cleanup, overlay and letters |
| `App` | app.dfy | `App`: the gate, `handleIntroComplete`, mounting and `visible` wiring |
| `Contact` | contact.dfy | the declared links and the `startsWith('mailto')` rule |

How the outside world is represented:

- Time is whole milliseconds since the page mounted. A `setTimeout` is a
  pending timer with an absolute deadline; `Elapse(d)` fires, in deadline
  order, every pending timer due by the new time. A timer fires exactly at its
  deadline. When an unmount happens at time c, every timer due at or before c
  has already fired.
- The browser's intersection observer is a stream of notifications. Each
  notification is a non-empty batch of entries, and each entry carries only
  its `isIntersecting` flag. The callback destructures `[entry]`, so it reads
  only the first entry of a batch. The model does the same, which is why the
  repeatable-reveal lemma speaks of "the first entry of the latest batch".
  `RepeatableSingleEntries` gives the usual one-entry-per-batch reading.
- React re-renders are explicit events. The intro's effect depends on
  `onComplete`. `Rerender(true)` hands it a callback with a new identity, and
  `Rerender(false)` hands it the same one. The shell only ever passes the
  memoised `handleIntroComplete`, so it only sends `Rerender(false)`.

An element missing when the effect runs is never observed. The effect
re-runs only when `threshold`, `rootMargin` or `once` change
(src/hooks/useScrollReveal.ts:55), and `ScrollReveal.DetachedStaysHidden`
states that such an element stays hidden.

## Model

| member | source | states |
|---|---|---|
| `Projects.IsExpanded` | src/components/Projects/Projects.tsx:46 | A row is expanded iff its id equals the stored `expandedId`, and no row is expanded while the state is collapsed. |
| `Projects.Initial` | src/components/Projects/Projects.tsx:19 | Initially no row is expanded. |
| `Projects.Toggle` | src/components/Projects/Projects.tsx:22-24 | Toggling the expanded id collapses every row. Toggling any other id, from collapsed or from another open row, leaves exactly that row expanded. |
| `Projects.ToggleTwice` | src/components/Projects/Projects.tsx:22-24 | Two toggles of the same id give collapsed, unless that id was expanded at the start, in which case the state is restored. |
| `Projects.ClicksOpenOnlyLastClicked` | src/components/Projects/Projects.tsx:22-24 | After any non-empty click sequence, either nothing is open or the row clicked last is open. |
| `Projects.RepeatedClicksAlternate` | src/components/Projects/Projects.tsx:22-24 | Clicking one row n times from collapsed leaves it open exactly when n is odd. |
| `Projects.HeaderDomains` | src/components/Projects/Projects.tsx:86 | The header shows at most two domain tags: the first two in order, or all of them when there are fewer. |
| `Projects.ReadMore` | src/components/Projects/Projects.tsx:143-148 | The "Read more" link is present iff the record's link is present and non-empty, since an empty string is falsy. |
| `Projects.RenderRow` | src/components/Projects/Projects.tsx:65-155 | `aria-expanded` equals the expanded flag. The detail panel is rendered iff the row is expanded and carries the record's problem, constraints, methodology and outcome. "Read more" is present iff the record has a non-empty link, and then points to it. |
| `Projects.RenderList` | src/components/Projects/Projects.tsx:41-51 | There is one row per record, in order, and each row is expanded iff its id equals `expandedId`. |
| `Projects.AtMostOneOpen` | src/components/Projects/Projects.tsx:46 | When record ids are distinct, at most one row renders its panel in any state, and a row's `aria-expanded` is true iff the stored id is that row's id. |
| `Projects.CatalogueIds` | src/data/projects.ts:10-75 | The four project records have pairwise distinct ids. |
| `Projects.CatalogueAtMostOneOpen` | src/components/Projects/Projects.tsx:42-51 | For any list of records carrying the project data's four ids, in any state, at most one row is open, and a row is open iff its id is the stored one. |
| `ScrollReveal.Resolve` | src/hooks/useScrollReveal.ts:22-29 | Omitted options default to threshold 0.1, margin "0px 0px -50px 0px" and `once` = true. A supplied option overrides its default. |
| `ScrollReveal.Mount` | src/hooks/useScrollReveal.ts:31-38 | `isVisible` starts false. An observer is installed iff the element is attached. |
| `ScrollReveal.Callback` | src/hooks/useScrollReveal.ts:39-48 | An intersecting entry reveals the element, and it unobserves iff `once`. A non-intersecting entry never unobserves: it hides the element when `once` is false and leaves `isVisible` unchanged when `once` is true. |
| `ScrollReveal.Step` | src/hooks/useScrollReveal.ts:34-55 | Entries do nothing unless the element is observed. Cleanup keeps `isVisible` and ends observation. |
| `ScrollReveal.IntersectingReveals` | src/hooks/useScrollReveal.ts:39-44 | A batch whose first entry is intersecting, delivered while observing, sets `isVisible`, and with `once` it also stops observation. |
| `ScrollReveal.LaterEntriesIgnored` | src/hooks/useScrollReveal.ts:39-47 | With `once`, a batch whose first entry is not intersecting changes nothing, whatever its later entries say. |
| `ScrollReveal.DefaultHookMissesLaterEntry` | src/hooks/useScrollReveal.ts:22-47 | The default hook, just mounted, stays hidden and keeps observing after the batch [not intersecting, intersecting]. |
| `ScrollReveal.DetachedStaysHidden` | src/hooks/useScrollReveal.ts:35-36 | With no attached element, no event sequence changes the state, so `isVisible` stays false. |
| `ScrollReveal.OnceStepMonotone` | src/hooks/useScrollReveal.ts:40-47 | With `once`, no single event hides a revealed element. |
| `ScrollReveal.OnceStaysVisible` | src/hooks/useScrollReveal.ts:40-47 | With `once`, a revealed element stays revealed for every later event sequence. |
| `ScrollReveal.OnceStopsObserving` | src/hooks/useScrollReveal.ts:42-44 | With `once`, in every reachable state a revealed element is no longer observed, so later entries are not delivered. |
| `ScrollReveal.CleanupIsFinal` | src/hooks/useScrollReveal.ts:54 | After disconnect, or when no observer exists, no event changes the state. |
| `ScrollReveal.RepeatableMirrorsLatest` | src/hooks/useScrollReveal.ts:39-47 | With `once` false and the element observed, after a non-empty run of notifications `isVisible` equals the first entry of the latest batch, and observation continues. |
| `ScrollReveal.RepeatableSingleEntries` | src/hooks/useScrollReveal.ts:39-47 | With `once` false and the element observed, and one entry per batch, `isVisible` equals the `isIntersecting` of the most recently delivered entry. |
| `ScrollReveal.DefaultHookIsOneShot` | src/hooks/useScrollReveal.ts:22-36 | The hook called without options is one-shot, starts hidden and observes an attached element. |
| `Intro.Schedule` | src/components/IntroAnimation/IntroAnimation.tsx:43-55 | The effect starts three timers with strictly increasing deadlines, all within 1800 ms of its start. |
| `Intro.PhaseAtMonotone` | src/components/IntroAnimation/IntroAnimation.tsx:43-55 | On the reference timeline, neither the phase nor the completion count ever decreases. |
| `Intro.Start` | src/components/IntroAnimation/IntroAnimation.tsx:23-55 | At mount the phase is Scatter, nothing has been notified, and three timers are pending. |
| `Intro.Perform` | src/components/IntroAnimation/IntroAnimation.tsx:43-55 | A phase timer changes only the phase, to its target. The done timer changes only the completion count, adding one. Neither touches the clock, the pending timers or the mounted flag. |
| `Intro.FireDue` | src/components/IntroAnimation/IntroAnimation.tsx:43-55 | Firing timers never changes the clock or the mounted flag and never adds a pending timer. |
| `Intro.Step` | src/components/IntroAnimation/IntroAnimation.tsx:40-62 | Only elapsed time advances the clock. Unmounting leaves no pending timer. |
| `Intro.FireDueFollowsTimeline` | src/components/IntroAnimation/IntroAnimation.tsx:43-55 | Firing the timers due by t moves a state on the timeline at an earlier time u onto the timeline at t. |
| `Intro.StepFollowsTimeline` | src/components/IntroAnimation/IntroAnimation.tsx:40-62 | Elapsed time, and re-renders with the same callback, keep a mounted intro on the timeline. |
| `Intro.RunFollowsTimeline` | src/components/IntroAnimation/IntroAnimation.tsx:40-62 | Any stable event sequence keeps the intro on the timeline, and its clock is the total elapsed time. |
| `Intro.Timeline` | src/components/IntroAnimation/IntroAnimation.tsx:23-55 | With no unmount and no new callback, at elapsed time t the phase is Scatter for t < 200, Resolve for 200 ≤ t < 1400 and Complete for t ≥ 1400. `onComplete` has fired once if t ≥ 1800 and never before. |
| `Intro.UnmountedIsInert` | src/components/IntroAnimation/IntroAnimation.tsx:57-61 | After cleanup, no event changes the phase or fires `onComplete`. |
| `Intro.CancelledAt` | src/components/IntroAnimation/IntroAnimation.tsx:57-61 | An unmount at time c freezes the phase and the completion count at their timeline values at c. An unmount before 1800 ms means `onComplete` never fires. |
| `Intro.PhaseNeverGoesBack` | src/components/IntroAnimation/IntroAnimation.tsx:43-50 | Along a stable run the phase rank never decreases from one prefix to a longer one, so no phase is re-entered. |
| `Intro.NewCallbackRestartsTimers` | src/components/IntroAnimation/IntroAnimation.tsx:62 | A callback with a new identity at 1500 ms restarts the timers, and 200 ms later the phase is back at Resolve. This is why the callback's stable identity matters. |
| `Intro.Render` | src/components/IntroAnimation/IntroAnimation.tsx:64-132 | The overlay is rendered iff the phase is not Complete. It has one letter per character of "PREETHI", with starting rotation (i − 3)·25, and the letters target the rest pose iff the phase has left Scatter. |
| `Intro.RotationsDeterministic` | src/components/IntroAnimation/IntroAnimation.tsx:28-38 | Starting rotations depend on the letter index alone, so every render, in any phase, gives each letter the same one. |
| `Intro.OverlayOverTime` | src/components/IntroAnimation/IntroAnimation.tsx:66-122 | With no unmount and no new callback, the overlay is shown exactly before 1400 ms, and its letters are at rest exactly from 200 ms. |
| `App.HandleIntroComplete` | src/App.tsx:31-33 | The completion callback leaves the gate open whatever it was before. |
| `App.CallbackIdempotent` | src/App.tsx:31-33 | Calling the callback n times opens the gate iff n > 0 or it was already open. Repeated calls keep it open. |
| `App.Init` | src/App.tsx:28 | The gate starts closed, with the intro mounted. |
| `App.Step` | src/App.tsx:28-40 | The gate never closes. A re-render never changes it. When the gate opens, the intro is unmounted with no pending timers. |
| `App.View` | src/App.tsx:37-51 | The overlay is mounted iff the gate is closed. Content, Navigation and Hero visibility all equal the gate. |
| `App.StepConsistent` | src/App.tsx:28-51 | Every event preserves the shell invariant: the intro's clock is the page clock, the gate is open iff 1800 ms have passed, and the intro is mounted iff the gate is closed. |
| `App.GateOpensAt1800` | src/App.tsx:28-40 | From the first render, the gate is open iff at least 1800 ms have elapsed. At that point `onComplete` has fired exactly once, and before it, never. |
| `App.RevealedExactlyOnce` | src/App.tsx:28-51 | The gate opens on exactly one step of a run lasting 1800 ms or more, and on no step of a shorter run. |
| `App.StaysOpen` | src/App.tsx:31-33 | An open gate stays open, and it never opens again. |
| `Contact.Links` | src/components/Contact/Contact.tsx:18-22 | There are three declared links. Only the first, Email, is a mail link, and the labels are distinct. |
| `Contact.IsMailto` | src/components/Contact/Contact.tsx:51 | The test holds iff "mailto" is a prefix of the href. |
| `Contact.RenderLink` | src/components/Contact/Contact.tsx:46-57 | An href with the prefix "mailto" gets no `target` and no `rel`. Any other href gets `_blank` and "noopener noreferrer". Key, label, value and href are passed through. |
| `Contact.RelFollowsTarget` | src/components/Contact/Contact.tsx:51-52 | `rel` is set exactly when `target` is `_blank`. |
| `Contact.PrefixIsLiteral` | src/components/Contact/Contact.tsx:51 | Four examples: the test is on the literal "mailto" (no colon), anchored at position 0, and case-sensitive. The general rule is `Contact.IsMailto`'s contract. |
| `Contact.RenderLinks` | src/components/Contact/Contact.tsx:46-48 | There is one anchor per declared link, in declared order. |
| `Contact.DeclaredLinks` | src/components/Contact/Contact.tsx:18-22 | Of the three declared links only Email is a mail link. The other two open in a new tab. The labels used as keys are distinct. |

## Left out

- Animation props: durations, delays, easing curves, opacity, scale and stagger values. The animation library interprets them as floating-point values, outside the state they depend on.
- The sine/cosine scatter offsets, the fractional scales and the six decorative fragments of the intro. These are floating-point, and only the integer rotation formula is modelled.
- Projects.RenderRow and Projects.AtMostOneOpen follow the `isExpanded &&` conditional (src/components/Projects/Projects.tsx:106), not the animation layer. `AnimatePresence` keeps a collapsing panel on screen for its 0.4 s exit, so right after switching rows two panels are briefly visible.
- ScrollReveal.IntersectingReveals covers a batch whose first entry is intersecting. The callback reads only the first entry of a batch, so a one-shot hook that receives [not intersecting, intersecting] in one batch stays hidden while on screen, until the browser reports another change (`ScrollReveal.DefaultHookMissesLaterEntry`). The model does not claim that such batches occur, only what the code does with them.
- The exit fade of the intro overlay. `Intro.Render` models React's conditional rendering, not the 0.4 s during which the animation layer keeps the leaving overlay on screen.
- Intersection geometry. The threshold and root margin are resolved and carried, but the browser decides `isIntersecting` from them. The model takes that flag as input.
- Entries the browser had queued before `unobserve` or `disconnect`. The model does not deliver them. By `ScrollReveal.Callback`, such an entry could not hide a one-shot element that is already revealed.
- Re-running the scroll-reveal effect when its options change. Each hook instance is modelled with fixed settings, as every call site passes none.
- Real `setTimeout` drift and React's batching and scheduling. Timers fire exactly at their deadlines, and events are delivered one at a time.
- The static content and markup: the project texts beyond their ids, the About section, the Hero graphic, the Navigation anchors, the Footer (its `new Date()` is I/O), the type declarations, the re-export index and the DOM bootstrap.
