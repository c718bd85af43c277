# User-interaction tracker, modelled in Dafny

`user-interaction.js` counts five kinds of user interaction on a page (mouse
movement, touch starts, scrolls, key presses, clicks) and reports to the
Google Tag Manager `dataLayer`. It makes three kinds of report:

- an immediate report of the first qualifying interaction;
- a "Return" report for every Enter key press;
- a report at each of four fixed timeouts (5, 19, 39 and 67 seconds).

A non-first report is labelled `Inactive Interaction` when none of the five
counters moved since the previous report (the snapshot `previousRecord`).
Otherwise it is labelled `Active Interaction`. Every report overwrites the
snapshot with the live counters.

The model is a pure state machine:

- `tracker.dfy` (module `Tracker`): the tracking record (`State`, `Counters`),
  the inputs (`Event`: the five DOM events, with the key code on `KeyDown`,
  and `Timeout(name)` for a timer firing), and the pushed objects (`Payload`).
  It also holds the report function `SendUserEvents`, the gate
  `SendFirstInteraction`, one function per handler, `Step` for dispatch and
  `Run` for a whole session. `Run` returns the final state and the payloads
  pushed, in order.
- `history.dfy` (module `History`): reference definitions computed from the
  event history alone, without the state machine. They say how often each
  counter's event occurred (`Tally`), whether a qualifying interaction happened
  (`NoQualifying`), which events get reported (`Reported`, `ReportCount`), and
  where the last report was (`LastReportEnd`).
- `guarantees.dfy` (module `Guarantees`): lemmas, by induction over event
  sequences, that tie `Run` to those reference definitions.
- `schedule.dfy` (module `Schedule`): the four-entry timer schedule and facts
  about it.
- `page.dfy` (module `Page`): the page's imperative loop. It dispatches the
  events against one mutable record and appends to the queue.
- `scenarios.dfy` (module `Scenarios`): concrete sessions with their exact
  queue contents.

The script runs single-threaded and each callback runs to completion, so a
session is modelled as a plain sequence of events. The timer callbacks appear
as `Timeout` events wherever the host dispatches them.

## Model

| member | source | states |
|---|---|---|
| Tracker.SendUserEvents | user-interaction.js:129-184 | pushes exactly one payload of the fixed shape (`GAEvent`, `Firebrand User Events`, the given action, `nonInteraction` true); the label is Inactive if and only if this is not a first-interaction report and all five live counters equal the snapshot; afterwards the snapshot equals the live counters and nothing else changes |
| Tracker.SendFirstInteraction | user-interaction.js:51-56 | while the flag is set: one Active push naming the interaction type, with the snapshot then equal to the counters; once it is cleared: no push and no change; the flag is cleared either way |
| Tracker.OnMouseMove | user-interaction.js:69-72 | advances the mouse-move counter by one, leaves the other four counters alone, then goes through the first-interaction gate with "MouseMove" |
| Tracker.OnTouchStart | user-interaction.js:78-81 | advances the touch counter only, then goes through the gate with "Touch" |
| Tracker.OnScroll | user-interaction.js:83-86 | advances the scroll counter only, then goes through the gate with "Scroll" |
| Tracker.OnKeyDown | user-interaction.js:88-97 | both branches advance the key counter only; a non-Enter key goes through the gate with "KeyDown"; Enter (key code 13) pushes exactly one "Return" payload, leaves the flag unchanged and overwrites the snapshot; if the snapshot was not ahead of the counters, that payload is Active |
| Tracker.OnClick | user-interaction.js:99-102 | advances the click counter only, then goes through the gate with "Click" |
| Tracker.OnTimeout | user-interaction.js:104-118 | a timeout pushes one payload naming it, labelled Inactive if and only if the counters equal the snapshot; it counts nothing, leaves the flag alone and overwrites the snapshot |
| Tracker.Step | user-interaction.js:69-118 | dispatch of one event: exactly the event's own counter grows by one; the flag is cleared by a qualifying event; one push happens if and only if the event is a timeout, an Enter, or a qualifying event while the flag is set; the snapshot is overwritten exactly when a push happens; the first push is Active; the snapshot stays componentwise below the counters; with that invariant, a push is Inactive if and only if it is a timeout with nothing counted since the snapshot |
| Tracker.Run | user-interaction.js:18-67 | a session pushes at most one payload per event, every payload has the fixed shape, and the invariant "snapshot componentwise at most the counters" is preserved |
| Guarantees.CountsMatchOccurrences | user-interaction.js:69-101 | from any state, each counter grows by exactly the number of its events in the session |
| Guarantees.CountsAreTally | user-interaction.js:18-33 | from page load, the five counters equal the reference tally of the history |
| Guarantees.FlagTracksHistory | user-interaction.js:51-56 | the flag stays set exactly as long as no qualifying interaction has happened; Enter and timeouts never clear it |
| Guarantees.FirstInteractionPushedOnce | user-interaction.js:51-56 | the number of first-interaction pushes in a session is 1 if the flag was set and a qualifying interaction happened, otherwise 0; in particular there are none once the flag is cleared |
| Guarantees.ReturnPerEnter | user-interaction.js:88-92 | the number of "Return" payloads equals the number of Enter key presses, whatever the flag says |
| Guarantees.OnePushPerReport | user-interaction.js:51-118 | the queue length equals the reference count of reported events |
| Guarantees.SnapshotAtLastReport | user-interaction.js:174-183 | the snapshot equals the tally of the history up to and including the last reported event |
| Guarantees.QuietIffJustReported | user-interaction.js:158-183 | the counters equal the snapshot if and only if no event has arrived since the last report |
| Guarantees.TimeoutAppendsOne | user-interaction.js:104-118 | a timeout appends exactly one payload after the ones already queued |
| Guarantees.TimeoutClassification | user-interaction.js:146-171 | the payload a timeout appends is Inactive if and only if no event has arrived since the last report |
| Guarantees.QuietIffTallyUnchanged | user-interaction.js:158-162 | "no event since the last report" holds if and only if the tally at the last report equals the tally now, so the five-field equality test detects exactly the counted events since the last report |
| Guarantees.IdleTimeoutsInactive | user-interaction.js:61-67 | with only timeouts, the state stays initial and every timeout reports Inactive against the zeroed snapshot |
| Guarantees.EnterReportsActive | user-interaction.js:90-92 | in every reachable state an Enter key press pushes exactly one Active "Return" payload and keeps the flag |
| Guarantees.EnterLeavesGateOpen | user-interaction.js:88-97 | after an Enter key press with the flag still set, the next qualifying event still makes the Active first-interaction push |
| Schedule.ScheduleShape | user-interaction.js:104-118 | four timeouts, with delays in strictly ascending order; each delay is whole seconds and its name spells the delay in seconds |
| Schedule.ScheduledNamedApart | user-interaction.js:104-118 | no scheduled timeout name is an interaction type or "Return" |
| Schedule.AtMostOneFirstPush | user-interaction.js:51-56 | with scheduled timeouts, a session from page load has at most one first-interaction push, and has one if and only if a qualifying interaction happened |
| Schedule.IdlePage | user-interaction.js:104-118 | on a page nobody touches, the first n scheduled timeouts report Inactive, in schedule order |
| Page.Track | user-interaction.js:138-171 | the imperative loop over one mutable record fills the queue exactly as `Run` does, with one payload per reported event, each of the fixed shape |
| Scenarios.NoInteraction | user-interaction.js:104-106 | the five-second timeout with no interaction reports Inactive |
| Scenarios.ClickThenIdle | user-interaction.js:99-106 | one click, then the five-second timeout: Active "Click", then Inactive "5 seconds" |
| Scenarios.ScrollingThenIdle | user-interaction.js:83-114 | scrolling up to 19 s: Active at 5 s and 19 s, Inactive at 39 s |
| Scenarios.EnterThenMouseMove | user-interaction.js:69-92 | Enter first pushes Active "Return"; the mouse move that follows still makes the first push |

## Left out

- jQuery listener binding (`$body.on`, `jQuery(window).on`, `jQuery(document).keydown`, `$body.click`): the DOM events are elements of the input sequence.
- `window.setTimeout` wall-clock timing: a timer firing is a `Timeout(name)` event placed wherever the host dispatches it. The schedule is the constant `Schedule.Ticks`. Nothing in the model reasons about real time.
- The global `dataLayer` and Google Tag Manager: the queue is the output `seq<Payload>`.
- The startup guard in `jQuery(document).ready` (user-interaction.js:189-195) checks for jQuery and logs a warning. It is environment checking, so it is not modelled.
- The `isFirstInteraction` copy stored in the snapshot (user-interaction.js:182) is never read back, so the model's snapshot holds the five counters only.
- The empty object the constructor returns (user-interaction.js:186) has no behaviour.
- `sendGTMUserEvents` turns a missing `firstInteraction` argument into `false` (user-interaction.js:134-136). The model passes an explicit boolean: `false` for Enter and timeouts, `true` from the gate.
- Tracker.Counters: counters are unbounded naturals. JavaScript numbers lose integer precision past 2^53 increments, which no page session reaches.
- Schedule: some deployments schedule three more timeouts (103, 143 and 233 seconds) and create `dataLayer` on demand. That variant is not part of this model; `user-interaction.js` schedules four timeouts and assumes `dataLayer` exists.
- Guarantees.FirstInteractionPushedOnce and Guarantees.ReturnPerEnter count pushes by their `eventAction`. They therefore assume that no timeout carries an interaction-type name or "Return" as its name. `Schedule.ScheduledNamedApart` shows that the real schedule meets this assumption.
