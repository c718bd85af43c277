/**
 * The Firebrand user-interaction tracker as a pure state machine.
 *
 * The tracker keeps five interaction counters, a one-shot "first interaction"
 * flag and a snapshot of the counters taken at the last report. DOM events and
 * timer callbacks become values of `Event`; every report that the script pushes
 * onto the analytics queue becomes a `Payload` in the `pushed` part of a
 * `Reaction`. The script is single-threaded and every callback runs to
 * completion, so a session is a plain sequence of events (`Run`).
 */
module Tracker {

  /** The five interaction counters. */
  datatype Counters = Counters(mouseMove: nat, touch: nat, key: nat, scroll: nat, click: nat)

  /** Names of the five counters, so that a property can speak of "every other counter". */
  datatype Kind = MouseMoves | Touches | Keys | Scrolls | Clicks

  function Get(c: Counters, k: Kind): nat
  {
    match k
    case MouseMoves => c.mouseMove
    case Touches => c.touch
    case Keys => c.key
    case Scrolls => c.scroll
    case Clicks => c.click
  }

  const Zero := Counters(0, 0, 0, 0, 0)

  /** `after` is `before` with counter `k` advanced by one and every other counter as it was. */
  predicate Bumped(before: Counters, after: Counters, k: Kind)
  {
    forall j: Kind :: Get(after, j) == Get(before, j) + (if j == k then 1 else 0)
  }

  /** Componentwise order on counters. */
  predicate Below(a: Counters, b: Counters)
  {
    forall k: Kind :: Get(a, k) <= Get(b, k)
  }

  /** The activity test of the report function: the five live counters compared one field at a time. */
  predicate Unchanged(live: Counters, snapshot: Counters)
  {
    && live.scroll == snapshot.scroll
    && live.key == snapshot.key
    && live.click == snapshot.click
    && live.mouseMove == snapshot.mouseMove
    && live.touch == snapshot.touch
  }

  /** The tracking record: live counters, the first-interaction flag and the snapshot `previousRecord`. */
  datatype State = State(counts: Counters, isFirstInteraction: bool, previousRecord: Counters)

  /** Counters at zero, the flag set, and the snapshot zeroed out before any listener is bound. */
  const Initial := State(Zero, true, Zero)

  /** The snapshot never runs ahead of the live counters. */
  predicate SnapshotBehind(s: State)
  {
    Below(s.previousRecord, s.counts)
  }

  /** What reaches the tracker: the five DOM events and the firing of a scheduled timeout. */
  datatype Event =
    | MouseMove
    | TouchStart
    | Scroll
    | KeyDown(keyCode: int)
    | Click
    | Timeout(name: string)

  const EnterKeyCode := 13

  predicate IsEnter(e: Event)
  {
    e.KeyDown? && e.keyCode == EnterKeyCode
  }

  /** An event that goes through the first-interaction gate: any DOM event except an Enter key press. */
  predicate Qualifying(e: Event)
  {
    !e.Timeout? && !IsEnter(e)
  }

  /** Event `e` is counted by counter `k`. */
  predicate CountedBy(e: Event, k: Kind)
  {
    match e
    case MouseMove => k == MouseMoves
    case TouchStart => k == Touches
    case Scroll => k == Scrolls
    case KeyDown(_) => k == Keys
    case Click => k == Clicks
    case Timeout(_) => false
  }

  /** The interaction types reported by a first-interaction push. */
  const InteractionTypes: set<string> := {"MouseMove", "Touch", "Scroll", "KeyDown", "Click"}

  const ReturnAction := "Return"

  /** The `eventAction` a report caused by `e` carries. */
  function ActionOf(e: Event): string
  {
    match e
    case MouseMove => "MouseMove"
    case TouchStart => "Touch"
    case Scroll => "Scroll"
    case KeyDown(code) => if code == EnterKeyCode then ReturnAction else "KeyDown"
    case Click => "Click"
    case Timeout(name) => name
  }

  /** One object pushed onto the analytics queue. */
  datatype Payload = Payload(event: string, eventCategory: string, eventAction: string, eventLabel: string, nonInteraction: bool)

  const EventName := "GAEvent"
  const Category := "Firebrand User Events"
  const ActiveLabel := "Active Interaction"
  const InactiveLabel := "Inactive Interaction"

  /** The fixed shape every report has, whatever caused it. */
  predicate WellShaped(p: Payload)
  {
    && p.event == EventName
    && p.eventCategory == Category
    && p.nonInteraction
    && (p.eventLabel == ActiveLabel || p.eventLabel == InactiveLabel)
  }

  /** An Active report naming `action`, the only kind a first interaction makes. */
  function ActivePush(action: string): Payload
  {
    Payload(EventName, Category, action, ActiveLabel, true)
  }

  /** The state after a callback and the payloads it pushed, in order. */
  datatype Reaction = Reaction(state: State, pushed: seq<Payload>)

  /**
   * The report function. A first-interaction report is always Active; any other
   * report is Inactive exactly when no counter moved since the snapshot. Either
   * way the snapshot is then overwritten with the live counters.
   */
  function SendUserEvents(s: State, interactionType: string, firstInteraction: bool): (r: Reaction)
    ensures |r.pushed| == 1 && WellShaped(r.pushed[0])
    ensures r.pushed[0].eventAction == interactionType
    ensures r.pushed[0].eventLabel == InactiveLabel <==> !firstInteraction && s.counts == s.previousRecord
    ensures r.state.previousRecord == s.counts
    ensures r.state.counts == s.counts && r.state.isFirstInteraction == s.isFirstInteraction
  {
    var push := Payload(EventName, Category, interactionType, ActiveLabel, true);
    var sent :=
      if firstInteraction then push
      else if Unchanged(s.counts, s.previousRecord) then push.(eventLabel := InactiveLabel)
      else push;
    Reaction(s.(previousRecord := s.counts), [sent])
  }

  /**
   * The first-interaction gate as a caller sees it: the flag ends up cleared, and
   * exactly when it was still set a single Active push naming `action` was made,
   * leaving the snapshot equal to the live counters; otherwise nothing was pushed
   * and the snapshot is untouched.
   */
  predicate Gated(s: State, r: Reaction, action: string)
  {
    && !r.state.isFirstInteraction
    && if s.isFirstInteraction then
         r.pushed == [ActivePush(action)] && r.state.previousRecord == r.state.counts
       else
         r.pushed == [] && r.state.previousRecord == s.previousRecord
  }

  function SendFirstInteraction(s: State, interactionType: string): (r: Reaction)
    ensures r.state.counts == s.counts
    ensures Gated(s, r, interactionType)
  {
    if s.isFirstInteraction then
      var sent := SendUserEvents(s, interactionType, true);
      Reaction(sent.state.(isFirstInteraction := false), sent.pushed)
    else
      Reaction(s, [])
  }

  function OnMouseMove(s: State): (r: Reaction)
    ensures Bumped(s.counts, r.state.counts, MouseMoves)
    ensures Gated(s, r, "MouseMove")
  {
    SendFirstInteraction(s.(counts := s.counts.(mouseMove := s.counts.mouseMove + 1)), "MouseMove")
  }

  function OnTouchStart(s: State): (r: Reaction)
    ensures Bumped(s.counts, r.state.counts, Touches)
    ensures Gated(s, r, "Touch")
  {
    SendFirstInteraction(s.(counts := s.counts.(touch := s.counts.touch + 1)), "Touch")
  }

  function OnScroll(s: State): (r: Reaction)
    ensures Bumped(s.counts, r.state.counts, Scrolls)
    ensures Gated(s, r, "Scroll")
  {
    SendFirstInteraction(s.(counts := s.counts.(scroll := s.counts.scroll + 1)), "Scroll")
  }

  /**
   * Both branches count the key. Enter bypasses the gate and always reports
   * "Return" through the comparing path, leaving the flag alone; since the key
   * counter has just moved, that report is Active whenever the snapshot was not
   * ahead of the counters.
   */
  function OnKeyDown(s: State, keyCode: int): (r: Reaction)
    ensures Bumped(s.counts, r.state.counts, Keys)
    ensures keyCode != EnterKeyCode ==> Gated(s, r, "KeyDown")
    ensures keyCode == EnterKeyCode ==>
      && |r.pushed| == 1 && WellShaped(r.pushed[0])
      && r.pushed[0].eventAction == ReturnAction
      && r.state.isFirstInteraction == s.isFirstInteraction
      && r.state.previousRecord == r.state.counts
    ensures keyCode == EnterKeyCode && SnapshotBehind(s) ==> r.pushed == [ActivePush(ReturnAction)]
  {
    var counted := s.(counts := s.counts.(key := s.counts.key + 1));
    if keyCode == EnterKeyCode then
      assert SnapshotBehind(s) ==> counted.counts != counted.previousRecord by {
        if SnapshotBehind(s) {
          assert Get(s.previousRecord, Keys) <= Get(s.counts, Keys);
        }
      }
      SendUserEvents(counted, ReturnAction, false)
    else
      SendFirstInteraction(counted, "KeyDown")
  }

  function OnClick(s: State): (r: Reaction)
    ensures Bumped(s.counts, r.state.counts, Clicks)
    ensures Gated(s, r, "Click")
  {
    SendFirstInteraction(s.(counts := s.counts.(click := s.counts.click + 1)), "Click")
  }

  /** A timeout reports its name through the comparing path and counts nothing. */
  function OnTimeout(s: State, name: string): (r: Reaction)
    ensures r.state.counts == s.counts && r.state.isFirstInteraction == s.isFirstInteraction
    ensures |r.pushed| == 1 && WellShaped(r.pushed[0]) && r.pushed[0].eventAction == name
    ensures r.pushed[0].eventLabel == InactiveLabel <==> s.counts == s.previousRecord
    ensures r.state.previousRecord == s.counts
  {
    SendUserEvents(s, name, false)
  }

  /** The callback `e` triggers reports: always for a timeout or Enter, otherwise only while the flag is set. */
  predicate Reports(s: State, e: Event)
  {
    !Qualifying(e) || s.isFirstInteraction
  }

  /** Dispatch of one event to its callback. */
  function Step(s: State, e: Event): (r: Reaction)
    ensures forall k: Kind :: Get(r.state.counts, k) == Get(s.counts, k) + (if CountedBy(e, k) then 1 else 0)
    ensures r.state.isFirstInteraction == (s.isFirstInteraction && !Qualifying(e))
    ensures |r.pushed| == (if Reports(s, e) then 1 else 0)
    ensures r.state.previousRecord == if Reports(s, e) then r.state.counts else s.previousRecord
    ensures forall p | p in r.pushed :: WellShaped(p) && p.eventAction == ActionOf(e)
    ensures Qualifying(e) && s.isFirstInteraction ==> r.pushed == [ActivePush(ActionOf(e))]
    ensures SnapshotBehind(s) ==> SnapshotBehind(r.state)
    ensures SnapshotBehind(s) ==>
      (forall p | p in r.pushed :: p.eventLabel == InactiveLabel <==> e.Timeout? && s.counts == s.previousRecord)
  {
    match e
    case MouseMove => OnMouseMove(s)
    case TouchStart => OnTouchStart(s)
    case Scroll => OnScroll(s)
    case KeyDown(code) => OnKeyDown(s, code)
    case Click => OnClick(s)
    case Timeout(name) => OnTimeout(s, name)
  }

  /** A session: the events in dispatch order, with every push appended to the queue in that order. */
  function Run(s: State, events: seq<Event>): (r: Reaction)
    ensures |r.pushed| <= |events|
    ensures forall p | p in r.pushed :: WellShaped(p)
    ensures SnapshotBehind(s) ==> SnapshotBehind(r.state)
    decreases |events|
  {
    if events == [] then
      Reaction(s, [])
    else
      var before := Run(s, events[..|events| - 1]);
      var last := Step(before.state, events[|events| - 1]);
      Reaction(last.state, before.pushed + last.pushed)
  }
}
