/**
 * Reference definitions computed from the event history alone, without running
 * the tracker: how often each counter's event occurred, whether a qualifying
 * interaction has happened yet, which events are reported and where the last
 * report was. The lemmas in `Guarantees` tie the state machine to these.
 */
module History {
  import opened Tracker

  /** Number of events in `es` that counter `k` counts. */
  function Occurrences(es: seq<Event>, k: Kind): nat
    decreases |es|
  {
    if es == [] then 0
    else Occurrences(es[..|es| - 1], k) + (if CountedBy(es[|es| - 1], k) then 1 else 0)
  }

  /** The counter a DOM event advances (timeouts advance none; the result is then irrelevant). */
  function KindOf(e: Event): (k: Kind)
    ensures !e.Timeout? ==> CountedBy(e, k)
    ensures forall j: Kind :: CountedBy(e, j) ==> j == k
  {
    match e
    case MouseMove => MouseMoves
    case TouchStart => Touches
    case Scroll => Scrolls
    case KeyDown(_) => Keys
    case Click => Clicks
    case Timeout(_) => Clicks
  }

  /** The five counts of a history, one per counter. */
  function Tally(es: seq<Event>): Counters
  {
    Counters(Occurrences(es, MouseMoves), Occurrences(es, Touches), Occurrences(es, Keys),
             Occurrences(es, Scrolls), Occurrences(es, Clicks))
  }

  /** No event of `es` passes through the first-interaction gate. */
  predicate NoQualifying(es: seq<Event>)
  {
    forall i :: 0 <= i < |es| ==> !Qualifying(es[i])
  }

  /**
   * An event arriving after history `prior` is reported unless it is a qualifying
   * interaction and an earlier qualifying interaction already happened.
   */
  predicate Reported(prior: seq<Event>, e: Event)
  {
    !Qualifying(e) || NoQualifying(prior)
  }

  /** The length of the longest prefix of `es` that ends in a reported event (0 if none does). */
  function LastReportEnd(es: seq<Event>): (n: nat)
    ensures n <= |es|
    decreases |es|
  {
    if es == [] then 0
    else if Reported(es[..|es| - 1], es[|es| - 1]) then |es|
    else LastReportEnd(es[..|es| - 1])
  }

  /** How many events of `es` are reported. */
  function ReportCount(es: seq<Event>): nat
    decreases |es|
  {
    if es == [] then 0
    else ReportCount(es[..|es| - 1]) + (if Reported(es[..|es| - 1], es[|es| - 1]) then 1 else 0)
  }

  /** How many Enter key presses `es` contains. */
  function EnterCount(es: seq<Event>): nat
    decreases |es|
  {
    if es == [] then 0
    else EnterCount(es[..|es| - 1]) + (if IsEnter(es[|es| - 1]) then 1 else 0)
  }

  /** How many payloads of `out` carry an `eventAction` in `actions`. */
  function ActionCount(out: seq<Payload>, actions: set<string>): nat
    decreases |out|
  {
    if out == [] then 0
    else ActionCount(out[..|out| - 1], actions) + (if out[|out| - 1].eventAction in actions then 1 else 0)
  }

  /** No timeout of `es` is named like an interaction type or like the Enter report. */
  predicate TimeoutsNamedApart(es: seq<Event>)
  {
    forall i :: 0 <= i < |es| && es[i].Timeout? ==> es[i].name !in InteractionTypes && es[i].name != ReturnAction
  }
}
