/**
 * The fixed timer schedule: four one-shot timeouts after page ready, each
 * reporting a name that spells out its delay in seconds.
 */
module Schedule {
  import opened Tracker
  import opened History
  import opened Guarantees

  /** One scheduled timeout: its delay in milliseconds and the name it reports. */
  datatype Tick = Tick(delayMs: nat, name: string)

  const Ticks: seq<Tick> := [
    Tick(5000, "5 seconds"),
    Tick(19000, "19 seconds"),
    Tick(39000, "39 seconds"),
    Tick(67000, "67 seconds")
  ]

  function DigitChar(d: nat): char
    requires d < 10
  {
    "0123456789"[d]
  }

  /** Decimal notation of a natural number, without leading zeros. */
  function Decimal(n: nat): string
    decreases n
  {
    if n < 10 then [DigitChar(n)] else Decimal(n / 10) + [DigitChar(n % 10)]
  }

  /** The name a timeout of `ms` milliseconds ought to carry. */
  function SecondsName(ms: nat): string
  {
    Decimal(ms / 1000) + " seconds"
  }

  /** The timeout events the schedule produces, in firing order. */
  function Fire(ts: seq<Tick>): (es: seq<Event>)
    ensures |es| == |ts|
    ensures forall i :: 0 <= i < |ts| ==> es[i] == Timeout(ts[i].name)
  {
    seq(|ts|, i requires 0 <= i < |ts| => Timeout(ts[i].name))
  }

  /** Every timeout of `es` is one of the scheduled ones. */
  predicate Scheduled(es: seq<Event>)
  {
    forall i :: 0 <= i < |es| && es[i].Timeout? ==> exists j :: 0 <= j < |Ticks| && Ticks[j].name == es[i].name
  }

  /** Four whole-second delays in strictly ascending order, each named after itself. */
  lemma ScheduleShape()
    ensures |Ticks| == 4
    ensures forall i, j :: 0 <= i < j < |Ticks| ==> Ticks[i].delayMs < Ticks[j].delayMs
    ensures forall i :: 0 <= i < |Ticks| ==> Ticks[i].delayMs % 1000 == 0 && Ticks[i].name == SecondsName(Ticks[i].delayMs)
  {
    assert Decimal(5) == "5";
    assert Decimal(19) == "19";
    assert Decimal(39) == "39";
    assert Decimal(67) == "67";
  }

  /** Scheduled timeouts never carry an interaction type or "Return" as their name. */
  lemma ScheduledNamedApart(es: seq<Event>)
    requires Scheduled(es)
    ensures TimeoutsNamedApart(es)
  {
    forall i | 0 <= i < |es| && es[i].Timeout?
      ensures es[i].name !in InteractionTypes && es[i].name != ReturnAction
    {
      var j :| 0 <= j < |Ticks| && Ticks[j].name == es[i].name;
    }
  }

  /** Over a session whose timeouts are the scheduled ones, at most one first-interaction push happens. */
  lemma AtMostOneFirstPush(es: seq<Event>)
    requires Scheduled(es)
    ensures ActionCount(Run(Initial, es).pushed, InteractionTypes) <= 1
    ensures ActionCount(Run(Initial, es).pushed, InteractionTypes) == 1 <==> !NoQualifying(es)
  {
    ScheduledNamedApart(es);
    FirstInteractionPushedOnce(Initial, es);
  }

  /** A page on which nobody interacts reports every scheduled timeout as Inactive, in schedule order. */
  lemma IdlePage(n: nat)
    requires n <= |Ticks|
    ensures |Run(Initial, Fire(Ticks[..n])).pushed| == n
    ensures forall i :: 0 <= i < n ==>
      Run(Initial, Fire(Ticks[..n])).pushed[i] == Payload(EventName, Category, Ticks[i].name, InactiveLabel, true)
  {
    IdleTimeoutsInactive(Fire(Ticks[..n]));
  }
}
