/**
 * The tracker as the page runs it: one mutable tracking record, callbacks
 * dispatched one at a time, every report appended to the analytics queue.
 */
module Page {
  import opened Tracker
  import opened History
  import opened Guarantees

  /** Dispatches `events` in order against a fresh tracking record and returns the queue it filled. */
  method Track(events: seq<Event>) returns (dataLayer: seq<Payload>)
    ensures dataLayer == Run(Initial, events).pushed
    ensures |dataLayer| == ReportCount(events)
    ensures forall i :: 0 <= i < |dataLayer| ==> WellShaped(dataLayer[i])
  {
    var tracking := Initial;
    dataLayer := [];
    for n := 0 to |events|
      invariant Reaction(tracking, dataLayer) == Run(Initial, events[..n])
    {
      RunSnoc(Initial, events[..n], events[n]);
      assert events[..n + 1] == events[..n] + [events[n]];
      var reaction := Step(tracking, events[n]);
      tracking := reaction.state;
      dataLayer := dataLayer + reaction.pushed;
    }
    assert events[..|events|] == events;
    OnePushPerReport(events);
    assert forall i :: 0 <= i < |dataLayer| ==> dataLayer[i] in dataLayer;
  }
}
