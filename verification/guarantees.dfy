/**
 * What the tracker guarantees over whole sessions: counters count, the
 * first-interaction push happens at most once, every Enter reports "Return",
 * the snapshot is the tally at the last report, and a timeout reports
 * Inactive exactly when nothing happened since that report.
 */
module Guarantees {
  import opened Tracker
  import opened History

  /** Running one more event appends that event's pushes to the session's. */
  lemma RunSnoc(s: State, es: seq<Event>, e: Event)
    ensures Run(s, es + [e]) == Reaction(Step(Run(s, es).state, e).state, Run(s, es).pushed + Step(Run(s, es).state, e).pushed)
  {
    assert (es + [e])[..|es|] == es;
  }

  lemma {:induction false} ActionCountAppend(a: seq<Payload>, b: seq<Payload>, actions: set<string>)
    ensures ActionCount(a + b, actions) == ActionCount(a, actions) + ActionCount(b, actions)
    decreases |b|
  {
    if b != [] {
      var b' := b[..|b| - 1];
      assert (a + b)[..|a + b| - 1] == a + b';
      ActionCountAppend(a, b', actions);
    } else {
      assert a + b == a;
    }
  }

  /** A single step adds one to an action count exactly when it reports an action from the set. */
  lemma StepActionCount(st: State, e: Event, actions: set<string>)
    ensures ActionCount(Step(st, e).pushed, actions) == (if Reports(st, e) && ActionOf(e) in actions then 1 else 0)
  {
    var pushed := Step(st, e).pushed;
    if |pushed| == 1 {
      assert pushed[0] in pushed;
      assert pushed[..0] == [];
    } else {
      assert pushed == [];
    }
  }

  /** Which reports name an interaction type and which name "Return", provided timeouts are named apart. */
  lemma ActionsApart(e: Event)
    requires e.Timeout? ==> e.name !in InteractionTypes && e.name != ReturnAction
    ensures ActionOf(e) in InteractionTypes <==> Qualifying(e)
    ensures ActionOf(e) in {ReturnAction} <==> IsEnter(e)
  {
  }

  /** Each counter grows by exactly the number of its events in the session. */
  lemma {:induction false} CountsMatchOccurrences(s: State, es: seq<Event>)
    ensures forall k: Kind :: Get(Run(s, es).state.counts, k) == Get(s.counts, k) + Occurrences(es, k)
    decreases |es|
  {
    if es != [] {
      CountsMatchOccurrences(s, es[..|es| - 1]);
    }
  }

  /** From page load, the live counters are the tally of the history. */
  lemma {:induction false} CountsAreTally(es: seq<Event>)
    ensures Run(Initial, es).state.counts == Tally(es)
  {
    CountsMatchOccurrences(Initial, es);
    var c := Run(Initial, es).state.counts;
    assert c.mouseMove == Get(c, MouseMoves);
    assert c.touch == Get(c, Touches);
    assert c.key == Get(c, Keys);
    assert c.scroll == Get(c, Scrolls);
    assert c.click == Get(c, Clicks);
  }

  /** The flag stays set exactly until the first qualifying interaction; Enter and timeouts never clear it. */
  lemma {:induction false} FlagTracksHistory(s: State, es: seq<Event>)
    ensures Run(s, es).state.isFirstInteraction == (s.isFirstInteraction && NoQualifying(es))
    decreases |es|
  {
    if es != [] {
      var prior := es[..|es| - 1];
      FlagTracksHistory(s, prior);
      assert NoQualifying(es) == (NoQualifying(prior) && !Qualifying(es[|es| - 1])) by {
        assert forall i :: 0 <= i < |prior| ==> prior[i] == es[i];
      }
    }
  }

  /**
   * At most one first-interaction push per session: from a state whose flag is
   * set there is exactly one once a qualifying interaction happened, and from a
   * state whose flag is cleared there is none.
   */
  lemma {:induction false} FirstInteractionPushedOnce(s: State, es: seq<Event>)
    requires TimeoutsNamedApart(es)
    ensures ActionCount(Run(s, es).pushed, InteractionTypes) == (if s.isFirstInteraction && !NoQualifying(es) then 1 else 0)
    decreases |es|
  {
    if es != [] {
      var prior := es[..|es| - 1];
      var e := es[|es| - 1];
      assert TimeoutsNamedApart(prior) by {
        assert forall i :: 0 <= i < |prior| ==> prior[i] == es[i];
      }
      ActionsApart(e);
      FirstInteractionPushedOnce(s, prior);
      FlagTracksHistory(s, prior);
      FlagTracksHistory(s, es);
      var before := Run(s, prior);
      var step := Step(before.state, e);
      assert es == prior + [e];
      RunSnoc(s, prior, e);
      ActionCountAppend(before.pushed, step.pushed, InteractionTypes);
      StepActionCount(before.state, e, InteractionTypes);
      assert NoQualifying(es) == (NoQualifying(prior) && !Qualifying(e)) by {
        assert forall i :: 0 <= i < |prior| ==> prior[i] == es[i];
      }
    }
  }

  /** Every Enter key press reports "Return" exactly once, whatever the flag says. */
  lemma {:induction false} ReturnPerEnter(s: State, es: seq<Event>)
    requires TimeoutsNamedApart(es)
    ensures ActionCount(Run(s, es).pushed, {ReturnAction}) == EnterCount(es)
    decreases |es|
  {
    if es != [] {
      var prior := es[..|es| - 1];
      var e := es[|es| - 1];
      assert TimeoutsNamedApart(prior) by {
        assert forall i :: 0 <= i < |prior| ==> prior[i] == es[i];
      }
      ActionsApart(e);
      ReturnPerEnter(s, prior);
      var before := Run(s, prior);
      var step := Step(before.state, e);
      assert es == prior + [e];
      RunSnoc(s, prior, e);
      ActionCountAppend(before.pushed, step.pushed, {ReturnAction});
      StepActionCount(before.state, e, {ReturnAction});
    }
  }

  /** One payload per reported event: the queue grows exactly as the reference count says. */
  lemma {:induction false} OnePushPerReport(es: seq<Event>)
    ensures |Run(Initial, es).pushed| == ReportCount(es)
    decreases |es|
  {
    if es != [] {
      var prior := es[..|es| - 1];
      OnePushPerReport(prior);
      FlagTracksHistory(Initial, prior);
    }
  }

  /** The snapshot holds the tally of the history up to and including the last reported event. */
  lemma {:induction false} SnapshotAtLastReport(es: seq<Event>)
    ensures Run(Initial, es).state.previousRecord == Tally(es[..LastReportEnd(es)])
    decreases |es|
  {
    if es == [] {
      assert Tally([]) == Zero;
    } else {
      var prior := es[..|es| - 1];
      SnapshotAtLastReport(prior);
      FlagTracksHistory(Initial, prior);
      CountsAreTally(es);
      if Reported(prior, es[|es| - 1]) {
        assert es[..|es|] == es;
      } else {
        var n := LastReportEnd(prior);
        assert es[..n] == prior[..n];
      }
    }
  }

  /** The live counters equal the snapshot exactly when no event has arrived since the last report. */
  lemma {:induction false} QuietIffJustReported(es: seq<Event>)
    ensures Run(Initial, es).state.counts == Run(Initial, es).state.previousRecord <==> LastReportEnd(es) == |es|
    decreases |es|
  {
    if es != [] {
      var prior := es[..|es| - 1];
      var e := es[|es| - 1];
      FlagTracksHistory(Initial, prior);
      assert SnapshotBehind(Initial) by {
        assert forall k: Kind :: Get(Zero, k) == 0;
      }
      var before := Run(Initial, prior).state;
      var after := Run(Initial, es).state;
      if !Reported(prior, e) {
        var k := KindOf(e);
        assert Get(before.previousRecord, k) <= Get(before.counts, k);
        assert Get(after.counts, k) == Get(before.counts, k) + 1;
        assert Get(after.previousRecord, k) == Get(before.previousRecord, k);
      }
    }
  }

  /** A timeout appends exactly one payload to the queue and leaves the earlier ones in place. */
  lemma TimeoutAppendsOne(es: seq<Event>, name: string)
    ensures Run(Initial, es + [Timeout(name)]).pushed == Run(Initial, es).pushed + Step(Run(Initial, es).state, Timeout(name)).pushed
    ensures |Step(Run(Initial, es).state, Timeout(name)).pushed| == 1
  {
    RunSnoc(Initial, es, Timeout(name));
  }

  /**
   * The payload a timeout appends is Inactive exactly when no event has arrived
   * since the previous report.
   */
  lemma TimeoutClassification(es: seq<Event>, name: string)
    ensures Step(Run(Initial, es).state, Timeout(name)).pushed[0].eventLabel == InactiveLabel <==> LastReportEnd(es) == |es|
  {
    QuietIffJustReported(es);
    var step := Step(Run(Initial, es).state, Timeout(name));
    assert step.pushed[0] in step.pushed;
  }

  /** "No event since the last report" is the same as "the tally at the last report is the tally now". */
  lemma QuietIffTallyUnchanged(es: seq<Event>)
    ensures LastReportEnd(es) == |es| <==> Tally(es[..LastReportEnd(es)]) == Tally(es)
  {
    QuietIffJustReported(es);
    SnapshotAtLastReport(es);
    CountsAreTally(es);
  }

  /** With no interaction at all, the tracker stays in its initial state and every timeout reports Inactive. */
  lemma {:induction false} IdleTimeoutsInactive(es: seq<Event>)
    requires forall i :: 0 <= i < |es| ==> es[i].Timeout?
    ensures Run(Initial, es).state == Initial
    ensures |Run(Initial, es).pushed| == |es|
    ensures forall i :: 0 <= i < |es| ==> Run(Initial, es).pushed[i] == Payload(EventName, Category, es[i].name, InactiveLabel, true)
    decreases |es|
  {
    if es != [] {
      var prior := es[..|es| - 1];
      IdleTimeoutsInactive(prior);
      var step := Step(Initial, es[|es| - 1]);
      assert step.pushed[0] in step.pushed;
    }
  }

  /** In any reachable state an Enter key press pushes an Active "Return" report and leaves the flag alone. */
  lemma EnterReportsActive(es: seq<Event>)
    ensures Step(Run(Initial, es).state, KeyDown(EnterKeyCode)).pushed == [ActivePush(ReturnAction)]
    ensures Step(Run(Initial, es).state, KeyDown(EnterKeyCode)).state.isFirstInteraction
            == Run(Initial, es).state.isFirstInteraction
  {
    assert SnapshotBehind(Initial) by {
      assert forall k: Kind :: Get(Zero, k) == 0;
    }
  }

  /** An Enter key press before any other interaction leaves the first-interaction push to the next qualifying event. */
  lemma EnterLeavesGateOpen(s: State, e: Event)
    requires s.isFirstInteraction && Qualifying(e)
    ensures Step(s, KeyDown(EnterKeyCode)).state.isFirstInteraction
    ensures Step(Step(s, KeyDown(EnterKeyCode)).state, e).pushed == [ActivePush(ActionOf(e))]
  {
  }
}
