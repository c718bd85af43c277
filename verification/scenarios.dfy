/**
 * Concrete sessions, written out event by event, with the exact queue contents
 * the tracker produces for them.
 */
module Scenarios {
  import opened Tracker
  import opened Guarantees

  function Report(action: string, activity: string): Payload
  {
    Payload(EventName, Category, action, activity, true)
  }

  /** Nobody interacts: the five-second timeout reports Inactive against the zeroed snapshot. */
  lemma NoInteraction()
    ensures Run(Initial, [Timeout("5 seconds")]).pushed == [Report("5 seconds", InactiveLabel)]
  {
    RunSnoc(Initial, [], Timeout("5 seconds"));
  }

  /** One click, then nothing: an Active "Click" at once, then an Inactive five-second report. */
  lemma ClickThenIdle()
    ensures Run(Initial, [Click, Timeout("5 seconds")]).pushed
            == [Report("Click", ActiveLabel), Report("5 seconds", InactiveLabel)]
  {
    RunSnoc(Initial, [], Click);
    RunSnoc(Initial, [Click], Timeout("5 seconds"));
  }

  /** Scrolling until the nineteen-second mark: Active at 5 and 19 seconds, Inactive at 39. */
  lemma ScrollingThenIdle()
    ensures Run(Initial, [Scroll, Scroll, Timeout("5 seconds"), Scroll, Timeout("19 seconds"), Timeout("39 seconds")]).pushed
            == [Report("Scroll", ActiveLabel), Report("5 seconds", ActiveLabel),
                Report("19 seconds", ActiveLabel), Report("39 seconds", InactiveLabel)]
  {
    var t5, t19, t39 := Timeout("5 seconds"), Timeout("19 seconds"), Timeout("39 seconds");
    var one, two, three := Counters(0, 0, 0, 1, 0), Counters(0, 0, 0, 2, 0), Counters(0, 0, 0, 3, 0);
    var h1 := [Scroll];
    var h2 := h1 + [Scroll];
    var h3 := h2 + [t5];
    var h4 := h3 + [Scroll];
    var h5 := h4 + [t19];
    var h6 := h5 + [t39];
    RunSnoc(Initial, [], Scroll);
    assert [] + [Scroll] == h1;
    assert Run(Initial, h1) == Reaction(State(one, false, one), [Report("Scroll", ActiveLabel)]);
    RunSnoc(Initial, h1, Scroll);
    assert Run(Initial, h2).state == State(two, false, one);
    RunSnoc(Initial, h2, t5);
    assert Run(Initial, h3).state == State(two, false, two);
    RunSnoc(Initial, h3, Scroll);
    assert Run(Initial, h4).state == State(three, false, two);
    RunSnoc(Initial, h4, t19);
    assert Run(Initial, h5).state == State(three, false, three);
    RunSnoc(Initial, h5, t39);
    assert h6 == [Scroll, Scroll, t5, Scroll, t19, t39];
  }

  /** Enter before anything else reports "Return" and the following mouse move still makes the first push. */
  lemma EnterThenMouseMove()
    ensures Run(Initial, [KeyDown(13), MouseMove]).pushed
            == [Report("Return", ActiveLabel), Report("MouseMove", ActiveLabel)]
  {
    RunSnoc(Initial, [], KeyDown(13));
    RunSnoc(Initial, [KeyDown(13)], MouseMove);
  }
}
