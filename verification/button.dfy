/** The active-low push button of `app/button.rs` and its edge detector
    with a re-check debounce. The pin reads are inputs: each poll supplies
    the first sample and the sample taken 30 ms later (that second sample
    is only consulted when an edge is seen). */
module ButtonDriver {
  import opened Common

  datatype Button = Button(lastLow: bool)

  /** `Button::new`: enabling the pull-up can fail. */
  function New(pullUpOk: bool): (r: Result<Button>)
    ensures r.Ok? <==> pullUpOk
    ensures r.Ok? ==> !r.value.lastLow
    ensures r.Err? ==> r.error.kind == InvalidState
  {
    if pullUpOk then Ok(Button(false))
    else Err(Error(InvalidState, "failed to set pull-up"))
  }

  /** `Button::is_pressed`: the button pulls the line low, and the pull-up
      holds a released button high. */
  function IsPressed(level: Level): (pressed: bool)
    ensures pressed <==> level != High
  {
    level == Low
  }

  datatype EdgePoll = EdgePoll(button: Button, edge: bool)

  /** `Button::poll_pressed_edge`: reports a press exactly when the line
      has just gone low and is still low on the re-check; whatever the
      outcome, the button remembers whether the first sample was low. */
  function PollPressedEdge(b: Button, first: Level, recheck: Level): (r: EdgePoll)
    ensures r.edge <==> first == Low && !b.lastLow && recheck == Low
    ensures r.button.lastLow <==> first == Low
  {
    var nowLow := IsPressed(first);
    var edge := nowLow && !b.lastLow;
    if edge && IsPressed(recheck) then EdgePoll(Button(true), true)
    else EdgePoll(Button(nowLow), false)
  }

  /** The two samples one call of `poll_pressed_edge` reads. */
  datatype Sample = Sample(first: Level, recheck: Level)

  datatype EdgeRun = EdgeRun(button: Button, edges: seq<bool>)

  /** Calls `poll_pressed_edge` once per sample, in order, and collects
      the results. */
  function PollAll(b: Button, samples: seq<Sample>): (r: EdgeRun)
    ensures |r.edges| == |samples|
    ensures |samples| == 0 ==> r.button == b
    ensures |samples| > 0 ==> (r.button.lastLow <==> samples[|samples| - 1].first == Low)
  {
    if |samples| == 0 then EdgeRun(b, [])
    else
      var before := PollAll(b, samples[..|samples| - 1]);
      var s := samples[|samples| - 1];
      var p := PollPressedEdge(before.button, s.first, s.recheck);
      EdgeRun(p.button, before.edges + [p.edge])
  }

  /** A poll reports a press exactly when both of its samples are low and
      the previous poll's first sample was high (or, for the first poll,
      the button did not remember a low line). */
  ghost predicate EdgeAt(b: Button, samples: seq<Sample>, i: int)
    requires 0 <= i < |samples|
  {
    && samples[i].first == Low
    && samples[i].recheck == Low
    && (if i == 0 then !b.lastLow else samples[i - 1].first == High)
  }

  lemma {:induction false} EdgesCharacterised(b: Button, samples: seq<Sample>)
    ensures forall i :: 0 <= i < |samples| ==> (PollAll(b, samples).edges[i] <==> EdgeAt(b, samples, i))
  {
    if |samples| > 0 {
      var n := |samples|;
      var init := samples[..n - 1];
      EdgesCharacterised(b, init);
      forall i | 0 <= i < n
        ensures PollAll(b, samples).edges[i] <==> EdgeAt(b, samples, i)
      {
        if i < n - 1 {
          assert init[i] == samples[i];
          if i > 0 {
            assert init[i - 1] == samples[i - 1];
          }
          assert EdgeAt(b, init, i) <==> EdgeAt(b, samples, i);
        } else if n > 1 {
          assert init[n - 2] == samples[n - 2];
        }
      }
    }
  }

  /** A button held low reports at most one press: between two reported
      presses there is a poll whose first sample saw the line high. */
  lemma HeldButtonReportsOnce(b: Button, samples: seq<Sample>, i: int, j: int)
    requires 0 <= i < j < |samples|
    requires PollAll(b, samples).edges[i] && PollAll(b, samples).edges[j]
    ensures exists k :: i < k < j && samples[k].first == High
  {
    EdgesCharacterised(b, samples);
    assert samples[j - 1].first == High;
  }

  /** A press that fails the re-check is not reported, yet it is remembered
      as low: the very next poll cannot report a press either, so a release
      is needed before any later press. */
  lemma FailedRecheckNeedsRelease(b: Button, samples: seq<Sample>, i: int)
    requires 0 <= i < |samples|
    requires samples[i].first == Low && samples[i].recheck == High
    ensures !PollAll(b, samples).edges[i]
    ensures i + 1 < |samples| ==> !PollAll(b, samples).edges[i + 1]
  {
    EdgesCharacterised(b, samples);
  }
}
