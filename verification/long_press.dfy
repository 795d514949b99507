/** The long-press detector inside the button task's loop
    (`app/tasks/button_task.rs`): every 20 ms poll updates the pressed time
    and a `fired` flag, and the first poll that brings a continuous press
    to 3000 ms requests pairing by writing `Pairing` into the hub. */
module LongPress {
  import opened Common
  import ConnStates
  import Hub
  import ButtonDriver

  const POLL_MS: U32 := 20
  const LONG_PRESS_MS: U32 := 3000

  /** The number of consecutive pressed polls that reach `LONG_PRESS_MS`. */
  const LONG_PRESS_POLLS: nat := 150

  datatype PressState = PressState(pressedMs: U32, fired: bool)

  const Initial: PressState := PressState(0, false)

  /** The reachable values of the pressed time: a multiple of the poll
      interval that never passes the threshold. */
  predicate Bounded(s: PressState)
  {
    s.pressedMs <= LONG_PRESS_MS && s.pressedMs % POLL_MS == 0
  }

  datatype PollResult = PollResult(state: PressState, requestPairing: bool)

  /** One poll of the detector, given whether the button reads pressed. */
  function Step(s: PressState, pressed: bool): (r: PollResult)
    ensures !pressed ==> r.state == Initial && !r.requestPairing
    ensures r.requestPairing ==> !s.fired && r.state.fired && r.state.pressedMs >= LONG_PRESS_MS
    ensures Bounded(s) ==> Bounded(r.state)
  {
    if pressed then
      var ms := if s.pressedMs < LONG_PRESS_MS then SaturatingAdd(s.pressedMs, POLL_MS) else s.pressedMs;
      if !s.fired && ms >= LONG_PRESS_MS then PollResult(PressState(ms, true), true)
      else PollResult(PressState(ms, s.fired), false)
    else
      PollResult(Initial, false)
  }

  datatype TaskTick = TaskTick(hub: Hub.Hub, state: PressState)

  /** One iteration of the button task: read the (active-low) pin, step
      the detector and, on a request, write `Pairing` into the hub. */
  function Tick(hub: Hub.Hub, s: PressState, pin: Level): (r: TaskTick)
    ensures r.state == Step(s, pin == Low).state
    ensures Step(s, pin == Low).requestPairing ==>
              Hub.GetConnState(r.hub) == ConnStates.Pairing && r.hub.ledCell == hub.ledCell
    ensures !Step(s, pin == Low).requestPairing ==> r.hub == hub
  {
    var p := Step(s, ButtonDriver.IsPressed(pin));
    TaskTick(if p.requestPairing then Hub.SetConnState(hub, ConnStates.Pairing) else hub, p.state)
  }

  datatype RunResult = RunResult(state: PressState, requests: seq<bool>)

  /** Runs the detector from its initial state over a sequence of polls
      (true = pressed), recording for each poll whether it requested pairing. */
  function Run(polls: seq<bool>): (r: RunResult)
    ensures |r.requests| == |polls|
    ensures Bounded(r.state)
  {
    if |polls| == 0 then RunResult(Initial, [])
    else
      var before := Run(polls[..|polls| - 1]);
      var p := Step(before.state, polls[|polls| - 1]);
      RunResult(p.state, before.requests + [p.requestPairing])
  }

  /** The number of consecutive pressed polls at the end of `polls`. */
  function TrailingPress(polls: seq<bool>): nat
  {
    if |polls| == 0 then 0
    else if polls[|polls| - 1] then TrailingPress(polls[..|polls| - 1]) + 1
    else 0
  }

  /** The detector's state after a press of `k` consecutive polls. */
  function AfterPress(k: nat): PressState
  {
    if k >= LONG_PRESS_POLLS then PressState(LONG_PRESS_MS, true)
    else PressState(POLL_MS * k, false)
  }

  lemma StepAfterPress(k: nat, pressed: bool)
    ensures Step(AfterPress(k), pressed).state == AfterPress(if pressed then k + 1 else 0)
    ensures Step(AfterPress(k), pressed).requestPairing <==> pressed && k + 1 == LONG_PRESS_POLLS
  {
  }

  /** The detector's whole state is determined by the length of the
      current press. */
  lemma {:induction false} RunTracksPress(polls: seq<bool>)
    ensures Run(polls).state == AfterPress(TrailingPress(polls))
  {
    if |polls| > 0 {
      RunTracksPress(polls[..|polls| - 1]);
      StepAfterPress(TrailingPress(polls[..|polls| - 1]), polls[|polls| - 1]);
    }
  }

  /** Pairing is requested by exactly those polls that are the 150th
      consecutive pressed poll. */
  lemma {:induction false} RequestsAtThreshold(polls: seq<bool>)
    ensures forall i :: 0 <= i < |polls| ==>
              (Run(polls).requests[i] <==> TrailingPress(polls[..i + 1]) == LONG_PRESS_POLLS)
  {
    if |polls| > 0 {
      var n := |polls|;
      var init := polls[..n - 1];
      RequestsAtThreshold(init);
      RunTracksPress(init);
      StepAfterPress(TrailingPress(init), polls[n - 1]);
      assert polls[..n] == polls;
      forall i | 0 <= i < n - 1
        ensures Run(polls).requests[i] <==> TrailingPress(polls[..i + 1]) == LONG_PRESS_POLLS
      {
        assert init[..i + 1] == polls[..i + 1];
      }
    }
  }

  /** A press counted as `m` polls long consists of `m` pressed polls. */
  lemma {:induction false} TrailingPressIsPressed(polls: seq<bool>, m: nat)
    requires TrailingPress(polls) >= m
    ensures m <= |polls|
    ensures forall k :: |polls| - m <= k < |polls| ==> polls[k]
  {
    if m > 0 {
      var init := polls[..|polls| - 1];
      TrailingPressIsPressed(init, m - 1);
      forall k | |polls| - m <= k < |polls| - 1
        ensures polls[k]
      {
        assert init[k] == polls[k];
      }
    }
  }

  /** Extending a prefix by pressed polls lengthens the current press by
      the same number of polls. */
  lemma {:induction false} TrailingPressExtends(polls: seq<bool>, i: nat, j: nat)
    requires i <= j <= |polls|
    requires forall k :: i <= k < j ==> polls[k]
    ensures TrailingPress(polls[..j]) == TrailingPress(polls[..i]) + (j - i)
  {
    if j > i {
      TrailingPressExtends(polls, i, j - 1);
      assert polls[..j][..j - 1] == polls[..j - 1];
    }
  }

  /** A request is always preceded by 150 consecutive pressed polls: a
      press of fewer than 150 polls never requests pairing. */
  lemma ShortPressNeverFires(polls: seq<bool>, i: int)
    requires 0 <= i < |polls|
    requires Run(polls).requests[i]
    ensures i + 1 >= LONG_PRESS_POLLS
    ensures forall k :: i + 1 - LONG_PRESS_POLLS <= k <= i ==> polls[k]
  {
    RequestAt(polls, i);
    var prefix := polls[..i + 1];
    CompletedPressIsPressed(prefix);
    forall k | i + 1 - LONG_PRESS_POLLS <= k <= i
      ensures polls[k]
    {
      assert prefix[k] == polls[k];
    }
  }

  /** A prefix whose current press is exactly 150 polls long ends in 150
      pressed polls. */
  lemma CompletedPressIsPressed(prefix: seq<bool>)
    requires TrailingPress(prefix) == LONG_PRESS_POLLS
    ensures |prefix| >= LONG_PRESS_POLLS
    ensures forall k :: |prefix| - LONG_PRESS_POLLS <= k < |prefix| ==> prefix[k]
  {
    TrailingPressIsPressed(prefix, LONG_PRESS_POLLS);
  }

  /** `RequestsAtThreshold` at a single poll. */
  lemma RequestAt(polls: seq<bool>, i: int)
    requires 0 <= i < |polls|
    ensures Run(polls).requests[i] <==> TrailingPress(polls[..i + 1]) == LONG_PRESS_POLLS
  {
    RequestsAtThreshold(polls);
  }

  /** Two polls that both complete the 150th pressed poll are separated
      by a release. */
  lemma ThresholdPollsSeparated(polls: seq<bool>, i: int, j: int)
    requires 0 <= i < j < |polls|
    requires TrailingPress(polls[..i + 1]) == LONG_PRESS_POLLS
    requires TrailingPress(polls[..j + 1]) == LONG_PRESS_POLLS
    ensures exists k :: i < k <= j && !polls[k]
  {
    if forall k :: i + 1 <= k < j + 1 ==> polls[k] {
      TrailingPressExtends(polls, i + 1, j + 1);
      assert false;
    }
  }

  /** Within one continuous press pairing is requested at most once:
      between two requests there is a released poll. */
  lemma OncePerPress(polls: seq<bool>, i: int, j: int)
    requires 0 <= i < j < |polls|
    requires Run(polls).requests[i] && Run(polls).requests[j]
    ensures exists k :: i < k <= j && !polls[k]
  {
    RequestAt(polls, i);
    RequestAt(polls, j);
    ThresholdPollsSeparated(polls, i, j);
  }

  /** A release re-arms the detector: a release followed by at least 150
      pressed polls requests pairing on the 150th of them, whatever came
      before. */
  lemma ReleaseRearms(before: seq<bool>, n: nat)
    requires n >= LONG_PRESS_POLLS
    ensures var polls := before + [false] + seq(n, _ => true);
            Run(polls).requests[|before| + LONG_PRESS_POLLS]
  {
    var polls := before + [false] + seq(n, _ => true);
    var m := |before|;
    RequestAt(polls, m + LONG_PRESS_POLLS);
    assert polls[m] == false;
    assert polls[..m + 1][..m] == polls[..m];
    assert TrailingPress(polls[..m + 1]) == 0;
    TrailingPressExtends(polls, m + 1, m + 1 + LONG_PRESS_POLLS);
  }

  /** A single press held from rest for the whole run requests pairing
      exactly once if it lasts 150 polls or more, on its 150th poll, and
      never otherwise. */
  lemma HeldPressFiresOnce(polls: seq<bool>)
    requires forall k :: 0 <= k < |polls| ==> polls[k]
    ensures forall i :: 0 <= i < |polls| ==>
              (Run(polls).requests[i] <==> i + 1 == LONG_PRESS_POLLS)
  {
    forall i | 0 <= i < |polls|
      ensures Run(polls).requests[i] <==> i + 1 == LONG_PRESS_POLLS
    {
      RequestAt(polls, i);
      TrailingPressExtends(polls, 0, i + 1);
      assert polls[..0] == [];
    }
  }
}
