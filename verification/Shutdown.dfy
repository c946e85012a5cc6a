/** The shutdown handshake between startDaemon and its clean-up goroutine (daemon/daemon.go:272-290,
    :349-365).  A clean-up in progress is a fan-in call with the kills, and their stops, below it. */
module Shutdown {
  import FanIn

  datatype Main = Serving | SendingShutdown | AwaitingCleanup | Closing | Closed

  datatype Cleaner = Waiting | Cleaning(call: FanIn.Task) | Acknowledging | Stopped

  /** `begun` counts the clean-ups that have begun, `past` holds those that have returned, as they were then;
      `closes` counts metaStore.Close. */
  datatype State = State(main: Main, cleaner: Cleaner, begun: nat, past: seq<FanIn.Task>, closes: nat)

  ghost predicate Init(s: State) {
    s == State(Serving, Waiting, 0, [], 0)
  }

  ghost predicate ServerStops(s: State, s': State) {
    s.main.Serving? && s' == s.(main := SendingShutdown)
  }

  ghost predicate TimerFires(s: State, s': State, call: FanIn.Task) {
    s.cleaner.Waiting? && FanIn.Fresh(call) && s' == s.(cleaner := Cleaning(call), begun := s.begun + 1)
  }

  ghost predicate CleanupWorks(s: State, s': State, call: FanIn.Task) {
    s.cleaner.Cleaning? && FanIn.Step(s.cleaner.call, call) && s' == s.(cleaner := Cleaning(call))
  }

  ghost predicate CleanupReturns(s: State, s': State) {
    && s.cleaner.Cleaning? && !s.cleaner.call.stage.Running?
    && s' == s.(cleaner := Waiting, past := s.past + [s.cleaner.call])
  }

  /** shutdownSig is unbuffered, so the send pairs with the receive in the select. */
  ghost predicate ShutdownSignal(s: State, s': State) {
    s.main.SendingShutdown? && s.cleaner.Waiting? && s' == s.(main := AwaitingCleanup, cleaner := Acknowledging)
  }

  ghost predicate ClosedSignal(s: State, s': State) {
    s.main.AwaitingCleanup? && s.cleaner.Acknowledging? && s' == s.(main := Closing, cleaner := Stopped)
  }

  ghost predicate CloseStore(s: State, s': State) {
    s.main.Closing? && s' == s.(main := Closed, closes := s.closes + 1)
  }

  /** Any step but the timer's. */
  ghost predicate Advances(s: State, s': State) {
    || ServerStops(s, s')
    || (exists call :: CleanupWorks(s, s', call))
    || CleanupReturns(s, s')
    || ShutdownSignal(s, s')
    || ClosedSignal(s, s')
    || CloseStore(s, s')
  }

  ghost predicate Next(s: State, s': State) {
    Advances(s, s') || exists call :: TimerFires(s, s', call)
  }

  ghost predicate Run(ss: seq<State>) {
    && |ss| > 0 && Init(ss[0])
    && forall i :: 0 <= i < |ss| - 1 ==> Next(ss[i], ss[i + 1])
  }

  ghost predicate Inv(s: State) {
    && (s.cleaner.Cleaning? ==> FanIn.Proper(s.cleaner.call))
    && s.begun == |s.past| + (if s.cleaner.Cleaning? then 1 else 0)
    && (s.cleaner.Acknowledging? <==> s.main.AwaitingCleanup?)
    && (s.cleaner.Stopped? <==> s.main.Closing? || s.main.Closed?)
    && s.closes == (if s.main.Closed? then 1 else 0)
    && (forall call <- s.past :: !call.stage.Running? && FanIn.AllGone(call))
  }

  lemma NextKeepsInv(s: State, s': State)
    requires Inv(s) && Next(s, s')
    ensures Inv(s')
  {
    if call :| TimerFires(s, s', call) {
      FanIn.FreshIsProper(call);
    } else if call :| CleanupWorks(s, s', call) {
      FanIn.StepKeepsProper(s.cleaner.call, call);
    } else if CleanupReturns(s, s') {
      FanIn.ReturnedMeansDone(s.cleaner.call);
    }
  }

  lemma {:induction false} RunInv(ss: seq<State>, i: nat)
    requires Run(ss) && i < |ss|
    ensures Inv(ss[i])
  {
    if i > 0 {
      RunInv(ss, i - 1);
      assert Next(ss[i - 1], ss[(i - 1) + 1]);
      NextKeepsInv(ss[i - 1], ss[i]);
    }
  }

  /** From the moment the store is about to be closed, no clean-up is in progress, none starts again, and of
      all clean-ups there ever were no goroutine is left; and the store is closed once at most. */
  lemma ClosesAfterCleanup(ss: seq<State>, i: nat, j: nat)
    requires Run(ss) && i <= j < |ss| && (ss[i].main.Closing? || ss[i].closes > 0)
    ensures ss[j].cleaner.Stopped? && ss[j].begun == |ss[j].past| == ss[i].begun
    ensures forall call <- ss[j].past :: !call.stage.Running? && FanIn.AllGone(call)
    ensures ss[j].closes <= 1 && (ss[j].closes == 1 <==> ss[j].main.Closed?)
  {
    StaysShut(ss, i, j);
    RunInv(ss, j);
    RunInv(ss, i);
  }

  lemma {:induction false} StaysShut(ss: seq<State>, i: nat, j: nat)
    requires Run(ss) && i <= j < |ss| && (ss[i].main.Closing? || ss[i].closes > 0)
    ensures (ss[j].main.Closing? || ss[j].main.Closed?) && ss[j].past == ss[i].past
    decreases j
  {
    if i == j {
      RunInv(ss, i);
    } else {
      StaysShut(ss, i, j - 1);
      RunInv(ss, j - 1);
      assert Next(ss[j - 1], ss[(j - 1) + 1]);
    }
  }

  /** Until the store is closed something other than the timer can always happen: the handshake cannot lock up. */
  lemma HandshakeNeverStuck(ss: seq<State>) returns (s': State)
    requires Run(ss) && !ss[|ss| - 1].main.Closed?
    ensures Advances(ss[|ss| - 1], s') && (s'.main != ss[|ss| - 1].main || ss[|ss| - 1].cleaner.Cleaning?)
  {
    RunInv(ss, |ss| - 1);
    s' := Advance(ss[|ss| - 1]);
  }

  lemma Advance(s: State) returns (s': State)
    requires Inv(s) && !s.main.Closed?
    ensures Advances(s, s') && (s'.main != s.main || s.cleaner.Cleaning?)
  {
    match s.main
    case Serving =>
      s' := s.(main := SendingShutdown);
    case SendingShutdown =>
      if s.cleaner.Cleaning? {
        if s.cleaner.call.stage.Running? {
          var call := FanIn.NeverStuck(s.cleaner.call);
          s' := s.(cleaner := Cleaning(call));
          assert CleanupWorks(s, s', call);
        } else {
          s' := s.(cleaner := Waiting, past := s.past + [s.cleaner.call]);
          assert CleanupReturns(s, s');
        }
      } else {
        s' := s.(main := AwaitingCleanup, cleaner := Acknowledging);
        assert ShutdownSignal(s, s');
      }
    case AwaitingCleanup =>
      s' := s.(main := Closing, cleaner := Stopped);
      assert ClosedSignal(s, s');
    case Closing =>
      s' := s.(main := Closed, closes := s.closes + 1);
      assert CloseStore(s, s');
    case Closed =>
      s' := s;
  }

  function Rank(main: Main): nat {
    match main
    case Serving => 4
    case SendingShutdown => 3
    case AwaitingCleanup => 2
    case Closing => 1
    case Closed => 0
  }

  /** How many steps are left at most if the timer does not fire. */
  function StepsLeft(s: State): nat {
    Rank(s.main) + (if s.cleaner.Cleaning? then FanIn.Weight(s.cleaner.call) + 1 else 0)
  }

  lemma AdvancesShrink(s: State, s': State)
    requires Advances(s, s')
    ensures StepsLeft(s') < StepsLeft(s)
  {
    if call :| CleanupWorks(s, s', call) {
      FanIn.StepDecreases(s.cleaner.call, call);
    }
  }

  lemma {:induction false} AdvancesAreBounded(more: seq<State>)
    requires |more| > 0 && Inv(more[0])
    requires forall k :: 0 <= k < |more| - 1 ==> Advances(more[k], more[k + 1])
    ensures |more| - 1 + StepsLeft(more[|more| - 1]) <= StepsLeft(more[0]) && Inv(more[|more| - 1])
    decreases |more|
  {
    hide Advances, StepsLeft, Inv;
    if |more| > 1 {
      var n := |more| - 1;
      AdvancesAreBounded(more[..n]);
      assert Advances(more[n - 1], more[(n - 1) + 1]);
      AdvancesShrink(more[n - 1], more[n]);
      assert Next(more[n - 1], more[n]);
      NextKeepsInv(more[n - 1], more[n]);
    }
  }

  ghost predicate CanAdvance(s: State) { exists s' :: Advances(s, s') }

  /** From any point of a run on, unless the timer fires again, only so many steps can follow, and where nothing
      but the timer can go on, the store is closed.  From the moment that the clean-up goroutine has taken the
      signal the timer cannot fire any more. */
  lemma ShutdownEnds(ss: seq<State>, more: seq<State>)
    requires Run(ss) && |more| > 0 && more[0] == ss[|ss| - 1]
    requires forall k :: 0 <= k < |more| - 1 ==> Advances(more[k], more[k + 1])
    ensures |more| - 1 <= StepsLeft(more[0])
    ensures CanAdvance(more[|more| - 1]) || more[|more| - 1].main.Closed?
    ensures more[0].main.AwaitingCleanup? || more[0].main.Closing? ==> forall s', call :: !TimerFires(more[0], s', call)
  {
    RunInv(ss, |ss| - 1);
    AdvancesAreBounded(more);
    if !more[|more| - 1].main.Closed? {
      var s' := Advance(more[|more| - 1]);
    }
  }
}
