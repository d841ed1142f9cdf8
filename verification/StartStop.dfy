/**
 Stopping a standalone session while its core may still be loading. The loader
 raises `core_loading`, may raise `core_started` and spawn a bridge thread, and
 lowers `core_loading` when its guard drops; the stopper polls the two flags.
 */
module StartStop {
  datatype Loader =
    | NotEntered
    | Loading
    | FlagRaised     // core_started stored, bridge not yet registered
    | Registered
    | Spawned        // bridge thread running, guard not yet dropped
    | Ended

  datatype Stopper =
    | NotCalled
    | ReadStarted
    | ReadLoading
    | RereadStarted
    | CheckDeadline
    | AwaitStopped
    | Returned(done: bool)

  /** `running` is true from the spawn of the bridge thread until it signals
      `stopped`; `enteredAtCall` is history. */
  datatype State = State(
    coreLoading: bool, coreStarted: bool, cancelled: bool, stopped: bool, running: bool,
    loader: Loader, stopper: Stopper, enteredAtCall: bool)

  datatype Choice =
    | LoaderStep(fails: bool)
    | BridgeStops
    | StopperStep(deadline: bool)
    | CancelElsewhere

  function LoaderNext(s: State, fails: bool): State {
    match s.loader
    case NotEntered => s.(coreLoading := true, loader := Loading)
    case Loading =>
      if fails then s.(coreLoading := false, loader := Ended)
      else s.(coreStarted := true, loader := FlagRaised)
    case FlagRaised => s.(loader := Registered)
    case Registered => s.(running := true, loader := Spawned)
    case Spawned => s.(coreLoading := false, loader := Ended)
    case Ended => s
  }

  function StopperNext(s: State, deadline: bool): State {
    match s.stopper
    case NotCalled =>
      s.(cancelled := true, stopper := ReadStarted, enteredAtCall := !s.loader.NotEntered?)
    case ReadStarted => s.(stopper := if s.coreStarted then AwaitStopped else ReadLoading)
    case ReadLoading => s.(stopper := if s.coreLoading then CheckDeadline else RereadStarted)
    case RereadStarted => s.(stopper := if s.coreStarted then CheckDeadline else Returned(true))
    case CheckDeadline => s.(stopper := if deadline then Returned(false) else ReadStarted)
    case AwaitStopped =>
      if s.stopped then s.(stopper := Returned(true))
      else if deadline then s.(stopper := Returned(false))
      else s
    case Returned(_) => s
  }

  function Next(s: State, c: Choice): State {
    match c
    case LoaderStep(fails) => LoaderNext(s, fails)
    case BridgeStops => if s.running then s.(running := false, stopped := true) else s
    case StopperStep(deadline) => StopperNext(s, deadline)
    case CancelElsewhere => s.(cancelled := true)
  }

  function Run(s: State, schedule: seq<Choice>): State
    decreases |schedule|
  {
    if schedule == [] then s else Run(Next(s, schedule[0]), schedule[1..])
  }

  const START := State(false, false, false, false, false, NotEntered, NotCalled, false)

  /** No bridge of the session runs now, and none can start any more. */
  predicate NoBridgeEver(s: State) {
    !s.running && (s.stopped || (s.loader.Ended? && !s.coreStarted))
  }

  predicate Inv(s: State) {
    && (s.coreLoading <==> !s.loader.NotEntered? && !s.loader.Ended?)
    && (s.coreStarted ==> !s.loader.NotEntered? && !s.loader.Loading?)
    && (s.loader.FlagRaised? || s.loader.Registered? || s.loader.Spawned? ==> s.coreStarted)
    && (s.running || s.stopped ==> s.coreStarted && (s.loader.Spawned? || s.loader.Ended?))
    && !(s.running && s.stopped)
    && (s.stopper.AwaitStopped? ==> s.coreStarted)
    && (s.enteredAtCall ==> !s.loader.NotEntered?)
    && (s.enteredAtCall && s.stopper.RereadStarted? ==> s.loader.Ended?)
    && (s.enteredAtCall && s.stopper == Returned(true) ==> NoBridgeEver(s))
  }

  lemma LoaderKeepsInv(s: State, fails: bool)
    requires Inv(s)
    ensures Inv(LoaderNext(s, fails))
  {
  }

  lemma PollKeepsInv(s: State, deadline: bool)
    requires Inv(s) && (s.stopper.NotCalled? || s.stopper.ReadStarted? || s.stopper.ReadLoading?)
    ensures Inv(StopperNext(s, deadline))
  {
  }

  lemma DecideKeepsInv(s: State, deadline: bool)
    requires Inv(s) && (s.stopper.RereadStarted? || s.stopper.CheckDeadline?)
    ensures Inv(StopperNext(s, deadline))
  {
  }

  lemma StopperKeepsInv(s: State, deadline: bool)
    requires Inv(s)
    ensures Inv(StopperNext(s, deadline))
  {
    if s.stopper.NotCalled? || s.stopper.ReadStarted? || s.stopper.ReadLoading? {
      PollKeepsInv(s, deadline);
    } else if s.stopper.RereadStarted? || s.stopper.CheckDeadline? {
      DecideKeepsInv(s, deadline);
    }
  }

  lemma NextKeepsInv(s: State, c: Choice)
    requires Inv(s)
    ensures Inv(Next(s, c))
  {
    match c
    case LoaderStep(fails) => LoaderKeepsInv(s, fails);
    case StopperStep(deadline) => StopperKeepsInv(s, deadline);
    case _ =>
  }

  lemma {:induction false} RunKeepsInv(s: State, schedule: seq<Choice>)
    requires Inv(s)
    ensures Inv(Run(s, schedule))
    decreases |schedule|
  {
    if schedule != [] {
      NextKeepsInv(s, schedule[0]);
      RunKeepsInv(Next(s, schedule[0]), schedule[1..]);
    }
  }

  /** The stopper keeps its note of having been called after the loader entered. */
  predicate CalledInTime(s: State) {
    if s.stopper.NotCalled? then !s.loader.NotEntered? else s.enteredAtCall
  }

  lemma StopperRemembersTheCall(s: State, deadline: bool)
    requires CalledInTime(s)
    ensures CalledInTime(StopperNext(s, deadline))
  {
    if !s.stopper.NotCalled? {
      assert StopperNext(s, deadline).enteredAtCall && !StopperNext(s, deadline).stopper.NotCalled?;
    }
  }

  lemma NextRemembersTheCall(s: State, c: Choice)
    requires CalledInTime(s)
    ensures CalledInTime(Next(s, c))
  {
    if c.StopperStep? {
      StopperRemembersTheCall(s, c.deadline);
    }
  }

  lemma {:induction false} CallIsRemembered(s: State, schedule: seq<Choice>)
    requires CalledInTime(s)
    ensures CalledInTime(Run(s, schedule))
    decreases |schedule|
  {
    if schedule != [] {
      NextRemembersTheCall(s, schedule[0]);
      CallIsRemembered(Next(s, schedule[0]), schedule[1..]);
    }
  }

  /** A stopper that ran before the loader entered returns success, and the loader
      then starts a bridge. */
  const EARLY_STOP: seq<Choice> :=
    [StopperStep(false), StopperStep(false), StopperStep(false), StopperStep(false),
     LoaderStep(false), LoaderStep(false), LoaderStep(false), LoaderStep(false)]

  lemma EarlyStopMissesTheBridge(s: State)
    requires Inv(s) && s.stopper.NotCalled? && s.loader.NotEntered?
    ensures Run(s, EARLY_STOP).stopper == Returned(true) && Run(s, EARLY_STOP).running
  {
    var t := EARLY_STOP;
    var s1 := Next(s, t[0]);
    var s2 := Next(s1, t[1]);
    var s3 := Next(s2, t[2]);
    var s4 := Next(s3, t[3]);
    var s5 := Next(s4, t[4]);
    var s6 := Next(s5, t[5]);
    var s7 := Next(s6, t[6]);
    var s8 := Next(s7, t[7]);
    assert t[1..][1..] == t[2..] && t[2..][1..] == t[3..] && t[3..][1..] == t[4..];
    assert t[4..][1..] == t[5..] && t[5..][1..] == t[6..] && t[6..][1..] == t[7..] && t[7..][1..] == [];
    calc {
      Run(s, t);
      Run(s1, t[1..]);
      Run(s2, t[2..]);
      Run(s3, t[3..]);
      Run(s4, t[4..]);
      Run(s5, t[5..]);
      Run(s6, t[6..]);
      Run(s7, t[7..]);
      s8;
    }
  }

  /** Calling the stop barrier is sound exactly when core loading has been entered:
      then a `true` result means no bridge runs or ever will, whatever the loader, the
      bridge and the clock did meanwhile; before that, it can return `true` with a
      bridge still to come. */
  lemma StopIsABarrierIffEntered(past: seq<Choice>)
    requires Run(START, past).stopper.NotCalled?
    ensures var s := Run(START, past);
      (forall future :: Run(s, future).stopper == Returned(true) ==> NoBridgeEver(Run(s, future)))
      <==> !s.loader.NotEntered?
  {
    RunKeepsInv(START, past);
    var s := Run(START, past);
    if s.loader.NotEntered? {
      EarlyStopMissesTheBridge(s);
      assert !NoBridgeEver(Run(s, EARLY_STOP));
    } else {
      forall future | Run(s, future).stopper == Returned(true)
        ensures NoBridgeEver(Run(s, future))
      {
        RunKeepsInv(s, future);
        CallIsRemembered(s, future);
      }
    }
  }

  /** Once no bridge can run, none ever does. */
  lemma {:induction false} NoBridgeIsFinal(s: State, schedule: seq<Choice>)
    requires Inv(s) && NoBridgeEver(s)
    ensures NoBridgeEver(Run(s, schedule))
    decreases |schedule|
  {
    if schedule != [] {
      NextKeepsInv(s, schedule[0]);
      NoBridgeIsFinal(Next(s, schedule[0]), schedule[1..]);
    }
  }

  // ── The answer ─────────────────────────────────────────────────────

  lemma {:induction false} RunLast(s: State, schedule: seq<Choice>)
    requires schedule != []
    ensures Run(s, schedule) == Next(Run(s, schedule[..|schedule| - 1]), schedule[|schedule| - 1])
    decreases |schedule|
  {
    var n := |schedule| - 1;
    if n > 0 {
      assert schedule[1..][..n - 1] == schedule[..n][1..];
      RunLast(Next(s, schedule[0]), schedule[1..]);
    }
  }

  /** The stopper's deadline passes while it cannot yet answer. */
  predicate TimesOut(s: State, c: Choice) {
    c == StopperStep(true) && (s.stopper.CheckDeadline? || (s.stopper.AwaitStopped? && !s.stopped))
  }

  ghost predicate TimedOut(schedule: seq<Choice>) {
    exists i: nat :: i < |schedule| && TimesOut(Run(START, schedule[..i]), schedule[i])
  }

  predicate Refused(s: State) { s.stopper.Returned? && !s.stopper.done }

  lemma StopperRefuses(s: State, deadline: bool)
    ensures Refused(StopperNext(s, deadline)) <==> (Refused(s) || TimesOut(s, StopperStep(deadline)))
  {
  }

  lemma LoaderKeepsStopper(s: State, fails: bool)
    ensures LoaderNext(s, fails).stopper == s.stopper
  {
  }

  lemma RefusedStep(s: State, c: Choice)
    ensures Refused(Next(s, c)) <==> (Refused(s) || TimesOut(s, c))
  {
    match c
    case LoaderStep(fails) => LoaderKeepsStopper(s, fails);
    case StopperStep(deadline) => StopperRefuses(s, deadline);
    case _ =>
  }

  lemma TimedOutStep(schedule: seq<Choice>, c: Choice)
    ensures TimedOut(schedule + [c]) <==> (TimedOut(schedule) || TimesOut(Run(START, schedule), c))
  {
    var more := schedule + [c];
    forall i: nat | i < |schedule|
      ensures TimesOut(Run(START, more[..i]), more[i]) == TimesOut(Run(START, schedule[..i]), schedule[i])
    {
      assert more[..i] == schedule[..i];
    }
    assert more[..|schedule|] == schedule && more[|schedule|] == c;
    if TimesOut(Run(START, schedule), c) {
      assert TimesOut(Run(START, more[..|schedule|]), more[|schedule|]);
    }
    if TimedOut(schedule) {
      var i: nat :| i < |schedule| && TimesOut(Run(START, schedule[..i]), schedule[i]);
      assert TimesOut(Run(START, more[..i]), more[i]);
    }
  }

  /** The stop answers false if and only if its deadline passed while it could not answer. */
  lemma {:induction false} FalseIffTimedOut(schedule: seq<Choice>)
    ensures Refused(Run(START, schedule)) <==> TimedOut(schedule)
  {
    if schedule != [] {
      var n := |schedule| - 1;
      FalseIffTimedOut(schedule[..n]);
      RunLast(START, schedule);
      RefusedStep(Run(START, schedule[..n]), schedule[n]);
      TimedOutStep(schedule[..n], schedule[n]);
      assert schedule[..n] + [schedule[n]] == schedule;
    }
  }

  /** The stopper's steps from here once no bridge can run. */
  function StepsLeft(s: State): nat {
    match s.stopper
    case Returned(_) => 0
    case AwaitStopped => 1
    case RereadStarted => if s.coreStarted then 4 else 1
    case ReadLoading => 5
    case ReadStarted => if s.coreStarted then 2 else 6
    case NotCalled => 7
    case CheckDeadline => if s.coreStarted then 3 else 7
  }

  function StopperMoves(schedule: seq<Choice>): nat {
    if schedule == [] then 0 else (if schedule[0].StopperStep? then 1 else 0) + StopperMoves(schedule[1..])
  }

  /** No bridge can run any more, and the stopper has not given up. */
  predicate Settled(s: State) { Inv(s) && NoBridgeEver(s) && !Refused(s) }

  lemma StopperAdvances(s: State)
    requires Settled(s)
    ensures var s' := StopperNext(s, false);
      !Refused(s') && StepsLeft(s') <= StepsLeft(s) && (StepsLeft(s) > 0 ==> StepsLeft(s') < StepsLeft(s))
  {
  }

  lemma OthersWait(s: State, c: Choice)
    requires Settled(s) && !c.StopperStep?
    ensures Next(s, c).stopper == s.stopper && Next(s, c).coreStarted == s.coreStarted
  {
  }

  lemma SettledStep(s: State, c: Choice)
    requires Settled(s) && c != StopperStep(true)
    ensures Settled(Next(s, c)) && StepsLeft(Next(s, c)) <= StepsLeft(s)
    ensures c.StopperStep? && StepsLeft(s) > 0 ==> StepsLeft(Next(s, c)) < StepsLeft(s)
  {
    NextKeepsInv(s, c);
    NoBridgeIsFinal(s, [c]);
    assert [c][1..] == [] && Run(s, [c]) == Next(s, c);
    if c.StopperStep? {
      StopperAdvances(s);
    } else {
      OthersWait(s, c);
    }
  }

  /** Once no bridge of the session can run any more, a stop whose deadline does not pass
      answers true within seven of its steps, whatever else happens. */
  lemma {:induction false} StopSucceeds(s: State, schedule: seq<Choice>)
    requires Settled(s) && StopperStep(true) !in schedule && StopperMoves(schedule) >= StepsLeft(s)
    ensures Run(s, schedule).stopper == Returned(true)
    decreases |schedule|
  {
    if schedule != [] {
      assert schedule[0] in schedule && forall c :: c in schedule[1..] ==> c in schedule;
      SettledStep(s, schedule[0]);
      StopSucceeds(Next(s, schedule[0]), schedule[1..]);
    }
  }
}
