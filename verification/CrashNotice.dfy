/**
 Telling the player that the core died. The bridge thread pushes frames and, at a
 crash, one zero-width sentinel into a channel with a single slot; the streaming
 loop drains that channel from whichever branch its select picks. A schedule
 interleaves both with outside cancellations.
 */
module CrashNotice {
  import opened Base

  datatype Frame = Live | Sentinel

  datatype Bridge =
    | Forwarding
    | Delivering      // reason recorded, retrying the sentinel
    | Cancelling
    | Finished

  datatype Stream =
    | Selecting
    | Draining(onCancel: bool, latest: Option<Frame>)
    | Relaying(onCancel: bool)
    | Encoding        // probing, pushing and pulling with the encoders
    | Exited
    | Wedged          // re-locking the receiver it already holds

  /** `sent`, `recorded` and `relayed` are history. */
  datatype State = State(
    slot: Option<Frame>, receiverGone: bool, cancelled: bool, reason: Option<string>,
    bridge: Bridge, stream: Stream,
    sent: bool, recorded: Option<string>, relayed: seq<string>)

  datatype BridgeAct = FrameReady | CoreFailed(reason: string) | RetryDeadline | SeeCancel | Idle

  datatype Choice =
    | BridgeStep(act: BridgeAct)
    | StreamStep(preferCancel: bool, encoderFails: bool)
    | CancelSession
    | DropReceiver

  const GENERIC_REASON := "Emulator crashed (core process exited)"

  function BridgeNext(s: State, act: BridgeAct): State {
    match s.bridge
    case Forwarding =>
      (match act
       case SeeCancel => if s.cancelled then s.(bridge := Finished) else s
       case FrameReady =>
         if s.receiverGone then s.(bridge := Finished)
         else if s.slot.None? then s.(slot := Some(Live))
         else s                                     // full: this frame is dropped
       case CoreFailed(r) => s.(reason := Some(r), recorded := Some(r), bridge := Delivering)
       case _ => s)
    case Delivering =>
      if s.receiverGone then s.(bridge := Cancelling)
      else if s.slot.None? then s.(slot := Some(Sentinel), sent := true, bridge := Cancelling)
      else if act.RetryDeadline? then s.(bridge := Cancelling)
      else s
    case Cancelling => s.(cancelled := true, bridge := Finished)
    case Finished => s
  }

  function StreamNext(s: State, preferCancel: bool, encoderFails: bool): State {
    match s.stream
    case Selecting => s.(stream := Draining(preferCancel && s.cancelled, None))
    case Draining(onCancel, latest) =>
      if s.slot.Some? then s.(slot := None, stream := Draining(onCancel, s.slot))
      else if latest == Some(Sentinel) then s.(stream := Relaying(onCancel))
      else s.(stream := if onCancel then Exited else Encoding)
    case Relaying(onCancel) =>
      var r := if s.reason.Some? then s.reason.value else GENERIC_REASON;
      s.(relayed := s.relayed + [r], reason := None, stream := if onCancel then Exited else Wedged)
    case Encoding => s.(stream := if encoderFails then Exited else Selecting)
    case Exited => s.(cancelled := true)
    case Wedged => s
  }

  function Next(s: State, c: Choice): State {
    match c
    case BridgeStep(act) => BridgeNext(s, act)
    case StreamStep(preferCancel, encoderFails) => StreamNext(s, preferCancel, encoderFails)
    case CancelSession => s.(cancelled := true)
    case DropReceiver => if s.stream.Exited? then s.(receiverGone := true) else s
  }

  function Run(s: State, schedule: seq<Choice>): State
    decreases |schedule|
  {
    if schedule == [] then s else Run(Next(s, schedule[0]), schedule[1..])
  }

  const START := State(None, false, false, None, Forwarding, Selecting, false, None, [])

  // ── Invariant ──────────────────────────────────────────────────────

  /** The sentinel is still on its way to the player. */
  predicate InFlight(s: State) {
    || s.slot == Some(Sentinel)
    || (s.stream.Draining? && s.stream.latest == Some(Sentinel))
    || s.stream.Relaying?
  }

  predicate Inv(s: State) {
    && (s.stream.Draining? && s.stream.latest == Some(Sentinel) ==> s.slot == None)
    && (s.stream.Relaying? ==> s.slot == None)
    && (s.bridge.Forwarding? ==> s.recorded == None && !s.sent)
    && (s.bridge.Delivering? ==> !s.sent && s.recorded.Some?)
    && (s.sent ==> s.recorded.Some? && s.slot != Some(Live))
    && (InFlight(s) ==> s.sent && s.relayed == [] && s.reason == s.recorded)
    && (s.relayed != [] ==> s.sent && s.relayed == [s.recorded.value])
    && (s.relayed == [] ==> s.reason == s.recorded && !s.stream.Wedged?)
    && (s.receiverGone ==> s.stream.Exited?)
  }

  lemma NextKeepsInv(s: State, c: Choice)
    requires Inv(s)
    ensures Inv(Next(s, c))
  {
  }

  lemma {:induction false} RunKeepsInv(s: State, schedule: seq<Choice>)
    requires Inv(s)
    ensures Inv(Run(s, schedule))
    decreases |schedule|
  {
    if schedule != [] {
      NextKeepsInv(s, schedule[0]);
      RunKeepsInv(Next(s, schedule[0]), schedule[1..]);
    }
  }

  /** Whatever happens, the player hears at most once, only after a sentinel was
      enqueued, and then the reason the bridge recorded. */
  lemma NoticeIsGenuine(schedule: seq<Choice>)
    ensures var s := Run(START, schedule);
      && |s.relayed| <= 1
      && (!s.sent ==> s.relayed == [])
      && (s.relayed != [] ==> s.recorded.Some? && s.relayed == [s.recorded.value])
  {
    RunKeepsInv(START, schedule);
  }

  // ── The notice arrives ─────────────────────────────────────────────

  function StreamMoves(schedule: seq<Choice>): nat {
    if schedule == [] then 0
    else (if schedule[0].StreamStep? then 1 else 0) + StreamMoves(schedule[1..])
  }

  /** Loop steps until the relay has happened. */
  function Distance(s: State): nat {
    if s.relayed != [] then 0
    else
      match s.stream
      case Relaying(_) => 1
      case Draining(_, latest) => if latest == Some(Sentinel) then 2 else 3
      case Selecting => 4
      case _ => 5
  }

  /** The sentinel will be seen: it was relayed, or it is in flight and the loop is
      back in its select or draining. */
  predicate Committed(s: State) {
    s.relayed != [] || (InFlight(s) && (s.stream.Selecting? || s.stream.Draining? || s.stream.Relaying?))
  }

  lemma CommittedAdvances(s: State, c: Choice)
    requires Inv(s) && Committed(s)
    ensures Inv(Next(s, c)) && Committed(Next(s, c)) && Next(s, c).recorded == s.recorded
    ensures Distance(Next(s, c)) <= Distance(s)
    ensures c.StreamStep? && Distance(s) > 0 ==> Distance(Next(s, c)) < Distance(s)
  {
  }

  lemma {:induction false} CommittedIsRelayed(s: State, schedule: seq<Choice>)
    requires Inv(s) && Committed(s) && StreamMoves(schedule) >= Distance(s)
    ensures s.recorded.Some? && Run(s, schedule).relayed == [s.recorded.value]
    decreases |schedule|
  {
    if schedule == [] {
    } else {
      CommittedAdvances(s, schedule[0]);
      CommittedIsRelayed(Next(s, schedule[0]), schedule[1..]);
    }
  }

  /** Once the sentinel is enqueued and the loop is in its select (or already
      draining), four more steps of the loop relay the recorded reason, however the
      bridge, cancellation and branch choices interleave with them. */
  lemma EnqueuedSentinelIsRelayed(past: seq<Choice>, future: seq<Choice>)
    requires var s := Run(START, past);
      && s.slot == Some(Sentinel) && (s.stream.Selecting? || s.stream.Draining?)
    requires StreamMoves(future) >= 4
    ensures var s := Run(START, past);
      s.recorded.Some? && Run(s, future).relayed == [s.recorded.value]
  {
    RunKeepsInv(START, past);
    CommittedIsRelayed(Run(START, past), future);
  }

  predicate NextMoveFails(schedule: seq<Choice>) {
    schedule != [] &&
    (if schedule[0].StreamStep? then schedule[0].encoderFails else NextMoveFails(schedule[1..]))
  }

  lemma {:induction false} ExitedStaysSilent(s: State, schedule: seq<Choice>)
    requires s.stream.Exited?
    ensures Run(s, schedule).relayed == s.relayed
    decreases |schedule|
  {
    if schedule != [] {
      ExitedStaysSilent(Next(s, schedule[0]), schedule[1..]);
    }
  }

  lemma {:induction false} EncodingDecides(s: State, future: seq<Choice>)
    requires Inv(s) && s.slot == Some(Sentinel) && s.stream.Encoding? && StreamMoves(future) >= 5
    ensures Run(s, future).relayed == (if NextMoveFails(future) then [] else [s.recorded.value])
    decreases |future|
  {
    var s' := Next(s, future[0]);
    NextKeepsInv(s, future[0]);
    if !future[0].StreamStep? {
      EncodingDecides(s', future[1..]);
    } else if future[0].encoderFails {
      ExitedStaysSilent(s', future[1..]);
    } else {
      CommittedIsRelayed(s', future[1..]);
    }
  }

  /** A sentinel enqueued while the loop works with its encoders is relayed exactly
      when that work succeeds: an encoder error leaves the loop with the sentinel
      still in the slot. */
  lemma RelayedIffEncoderSucceeds(past: seq<Choice>, future: seq<Choice>)
    requires var s := Run(START, past);
      s.slot == Some(Sentinel) && s.stream.Encoding? && StreamMoves(future) >= 5
    ensures var s := Run(START, past);
      && s.recorded.Some?
      && (Run(s, future).relayed == [s.recorded.value] <==> !NextMoveFails(future))
  {
    RunKeepsInv(START, past);
    EncodingDecides(Run(START, past), future);
  }

  // ── Undisturbed runs ───────────────────────────────────────────────

  /** Nothing from outside: no other cancellation, no encoder error, no retry deadline. */
  predicate Calm(c: Choice) {
    match c
    case CancelSession => false
    case StreamStep(_, encoderFails) => !encoderFails
    case BridgeStep(act) => !act.RetryDeadline?
    case DropReceiver => true
  }

  ghost predicate AllCalm(schedule: seq<Choice>) { forall i :: 0 <= i < |schedule| ==> Calm(schedule[i]) }

  predicate CalmInv(s: State) {
    && (s.sent ==> InFlight(s) || s.relayed != [])
    && (s.cancelled ==> s.sent)
    && (s.relayed != [] <==> s.stream.Exited? || s.stream.Wedged?)
    && (s.stream.Draining? && s.stream.onCancel ==> s.cancelled)
    && ((s.bridge.Cancelling? || s.bridge.Finished?) && s.recorded.Some? ==> s.sent)
    && (s.bridge.Cancelling? ==> s.recorded.Some?)
  }

  lemma CalmStep(s: State, c: Choice)
    requires Inv(s) && CalmInv(s) && Calm(c)
    ensures CalmInv(Next(s, c))
  {
    NextKeepsInv(s, c);
  }

  lemma {:induction false} CalmRun(s: State, schedule: seq<Choice>)
    requires Inv(s) && CalmInv(s) && AllCalm(schedule)
    ensures Inv(Run(s, schedule)) && CalmInv(Run(s, schedule))
    decreases |schedule|
  {
    if schedule != [] {
      NextKeepsInv(s, schedule[0]);
      CalmStep(s, schedule[0]);
      CalmRun(Next(s, schedule[0]), schedule[1..]);
    }
  }

  lemma {:induction false} CalmNeverFails(schedule: seq<Choice>)
    requires AllCalm(schedule)
    ensures !NextMoveFails(schedule)
  {
    if schedule != [] {
      assert Calm(schedule[0]);
      CalmNeverFails(schedule[1..]);
    }
  }

  /** The cancellation that follows a crash never outruns its notice: with no outside
      cancellation, encoder error or missed deadline, the loop leaves only after relaying
      the recorded reason, and five loop steps after the bridge is done with a failed core
      the player has been told. */
  lemma CrashReachesThePlayer(past: seq<Choice>, future: seq<Choice>)
    requires AllCalm(past) && AllCalm(future)
    ensures var s := Run(START, past);
      && (s.stream.Exited? ==> s.recorded.Some? && s.relayed == [s.recorded.value])
      && (s.bridge.Finished? && s.recorded.Some? && StreamMoves(future) >= 5 ==>
            Run(s, future).relayed == [s.recorded.value])
  {
    CalmRun(START, past);
    var s := Run(START, past);
    if s.bridge.Finished? && s.recorded.Some? && StreamMoves(future) >= 5 {
      if s.stream.Encoding? {
        EncodingDecides(s, future);
        CalmNeverFails(future);
      } else {
        CommittedIsRelayed(s, future);
      }
    }
  }

  // ── Leaving after the notice ───────────────────────────────────────

  lemma {:induction false} RunLast(s: State, schedule: seq<Choice>)
    requires schedule != []
    ensures Run(s, schedule) == Next(Run(s, schedule[..|schedule| - 1]), schedule[|schedule| - 1])
    decreases |schedule|
  {
    var n := |schedule| - 1;
    if n > 0 {
      assert schedule[1..][..n - 1] == schedule[..n][1..];
      RunLast(Next(s, schedule[0]), schedule[1..]);
    }
  }

  /** Whether the last select of a run took its cancel branch: it was picked, and the
      cancellation was visible when the select ran. */
  function LastSelect(schedule: seq<Choice>): Option<bool> {
    if schedule == [] then None
    else
      var n := |schedule| - 1;
      var s, c := Run(START, schedule[..n]), schedule[n];
      if s.stream.Selecting? && c.StreamStep? then Some(c.preferCancel && s.cancelled) else LastSelect(schedule[..n])
  }

  /** What the last select has to do with where the loop is. */
  predicate Branched(s: State, last: Option<bool>) {
    && (s.stream.Draining? || s.stream.Relaying? ==> last == Some(s.stream.onCancel))
    && (s.stream.Wedged? ==> last == Some(false))
    && (s.relayed != [] ==> s.stream.Wedged? || (s.stream.Exited? && last == Some(true)))
  }

  lemma BranchedStep(s: State, c: Choice, last: Option<bool>)
    requires Inv(s) && Branched(s, last)
    ensures Branched(Next(s, c), if s.stream.Selecting? && c.StreamStep? then Some(c.preferCancel && s.cancelled) else last)
  {
  }

  lemma {:induction false} RunBranched(schedule: seq<Choice>)
    ensures Branched(Run(START, schedule), LastSelect(schedule))
  {
    if schedule != [] {
      var n := |schedule| - 1;
      RunBranched(schedule[..n]);
      RunKeepsInv(START, schedule[..n]);
      RunLast(START, schedule);
      BranchedStep(Run(START, schedule[..n]), schedule[n], LastSelect(schedule[..n]));
    }
  }

  /** A loop that relayed the notice has left exactly when the select that drained the
      sentinel took the cancel branch; otherwise it hangs. */
  lemma RelayedLoopLeavesIff(schedule: seq<Choice>)
    requires Run(START, schedule).relayed != []
    ensures Run(START, schedule).stream.Exited? <==> LastSelect(schedule) == Some(true)
    ensures Run(START, schedule).stream.Wedged? <==> LastSelect(schedule) == Some(false)
  {
    RunBranched(schedule);
  }

  /** A hung loop stays so on every schedule, and its receiver is never dropped. */
  lemma {:induction false} WedgedForever(s: State, schedule: seq<Choice>)
    requires s.stream.Wedged? && !s.receiverGone
    ensures Run(s, schedule).stream.Wedged? && !Run(s, schedule).receiverGone
    ensures Run(s, schedule).relayed == s.relayed
    decreases |schedule|
  {
    if schedule != [] {
      WedgedForever(Next(s, schedule[0]), schedule[1..]);
    }
  }

  /** A crash whose sentinel the tick branch drains. */
  function TickDrainsSentinel(reason: string): seq<Choice> {
    [BridgeStep(CoreFailed(reason)), BridgeStep(Idle)]
    + [StreamStep(false, false), StreamStep(false, false), StreamStep(false, false), StreamStep(false, false)]
  }

  lemma WedgeIsReachable(reason: string)
    ensures var s := Run(START, TickDrainsSentinel(reason));
      s.stream.Wedged? && !s.receiverGone && s.relayed == [reason]
  {
    var schedule := TickDrainsSentinel(reason);
    var tick := StreamStep(false, false);
    var s1 := Next(START, schedule[0]);
    var s2 := Next(s1, schedule[1]);
    assert s2.slot == Some(Sentinel) && s2.reason == Some(reason);
    assert schedule[1..][1..] == [tick, tick, tick, tick];
    assert [tick, tick, tick, tick][1..] == [tick, tick, tick] && [tick, tick, tick][1..] == [tick, tick];
    assert [tick, tick][1..] == [tick] && [tick][1..] == [];
    calc {
      Run(START, schedule);
      Run(s1, schedule[1..]);
      Run(s2, [tick, tick, tick, tick]);
      Run(Next(s2, tick), [tick, tick, tick]);
      Run(Next(Next(s2, tick), tick), [tick, tick]);
      Run(Next(Next(Next(s2, tick), tick), tick), [tick]);
      Next(Next(Next(Next(s2, tick), tick), tick), tick);
    }
  }

  // ── A crash is told ────────────────────────────────────────────────

  lemma {:induction false} RunConcat(s: State, a: seq<Choice>, b: seq<Choice>)
    ensures Run(s, a + b) == Run(Run(s, a), b)
    decreases |a|
  {
    if a == [] {
      assert a + b == b;
    } else {
      assert (a + b)[1..] == a[1..] + b;
      RunConcat(Next(s, a[0]), a[1..], b);
    }
  }

  /** One calm round, in any order: the bridge and the loop both move. */
  ghost predicate Round(r: seq<Choice>) {
    && AllCalm(r)
    && (exists i :: 0 <= i < |r| && r[i].BridgeStep?)
    && (exists i :: 0 <= i < |r| && r[i].StreamStep?)
  }

  ghost predicate AllRounds(rounds: seq<seq<Choice>>) { forall i :: 0 <= i < |rounds| ==> Round(rounds[i]) }

  function Flat(rounds: seq<seq<Choice>>): seq<Choice> {
    if rounds == [] then [] else rounds[0] + Flat(rounds[1..])
  }

  /** Steps of whoever is next until the notice is relayed. */
  function Effort(s: State): nat {
    if s.relayed != [] then 0
    else if s.sent then Distance(s)
    else if s.slot.None? then 6
    else 6 + (match s.stream case Draining(_, _) => 1 case Selecting => 2 case _ => 3)
  }

  /** The next step towards the notice is the bridge's. */
  predicate BridgesTurn(s: State) { s.relayed == [] && !s.sent && s.slot.None? }

  /** The bridge has recorded this reason, and the notice is still to come or was relayed. */
  predicate Telling(s: State, r: string) {
    && Inv(s) && CalmInv(s) && s.recorded == Some(r)
    && (s.sent || s.bridge.Delivering?)
  }

  lemma TellingStep(s: State, r: string, c: Choice)
    requires Telling(s, r) && Calm(c)
    ensures var s' := Next(s, c);
      && Telling(s', r) && Effort(s') <= Effort(s)
      && (Effort(s) > 0 && (if BridgesTurn(s) then c.BridgeStep? else c.StreamStep?) ==> Effort(s') < Effort(s))
  {
    NextKeepsInv(s, c);
    CalmStep(s, c);
  }

  lemma {:induction false} TellingRun(s: State, r: string, schedule: seq<Choice>)
    requires Telling(s, r) && AllCalm(schedule)
    ensures Telling(Run(s, schedule), r) && Effort(Run(s, schedule)) <= Effort(s)
    ensures Effort(s) > 0 && (if BridgesTurn(s) then exists i :: 0 <= i < |schedule| && schedule[i].BridgeStep?
                              else exists i :: 0 <= i < |schedule| && schedule[i].StreamStep?)
            ==> Effort(Run(s, schedule)) < Effort(s)
    decreases |schedule|
  {
    if schedule != [] {
      var s' := Next(s, schedule[0]);
      TellingStep(s, r, schedule[0]);
      TellingRun(s', r, schedule[1..]);
      if Effort(s') == Effort(s) > 0 {
        SameTurn(s, r, schedule[0]);
        assert forall i :: 1 <= i < |schedule| ==> schedule[i] == schedule[1..][i - 1];
      }
    }
  }

  /** A step that brings no progress does not change whose turn it is. */
  lemma SameTurn(s: State, r: string, c: Choice)
    requires Telling(s, r) && Calm(c) && Effort(Next(s, c)) == Effort(s) > 0
    ensures BridgesTurn(Next(s, c)) == BridgesTurn(s)
    ensures if BridgesTurn(s) then !c.BridgeStep? else !c.StreamStep?
  {
    TellingStep(s, r, c);
  }

  lemma {:induction false} RoundsTell(s: State, r: string, rounds: seq<seq<Choice>>)
    requires Telling(s, r) && AllRounds(rounds) && |rounds| >= Effort(s)
    ensures Run(s, Flat(rounds)).relayed == [r]
    decreases |rounds|
  {
    if rounds == [] {
      assert s.relayed != [];
    } else {
      assert Round(rounds[0]);
      TellingRun(s, r, rounds[0]);
      RunConcat(s, rounds[0], Flat(rounds[1..]));
      if Effort(s) == 0 {
        EffortStaysZero(s, r, Flat(rounds), rounds);
      } else {
        RoundsTell(Run(s, rounds[0]), r, rounds[1..]);
      }
    }
  }

  lemma {:induction false} FlatIsCalm(rounds: seq<seq<Choice>>)
    requires AllRounds(rounds)
    ensures AllCalm(Flat(rounds))
  {
    if rounds != [] {
      FlatIsCalm(rounds[1..]);
      assert Round(rounds[0]);
    }
  }

  lemma EffortStaysZero(s: State, r: string, schedule: seq<Choice>, rounds: seq<seq<Choice>>)
    requires Telling(s, r) && Effort(s) == 0 && AllRounds(rounds) && schedule == Flat(rounds)
    ensures Run(s, schedule).relayed == [r]
  {
    FlatIsCalm(rounds);
    TellingRun(s, r, schedule);
    assert Effort(Run(s, schedule)) == 0;
  }

  /** Cancelling branches are taken only after a cancellation. */
  predicate CancelSeen(s: State) { s.stream.Draining? && s.stream.onCancel ==> s.cancelled }

  lemma {:induction false} RunSeesCancel(s: State, schedule: seq<Choice>)
    requires CancelSeen(s)
    ensures CancelSeen(Run(s, schedule))
    decreases |schedule|
  {
    if schedule != [] {
      CancelSeenStep(s, schedule[0]);
      RunSeesCancel(Next(s, schedule[0]), schedule[1..]);
    }
  }

  lemma CancelSeenStep(s: State, c: Choice)
    requires CancelSeen(s)
    ensures CancelSeen(Next(s, c))
  {
  }

  /** When the core fails, the bridge is forwarding and the session is not cancelled, then after
      ten rounds in which bridge and loop both move, and nothing else goes wrong, the player has
      been told this reason if and only if the loop had not left already: a frame in the channel,
      the order of the moves and the branches the loop picks make no difference. */
  lemma CrashIsToldIff(past: seq<Choice>, r: string, rounds: seq<seq<Choice>>)
    requires Run(START, past).bridge.Forwarding? && !Run(START, past).cancelled
    requires AllRounds(rounds) && |rounds| >= 10
    ensures Run(START, past + [BridgeStep(CoreFailed(r))] + Flat(rounds)).relayed == [r]
      <==> !Run(START, past).stream.Exited?
  {
    var s := Run(START, past);
    var fail := past + [BridgeStep(CoreFailed(r))];
    assert fail[..|past|] == past;
    RunLast(START, fail);
    RunConcat(START, fail, Flat(rounds));
    RunKeepsInv(START, past);
    RunSeesCancel(START, past);
    if s.stream.Exited? {
      ExitedStaysSilent(Run(START, fail), Flat(rounds));
    } else {
      FailureIsTelling(s, r);
      RoundsTell(Run(START, fail), r, rounds);
    }
  }

  lemma FailureIsTelling(s: State, r: string)
    requires Inv(s) && CancelSeen(s) && s.bridge.Forwarding? && !s.cancelled && !s.stream.Exited?
    ensures var s' := Next(s, BridgeStep(CoreFailed(r))); Telling(s', r) && Effort(s') <= 9
  {
    NextKeepsInv(s, BridgeStep(CoreFailed(r)));
  }

  /** In particular every crash is told if nothing went wrong before it either. */
  lemma CalmCrashIsTold(past: seq<Choice>, r: string, rounds: seq<seq<Choice>>)
    requires AllCalm(past) && Run(START, past).bridge.Forwarding? && AllRounds(rounds) && |rounds| >= 10
    ensures Run(START, past + [BridgeStep(CoreFailed(r))] + Flat(rounds)).relayed == [r]
  {
    CalmRun(START, past);
    CrashIsToldIff(past, r, rounds);
  }
}
