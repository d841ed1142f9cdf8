/**
 Termination signals during an install. A guard swaps in a handler that only notes
 the first signal, and its drop restores the old handlers and re-raises that signal.
 A schedule interleaves guard steps with arriving signals.
 */
module UpgradeSignals {
  import opened Base

  datatype Signal = SigInt | SigTerm | SigHup

  const ORDER: seq<Signal> := [SigInt, SigTerm, SigHup]

  datatype Handler = Prior(id: nat) | Defer

  datatype Handlers = Handlers(onInt: Handler, onTerm: Handler, onHup: Handler) {
    function Get(s: Signal): Handler {
      match s case SigInt => onInt case SigTerm => onTerm case SigHup => onHup
    }

    function Set(s: Signal, h: Handler): Handlers {
      match s
      case SigInt => this.(onInt := h)
      case SigTerm => this.(onTerm := h)
      case SigHup => this.(onHup := h)
    }
  }

  /** `saved` holds the prior handlers of the first signals in ORDER. */
  datatype Guard =
    | NotBlocked
    | Installing(saved: seq<Handler>)
    | Undoing(saved: seq<Handler>)      // sigaction failed
    | BlockFailed
    | Active(saved: seq<Handler>)       // the install runs
    | Restoring(saved: seq<Handler>)
    | Raising(signal: Option<Signal>)
    | Dropped

  /** History: `deferred` is every signal the deferring handler took since the guard
      began, `handled` what prior handlers ran, `raised` what the guard raised. */
  datatype State = State(
    handlers: Handlers, pending: Option<Signal>, guard: Guard,
    deferred: seq<Signal>, handled: seq<(Signal, nat)>, raised: seq<Signal>)

  datatype Choice = Arrive(s: Signal) | GuardStep(fails: bool)

  function Deliver(st: State, s: Signal): State {
    match st.handlers.Get(s)
    case Prior(id) => st.(handled := st.handled + [(s, id)])
    case Defer =>
      st.(pending := if st.pending.None? then Some(s) else st.pending, deferred := st.deferred + [s])
  }

  /** Puts back the most recently saved handler. */
  function RestoreLast(st: State, saved: seq<Handler>): Handlers
    requires 0 < |saved| <= 3
  {
    st.handlers.Set(ORDER[|saved| - 1], saved[|saved| - 1])
  }

  function GuardNext(st: State, fails: bool): State {
    match st.guard
    case NotBlocked => st.(pending := None, deferred := [], guard := Installing([]))
    case Installing(saved) =>
      if |saved| >= 3 then st.(guard := Active(saved))
      else if fails then st.(guard := Undoing(saved))
      else
        var s := ORDER[|saved|];
        st.(handlers := st.handlers.Set(s, Defer), guard := Installing(saved + [st.handlers.Get(s)]))
    case Undoing(saved) =>
      if 0 < |saved| <= 3
      then st.(handlers := RestoreLast(st, saved), guard := Undoing(saved[..|saved| - 1]))
      else st.(guard := BlockFailed)
    case Active(saved) => st.(guard := Restoring(saved))
    case Restoring(saved) =>
      if 0 < |saved| <= 3
      then st.(handlers := RestoreLast(st, saved), guard := Restoring(saved[..|saved| - 1]))
      else st.(guard := Raising(st.pending), pending := None)
    case Raising(signal) =>
      (match signal
       case Some(s) => Deliver(st, s).(raised := st.raised + [s], guard := Dropped)
       case None => st.(guard := Dropped))
    case _ => st
  }

  function Next(st: State, c: Choice): State {
    match c
    case Arrive(s) => Deliver(st, s)
    case GuardStep(fails) => GuardNext(st, fails)
  }

  function Run(st: State, schedule: seq<Choice>): State
    decreases |schedule|
  {
    if schedule == [] then st else Run(Next(st, schedule[0]), schedule[1..])
  }

  /** Any prior handlers, and whatever an earlier guard left pending. */
  predicate Init(st: State) {
    && st.handlers.onInt.Prior? && st.handlers.onTerm.Prior? && st.handlers.onHup.Prior?
    && st.guard.NotBlocked? && st.deferred == [] && st.handled == [] && st.raised == []
  }

  // ── Invariant ──────────────────────────────────────────────────────

  function First(s: seq<Signal>): Option<Signal> { if s == [] then None else Some(s[0]) }

  /** The handlers in force when the first `n` signals of ORDER are deferred. */
  function Deferring(h0: Handlers, n: nat): Handlers {
    Handlers(if n >= 1 then Defer else h0.onInt, if n >= 2 then Defer else h0.onTerm,
             if n >= 3 then Defer else h0.onHup)
  }

  predicate Saves(h0: Handlers, saved: seq<Handler>) {
    |saved| <= 3 && forall i :: 0 <= i < |saved| ==> saved[i] == h0.Get(ORDER[i])
  }

  predicate Swapped(st: State, h0: Handlers, saved: seq<Handler>) {
    Saves(h0, saved) && st.handlers == Deferring(h0, |saved|) && st.pending == First(st.deferred)
  }

  predicate Inv(st: State, h0: Handlers) {
    && h0.onInt.Prior? && h0.onTerm.Prior? && h0.onHup.Prior?
    && match st.guard
       case NotBlocked => st.handlers == h0 && st.deferred == [] && st.raised == []
       case Installing(saved) => Swapped(st, h0, saved) && st.raised == []
       case Undoing(saved) => Swapped(st, h0, saved) && st.raised == []
       case BlockFailed => Swapped(st, h0, []) && st.raised == []
       case Active(saved) => Swapped(st, h0, saved) && |saved| == 3 && st.raised == []
       case Restoring(saved) => Swapped(st, h0, saved) && st.raised == []
       case Raising(signal) => st.handlers == h0 && signal == First(st.deferred) && st.raised == []
       case Dropped => st.handlers == h0 && st.raised == if st.deferred == [] then [] else [st.deferred[0]]
  }

  lemma SwapNext(h0: Handlers, n: nat)
    requires n < 3
    ensures Deferring(h0, n).Get(ORDER[n]) == h0.Get(ORDER[n])
    ensures Deferring(h0, n).Set(ORDER[n], Defer) == Deferring(h0, n + 1)
    ensures Deferring(h0, n + 1).Set(ORDER[n], h0.Get(ORDER[n])) == Deferring(h0, n)
  {
  }

  lemma ArriveKeepsInv(st: State, h0: Handlers, s: Signal)
    requires Inv(st, h0)
    ensures Inv(Next(st, Arrive(s)), h0)
  {
    if st.handlers.Get(s).Defer? {
      assert First(st.deferred + [s]) == if st.deferred == [] then Some(s) else First(st.deferred);
    }
  }

  lemma InstallingKeepsInv(st: State, h0: Handlers, fails: bool)
    requires Inv(st, h0) && st.guard.Installing?
    ensures Inv(GuardNext(st, fails), h0)
  {
    if |st.guard.saved| < 3 {
      SwapNext(h0, |st.guard.saved|);
    }
  }

  lemma RestoringKeepsInv(st: State, h0: Handlers, fails: bool)
    requires Inv(st, h0) && (st.guard.Undoing? || st.guard.Restoring?)
    ensures Inv(GuardNext(st, fails), h0)
  {
    if |st.guard.saved| > 0 {
      SwapNext(h0, |st.guard.saved| - 1);
    }
  }

  lemma NextKeepsInv(st: State, h0: Handlers, c: Choice)
    requires Inv(st, h0)
    ensures Inv(Next(st, c), h0)
  {
    match c
    case Arrive(s) => ArriveKeepsInv(st, h0, s);
    case GuardStep(fails) =>
      if st.guard.Installing? {
        InstallingKeepsInv(st, h0, fails);
      } else if st.guard.Undoing? || st.guard.Restoring? {
        RestoringKeepsInv(st, h0, fails);
      }
  }

  lemma {:induction false} RunKeepsInv(st: State, h0: Handlers, schedule: seq<Choice>)
    requires Inv(st, h0)
    ensures Inv(Run(st, schedule), h0)
    decreases |schedule|
  {
    if schedule != [] {
      NextKeepsInv(st, h0, schedule[0]);
      RunKeepsInv(Next(st, schedule[0]), h0, schedule[1..]);
    }
  }

  /** After the guard has dropped, the three prior handlers are back and exactly the
      first deferred signal has been raised, once, and only then: nothing is ever raised
      while a handler is still swapped. Signals may arrive at any step, the drop itself
      included. */
  lemma DropRestoresAndRaisesTheFirst(s0: State, schedule: seq<Choice>)
    requires Init(s0)
    ensures var st := Run(s0, schedule);
      && (st.guard.Dropped? ==>
            st.handlers == s0.handlers && st.raised == if st.deferred == [] then [] else [st.deferred[0]])
      && (st.raised != [] ==> st.guard.Dropped? && st.handlers == s0.handlers)
  {
    RunKeepsInv(s0, s0.handlers, schedule);
  }

  /** If a handler cannot be swapped the others are put back, and a signal deferred
      meanwhile is not raised. */
  lemma FailedBlockRestores(s0: State, schedule: seq<Choice>)
    requires Init(s0) && Run(s0, schedule).guard.BlockFailed?
    ensures Run(s0, schedule).handlers == s0.handlers && Run(s0, schedule).raised == []
  {
    RunKeepsInv(s0, s0.handlers, schedule);
  }

  /** When the guard is gone, the first signal it deferred has been raised if and only if the
      guard came to exist or there was none: a failed installation loses the signal. */
  lemma DeferredSignalIsRaisedIff(s0: State, schedule: seq<Choice>)
    requires Init(s0) && (Run(s0, schedule).guard.Dropped? || Run(s0, schedule).guard.BlockFailed?)
    ensures var st := Run(s0, schedule);
      st.raised == (if st.deferred == [] then [] else [st.deferred[0]]) <==> st.guard.Dropped? || st.deferred == []
  {
    RunKeepsInv(s0, s0.handlers, schedule);
  }

  lemma {:induction false} NothingHandledWhileActive(st: State, h0: Handlers, arrivals: seq<Signal>)
    requires Inv(st, h0) && st.guard.Active?
    ensures var arrive := seq(|arrivals|, i requires 0 <= i < |arrivals| => Arrive(arrivals[i]));
      && Run(st, arrive).handled == st.handled && Run(st, arrive).guard == st.guard
      && Run(st, arrive).deferred == st.deferred + arrivals
    decreases |arrivals|
  {
    var arrive := seq(|arrivals|, i requires 0 <= i < |arrivals| => Arrive(arrivals[i]));
    if arrivals == [] {
      assert st.deferred + [] == st.deferred;
    } else {
      var rest := arrivals[1..];
      NextKeepsInv(st, h0, arrive[0]);
      assert arrive[1..] == seq(|rest|, i requires 0 <= i < |rest| => Arrive(rest[i]));
      NothingHandledWhileActive(Next(st, arrive[0]), h0, rest);
      assert st.deferred + [arrivals[0]] + rest == st.deferred + arrivals;
    }
  }

  /** While the install runs, any number of signals reach no prior handler. */
  lemma InstallIsNotInterrupted(s0: State, past: seq<Choice>, arrivals: seq<Signal>)
    requires Init(s0) && Run(s0, past).guard.Active?
    ensures var st := Run(s0, past);
      var arrive := seq(|arrivals|, i requires 0 <= i < |arrivals| => Arrive(arrivals[i]));
      && Run(st, arrive).handled == st.handled
      && Run(st, arrive).deferred == st.deferred + arrivals
  {
    RunKeepsInv(s0, s0.handlers, past);
    NothingHandledWhileActive(Run(s0, past), s0.handlers, arrivals);
  }

  // ── Every signal is handled ────────────────────────────────────────

  function Arrivals(schedule: seq<Choice>): nat {
    if schedule == [] then 0 else (if schedule[0].Arrive? then 1 else 0) + Arrivals(schedule[1..])
  }

  /** The prior handler of the raised signal has run. */
  predicate RaisedRan(st: State, h0: Handlers) {
    st.raised != [] ==> exists i :: 0 <= i < |st.handled| && st.handled[i] == (st.raised[0], PriorOf(h0, st.raised[0]))
  }

  function PriorOf(h0: Handlers, s: Signal): nat { if h0.Get(s).Prior? then h0.Get(s).id else 0 }

  lemma HandledGrows(st: State, c: Choice)
    ensures st.handled <= Next(st, c).handled
  {
  }

  /** One step of the guard or one arrival: a signal is handled, or deferred, or raised and handled. */
  lemma StepCounts(st: State, h0: Handlers, c: Choice)
    requires Inv(st, h0)
    ensures var st' := Next(st, c);
      |st'.handled| + |st'.deferred| - |st'.raised|
      == |st.handled| + |st.deferred| - |st.raised| + (if c.Arrive? then 1 else 0)
  {
  }

  lemma StepRuns(st: State, h0: Handlers, c: Choice)
    requires Inv(st, h0) && RaisedRan(st, h0)
    ensures RaisedRan(Next(st, c), h0)
  {
    var st' := Next(st, c);
    HandledGrows(st, c);
    if st'.raised != [] {
      if st.raised != [] {
        var i :| 0 <= i < |st.handled| && st.handled[i] == (st.raised[0], PriorOf(h0, st.raised[0]));
        assert st'.handled[i] == st.handled[i];
      } else {
        var s := st.guard.signal.value;
        assert st'.handled == st.handled + [(s, PriorOf(h0, s))] && st'.raised == [s];
        assert st'.handled[|st.handled|] == (s, PriorOf(h0, s));
      }
    }
  }

  lemma {:induction false} RunCounts(st: State, h0: Handlers, schedule: seq<Choice>)
    requires Inv(st, h0) && RaisedRan(st, h0)
    ensures var st' := Run(st, schedule);
      && RaisedRan(st', h0)
      && |st'.handled| + |st'.deferred| - |st'.raised| == |st.handled| + |st.deferred| - |st.raised| + Arrivals(schedule)
    decreases |schedule|
  {
    if schedule != [] {
      NextKeepsInv(st, h0, schedule[0]);
      StepCounts(st, h0, schedule[0]);
      StepRuns(st, h0, schedule[0]);
      RunCounts(Next(st, schedule[0]), h0, schedule[1..]);
    }
  }

  /** At any time the signals handled and deferred are those that arrived and the one raised;
      and after the drop, the prior handler of the first deferred signal has run on it. */
  lemma EverySignalIsAccountedFor(s0: State, schedule: seq<Choice>)
    requires Init(s0)
    ensures var st := Run(s0, schedule);
      && |st.handled| + |st.deferred| == Arrivals(schedule) + |st.raised|
      && (st.guard.Dropped? && st.deferred != [] ==>
            exists i :: 0 <= i < |st.handled| && st.handled[i] == (st.deferred[0], PriorOf(s0.handlers, st.deferred[0])))
  {
    RunKeepsInv(s0, s0.handlers, schedule);
    RunCounts(s0, s0.handlers, schedule);
  }
}
