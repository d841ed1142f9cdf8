/**
 The process-wide registry of running bridges: registering prunes the stopped ones,
 and a global shutdown cancels a snapshot and waits for each bridge in it.
 */
module ShutdownRegistry {
  /** A bridge and its two cancellation tokens go by one number. */
  type BridgeId = nat

  /** The registry under its lock, and the tokens that have been cancelled. */
  datatype View = View(handles: seq<BridgeId>, cancelled: set<BridgeId>, stopped: set<BridgeId>)

  function Live(handles: seq<BridgeId>, stopped: set<BridgeId>): seq<BridgeId> {
    if handles == [] then []
    else (if handles[0] in stopped then [] else [handles[0]]) + Live(handles[1..], stopped)
  }

  lemma Associates(a: seq<BridgeId>, b: seq<BridgeId>, c: seq<BridgeId>)
    ensures a + (b + c) == a + b + c
  {
  }

  lemma {:induction false} LiveAppend(a: seq<BridgeId>, x: BridgeId, stopped: set<BridgeId>)
    ensures Live(a + [x], stopped) == Live(a, stopped) + (if x in stopped then [] else [x])
  {
    var last := if x in stopped then [] else [x];
    if a == [] {
      assert a + [x] == [x] && [x][1..] == [];
      assert last + [] == [] + last;
    } else {
      var first := if a[0] in stopped then [] else [a[0]];
      assert (a + [x])[1..] == a[1..] + [x] && (a + [x])[0] == a[0];
      LiveAppend(a[1..], x, stopped);
      Associates(first, Live(a[1..], stopped), last);
    }
  }

  lemma {:induction false} LiveMembers(a: seq<BridgeId>, stopped: set<BridgeId>, id: BridgeId)
    ensures id in Live(a, stopped) <==> id in a && id !in stopped
  {
    if a != [] {
      LiveMembers(a[1..], stopped, id);
      assert a == [a[0]] + a[1..];
    }
  }

  function Registered(v: View, id: BridgeId): View {
    v.(handles := Live(v.handles, v.stopped) + [id])
  }

  function Pruned(v: View): View { v.(handles := Live(v.handles, v.stopped)) }

  class Registry {
    var handles: seq<BridgeId>
    var cancelled: set<BridgeId>
    var stopped: set<BridgeId>

    constructor ()
      ensures Contents() == View([], {}, {})
    {
      handles, cancelled, stopped := [], {}, {};
    }

    ghost function Contents(): View
      reads this
    {
      View(handles, cancelled, stopped)
    }

    /** Drops every handle whose `stopped` token is cancelled. */
    method Retain()
      modifies this`handles
      ensures Contents() == Pruned(old(Contents()))
    {
      var kept: seq<BridgeId> := [];
      var i := 0;
      while i < |handles|
        invariant 0 <= i <= |handles|
        invariant handles == old(handles)
        invariant kept == Live(handles[..i], stopped)
      {
        LiveAppend(handles[..i], handles[i], stopped);
        assert handles[..i] + [handles[i]] == handles[..i + 1];
        if handles[i] !in stopped {
          kept := kept + [handles[i]];
        }
        i := i + 1;
      }
      assert handles[..|handles|] == handles;
      handles := kept;
    }

    method Register(id: BridgeId)
      modifies this`handles
      ensures Contents() == Registered(old(Contents()), id)
    {
      Retain();
      handles := handles + [id];
    }

    /** The handles a global shutdown will wait for, taken under the lock. */
    method Snapshot() returns (taken: seq<BridgeId>)
      modifies this`handles
      ensures Contents() == Pruned(old(Contents())) && taken == handles
    {
      Retain();
      taken := handles;
    }

    method CancelAll(taken: seq<BridgeId>)
      modifies this`cancelled
      ensures Contents() == old(Contents()).(cancelled := old(cancelled) + set id | id in taken)
    {
      var i := 0;
      while i < |taken|
        invariant 0 <= i <= |taken|
        invariant cancelled == old(cancelled) + set id | id in taken[..i]
      {
        assert taken[..i + 1] == taken[..i] + [taken[i]];
        cancelled := cancelled + {taken[i]};
        i := i + 1;
      }
      assert taken[..i] == taken;
    }
  }

  // ── Concurrent callers ─────────────────────────────────────────────

  /** One `cancel_and_wait` call. `known` is history: what was registered when the
      snapshot was taken. */
  datatype Waiter =
    | NotCalled
    | Cancelling(taken: seq<BridgeId>, next: nat, known: set<BridgeId>)
    | Waiting(taken: seq<BridgeId>, next: nat, known: set<BridgeId>)
    | Pruning(known: set<BridgeId>)
    | Returned(completed: bool, known: set<BridgeId>)

  /** `cleaned` holds the bridges that have saved, killed and unlinked. */
  datatype State = State(
    view: View, registered: set<BridgeId>, cleaned: set<BridgeId>, waiters: map<nat, Waiter>)

  datatype Choice =
    | RegisterBridge(id: BridgeId)
    | CleanUp(id: BridgeId)
    | Complete(id: BridgeId)
    | WaiterStep(w: nat, timedOut: bool)

  function WaiterOf(s: State, w: nat): Waiter { if w in s.waiters then s.waiters[w] else NotCalled }

  function WaiterNext(s: State, w: nat, timedOut: bool): State {
    match WaiterOf(s, w)
    case NotCalled =>
      var v := Pruned(s.view);
      s.(view := v, waiters := s.waiters[w := Cancelling(v.handles, 0, s.registered)])
    case Cancelling(taken, i, known) =>
      if i < |taken|
      then s.(view := s.view.(cancelled := s.view.cancelled + {taken[i]}),
              waiters := s.waiters[w := Cancelling(taken, i + 1, known)])
      else s.(waiters := s.waiters[w := Waiting(taken, 0, known)])
    case Waiting(taken, i, known) =>
      if i >= |taken| then s.(waiters := s.waiters[w := Pruning(known)])
      else if taken[i] in s.view.stopped then s.(waiters := s.waiters[w := Waiting(taken, i + 1, known)])
      else if timedOut then s.(waiters := s.waiters[w := Returned(false, known)])
      else s
    case Pruning(known) =>
      s.(view := Pruned(s.view), waiters := s.waiters[w := Returned(true, known)])
    case Returned(_, _) => s
  }

  function Next(s: State, c: Choice): State {
    match c
    case RegisterBridge(id) =>
      if id in s.registered then s
      else s.(view := Registered(s.view, id), registered := s.registered + {id})
    case CleanUp(id) => if id in s.registered then s.(cleaned := s.cleaned + {id}) else s
    case Complete(id) =>
      if id in s.cleaned then s.(view := s.view.(stopped := s.view.stopped + {id})) else s
    case WaiterStep(w, timedOut) => WaiterNext(s, w, timedOut)
  }

  function Run(s: State, schedule: seq<Choice>): State
    decreases |schedule|
  {
    if schedule == [] then s else Run(Next(s, schedule[0]), schedule[1..])
  }

  const START := State(View([], {}, {}), {}, {}, map[])

  ghost predicate WaiterInv(s: State, x: Waiter) {
    match x
    case NotCalled => true
    case Cancelling(taken, i, known) =>
      && i <= |taken|
      && (forall id :: id in known && id !in s.view.stopped ==> id in taken)
      && (forall j :: 0 <= j < i ==> taken[j] in s.view.cancelled)
    case Waiting(taken, i, known) =>
      && i <= |taken|
      && (forall id :: id in known && id !in s.view.stopped ==> id in taken[i..])
      && (forall id :: id in known && id !in s.view.stopped ==> id in s.view.cancelled)
    case Pruning(known) => known <= s.view.stopped
    case Returned(completed, known) =>
      && (completed ==> known <= s.view.stopped)
      && (forall id :: id in known && id !in s.view.stopped ==> id in s.view.cancelled)
  }

  ghost predicate Inv(s: State) {
    && s.view.stopped <= s.cleaned <= s.registered
    && (forall id :: id in s.registered && id !in s.view.stopped ==> id in s.view.handles)
    && (forall w :: w in s.waiters ==> WaiterInv(s, s.waiters[w]))
  }

  lemma PruningKeepsLive(v: View)
    ensures forall id :: id in Pruned(v).handles <==> id in v.handles && id !in v.stopped
  {
    forall id ensures id in Pruned(v).handles <==> id in v.handles && id !in v.stopped {
      LiveMembers(v.handles, v.stopped, id);
    }
  }

  lemma WaiterKeepsInv(s: State, w: nat, timedOut: bool)
    requires Inv(s)
    ensures Inv(WaiterNext(s, w, timedOut))
  {
    PruningKeepsLive(s.view);
    var s' := WaiterNext(s, w, timedOut);
    var x := WaiterOf(s, w);
    assert WaiterInv(s, x);
    assert WaiterInv(s', WaiterOf(s', w)) by {
      if x.Waiting? && x.next < |x.taken| {
        assert x.taken[x.next..] == [x.taken[x.next]] + x.taken[x.next + 1..];
      } else if x.Cancelling? && x.next == |x.taken| {
        assert x.taken[0..] == x.taken;
      }
    }
    forall v | v in s'.waiters ensures WaiterInv(s', s'.waiters[v]) {
      if v != w {
        assert WaiterInv(s, s.waiters[v]);
      }
    }
  }

  lemma NextKeepsInv(s: State, c: Choice)
    requires Inv(s)
    ensures Inv(Next(s, c))
  {
    PruningKeepsLive(s.view);
    if c.WaiterStep? {
      WaiterKeepsInv(s, c.w, c.timedOut);
    } else {
      var s' := Next(s, c);
      forall w | w in s'.waiters ensures WaiterInv(s', s'.waiters[w]) {
        assert WaiterInv(s, s.waiters[w]);
      }
    }
  }

  lemma {:induction false} RunKeepsInv(s: State, schedule: seq<Choice>)
    requires Inv(s)
    ensures Inv(Run(s, schedule))
    decreases |schedule|
  {
    if schedule != [] {
      NextKeepsInv(s, schedule[0]);
      RunKeepsInv(Next(s, schedule[0]), schedule[1..]);
    }
  }

  /** A registered bridge that has not stopped is never missing from the registry. */
  lemma RunningBridgesStayRegistered(schedule: seq<Choice>, id: BridgeId)
    ensures var s := Run(START, schedule);
      id in s.registered && id !in s.view.stopped ==> id in s.view.handles
  {
    RunKeepsInv(START, schedule);
  }

  // ── The barrier ────────────────────────────────────────────────────

  predicate Knows(x: Waiter, id: BridgeId) { x.NotCalled? || id in x.known }

  lemma {:induction false} KnownStaysKnown(s: State, schedule: seq<Choice>, w: nat, id: BridgeId)
    requires id in s.registered && Knows(WaiterOf(s, w), id)
    ensures Knows(WaiterOf(Run(s, schedule), w), id)
    decreases |schedule|
  {
    if schedule != [] {
      KnownStaysKnown(Next(s, schedule[0]), schedule[1..], w, id);
    }
  }

  lemma {:induction false} RunConcat(s: State, a: seq<Choice>, b: seq<Choice>)
    ensures Run(s, a + b) == Run(Run(s, a), b)
    decreases |a|
  {
    if a == [] {
      assert a + b == b;
    } else {
      assert (a + b)[1..] == a[1..] + b;
      RunConcat(Next(s, a[0]), a[1..], b);
    }
  }

  /** A bridge registered before a shutdown call began has been cancelled or had
      already stopped when the call returns, and when the call reports completion the
      bridge has finished its whole cleanup and signalled `stopped`. */
  lemma ShutdownIsABarrier(before: seq<Choice>, during: seq<Choice>, w: nat, id: BridgeId)
    requires WaiterOf(Run(START, before), w).NotCalled? && id in Run(START, before).registered
    requires WaiterOf(Run(START, before + during), w).Returned?
    ensures var s := Run(START, before + during);
      && (id in s.view.cancelled || id in s.view.stopped)
      && (WaiterOf(s, w).completed ==> id in s.view.stopped && id in s.cleaned)
  {
    RunConcat(START, before, during);
    KnownStaysKnown(Run(START, before), during, w, id);
    RunKeepsInv(START, before + during);
  }

  // ── The answer ─────────────────────────────────────────────────────

  lemma {:induction false} RunLast(s: State, schedule: seq<Choice>)
    requires schedule != []
    ensures Run(s, schedule) == Next(Run(s, schedule[..|schedule| - 1]), schedule[|schedule| - 1])
    decreases |schedule|
  {
    var n := |schedule| - 1;
    if n > 0 {
      assert schedule[1..][..n - 1] == schedule[..n][1..];
      RunLast(Next(s, schedule[0]), schedule[1..]);
    }
  }

  /** The call times out on a bridge that has not stopped. */
  predicate TimesOut(s: State, c: Choice, w: nat) {
    && c == WaiterStep(w, true) && WaiterOf(s, w).Waiting?
    && var x := WaiterOf(s, w);
    x.next < |x.taken| && x.taken[x.next] !in s.view.stopped
  }

  ghost predicate TimedOut(schedule: seq<Choice>, w: nat) {
    exists i: nat :: i < |schedule| && TimesOut(Run(START, schedule[..i]), schedule[i], w)
  }

  predicate Refused(x: Waiter) { x.Returned? && !x.completed }

  lemma RefusedStep(s: State, c: Choice, w: nat)
    ensures Refused(WaiterOf(Next(s, c), w)) <==> (Refused(WaiterOf(s, w)) || TimesOut(s, c, w))
  {
  }

  lemma TimedOutStep(schedule: seq<Choice>, c: Choice, w: nat)
    ensures TimedOut(schedule + [c], w) <==> (TimedOut(schedule, w) || TimesOut(Run(START, schedule), c, w))
  {
    var more := schedule + [c];
    forall i: nat | i < |schedule|
      ensures TimesOut(Run(START, more[..i]), more[i], w) == TimesOut(Run(START, schedule[..i]), schedule[i], w)
    {
      assert more[..i] == schedule[..i];
    }
    assert more[..|schedule|] == schedule && more[|schedule|] == c;
    if TimesOut(Run(START, schedule), c, w) {
      assert TimesOut(Run(START, more[..|schedule|]), more[|schedule|], w);
    }
    if TimedOut(schedule, w) {
      var i: nat :| i < |schedule| && TimesOut(Run(START, schedule[..i]), schedule[i], w);
      assert TimesOut(Run(START, more[..i]), more[i], w);
    }
  }

  /** A shutdown call that has returned reports completion if and only if it never timed out on
      a bridge that had not stopped. */
  lemma {:induction false} CompletedIff(schedule: seq<Choice>, w: nat)
    ensures Refused(WaiterOf(Run(START, schedule), w)) <==> TimedOut(schedule, w)
  {
    if schedule != [] {
      var n := |schedule| - 1;
      CompletedIff(schedule[..n], w);
      RunLast(START, schedule);
      RefusedStep(Run(START, schedule[..n]), schedule[n], w);
      TimedOutStep(schedule[..n], schedule[n], w);
      assert schedule[..n] + [schedule[n]] == schedule;
    }
  }

  /** The call's steps from here, if every bridge it waits for has stopped. */
  function StepsLeft(x: Waiter): nat {
    match x
    case Cancelling(taken, i, _) => (if i <= |taken| then |taken| - i else 0) + |taken| + 3
    case Waiting(taken, i, _) => (if i <= |taken| then |taken| - i else 0) + 2
    case Pruning(_) => 1
    case _ => 0
  }

  ghost predicate AllStopped(s: State, x: Waiter) {
    match x
    case NotCalled => false
    case Cancelling(taken, i, _) => forall id :: id in taken ==> id in s.view.stopped
    case Waiting(taken, i, _) => forall id :: id in taken ==> id in s.view.stopped
    case Pruning(_) => true
    case Returned(completed, _) => completed
  }

  function Moves(schedule: seq<Choice>, w: nat): nat {
    if schedule == [] then 0
    else (if schedule[0].WaiterStep? && schedule[0].w == w then 1 else 0) + Moves(schedule[1..], w)
  }

  lemma WaiterAdvances(s: State, c: Choice, w: nat)
    requires AllStopped(s, WaiterOf(s, w))
    ensures var x, y := WaiterOf(s, w), WaiterOf(Next(s, c), w);
      && AllStopped(Next(s, c), y) && StepsLeft(y) <= StepsLeft(x)
      && (c.WaiterStep? && c.w == w && StepsLeft(x) > 0 ==> StepsLeft(y) < StepsLeft(x))
  {
  }

  /** Once every bridge it took has stopped, a shutdown call reports completion after finitely
      many of its own steps, whatever its clock says and the others do. */
  lemma {:induction false} StoppedBridgesComplete(s: State, schedule: seq<Choice>, w: nat)
    requires AllStopped(s, WaiterOf(s, w)) && Moves(schedule, w) >= StepsLeft(WaiterOf(s, w))
    ensures WaiterOf(Run(s, schedule), w).Returned? && WaiterOf(Run(s, schedule), w).completed
    decreases |schedule|
  {
    if schedule != [] {
      WaiterAdvances(s, schedule[0], w);
      StoppedBridgesComplete(Next(s, schedule[0]), schedule[1..], w);
    }
  }
}
