/**
 The pool of pre-built peer-connection stacks. Acquirers pop a stack and spawn a
 replenisher; replenishers build and push one. All tasks interleave: a schedule picks
 the next atomic step, and tasks of a kind at the same point are counted together.
 */
module PcPool {
  /** Stacks are numbered in the order they were pushed. `handed`, `failed`,
      `skipped`, `emptyWakes` and `timeouts` are history. */
  datatype State = State(
    size: nat, queue: seq<nat>, nextId: nat, permit: bool,
    // acquirers: popped but replenisher not spawned; about to wait; waiting; notified
    owed: nat, registering: nat, waiting: nat, woken: nat,
    // replenishers: before the over-fill check; building; pushed but not notified
    checking: nat, building: nat, notifying: nat,
    handed: seq<nat>, failed: nat, skipped: nat, emptyWakes: nat, timeouts: nat)

  datatype Choice =
    | Acquire            // the fast path under the queue lock
    | Register           // start waiting for a notification
    | WakePop            // a notified acquirer tries the queue
    | WaitTimeout
    | LateTimeout        // a notified acquirer times out and passes the notification on
    | SpawnReplenisher
    | OverfillCheck
    | BuildDone(ok: bool)
    | NotifyOne

  function Pop(s: State): State
    requires s.queue != []
  {
    s.(queue := s.queue[1..], handed := s.handed + [s.queue[0]], owed := s.owed + 1)
  }

  /** Wakes a waiter, or stores the permit if there is none. */
  function Notified(s: State): State {
    if s.waiting > 0 then s.(waiting := s.waiting - 1, woken := s.woken + 1) else s.(permit := true)
  }

  function Next(s: State, c: Choice): State {
    match c
    case Acquire => if s.queue != [] then Pop(s) else s.(registering := s.registering + 1)
    case Register =>
      if s.registering == 0 then s
      else if s.permit then s.(registering := s.registering - 1, permit := false, woken := s.woken + 1)
      else s.(registering := s.registering - 1, waiting := s.waiting + 1)
    case WakePop =>
      if s.woken == 0 then s
      else if s.queue != [] then Pop(s).(woken := s.woken - 1)
      else s.(woken := s.woken - 1, emptyWakes := s.emptyWakes + 1)
    case WaitTimeout =>
      if s.waiting == 0 then s else s.(waiting := s.waiting - 1, timeouts := s.timeouts + 1)
    case LateTimeout =>
      if s.woken == 0 then s else Notified(s.(woken := s.woken - 1, timeouts := s.timeouts + 1))
    case SpawnReplenisher =>
      if s.owed == 0 then s else s.(owed := s.owed - 1, checking := s.checking + 1)
    case OverfillCheck =>
      if s.checking == 0 then s
      else if |s.queue| >= s.size then s.(checking := s.checking - 1, skipped := s.skipped + 1)
      else s.(checking := s.checking - 1, building := s.building + 1)
    case BuildDone(ok) =>
      if s.building == 0 then s
      else if ok then s.(building := s.building - 1, queue := s.queue + [s.nextId], nextId := s.nextId + 1,
                         notifying := s.notifying + 1)
      else s.(building := s.building - 1, failed := s.failed + 1)
    case NotifyOne =>
      if s.notifying == 0 then s else Notified(s.(notifying := s.notifying - 1))
  }

  function Run(s: State, schedule: seq<Choice>): State
    decreases |schedule|
  {
    if schedule == [] then s else Run(Next(s, schedule[0]), schedule[1..])
  }

  function UpTo(n: nat): (r: seq<nat>)
    ensures |r| == n && forall i :: 0 <= i < n ==> r[i] == i
  {
    seq(n, i requires 0 <= i < n => i)
  }

  /** A pool of `size` slots of which `failed` pre-builds failed. */
  function Fresh(size: nat, failed: nat): State
    requires failed <= size
  {
    State(size, UpTo(size - failed), size - failed, false, 0, 0, 0, 0, 0, 0, 0, [], failed, 0, 0, 0)
  }

  function Failures(built: seq<bool>): (n: nat)
    ensures n <= |built|
  {
    if built == [] then 0
    else Failures(built[..|built| - 1]) + (if built[|built| - 1] then 0 else 1)
  }

  /** Pre-fills the pool with the builds that succeeded. */
  method New(built: seq<bool>) returns (s: State)
    ensures s == Fresh(|built|, Failures(built))
  {
    var stacks: seq<nat> := [];
    var failed := 0;
    var i := 0;
    while i < |built|
      invariant 0 <= i <= |built|
      invariant failed == Failures(built[..i])
      invariant stacks == UpTo(i - failed)
    {
      assert built[..i + 1][..i] == built[..i];
      if built[i] {
        stacks := stacks + [|stacks|];
      } else {
        failed := failed + 1;
      }
      i := i + 1;
    }
    assert built[..i] == built;
    s := State(|built|, stacks, |stacks|, false, 0, 0, 0, 0, 0, 0, 0, [], failed, 0, 0, 0);
  }

  predicate Inv(s: State) {
    && |s.queue| + s.owed + s.checking + s.building + s.failed == s.size
    && s.skipped == 0
    && s.handed + s.queue == UpTo(s.nextId)
  }

  lemma PopKeepsInv(s: State)
    requires Inv(s) && s.queue != []
    ensures Pop(s).handed + Pop(s).queue == UpTo(s.nextId) && s.handed <= Pop(s).handed
    ensures |Pop(s).queue| + Pop(s).owed == |s.queue| + s.owed
  {
    assert s.handed + [s.queue[0]] + s.queue[1..] == s.handed + s.queue;
  }

  lemma BuildKeepsInv(s: State, ok: bool)
    requires Inv(s)
    ensures Inv(Next(s, BuildDone(ok))) && s.failed <= Next(s, BuildDone(ok)).failed
  {
    assert s.handed + (s.queue + [s.nextId]) == s.handed + s.queue + [s.nextId];
    assert UpTo(s.nextId) + [s.nextId] == UpTo(s.nextId + 1);
  }

  lemma NextKeepsInv(s: State, c: Choice)
    requires Inv(s)
    ensures Inv(Next(s, c)) && Next(s, c).size == s.size && s.failed <= Next(s, c).failed
    ensures s.handed <= Next(s, c).handed
  {
    if c.BuildDone? {
      BuildKeepsInv(s, c.ok);
    } else if s.queue != [] {
      PopKeepsInv(s);
    }
  }

  lemma {:induction false} RunKeepsInv(s: State, schedule: seq<Choice>)
    requires Inv(s)
    ensures Inv(Run(s, schedule)) && Run(s, schedule).size == s.size && s.failed <= Run(s, schedule).failed
    ensures s.handed <= Run(s, schedule).handed
    decreases |schedule|
  {
    if schedule != [] {
      NextKeepsInv(s, schedule[0]);
      RunKeepsInv(Next(s, schedule[0]), schedule[1..]);
    }
  }

  lemma FreshInv(size: nat, failed: nat)
    requires failed <= size
    ensures Inv(Fresh(size, failed))
  {
    assert [] + UpTo(size - failed) == UpTo(size - failed);
  }

  /** Two parts of 0, 1, 2, ... */
  lemma InOrder(front: seq<nat>, back: seq<nat>, n: nat)
    requires front + back == UpTo(n)
    ensures forall i :: 0 <= i < |front| ==> front[i] == i
    ensures forall i :: 0 <= i < |back| ==> back[i] == |front| + i
  {
    forall i | 0 <= i < |front| ensures front[i] == i {
      assert (front + back)[i] == UpTo(n)[i];
    }
    forall i | 0 <= i < |back| ensures back[i] == |front| + i {
      assert (front + back)[|front| + i] == UpTo(n)[|front| + i];
    }
  }

  /** Over every interleaving: each slot is queued, being replenished or lost to a
      failed build; the queue never exceeds the size, so the over-fill check never
      fires; and stacks are handed out in the order they were built, each once. */
  lemma PoolConserves(built: seq<bool>, schedule: seq<Choice>)
    ensures var s := Run(Fresh(|built|, Failures(built)), schedule);
      && |s.queue| + s.owed + s.checking + s.building + s.failed == |built|
      && |s.queue| <= |built| && s.skipped == 0
      && (forall i :: 0 <= i < |s.handed| ==> s.handed[i] == i)
      && (forall i :: 0 <= i < |s.queue| ==> s.queue[i] == |s.handed| + i)
  {
    var s0 := Fresh(|built|, Failures(built));
    FreshInv(|built|, Failures(built));
    RunKeepsInv(s0, schedule);
    var s := Run(s0, schedule);
    InOrder(s.handed, s.queue, s.nextId);
  }

  lemma {:induction false} RunConcat(s: State, a: seq<Choice>, b: seq<Choice>)
    ensures Run(s, a + b) == Run(Run(s, a), b)
    decreases |a|
  {
    if a == [] {
      assert a + b == b;
    } else {
      assert (a + b)[1..] == a[1..] + b;
      RunConcat(Next(s, a[0]), a[1..], b);
    }
  }

  /** Stacks that exist or are being made. */
  function Alive(s: State): nat { |s.queue| + s.owed + s.checking + s.building }

  lemma {:induction false} DeadRun(s: State, schedule: seq<Choice>)
    requires Inv(s) && s.failed == s.size
    ensures Run(s, schedule).handed == s.handed && Run(s, schedule).failed == s.size
    decreases |schedule|
  {
    if schedule != [] {
      NextKeepsInv(s, schedule[0]);
      DeadRun(Next(s, schedule[0]), schedule[1..]);
    }
  }

  /** Every failed build removes a slot for good: whatever happens later, the pool stays
      below its size by at least the failures so far, and once as many builds have failed
      as it has slots no acquire ever succeeds again. */
  lemma FailedBuildsDrainThePool(built: seq<bool>, past: seq<Choice>, future: seq<Choice>)
    ensures var s := Run(Fresh(|built|, Failures(built)), past);
      var t := Run(s, future);
      && s.failed <= t.failed && Alive(t) == |built| - t.failed <= |built| - s.failed
      && (s.failed == |built| ==> t.handed == s.handed)
  {
    var s0 := Fresh(|built|, Failures(built));
    FreshInv(|built|, Failures(built));
    RunKeepsInv(s0, past);
    var s := Run(s0, past);
    RunKeepsInv(s, future);
    if s.failed == |built| {
      DeadRun(s, future);
    }
  }

  // ── Notifications ──────────────────────────────────────────────────

  lemma {:induction false} PermitsAreForNobody(s: State, schedule: seq<Choice>)
    requires s.permit ==> s.waiting == 0
    ensures Run(s, schedule).permit ==> Run(s, schedule).waiting == 0
    decreases |schedule|
  {
    if schedule != [] {
      PermitStep(s, schedule[0]);
      PermitsAreForNobody(Next(s, schedule[0]), schedule[1..]);
    }
  }

  lemma PermitStep(s: State, c: Choice)
    requires s.permit ==> s.waiting == 0
    ensures Next(s, c).permit ==> Next(s, c).waiting == 0
  {
  }

  /** After any run: a permit is stored only while nobody waits, and a notification sent while
      somebody waits wakes exactly one. */
  lemma NotificationWakesAWaiter(built: seq<bool>, schedule: seq<Choice>)
    ensures var s := Run(Fresh(|built|, Failures(built)), schedule);
      && (s.permit ==> s.waiting == 0)
      && (s.waiting > 0 && s.notifying > 0 ==>
            var t := Next(s, NotifyOne); t.waiting + 1 == s.waiting && t.woken == s.woken + 1 && !t.permit)
  {
    PermitsAreForNobody(Fresh(|built|, Failures(built)), schedule);
  }

  // ── Notified but still empty ───────────────────────────────────────

  /** A pool that never built anything notifies nobody. */
  predicate Silent(s: State) {
    s.failed == s.size && !s.permit && s.woken == 0 && s.notifying == 0 && s.emptyWakes == 0
  }

  lemma {:induction false} SilentRun(s: State, schedule: seq<Choice>)
    requires Inv(s) && Silent(s)
    ensures Silent(Run(s, schedule))
    decreases |schedule|
  {
    if schedule != [] {
      NextKeepsInv(s, schedule[0]);
      SilentRun(Next(s, schedule[0]), schedule[1..]);
    }
  }

  /** Acquires that empty the queue. */
  function Drain(n: nat): seq<Choice> { seq(n, _ => Acquire) }

  /** Nobody waits, was notified or is being served, and no notification is stored. */
  predicate Quiet(s: State) {
    !s.permit && s.registering == 0 && s.waiting == 0 && s.woken == 0 && s.checking == 0
    && s.building == 0 && s.notifying == 0 && s.emptyWakes == 0
  }

  lemma {:induction false} DrainEmpties(s: State)
    requires Quiet(s)
    ensures var t := Run(s, Drain(|s.queue|));
      t.queue == [] && t.owed == s.owed + |s.queue| && t.size == s.size && Quiet(t)
    decreases |s.queue|
  {
    if s.queue != [] {
      assert Drain(|s.queue|)[1..] == Drain(|s.queue| - 1);
      DrainEmpties(Next(s, Acquire));
    }
  }

  lemma RunFour(s: State, a: Choice, b: Choice, c: Choice, d: Choice)
    ensures Run(s, [a, b, c, d]) == Next(Next(Next(Next(s, a), b), c), d)
  {
    assert [a, b, c, d][1..] == [b, c, d] && [b, c, d][1..] == [c, d] && [c, d][1..] == [d] && [d][1..] == [];
    calc {
      Run(s, [a, b, c, d]);
      Run(Next(s, a), [b, c, d]);
      Run(Next(Next(s, a), b), [c, d]);
      Run(Next(Next(Next(s, a), b), c), [d]);
      Next(Next(Next(Next(s, a), b), c), d);
    }
  }

  /** One replenisher pushes and its notification, wanted by nobody, is stored. */
  const REFILL: seq<Choice> := [SpawnReplenisher, OverfillCheck, BuildDone(true), NotifyOne]
  /** The stack goes to a fast-path acquirer, and the next one finds only the notification. */
  const RACE: seq<Choice> := [Acquire, Acquire, Register, WakePop]

  lemma RefillStores(s: State)
    requires Quiet(s) && s.queue == [] && s.owed > 0 && s.size > 0
    ensures var t := Run(s, REFILL);
      |t.queue| == 1 && t.permit && t.registering == 0 && t.waiting == 0 && t.woken == 0 && t.emptyWakes == 0
  {
    RunFour(s, SpawnReplenisher, OverfillCheck, BuildDone(true), NotifyOne);
  }

  lemma RaceWakesToNothing(s: State)
    requires |s.queue| == 1 && s.permit && s.registering == 0 && s.woken == 0 && s.emptyWakes == 0
    ensures Run(s, RACE).emptyWakes == 1
  {
    RunFour(s, Acquire, Acquire, Register, WakePop);
  }

  /** From a quiet pool with a stack in it: drain it, refill one, race for it. */
  function EmptyWake(queued: nat): seq<Choice> { Drain(queued) + REFILL + RACE }

  lemma EmptyWakeHappens(s: State)
    requires Quiet(s) && s.queue != [] && s.size > 0
    ensures Run(s, EmptyWake(|s.queue|)).emptyWakes == 1
  {
    var drain := Drain(|s.queue|);
    DrainEmpties(s);
    RefillStores(Run(s, drain));
    RunConcat(s, drain, REFILL);
    RaceWakesToNothing(Run(s, drain + REFILL));
    RunConcat(s, drain + REFILL, RACE);
  }

  lemma NeverBuiltNeverWakes(size: nat, schedule: seq<Choice>)
    ensures Run(Fresh(size, size), schedule).emptyWakes == 0
  {
    FreshInv(size, size);
    SilentRun(Fresh(size, size), schedule);
  }

  /** An acquirer can be notified and still find the queue empty exactly when at least one
      pre-build succeeded, whatever the size of the pool. */
  lemma NotifiedButEmptyIff(built: seq<bool>)
    ensures (exists schedule :: Run(Fresh(|built|, Failures(built)), schedule).emptyWakes > 0)
      <==> Failures(built) < |built|
  {
    var s0 := Fresh(|built|, Failures(built));
    if Failures(built) < |built| {
      EmptyWakeHappens(s0);
      assert Run(s0, EmptyWake(|s0.queue|)).emptyWakes > 0;
    } else {
      forall schedule ensures Run(s0, schedule).emptyWakes == 0 {
        NeverBuiltNeverWakes(|built|, schedule);
      }
    }
  }

  /** The smallest pool that shows it. */
  lemma NotifiedButEmptyCanHappen()
    ensures Run(Fresh(1, 0), [Acquire] + REFILL + RACE).emptyWakes == 1
  {
    assert Drain(1) == [Acquire];
    EmptyWakeHappens(Fresh(1, 0));
  }

  // ── Waiting beside a stack ─────────────────────────────────────────

  /** An acquirer waits although a stack is there, and nothing under way will notify it. */
  predicate Stranded(s: State) {
    && s.waiting > 0 && s.queue != [] && s.woken == 0 && s.notifying == 0
    && s.owed == 0 && s.checking == 0 && s.building == 0
  }

  ghost predicate CanStrand(s: State) { exists schedule :: Stranded(Run(s, schedule)) }

  /** With a single stack left, whoever misses it has its notification coming. */
  predicate OneStack(s: State) {
    && s.size <= s.failed + 1
    && (s.permit ==> s.waiting == 0)
    && (s.queue != [] && (s.waiting > 0 || s.registering > 0) ==> s.permit || s.woken + s.notifying > 0)
  }

  lemma OneStackStep(s: State, c: Choice)
    requires Inv(s) && OneStack(s)
    ensures OneStack(Next(s, c))
  {
    NextKeepsInv(s, c);
  }

  lemma {:induction false} OneStackStrandsNobody(s: State, schedule: seq<Choice>)
    requires Inv(s) && OneStack(s)
    ensures !Stranded(Run(s, schedule))
    decreases |schedule|
  {
    if schedule != [] {
      NextKeepsInv(s, schedule[0]);
      OneStackStep(s, schedule[0]);
      OneStackStrandsNobody(Next(s, schedule[0]), schedule[1..]);
    }
  }

  /** Two find the queue empty, and a push notifies before either is registered to wait. */
  const MISS: seq<Choice> := [Acquire, Acquire] + REFILL
  /** A second notification merges into the stored one; one of the two takes it and its stack. */
  const MERGE: seq<Choice> := REFILL + [Register, Register, WakePop]

  lemma MissStores(s: State)
    requires Quiet(s) && s.queue == [] && s.owed >= 2 && s.size >= 2
    ensures var t := Run(s, MISS);
      && |t.queue| == 1 && t.permit && t.registering == 2 && t.waiting == 0 && t.woken == 0
      && t.notifying == 0 && t.checking == 0 && t.building == 0 && t.owed == s.owed - 1 && t.size == s.size
  {
    assert [Acquire, Acquire][1..] == [Acquire];
    assert Run(s, [Acquire, Acquire]) == Next(Next(s, Acquire), Acquire);
    RunConcat(s, [Acquire, Acquire], REFILL);
    RunFour(Run(s, [Acquire, Acquire]), SpawnReplenisher, OverfillCheck, BuildDone(true), NotifyOne);
  }

  lemma RunThree(s: State, a: Choice, b: Choice, c: Choice)
    ensures Run(s, [a, b, c]) == Next(Next(Next(s, a), b), c)
  {
    assert [a, b, c][1..] == [b, c] && [b, c][1..] == [c] && [c][1..] == [];
    assert Run(Next(s, a), [b, c]) == Run(Next(Next(s, a), b), [c]);
  }

  lemma MergeLeavesOne(s: State)
    requires |s.queue| == 1 && s.permit && s.registering == 2 && s.waiting == 0 && s.woken == 0
    requires s.notifying == 0 && s.checking == 0 && s.building == 0 && s.owed >= 1 && s.size >= 2
    ensures var t := Run(s, MERGE);
      && |t.queue| == 1 && t.waiting == 1 && t.woken == 0 && t.notifying == 0
      && t.checking == 0 && t.building == 0 && t.size == s.size && t.owed == s.owed
  {
    RunConcat(s, REFILL, [Register, Register, WakePop]);
    RunFour(s, SpawnReplenisher, OverfillCheck, BuildDone(true), NotifyOne);
    RunThree(Run(s, REFILL), Register, Register, WakePop);
  }

  const FAIL: seq<Choice> := [SpawnReplenisher, OverfillCheck, BuildDone(false)]

  function Fails(n: nat): seq<Choice> { if n == 0 then [] else FAIL + Fails(n - 1) }

  lemma {:induction false} FailsStrand(s: State)
    requires |s.queue| == 1 && s.waiting == 1 && s.woken == 0 && s.notifying == 0
    requires s.checking == 0 && s.building == 0 && s.size >= 2
    ensures Stranded(Run(s, Fails(s.owed)))
    decreases s.owed
  {
    if s.owed > 0 {
      RunThree(s, SpawnReplenisher, OverfillCheck, BuildDone(false));
      RunConcat(s, FAIL, Fails(s.owed - 1));
      FailsStrand(Run(s, FAIL));
    }
  }

  /** From a quiet pool with at least two stacks. */
  lemma StrandHappens(s: State)
    requires Quiet(s) && s.owed == 0 && |s.queue| >= 2 && s.size >= 2
    ensures CanStrand(s)
  {
    var n := |s.queue|;
    DrainEmpties(s);
    MissStores(Run(s, Drain(n)));
    RunConcat(s, Drain(n), MISS);
    MergeLeavesOne(Run(s, Drain(n) + MISS));
    RunConcat(s, Drain(n) + MISS, MERGE);
    FailsStrand(Run(s, Drain(n) + MISS + MERGE));
    RunConcat(s, Drain(n) + MISS + MERGE, Fails(n - 1));
    assert Stranded(Run(s, Drain(n) + MISS + MERGE + Fails(n - 1)));
  }

  /** An acquirer can be left waiting for its timeout beside a stack exactly when at least two
      pre-builds succeeded: two notifications with nobody registered count as one. */
  lemma WaitsBesideAStackIff(built: seq<bool>)
    ensures CanStrand(Fresh(|built|, Failures(built))) <==> |built| - Failures(built) >= 2
  {
    var s0 := Fresh(|built|, Failures(built));
    if |built| - Failures(built) >= 2 {
      StrandHappens(s0);
    } else {
      FreshInv(|built|, Failures(built));
      forall schedule ensures !Stranded(Run(s0, schedule)) {
        OneStackStrandsNobody(s0, schedule);
      }
    }
  }
}
