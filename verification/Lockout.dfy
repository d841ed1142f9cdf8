/** The login limiter: five failures in a minute lock an address out for five minutes. */
module Lockout {
  import opened Base

  const MAX_ATTEMPTS := 5
  const WINDOW_MS := 60000
  const BLOCK_MS := 300000

  datatype Entry = Entry(failures: nat, windowStart: int, blockedUntil: int)

  type Attempts = map<string, Entry>

  datatype Verdict = Verdict(allowed: bool, waitSec: int)

  function CeilSeconds(ms: int): int { (ms + 999) / 1000 }

  // ── One check ──────────────────────────────────────────────────────

  predicate Blocked(e: Entry, now: int) { e.blockedUntil > 0 && now < e.blockedUntil }

  /** The entry after an expired block and an expired window are forgotten. */
  function Renewed(e: Entry, now: int): Entry {
    if e.blockedUntil > 0 then Entry(0, now, 0)
    else if now - e.windowStart > WINDOW_MS then Entry(0, now, e.blockedUntil)
    else e
  }

  function CheckedEntry(e: Entry, now: int): Entry {
    if Blocked(e, now) then e
    else if Renewed(e, now).failures >= MAX_ATTEMPTS then Renewed(e, now).(blockedUntil := now + BLOCK_MS)
    else Renewed(e, now)
  }

  function CheckedVerdict(e: Entry, now: int): Verdict {
    if Blocked(e, now) then Verdict(false, CeilSeconds(e.blockedUntil - now))
    else if Renewed(e, now).failures >= MAX_ATTEMPTS then Verdict(false, CeilSeconds(BLOCK_MS))
    else Verdict(true, 0)
  }

  function EntryFor(a: Attempts, ip: string, now: int): Entry { if ip in a then a[ip] else Entry(0, now, 0) }

  function Checked(a: Attempts, ip: string, now: int): Attempts { a[ip := CheckedEntry(EntryFor(a, ip, now), now)] }

  function Failed(a: Attempts, ip: string): Attempts {
    if ip in a then a[ip := a[ip].(failures := a[ip].failures + 1)] else a
  }

  function Cleaned(a: Attempts, now: int): Attempts {
    map ip | ip in a && now - a[ip].windowStart <= BLOCK_MS * 2 :: a[ip]
  }

  class LoginGuard {
    var attempts: Attempts

    constructor ()
      ensures attempts == map[]
    {
      attempts := map[];
    }

    method CheckRateLimit(ip: string, now: int) returns (v: Verdict)
      modifies this
      ensures attempts == Checked(old(attempts), ip, now)
      ensures v == CheckedVerdict(EntryFor(old(attempts), ip, now), now)
    {
      var entry := if ip in attempts then attempts[ip] else Entry(0, now, 0);
      if entry.blockedUntil > 0 {
        if now < entry.blockedUntil {
          attempts := attempts[ip := entry];
          return Verdict(false, CeilSeconds(entry.blockedUntil - now));
        }
        entry := Entry(0, now, 0);
      }
      if now - entry.windowStart > WINDOW_MS {
        entry := entry.(failures := 0, windowStart := now);
      }
      if entry.failures >= MAX_ATTEMPTS {
        entry := entry.(blockedUntil := now + BLOCK_MS);
        attempts := attempts[ip := entry];
        return Verdict(false, CeilSeconds(BLOCK_MS));
      }
      attempts := attempts[ip := entry];
      return Verdict(true, 0);
    }

    method RecordFailure(ip: string)
      modifies this
      ensures attempts == Failed(old(attempts), ip)
    {
      if ip in attempts {
        attempts := attempts[ip := attempts[ip].(failures := attempts[ip].failures + 1)];
      }
    }

    method Cleanup(now: int)
      modifies this
      ensures attempts == Cleaned(old(attempts), now)
      ensures forall ip :: ip in attempts <==> ip in old(attempts) && now - old(attempts)[ip].windowStart <= 600000
    {
      var todo := attempts.Keys;
      ghost var before := attempts;
      while todo != {}
        invariant todo <= before.Keys
        invariant attempts == map ip | ip in before && (ip in todo || ip in Cleaned(before, now)) :: before[ip]
        decreases todo
      {
        var ip :| ip in todo;
        if now - attempts[ip].windowStart > BLOCK_MS * 2 {
          attempts := attempts - {ip};
        }
        todo := todo - {ip};
      }
    }
  }

  // ── Runs ───────────────────────────────────────────────────────────

  datatype Op = Check(now: int, ip: string) | Failure(now: int, ip: string) | Clean(now: int)

  function Apply(a: Attempts, op: Op): Attempts {
    match op
    case Check(now, ip) => Checked(a, ip, now)
    case Failure(_, ip) => Failed(a, ip)
    case Clean(now) => Cleaned(a, now)
  }

  function Run(a: Attempts, ops: seq<Op>): Attempts
    decreases |ops|
  {
    if ops == [] then a else Run(Apply(a, ops[0]), ops[1..])
  }

  /** Times do not run back and lie between `from` and `to`. */
  ghost predicate Between(ops: seq<Op>, from: int, to: int) {
    && (forall i :: 0 <= i < |ops| ==> from <= ops[i].now <= to)
    && (forall i, j :: 0 <= i < j < |ops| ==> ops[i].now <= ops[j].now)
  }

  /** A block ends within a window's and a block's length of the window's start. */
  predicate Sane(a: Attempts) {
    forall ip :: ip in a && a[ip].blockedUntil > 0 ==> a[ip].blockedUntil <= a[ip].windowStart + WINDOW_MS + BLOCK_MS
  }

  lemma ApplyKeepsSane(a: Attempts, op: Op)
    requires Sane(a)
    ensures Sane(Apply(a, op))
  {
  }

  lemma {:induction false} RunKeepsSane(a: Attempts, ops: seq<Op>)
    requires Sane(a)
    ensures Sane(Run(a, ops))
    decreases |ops|
  {
    if ops != [] {
      ApplyKeepsSane(a, ops[0]);
      RunKeepsSane(Apply(a, ops[0]), ops[1..]);
    }
  }

  predicate LockedOut(a: Attempts, ip: string, until: int) { ip in a && a[ip].blockedUntil == until > 0 }

  lemma LockSurvivesOp(a: Attempts, ip: string, until: int, op: Op)
    requires Sane(a) && LockedOut(a, ip, until) && op.now < until
    ensures LockedOut(Apply(a, op), ip, until)
  {
  }

  lemma {:induction false} LockSurvives(a: Attempts, ip: string, until: int, ops: seq<Op>, from: int)
    requires Sane(a) && LockedOut(a, ip, until) && Between(ops, from, until - 1)
    ensures LockedOut(Run(a, ops), ip, until)
    decreases |ops|
  {
    if ops != [] {
      ApplyKeepsSane(a, ops[0]);
      LockSurvivesOp(a, ip, until, ops[0]);
      LockSurvives(Apply(a, ops[0]), ip, until, ops[1..], from);
    }
  }

  /** A refusal at time t leaves the address blocked until some B, five minutes on
      unless it was blocked already; with any checks, failures and cleanups in between,
      a later check of that address is refused before B and allowed from B on. Cleanup
      never removes a blocked address. */
  lemma LockoutLastsExactly(past: seq<Op>, t: int, ip: string, meanwhile: seq<Op>, later: int)
    requires var a := Run(map[], past); t >= 0 && !CheckedVerdict(EntryFor(a, ip, t), t).allowed
    requires var a := Run(map[], past); Between(meanwhile, t, CheckedEntry(EntryFor(a, ip, t), t).blockedUntil - 1)
    ensures var a := Run(map[], past);
      var until := CheckedEntry(EntryFor(a, ip, t), t).blockedUntil;
      var b := Run(Checked(a, ip, t), meanwhile);
      && t < until
      && (Blocked(EntryFor(a, ip, t), t) || until == t + BLOCK_MS)
      && (CheckedVerdict(EntryFor(b, ip, later), later).allowed <==> later >= until)
      && (forall now :: now < until ==> ip in Cleaned(b, now))
  {
    var a := Run(map[], past);
    RunKeepsSane(map[], past);
    var until := CheckedEntry(EntryFor(a, ip, t), t).blockedUntil;
    ApplyKeepsSane(a, Check(t, ip));
    LockSurvives(Checked(a, ip, t), ip, until, meanwhile, t);
    RunKeepsSane(Checked(a, ip, t), meanwhile);
  }

  /** A refusal says how long to wait: the whole seconds, rounded up, to the end of the block. */
  lemma WaitIsUntilTheEnd(past: seq<Op>, t: int, ip: string)
    requires t >= 0 && !CheckedVerdict(EntryFor(Run(map[], past), ip, t), t).allowed
    ensures var e := EntryFor(Run(map[], past), ip, t);
      var left := CheckedEntry(e, t).blockedUntil - t;
      0 < left <= 1000 * CheckedVerdict(e, t).waitSec < left + 1000
  {
  }

  // ── The sweep ──────────────────────────────────────────────────────

  /** An entry that the next check replaces by a fresh one. */
  predicate Stale(e: Entry, now: int) { 0 <= e.blockedUntil <= now && now - e.windowStart > WINDOW_MS }

  /** Swept and unswept entries of an address are the same, or only a stale one was swept. */
  predicate SameFor(swept: Attempts, full: Attempts, ip: string, now: int) {
    if ip in swept then ip in full && swept[ip] == full[ip] else ip in full ==> Stale(full[ip], now)
  }

  ghost predicate Same(swept: Attempts, full: Attempts, now: int) {
    && Sane(swept) && (forall ip :: ip in swept ==> swept[ip].blockedUntil >= 0)
    && forall ip :: SameFor(swept, full, ip, now)
  }

  function Unswept(ops: seq<Op>): seq<Op> {
    if ops == [] then [] else (if ops[0].Clean? then [] else [ops[0]]) + Unswept(ops[1..])
  }

  lemma SweepKeepsSame(swept: Attempts, full: Attempts, now: int, later: int)
    requires Same(swept, full, now) && 0 <= now <= later
    ensures Same(Cleaned(swept, later), full, later)
  {
    forall ip ensures SameFor(Cleaned(swept, later), full, ip, later) {
      assert SameFor(swept, full, ip, now);
    }
  }

  lemma WaitingKeepsSame(swept: Attempts, full: Attempts, now: int, later: int)
    requires Same(swept, full, now) && 0 <= now <= later
    ensures Same(swept, full, later)
  {
    forall ip ensures SameFor(swept, full, ip, later) {
      assert SameFor(swept, full, ip, now);
    }
  }

  lemma StaleIsFresh(e: Entry, now: int)
    requires Stale(e, now) && now >= 0
    ensures CheckedEntry(e, now) == Entry(0, now, 0) == CheckedEntry(Entry(0, now, 0), now)
    ensures CheckedVerdict(e, now) == CheckedVerdict(Entry(0, now, 0), now)
  {
  }

  lemma OpKeepsSame(swept: Attempts, full: Attempts, now: int, op: Op)
    requires Same(swept, full, now) && 0 <= now <= op.now && !op.Clean?
    ensures Same(Apply(swept, op), Apply(full, op), op.now)
  {
    ApplyKeepsSane(swept, op);
    WaitingKeepsSame(swept, full, now, op.now);
    assert SameFor(swept, full, op.ip, op.now);
    if op.Check? && op.ip !in swept && op.ip in full {
      StaleIsFresh(full[op.ip], op.now);
    }
    forall ip ensures SameFor(Apply(swept, op), Apply(full, op), ip, op.now) {
      assert SameFor(swept, full, ip, op.now);
    }
  }

  lemma {:induction false} RunsStaySame(swept: Attempts, full: Attempts, now: int, ops: seq<Op>, end: int)
    requires Same(swept, full, now) && 0 <= now <= end && Between(ops, now, end)
    ensures Same(Run(swept, ops), Run(full, Unswept(ops)), end)
    decreases |ops|
  {
    if ops == [] {
      WaitingKeepsSame(swept, full, now, end);
    } else {
      var op := ops[0];
      if op.Clean? {
        SweepKeepsSame(swept, full, now, op.now);
        RunsStaySame(Cleaned(swept, op.now), full, op.now, ops[1..], end);
        assert Unswept(ops) == Unswept(ops[1..]);
      } else {
        OpKeepsSame(swept, full, now, op);
        RunsStaySame(Apply(swept, op), Apply(full, op), op.now, ops[1..], end);
        assert Unswept(ops)[1..] == Unswept(ops[1..]);
      }
    }
  }

  /** Sweeping changes no answer: over every run in clock order a check is answered as if
      nothing had ever been swept. */
  lemma SweepsAreInvisible(ops: seq<Op>, now: int, ip: string)
    requires now >= 0 && Between(ops, 0, now)
    ensures CheckedVerdict(EntryFor(Run(map[], ops), ip, now), now)
         == CheckedVerdict(EntryFor(Run(map[], Unswept(ops)), ip, now), now)
  {
    RunsStaySame(map[], map[], 0, ops, now);
    var full := Run(map[], Unswept(ops));
    assert SameFor(Run(map[], ops), full, ip, now);
    if ip in full && Stale(full[ip], now) {
      StaleIsFresh(full[ip], now);
    }
  }

  // ── How many guesses get through ───────────────────────────────────

  /** The failures recorded for an address, its entry's own included. */
  function Recorded(a: Attempts, ops: seq<Op>, ip: string): nat
    requires ip in a
  {
    if ops == [] then a[ip].failures
    else
      var n := |ops| - 1;
      Recorded(a, ops[..n], ip) + (if ops[n].Failure? && ops[n].ip == ip then 1 else 0)
  }

  predicate IsCheck(op: Op, ip: string) { op.Check? && op.ip == ip }

  function Checks(ops: seq<Op>, ip: string): nat {
    if ops == [] then 0
    else Checks(ops[..|ops| - 1], ip) + (if IsCheck(ops[|ops| - 1], ip) then 1 else 0)
  }

  predicate AllowedAt(a: Attempts, ip: string, now: int) { CheckedVerdict(EntryFor(a, ip, now), now).allowed }

  /** The checks of an address that were allowed. */
  function Admitted(a: Attempts, ops: seq<Op>, ip: string): nat {
    if ops == [] then 0
    else
      var n := |ops| - 1;
      Admitted(a, ops[..n], ip) + (if IsCheck(ops[n], ip) && AllowedAt(Run(a, ops[..n]), ip, ops[n].now) then 1 else 0)
  }

  /** The address is not blocked, and all of `ops` fall into the minute of its window. */
  ghost predicate InWindow(a: Attempts, ops: seq<Op>, ip: string) {
    && ip in a && a[ip].blockedUntil == 0 && a[ip].windowStart >= 0
    && Between(ops, a[ip].windowStart, a[ip].windowStart + WINDOW_MS)
  }

  lemma {:induction false} RunLast(a: Attempts, ops: seq<Op>)
    requires ops != []
    ensures Run(a, ops) == Apply(Run(a, ops[..|ops| - 1]), ops[|ops| - 1])
    decreases |ops|
  {
    var n := |ops| - 1;
    if n > 0 {
      assert ops[1..][..n - 1] == ops[..n][1..];
      RunLast(Apply(a, ops[0]), ops[1..]);
    }
  }

  /** The entry of an address during its window. */
  predicate Counting(e: Entry, start: int, failures: nat) {
    && e.windowStart == start && e.failures == failures && e.blockedUntil >= 0
    && (e.blockedUntil > 0 ==> failures >= MAX_ATTEMPTS && e.blockedUntil >= start + BLOCK_MS)
  }

  lemma CountingStep(a: Attempts, op: Op, ip: string, start: int, failures: nat)
    requires ip in a && Counting(a[ip], start, failures) && 0 <= start <= op.now <= start + WINDOW_MS
    ensures var b := Apply(a, op);
      ip in b && Counting(b[ip], start, if op.Failure? && op.ip == ip then failures + 1 else failures)
  {
  }

  lemma {:induction false} WindowCounts(a: Attempts, ops: seq<Op>, ip: string)
    requires InWindow(a, ops, ip)
    ensures ip in Run(a, ops) && Counting(Run(a, ops)[ip], a[ip].windowStart, Recorded(a, ops, ip))
  {
    if ops != [] {
      var n := |ops| - 1;
      WindowCounts(a, ops[..n], ip);
      RunLast(a, ops);
      CountingStep(Run(a, ops[..n]), ops[n], ip, a[ip].windowStart, Recorded(a, ops[..n], ip));
    }
  }

  /** During its window an address is allowed exactly while fewer than five failures have
      been recorded, however its checks and failures, other addresses and cleanups
      interleave. */
  lemma AllowedIffFewFailures(a: Attempts, ops: seq<Op>, ip: string, now: int)
    requires InWindow(a, ops, ip) && a[ip].windowStart <= now <= a[ip].windowStart + WINDOW_MS
    ensures AllowedAt(Run(a, ops), ip, now) <==> Recorded(a, ops, ip) < MAX_ATTEMPTS
  {
    WindowCounts(a, ops, ip);
  }

  /** Once the minute of its window is over an address is allowed exactly from the end of its
      block on, at once if it has none, however many failures were recorded; and then it has a
      clean slate. */
  lemma AfterTheMinute(a: Attempts, ops: seq<Op>, ip: string, now: int)
    requires InWindow(a, ops, ip) && now > a[ip].windowStart + WINDOW_MS
    ensures ip in Run(a, ops)
    ensures var b := Run(a, ops);
      && (AllowedAt(b, ip, now) <==> now >= b[ip].blockedUntil)
      && (AllowedAt(b, ip, now) ==> Checked(b, ip, now)[ip] == Entry(0, now, 0))
  {
    WindowCounts(a, ops, ip);
  }

  /** The same, of a check within the run. */
  lemma CheckAllowedIff(a: Attempts, ops: seq<Op>, ip: string, i: nat)
    requires InWindow(a, ops, ip) && i < |ops|
    ensures AllowedAt(Run(a, ops[..i]), ip, ops[i].now) <==> Recorded(a, ops[..i], ip) < MAX_ATTEMPTS
  {
    AllowedIffFewFailures(a, ops[..i], ip, ops[i].now);
  }

  /** The check that finds `n` others before it, if there is one, comes after the fifth
      recorded failure. */
  ghost predicate FiveRecordedBefore(a: Attempts, ops: seq<Op>, ip: string, n: nat)
    requires ip in a
  {
    forall i :: 0 <= i < |ops| && IsCheck(ops[i], ip) && Checks(ops[..i], ip) == n ==>
      Recorded(a, ops[..i], ip) >= MAX_ATTEMPTS
  }

  /** Until the fifth failure is recorded every check is allowed, and none after it. */
  lemma {:induction false} AdmittedUpTo(a: Attempts, ops: seq<Op>, ip: string, n: nat)
    requires InWindow(a, ops, ip)
    ensures Admitted(a, ops, ip) <= Checks(ops, ip)
    ensures Recorded(a, ops, ip) < MAX_ATTEMPTS ==> Admitted(a, ops, ip) == Checks(ops, ip)
    ensures Checks(ops, ip) > n && FiveRecordedBefore(a, ops, ip, n) ==> Recorded(a, ops, ip) >= MAX_ATTEMPTS
    ensures Admitted(a, ops, ip) <= n <==> FiveRecordedBefore(a, ops, ip, n)
  {
    if ops != [] {
      var m := |ops| - 1;
      var before := ops[..m];
      AdmittedUpTo(a, before, ip, n);
      CheckAllowedIff(a, ops, ip, m);
      LastCheck(a, ops, ip, n);
    }
  }

  lemma LastCheck(a: Attempts, ops: seq<Op>, ip: string, n: nat)
    requires ip in a && ops != []
    ensures var m := |ops| - 1;
      FiveRecordedBefore(a, ops, ip, n) <==>
        && FiveRecordedBefore(a, ops[..m], ip, n)
        && (IsCheck(ops[m], ip) && Checks(ops[..m], ip) == n ==> Recorded(a, ops[..m], ip) >= MAX_ATTEMPTS)
  {
    var m := |ops| - 1;
    forall i | 0 <= i < m ensures ops[..m][..i] == ops[..i] && ops[..m][i] == ops[i] {
    }
    if FiveRecordedBefore(a, ops, ip, n) {
      forall i | 0 <= i < m && IsCheck(ops[..m][i], ip) && Checks(ops[..m][..i], ip) == n
        ensures Recorded(a, ops[..m][..i], ip) >= MAX_ATTEMPTS
      {
        assert ops[..m][..i] == ops[..i];
      }
    }
  }

  /** Of any interleaving within the window at most `n` guesses get through if and only if
      no check after the n-th comes before the fifth failure is recorded. */
  lemma AtMostAdmittedIff(a: Attempts, ops: seq<Op>, ip: string, n: nat)
    requires InWindow(a, ops, ip)
    ensures Admitted(a, ops, ip) <= n <==> FiveRecordedBefore(a, ops, ip, n)
  {
    AdmittedUpTo(a, ops, ip, n);
  }

  /** At every check at most `c` admitted guesses still await their recorded failure. */
  ghost predicate AtMostPending(a: Attempts, ops: seq<Op>, ip: string, c: nat)
    requires ip in a
  {
    forall i :: 0 <= i < |ops| && IsCheck(ops[i], ip) ==> Admitted(a, ops[..i], ip) <= Recorded(a, ops[..i], ip) + c
  }

  /** With at most `c` guesses in flight at any check, at most 5 + c get through: five
      when each failure is recorded before the next check. */
  lemma {:induction false} PendingGuessesBound(a: Attempts, ops: seq<Op>, ip: string, c: nat)
    requires InWindow(a, ops, ip) && AtMostPending(a, ops, ip, c)
    ensures Admitted(a, ops, ip) <= MAX_ATTEMPTS + c
  {
    if ops != [] {
      var m := |ops| - 1;
      assert AtMostPending(a, ops[..m], ip, c) by {
        forall i | 0 <= i < m && IsCheck(ops[..m][i], ip)
          ensures Admitted(a, ops[..m][..i], ip) <= Recorded(a, ops[..m][..i], ip) + c
        {
          assert ops[..m][..i] == ops[..i];
        }
      }
      PendingGuessesBound(a, ops[..m], ip, c);
      CheckAllowedIff(a, ops, ip, m);
    }
  }

  /** `n` checks at one moment, none answered yet. */
  function Burst(t: int, ip: string, n: nat): seq<Op> { seq(n, _ => Check(t, ip)) }

  /** The bound is reached: however many checks overlap, all are allowed, and so is one more. */
  lemma {:induction false} BurstIsAdmitted(a: Attempts, t: int, ip: string, n: nat)
    requires ip in a && a[ip] == Entry(0, t, 0) && t >= 0
    ensures InWindow(a, Burst(t, ip, n), ip) && Recorded(a, Burst(t, ip, n), ip) == 0
    ensures Admitted(a, Burst(t, ip, n), ip) == n && AllowedAt(Run(a, Burst(t, ip, n)), ip, t)
  {
    var ops := Burst(t, ip, n);
    if n > 0 {
      assert ops[..n - 1] == Burst(t, ip, n - 1);
      BurstIsAdmitted(a, t, ip, n - 1);
    }
    AllowedIffFewFailures(a, ops, ip, t);
  }

  /** Six overlapping guesses from an unknown address all get through. */
  lemma SixOverlappingGuesses(t: int, ip: string)
    requires t >= 0
    ensures var a := Checked(map[], ip, t);
      && AllowedAt(map[], ip, t)
      && 1 + Admitted(a, Burst(t, ip, 5), ip) == 6 > MAX_ATTEMPTS
      && EntryFor(Run(a, Burst(t, ip, 5)), ip, t).failures == 0
      && AllowedAt(Run(a, Burst(t, ip, 5)), ip, t)
  {
    var a := Checked(map[], ip, t);
    BurstIsAdmitted(a, t, ip, 5);
    WindowCounts(a, Burst(t, ip, 5), ip);
  }

  /** c + 1 overlapping checks, then `k` times a recorded failure and one more check. */
  function Trickle(t: int, ip: string, c: nat, k: nat): seq<Op> {
    if k == 0 then Burst(t, ip, c + 1) else Trickle(t, ip, c, k - 1) + [Failure(t, ip), Check(t, ip)]
  }

  lemma {:induction false} BurstPending(a: Attempts, t: int, ip: string, c: nat, n: nat)
    requires ip in a && a[ip] == Entry(0, t, 0) && t >= 0 && n <= c + 1
    ensures AtMostPending(a, Burst(t, ip, n), ip, c) && Checks(Burst(t, ip, n), ip) == n
  {
    var ops := Burst(t, ip, n);
    if n > 0 {
      assert ops[..n - 1] == Burst(t, ip, n - 1);
      BurstPending(a, t, ip, c, n - 1);
    }
    forall i | 0 <= i < |ops| && IsCheck(ops[i], ip) ensures Admitted(a, ops[..i], ip) <= Recorded(a, ops[..i], ip) + c {
      assert ops[..i] == Burst(t, ip, i);
      BurstIsAdmitted(a, t, ip, i);
    }
  }

  lemma PendingAppend(a: Attempts, ops: seq<Op>, op: Op, ip: string, c: nat)
    requires ip in a && AtMostPending(a, ops, ip, c)
    requires IsCheck(op, ip) ==> Admitted(a, ops, ip) <= Recorded(a, ops, ip) + c
    ensures AtMostPending(a, ops + [op], ip, c)
  {
    var more := ops + [op];
    forall i | 0 <= i < |more| && IsCheck(more[i], ip) ensures Admitted(a, more[..i], ip) <= Recorded(a, more[..i], ip) + c {
      assert more[..i] == ops[..i];
      if i == |ops| {
        assert ops[..i] == ops;
      }
    }
  }

  ghost predicate AllAt(ops: seq<Op>, t: int) { forall i :: 0 <= i < |ops| ==> ops[i].now == t }

  lemma AppendCounts(a: Attempts, ops: seq<Op>, op: Op, ip: string)
    requires ip in a
    ensures Recorded(a, ops + [op], ip) == Recorded(a, ops, ip) + (if op.Failure? && op.ip == ip then 1 else 0)
    ensures Checks(ops + [op], ip) == Checks(ops, ip) + (if IsCheck(op, ip) then 1 else 0)
  {
    assert (ops + [op])[..|ops|] == ops;
  }

  ghost predicate Trickled(a: Attempts, ops: seq<Op>, t: int, ip: string, c: nat, k: nat)
    requires ip in a
  {
    AllAt(ops, t) && AtMostPending(a, ops, ip, c) && Recorded(a, ops, ip) == k && Checks(ops, ip) == c + 1 + k
  }

  /** One more recorded failure, before the fifth. */
  lemma TrickleFailure(a: Attempts, ops: seq<Op>, t: int, ip: string, c: nat, k: nat)
    requires ip in a && a[ip] == Entry(0, t, 0) && t >= 0 && Trickled(a, ops, t, ip, c, k) && k + 1 < MAX_ATTEMPTS
    ensures var mid := ops + [Failure(t, ip)];
      && AllAt(mid, t) && AtMostPending(a, mid, ip, c)
      && Recorded(a, mid, ip) == k + 1 && Checks(mid, ip) == Admitted(a, mid, ip) == c + 1 + k
  {
    var mid := ops + [Failure(t, ip)];
    AppendCounts(a, ops, Failure(t, ip), ip);
    PendingAppend(a, ops, Failure(t, ip), ip, c);
    assert InWindow(a, mid, ip);
    AdmittedUpTo(a, mid, ip, 0);
  }

  lemma TrickleStep(a: Attempts, ops: seq<Op>, t: int, ip: string, c: nat, k: nat)
    requires ip in a && a[ip] == Entry(0, t, 0) && t >= 0 && Trickled(a, ops, t, ip, c, k) && k + 1 < MAX_ATTEMPTS
    ensures Trickled(a, ops + [Failure(t, ip)] + [Check(t, ip)], t, ip, c, k + 1)
  {
    var mid := ops + [Failure(t, ip)];
    TrickleFailure(a, ops, t, ip, c, k);
    AppendCounts(a, mid, Check(t, ip), ip);
    PendingAppend(a, mid, Check(t, ip), ip, c);
  }

  lemma {:induction false} TrickleAdmits(a: Attempts, t: int, ip: string, c: nat, k: nat)
    requires ip in a && a[ip] == Entry(0, t, 0) && t >= 0 && k < MAX_ATTEMPTS
    ensures Trickled(a, Trickle(t, ip, c, k), t, ip, c, k)
  {
    if k == 0 {
      BurstIsAdmitted(a, t, ip, c + 1);
      BurstPending(a, t, ip, c, c + 1);
    } else {
      var before := Trickle(t, ip, c, k - 1);
      TrickleAdmits(a, t, ip, c, k - 1);
      TrickleStep(a, before, t, ip, c, k - 1);
      assert Trickle(t, ip, c, k) == before + [Failure(t, ip)] + [Check(t, ip)];
    }
  }

  /** How many guesses the limiter lets through in a window, if at most `c` are in flight at
      any check: 5 + c, and no smaller bound holds. So five is the bound exactly for one
      guess at a time. */
  lemma GuessBoundIff(a: Attempts, t: int, ip: string, c: nat, n: nat)
    requires ip in a && a[ip] == Entry(0, t, 0) && t >= 0
    ensures (forall ops :: InWindow(a, ops, ip) && AtMostPending(a, ops, ip, c) ==> Admitted(a, ops, ip) <= n)
      <==> n >= MAX_ATTEMPTS + c
  {
    forall ops | InWindow(a, ops, ip) && AtMostPending(a, ops, ip, c)
      ensures Admitted(a, ops, ip) <= MAX_ATTEMPTS + c
    {
      PendingGuessesBound(a, ops, ip, c);
    }
    var worst := Trickle(t, ip, c, MAX_ATTEMPTS - 1);
    TrickleAdmits(a, t, ip, c, MAX_ATTEMPTS - 1);
    AdmittedUpTo(a, worst, ip, 0);
    assert InWindow(a, worst, ip) && Admitted(a, worst, ip) == MAX_ATTEMPTS + c;
  }

  // ── One guess at a time ────────────────────────────────────────────

  /** Wrong passwords one after another: each allowed check records its failure before
      the next check. */
  function Guess(a: Attempts, ip: string, times: seq<int>): Attempts
    decreases |times|
  {
    if times == [] then a
    else
      var before, now := Guess(a, ip, times[..|times| - 1]), times[|times| - 1];
      var after := Checked(before, ip, now);
      if AllowedAt(before, ip, now) then Failed(after, ip) else after
  }

  /** From a clean slate, of any number of guesses one at a time within a minute of the
      first exactly the first five are let through; the sixth blocks the address for five
      minutes. */
  lemma {:induction false} FiveGuessesThenBlocked(ip: string, times: seq<int>)
    requires times != [] && times[0] >= 0
    requires forall i, j :: 0 <= i <= j < |times| ==> times[i] <= times[j] <= times[0] + WINDOW_MS
    ensures var n, e := |times|, EntryFor(Guess(map[], ip, times), ip, 0);
      && ip in Guess(map[], ip, times)
      && e.failures == Min(n, MAX_ATTEMPTS) && e.windowStart == times[0]
      && e.blockedUntil == (if n > MAX_ATTEMPTS then times[MAX_ATTEMPTS] + BLOCK_MS else 0)
  {
    var n := |times| - 1;
    if n == 0 {
      assert Guess(map[], ip, times[..0]) == map[];
    } else {
      var earlier := times[..n];
      assert forall i :: 0 <= i < n ==> earlier[i] == times[i];
      FiveGuessesThenBlocked(ip, earlier);
    }
  }
}
