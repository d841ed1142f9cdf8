/**
 The sliding-window request limiter and its periodic cleanup, against a reference that
 remembers every admission for ever. Times are milliseconds.
 */
module RateLimit {
  import opened Base

  datatype Entry = Entry(timestamps: seq<int>, retention: int)

  type Store = map<string, Entry>

  datatype Decision = Decision(allowed: bool, retryAfter: int, remaining: int, reset: int)

  /** The timestamps later than `cutoff`, in order. */
  function After(ts: seq<int>, cutoff: int): seq<int> {
    if ts == [] then []
    else After(ts[..|ts| - 1], cutoff) + (if ts[|ts| - 1] > cutoff then [ts[|ts| - 1]] else [])
  }

  function CeilSeconds(ms: int): int { (ms + 999) / 1000 }

  /** The answer to a check, given the timestamps active in its window. */
  function Answer(active: seq<int>, now: int, limit: int, window: int): Decision {
    var allowed := |active| < limit;
    var oldest := if active != [] then active[0] else now;
    Decision(allowed, Max(1, CeilSeconds(oldest + window - now)),
             Max(0, limit - |active| - (if allowed then 1 else 0)), oldest + window)
  }

  /** The entry a check works on, before it is pruned. */
  function EntryFor(store: Store, key: string, window: int): Entry {
    if key in store then Entry(store[key].timestamps, Max(store[key].retention, window)) else Entry([], window)
  }

  function Active(e: Entry, now: int, window: int): seq<int> {
    After(After(e.timestamps, now - e.retention), now - window)
  }

  function Updated(e: Entry, now: int, limit: int, window: int): Entry {
    var kept := After(e.timestamps, now - e.retention);
    Entry(if |Active(e, now, window)| < limit then kept + [now] else kept, e.retention)
  }

  function CheckAnswer(store: Store, now: int, key: string, limit: int, window: int): Decision {
    Answer(Active(EntryFor(store, key, window), now, window), now, limit, window)
  }

  function CheckStore(store: Store, now: int, key: string, limit: int, window: int): Store {
    store[key := Updated(EntryFor(store, key, window), now, limit, window)]
  }

  function CleanedStore(store: Store, now: int): Store {
    map key | key in store && After(store[key].timestamps, now - store[key].retention) != []
      :: store[key].(timestamps := After(store[key].timestamps, now - store[key].retention))
  }

  // ── The limiter ────────────────────────────────────────────────────

  class RateLimiter {
    var store: Store

    constructor ()
      ensures store == map[]
    {
      store := map[];
    }

    method Filter(ts: seq<int>, cutoff: int) returns (kept: seq<int>)
      ensures kept == After(ts, cutoff)
    {
      kept := [];
      var i := 0;
      while i < |ts|
        invariant 0 <= i <= |ts|
        invariant kept == After(ts[..i], cutoff)
      {
        assert ts[..i + 1][..i] == ts[..i];
        if ts[i] > cutoff {
          kept := kept + [ts[i]];
        }
        i := i + 1;
      }
      assert ts[..i] == ts;
    }

    method Decide(active: seq<int>, now: int, limit: int, window: int) returns (d: Decision)
      ensures d == Answer(active, now, limit, window)
    {
      var count := |active|;
      var allowed := count < limit;
      // A first admission is its own oldest timestamp.
      var oldest := if count > 0 then active[0] else now;
      var reset := oldest + window;
      d := Decision(allowed, Max(1, CeilSeconds(reset - now)),
                    Max(0, limit - count - (if allowed then 1 else 0)), reset);
    }

    method CheckRateLimit(now: int, key: string, limit: int, window: int) returns (d: Decision)
      modifies this
      ensures store == CheckStore(old(store), now, key, limit, window)
      ensures d == CheckAnswer(old(store), now, key, limit, window)
    {
      var entry := EntryFor(store, key, window);
      var kept := Filter(entry.timestamps, now - entry.retention);
      var active := Filter(kept, now - window);
      assert active == Active(entry, now, window);
      d := Decide(active, now, limit, window);
      if d.allowed {
        kept := kept + [now];
      }
      store := store[key := Entry(kept, entry.retention)];
    }

    method Cleanup(now: int)
      modifies this
      ensures store == CleanedStore(old(store), now)
    {
      var todo := store.Keys;
      ghost var before, cleaned := store, CleanedStore(store, now);
      while todo != {}
        invariant todo <= before.Keys && todo <= store.Keys
        invariant forall k :: k in todo ==> store[k] == before[k]
        invariant forall k :: k !in todo ==> (k in store <==> k in cleaned)
        invariant forall k :: k !in todo && k in store ==> store[k] == cleaned[k]
        decreases todo
      {
        var key :| key in todo;
        var kept := Filter(store[key].timestamps, now - store[key].retention);
        assert key in cleaned <==> kept != [];
        assert kept != [] ==> cleaned[key] == before[key].(timestamps := kept);
        if kept == [] {
          store := store - {key};
        } else {
          store := store[key := store[key].(timestamps := kept)];
        }
        todo := todo - {key};
      }
      assert store == cleaned;
    }
  }

  // ── Runs ───────────────────────────────────────────────────────────

  datatype Op = Check(now: int, key: string, limit: int, window: int) | Clean(now: int)

  function Applied(store: Store, op: Op): Store {
    match op
    case Check(now, key, limit, window) => CheckStore(store, now, key, limit, window)
    case Clean(now) => CleanedStore(store, now)
  }

  function StoreAfter(ops: seq<Op>): Store {
    if ops == [] then map[] else Applied(StoreAfter(ops[..|ops| - 1]), ops[|ops| - 1])
  }

  /** The reference limiter's log after one more check. */
  function Logged(log: seq<int>, now: int, limit: int, window: int): seq<int> {
    if |After(log, now - window)| < limit then log + [now] else log
  }

  function LoggedOp(log: seq<int>, op: Op, key: string): seq<int> {
    if op.Check? && op.key == key then Logged(log, op.now, op.limit, op.window) else log
  }

  /** The reference: all admissions of one key, never pruned. */
  function LogAfter(ops: seq<Op>, key: string): seq<int> {
    if ops == [] then [] else LoggedOp(LogAfter(ops[..|ops| - 1], key), ops[|ops| - 1], key)
  }

  ghost predicate AllBefore(ops: seq<Op>, now: int) { forall i :: 0 <= i < |ops| ==> ops[i].now <= now }

  ghost predicate Monotone(ops: seq<Op>) {
    forall i, j :: 0 <= i < j < |ops| ==> ops[i].now <= ops[j].now
  }

  /** Every check of this key uses one window. */
  ghost predicate OneWindow(ops: seq<Op>, key: string, window: int) {
    forall i :: 0 <= i < |ops| && ops[i].Check? && ops[i].key == key ==> ops[i].window == window
  }

  /** No check of this key widens the window, a next one of length `window` included. */
  ghost predicate NeverGrows(ops: seq<Op>, key: string, window: int) {
    && (forall i :: 0 <= i < |ops| && ops[i].Check? && ops[i].key == key ==> ops[i].window >= window)
    && (forall i, j :: 0 <= i < j < |ops| && ops[i].Check? && ops[i].key == key && ops[j].Check? && ops[j].key == key ==>
          ops[i].window >= ops[j].window)
  }

  ghost predicate OneLimit(ops: seq<Op>, key: string, limit: int) {
    forall i :: 0 <= i < |ops| && ops[i].Check? && ops[i].key == key ==> ops[i].limit == limit
  }

  lemma {:induction false} AfterAfter(ts: seq<int>, c: int, d: int)
    requires c <= d
    ensures After(After(ts, c), d) == After(ts, d)
  {
    if ts != [] {
      var n := |ts| - 1;
      AfterAfter(ts[..n], c, d);
      var a := After(ts[..n], c);
      if ts[n] > c {
        assert (a + [ts[n]])[..|a|] == a;
      } else {
        assert a + [] == a;
      }
    }
  }

  lemma {:induction false} AfterCounts(ts: seq<int>, cutoff: int, t: int)
    ensures multiset(After(ts, cutoff))[t] == if t > cutoff then multiset(ts)[t] else 0
  {
    if ts != [] {
      var n := |ts| - 1;
      AfterCounts(ts[..n], cutoff, t);
      assert ts == ts[..n] + [ts[n]];
    }
  }

  lemma AfterIsEmpty(ts: seq<int>, cutoff: int)
    ensures After(ts, cutoff) == [] <==> forall t :: t in ts ==> t <= cutoff
  {
    var live := After(ts, cutoff);
    forall t ensures t in live <==> t in ts && t > cutoff {
      AfterCounts(ts, cutoff, t);
      assert t in live <==> multiset(live)[t] > 0;
    }
    assert live != [] ==> live[0] in live;
  }

  /** A cleanup keeps of every key the timestamps within its retention, as often as they are
      there, and drops the key if and only if there are none. */
  lemma CleanupKeepsTheLive(store: Store, now: int, key: string, t: int)
    requires key in store
    ensures var e := store[key];
      && multiset(Kept(CleanedStore(store, now), key))[t]
         == (if now - t < e.retention then multiset(e.timestamps)[t] else 0)
      && (key !in CleanedStore(store, now) <==> forall u :: u in e.timestamps ==> now - u >= e.retention)
  {
    var ts, cutoff := store[key].timestamps, now - store[key].retention;
    AfterCounts(ts, cutoff, t);
    AfterIsEmpty(ts, cutoff);
    if key !in CleanedStore(store, now) {
      assert After(ts, cutoff) == [];
    }
  }

  lemma AfterAppend(ts: seq<int>, x: int, c: int)
    ensures After(ts + [x], c) == After(ts, c) + (if x > c then [x] else [])
  {
    assert (ts + [x])[..|ts|] == ts;
  }

  function Kept(store: Store, key: string): seq<int> { if key in store then store[key].timestamps else [] }

  /** From the cutoff on, pruned timestamps answer like the full log. */
  ghost predicate SameAfter(ts: seq<int>, log: seq<int>, cutoff: int) { After(ts, cutoff) == After(log, cutoff) }

  lemma SameLater(ts: seq<int>, log: seq<int>, c: int, d: int)
    requires SameAfter(ts, log, c) && c <= d
    ensures SameAfter(ts, log, d)
  {
    AfterAfter(ts, c, d);
    AfterAfter(log, c, d);
  }

  /** Pruning at an earlier cutoff does not show. */
  lemma PruningKeeps(ts: seq<int>, log: seq<int>, c: int, d: int)
    requires SameAfter(ts, log, d) && c <= d
    ensures SameAfter(After(ts, c), log, d)
  {
    AfterAfter(ts, c, d);
  }

  lemma BothAdmit(ts: seq<int>, log: seq<int>, c: int, now: int)
    requires SameAfter(ts, log, c)
    ensures SameAfter(ts + [now], log + [now], c)
  {
    AfterAppend(log, now, c);
    AfterAppend(ts, now, c);
  }

  ghost predicate Matches(store: Store, log: seq<int>, key: string, window: int, last: int) {
    && (key in store ==> store[key].retention >= window)
    && SameAfter(Kept(store, key), log, last - window)
  }

  /** What a check with a window within the retention sees and leaves. */
  lemma EntryMatches(ts: seq<int>, retention: int, log: seq<int>, window: int, now: int, limit: int)
    requires SameAfter(ts, log, now - window) && window <= retention
    ensures Active(Entry(ts, retention), now, window) == After(log, now - window)
    ensures SameAfter(Updated(Entry(ts, retention), now, limit, window).timestamps, Logged(log, now, limit, window), now - window)
  {
    var kept := After(ts, now - retention);
    PruningKeeps(ts, log, now - retention, now - window);
    assert Active(Entry(ts, retention), now, window) == After(kept, now - window);
    BothAdmit(kept, log, now - window, now);
  }

  lemma CheckMatches(store: Store, log: seq<int>, key: string, window: int, now: int, limit: int)
    requires Matches(store, log, key, window, now)
    ensures Active(EntryFor(store, key, window), now, window) == After(log, now - window)
    ensures Matches(CheckStore(store, now, key, limit, window), Logged(log, now, limit, window), key, window, now)
  {
    var e := EntryFor(store, key, window);
    assert e == Entry(Kept(store, key), e.retention) && e.retention >= window;
    EntryMatches(e.timestamps, e.retention, log, window, now, limit);
  }

  lemma CleanMatches(store: Store, log: seq<int>, key: string, window: int, now: int)
    requires Matches(store, log, key, window, now)
    ensures Matches(CleanedStore(store, now), log, key, window, now)
  {
    var after := CleanedStore(store, now);
    if key in store {
      PruningKeeps(store[key].timestamps, log, now - store[key].retention, now - window);
      assert Kept(after, key) == After(store[key].timestamps, now - store[key].retention);
    } else {
      assert key !in after;
    }
  }

  lemma OpMatches(store: Store, log: seq<int>, op: Op, key: string, window: int)
    requires Matches(store, log, key, window, op.now)
    requires op.Check? && op.key == key ==> op.window == window
    ensures Matches(Applied(store, op), LoggedOp(log, op, key), key, window, op.now)
  {
    match op
    case Check(t, k, limit, w) =>
      if k == key {
        CheckMatches(store, log, key, window, t, limit);
      }
    case Clean(t) => CleanMatches(store, log, key, window, t);
  }

  lemma MatchesLater(store: Store, log: seq<int>, key: string, window: int, earlier: int, narrower: int, now: int)
    requires Matches(store, log, key, window, earlier) && earlier <= now && narrower <= window
    ensures Matches(store, log, key, narrower, now)
  {
    SameLater(Kept(store, key), log, earlier - window, now - narrower);
  }

  lemma {:induction false} RunMatches(ops: seq<Op>, key: string, window: int, now: int)
    requires Monotone(ops) && NeverGrows(ops, key, window) && AllBefore(ops, now)
    ensures Matches(StoreAfter(ops), LogAfter(ops, key), key, window, now)
  {
    if ops != [] {
      var n := |ops| - 1;
      var w := if ops[n].Check? && ops[n].key == key then ops[n].window else window;
      RunMatches(ops[..n], key, w, ops[n].now);
      OpMatches(StoreAfter(ops[..n]), LogAfter(ops[..n], key), ops[n], key, w);
      MatchesLater(StoreAfter(ops), LogAfter(ops, key), key, w, ops[n].now, window, now);
    }
  }

  /** For a key whose windows never grow, and a clock that never runs back, every answer,
      its retry-after, remaining and reset included, is that of the never-pruned log,
      whatever cleanups and other keys' checks came between. */
  lemma AnswersMatchTheFullLog(ops: seq<Op>, now: int, key: string, limit: int, window: int)
    requires Monotone(ops) && NeverGrows(ops, key, window) && AllBefore(ops, now)
    ensures CheckAnswer(StoreAfter(ops), now, key, limit, window)
            == Answer(After(LogAfter(ops, key), now - window), now, limit, window)
  {
    RunMatches(ops, key, window, now);
    CheckMatches(StoreAfter(ops), LogAfter(ops, key), key, window, now, limit);
  }

  // ── At most N per window ───────────────────────────────────────────

  /** Admissions in the half-open interval from `lo` to `hi`. */
  function CountIn(log: seq<int>, lo: int, hi: int): nat {
    if log == [] then 0
    else CountIn(log[..|log| - 1], lo, hi) + (if lo <= log[|log| - 1] < hi then 1 else 0)
  }

  lemma {:induction false} CountWithinAfter(log: seq<int>, lo: int, hi: int, cutoff: int)
    requires cutoff < lo
    ensures CountIn(log, lo, hi) <= |After(log, cutoff)|
  {
    if log != [] {
      CountWithinAfter(log[..|log| - 1], lo, hi, cutoff);
    }
  }

  lemma CountAppend(log: seq<int>, x: int, lo: int, hi: int)
    ensures CountIn(log + [x], lo, hi) == CountIn(log, lo, hi) + (if lo <= x < hi then 1 else 0)
  {
    assert (log + [x])[..|log|] == log;
  }

  lemma AdmissionFits(log: seq<int>, now: int, limit: nat, window: int, lo: int)
    requires window > 0 && CountIn(log, lo, lo + window) <= limit
    ensures CountIn(Logged(log, now, limit, window), lo, lo + window) <= limit
  {
    CountAppend(log, now, lo, lo + window);
    if lo <= now < lo + window {
      CountWithinAfter(log, lo, lo + window, now - window);
    }
  }

  /** No half-open interval of one window's length holds more admissions than the limit. */
  lemma {:induction false} AtMostLimitPerWindow(ops: seq<Op>, key: string, limit: nat, window: int, lo: int)
    requires window > 0 && OneWindow(ops, key, window) && OneLimit(ops, key, limit)
    ensures CountIn(LogAfter(ops, key), lo, lo + window) <= limit
  {
    if ops != [] {
      var n := |ops| - 1;
      AtMostLimitPerWindow(ops[..n], key, limit, window, lo);
      AdmissionFits(LogAfter(ops[..n], key), ops[n].now, limit, window, lo);
    }
  }

  // ── Retry-after is enough ──────────────────────────────────────────

  lemma {:induction false} LogIsPast(ops: seq<Op>, key: string, now: int)
    requires AllBefore(ops, now)
    ensures forall t :: t in LogAfter(ops, key) ==> t <= now
  {
    if ops != [] {
      LogIsPast(ops[..|ops| - 1], key, now);
    }
  }

  lemma {:induction false} AllRecentCounted(log: seq<int>, cutoff: int, now: int)
    requires forall t :: t in log ==> t <= now
    ensures CountIn(log, cutoff + 1, now + 1) == |After(log, cutoff)|
  {
    if log != [] {
      var n := |log| - 1;
      assert log[n] in log && forall t :: t in log[..n] ==> t in log;
      AllRecentCounted(log[..n], cutoff, now);
    }
  }

  lemma {:induction false} FewerAfter(log: seq<int>, c: int, d: int)
    requires c <= d
    ensures |After(log, d)| <= |After(log, c)|
    ensures After(log, c) != [] && After(log, c)[0] <= d ==> |After(log, d)| < |After(log, c)|
  {
    if log != [] {
      FewerAfter(log[..|log| - 1], c, d);
    }
  }

  /** A full window loses its oldest admission once the clock has passed its reset. */
  lemma OldestExpires(log: seq<int>, now: int, later: int, limit: nat, window: int)
    requires limit >= 1 && |After(log, now - window)| == limit
    requires later >= now + 1000 * Answer(After(log, now - window), now, limit, window).retryAfter
    ensures |After(log, later - window)| < limit
  {
    FewerAfter(log, now - window, later - window);
  }

  lemma PrefixOps(ops: seq<Op>, k: nat, key: string, limit: nat, window: int)
    requires k < |ops| && Monotone(ops) && OneWindow(ops, key, window) && OneLimit(ops, key, limit)
    ensures Monotone(ops[..k]) && OneWindow(ops[..k], key, window) && OneLimit(ops[..k], key, limit)
    ensures AllBefore(ops[..k], ops[k].now)
  {
  }

  lemma FullLog(log: seq<int>, now: int, limit: nat, window: int)
    requires forall t :: t in log ==> t <= now
    requires CountIn(log, now - window + 1, now + 1) <= limit
    requires !Answer(After(log, now - window), now, limit, window).allowed
    ensures |After(log, now - window)| == limit
  {
    AllRecentCounted(log, now - window, now);
  }

  lemma PastIsBounded(past: seq<Op>, now: int, key: string, limit: nat, window: int, log: seq<int>)
    requires window > 0 && OneWindow(past, key, window) && OneLimit(past, key, limit) && AllBefore(past, now)
    requires log == LogAfter(past, key)
    ensures CountIn(log, now - window + 1, now + 1) <= limit && forall t :: t in log ==> t <= now
  {
    AtMostLimitPerWindow(past, key, limit, window, now - window + 1);
    LogIsPast(past, key, now);
  }

  lemma AnswersMatchThisLog(past: seq<Op>, now: int, key: string, limit: int, window: int, log: seq<int>)
    requires Monotone(past) && OneWindow(past, key, window) && AllBefore(past, now) && log == LogAfter(past, key)
    ensures CheckAnswer(StoreAfter(past), now, key, limit, window) == Answer(After(log, now - window), now, limit, window)
  {
    AnswersMatchTheFullLog(past, now, key, limit, window);
  }

  /** A refusal means the reference window holds exactly `limit` admissions. */
  lemma RefusedIsFull(past: seq<Op>, now: int, key: string, limit: nat, window: int)
    requires window > 0 && Monotone(past) && OneWindow(past, key, window) && OneLimit(past, key, limit)
    requires AllBefore(past, now) && !CheckAnswer(StoreAfter(past), now, key, limit, window).allowed
    ensures |After(LogAfter(past, key), now - window)| == limit
    ensures CheckAnswer(StoreAfter(past), now, key, limit, window)
            == Answer(After(LogAfter(past, key), now - window), now, limit, window)
  {
    var log := LogAfter(past, key);
    AnswersMatchThisLog(past, now, key, limit, window, log);
    PastIsBounded(past, now, key, limit, window, log);
    FullLog(log, now, limit, window);
  }

  // ── What the answers say ───────────────────────────────────────────

  /** The log's admissions in the window that ends with `now`. */
  function InWindow(log: seq<int>, now: int, window: int): nat { CountIn(log, now - window + 1, now + 1) }

  lemma WindowCount(ops: seq<Op>, now: int, key: string, window: int, log: seq<int>)
    requires AllBefore(ops, now) && log == LogAfter(ops, key)
    ensures |After(log, now - window)| == InWindow(log, now, window)
  {
    LogIsPast(ops, key, now);
    AllRecentCounted(log, now - window, now);
  }

  lemma ThisAnswer(ops: seq<Op>, now: int, key: string, limit: int, window: int, log: seq<int>)
    requires Monotone(ops) && NeverGrows(ops, key, window) && AllBefore(ops, now) && log == LogAfter(ops, key)
    ensures CheckAnswer(StoreAfter(ops), now, key, limit, window) == Answer(After(log, now - window), now, limit, window)
  {
    AnswersMatchTheFullLog(ops, now, key, limit, window);
  }

  /** A check is allowed if and only if the window ending with it holds fewer admissions than
      the limit, and it reports how many requests that leaves. */
  lemma AllowedIff(ops: seq<Op>, now: int, key: string, limit: int, window: int)
    requires Monotone(ops) && NeverGrows(ops, key, window) && AllBefore(ops, now)
    ensures var d, n := CheckAnswer(StoreAfter(ops), now, key, limit, window), InWindow(LogAfter(ops, key), now, window);
      && (d.allowed <==> n < limit)
      && d.remaining == (if n < limit then limit - n - 1 else 0)
  {
    var log := LogAfter(ops, key);
    ThisAnswer(ops, now, key, limit, window, log);
    WindowCount(ops, now, key, window, log);
  }

  ghost predicate Sorted(log: seq<int>) { forall i, j :: 0 <= i < j < |log| ==> log[i] <= log[j] }

  /** The oldest admission still in the window, `now` if there is none. */
  ghost predicate Oldest(log: seq<int>, now: int, window: int, oldest: int) {
    && (forall t :: t in log && t > now - window ==> oldest <= t)
    && (if forall t :: t in log ==> t <= now - window then oldest == now
        else oldest in log && oldest > now - window)
  }

  lemma {:induction false} OldestFirst(log: seq<int>, cutoff: int)
    requires Sorted(log)
    ensures forall t :: t in After(log, cutoff) <==> t in log && t > cutoff
    ensures After(log, cutoff) != [] ==> forall t :: t in log && t > cutoff ==> t >= After(log, cutoff)[0]
  {
    if log != [] {
      var n := |log| - 1;
      OldestFirst(log[..n], cutoff);
      assert log == log[..n] + [log[n]];
      if After(log[..n], cutoff) != [] {
        assert After(log[..n], cutoff)[0] in After(log[..n], cutoff);
      }
    }
  }

  lemma SortedAppend(log: seq<int>, now: int)
    requires Sorted(log) && forall t :: t in log ==> t <= now
    ensures Sorted(log + [now])
  {
    assert forall i :: 0 <= i < |log| ==> log[i] in log;
  }

  lemma {:induction false} LogIsSorted(ops: seq<Op>, key: string)
    requires Monotone(ops)
    ensures Sorted(LogAfter(ops, key))
  {
    if ops != [] {
      var n := |ops| - 1;
      LogIsSorted(ops[..n], key);
      LogIsPast(ops[..n], key, ops[n].now);
      SortedAppend(LogAfter(ops[..n], key), ops[n].now);
    }
  }

  lemma FirstIsOldest(log: seq<int>, now: int, window: int)
    requires Sorted(log)
    ensures var active := After(log, now - window);
      Oldest(log, now, window, if active != [] then active[0] else now)
  {
    var active := After(log, now - window);
    OldestFirst(log, now - window);
    if active != [] {
      assert active[0] in active;
    } else {
      assert forall t :: t in log ==> t !in active;
    }
  }

  /** The retry time in whole seconds, rounded up, at least one. */
  predicate WholeSeconds(d: Decision, now: int) {
    && d.retryAfter >= 1 && 1000 * d.retryAfter >= d.reset - now
    && (d.retryAfter > 1 ==> 1000 * (d.retryAfter - 1) < d.reset - now)
  }

  lemma OldestIs(active: seq<int>, now: int, limit: int, window: int)
    ensures var d := Answer(active, now, limit, window);
      d.reset - window == (if active != [] then active[0] else now) && WholeSeconds(d, now)
  {
  }

  lemma LogAnswers(log: seq<int>, now: int, limit: int, window: int, d: Decision)
    requires Sorted(log) && d == Answer(After(log, now - window), now, limit, window)
    ensures Oldest(log, now, window, d.reset - window) && WholeSeconds(d, now)
  {
    FirstIsOldest(log, now, window);
    OldestIs(After(log, now - window), now, limit, window);
  }

  /** `reset` is one window after the oldest admission still in the window, this check's own if
      there is none, and `retryAfter` is the time until then in seconds, rounded up, at least 1. */
  lemma ResetIsTheOldest(ops: seq<Op>, now: int, key: string, limit: int, window: int, log: seq<int>, d: Decision)
    requires Monotone(ops) && NeverGrows(ops, key, window) && AllBefore(ops, now)
    requires log == LogAfter(ops, key) && d == CheckAnswer(StoreAfter(ops), now, key, limit, window)
    ensures Oldest(log, now, window, d.reset - window) && WholeSeconds(d, now)
  {
    ThisAnswer(ops, now, key, limit, window, log);
    LogIsSorted(ops, key);
    LogAnswers(log, now, limit, window, d);
  }

  predicate IsAllowed(past: seq<Op>, op: Op, key: string) {
    op.Check? && op.key == key && CheckAnswer(StoreAfter(past), op.now, key, op.limit, op.window).allowed
  }

  /** The times at which the limiter answered a check of the key `allowed`. */
  function AllowedTimes(ops: seq<Op>, key: string): seq<int> {
    if ops == [] then []
    else
      var n := |ops| - 1;
      AllowedTimes(ops[..n], key) + (if IsAllowed(ops[..n], ops[n], key) then [ops[n].now] else [])
  }

  lemma OneWindowNeverGrows(ops: seq<Op>, key: string, window: int)
    requires OneWindow(ops, key, window)
    ensures NeverGrows(ops, key, window)
  {
  }

  lemma AllowedIsLogged(past: seq<Op>, op: Op, key: string, log: seq<int>)
    requires op.Check? && op.key == key && log == LogAfter(past, key)
    requires Monotone(past) && AllBefore(past, op.now) && NeverGrows(past, key, op.window)
    ensures IsAllowed(past, op, key) <==> |After(log, op.now - op.window)| < op.limit
  {
    ThisAnswer(past, op.now, key, op.limit, op.window, log);
  }

  lemma PrefixNeverGrows(ops: seq<Op>, key: string, window: int)
    requires ops != [] && Monotone(ops) && NeverGrows(ops, key, window)
    ensures var n := |ops| - 1;
      && Monotone(ops[..n]) && AllBefore(ops[..n], ops[n].now) && NeverGrows(ops[..n], key, window)
      && (ops[n].Check? && ops[n].key == key ==> NeverGrows(ops[..n], key, ops[n].window))
  {
  }

  lemma {:induction false} LogIsWhatWasAllowed(ops: seq<Op>, key: string, window: int)
    requires Monotone(ops) && NeverGrows(ops, key, window)
    ensures AllowedTimes(ops, key) == LogAfter(ops, key)
  {
    if ops != [] {
      var n := |ops| - 1;
      var op, log := ops[n], LogAfter(ops[..n], key);
      PrefixNeverGrows(ops, key, window);
      LogIsWhatWasAllowed(ops[..n], key, window);
      if op.Check? && op.key == key {
        AllowedIsLogged(ops[..n], op, key, log);
      }
    }
  }

  /** In any half-open interval of one window's length the limiter answers at most `limit`
      checks of the key with `allowed`. */
  lemma AtMostLimitAllowed(ops: seq<Op>, key: string, limit: nat, window: int, lo: int)
    requires window > 0 && Monotone(ops) && OneWindow(ops, key, window) && OneLimit(ops, key, limit)
    ensures CountIn(AllowedTimes(ops, key), lo, lo + window) <= limit
  {
    OneWindowNeverGrows(ops, key, window);
    LogIsWhatWasAllowed(ops, key, window);
    AtMostLimitPerWindow(ops, key, limit, window, lo);
  }

  /** A refused caller, the k-th operation, who waits the advertised number of seconds,
      with no other admission on the key meanwhile, is admitted. */
  lemma WaitingRetryAfterSuffices(ops: seq<Op>, k: nat, later: int, limit: nat, window: int)
    requires limit >= 1 && window > 0 && k < |ops| && ops[k].Check?
    requires Monotone(ops) && OneWindow(ops, ops[k].key, window) && OneLimit(ops, ops[k].key, limit)
    requires AllBefore(ops, later) && LogAfter(ops, ops[k].key) == LogAfter(ops[..k], ops[k].key)
    requires var d := CheckAnswer(StoreAfter(ops[..k]), ops[k].now, ops[k].key, limit, window);
      !d.allowed && later >= ops[k].now + 1000 * d.retryAfter
    ensures CheckAnswer(StoreAfter(ops), later, ops[k].key, limit, window).allowed
  {
    var now, key := ops[k].now, ops[k].key;
    PrefixOps(ops, k, key, limit, window);
    RefusedIsFull(ops[..k], now, key, limit, window);
    OldestExpires(LogAfter(ops[..k], key), now, later, limit, window);
    AnswersMatchTheFullLog(ops, later, key, limit, window);
  }
}
