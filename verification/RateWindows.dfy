/**
 Rate limiter windows that grow. The limiter prunes a key's admissions at the widest window
 it has seen so far, so a wider one can come too late.
 */
module RateWindows {
  import opened Base
  import opened RateLimit

  /** The windows of one key's checks, in order. */
  function Windows(ops: seq<Op>, key: string): seq<int> {
    if ops == [] then []
    else
      var n := |ops| - 1;
      Windows(ops[..n], key) + (if ops[n].Check? && ops[n].key == key then [ops[n].window] else [])
  }

  ghost predicate NonIncreasing(ws: seq<int>) { forall i, j :: 0 <= i < j < |ws| ==> ws[i] >= ws[j] }

  ghost predicate AllPositive(ws: seq<int>) { forall i :: 0 <= i < |ws| ==> ws[i] > 0 }

  // ── One key's state ────────────────────────────────────────────────

  function Timestamps(kept: Option<Entry>): seq<int> { if kept.Some? then kept.value.timestamps else [] }

  function Opened(kept: Option<Entry>, window: int): Entry {
    if kept.Some? then Entry(kept.value.timestamps, Max(kept.value.retention, window)) else Entry([], window)
  }

  function Swept(kept: Option<Entry>, now: int): Option<Entry> {
    if kept.None? then None
    else
      var ts := After(kept.value.timestamps, now - kept.value.retention);
      if ts == [] then None else Some(kept.value.(timestamps := ts))
  }

  /** A run up to time `last`, what its checks of the key used, and what it leaves. */
  ghost predicate Trace(ops: seq<Op>, key: string, ws: seq<int>, last: int, kept: Option<Entry>, log: seq<int>) {
    && Monotone(ops) && AllBefore(ops, last) && Windows(ops, key) == ws
    && (key in StoreAfter(ops) <==> kept.Some?) && (kept.Some? ==> StoreAfter(ops)[key] == kept.value)
    && LogAfter(ops, key) == log
  }

  lemma AppendOp(ops: seq<Op>, op: Op, key: string, last: int)
    requires Monotone(ops) && AllBefore(ops, last) && last <= op.now
    ensures Monotone(ops + [op]) && AllBefore(ops + [op], op.now)
    ensures StoreAfter(ops + [op]) == Applied(StoreAfter(ops), op)
    ensures LogAfter(ops + [op], key) == LoggedOp(LogAfter(ops, key), op, key)
    ensures Windows(ops + [op], key) == Windows(ops, key) + (if op.Check? && op.key == key then [op.window] else [])
  {
    assert (ops + [op])[..|ops|] == ops;
  }

  lemma TraceCheck(ops: seq<Op>, key: string, ws: seq<int>, last: int, kept: Option<Entry>, log: seq<int>,
                   now: int, limit: int, window: int)
    requires Trace(ops, key, ws, last, kept, log) && last <= now
    ensures Trace(ops + [Check(now, key, limit, window)], key, ws + [window], now,
                  Some(Updated(Opened(kept, window), now, limit, window)), Logged(log, now, limit, window))
  {
    AppendOp(ops, Check(now, key, limit, window), key, last);
    assert EntryFor(StoreAfter(ops), key, window) == Opened(kept, window);
  }

  lemma TraceClean(ops: seq<Op>, key: string, ws: seq<int>, last: int, kept: Option<Entry>, log: seq<int>, now: int)
    requires Trace(ops, key, ws, last, kept, log) && last <= now
    ensures Trace(ops + [Clean(now)], key, ws, now, Swept(kept, now), log)
  {
    AppendOp(ops, Clean(now), key, last);
    assert ws + [] == ws;
  }

  // ── Refused checks ─────────────────────────────────────────────────

  function Refusals(key: string, t: int, ws: seq<int>): seq<Op> {
    seq(|ws|, i requires 0 <= i < |ws| => Check(t, key, 0, ws[i]))
  }

  /** Nothing kept is old enough at `t` to be pruned. */
  predicate Recent(kept: Option<Entry>, t: int) {
    kept.Some? ==> kept.value.retention > 0 && (kept.value.timestamps == [] || kept.value.timestamps == [t])
  }

  lemma AfterOne(t: int, cutoff: int)
    ensures After([t], cutoff) == if t > cutoff then [t] else []
  {
    assert [t][..0] == [];
  }

  /** A check with limit 0 admits nothing and prunes nothing recent. */
  lemma RefusedCheck(kept: Option<Entry>, t: int, window: int)
    requires Recent(kept, t) && window > 0
    ensures var e := Updated(Opened(kept, window), t, 0, window);
      e.timestamps == Timestamps(kept) && Recent(Some(e), t)
  {
    AfterOne(t, t - Opened(kept, window).retention);
  }

  lemma TraceRefusal(ops: seq<Op>, key: string, ws: seq<int>, t: int, kept: Option<Entry>, log: seq<int>, window: int)
    returns (kept': Option<Entry>)
    requires Trace(ops, key, ws, t, kept, log) && Recent(kept, t) && window > 0
    ensures Trace(ops + [Check(t, key, 0, window)], key, ws + [window], t, kept', log)
    ensures Recent(kept', t) && Timestamps(kept') == Timestamps(kept)
  {
    TraceCheck(ops, key, ws, t, kept, log, t, 0, window);
    RefusedCheck(kept, t, window);
    kept' := Some(Updated(Opened(kept, window), t, 0, window));
  }

  lemma LastRefusal(ops: seq<Op>, key: string, t: int, ws: seq<int>, more: seq<int>)
    requires more != []
    ensures var n := |more| - 1;
      && ops + Refusals(key, t, more[..n]) + [Check(t, key, 0, more[n])] == ops + Refusals(key, t, more)
      && ws + more[..n] + [more[n]] == ws + more
  {
  }

  lemma {:induction false} RefusalsKeep(ops: seq<Op>, key: string, ws: seq<int>, t: int, kept: Option<Entry>,
                                        log: seq<int>, more: seq<int>) returns (kept': Option<Entry>)
    requires Trace(ops, key, ws, t, kept, log) && Recent(kept, t) && AllPositive(more)
    ensures Trace(ops + Refusals(key, t, more), key, ws + more, t, kept', log)
    ensures Recent(kept', t) && Timestamps(kept') == Timestamps(kept)
    decreases |more|
  {
    if more == [] {
      kept' := kept;
      assert ops + Refusals(key, t, more) == ops && ws + more == ws;
    } else {
      var n := |more| - 1;
      var mid := RefusalsKeep(ops, key, ws, t, kept, log, more[..n]);
      kept' := TraceRefusal(ops + Refusals(key, t, more[..n]), key, ws + more[..n], t, mid, log, more[n]);
      LastRefusal(ops, key, t, ws, more);
    }
  }

  // ── A window that grew ─────────────────────────────────────────────

  /** All refused, then one admission at 0 under the window `a`, swept away at `a`: the
      limiter has forgotten what a wider window would still count. */
  function Forgotten(key: string, before: seq<int>, a: int): seq<Op> {
    Refusals(key, 0, before) + [Clean(0)] + [Check(0, key, 1, a)] + [Clean(a)]
  }

  lemma ForgottenTrace(key: string, before: seq<int>, a: int)
    requires AllPositive(before) && a > 0
    ensures Trace(Forgotten(key, before, a), key, before + [a], a, None, [0])
  {
    assert Trace([], key, [], 0, None, []);
    var kept := RefusalsKeep([], key, [], 0, None, [], before);
    assert [] + Refusals(key, 0, before) == Refusals(key, 0, before) && [] + before == before;
    var ops := Refusals(key, 0, before);
    TraceClean(ops, key, before, 0, kept, [], 0);
    assert Swept(kept, 0) == None;
    TraceCheck(ops + [Clean(0)], key, before, 0, None, [], 0, 1, a);
    FirstAdmission(a);
    TraceClean(ops + [Clean(0)] + [Check(0, key, 1, a)], key, before + [a], 0, Some(Entry([0], a)), [0], a);
    AfterOne(0, 0);
  }

  lemma FirstAdmission(a: int)
    ensures Updated(Entry([], a), 0, 1, a) == Entry([0], a) && Logged([], 0, 1, a) == [0]
  {
    assert After([], 0 - a) == [] && Active(Entry([], a), 0, a) == [];
    assert [] + [0] == [0];
  }

  /** At time `a` the next, wider check is answered differently, and admits one too many. */
  lemma WiderCheck(a: int, b: int)
    requires 0 < a < b
    ensures Active(Entry([], b), a, b) == [] && After([0], a - b) == [0]
    ensures Updated(Entry([], b), a, 1, b) == Entry([a], b) && Logged([0], a, 1, b) == [0]
  {
    AfterOne(0, a - b);
    assert After([], a - b) == [];
    assert [] + [a] == [a];
  }

  /** The answer from the limiter's store and the one from the full log. */
  ghost predicate Differs(ops: seq<Op>, now: int, key: string, limit: int, window: int) {
    CheckAnswer(StoreAfter(ops), now, key, limit, window)
    != Answer(After(LogAfter(ops, key), now - window), now, limit, window)
  }

  lemma DiffersAtOnce(ops: seq<Op>, key: string, ws: seq<int>, a: int, window: int)
    requires Trace(ops, key, ws, a, None, [0]) && 0 < a < window
    ensures Differs(ops, a, key, 2, window)
  {
    WiderCheck(a, window);
    assert Active(EntryFor(StoreAfter(ops), key, window), a, window) == [];
  }

  lemma AnswersDiffer(a: int, window: int)
    requires 0 < a && 0 < window
    ensures Answer([a], a, 2, window) != Answer(After([0], a - window), a, 2, window)
  {
    AfterOne(0, a - window);
  }

  lemma {:induction false} AllKept(ts: seq<int>, cutoff: int)
    requires forall i :: 0 <= i < |ts| ==> ts[i] > cutoff
    ensures After(ts, cutoff) == ts
  {
    if ts != [] {
      AllKept(ts[..|ts| - 1], cutoff);
    }
  }

  lemma AllActive(e: Entry, now: int, window: int)
    requires forall i :: 0 <= i < |e.timestamps| ==> e.timestamps[i] > now - e.retention && e.timestamps[i] > now - window
    ensures Active(e, now, window) == e.timestamps
  {
    AllKept(e.timestamps, now - e.retention);
    AllKept(e.timestamps, now - window);
  }

  lemma OneActive(kept: Option<Entry>, a: int, window: int)
    requires 0 < window && Recent(kept, a) && Timestamps(kept) == [a]
    ensures Active(Opened(kept, window), a, window) == [a]
  {
    AllActive(Opened(kept, window), a, window);
  }

  /** With one admission too many at `a`, any window shows it. */
  lemma DiffersLater(ops: seq<Op>, key: string, ws: seq<int>, a: int, kept: Option<Entry>, window: int)
    requires Trace(ops, key, ws, a, kept, [0]) && 0 < a && 0 < window && Recent(kept, a) && Timestamps(kept) == [a]
    ensures Differs(ops, a, key, 2, window)
  {
    OneActive(kept, a, window);
    assert EntryFor(StoreAfter(ops), key, window) == Opened(kept, window);
    AnswersDiffer(a, window);
  }

  /** The wider window is the last: it answers wrongly at once. */
  lemma GrowthAtTheEnd(key: string, before: seq<int>, a: int, window: int) returns (ops: seq<Op>)
    requires AllPositive(before) && 0 < a < window
    ensures Monotone(ops) && AllBefore(ops, a) && Windows(ops, key) == before + [a] && Differs(ops, a, key, 2, window)
  {
    ops := Forgotten(key, before, a);
    ForgottenTrace(key, before, a);
    DiffersAtOnce(ops, key, before + [a], a, window);
  }

  /** The wider window is an earlier one: it admits one too many, and the last check shows it. */
  lemma GrowthInside(key: string, before: seq<int>, a: int, b: int, rest: seq<int>, window: int) returns (ops: seq<Op>)
    requires AllPositive(before) && 0 < a < b && AllPositive(rest) && 0 < window
    ensures Monotone(ops) && AllBefore(ops, a) && Windows(ops, key) == before + [a] + [b] + rest
    ensures Differs(ops, a, key, 2, window)
  {
    var forgotten := Forgotten(key, before, a);
    ForgottenTrace(key, before, a);
    TraceCheck(forgotten, key, before + [a], a, None, [0], a, 1, b);
    WiderCheck(a, b);
    var wider := forgotten + [Check(a, key, 1, b)];
    var kept := RefusalsKeep(wider, key, before + [a] + [b], a, Some(Entry([a], b)), [0], rest);
    ops := wider + Refusals(key, a, rest);
    DiffersLater(ops, key, before + [a] + [b] + rest, a, kept, window);
  }

  lemma SplitAt(ws: seq<int>, i: nat)
    requires AllPositive(ws) && i < |ws|
    ensures AllPositive(ws[..i]) && ws[i] > 0
    ensures i + 1 == |ws| ==> ws == ws[..i] + [ws[i]]
    ensures i + 1 < |ws| ==> AllPositive(ws[i + 2..]) && ws == ws[..i] + [ws[i]] + [ws[i + 1]] + ws[i + 2..]
  {
  }

  /** Whenever one window is wider than the one before it, some run answers wrongly. */
  lemma GrowthCanFail(key: string, ws: seq<int>, window: int, i: nat) returns (ops: seq<Op>, now: int)
    requires AllPositive(ws) && window > 0 && i < |ws|
    requires ws[i] < if i + 1 < |ws| then ws[i + 1] else window
    ensures Monotone(ops) && AllBefore(ops, now) && Windows(ops, key) == ws && Differs(ops, now, key, 2, window)
  {
    now := ws[i];
    SplitAt(ws, i);
    if i + 1 == |ws| {
      ops := GrowthAtTheEnd(key, ws[..i], now, window);
    } else {
      ops := GrowthInside(key, ws[..i], now, ws[i + 1], ws[i + 2..], window);
    }
  }

  // ── Exactly when ───────────────────────────────────────────────────

  lemma {:induction false} AdjacentGrowth(ws: seq<int>) returns (i: nat)
    requires !NonIncreasing(ws)
    ensures i + 1 < |ws| && ws[i] < ws[i + 1]
    decreases |ws|
  {
    var n := |ws| - 1;
    if NonIncreasing(ws[..n]) {
      i := n - 1;
      assert forall j :: 0 <= j < n ==> ws[..n][j] == ws[j];
    } else {
      i := AdjacentGrowth(ws[..n]);
    }
  }

  lemma DropLast(ws: seq<int>, w: int, window: int)
    requires NonIncreasing(ws + [w] + [window])
    ensures NonIncreasing(ws + [w]) && w >= window
  {
    var all := ws + [w] + [window];
    assert all[|ws|] == w && all[|ws| + 1] == window;
    assert forall i :: 0 <= i < |ws| + 1 ==> (ws + [w])[i] == all[i];
  }

  lemma {:induction false} ListNeverGrows(ops: seq<Op>, key: string, window: int)
    requires NonIncreasing(Windows(ops, key) + [window])
    ensures NeverGrows(ops, key, window)
  {
    if ops != [] {
      var n := |ops| - 1;
      var w := ops[n];
      if w.Check? && w.key == key {
        DropLast(Windows(ops[..n], key), w.window, window);
        ListNeverGrows(ops[..n], key, w.window);
      } else {
        assert Windows(ops[..n], key) + [] == Windows(ops[..n], key);
        ListNeverGrows(ops[..n], key, window);
      }
      assert forall i :: 0 <= i < n ==> ops[..n][i] == ops[i];
    }
  }

  /** All runs whose checks of the key use these windows are answered, with this window
      next, as the full log would answer. */
  ghost predicate AlwaysRight(key: string, ws: seq<int>, window: int) {
    forall ops, now, limit :: Monotone(ops) && AllBefore(ops, now) && Windows(ops, key) == ws ==>
      !Differs(ops, now, key, limit, window)
  }

  /** A list of windows is answered as the full log would, in every run, if and only if no
      window in it is wider than one before it. */
  lemma AlwaysRightIffWindowsNeverGrow(key: string, ws: seq<int>, window: int)
    requires AllPositive(ws) && window > 0
    ensures AlwaysRight(key, ws, window) <==> NonIncreasing(ws + [window])
  {
    if NonIncreasing(ws + [window]) {
      forall ops, now, limit | Monotone(ops) && AllBefore(ops, now) && Windows(ops, key) == ws
        ensures !Differs(ops, now, key, limit, window)
      {
        ListNeverGrows(ops, key, window);
        AnswersMatchTheFullLog(ops, now, key, limit, window);
      }
    } else {
      var i := AdjacentGrowth(ws + [window]);
      assert ws[i] == (ws + [window])[i];
      var ops, now := GrowthCanFail(key, ws, window, i);
      assert Differs(ops, now, key, 2, window);
    }
  }

  /** One such run: an admission at 0 under a window of 10 ms, a sweep at 10, and a check with
      a window of 100 ms that finds one request more remaining than there are. */
  lemma WiderWindowForgets(key: string)
    ensures var ops := Forgotten(key, [], 10);
      && Windows(ops, key) == [10]
      && CheckAnswer(StoreAfter(ops), 10, key, 2, 100).remaining == 1
      && Answer(After(LogAfter(ops, key), 10 - 100), 10, 2, 100).remaining == 0
  {
    ForgottenTrace(key, [], 10);
    assert [] + [10] == [10];
    WiderCheck(10, 100);
    assert Active(EntryFor(StoreAfter(Forgotten(key, [], 10)), key, 100), 10, 100) == [];
  }
}
