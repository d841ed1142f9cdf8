/**
 Two pushes to one save stack at the grain of single file operations: create the temporary
 file, fill it, sync it, rename it. Both pushes use the same temporary files, an open handle
 follows its file through renames, and any operation may fail.
 */
module SaveSteps {
  import opened Base
  import opened SavePaths
  import opened Saves

  /** `handle` is where the file opened for writing is by now; None once it was replaced. */
  datatype Stage = Opened(handle: Option<string>) | Filled | Synced

  datatype Phase =
    | Ready
    | HasRead(stack: Stack)
    | Writing(stack: Stack, meta: bool, stage: Stage)
    | HasWritten(stack: Stack)     // the state file is in place
    | Done(index: nat)
    | Failed                       // reported an error

  /** `overlapped` is history: at some moment both had read and neither had finished. */
  datatype Race = Race(files: Files, first: Phase, second: Phase, overlapped: bool)

  /** One operation of one push; a failing fill leaves `partial` behind. */
  datatype Move = Move(byFirst: bool, fails: bool, partial: Bytes)

  predicate InFlight(p: Phase) { p.HasRead? || p.Writing? || p.HasWritten? }

  function Target(c: Setting, stack: Stack, meta: bool): string {
    PathOf(c.root, c.slot, if meta then StackFile else StateFile(stack.next))
  }

  function Contents(c: Setting, stack: Stack, meta: bool, save: Save): Bytes {
    if meta then c.json.encode(Pushed(stack, |save.data|, save.time)) else save.data
  }

  /** Writing from the start of a file that is not truncated. */
  function Overwritten(before: Bytes, bytes: Bytes): Bytes {
    bytes + (if |before| > |bytes| then before[|bytes|..] else [])
  }

  /** The operation this phase comes to renames its temporary file. */
  predicate Renames(c: Setting, files: Files, p: Phase, fails: bool) {
    p.Writing? && p.stage.Synced? && !fails && WithTmp(Target(c, p.stack, p.meta)) in files
  }

  function StepFiles(c: Setting, files: Files, p: Phase, save: Save, m: Move): Files {
    match p
    case HasRead(stack) => if m.fails then files else files[WithTmp(Target(c, stack, false)) := []]
    case HasWritten(stack) => if m.fails then files else files[WithTmp(Target(c, stack, true)) := []]
    case Writing(stack, meta, stage) =>
      (match stage
       case Opened(h) =>
         if h.Some? && h.value in files
         then files[h.value := Overwritten(files[h.value], if m.fails then m.partial else Contents(c, stack, meta, save))]
         else files
       case Filled => files
       case Synced =>
         var path := Target(c, stack, meta);
         if Renames(c, files, p, m.fails) then (files - {WithTmp(path)})[path := files[WithTmp(path)]] else files)
    case _ => files
  }

  function StepPhase(c: Setting, files: Files, p: Phase, m: Move): Phase {
    match p
    case Ready =>
      var stack := Listed(files, c.root, c.json, c.slot, m.fails);
      if stack.Ok? then HasRead(stack.value) else Failed
    case HasRead(stack) =>
      if m.fails then Failed else Writing(stack, false, Opened(Some(WithTmp(Target(c, stack, false)))))
    case HasWritten(stack) =>
      if m.fails then Failed else Writing(stack, true, Opened(Some(WithTmp(Target(c, stack, true)))))
    case Writing(stack, meta, stage) =>
      (match stage
       case Opened(_) => if m.fails then Failed else Writing(stack, meta, Filled)
       case Filled =>
         if m.fails || WithTmp(Target(c, stack, meta)) !in files then Failed else Writing(stack, meta, Synced)
       case Synced =>
         if !Renames(c, files, p, m.fails) then Failed
         else if meta then Done(stack.next)
         else HasWritten(stack))
    case _ => p
  }

  /** A rename moves the file under the other push's open handle, or replaces it. */
  function Followed(p: Phase, tmp: string, path: string): Phase {
    if p.Writing? && p.stage.Opened? then
      if p.stage.handle == Some(path) then p.(stage := Opened(None))
      else if p.stage.handle == Some(tmp) then p.(stage := Opened(Some(path)))
      else p
    else p
  }

  /** The other push's phase after a step of `p`. */
  function Beside(c: Setting, files: Files, p: Phase, m: Move, other: Phase): Phase {
    if Renames(c, files, p, m.fails)
    then Followed(other, WithTmp(Target(c, p.stack, p.meta)), Target(c, p.stack, p.meta))
    else other
  }

  function Next(c: Setting, r: Race, m: Move): Race {
    var first := if m.byFirst then StepPhase(c, r.files, r.first, m) else Beside(c, r.files, r.second, m, r.first);
    var second := if m.byFirst then Beside(c, r.files, r.first, m, r.second) else StepPhase(c, r.files, r.second, m);
    var files := if m.byFirst then StepFiles(c, r.files, r.first, c.x, m) else StepFiles(c, r.files, r.second, c.y, m);
    Race(files, first, second, r.overlapped || (InFlight(first) && InFlight(second)))
  }

  function Run(c: Setting, r: Race, moves: seq<Move>): Race
    decreases |moves|
  {
    if moves == [] then r else Run(c, Next(c, r, moves[0]), moves[1..])
  }

  lemma {:induction false} RunConcat(c: Setting, r: Race, a: seq<Move>, b: seq<Move>)
    ensures Run(c, r, a + b) == Run(c, Run(c, r, a), b)
    decreases |a|
  {
    if a == [] {
      assert a + b == b;
    } else {
      assert (a + b)[1..] == a[1..] + b;
      RunConcat(c, Next(c, r, a[0]), a[1..], b);
    }
  }

  function Start(files: Files): Race { Race(files, Ready, Ready, false) }

  ghost predicate Holds(c: Setting, files: Files, log: seq<Save>) { Stores(files, c.root, c.json, c.slot, log) }

  // ── One push alone ─────────────────────────────────────────────────

  ghost predicate TmpHolds(c: Setting, files: Files, p: Phase, save: Save)
    requires p.Writing?
  {
    var tmp := WithTmp(Target(c, p.stack, p.meta));
    && tmp in files
    && (if p.stage.Opened? then p.stage.handle == Some(tmp) && files[tmp] == []
        else files[tmp] == Contents(c, p.stack, p.meta, save))
  }

  /** One push, undisturbed on a slot that holds `log`. */
  ghost predicate Solo(c: Setting, files: Files, log: seq<Save>, p: Phase, save: Save) {
    match p
    case Ready => Holds(c, files, log)
    case Failed => Holds(c, files, log)
    case HasRead(stack) => Holds(c, files, log) && stack == StackOf(log)
    case HasWritten(stack) =>
      Holds(c, files, log) && stack == StackOf(log) && Loaded(files, c.root, c.slot, |log| + 1) == Ok(save.data)
    case Writing(stack, meta, stage) =>
      && Holds(c, files, log) && stack == StackOf(log) && TmpHolds(c, files, p, save)
      && (meta ==> Loaded(files, c.root, c.slot, |log| + 1) == Ok(save.data))
    case Done(index) => index == |log| + 1 && Holds(c, files, log + [save])
  }

  /** Touching a temporary file changes no file of the slot. */
  lemma TmpIsApart(c: Setting, files: Files, stack: Stack, meta: bool, bytes: Bytes)
    requires Proper(c.slot)
    ensures SlotAlike(files, files[WithTmp(Target(c, stack, meta)) := bytes], c.root, c.slot)
  {
    var own := if meta then StackFile else StateFile(stack.next);
    forall item ensures SameAt(files, files[WithTmp(Target(c, stack, meta)) := bytes], PathOf(c.root, c.slot, item)) {
      PathsAreDistinct(c.root, c.slot, item, c.slot, own);
    }
  }

  /** Nor does a step that only touches one. */
  lemma TmpStepKeeps(c: Setting, files: Files, log: seq<Save>, stack: Stack, meta: bool, bytes: Bytes)
    requires Proper(c.slot) && Holds(c, files, log)
    ensures var after := files[WithTmp(Target(c, stack, meta)) := bytes];
      Holds(c, after, log) && Loaded(after, c.root, c.slot, |log| + 1) == Loaded(files, c.root, c.slot, |log| + 1)
  {
    var after := files[WithTmp(Target(c, stack, meta)) := bytes];
    TmpIsApart(c, files, stack, meta, bytes);
    AlikeStores(files, after, c.root, c.json, c.slot, log);
    assert SameAt(files, after, PathOf(c.root, c.slot, StateFile(|log| + 1)));
  }

  lemma SoloOpens(c: Setting, files: Files, log: seq<Save>, p: Phase, save: Save, m: Move)
    requires Proper(c.slot) && Solo(c, files, log, p, save) && (p.HasRead? || p.HasWritten?)
    ensures Solo(c, StepFiles(c, files, p, save, m), log, StepPhase(c, files, p, m), save)
  {
    TmpStepKeeps(c, files, log, p.stack, p.HasWritten?, []);
  }

  lemma SoloFills(c: Setting, files: Files, log: seq<Save>, p: Phase, save: Save, m: Move)
    requires Proper(c.slot) && Solo(c, files, log, p, save) && p.Writing? && p.stage.Opened?
    ensures Solo(c, StepFiles(c, files, p, save, m), log, StepPhase(c, files, p, m), save)
  {
    var bytes := if m.fails then m.partial else Contents(c, p.stack, p.meta, save);
    assert Overwritten([], bytes) == bytes;
    TmpStepKeeps(c, files, log, p.stack, p.meta, bytes);
  }

  lemma SoloRenames(c: Setting, files: Files, log: seq<Save>, p: Phase, save: Save, m: Move)
    requires Faithful(c.json) && Proper(c.slot) && Solo(c, files, log, p, save) && p.Writing? && p.stage.Synced?
    ensures Solo(c, StepFiles(c, files, p, save, m), log, StepPhase(c, files, p, m), save)
  {
    if !m.fails {
      if p.meta {
        PushedIsStackOf(log, save);
        MetaWriteCommits(files, c.root, c.json, c.slot, log, save, Works);
      } else {
        StateWriteKeeps(files, c.root, c.json, c.slot, log, save.data, Works);
      }
    }
  }

  lemma SoloStep(c: Setting, files: Files, log: seq<Save>, p: Phase, save: Save, m: Move)
    requires Faithful(c.json) && Proper(c.slot) && Solo(c, files, log, p, save)
    ensures Solo(c, StepFiles(c, files, p, save, m), log, StepPhase(c, files, p, m), save)
  {
    if p.HasRead? || p.HasWritten? {
      SoloOpens(c, files, log, p, save, m);
    } else if p.Writing? && p.stage.Opened? {
      SoloFills(c, files, log, p, save, m);
    } else if p.Writing? && p.stage.Synced? {
      SoloRenames(c, files, log, p, save, m);
    } else if p.Ready? {
      ReadOf(files, c.root, c.json, c.slot, m.fails, log);
    }
  }

  // ── Two pushes ─────────────────────────────────────────────────────

  /** The pushes one after the other, p first. */
  ghost predicate InTurn(c: Setting, files: Files, log: seq<Save>, p: Phase, x: Save, q: Phase, y: Save) {
    || (q.Ready? && Solo(c, files, log, p, x))
    || (p == Done(|log| + 1) && Solo(c, files, log + [x], q, y))
    || (p.Failed? && Solo(c, files, log, q, y))
  }

  /** A push that read the list as it was before either finished. */
  predicate Stale(log: seq<Save>, p: Phase) {
    (InFlight(p) && p.stack == StackOf(log)) || p == Done(|log| + 1) || p.Failed?
  }

  ghost predicate Inv(c: Setting, log: seq<Save>, r: Race) {
    && (InFlight(r.first) && InFlight(r.second) ==> r.overlapped)
    && if r.overlapped then Stale(log, r.first) && Stale(log, r.second)
       else
         || InTurn(c, r.files, log, r.first, c.x, r.second, c.y)
         || InTurn(c, r.files, log, r.second, c.y, r.first, c.x)
  }

  lemma StaleStep(c: Setting, files: Files, log: seq<Save>, p: Phase, q: Phase, m: Move)
    requires Stale(log, p) && Stale(log, q)
    ensures Stale(log, StepPhase(c, files, p, m)) && Stale(log, Beside(c, files, p, m, q))
  {
  }

  /** A push that is not in flight has no open handle. */
  lemma IdleStays(c: Setting, files: Files, p: Phase, m: Move, other: Phase)
    ensures InFlight(Beside(c, files, p, m, other)) == InFlight(other)
    ensures !InFlight(other) ==> Beside(c, files, p, m, other) == other
  {
  }

  lemma FirstMoves(c: Setting, files: Files, log: seq<Save>, p: Phase, x: Save, q: Phase, y: Save, m: Move)
    requires Faithful(c.json) && Proper(c.slot) && InTurn(c, files, log, p, x, q, y) && !(InFlight(p) && InFlight(q))
    ensures InTurn(c, StepFiles(c, files, p, x, m), log, StepPhase(c, files, p, m), x, q, y)
  {
    if q.Ready? && Solo(c, files, log, p, x) {
      SoloStep(c, files, log, p, x, m);
    }
  }

  lemma SecondMoves(c: Setting, files: Files, log: seq<Save>, p: Phase, x: Save, q: Phase, y: Save, m: Move)
    requires Faithful(c.json) && Proper(c.slot) && InTurn(c, files, log, p, x, q, y) && !(InFlight(p) && InFlight(q))
    ensures var q', after := StepPhase(c, files, q, m), StepFiles(c, files, q, y, m);
      if InFlight(p) && InFlight(q') then Stale(log, p) && Stale(log, q')
      else InTurn(c, after, log, p, x, q', y) || InTurn(c, after, log, q', y, p, x)
  {
    if p == Done(|log| + 1) && Solo(c, files, log + [x], q, y) {
      SoloStep(c, files, log + [x], q, y, m);
    } else if p.Failed? && Solo(c, files, log, q, y) {
      SoloStep(c, files, log, q, y, m);
    } else if p.Done? {
      SoloStep(c, files, log + [x], q, y, m);
    } else {
      ReadOf(files, c.root, c.json, c.slot, m.fails, log);
      if p.Ready? {
        SoloStep(c, files, log, q, y, m);
      }
    }
  }

  lemma NextKeepsInv(c: Setting, log: seq<Save>, r: Race, m: Move)
    requires Faithful(c.json) && Proper(c.slot) && Inv(c, log, r)
    ensures Inv(c, log, Next(c, r, m))
  {
    var mover, other := if m.byFirst then r.first else r.second, if m.byFirst then r.second else r.first;
    if r.overlapped {
      StaleStep(c, r.files, log, mover, other, m);
    } else {
      TurnKeepsInv(c, log, r, m);
    }
  }

  lemma TurnKeepsInv(c: Setting, log: seq<Save>, r: Race, m: Move)
    requires Faithful(c.json) && Proper(c.slot) && Inv(c, log, r) && !r.overlapped
    ensures Inv(c, log, Next(c, r, m))
  {
    if m.byFirst {
      IdleStays(c, r.files, r.first, m, r.second);
      if InTurn(c, r.files, log, r.first, c.x, r.second, c.y) {
        FirstMoves(c, r.files, log, r.first, c.x, r.second, c.y, m);
      } else {
        SecondMoves(c, r.files, log, r.second, c.y, r.first, c.x, m);
      }
    } else {
      IdleStays(c, r.files, r.second, m, r.first);
      if InTurn(c, r.files, log, r.first, c.x, r.second, c.y) {
        SecondMoves(c, r.files, log, r.first, c.x, r.second, c.y, m);
      } else {
        FirstMoves(c, r.files, log, r.second, c.y, r.first, c.x, m);
      }
    }
  }

  lemma {:induction false} RunKeepsInv(c: Setting, log: seq<Save>, r: Race, moves: seq<Move>)
    requires Faithful(c.json) && Proper(c.slot) && Inv(c, log, r)
    ensures Inv(c, log, Run(c, r, moves))
    decreases |moves|
  {
    if moves != [] {
      NextKeepsInv(c, log, r, moves[0]);
      RunKeepsInv(c, log, Next(c, r, moves[0]), moves[1..]);
    }
  }

  /** At this grain too, two pushes that both report success return the same index exactly
      when they overlapped; if they did not, the slot holds both. */
  lemma SameIndexIffOverlapped(c: Setting, files: Files, log: seq<Save>, moves: seq<Move>)
    requires Faithful(c.json) && Proper(c.slot) && Holds(c, files, log)
    requires Run(c, Start(files), moves).first.Done? && Run(c, Start(files), moves).second.Done?
    ensures var r := Run(c, Start(files), moves);
      && (r.first.index == r.second.index <==> r.overlapped)
      && (!r.overlapped ==> Holds(c, r.files, log + [c.x] + [c.y]) || Holds(c, r.files, log + [c.y] + [c.x]))
  {
    RunKeepsInv(c, log, Start(files), moves);
  }

  // ── Whose bytes an index holds ─────────────────────────────────────

  /** Each index returned so far loads the bytes of the push that returned it. */
  ghost predicate OwnBytes(c: Setting, r: Race) {
    && (r.first.Done? ==> Loaded(r.files, c.root, c.slot, r.first.index) == Ok(c.x.data))
    && (r.second.Done? ==> Loaded(r.files, c.root, c.slot, r.second.index) == Ok(c.y.data))
  }

  lemma HoldsLast(c: Setting, files: Files, log: seq<Save>, save: Save)
    requires Holds(c, files, log + [save])
    ensures Loaded(files, c.root, c.slot, |log| + 1) == Ok(save.data)
  {
    assert (log + [save])[|log|] == save;
  }

  lemma HoldsLastTwo(c: Setting, files: Files, log: seq<Save>, x: Save, y: Save)
    requires Holds(c, files, log + [x] + [y])
    ensures Loaded(files, c.root, c.slot, |log| + 1) == Ok(x.data)
    ensures Loaded(files, c.root, c.slot, |log| + 2) == Ok(y.data)
  {
    var all := log + [x] + [y];
    assert all[|log|] == x && all[|log| + 1] == y;
  }

  lemma TurnsKeepBytes(c: Setting, files: Files, log: seq<Save>, p: Phase, x: Save, q: Phase, y: Save)
    requires InTurn(c, files, log, p, x, q, y)
    ensures p.Done? ==> Loaded(files, c.root, c.slot, p.index) == Ok(x.data)
    ensures q.Done? ==> Loaded(files, c.root, c.slot, q.index) == Ok(y.data)
  {
    if q.Ready? && Solo(c, files, log, p, x) {
      if p.Done? {
        HoldsLast(c, files, log, x);
      }
    } else if p.Done? {
      if q.Done? {
        HoldsLastTwo(c, files, log, x, y);
      } else {
        HoldsLast(c, files, log, x);
      }
    } else if q.Done? {
      HoldsLast(c, files, log, y);
    }
  }

  /** While the first push is over, no later step makes the two overlap. */
  lemma {:induction false} FinishedNeverOverlaps(c: Setting, r: Race, moves: seq<Move>)
    requires (r.first.Done? || r.first.Failed?) && !r.overlapped
    ensures !Run(c, r, moves).overlapped
    decreases |moves|
  {
    if moves != [] {
      FinishedNeverOverlaps(c, Next(c, r, moves[0]), moves[1..]);
    }
  }

  const GO := Move(true, false, [])
  const GO_SECOND := Move(false, false, [])

  /** Operations until a push is done. */
  function Remaining(p: Phase): nat {
    match p
    case HasRead(_) => 9
    case HasWritten(_) => 4
    case Writing(_, meta, stage) => (if meta then 0 else 5) + (if stage.Opened? then 3 else if stage.Filled? then 2 else 1)
    case _ => 0
  }

  lemma SoloAdvances(c: Setting, files: Files, log: seq<Save>, p: Phase, save: Save, m: Move)
    requires Solo(c, files, log, p, save) && InFlight(p) && !m.fails
    ensures var p' := StepPhase(c, files, p, m);
      p' == Done(|log| + 1) || (InFlight(p') && Remaining(p') < Remaining(p))
  {
  }

  /** A push in flight can run to its end beside one that has only read. */
  lemma {:induction false} FirstCanFinish(c: Setting, log: seq<Save>, r: Race) returns (moves: seq<Move>)
    requires Faithful(c.json) && Proper(c.slot) && Solo(c, r.files, log, r.first, c.x) && InFlight(r.first) && r.second.HasRead?
    ensures Run(c, r, moves).first == Done(|log| + 1) && Run(c, r, moves).second == r.second
    decreases Remaining(r.first)
  {
    var r' := Next(c, r, GO);
    SoloStep(c, r.files, log, r.first, c.x, GO);
    SoloAdvances(c, r.files, log, r.first, c.x, GO);
    if InFlight(r'.first) {
      var more := FirstCanFinish(c, log, r');
      moves := [GO] + more;
      assert moves[1..] == more;
    } else {
      moves := [GO];
      assert moves[1..] == [];
    }
  }

  lemma RunFour(c: Setting, r: Race, m: Move)
    ensures Run(c, r, [m, m, m, m]) == Next(c, Next(c, Next(c, Next(c, r, m), m), m), m)
  {
    assert [m, m, m, m][1..] == [m, m, m] && [m, m, m][1..] == [m, m] && [m, m][1..] == [m] && [m][1..] == [];
    calc {
      Run(c, r, [m, m, m, m]);
      Run(c, Next(c, r, m), [m, m, m]);
      Run(c, Next(c, Next(c, r, m), m), [m, m]);
      Run(c, Next(c, Next(c, Next(c, r, m), m), m), [m]);
      Next(c, Next(c, Next(c, Next(c, r, m), m), m), m);
    }
  }

  /** Four operations of a push that has read put its bytes under the index it read. */
  lemma SecondPutsItsState(c: Setting, r: Race, index: nat)
    requires r.first.Done? && r.second.HasRead? && r.second.stack.next == index
    ensures var after := Run(c, r, [GO_SECOND, GO_SECOND, GO_SECOND, GO_SECOND]);
      after.first == r.first && Loaded(after.files, c.root, c.slot, index) == Ok(c.y.data)
  {
    var stack := r.second.stack;
    var tmp := WithTmp(Target(c, stack, false));
    var r1 := Next(c, r, GO_SECOND);
    var r2 := Next(c, r1, GO_SECOND);
    assert Overwritten([], c.y.data) == c.y.data;
    assert tmp in r2.files && r2.files[tmp] == c.y.data && r2.second == Writing(stack, false, Filled);
    var r3 := Next(c, r2, GO_SECOND);
    assert r3.files == r2.files && r3.second == Writing(stack, false, Synced);
    RunFour(c, r, GO_SECOND);
  }

  /** An overlap in which the first push is done and the second then replaces its bytes. */
  lemma OverlapCanLoseBytes(c: Setting, log: seq<Save>, r: Race) returns (future: seq<Move>)
    requires Faithful(c.json) && Proper(c.slot) && c.x.data != c.y.data
    requires Solo(c, r.files, log, r.first, c.x) && InFlight(r.first) && r.second == HasRead(StackOf(log))
    ensures !OwnBytes(c, Run(c, r, future))
  {
    var finish := FirstCanFinish(c, log, r);
    var four := [GO_SECOND, GO_SECOND, GO_SECOND, GO_SECOND];
    SecondPutsItsState(c, Run(c, r, finish), |log| + 1);
    RunConcat(c, r, finish, four);
    future := finish + four;
  }

  /** Whether returned indices keep their bytes is decided when the later push reads the list:
      they do in every continuation, whatever fails, if and only if the earlier push is over
      by then. */
  lemma SecondReadDecides(c: Setting, files: Files, log: seq<Save>, past: seq<Move>)
    requires Faithful(c.json) && Proper(c.slot) && Holds(c, files, log) && c.x.data != c.y.data
    requires var r := Run(c, Start(files), past); !r.first.Ready? && r.second.Ready?
    ensures var r := Run(c, Start(files), past);
      (forall future :: OwnBytes(c, Run(c, Next(c, r, GO_SECOND), future))) <==> !InFlight(r.first)
  {
    var r := Run(c, Start(files), past);
    var r' := Next(c, r, GO_SECOND);
    RunKeepsInv(c, log, Start(files), past);
    NextKeepsInv(c, log, r, GO_SECOND);
    assert !r.overlapped;
    if InFlight(r.first) {
      assert Solo(c, r.files, log, r.first, c.x);
      ReadOf(r.files, c.root, c.json, c.slot, false, log);
      var future := OverlapCanLoseBytes(c, log, r');
    } else {
      forall future ensures OwnBytes(c, Run(c, r', future)) {
        RunKeepsInv(c, log, r', future);
        FinishedNeverOverlaps(c, r', future);
        InvKeepsBytes(c, log, Run(c, r', future));
      }
    }
  }

  lemma InvKeepsBytes(c: Setting, log: seq<Save>, r: Race)
    requires Inv(c, log, r) && !r.overlapped
    ensures OwnBytes(c, r)
  {
    if InTurn(c, r.files, log, r.first, c.x, r.second, c.y) {
      TurnsKeepBytes(c, r.files, log, r.first, c.x, r.second, c.y);
    } else {
      TurnsKeepBytes(c, r.files, log, r.second, c.y, r.first, c.x);
    }
  }

  // ── One temporary file, two pushes ─────────────────────────────────

  lemma RunThree(c: Setting, r: Race, m1: Move, m2: Move, m3: Move)
    ensures Run(c, r, [m1, m2, m3]) == Next(c, Next(c, Next(c, r, m1), m2), m3)
  {
    assert [m1, m2, m3][1..] == [m2, m3] && [m2, m3][1..] == [m3] && [m3][1..] == [];
    calc {
      Run(c, r, [m1, m2, m3]);
      Run(c, Next(c, r, m1), [m2, m3]);
      Run(c, Next(c, Next(c, r, m1), m2), [m3]);
      Next(c, Next(c, Next(c, r, m1), m2), m3);
    }
  }

  /** Both have read, and the first has opened its temporary file. */
  const BOTH_READ: seq<Move> := [GO, GO_SECOND, GO]
  /** Both have filled the one temporary file, the second last. */
  const BOTH_FILL: seq<Move> := [GO, GO_SECOND, GO_SECOND]
  /** The first renames it, and the second finds none to sync. */
  const FIRST_RENAMES: seq<Move> := [GO, GO, GO_SECOND]
  /** The first writes the list. */
  const FIRST_LISTS: seq<Move> := [GO, GO, GO, GO]

  lemma BothRead(c: Setting, files: Files, log: seq<Save>)
    requires Faithful(c.json) && Proper(c.slot) && Holds(c, files, log)
    ensures var r, stack := Run(c, Start(files), BOTH_READ), StackOf(log);
      var tmp := WithTmp(Target(c, stack, false));
      r.first == Writing(stack, false, Opened(Some(tmp))) && r.second == HasRead(stack) && tmp in r.files
  {
    RunThree(c, Start(files), GO, GO_SECOND, GO);
  }

  lemma BothFill(c: Setting, r: Race, stack: Stack)
    requires var tmp := WithTmp(Target(c, stack, false));
      r.first == Writing(stack, false, Opened(Some(tmp))) && r.second == HasRead(stack) && tmp in r.files
    ensures var after, tmp := Run(c, r, BOTH_FILL), WithTmp(Target(c, stack, false));
      && after.first == Writing(stack, false, Filled) && after.second == Writing(stack, false, Filled)
      && tmp in after.files && after.files[tmp] == c.y.data
  {
    RunThree(c, r, GO, GO_SECOND, GO_SECOND);
    assert Overwritten([], c.y.data) == c.y.data;
  }

  lemma FirstRenames(c: Setting, r: Race, stack: Stack)
    requires Proper(c.slot)
    requires r.first == Writing(stack, false, Filled) && r.second == Writing(stack, false, Filled)
    requires var tmp := WithTmp(Target(c, stack, false)); tmp in r.files && r.files[tmp] == c.y.data
    ensures var after := Run(c, r, FIRST_RENAMES);
      && after.first == HasWritten(stack) && after.second == Failed
      && Loaded(after.files, c.root, c.slot, stack.next) == Ok(c.y.data)
  {
    RunThree(c, r, GO, GO, GO_SECOND);
    PathsAreDistinct(c.root, c.slot, StateFile(stack.next), c.slot, StateFile(stack.next));
  }

  lemma ListingKeepsStates(c: Setting, files: Files, stack: Stack, n: nat, some: Bytes, meta: Bytes)
    requires Proper(c.slot)
    ensures var tmp, path := WithTmp(Target(c, stack, true)), Target(c, stack, true);
      Loaded(files[tmp := some][tmp := meta] - {tmp}, c.root, c.slot, n) == Loaded(files, c.root, c.slot, n)
      && Loaded((files[tmp := some][tmp := meta] - {tmp})[path := meta], c.root, c.slot, n)
         == Loaded(files, c.root, c.slot, n)
  {
    PathsAreDistinct(c.root, c.slot, StateFile(n), c.slot, StackFile);
  }

  lemma FirstLists(c: Setting, r: Race, stack: Stack, data: Bytes)
    requires Proper(c.slot) && r.first == HasWritten(stack) && r.second == Failed
    requires Loaded(r.files, c.root, c.slot, stack.next) == Ok(data)
    ensures var after := Run(c, r, FIRST_LISTS);
      && after.first == Done(stack.next) && after.second == Failed
      && Loaded(after.files, c.root, c.slot, stack.next) == Ok(data)
  {
    var tmp, path := WithTmp(Target(c, stack, true)), Target(c, stack, true);
    var meta := Contents(c, stack, true, c.x);
    var r1 := Next(c, r, GO);
    var r2 := Next(c, r1, GO);
    assert Overwritten([], meta) == meta;
    assert r2.files == r.files[tmp := []][tmp := meta] && r2.first == Writing(stack, true, Filled);
    var r3 := Next(c, r2, GO);
    var r4 := Next(c, r3, GO);
    assert r4.files == (r.files[tmp := []][tmp := meta] - {tmp})[path := meta];
    ListingKeepsStates(c, r.files, stack, stack.next, [], meta);
    RunFour(c, r, GO);
  }

  /** Two overlapping pushes share a temporary file: one reports an error, and the other
      reports success for an index that loads the bytes of the one that failed. */
  lemma SuccessWithTheOthersBytes(c: Setting, files: Files, log: seq<Save>)
    requires Faithful(c.json) && Proper(c.slot) && Holds(c, files, log)
    ensures var r := Run(c, Start(files), BOTH_READ + BOTH_FILL + FIRST_RENAMES + FIRST_LISTS);
      && r.first == Done(|log| + 1) && r.second == Failed
      && Loaded(r.files, c.root, c.slot, |log| + 1) == Ok(c.y.data)
  {
    var stack := StackOf(log);
    BothRead(c, files, log);
    RunConcat(c, Start(files), BOTH_READ, BOTH_FILL);
    BothFill(c, Run(c, Start(files), BOTH_READ), stack);
    RunConcat(c, Start(files), BOTH_READ + BOTH_FILL, FIRST_RENAMES);
    FirstRenames(c, Run(c, Start(files), BOTH_READ + BOTH_FILL), stack);
    RunConcat(c, Start(files), BOTH_READ + BOTH_FILL + FIRST_RENAMES, FIRST_LISTS);
    FirstLists(c, Run(c, Start(files), BOTH_READ + BOTH_FILL + FIRST_RENAMES), stack, c.y.data);
  }
}
