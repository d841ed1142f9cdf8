/**
 Two pushes to one save stack with nothing between them but the disk: each reads the
 stack, writes its state file and writes the stack back, and the steps interleave.
 The disk works throughout.
 */
module SaveRace {
  import opened Base
  import opened SavePaths
  import opened Saves

  datatype Phase =
    | Ready
    | HasRead(stack: Stack)
    | HasWritten(stack: Stack)   // the state file is in place
    | Done(index: nat)
    | Refused                    // the stack file could not be decoded

  /** `overlapped` is history: at some moment both had read and neither had finished. */
  datatype Race = Race(files: Files, first: Phase, second: Phase, overlapped: bool)

  predicate InFlight(p: Phase) { p.HasRead? || p.HasWritten? }

  function StepFiles(c: Setting, files: Files, p: Phase, save: Save): Files {
    match p
    case HasRead(stack) => Written(files, PathOf(c.root, c.slot, StateFile(stack.next)), save.data, Works)
    case HasWritten(stack) =>
      Written(files, PathOf(c.root, c.slot, StackFile), c.json.encode(Pushed(stack, |save.data|, save.time)), Works)
    case _ => files
  }

  function StepPhase(c: Setting, files: Files, p: Phase): Phase {
    match p
    case Ready =>
      var stack := Listed(files, c.root, c.json, c.slot, false);
      if stack.Ok? then HasRead(stack.value) else Refused
    case HasRead(stack) => HasWritten(stack)
    case HasWritten(stack) => Done(stack.next)
    case _ => p
  }

  function Next(c: Setting, r: Race, firstMoves: bool): Race {
    var first := if firstMoves then StepPhase(c, r.files, r.first) else r.first;
    var second := if firstMoves then r.second else StepPhase(c, r.files, r.second);
    var files := if firstMoves then StepFiles(c, r.files, r.first, c.x) else StepFiles(c, r.files, r.second, c.y);
    Race(files, first, second, r.overlapped || (InFlight(first) && InFlight(second)))
  }

  function Run(c: Setting, r: Race, schedule: seq<bool>): Race
    decreases |schedule|
  {
    if schedule == [] then r else Run(c, Next(c, r, schedule[0]), schedule[1..])
  }

  ghost predicate Holds(c: Setting, files: Files, log: seq<Save>) { Stores(files, c.root, c.json, c.slot, log) }

  /** One push, undisturbed on a slot that holds `log`. */
  ghost predicate Solo(c: Setting, files: Files, log: seq<Save>, p: Phase, save: Save) {
    match p
    case Ready => Holds(c, files, log)
    case HasRead(stack) => Holds(c, files, log) && stack == StackOf(log)
    case HasWritten(stack) =>
      && Holds(c, files, log) && stack == StackOf(log)
      && Loaded(files, c.root, c.slot, |log| + 1) == Ok(save.data)
    case Done(index) => index == |log| + 1 && Holds(c, files, log + [save])
    case Refused => false
  }

  lemma SoloStep(c: Setting, files: Files, log: seq<Save>, p: Phase, save: Save)
    requires Faithful(c.json) && Proper(c.slot) && Solo(c, files, log, p, save)
    ensures Solo(c, StepFiles(c, files, p, save), log, StepPhase(c, files, p), save)
  {
    if p.HasRead? {
      StateWriteKeeps(files, c.root, c.json, c.slot, log, save.data, Works);
    } else if p.HasWritten? {
      assert Pushed(p.stack, |save.data|, save.time) == StackOf(log + [save]);
      MetaWriteCommits(files, c.root, c.json, c.slot, log, save, Works);
    }
  }

  /** The pushes of p and q one after the other, p first. */
  ghost predicate InTurn(c: Setting, files: Files, log: seq<Save>, p: Phase, x: Save, q: Phase, y: Save) {
    || (q.Ready? && Solo(c, files, log, p, x))
    || (p == Done(|log| + 1) && Solo(c, files, log + [x], q, y))
  }

  /** A push that read the stack as it was before either finished. */
  ghost predicate Stale(log: seq<Save>, p: Phase) {
    (InFlight(p) && p.stack == StackOf(log)) || p == Done(|log| + 1)
  }

  ghost predicate Lists(c: Setting, files: Files, log: seq<Save>) {
    Listed(files, c.root, c.json, c.slot, false) == Ok(StackOf(log))
  }

  ghost predicate Clashing(c: Setting, files: Files, log: seq<Save>, p: Phase, q: Phase) {
    && Stale(log, p) && Stale(log, q)
    && (if p.Done? || q.Done? then Lists(c, files, log + [c.x]) || Lists(c, files, log + [c.y])
        else Lists(c, files, log))
  }

  lemma StaleStep(c: Setting, files: Files, log: seq<Save>, p: Phase, save: Save)
    requires Faithful(c.json) && Proper(c.slot) && Stale(log, p)
    ensures Stale(log, StepPhase(c, files, p))
    ensures var after := StepFiles(c, files, p, save);
      if p.HasWritten? then Lists(c, after, log + [save])
      else Listed(after, c.root, c.json, c.slot, false) == Listed(files, c.root, c.json, c.slot, false)
  {
    if p.HasRead? {
      WriteIsAtomic(files, c.root, c.slot, StateFile(p.stack.next), save.data, Works, c.slot, StackFile);
    } else if p.HasWritten? {
      assert Pushed(p.stack, |save.data|, save.time) == StackOf(log + [save]);
    }
  }

  ghost predicate Inv(c: Setting, log: seq<Save>, r: Race) {
    if r.overlapped then Clashing(c, r.files, log, r.first, r.second)
    else
      || InTurn(c, r.files, log, r.first, c.x, r.second, c.y)
      || InTurn(c, r.files, log, r.second, c.y, r.first, c.x)
  }

  /** While the pushes take turns, the one that moves keeps its turn or starts a clash. */
  lemma TurnStep(c: Setting, files: Files, log: seq<Save>, p: Phase, x: Save, q: Phase, y: Save)
    requires Faithful(c.json) && Proper(c.slot) && InTurn(c, files, log, p, x, q, y)
    requires !(InFlight(p) && InFlight(q))
    ensures InTurn(c, StepFiles(c, files, p, x), log, StepPhase(c, files, p), x, q, y)
    ensures var q' := StepPhase(c, files, q);
      if InFlight(p) && InFlight(q') then Stale(log, p) && Stale(log, q') && Lists(c, StepFiles(c, files, q, y), log)
      else InTurn(c, StepFiles(c, files, q, y), log, p, x, q', y) || InTurn(c, StepFiles(c, files, q, y), log, q', y, p, x)
  {
    if q.Ready? && Solo(c, files, log, p, x) {
      SoloStep(c, files, log, p, x);
      if p.Ready? {
        SoloStep(c, files, log, q, y);
      } else if p.Done? {
        SoloStep(c, files, log + [x], q, y);
      }
    } else {
      SoloStep(c, files, log + [x], q, y);
    }
  }

  lemma NextKeepsInv(c: Setting, log: seq<Save>, r: Race, firstMoves: bool)
    requires Faithful(c.json) && Proper(c.slot) && Inv(c, log, r)
    requires InFlight(r.first) && InFlight(r.second) ==> r.overlapped
    ensures var r' := Next(c, r, firstMoves);
      Inv(c, log, r') && (InFlight(r'.first) && InFlight(r'.second) ==> r'.overlapped)
  {
    if r.overlapped {
      if firstMoves {
        StaleStep(c, r.files, log, r.first, c.x);
      } else {
        StaleStep(c, r.files, log, r.second, c.y);
      }
    } else if InTurn(c, r.files, log, r.first, c.x, r.second, c.y) {
      TurnStep(c, r.files, log, r.first, c.x, r.second, c.y);
    } else {
      TurnStep(c, r.files, log, r.second, c.y, r.first, c.x);
    }
  }

  lemma {:induction false} RunKeepsInv(c: Setting, log: seq<Save>, r: Race, schedule: seq<bool>)
    requires Faithful(c.json) && Proper(c.slot) && Inv(c, log, r)
    requires InFlight(r.first) && InFlight(r.second) ==> r.overlapped
    ensures Inv(c, log, Run(c, r, schedule))
    decreases |schedule|
  {
    if schedule != [] {
      NextKeepsInv(c, log, r, schedule[0]);
      RunKeepsInv(c, log, Next(c, r, schedule[0]), schedule[1..]);
    }
  }

  /** Two pushes that both report success return the same index exactly when they
      overlapped. Then the list has grown by only one of them; otherwise the slot holds
      both, in one order or the other. */
  lemma SameIndexIffOverlapped(c: Setting, files: Files, log: seq<Save>, schedule: seq<bool>)
    requires Faithful(c.json) && Proper(c.slot) && Holds(c, files, log)
    requires var r := Run(c, Race(files, Ready, Ready, false), schedule); r.first.Done? && r.second.Done?
    ensures var r := Run(c, Race(files, Ready, Ready, false), schedule);
      && (r.first.index == r.second.index <==> r.overlapped)
      && (r.overlapped ==> Lists(c, r.files, log + [c.x]) || Lists(c, r.files, log + [c.y]))
      && (!r.overlapped ==> Holds(c, r.files, log + [c.x] + [c.y]) || Holds(c, r.files, log + [c.y] + [c.x]))
  {
    RunKeepsInv(c, log, Race(files, Ready, Ready, false), schedule);
  }

  /** Taking turns step by step loses a save: both return the next index, and the bytes
      under the one listed index are those of the push that wrote its state file last. */
  lemma AlternatingPushesClash(c: Setting, files: Files, log: seq<Save>)
    requires Faithful(c.json) && Proper(c.slot) && Holds(c, files, log)
    ensures var r := Run(c, Race(files, Ready, Ready, false), [true, false, true, false, true, false]);
      && r.first == r.second == Done(|log| + 1)
      && Lists(c, r.files, log + [c.y])
      && Loaded(r.files, c.root, c.slot, |log| + 1) == Ok(c.y.data)
  {
    var r0 := Race(files, Ready, Ready, false);
    var r1 := Next(c, r0, true);
    var r2 := Next(c, r1, false);
    var r3 := Next(c, r2, true);
    var r4 := Next(c, r3, false);
    var r5 := Next(c, r4, true);
    var r6 := Next(c, r5, false);
    SixSteps(c, r0, true, false, true, false, true, false);
    var stack := StackOf(log);
    var saved, meta := PathOf(c.root, c.slot, StateFile(|log| + 1)), PathOf(c.root, c.slot, StackFile);
    assert r4.first == HasWritten(stack) && r4.second == HasWritten(stack);
    assert Loaded(r4.files, c.root, c.slot, |log| + 1) == Ok(c.y.data);
    StaleStep(c, r5.files, log, r5.second, c.y);
    WriteIsAtomic(r4.files, c.root, c.slot, StackFile, c.json.encode(Pushed(stack, |c.x.data|, c.x.time)), Works, c.slot, StateFile(|log| + 1));
    WriteIsAtomic(r5.files, c.root, c.slot, StackFile, c.json.encode(Pushed(stack, |c.y.data|, c.y.time)), Works, c.slot, StateFile(|log| + 1));
  }

  lemma SixSteps(c: Setting, r: Race, m1: bool, m2: bool, m3: bool, m4: bool, m5: bool, m6: bool)
    ensures Run(c, r, [m1, m2, m3, m4, m5, m6]) == Next(c, Next(c, Next(c, Next(c, Next(c, Next(c, r, m1), m2), m3), m4), m5), m6)
  {
    assert [m1, m2, m3, m4, m5, m6][1..] == [m2, m3, m4, m5, m6] && [m2, m3, m4, m5, m6][1..] == [m3, m4, m5, m6];
    assert [m3, m4, m5, m6][1..] == [m4, m5, m6] && [m4, m5, m6][1..] == [m5, m6] && [m5, m6][1..] == [m6] && [m6][1..] == [];
    var r1 := Next(c, r, m1);
    var r2 := Next(c, r1, m2);
    var r3 := Next(c, r2, m3);
    var r4 := Next(c, r3, m4);
    calc {
      Run(c, r, [m1, m2, m3, m4, m5, m6]);
      Run(c, r1, [m2, m3, m4, m5, m6]);
      Run(c, r2, [m3, m4, m5, m6]);
      Run(c, r3, [m4, m5, m6]);
      Run(c, r4, [m5, m6]);
      Run(c, Next(c, r4, m5), [m6]);
      Next(c, Next(c, r4, m5), m6);
    }
  }
}
