/**
 The shared-memory mailbox between the server's bridge thread and the core child
 process, together with the bridge's shutdown path. Every shared load and store is
 one step; a schedule picks which process moves next and supplies everything the
 outside world decides (core results, deadlines, panics, the child's death).
 */
module Mailbox {
  import opened Base

  const MAX_RESPONSE: nat := 64 * 1024 * 1024

  datatype Command = NoCommand | SetInput | SaveState | LoadState | Reset | SaveSram | LoadSram

  /** The response half of the output region. */
  datatype Output = Output(ok: bool, len: nat, data: Bytes)

  datatype Store = StoreOk(ok: bool) | StoreLen(len: nat) | StoreData(data: Bytes)

  function Overwrite(buffer: Bytes, data: Bytes): Bytes {
    if |data| <= |buffer| then data + buffer[|data|..] else data
  }

  function Put(o: Output, s: Store): Output {
    match s
    case StoreOk(b) => o.(ok := b)
    case StoreLen(n) => o.(len := n)
    case StoreData(d) => o.(data := Overwrite(o.data, d))
  }

  function PutAll(o: Output, todo: seq<Store>): Output
    decreases |todo|
  {
    if todo == [] then o else PutAll(Put(o, todo[0]), todo[1..])
  }

  // ── Child ──────────────────────────────────────────────────────────

  /** Where the child stands in its frame loop. `Handling` lists the stores the
      command handler still has to make before it clears `cmd_ready`. */
  datatype Child =
    | Polling
    | Taken                      // saw cmd_ready, has not yet read cmd_type
    | ReadingLen(cmd: Command)   // a load handler about to read response_data_len
    | Handling(todo: seq<Store>)
    | RunningFrame

  predicate Busy(c: Child) { c.Taken? || c.ReadingLen? || c.Handling? }

  function SramStores(sram: Option<Bytes>): seq<Store> {
    match sram
    case Some(d) =>
      var n := Min(|d|, MAX_RESPONSE);
      [StoreData(d[..n]), StoreLen(n), StoreOk(true)]
    case None => [StoreLen(0), StoreOk(false)]
  }

  function StateStores(d: Bytes): seq<Store> {
    if |d| > MAX_RESPONSE then [StoreOk(false), StoreLen(0)]
    else [StoreData(d), StoreLen(|d|), StoreOk(d != [])]
  }

  // ── Bridge ─────────────────────────────────────────────────────────

  datatype ServerCommand = SendInput | RequestState | RestoreState(data: Bytes)

  datatype LoopStore = PutOut(store: Store) | PutType(cmd: Command) | PutReady

  /** The stores the bridge loop makes for one command of the streaming side. */
  function LoopStores(c: ServerCommand): seq<LoopStore> {
    match c
    case SendInput => [PutType(SetInput), PutReady]
    case RequestState => [PutType(SaveState), PutReady]
    case RestoreState(d) =>
      if |d| > MAX_RESPONSE then []
      else [PutOut(StoreData(d)), PutOut(StoreLen(|d|)), PutType(LoadState), PutReady]
  }

  datatype Bridge =
    | InLoop(todo: seq<LoopStore>)
    // request_sram_snapshot
    | AwaitIdle | ClearOk | ClearLen | StoreType | Publish | AwaitAck
    | CheckOk | CheckLen | CopyData(len: nat)
    // the rest of the shutdown path
    | Persist(data: Bytes) | Terminate | UnlinkOut | UnlinkIn | Complete
    | Exited
    | Unwound                    // a panic outside the caught loop

  datatype Event = Persisted(data: Bytes) | Terminated | UnlinkedOut | UnlinkedIn | Stopped

  datatype BridgeAct = Proceed | Issue(cmd: ServerCommand) | LeaveLoop | Panic | Deadline

  datatype Choice =
    | ChildStep(state: Bytes, sram: Option<Bytes>, accepted: bool)
    | ChildDies
    | BridgeStep(act: BridgeAct)

  /** `served`, `acked` and `log` are history: the results of every SAVE_SRAM
      handler run, whether the bridge saw its request acknowledged, and the
      shutdown actions in order. */
  datatype State = State(
    cmdReady: bool, cmdType: Command, out: Output,
    child: Child, alive: bool,
    bridge: Bridge, hasRom: bool,
    served: seq<Option<Bytes>>, acked: bool, log: seq<Event>)

  // ── Steps ──────────────────────────────────────────────────────────

  function ChildNext(s: State, state: Bytes, sram: Option<Bytes>, accepted: bool): State {
    match s.child
    case Polling => s.(child := if s.cmdReady then Taken else RunningFrame)
    case Taken =>
      (match s.cmdType
       case SaveState => s.(child := Handling(StateStores(state)))
       case SaveSram => s.(child := Handling(SramStores(sram)), served := s.served + [sram])
       case LoadState => s.(child := ReadingLen(LoadState))
       case LoadSram => s.(child := ReadingLen(LoadSram))
       case _ => s.(child := Handling([])))
    case ReadingLen(cmd) =>
      var ok := if cmd == LoadState then s.out.len <= MAX_RESPONSE && accepted else s.out.len > 0;
      s.(child := Handling([StoreOk(ok)]))
    case Handling(todo) =>
      if todo == [] then s.(child := RunningFrame, cmdReady := false)
      else s.(child := Handling(todo[1..]), out := Put(s.out, todo[0]))
    case RunningFrame => s.(child := Polling)
  }

  function LoopNext(s: State, todo: seq<LoopStore>, act: BridgeAct): State {
    var leave := s.(bridge := if s.hasRom then AwaitIdle else Terminate);
    if act.Panic? then leave
    else if todo != [] then
      var s' := s.(bridge := InLoop(todo[1..]));
      match todo[0]
      case PutOut(st) => s'.(out := Put(s.out, st))
      case PutType(c) => s'.(cmdType := c)
      case PutReady => s'.(cmdReady := true)
    else if act.Issue? then s.(bridge := InLoop(LoopStores(act.cmd)))
    else if act.LeaveLoop? then leave
    else s
  }

  function BridgeNext(s: State, act: BridgeAct): State {
    if s.bridge.InLoop? then LoopNext(s, s.bridge.todo, act)
    else if s.bridge.Exited? || s.bridge.Unwound? then s
    else if act.Panic? then s.(bridge := Unwound)
    else
      match s.bridge
      case AwaitIdle =>
        if !s.cmdReady then s.(bridge := ClearOk)
        else if !s.alive || act.Deadline? then s.(bridge := Terminate) else s
      case ClearOk => s.(out := s.out.(ok := false), bridge := ClearLen)
      case ClearLen => s.(out := s.out.(len := 0), bridge := StoreType)
      case StoreType => s.(cmdType := SaveSram, bridge := Publish)
      case Publish => s.(cmdReady := true, bridge := AwaitAck)
      case AwaitAck =>
        if !s.cmdReady then s.(bridge := CheckOk, acked := true)
        else if !s.alive || act.Deadline? then s.(bridge := Terminate) else s
      case CheckOk => s.(bridge := if s.out.ok then CheckLen else Terminate)
      case CheckLen => s.(bridge := if s.out.len == 0 then Terminate else CopyData(s.out.len))
      case CopyData(n) =>
        s.(bridge := Persist(s.out.data[..Min(Min(n, MAX_RESPONSE), |s.out.data|)]))
      case Persist(d) => s.(log := s.log + [Persisted(d)], bridge := Terminate)
      case Terminate => s.(alive := false, log := s.log + [Terminated], bridge := UnlinkOut)
      case UnlinkOut => s.(log := s.log + [UnlinkedOut], bridge := UnlinkIn)
      case UnlinkIn => s.(log := s.log + [UnlinkedIn], bridge := Complete)
      case Complete => s.(log := s.log + [Stopped], bridge := Exited)
      case _ => s
  }

  function Next(s: State, c: Choice): State {
    match c
    case ChildStep(state, sram, accepted) => if s.alive then ChildNext(s, state, sram, accepted) else s
    case ChildDies => s.(alive := false)
    case BridgeStep(act) => BridgeNext(s, act)
  }

  function Run(s: State, schedule: seq<Choice>): State
    decreases |schedule|
  {
    if schedule == [] then s else Run(Next(s, schedule[0]), schedule[1..])
  }

  /** The bridge thread starts with the child alive and no handler in flight. */
  predicate Init(s: State) {
    && s.bridge == InLoop([]) && s.alive && !Busy(s.child)
    && s.cmdType != SaveSram && |s.out.data| == MAX_RESPONSE
    && s.served == [] && !s.acked && s.log == []
  }

  // ── What a snapshot must be ────────────────────────────────────────

  /** The bytes a snapshot of the given handler result carries; empty for none. */
  function SnapshotOf(sram: Option<Bytes>): Bytes {
    match sram
    case Some(d) => d[..Min(|d|, MAX_RESPONSE)]
    case None => []
  }

  predicate Answers(o: Output, sram: Option<Bytes>) {
    && o.ok == sram.Some?
    && o.len == |SnapshotOf(sram)| <= |o.data|
    && o.data[..o.len] == SnapshotOf(sram)
  }

  function Saved(s: State): seq<Event> {
    if s.acked && |s.served| == 1 && SnapshotOf(s.served[0]) != []
    then [Persisted(SnapshotOf(s.served[0]))] else []
  }

  /** The first `n` actions of the teardown, in the order the bridge takes them. */
  function Teardown(n: nat): seq<Event> {
    match n
    case 0 => []
    case 1 => [Terminated]
    case 2 => [Terminated, UnlinkedOut]
    case 3 => [Terminated, UnlinkedOut, UnlinkedIn]
    case _ => [Terminated, UnlinkedOut, UnlinkedIn, Stopped]
  }

  // ── Invariant ──────────────────────────────────────────────────────

  predicate Unpublished(b: Bridge) {
    b.InLoop? || b.AwaitIdle? || b.ClearOk? || b.ClearLen? || b.StoreType? || b.Publish?
  }

  /** The bridge found the mailbox empty and has not yet published. */
  predicate Owning(b: Bridge) { b.ClearOk? || b.ClearLen? || b.StoreType? || b.Publish? }

  predicate Reading(b: Bridge) { b.CheckOk? || b.CheckLen? || b.CopyData? || b.Persist? }

  predicate TornDown(b: Bridge) { b.UnlinkOut? || b.UnlinkIn? || b.Complete? || b.Exited? }

  predicate CutShort(saved: seq<Event>, log: seq<Event>) {
    || log == [] || log == saved || log == saved + Teardown(1)
    || log == saved + Teardown(2) || log == saved + Teardown(3)
  }

  predicate LogShape(b: Bridge, saved: seq<Event>, log: seq<Event>) {
    match b
    case Terminate => log == saved
    case UnlinkOut => log == saved + Teardown(1)
    case UnlinkIn => log == saved + Teardown(2)
    case Complete => log == saved + Teardown(3)
    case Exited => log == saved + Teardown(4)
    case Unwound => CutShort(saved, log)
    case _ => log == []
  }

  predicate LogInv(s: State) { LogShape(s.bridge, Saved(s), s.log) }

  /** The previous command's reply can no longer be taken for an answer. */
  predicate Cleared(s: State) { !s.out.ok && s.out.len == 0 }

  predicate AckInv(s: State) {
    if s.cmdReady then
      || (s.served == [] && !s.child.Handling? && !s.child.ReadingLen? && Cleared(s))
      || (|s.served| == 1 && s.child.Handling? && Answers(PutAll(s.out, s.child.todo), s.served[0]))
    else |s.served| == 1 && Answers(s.out, s.served[0])
  }

  predicate MailInv(s: State) {
    && (Busy(s.child) ==> s.cmdReady)
    && (Unpublished(s.bridge) ==> s.served == [] && (s.cmdType == SaveSram <==> s.bridge.Publish?))
    && (s.bridge.InLoop? ==> PutType(SaveSram) !in s.bridge.todo)
    && (Owning(s.bridge) ==> !s.cmdReady)
    && (s.bridge.ClearLen? ==> !s.out.ok)
    && (s.bridge.StoreType? || s.bridge.Publish? ==> Cleared(s))
    && (s.bridge.AwaitAck? ==> s.cmdType == SaveSram && AckInv(s))
    && (s.acked ==> !s.cmdReady && |s.served| == 1 && Answers(s.out, s.served[0]))
    && (Reading(s.bridge) ==> s.acked)
    && (s.bridge.CheckLen? || s.bridge.CopyData? ==> s.out.ok)
    && (s.bridge.CopyData? ==> s.bridge.len == s.out.len > 0)
    && (s.bridge.Persist? ==> s.acked && s.bridge.data == SnapshotOf(s.served[0]) != [])
    && (TornDown(s.bridge) ==> !s.alive)
    && (s.acked ==> !Unpublished(s.bridge) && !s.bridge.AwaitAck?)
  }

  predicate Inv(s: State) { MailInv(s) && LogInv(s) }

  lemma SramStoresAnswer(o: Output, sram: Option<Bytes>)
    ensures Answers(PutAll(o, SramStores(sram)), sram)
  {
    var st := SramStores(sram);
    calc {
      PutAll(o, st);
      PutAll(Put(o, st[0]), st[1..]);
      { assert st[1..][0] == st[1] && st[1..][1..] == st[2..]; }
      PutAll(Put(Put(o, st[0]), st[1]), st[2..]);
    }
    if sram.Some? {
      var o2 := Put(Put(o, st[0]), st[1]);
      assert st[2..][0] == st[2] && st[2..][1..] == [];
      assert PutAll(o2, st[2..]) == PutAll(Put(o2, st[2]), []);
    }
  }

  lemma HandlerKeepsMail(s: State, state: Bytes, sram: Option<Bytes>, accepted: bool)
    requires MailInv(s) && (s.child.Handling? || s.child.ReadingLen?)
    ensures MailInv(ChildNext(s, state, sram, accepted))
    ensures Saved(ChildNext(s, state, sram, accepted)) == Saved(s)
  {
  }

  lemma TakenKeepsMail(s: State, state: Bytes, sram: Option<Bytes>, accepted: bool)
    requires MailInv(s) && s.child.Taken?
    ensures MailInv(ChildNext(s, state, sram, accepted))
    ensures Saved(ChildNext(s, state, sram, accepted)) == Saved(s)
  {
    if s.cmdType == SaveSram {
      SramStoresAnswer(s.out, sram);
    }
  }

  lemma ChildKeepsMail(s: State, state: Bytes, sram: Option<Bytes>, accepted: bool)
    requires MailInv(s)
    ensures MailInv(ChildNext(s, state, sram, accepted))
    ensures Saved(ChildNext(s, state, sram, accepted)) == Saved(s)
  {
    if s.child.Handling? || s.child.ReadingLen? {
      HandlerKeepsMail(s, state, sram, accepted);
    } else if s.child.Taken? {
      TakenKeepsMail(s, state, sram, accepted);
    }
  }

  /** One store of a command: never a SAVE_SRAM. */
  lemma LoopStoreKeepsMail(s: State, act: BridgeAct)
    requires MailInv(s) && s.bridge.InLoop? && s.bridge.todo != [] && !act.Panic?
    ensures MailInv(BridgeNext(s, act)) && Saved(BridgeNext(s, act)) == Saved(s)
  {
    assert s.bridge.todo[0] in s.bridge.todo;
  }

  lemma LoopKeepsMail(s: State, act: BridgeAct)
    requires MailInv(s) && s.bridge.InLoop?
    ensures MailInv(BridgeNext(s, act)) && Saved(BridgeNext(s, act)) == Saved(s)
  {
    if s.bridge.todo != [] && !act.Panic? {
      LoopStoreKeepsMail(s, act);
    }
  }

  lemma RequestKeepsMail(s: State, act: BridgeAct)
    requires MailInv(s) && Unpublished(s.bridge) && !s.bridge.InLoop?
    ensures MailInv(BridgeNext(s, act)) && Saved(BridgeNext(s, act)) == Saved(s)
  {
  }

  lemma AckKeepsMail(s: State, act: BridgeAct)
    requires MailInv(s) && s.bridge.AwaitAck?
    ensures MailInv(BridgeNext(s, act))
  {
  }

  lemma ReplyKeepsMail(s: State, act: BridgeAct)
    requires MailInv(s) && Reading(s.bridge)
    ensures MailInv(BridgeNext(s, act)) && Saved(BridgeNext(s, act)) == Saved(s)
  {
  }

  lemma TerminateKeepsMail(s: State, act: BridgeAct)
    requires MailInv(s) && s.bridge.Terminate?
    ensures MailInv(BridgeNext(s, act)) && Saved(BridgeNext(s, act)) == Saved(s)
  {
  }

  lemma TeardownKeepsMail(s: State, act: BridgeAct)
    requires MailInv(s) && (TornDown(s.bridge) || s.bridge.Terminate? || s.bridge.Unwound?)
    ensures MailInv(BridgeNext(s, act)) && Saved(BridgeNext(s, act)) == Saved(s)
  {
    if s.bridge.Terminate? {
      TerminateKeepsMail(s, act);
    }
  }

  lemma BridgeKeepsMail(s: State, act: BridgeAct)
    requires MailInv(s)
    ensures MailInv(BridgeNext(s, act))
    ensures s.bridge.AwaitAck? || Saved(BridgeNext(s, act)) == Saved(s)
  {
    if s.bridge.InLoop? {
      LoopKeepsMail(s, act);
    } else if s.bridge.AwaitAck? {
      AckKeepsMail(s, act);
    } else if Unpublished(s.bridge) {
      RequestKeepsMail(s, act);
    } else if Reading(s.bridge) {
      ReplyKeepsMail(s, act);
    } else {
      TeardownKeepsMail(s, act);
    }
  }

  lemma LogGrows(b: Bridge, saved: seq<Event>, log: seq<Event>)
    requires LogShape(b, saved, log)
    ensures CutShort(saved, log) || b.Exited?
    ensures b.Terminate? ==> LogShape(UnlinkOut, saved, log + [Terminated])
    ensures b.UnlinkOut? ==> LogShape(UnlinkIn, saved, log + [UnlinkedOut])
    ensures b.UnlinkIn? ==> LogShape(Complete, saved, log + [UnlinkedIn])
    ensures b.Complete? ==> LogShape(Exited, saved, log + [Stopped])
  {
  }

  lemma LoopStepLogs(s: State, act: BridgeAct)
    requires LogInv(s) && s.bridge.InLoop? && !s.acked
    ensures LogInv(BridgeNext(s, act))
  {
    var s' := BridgeNext(s, act);
    assert s'.log == s.log == [] && Saved(s') == [];
    assert s'.bridge.InLoop? || s'.bridge.AwaitIdle? || s'.bridge.Terminate?;
  }

  /** Until the request is acknowledged nothing is logged. */
  lemma EarlyStepLogs(s: State, act: BridgeAct)
    requires LogInv(s) && (Unpublished(s.bridge) || s.bridge.AwaitAck?) && !s.acked
    ensures LogInv(BridgeNext(s, act))
  {
    if s.bridge.InLoop? {
      LoopStepLogs(s, act);
    }
  }

  lemma ReplyStepLogs(s: State, act: BridgeAct)
    requires MailInv(s) && LogInv(s) && Reading(s.bridge)
    ensures LogInv(BridgeNext(s, act))
  {
    assert s.acked && |s.served| == 1 && Answers(s.out, s.served[0]);
  }

  lemma TeardownStepLogs(s: State, act: BridgeAct)
    requires LogInv(s) && (TornDown(s.bridge) || s.bridge.Terminate?)
    requires Saved(BridgeNext(s, act)) == Saved(s)
    ensures LogInv(BridgeNext(s, act))
  {
    LogGrows(s.bridge, Saved(s), s.log);
  }

  lemma BridgeLogs(s: State, act: BridgeAct)
    requires MailInv(s) && LogInv(s)
    ensures LogInv(BridgeNext(s, act))
  {
    BridgeKeepsMail(s, act);
    if TornDown(s.bridge) || s.bridge.Terminate? {
      TeardownStepLogs(s, act);
    } else if Reading(s.bridge) {
      ReplyStepLogs(s, act);
    } else if !s.bridge.Unwound? {
      EarlyStepLogs(s, act);
    }
  }

  lemma ChildOnlyMails(s: State, state: Bytes, sram: Option<Bytes>, accepted: bool)
    ensures var s' := ChildNext(s, state, sram, accepted); s'.bridge == s.bridge && s'.log == s.log
  {
  }

  lemma SameLogInv(s: State, s': State)
    requires LogInv(s) && s'.bridge == s.bridge && s'.log == s.log && Saved(s') == Saved(s)
    ensures LogInv(s')
  {
  }

  lemma NextKeepsInv(s: State, c: Choice)
    requires Inv(s)
    ensures Inv(Next(s, c))
  {
    match c
    case ChildStep(state, sram, accepted) =>
      ChildKeepsMail(s, state, sram, accepted);
      ChildOnlyMails(s, state, sram, accepted);
      SameLogInv(s, ChildNext(s, state, sram, accepted));
    case ChildDies =>
    case BridgeStep(act) => BridgeKeepsMail(s, act); BridgeLogs(s, act);
  }

  lemma {:induction false} RunKeepsInv(s: State, schedule: seq<Choice>)
    requires Inv(s)
    ensures Inv(Run(s, schedule))
    decreases |schedule|
  {
    if schedule != [] {
      NextKeepsInv(s, schedule[0]);
      RunKeepsInv(Next(s, schedule[0]), schedule[1..]);
    }
  }

  // ── Results over every interleaving ────────────────────────────────

  lemma OnlySavedIsPersisted(b: Bridge, saved: seq<Event>, log: seq<Event>, data: Bytes)
    requires LogShape(b, saved, log) && Persisted(data) in log
    ensures Persisted(data) in saved
  {
    assert forall n: nat :: Persisted(data) !in Teardown(n);
  }

  /** Every snapshot that reaches the save file is exactly what this request's one
      SAVE_SRAM handler run wrote, cut to the response buffer. */
  lemma PersistedIsFresh(s0: State, schedule: seq<Choice>, data: Bytes)
    requires Init(s0) && Persisted(data) in Run(s0, schedule).log
    ensures var s := Run(s0, schedule);
      && |s.served| == 1 && s.served[0].Some?
      && data == s.served[0].value[..Min(|s.served[0].value|, MAX_RESPONSE)] != []
  {
    RunKeepsInv(s0, schedule);
    var s := Run(s0, schedule);
    OnlySavedIsPersisted(s.bridge, Saved(s), s.log, data);
  }

  /** While the bridge overwrites the reply and command fields for its request, the
      child has no command in hand; a child with a command keeps cmd_ready set; and until
      the SRAM handler runs, the reply fields hold no earlier command's answer. */
  lemma RequestOverwritesNoTakenCommand(s0: State, schedule: seq<Choice>)
    requires Init(s0)
    ensures var s := Run(s0, schedule);
      && (Busy(s.child) ==> s.cmdReady)
      && (Owning(s.bridge) ==> !Busy(s.child) && !s.cmdReady)
      && (s.bridge.AwaitAck? && s.served == [] ==> Cleared(s))
  {
    RunKeepsInv(s0, schedule);
  }

  /** A finished bridge has saved the acknowledged SRAM exactly when there was some
      to save, and nothing else, before the whole teardown. */
  lemma FinishedLog(s0: State, schedule: seq<Choice>)
    requires Init(s0) && Run(s0, schedule).bridge.Exited?
    ensures var s := Run(s0, schedule);
      && (s.acked ==> |s.served| == 1)
      && var answer := if s.acked then SnapshotOf(s.served[0]) else [];
      s.log == (if answer != [] then [Persisted(answer)] else [])
               + [Terminated, UnlinkedOut, UnlinkedIn, Stopped]
  {
    RunKeepsInv(s0, schedule);
  }

  function Rank(e: Event): nat {
    match e
    case Persisted(_) => 0
    case Terminated => 1
    case UnlinkedOut => 2
    case UnlinkedIn => 3
    case Stopped => 4
  }

  ghost predicate Ordered(log: seq<Event>) {
    forall i, j :: 0 <= i < j < |log| ==> Rank(log[i]) < Rank(log[j])
  }

  lemma CutShortIsOrdered(saved: seq<Event>, log: seq<Event>)
    requires |saved| <= 1 && (saved != [] ==> saved[0].Persisted?)
    requires CutShort(saved, log)
    ensures Ordered(log) && Stopped !in log
  {
  }

  lemma FullTeardownIsOrdered(saved: seq<Event>)
    requires |saved| <= 1 && (saved != [] ==> saved[0].Persisted?)
    ensures var log := saved + Teardown(4);
      && Ordered(log)
      && Stopped in log && Terminated in log && UnlinkedOut in log && UnlinkedIn in log
  {
    var log, n := saved + Teardown(4), |saved|;
    assert log[n] == Terminated && log[n + 1] == UnlinkedOut && log[n + 2] == UnlinkedIn && log[n + 3] == Stopped;
  }

  /** Saving precedes termination, termination precedes unlinking, unlinking precedes
      `stopped`; each happens at most once; `stopped` is signalled on no path that
      skipped a teardown action, and then the child is dead. */
  lemma ShutdownOrder(s0: State, schedule: seq<Choice>)
    requires Init(s0)
    ensures var s := Run(s0, schedule);
      && Ordered(s.log)
      && (Stopped in s.log <==> s.bridge.Exited?)
      && (Stopped in s.log ==>
            && Terminated in s.log && UnlinkedOut in s.log && UnlinkedIn in s.log
            && !s.alive)
  {
    RunKeepsInv(s0, schedule);
    var s := Run(s0, schedule);
    if s.bridge.Exited? {
      FullTeardownIsOrdered(Saved(s));
    } else {
      LogGrows(s.bridge, Saved(s), s.log);
      CutShortIsOrdered(Saved(s), s.log);
    }
  }

  // ── The save happens ───────────────────────────────────────────────

  lemma {:induction false} RunLast(s: State, schedule: seq<Choice>)
    requires schedule != []
    ensures Run(s, schedule) == Next(Run(s, schedule[..|schedule| - 1]), schedule[|schedule| - 1])
    decreases |schedule|
  {
    var n := |schedule| - 1;
    if n > 0 {
      assert schedule[1..][..n - 1] == schedule[..n][1..];
      RunLast(Next(s, schedule[0]), schedule[1..]);
    }
  }

  lemma {:induction false} RunConcat(s: State, a: seq<Choice>, b: seq<Choice>)
    ensures Run(s, a + b) == Run(Run(s, a), b)
    decreases |a|
  {
    if a == [] {
      assert a + b == b;
    } else {
      assert (a + b)[1..] == a[1..] + b;
      RunConcat(Next(s, a[0]), a[1..], b);
    }
  }

  /** The bridge finds its command still pending, and its deadline passed or the child dead. */
  predicate GivesUp(s: State, c: Choice) {
    && c.BridgeStep? && !c.act.Panic? && (s.bridge.AwaitIdle? || s.bridge.AwaitAck?)
    && s.cmdReady && (c.act.Deadline? || !s.alive)
  }

  ghost predicate GaveUp(s0: State, schedule: seq<Choice>) {
    exists i: nat :: i < |schedule| && GivesUp(Run(s0, schedule[..i]), schedule[i])
  }

  lemma GaveUpStep(s0: State, schedule: seq<Choice>, c: Choice)
    ensures GaveUp(s0, schedule + [c]) <==> GaveUp(s0, schedule) || GivesUp(Run(s0, schedule), c)
  {
    var more := schedule + [c];
    assert forall i: nat :: i <= |schedule| ==> more[..i] == schedule[..i];
    assert schedule[..|schedule|] == schedule && more[|schedule|] == c;
    assert forall i: nat :: i < |schedule| ==> more[i] == schedule[i];
    if GivesUp(Run(s0, schedule), c) {
      assert GivesUp(Run(s0, more[..|schedule|]), more[|schedule|]);
    }
    if GaveUp(s0, schedule) {
      var i: nat :| i < |schedule| && GivesUp(Run(s0, schedule[..i]), schedule[i]);
      assert GivesUp(Run(s0, more[..i]), more[i]);
    }
    if GaveUp(s0, more) {
      var i: nat :| i < |more| && GivesUp(Run(s0, more[..i]), more[i]);
      if i < |schedule| {
        assert GivesUp(Run(s0, schedule[..i]), schedule[i]);
      }
    }
  }

  predicate Over(b: Bridge) { b.Terminate? || TornDown(b) || b.Unwound? }

  /** How a bridge with a ROM got where it is. */
  predicate AskInv(s: State, gaveUp: bool) {
    && s.hasRom
    && (gaveUp ==> !s.acked && Over(s.bridge))
    && (s.acked ==> Reading(s.bridge) || Over(s.bridge))
    && (s.bridge.Terminate? || TornDown(s.bridge) ==> s.acked || gaveUp)
  }

  lemma LoopAsks(s: State, act: BridgeAct, gaveUp: bool)
    requires AskInv(s, gaveUp) && s.bridge.InLoop?
    ensures AskInv(LoopNext(s, s.bridge.todo, act), gaveUp)
  {
  }

  lemma BridgeAsks(s: State, act: BridgeAct, gaveUp: bool)
    requires AskInv(s, gaveUp) && !s.bridge.InLoop? && (Reading(s.bridge) ==> s.acked)
    ensures AskInv(BridgeNext(s, act), gaveUp || GivesUp(s, BridgeStep(act)))
  {
  }

  lemma AskStep(s: State, c: Choice, gaveUp: bool)
    requires AskInv(s, gaveUp) && (Reading(s.bridge) ==> s.acked)
    ensures AskInv(Next(s, c), gaveUp || GivesUp(s, c))
  {
    match c
    case ChildStep(state, sram, accepted) => ChildKeepsTrying(s, state, sram, accepted);
    case BridgeStep(act) =>
      if s.bridge.InLoop? { LoopAsks(s, act, gaveUp); } else { BridgeAsks(s, act, gaveUp); }
    case ChildDies =>
  }

  lemma {:induction false} RunAsks(s0: State, schedule: seq<Choice>)
    requires Init(s0) && s0.hasRom
    ensures AskInv(Run(s0, schedule), GaveUp(s0, schedule))
  {
    if schedule != [] {
      var n := |schedule| - 1;
      RunAsks(s0, schedule[..n]);
      RunKeepsInv(s0, schedule[..n]);
      RunLast(s0, schedule);
      AskStep(Run(s0, schedule[..n]), schedule[n], GaveUp(s0, schedule[..n]));
      GaveUpStep(s0, schedule[..n], schedule[n]);
      assert schedule[..n] + [schedule[n]] == schedule;
    }
  }

  /** A bridge with a ROM that has ended did so without an acknowledged SRAM request if and
      only if it gave up on one: with the command still pending its deadline had passed, or
      the child was dead. */
  lemma UnacknowledgedIffGaveUp(s0: State, schedule: seq<Choice>)
    requires Init(s0) && s0.hasRom && Run(s0, schedule).bridge.Exited?
    ensures !Run(s0, schedule).acked <==> GaveUp(s0, schedule)
  {
    RunAsks(s0, schedule);
  }

  /** Every handler run of the schedule finds the core's SRAM to be this. */
  ghost predicate Reports(schedule: seq<Choice>, sram: Option<Bytes>) {
    forall i :: 0 <= i < |schedule| && schedule[i].ChildStep? ==> schedule[i].sram == sram
  }

  lemma LoopKeepsChild(s: State, todo: seq<LoopStore>, act: BridgeAct)
    ensures var s' := LoopNext(s, todo, act); s'.served == s.served && s'.child == s.child
  {
  }

  lemma BridgeKeepsChild(s: State, act: BridgeAct)
    ensures var s' := BridgeNext(s, act); s'.served == s.served && s'.child == s.child
  {
    if s.bridge.InLoop? {
      LoopKeepsChild(s, s.bridge.todo, act);
    }
  }

  lemma ServedGrows(s: State, c: Choice)
    ensures var s' := Next(s, c);
      s'.served == s.served || (c.ChildStep? && s'.served == s.served + [c.sram])
  {
    if c.BridgeStep? {
      BridgeKeepsChild(s, c.act);
    }
  }

  lemma {:induction false} ServedAreReported(s: State, schedule: seq<Choice>, sram: Option<Bytes>)
    requires Reports(schedule, sram) && forall i :: 0 <= i < |s.served| ==> s.served[i] == sram
    ensures forall i :: 0 <= i < |Run(s, schedule).served| ==> Run(s, schedule).served[i] == sram
    decreases |schedule|
  {
    if schedule != [] {
      ServedGrows(s, schedule[0]);
      ServedAreReported(Next(s, schedule[0]), schedule[1..], sram);
    }
  }

  // ── Undisturbed shutdown ───────────────────────────────────────────

  /** Neither a deadline nor a panic nor the death of the child. */
  predicate Smooth(c: Choice) {
    match c
    case ChildStep(_, _, _) => true
    case ChildDies => false
    case BridgeStep(act) => !act.Deadline? && !act.Panic?
  }

  ghost predicate Undisturbed(schedule: seq<Choice>) { forall i :: 0 <= i < |schedule| ==> Smooth(schedule[i]) }

  /** One undisturbed round, in any order: child and bridge both move. */
  ghost predicate Round(r: seq<Choice>) {
    && Undisturbed(r)
    && (exists i :: 0 <= i < |r| && r[i].ChildStep?)
    && (exists i :: 0 <= i < |r| && r[i].BridgeStep?)
  }

  ghost predicate AllRounds(rounds: seq<seq<Choice>>) { forall i :: 0 <= i < |rounds| ==> Round(rounds[i]) }

  function Flat(rounds: seq<seq<Choice>>): seq<Choice> {
    if rounds == [] then [] else rounds[0] + Flat(rounds[1..])
  }

  predicate FewStores(c: Child) { c.Handling? ==> |c.todo| <= 3 }

  /** Child steps until a pending command is cleared. */
  function Pending(c: Child): nat {
    match c
    case RunningFrame => 7
    case Polling => 6
    case Taken => 5
    case ReadingLen(_) => 3
    case Handling(todo) => |todo| + 1
  }

  predicate Waits(s: State) { (s.bridge.AwaitIdle? || s.bridge.AwaitAck?) && s.cmdReady }

  /** Bridge steps left, each with room for a wait. */
  function StepsLeft(b: Bridge): nat {
    match b
    case AwaitIdle => 14
    case ClearOk => 13
    case ClearLen => 12
    case StoreType => 11
    case Publish => 10
    case AwaitAck => 9
    case CheckOk => 8
    case CheckLen => 7
    case CopyData(_) => 6
    case Persist(_) => 5
    case Terminate => 4
    case UnlinkOut => 3
    case UnlinkIn => 2
    case Complete => 1
    case _ => 0
  }

  function Effort(s: State): nat { StepsLeft(s.bridge) * 8 + (if Waits(s) then Pending(s.child) else 0) }

  /** The bridge is shutting down, and the child lives as long as it is needed. */
  predicate ShuttingDown(s: State) {
    && !s.bridge.InLoop? && !s.bridge.Unwound? && FewStores(s.child)
    && (Unpublished(s.bridge) || s.bridge.AwaitAck? ==> s.alive)
  }

  lemma StoresAreFew(state: Bytes, sram: Option<Bytes>)
    ensures |StateStores(state)| <= 3 && |SramStores(sram)| <= 3
  {
  }

  lemma ChildKeepsFewStores(s: State, state: Bytes, sram: Option<Bytes>, accepted: bool)
    requires FewStores(s.child)
    ensures FewStores(ChildNext(s, state, sram, accepted).child)
  {
    StoresAreFew(state, sram);
  }

  lemma ChildServes(s: State, state: Bytes, sram: Option<Bytes>, accepted: bool)
    requires FewStores(s.child)
    ensures var s' := ChildNext(s, state, sram, accepted);
      s'.cmdReady ==> s.cmdReady && Pending(s'.child) < Pending(s.child)
  {
    if s.child.Taken? {
      StoresAreFew(state, sram);
    }
  }

  lemma ChildHelps(s: State, c: Choice)
    requires ShuttingDown(s) && c.ChildStep?
    ensures var s' := Next(s, c);
      && ShuttingDown(s') && s'.bridge == s.bridge && Effort(s') <= Effort(s)
      && (if Waits(s) then Effort(s') < Effort(s) else !Waits(s'))
  {
    PendingIsShort(s.child);
    if s.alive {
      ChildKeepsFewStores(s, c.state, c.sram, c.accepted);
      ChildServes(s, c.state, c.sram, c.accepted);
      ChildKeepsTrying(s, c.state, c.sram, c.accepted);
    }
  }

  lemma PendingIsShort(c: Child)
    requires FewStores(c)
    ensures 0 < Pending(c) < 8
  {
  }

  ghost predicate Advanced(s: State, s': State) {
    ShuttingDown(s') && s'.child == s.child && StepsLeft(s'.bridge) < StepsLeft(s.bridge)
  }

  lemma RequestAdvances(s: State)
    requires ShuttingDown(s) && !Waits(s) && (Unpublished(s.bridge) || s.bridge.AwaitAck?)
    ensures Advanced(s, BridgeNext(s, Proceed))
  {
  }

  lemma ReplyAdvances(s: State)
    requires ShuttingDown(s) && Reading(s.bridge)
    ensures Advanced(s, BridgeNext(s, Proceed))
  {
  }

  lemma TeardownAdvances(s: State)
    requires ShuttingDown(s) && (s.bridge.Terminate? || TornDown(s.bridge)) && !s.bridge.Exited?
    ensures Advanced(s, BridgeNext(s, Proceed))
  {
  }

  lemma BridgeAdvances(s: State)
    requires ShuttingDown(s) && !Waits(s) && !s.bridge.Exited?
    ensures Advanced(s, Next(s, BridgeStep(Proceed)))
  {
    if Unpublished(s.bridge) || s.bridge.AwaitAck? {
      RequestAdvances(s);
    } else if Reading(s.bridge) {
      ReplyAdvances(s);
    } else {
      TeardownAdvances(s);
    }
  }

  /** Outside its loop the bridge takes no orders. */
  lemma SmoothIsProceed(s: State, act: BridgeAct)
    requires !s.bridge.InLoop? && Smooth(BridgeStep(act))
    ensures BridgeNext(s, act) == BridgeNext(s, Proceed)
  {
  }

  lemma BridgeHelps(s: State, act: BridgeAct)
    requires ShuttingDown(s) && Smooth(BridgeStep(act))
    ensures var s' := Next(s, BridgeStep(act));
      && ShuttingDown(s') && Effort(s') <= Effort(s)
      && (if Waits(s) || s.bridge.Exited? then s' == s else Effort(s') < Effort(s))
  {
    SmoothIsProceed(s, act);
    PendingIsShort(s.child);
    if !Waits(s) && !s.bridge.Exited? {
      BridgeAdvances(s);
    }
  }

  /** The next step towards the end is the child's if the bridge waits, otherwise the bridge's. */
  predicate Moves(s: State, c: Choice) { if Waits(s) then c.ChildStep? else c.BridgeStep? }

  lemma StepHelps(s: State, c: Choice)
    requires ShuttingDown(s) && Smooth(c)
    ensures var s' := Next(s, c);
      && ShuttingDown(s') && Effort(s') <= Effort(s)
      && (Moves(s, c) && !s.bridge.Exited? ==> Effort(s') < Effort(s))
      && (!Moves(s, c) ==> s'.bridge == s.bridge && Waits(s') == Waits(s))
  {
    if c.ChildStep? {
      ChildHelps(s, c);
    } else {
      BridgeHelps(s, c.act);
    }
  }

  lemma {:induction false} RunHelps(s: State, schedule: seq<Choice>)
    requires ShuttingDown(s) && Undisturbed(schedule)
    ensures var s' := Run(s, schedule);
      && ShuttingDown(s') && Effort(s') <= Effort(s)
      && (!s.bridge.Exited? && (exists i :: 0 <= i < |schedule| && Moves(s, schedule[i])) ==> Effort(s') < Effort(s))
    decreases |schedule|
  {
    if schedule != [] {
      var s1 := Next(s, schedule[0]);
      StepHelps(s, schedule[0]);
      RunHelps(s1, schedule[1..]);
      if !Moves(s, schedule[0]) {
        assert forall i :: 1 <= i < |schedule| ==> schedule[i] == schedule[1..][i - 1];
      }
    }
  }

  lemma RoundHelps(s: State, r: seq<Choice>)
    requires ShuttingDown(s) && Round(r)
    ensures var s' := Run(s, r);
      ShuttingDown(s') && Effort(s') <= Effort(s) && (s.bridge.Exited? || Effort(s') < Effort(s))
  {
    var i :| 0 <= i < |r| && r[i].ChildStep?;
    var j :| 0 <= j < |r| && r[j].BridgeStep?;
    assert Moves(s, r[if Waits(s) then i else j]);
    RunHelps(s, r);
  }

  lemma {:induction false} ShutdownFinishes(s: State, rounds: seq<seq<Choice>>)
    requires ShuttingDown(s) && AllRounds(rounds) && |rounds| >= Effort(s)
    ensures Run(s, Flat(rounds)).bridge.Exited?
    decreases |rounds|
  {
    if rounds == [] {
      assert StepsLeft(s.bridge) == 0;
    } else {
      RoundHelps(s, rounds[0]);
      RunConcat(s, rounds[0], Flat(rounds[1..]));
      if s.bridge.Exited? {
        ExitedStays(s, Flat(rounds));
      } else {
        ShutdownFinishes(Run(s, rounds[0]), rounds[1..]);
      }
    }
  }

  lemma {:induction false} ExitedStays(s: State, schedule: seq<Choice>)
    requires s.bridge.Exited?
    ensures Run(s, schedule).bridge.Exited?
    decreases |schedule|
  {
    if schedule != [] {
      ExitedStays(Next(s, schedule[0]), schedule[1..]);
    }
  }

  lemma NextKeepsFewStores(s: State, c: Choice)
    requires FewStores(s.child)
    ensures FewStores(Next(s, c).child)
  {
    match c
    case ChildStep(state, sram, accepted) => ChildKeepsFewStores(s, state, sram, accepted);
    case BridgeStep(act) => BridgeKeepsChild(s, act);
    case ChildDies =>
  }

  lemma {:induction false} StoresStayFew(s: State, schedule: seq<Choice>)
    requires FewStores(s.child)
    ensures FewStores(Run(s, schedule).child)
    decreases |schedule|
  {
    if schedule != [] {
      NextKeepsFewStores(s, schedule[0]);
      StoresStayFew(Next(s, schedule[0]), schedule[1..]);
    }
  }

  lemma {:induction false} RoundsAreUndisturbed(rounds: seq<seq<Choice>>)
    requires AllRounds(rounds)
    ensures Undisturbed(Flat(rounds))
  {
    if rounds != [] {
      RoundsAreUndisturbed(rounds[1..]);
      assert Round(rounds[0]);
    }
  }

  /** A request on a living child is not given up. */
  predicate Trying(s: State) {
    && (Unpublished(s.bridge) || s.bridge.AwaitAck? ==> s.alive) && !s.bridge.InLoop? && !s.bridge.Unwound?
    && (s.bridge.Terminate? || TornDown(s.bridge) || Reading(s.bridge) ==> s.acked)
  }

  lemma ChildKeepsTrying(s: State, state: Bytes, sram: Option<Bytes>, accepted: bool)
    ensures var s' := ChildNext(s, state, sram, accepted);
      s'.bridge == s.bridge && s'.alive == s.alive && s'.acked == s.acked && s'.hasRom == s.hasRom
  {
  }

  lemma TryStep(s: State, c: Choice)
    requires Trying(s) && Smooth(c)
    ensures Trying(Next(s, c))
  {
    if c.ChildStep? {
      ChildKeepsTrying(s, c.state, c.sram, c.accepted);
    } else {
      SmoothIsProceed(s, c.act);
    }
  }

  lemma {:induction false} TryRun(s: State, schedule: seq<Choice>)
    requires Trying(s) && Undisturbed(schedule)
    ensures Trying(Run(s, schedule))
    decreases |schedule|
  {
    if schedule != [] {
      TryStep(s, schedule[0]);
      TryRun(Next(s, schedule[0]), schedule[1..]);
    }
  }

  /** The bridge leaves its loop: told to between two commands, or by a panic in it. */
  predicate Leaves(s: State, act: BridgeAct) {
    s.bridge.InLoop? && (act.Panic? || (act.LeaveLoop? && s.bridge.todo == []))
  }

  lemma ChildKeepsRom(s: State, state: Bytes, sram: Option<Bytes>, accepted: bool)
    ensures ChildNext(s, state, sram, accepted).hasRom == s.hasRom
  {
  }

  lemma LoopKeepsRom(s: State, todo: seq<LoopStore>, act: BridgeAct)
    ensures LoopNext(s, todo, act).hasRom == s.hasRom
  {
  }

  lemma StepKeepsRom(s: State, c: Choice)
    ensures Next(s, c).hasRom == s.hasRom
  {
    match c
    case ChildStep(state, sram, accepted) => ChildKeepsRom(s, state, sram, accepted);
    case ChildDies =>
    case BridgeStep(act) =>
      if s.bridge.InLoop? {
        LoopKeepsRom(s, s.bridge.todo, act);
      }
  }

  lemma {:induction false} HasRomStays(s: State, schedule: seq<Choice>)
    ensures Run(s, schedule).hasRom == s.hasRom
    decreases |schedule|
  {
    if schedule != [] {
      StepKeepsRom(s, schedule[0]);
      HasRomStays(Next(s, schedule[0]), schedule[1..]);
    }
  }

  lemma LeavingStarts(s0: State, past: seq<Choice>, act: BridgeAct)
    requires Init(s0) && s0.hasRom && Leaves(Run(s0, past), act) && Run(s0, past).alive
    ensures var s := Run(s0, past + [BridgeStep(act)]);
      s.bridge == AwaitIdle && s.alive && s.served == [] && !s.acked && FewStores(s.child)
  {
    var leave := past + [BridgeStep(act)];
    assert leave[..|past|] == past;
    RunLast(s0, leave);
    StoresStayFew(s0, leave);
    RunKeepsInv(s0, past);
    HasRomStays(s0, past);
  }

  /** The bridge of a ROM that left its loop, by a cancel, a crash report or a panic, with a
      living child, and has ended with no deadline, panic or death meanwhile: it fetched the
      core's SRAM once and saved it, whatever was in the mailbox. */
  lemma UndisturbedShutdownSaves(s0: State, past: seq<Choice>, act: BridgeAct, future: seq<Choice>, sram: Option<Bytes>)
    requires Init(s0) && s0.hasRom
    requires Leaves(Run(s0, past), act) && Run(s0, past).alive
    requires Undisturbed(future) && Reports(future, sram)
    ensures var s := Run(s0, past + [BridgeStep(act)] + future);
      s.bridge.Exited? ==>
        && s.served == [sram]
        && s.log == (if SnapshotOf(sram) != [] then [Persisted(SnapshotOf(sram))] else [])
                    + [Terminated, UnlinkedOut, UnlinkedIn, Stopped]
  {
    var leave := past + [BridgeStep(act)];
    var s1 := Run(s0, leave);
    LeavingStarts(s0, past, act);
    RunConcat(s0, leave, future);
    TryRun(s1, future);
    ServedAreReported(s1, future, sram);
    if Run(s0, leave + future).bridge.Exited? {
      FinishedLog(s0, leave + future);
    }
  }

  /** And it does end, after at most 120 rounds in which child and bridge both move. */
  lemma UndisturbedShutdownEnds(s0: State, past: seq<Choice>, act: BridgeAct, rounds: seq<seq<Choice>>)
    requires Init(s0) && s0.hasRom
    requires Leaves(Run(s0, past), act) && Run(s0, past).alive
    requires AllRounds(rounds) && |rounds| >= 120
    ensures Run(s0, past + [BridgeStep(act)] + Flat(rounds)).bridge.Exited?
    ensures Undisturbed(Flat(rounds))
  {
    var leave := past + [BridgeStep(act)];
    LeavingStarts(s0, past, act);
    PendingIsShort(Run(s0, leave).child);
    RunConcat(s0, leave, Flat(rounds));
    ShutdownFinishes(Run(s0, leave), rounds);
    RoundsAreUndisturbed(rounds);
  }
}
