/**
 The save stack: numbered state files plus a metadata file that lists them, on a disk
 where every step of a write may fail.
 */
module Saves {
  import opened Base
  import opened SavePaths

  datatype Entry = Entry(index: nat, timestamp: string, size: nat)

  datatype Stack = Stack(next: nat, entries: seq<Entry>)

  /** The JSON library, kept abstract. */
  datatype Json = Json(encode: Stack -> Bytes, decode: Bytes -> Option<Stack>)

  ghost predicate Faithful(json: Json) { forall s :: json.decode(json.encode(s)) == Some(s) }

  datatype Result<+T> = Ok(value: T) | Err

  type Files = map<string, Bytes>

  /** How far one atomic write gets; a crash during the write is the same as an error there. */
  datatype Fault =
    | Works
    | CannotCreate
    | Cut(partial: Bytes)   // the temporary file was written in part
    | CannotCommit          // written in full, then fsync or rename failed

  /** What the disk does during one push. */
  datatype Disk = Disk(readFails: bool, state: Fault, meta: Fault)

  const FRESH := Stack(1, [])

  function Written(files: Files, path: string, data: Bytes, fault: Fault): Files {
    match fault
    case Works => (files - {WithTmp(path)})[path := data]
    case CannotCreate => files
    case Cut(partial) => files[WithTmp(path) := partial]
    case CannotCommit => files[WithTmp(path) := data]
  }

  ghost predicate SameAt(a: Files, b: Files, path: string) {
    (path in a <==> path in b) && (path in a ==> a[path] == b[path])
  }

  /** A failed write leaves its target as it was exactly when the target is not its own
      temporary file. */
  lemma FailedWriteKeepsTargetIff(path: string)
    ensures (forall files, data, fault :: fault != Works ==> SameAt(files, Written(files, path, data, fault), path))
      <==> WithTmp(path) != path
  {
    if WithTmp(path) == path {
      assert !SameAt(map[], Written(map[], path, [], CannotCommit), path);
    }
  }

  function Pushed(stack: Stack, size: nat, time: string): Stack {
    Stack(stack.next + 1, stack.entries + [Entry(stack.next, time, size)])
  }

  function Listed(files: Files, root: string, json: Json, slot: Slot, readFails: bool): Result<Stack> {
    var path := PathOf(root, slot, StackFile);
    if path !in files then Ok(FRESH)
    else if readFails then Err
    else
      var stack := json.decode(files[path]);
      if stack.Some? then Ok(stack.value) else Err
  }

  function Loaded(files: Files, root: string, slot: Slot, index: nat): Result<Bytes> {
    var path := PathOf(root, slot, StateFile(index));
    if path in files then Ok(files[path]) else Err
  }

  function Latest(files: Files, root: string, json: Json, slot: Slot): Result<Option<(nat, Bytes)>> {
    var stack := Listed(files, root, json, slot, false);
    if stack.Err? then Err
    else if stack.value.entries == [] then Ok(None)
    else
      var index := stack.value.entries[|stack.value.entries| - 1].index;
      var data := Loaded(files, root, slot, index);
      if data.Err? then Err else Ok(Some((index, data.value)))
  }

  function PushFiles(files: Files, root: string, json: Json, slot: Slot, data: Bytes, time: string, disk: Disk): Files {
    var stack := Listed(files, root, json, slot, disk.readFails);
    if stack.Err? then files
    else
      var more := Written(files, PathOf(root, slot, StateFile(stack.value.next)), data, disk.state);
      if disk.state != Works then more
      else Written(more, PathOf(root, slot, StackFile), json.encode(Pushed(stack.value, |data|, time)), disk.meta)
  }

  function PushAnswer(files: Files, root: string, json: Json, slot: Slot, disk: Disk): Result<nat> {
    var stack := Listed(files, root, json, slot, disk.readFails);
    if stack.Ok? && disk.state == Works && disk.meta == Works then Ok(stack.value.next) else Err
  }

  class SaveStack {
    var nextIndex: nat
    var entries: seq<Entry>

    constructor (stack: Stack)
      ensures nextIndex == stack.next && entries == stack.entries
    {
      nextIndex, entries := stack.next, stack.entries;
    }

    method Push(size: nat, now: string) returns (index: nat)
      modifies this
      ensures index == old(nextIndex)
      ensures Stack(nextIndex, entries) == Pushed(old(Stack(nextIndex, entries)), size, now)
    {
      index := nextIndex;
      entries := entries + [Entry(index, now, size)];
      nextIndex := nextIndex + 1;
    }
  }

  class SaveDir {
    const root: string
    const json: Json
    var files: Files

    constructor (root: string, json: Json)
      ensures this.root == root && this.json == json && files == map[]
    {
      this.root, this.json, files := root, json, map[];
    }

    method WriteAtomic(path: string, data: Bytes, fault: Fault) returns (ok: bool)
      modifies this
      ensures ok <==> fault == Works
      ensures files == Written(old(files), path, data, fault)
      ensures ok ==> path in files && files[path] == data
      ensures forall p :: p != WithTmp(path) && (!ok || p != path) ==> SameAt(old(files), files, p)
    {
      var tmp := WithTmp(path);
      if fault == CannotCreate { return false; }
      if fault.Cut? {
        files := files[tmp := fault.partial];
        return false;
      }
      files := files[tmp := data];
      if fault == CannotCommit { return false; }
      var contents := files[tmp];
      files := (files - {tmp})[path := contents];
      return true;
    }

    method ReadStack(slot: Slot, readFails: bool) returns (r: Result<Stack>)
      ensures r == Listed(files, root, json, slot, readFails)
    {
      var path := PathOf(root, slot, StackFile);
      if path !in files { return Ok(FRESH); }
      if readFails { return Err; }
      var stack := json.decode(files[path]);
      return if stack.Some? then Ok(stack.value) else Err;
    }

    method Push(slot: Slot, data: Bytes, now: string, disk: Disk) returns (r: Result<nat>)
      modifies this
      ensures files == PushFiles(old(files), root, json, slot, data, now, disk)
      ensures r == PushAnswer(old(files), root, json, slot, disk)
    {
      var read := ReadStack(slot, disk.readFails);
      if read.Err? { return Err; }
      var stack := new SaveStack(read.value);
      var index := stack.Push(|data|, now);
      var ok := WriteAtomic(PathOf(root, slot, StateFile(index)), data, disk.state);
      if !ok { return Err; }
      ok := WriteAtomic(PathOf(root, slot, StackFile), json.encode(Stack(stack.nextIndex, stack.entries)), disk.meta);
      if !ok { return Err; }
      return Ok(index);
    }

    method LoadLatest(slot: Slot) returns (r: Result<Option<(nat, Bytes)>>)
      ensures r == Latest(files, root, json, slot)
    {
      var read := ReadStack(slot, false);
      if read.Err? { return Err; }
      if read.value.entries == [] { return Ok(None); }
      var index := read.value.entries[|read.value.entries| - 1].index;
      var path := PathOf(root, slot, StateFile(index));
      if path !in files { return Err; }
      return Ok(Some((index, files[path])));
    }
  }

  /** A stack file that cannot be decoded is reported to every reader and never overwritten:
      a push that finds it changes nothing. */
  lemma MalformedStackIsKept(files: Files, root: string, json: Json, slot: Slot, data: Bytes, time: string, disk: Disk)
    requires var path := PathOf(root, slot, StackFile); path in files && json.decode(files[path]).None?
    ensures Listed(files, root, json, slot, disk.readFails) == Err && Latest(files, root, json, slot) == Err
    ensures PushAnswer(files, root, json, slot, disk) == Err
    ensures PushFiles(files, root, json, slot, data, time, disk) == files
  {
  }

  // ── Runs ───────────────────────────────────────────────────────────

  datatype Op = Push(slot: Slot, data: Bytes, time: string, disk: Disk)

  function After(root: string, json: Json, ops: seq<Op>): Files {
    if ops == [] then map[]
    else
      var n := |ops| - 1;
      var op := ops[n];
      PushFiles(After(root, json, ops[..n]), root, json, op.slot, op.data, op.time, op.disk)
  }

  /** The result of the k-th push of a run. */
  function Answer(root: string, json: Json, ops: seq<Op>, k: nat): Result<nat>
    requires k < |ops|
  {
    PushAnswer(After(root, json, ops[..k]), root, json, ops[k].slot, ops[k].disk)
  }

  ghost predicate ProperRun(ops: seq<Op>) { forall i :: 0 <= i < |ops| ==> Proper(ops[i].slot) }

  datatype Save = Save(data: Bytes, time: string)

  /** Two pushes to one slot: the directory, the codec, the slot, and what each saves. */
  datatype Setting = Setting(root: string, json: Json, slot: Slot, x: Save, y: Save)

  /** The reference: a slot is the list of its pushes whose disk kept working. */
  function Log(ops: seq<Op>, slot: Slot): seq<Save> {
    if ops == [] then []
    else
      var n := |ops| - 1;
      var log := Log(ops[..n], slot);
      if ops[n].slot == slot && Succeeds(ops[n], log) then log + [Save(ops[n].data, ops[n].time)] else log
  }

  /** With nothing saved yet there is no metadata file whose read could fail. */
  predicate Succeeds(op: Op, log: seq<Save>) {
    op.disk.state == Works && op.disk.meta == Works && (op.disk.readFails ==> log == [])
  }

  function StackOf(log: seq<Save>): Stack {
    Stack(|log| + 1, seq(|log|, i requires 0 <= i < |log| => Entry(i + 1, log[i].time, |log[i].data|)))
  }

  ghost predicate Stores(files: Files, root: string, json: Json, slot: Slot, log: seq<Save>) {
    && Listed(files, root, json, slot, false) == Ok(StackOf(log))
    && (PathOf(root, slot, StackFile) in files <==> log != [])
    && forall i :: 0 <= i < |log| ==> Loaded(files, root, slot, i + 1) == Ok(log[i].data)
  }

  /** One write changes no file of any slot but the one it names, and that one all at once. */
  lemma WriteIsAtomic(files: Files, root: string, slot: Slot, item: Item, data: Bytes, fault: Fault, slot': Slot, item': Item)
    requires Proper(slot) && Proper(slot')
    ensures var path := PathOf(root, slot', item');
      var after := Written(files, PathOf(root, slot, item), data, fault);
      if slot' == slot && item' == item && fault == Works then path in after && after[path] == data
      else SameAt(files, after, path)
  {
    PathsAreDistinct(root, slot', item', slot, item);
  }

  /** Two disks with the same files in a slot. */
  ghost predicate SlotAlike(a: Files, b: Files, root: string, slot: Slot) {
    forall item :: SameAt(a, b, PathOf(root, slot, item))
  }

  lemma OtherSlotUntouched(files: Files, root: string, json: Json, op: Op, slot: Slot)
    requires Proper(op.slot) && Proper(slot) && slot != op.slot
    ensures SlotAlike(files, PushFiles(files, root, json, op.slot, op.data, op.time, op.disk), root, slot)
  {
    var stack := Listed(files, root, json, op.slot, op.disk.readFails);
    if stack.Ok? {
      var next := StateFile(stack.value.next);
      var more := Written(files, PathOf(root, op.slot, next), op.data, op.disk.state);
      var meta := json.encode(Pushed(stack.value, |op.data|, op.time));
      forall item ensures SameAt(files, more, PathOf(root, slot, item)) {
        WriteIsAtomic(files, root, op.slot, next, op.data, op.disk.state, slot, item);
      }
      forall item ensures SameAt(more, Written(more, PathOf(root, op.slot, StackFile), meta, op.disk.meta), PathOf(root, slot, item)) {
        WriteIsAtomic(more, root, op.slot, StackFile, meta, op.disk.meta, slot, item);
      }
    }
  }

  lemma AlikeStores(a: Files, b: Files, root: string, json: Json, slot: Slot, log: seq<Save>)
    requires SlotAlike(a, b, root, slot) && Stores(a, root, json, slot, log)
    ensures Stores(b, root, json, slot, log)
  {
    assert SameAt(a, b, PathOf(root, slot, StackFile));
    forall i | 0 <= i < |log| ensures Loaded(b, root, slot, i + 1) == Ok(log[i].data) {
      assert Loaded(a, root, slot, i + 1) == Ok(log[i].data);
      assert SameAt(a, b, PathOf(root, slot, StateFile(i + 1)));
    }
  }

  lemma StoresIf(files: Files, root: string, json: Json, slot: Slot, log: seq<Save>)
    requires Listed(files, root, json, slot, false) == Ok(StackOf(log))
    requires PathOf(root, slot, StackFile) in files <==> log != []
    requires forall i :: 0 <= i < |log| ==> Loaded(files, root, slot, i + 1) == Ok(log[i].data)
    ensures Stores(files, root, json, slot, log)
  {
  }

  /** Writing the next state file, whatever becomes of it, leaves the list and its states alone. */
  lemma StateWriteKeeps(files: Files, root: string, json: Json, slot: Slot, log: seq<Save>, data: Bytes, fault: Fault)
    requires Proper(slot) && Stores(files, root, json, slot, log)
    ensures var next := PathOf(root, slot, StateFile(|log| + 1));
      var after := Written(files, next, data, fault);
      Stores(after, root, json, slot, log) && (fault == Works ==> next in after && after[next] == data)
  {
    var next := StateFile(|log| + 1);
    var after := Written(files, PathOf(root, slot, next), data, fault);
    WriteIsAtomic(files, root, slot, next, data, fault, slot, next);
    WriteIsAtomic(files, root, slot, next, data, fault, slot, StackFile);
    forall i | 0 <= i < |log| ensures Loaded(after, root, slot, i + 1) == Ok(log[i].data) {
      WriteIsAtomic(files, root, slot, next, data, fault, slot, StateFile(i + 1));
      assert Loaded(files, root, slot, i + 1) == Ok(log[i].data);
    }
  }

  lemma MetaWriteKeepsStates(files: Files, root: string, slot: Slot, meta: Bytes, fault: Fault, n: nat)
    requires Proper(slot)
    ensures var after := Written(files, PathOf(root, slot, StackFile), meta, fault);
      Loaded(after, root, slot, n) == Loaded(files, root, slot, n)
  {
    WriteIsAtomic(files, root, slot, StackFile, meta, fault, slot, StateFile(n));
  }

  lemma MetaWriteLists(files: Files, root: string, json: Json, slot: Slot, stack: Stack, fault: Fault)
    requires Faithful(json) && Proper(slot)
    ensures var path := PathOf(root, slot, StackFile);
      var after := Written(files, path, json.encode(stack), fault);
      && (fault == Works ==> path in after && Listed(after, root, json, slot, false) == Ok(stack))
      && (fault != Works ==>
            && (path in after <==> path in files)
            && Listed(after, root, json, slot, false) == Listed(files, root, json, slot, false))
  {
    WriteIsAtomic(files, root, slot, StackFile, json.encode(stack), fault, slot, StackFile);
  }

  lemma MetaWriteKeepsLog(files: Files, root: string, json: Json, slot: Slot, log: seq<Save>, meta: Bytes, fault: Fault, i: nat)
    requires Proper(slot) && Stores(files, root, json, slot, log) && i < |log|
    ensures Loaded(Written(files, PathOf(root, slot, StackFile), meta, fault), root, slot, i + 1) == Ok(log[i].data)
  {
    MetaWriteKeepsStates(files, root, slot, meta, fault, i + 1);
  }

  /** Writing the metadata file commits the push if it works and changes nothing if it does not. */
  lemma MetaWriteCommits(files: Files, root: string, json: Json, slot: Slot, log: seq<Save>, save: Save, fault: Fault)
    requires Faithful(json) && Proper(slot) && Stores(files, root, json, slot, log)
    requires Loaded(files, root, slot, |log| + 1) == Ok(save.data)
    ensures var after := Written(files, PathOf(root, slot, StackFile), json.encode(StackOf(log + [save])), fault);
      Stores(after, root, json, slot, if fault == Works then log + [save] else log)
  {
    var meta := json.encode(StackOf(log + [save]));
    MetaWriteLists(files, root, json, slot, StackOf(log + [save]), fault);
    MetaWriteKeepsStates(files, root, slot, meta, fault, |log| + 1);
    forall i | 0 <= i < |log|
      ensures Loaded(Written(files, PathOf(root, slot, StackFile), meta, fault), root, slot, i + 1) == Ok(log[i].data)
    {
      MetaWriteKeepsLog(files, root, json, slot, log, meta, fault, i);
    }
    StoresIf(Written(files, PathOf(root, slot, StackFile), meta, fault), root, json, slot,
             if fault == Works then log + [save] else log);
  }

  lemma PushWrites(files: Files, root: string, json: Json, op: Op, stack: Stack)
    requires Listed(files, root, json, op.slot, op.disk.readFails) == Ok(stack)
    ensures var more := Written(files, PathOf(root, op.slot, StateFile(stack.next)), op.data, op.disk.state);
      PushFiles(files, root, json, op.slot, op.data, op.time, op.disk) ==
        if op.disk.state != Works then more
        else Written(more, PathOf(root, op.slot, StackFile), json.encode(Pushed(stack, |op.data|, op.time)), op.disk.meta)
  {
  }

  lemma PushedIsStackOf(log: seq<Save>, save: Save)
    ensures Pushed(StackOf(log), |save.data|, save.time) == StackOf(log + [save])
  {
  }

  /** A push whose read went through. */
  lemma PushOnStack(files: Files, root: string, json: Json, op: Op, log: seq<Save>)
    requires Faithful(json) && Proper(op.slot) && Stores(files, root, json, op.slot, log)
    requires Listed(files, root, json, op.slot, op.disk.readFails) == Ok(StackOf(log))
    ensures var log' := if op.disk.state == Works && op.disk.meta == Works then log + [Save(op.data, op.time)] else log;
      Stores(PushFiles(files, root, json, op.slot, op.data, op.time, op.disk), root, json, op.slot, log')
  {
    var slot, save, stack := op.slot, Save(op.data, op.time), StackOf(log);
    var more := Written(files, PathOf(root, slot, StateFile(stack.next)), op.data, op.disk.state);
    PushWrites(files, root, json, op, stack);
    StateWriteKeeps(files, root, json, slot, log, op.data, op.disk.state);
    if op.disk.state == Works {
      PushedIsStackOf(log, save);
      MetaWriteCommits(more, root, json, slot, log, save, op.disk.meta);
    }
  }

  lemma PushExtendsLog(files: Files, root: string, json: Json, op: Op, log: seq<Save>)
    requires Faithful(json) && Proper(op.slot) && Stores(files, root, json, op.slot, log)
    ensures var log' := if Succeeds(op, log) then log + [Save(op.data, op.time)] else log;
      Stores(PushFiles(files, root, json, op.slot, op.data, op.time, op.disk), root, json, op.slot, log')
  {
    ReadOf(files, root, json, op.slot, op.disk.readFails, log);
    if !op.disk.readFails || log == [] {
      PushOnStack(files, root, json, op, log);
    }
  }

  lemma ReadOf(files: Files, root: string, json: Json, slot: Slot, readFails: bool, log: seq<Save>)
    requires Stores(files, root, json, slot, log)
    ensures Listed(files, root, json, slot, readFails) == if readFails && log != [] then Err else Ok(StackOf(log))
  {
  }

  lemma {:induction false} RunStores(root: string, json: Json, ops: seq<Op>, slot: Slot)
    requires Faithful(json) && ProperRun(ops) && Proper(slot)
    ensures Stores(After(root, json, ops), root, json, slot, Log(ops, slot))
  {
    if ops == [] {
      assert StackOf([]) == FRESH;
    } else {
      var n := |ops| - 1;
      RunStores(root, json, ops[..n], slot);
      var files := After(root, json, ops[..n]);
      if ops[n].slot == slot {
        PushExtendsLog(files, root, json, ops[n], Log(ops[..n], slot));
      } else {
        OtherSlotUntouched(files, root, json, ops[n], slot);
        AlikeStores(files, After(root, json, ops), root, json, slot, Log(ops[..n], slot));
      }
    }
  }

  lemma LatestEntry(files: Files, root: string, json: Json, slot: Slot, stack: Stack, data: Bytes)
    requires Listed(files, root, json, slot, false) == Ok(stack) && stack.entries != []
    requires Loaded(files, root, slot, stack.entries[|stack.entries| - 1].index) == Ok(data)
    ensures Latest(files, root, json, slot) == Ok(Some((stack.entries[|stack.entries| - 1].index, data)))
  {
  }

  lemma LastOfStack(log: seq<Save>)
    requires log != []
    ensures |StackOf(log).entries| == |log| && StackOf(log).entries[|log| - 1].index == |log|
  {
  }

  lemma LatestIsLast(files: Files, root: string, json: Json, slot: Slot, log: seq<Save>)
    requires Stores(files, root, json, slot, log)
    ensures Latest(files, root, json, slot) == Ok(if log == [] then None else Some((|log|, log[|log| - 1].data)))
  {
    if log != [] {
      var k := |log| - 1;
      LastOfStack(log);
      assert Loaded(files, root, slot, k + 1) == Ok(log[k].data);
      LatestEntry(files, root, json, slot, StackOf(log), log[k].data);
    }
  }

  /** After any run of pushes, failing anywhere, by any accounts: the list shows exactly the
      successful pushes of this slot, indices 1, 2, ... below `next`; each listed index loads
      the bytes pushed under it; and the latest load is the last successful push. */
  lemma StackIsTheLog(root: string, json: Json, ops: seq<Op>, slot: Slot)
    requires Faithful(json) && ProperRun(ops) && Proper(slot)
    ensures var files, log := After(root, json, ops), Log(ops, slot);
      && Listed(files, root, json, slot, false) == Ok(StackOf(log))
      && (forall i :: 0 <= i < |log| ==> Loaded(files, root, slot, i + 1) == Ok(log[i].data))
      && Latest(files, root, json, slot) == Ok(if log == [] then None else Some((|log|, log[|log| - 1].data)))
  {
    RunStores(root, json, ops, slot);
    LatestIsLast(After(root, json, ops), root, json, slot, Log(ops, slot));
  }

  lemma {:induction false} LogGrows(ops: seq<Op>, k: nat, slot: Slot)
    requires k <= |ops|
    ensures Log(ops[..k], slot) <= Log(ops, slot)
  {
    if k == |ops| {
      assert ops[..k] == ops;
    } else {
      var n := |ops| - 1;
      assert ops[..n][..k] == ops[..k];
      LogGrows(ops[..n], k, slot);
    }
  }

  lemma LogStep(ops: seq<Op>, k: nat)
    requires k < |ops|
    ensures var log := Log(ops[..k], ops[k].slot);
      Log(ops[..k + 1], ops[k].slot) == if Succeeds(ops[k], log) then log + [Save(ops[k].data, ops[k].time)] else log
  {
    assert ops[..k + 1][..k] == ops[..k];
  }

  lemma PushReturns(files: Files, root: string, json: Json, op: Op, log: seq<Save>)
    requires Stores(files, root, json, op.slot, log)
    ensures PushAnswer(files, root, json, op.slot, op.disk) == if Succeeds(op, log) then Ok(|log| + 1) else Err
  {
    ReadOf(files, root, json, op.slot, op.disk.readFails, log);
  }

  lemma LogLength(ops: seq<Op>, k: nat)
    requires k < |ops| && Succeeds(ops[k], Log(ops[..k], ops[k].slot))
    ensures |Log(ops[..k + 1], ops[k].slot)| == |Log(ops[..k], ops[k].slot)| + 1
  {
    LogStep(ops, k);
  }

  /** A push succeeds exactly when the disk works for it, and returns the length its slot's
      log then has. */
  lemma PushAnswers(root: string, json: Json, ops: seq<Op>, k: nat)
    requires Faithful(json) && ProperRun(ops) && k < |ops|
    ensures Answer(root, json, ops, k) ==
      if Succeeds(ops[k], Log(ops[..k], ops[k].slot)) then Ok(|Log(ops[..k + 1], ops[k].slot)|) else Err
  {
    var files, log := After(root, json, ops[..k]), Log(ops[..k], ops[k].slot);
    RunStores(root, json, ops[..k], ops[k].slot);
    PushReturns(files, root, json, ops[k], log);
    if Succeeds(ops[k], log) {
      LogLength(ops, k);
    }
  }

  /** Indices strictly increase: a later successful push of the slot returns a larger one. */
  lemma LaterIndexIsLarger(root: string, json: Json, ops: seq<Op>, k: nat, j: nat)
    requires Faithful(json) && ProperRun(ops) && k < j < |ops| && ops[j].slot == ops[k].slot
    requires Answer(root, json, ops, k).Ok? && Answer(root, json, ops, j).Ok?
    ensures Answer(root, json, ops, k).value < Answer(root, json, ops, j).value
  {
    PushAnswers(root, json, ops, k);
    PushAnswers(root, json, ops, j);
    LogStep(ops, j);
    assert ops[..j][..k + 1] == ops[..k + 1];
    LogGrows(ops[..j], k + 1, ops[k].slot);
  }

  /** An index that a push returned loads that push's bytes at any later time. */
  lemma ReturnedIndexIsPermanent(root: string, json: Json, ops: seq<Op>, k: nat)
    requires Faithful(json) && ProperRun(ops) && k < |ops| && Answer(root, json, ops, k).Ok?
    ensures Loaded(After(root, json, ops), root, ops[k].slot, Answer(root, json, ops, k).value) == Ok(ops[k].data)
  {
    var slot, log := ops[k].slot, Log(ops, ops[k].slot);
    PushAnswers(root, json, ops, k);
    LogStep(ops, k);
    LogGrows(ops, k + 1, slot);
    RunStores(root, json, ops, slot);
    var index := |Log(ops[..k + 1], slot)|;
    assert log[index - 1] == Save(ops[k].data, ops[k].time);
    assert Loaded(After(root, json, ops), root, slot, index - 1 + 1) == Ok(log[index - 1].data);
  }

  // ── Files written but never listed ─────────────────────────────────

  function NextOrphan(op: Op, log: seq<Save>, orphan: Option<Bytes>): Option<Bytes> {
    if (op.disk.readFails && log != []) || op.disk.state != Works then orphan
    else if op.disk.meta == Works then None
    else Some(op.data)
  }

  /** What a failed push left under the slot's next index since its last success: the bytes of
      the last one that read the list and wrote its state, but not its metadata. */
  function Orphan(ops: seq<Op>, slot: Slot): Option<Bytes> {
    if ops == [] then None
    else
      var n := |ops| - 1;
      if ops[n].slot == slot then NextOrphan(ops[n], Log(ops[..n], slot), Orphan(ops[..n], slot))
      else Orphan(ops[..n], slot)
  }

  /** The state files from the slot's next index on: the orphan, if there is one. */
  ghost predicate Beyond(files: Files, root: string, slot: Slot, next: nat, orphan: Option<Bytes>) {
    && Loaded(files, root, slot, next) == (if orphan.Some? then Ok(orphan.value) else Err)
    && forall n :: n > next ==> Loaded(files, root, slot, n).Err?
  }

  lemma AlikeBeyond(a: Files, b: Files, root: string, slot: Slot, next: nat, orphan: Option<Bytes>)
    requires SlotAlike(a, b, root, slot) && Beyond(a, root, slot, next, orphan)
    ensures Beyond(b, root, slot, next, orphan)
  {
    forall n: nat ensures Loaded(b, root, slot, n) == Loaded(a, root, slot, n) {
      assert SameAt(a, b, PathOf(root, slot, StateFile(n)));
    }
  }

  lemma StateWriteBeyond(files: Files, root: string, slot: Slot, next: nat, orphan: Option<Bytes>, data: Bytes, fault: Fault)
    requires Proper(slot) && Beyond(files, root, slot, next, orphan)
    ensures Beyond(Written(files, PathOf(root, slot, StateFile(next)), data, fault), root, slot, next,
                   if fault == Works then Some(data) else orphan)
  {
    var after := Written(files, PathOf(root, slot, StateFile(next)), data, fault);
    WriteIsAtomic(files, root, slot, StateFile(next), data, fault, slot, StateFile(next));
    forall n | n > next ensures Loaded(after, root, slot, n).Err? {
      WriteIsAtomic(files, root, slot, StateFile(next), data, fault, slot, StateFile(n));
      assert Loaded(files, root, slot, n).Err?;
    }
  }

  lemma MetaWriteBeyond(files: Files, root: string, slot: Slot, next: nat, orphan: Option<Bytes>, meta: Bytes, fault: Fault)
    requires Proper(slot) && Beyond(files, root, slot, next, orphan)
    ensures Beyond(Written(files, PathOf(root, slot, StackFile), meta, fault), root, slot, next, orphan)
  {
    var after := Written(files, PathOf(root, slot, StackFile), meta, fault);
    forall n: nat ensures Loaded(after, root, slot, n) == Loaded(files, root, slot, n) {
      MetaWriteKeepsStates(files, root, slot, meta, fault, n);
    }
  }

  lemma PushBeyond(files: Files, root: string, json: Json, op: Op, log: seq<Save>, orphan: Option<Bytes>)
    requires Proper(op.slot) && Stores(files, root, json, op.slot, log)
    requires Beyond(files, root, op.slot, |log| + 1, orphan)
    ensures Beyond(PushFiles(files, root, json, op.slot, op.data, op.time, op.disk), root, op.slot,
                   if Succeeds(op, log) then |log| + 2 else |log| + 1, NextOrphan(op, log, orphan))
  {
    var slot, stack := op.slot, StackOf(log);
    ReadOf(files, root, json, slot, op.disk.readFails, log);
    if !op.disk.readFails || log == [] {
      var more := Written(files, PathOf(root, slot, StateFile(stack.next)), op.data, op.disk.state);
      PushWrites(files, root, json, op, stack);
      StateWriteBeyond(files, root, slot, |log| + 1, orphan, op.data, op.disk.state);
      if op.disk.state == Works {
        MetaWriteBeyond(more, root, slot, |log| + 1, Some(op.data), json.encode(Pushed(stack, |op.data|, op.time)), op.disk.meta);
      }
    }
  }

  lemma OwnStep(ops: seq<Op>, slot: Slot)
    requires ops != [] && ops[|ops| - 1].slot == slot
    ensures var before, op := ops[..|ops| - 1], ops[|ops| - 1];
      && Orphan(ops, slot) == NextOrphan(op, Log(before, slot), Orphan(before, slot))
      && |Log(ops, slot)| == |Log(before, slot)| + (if Succeeds(op, Log(before, slot)) then 1 else 0)
  {
  }

  lemma OtherStep(ops: seq<Op>, slot: Slot)
    requires ops != [] && ops[|ops| - 1].slot != slot
    ensures Orphan(ops, slot) == Orphan(ops[..|ops| - 1], slot) && Log(ops, slot) == Log(ops[..|ops| - 1], slot)
  {
  }

  lemma {:induction false} RunBeyond(root: string, json: Json, ops: seq<Op>, slot: Slot)
    requires Faithful(json) && ProperRun(ops) && Proper(slot)
    ensures Beyond(After(root, json, ops), root, slot, |Log(ops, slot)| + 1, Orphan(ops, slot))
  {
    if ops != [] {
      var n := |ops| - 1;
      var files, log, orphan := After(root, json, ops[..n]), Log(ops[..n], slot), Orphan(ops[..n], slot);
      RunBeyond(root, json, ops[..n], slot);
      if ops[n].slot != slot {
        OtherStep(ops, slot);
        OtherSlotUntouched(files, root, json, ops[n], slot);
        AlikeBeyond(files, After(root, json, ops), root, slot, |log| + 1, orphan);
      } else {
        OwnStep(ops, slot);
        RunStores(root, json, ops[..n], slot);
        PushBeyond(files, root, json, ops[n], log, orphan);
      }
    }
  }

  /** Every load of every index after any run: the listed ones give their pushes' bytes, the
      next one the orphan if there is one, and no other file exists beyond. */
  lemma EveryLoad(root: string, json: Json, ops: seq<Op>, slot: Slot, n: nat)
    requires Faithful(json) && ProperRun(ops) && Proper(slot) && n >= 1
    ensures var log, orphan := Log(ops, slot), Orphan(ops, slot);
      Loaded(After(root, json, ops), root, slot, n) ==
        if n <= |log| then Ok(log[n - 1].data)
        else if n == |log| + 1 && orphan.Some? then Ok(orphan.value)
        else Err
  {
    RunStores(root, json, ops, slot);
    RunBeyond(root, json, ops, slot);
    if n <= |Log(ops, slot)| {
      assert Loaded(After(root, json, ops), root, slot, n - 1 + 1) == Ok(Log(ops, slot)[n - 1].data);
    }
  }

  /** The state file that a push is about to write exists already if and only if, since the
      slot's last success, an earlier push read the list and wrote its state but failed on its
      metadata. So without such failures no state file is ever written over. */
  lemma StateFileIsReusedIff(root: string, json: Json, ops: seq<Op>, k: nat)
    requires Faithful(json) && ProperRun(ops) && k < |ops|
    ensures PathOf(root, ops[k].slot, StateFile(|Log(ops[..k], ops[k].slot)| + 1)) in After(root, json, ops[..k])
      <==> Orphan(ops[..k], ops[k].slot).Some?
  {
    RunBeyond(root, json, ops[..k], ops[k].slot);
  }

  lemma TwoPushes(root: string, json: Json, slot: Slot, x: Op, y: Op)
    requires Faithful(json) && Proper(slot) && x.slot == y.slot == slot
    requires x.disk == Disk(false, Works, CannotCreate) && y.disk == Disk(false, Works, Works)
    ensures Log([x], slot) == [] && Orphan([x], slot) == Some(x.data)
    ensures Log([x, y], slot) == [Save(y.data, y.time)]
  {
    assert [x][..0] == [] && [x, y][..1] == [x];
    assert [] + [Save(y.data, y.time)] == [Save(y.data, y.time)];
  }

  /** Such a reuse, with no two pushes at once: a push writes state file 1 and fails on the
      list, and the next one writes over that file. */
  lemma FailedListWriteReusesTheFile(root: string, json: Json, slot: Slot, x: Bytes, y: Bytes, t: string)
    requires Faithful(json) && Proper(slot)
    ensures var first, second := Push(slot, x, t, Disk(false, Works, CannotCreate)), Push(slot, y, t, Disk(false, Works, Works));
      && Loaded(After(root, json, [first]), root, slot, 1) == Ok(x)
      && Loaded(After(root, json, [first, second]), root, slot, 1) == Ok(y)
  {
    var first, second := Push(slot, x, t, Disk(false, Works, CannotCreate)), Push(slot, y, t, Disk(false, Works, Works));
    TwoPushes(root, json, slot, first, second);
    EveryLoad(root, json, [first], slot, 1);
    EveryLoad(root, json, [first, second], slot, 1);
  }

  // ── Battery saves ──────────────────────────────────────────────────

  /** A battery save, by whichever bridge and however it ends, changes no listing, no saved
      state and no other slot's battery file. */
  lemma BatteryWriteIsSeparate(files: Files, root: string, json: Json, slot: Slot, data: Bytes, fault: Fault, other: Slot)
    requires Proper(slot) && Proper(other)
    ensures var after := Written(files, PathOf(root, slot, BatteryFile), data, fault);
      && (forall readFails :: Listed(after, root, json, other, readFails) == Listed(files, root, json, other, readFails))
      && (forall n: nat :: Loaded(after, root, other, n) == Loaded(files, root, other, n))
      && (other != slot ==> SameAt(files, after, PathOf(root, other, BatteryFile)))
  {
    var after := Written(files, PathOf(root, slot, BatteryFile), data, fault);
    WriteIsAtomic(files, root, slot, BatteryFile, data, fault, other, StackFile);
    WriteIsAtomic(files, root, slot, BatteryFile, data, fault, other, BatteryFile);
    forall n: nat ensures Loaded(after, root, other, n) == Loaded(files, root, other, n) {
      WriteIsAtomic(files, root, slot, BatteryFile, data, fault, other, StateFile(n));
    }
  }

  /** A push never touches a battery file. */
  lemma PushKeepsBattery(files: Files, root: string, json: Json, op: Op, slot: Slot)
    requires Proper(op.slot) && Proper(slot)
    ensures SameAt(files, PushFiles(files, root, json, op.slot, op.data, op.time, op.disk), PathOf(root, slot, BatteryFile))
  {
    var read := Listed(files, root, json, op.slot, op.disk.readFails);
    if read.Ok? {
      var next := StateFile(read.value.next);
      var more := Written(files, PathOf(root, op.slot, next), op.data, op.disk.state);
      WriteIsAtomic(files, root, op.slot, next, op.data, op.disk.state, slot, BatteryFile);
      WriteIsAtomic(more, root, op.slot, StackFile, json.encode(Pushed(read.value, |op.data|, op.time)), op.disk.meta, slot, BatteryFile);
    }
  }

  function OnlySlot(ops: seq<Op>, slot: Slot): seq<Op> {
    if ops == [] then []
    else
      var n := |ops| - 1;
      OnlySlot(ops[..n], slot) + (if ops[n].slot == slot then [ops[n]] else [])
  }

  lemma WriteKeepsAlike(a: Files, b: Files, root: string, slot: Slot, item: Item, data: Bytes, fault: Fault)
    requires Proper(slot) && SlotAlike(a, b, root, slot)
    ensures var path := PathOf(root, slot, item);
      SlotAlike(Written(a, path, data, fault), Written(b, path, data, fault), root, slot)
  {
    var path := PathOf(root, slot, item);
    forall other ensures SameAt(Written(a, path, data, fault), Written(b, path, data, fault), PathOf(root, slot, other)) {
      assert SameAt(a, b, PathOf(root, slot, other));
      WriteIsAtomic(a, root, slot, item, data, fault, slot, other);
      WriteIsAtomic(b, root, slot, item, data, fault, slot, other);
    }
  }

  lemma PushKeepsAlike(a: Files, b: Files, root: string, json: Json, op: Op)
    requires Proper(op.slot) && SlotAlike(a, b, root, op.slot)
    ensures SlotAlike(PushFiles(a, root, json, op.slot, op.data, op.time, op.disk),
                      PushFiles(b, root, json, op.slot, op.data, op.time, op.disk), root, op.slot)
  {
    assert SameAt(a, b, PathOf(root, op.slot, StackFile));
    var stack := Listed(a, root, json, op.slot, op.disk.readFails);
    assert Listed(b, root, json, op.slot, op.disk.readFails) == stack;
    if stack.Ok? {
      var next := StateFile(stack.value.next);
      var path := PathOf(root, op.slot, next);
      WriteKeepsAlike(a, b, root, op.slot, next, op.data, op.disk.state);
      WriteKeepsAlike(Written(a, path, op.data, op.disk.state), Written(b, path, op.data, op.disk.state), root, op.slot,
                      StackFile, json.encode(Pushed(stack.value, |op.data|, op.time)), op.disk.meta);
    }
  }

  lemma AlikeTrans(a: Files, b: Files, c: Files, root: string, slot: Slot)
    requires SlotAlike(a, b, root, slot) && SlotAlike(b, c, root, slot)
    ensures SlotAlike(a, c, root, slot) && SlotAlike(b, a, root, slot)
  {
    forall item ensures SameAt(a, c, PathOf(root, slot, item)) && SameAt(b, a, PathOf(root, slot, item)) {
      assert SameAt(a, b, PathOf(root, slot, item)) && SameAt(b, c, PathOf(root, slot, item));
    }
  }

  lemma {:induction false} OwnFiles(root: string, json: Json, ops: seq<Op>, slot: Slot)
    requires ProperRun(ops) && Proper(slot)
    ensures SlotAlike(After(root, json, ops), After(root, json, OnlySlot(ops, slot)), root, slot)
  {
    if ops != [] {
      var n := |ops| - 1;
      var own := OnlySlot(ops[..n], slot);
      OwnFiles(root, json, ops[..n], slot);
      if ops[n].slot == slot {
        PushKeepsAlike(After(root, json, ops[..n]), After(root, json, own), root, json, ops[n]);
        assert (own + [ops[n]])[..|own|] == own;
      } else {
        assert OnlySlot(ops, slot) == own;
        OtherSlotUntouched(After(root, json, ops[..n]), root, json, ops[n], slot);
        AlikeTrans(After(root, json, ops[..n]), After(root, json, ops), After(root, json, ops), root, slot);
        AlikeTrans(After(root, json, ops), After(root, json, ops[..n]), After(root, json, own), root, slot);
      }
    }
  }

  /** Two disks that no read of the slot can tell apart. */
  ghost predicate ReadAlike(a: Files, b: Files, root: string, json: Json, slot: Slot) {
    && (forall readFails :: Listed(a, root, json, slot, readFails) == Listed(b, root, json, slot, readFails))
    && (forall n: nat :: Loaded(a, root, slot, n) == Loaded(b, root, slot, n))
    && Latest(a, root, json, slot) == Latest(b, root, json, slot)
  }

  lemma AlikeReadsAlike(a: Files, b: Files, root: string, json: Json, slot: Slot)
    requires SlotAlike(a, b, root, slot)
    ensures ReadAlike(a, b, root, json, slot)
  {
    assert SameAt(a, b, PathOf(root, slot, StackFile));
    forall n: nat ensures Loaded(a, root, slot, n) == Loaded(b, root, slot, n) {
      assert SameAt(a, b, PathOf(root, slot, StateFile(n)));
    }
  }

  /** Isolation: a slot reads, at every index, as if nobody else had ever saved. */
  lemma OthersDoNotMatter(root: string, json: Json, ops: seq<Op>, slot: Slot)
    requires ProperRun(ops) && Proper(slot)
    ensures ReadAlike(After(root, json, ops), After(root, json, OnlySlot(ops, slot)), root, json, slot)
  {
    OwnFiles(root, json, ops, slot);
    AlikeReadsAlike(After(root, json, ops), After(root, json, OnlySlot(ops, slot)), root, json, slot);
  }
}
