/** The directory layout of the save files. */
module SavePaths {
  import opened Base

  /** Whose saves of what: a directory. */
  datatype Slot = Slot(account: string, rom: string)

  /** The files of one slot. */
  datatype Item = StackFile | StateFile(index: nat) | BatteryFile

  /** One path component that the file system does not reinterpret. */
  predicate Component(s: string) { s != "" && s != "." && s != ".." && '/' !in s }

  predicate Proper(slot: Slot) { Component(slot.account) && Component(slot.rom) }

  function Digit(d: int): char
    requires 0 <= d < 10
  {
    ('0' as int + d) as char
  }

  function Decimal(n: nat): string {
    if n < 10 then [Digit(n)] else Decimal(n / 10) + [Digit(n % 10)]
  }

  function Padded(s: string, width: nat): string
    decreases width - |s|
  {
    if |s| >= width then s else Padded("0" + s, width)
  }

  /** The index with at least four digits. */
  function Number(n: nat): string { Padded(Decimal(n), 4) }

  function Stem(item: Item): string {
    match item
    case StackFile => "stack"
    case StateFile(n) => "state-" + Number(n)
    case BatteryFile => "battery"
  }

  function Extension(item: Item): string {
    match item
    case StackFile => "json"
    case StateFile(_) => "state"
    case BatteryFile => "srm"
  }

  function Dir(root: string, slot: Slot): string { root + "/" + slot.account + "/" + slot.rom }

  function PathOf(root: string, slot: Slot, item: Item): string {
    Dir(root, slot) + "/" + (Stem(item) + "." + Extension(item))
  }

  /** The last dot of the last path component. */
  function LastDot(path: string): Option<nat> {
    if path == "" then None
    else
      var n := |path| - 1;
      if path[n] == '/' then None
      else if path[n] == '.' then Some(n)
      else LastDot(path[..n])
  }

  /** The same path with its extension replaced by `tmp`; a leading dot starts no extension. */
  function WithTmp(path: string): string {
    var dot := LastDot(path);
    if dot.Some? && 0 < dot.value < |path| && path[dot.value - 1] != '/' then path[..dot.value] + ".tmp"
    else path + ".tmp"
  }

  // ── Numbers ────────────────────────────────────────────────────────

  predicate IsDigit(c: char) { '0' <= c <= '9' }

  function Value(s: string): nat {
    if s == "" then 0
    else
      var n := |s| - 1;
      10 * Value(s[..n]) + (if IsDigit(s[n]) then s[n] as int - '0' as int else 0)
  }

  lemma {:induction false} ValueOfDecimal(n: nat)
    ensures Value(Decimal(n)) == n
    ensures forall c :: c in Decimal(n) ==> IsDigit(c)
  {
    if n < 10 {
      assert Decimal(n)[..0] == "";
    } else {
      ValueOfDecimal(n / 10);
      var s := Decimal(n);
      assert s[..|s| - 1] == Decimal(n / 10);
    }
  }

  lemma {:induction false} ValueOfZero(s: string)
    ensures Value("0" + s) == Value(s)
  {
    var t := "0" + s;
    if s == "" {
      assert t == "0" && t[..0] == "";
    } else {
      assert t[..|t| - 1] == "0" + s[..|s| - 1];
      ValueOfZero(s[..|s| - 1]);
    }
  }

  lemma {:induction false} ValueOfPadded(s: string, width: nat)
    requires forall c :: c in s ==> IsDigit(c)
    ensures Value(Padded(s, width)) == Value(s)
    ensures forall c :: c in Padded(s, width) ==> IsDigit(c)
    decreases width - |s|
  {
    if |s| < width {
      ValueOfZero(s);
      ValueOfPadded("0" + s, width);
    }
  }

  lemma NumberReadsBack(n: nat)
    ensures Value(Number(n)) == n
    ensures forall c :: c in Number(n) ==> IsDigit(c)
  {
    ValueOfDecimal(n);
    ValueOfPadded(Decimal(n), 4);
  }

  // ── Paths ──────────────────────────────────────────────────────────

  lemma LastSlash(p: string, x: string, q: string, y: string)
    requires '/' !in x && '/' !in y && p + "/" + x == q + "/" + y
    ensures p == q && x == y
  {
    var s := p + "/" + x;
    assert s[|p|] == '/';
    assert s == q + "/" + y && s[|q|] == '/';
    assert forall i :: |p| < i < |s| ==> s[i] == x[i - |p| - 1];
    assert forall i :: |q| < i < |s| ==> s[i] == y[i - |q| - 1];
    assert |p| == |q|;
    assert p == s[..|p|] && q == s[..|q|];
    assert x == s[|p| + 1..] && y == s[|q| + 1..];
  }

  lemma DirsAreDistinct(root: string, slot: Slot, slot': Slot)
    requires Proper(slot) && Proper(slot') && Dir(root, slot) == Dir(root, slot')
    ensures slot == slot'
  {
    LastSlash(root + "/" + slot.account, slot.rom, root + "/" + slot'.account, slot'.rom);
    LastSlash(root, slot.account, root, slot'.account);
  }

  lemma FileHasNoSlash(item: Item)
    ensures '/' !in Stem(item) && '.' !in Stem(item) && Stem(item) != "" && '/' !in Extension(item)
  {
    if item.StateFile? {
      NumberReadsBack(item.index);
    }
  }

  lemma DotSplits(x: string, e: string, y: string, f: string)
    requires '.' !in x && '.' !in y && x + "." + e == y + "." + f
    ensures x == y && e == f
  {
    var s := x + "." + e;
    assert s[|x|] == '.';
    assert s == y + "." + f && s[|y|] == '.';
    assert forall i :: 0 <= i < |x| ==> s[i] == x[i];
    assert forall i :: 0 <= i < |y| ==> s[i] == y[i];
    assert x == s[..|x|] && y == s[..|y|];
    assert e == s[|x| + 1..] && f == s[|y| + 1..];
  }

  lemma StemsAreDistinct(item: Item, item': Item)
    requires Stem(item) == Stem(item') && Extension(item) == Extension(item')
    ensures item == item'
  {
    assert |Extension(StackFile)| == 4 && |Extension(StateFile(0))| == 5 && |Extension(BatteryFile)| == 3;
    if item.StateFile? {
      NumberReadsBack(item.index);
      NumberReadsBack(item'.index);
      assert Number(item.index) == Stem(item)[6..];
      assert Number(item'.index) == Stem(item')[6..];
    }
  }

  lemma {:induction false} DotBefore(x: string, e: string)
    requires '.' !in e && '/' !in e
    ensures LastDot(x + "." + e) == Some(|x|)
  {
    var s := x + "." + e;
    if e == "" {
      assert s[|x|] == '.';
    } else {
      var n := |e| - 1;
      assert s[..|s| - 1] == x + "." + e[..n];
      assert s[|s| - 1] == e[n];
      DotBefore(x, e[..n]);
    }
  }

  lemma TmpOf(root: string, slot: Slot, item: Item)
    ensures WithTmp(PathOf(root, slot, item)) == Dir(root, slot) + "/" + (Stem(item) + "." + "tmp")
  {
    FileHasNoSlash(item);
    var x := Dir(root, slot) + "/" + Stem(item);
    var path := PathOf(root, slot, item);
    assert path == x + "." + Extension(item);
    DotBefore(x, Extension(item));
    assert path[..|x|] == x;
    assert path[|x| - 1] == Stem(item)[|Stem(item)| - 1];
    assert x + ".tmp" == Dir(root, slot) + "/" + (Stem(item) + "." + "tmp");
  }

  lemma FilesAreDistinct(root: string, slot: Slot, item: Item, e: string, slot': Slot, item': Item, e': string)
    requires Proper(slot) && Proper(slot') && '/' !in e && '/' !in e'
    requires Dir(root, slot) + "/" + (Stem(item) + "." + e) == Dir(root, slot') + "/" + (Stem(item') + "." + e')
    ensures slot == slot' && Stem(item) == Stem(item') && e == e'
  {
    FileHasNoSlash(item);
    FileHasNoSlash(item');
    LastSlash(Dir(root, slot), Stem(item) + "." + e, Dir(root, slot'), Stem(item') + "." + e');
    DirsAreDistinct(root, slot, slot');
    DotSplits(Stem(item), e, Stem(item'), e');
  }

  /** Every file of every slot has its own path, and no file is another's temporary file. */
  lemma PathsAreDistinct(root: string, slot: Slot, item: Item, slot': Slot, item': Item)
    requires Proper(slot) && Proper(slot')
    ensures PathOf(root, slot, item) == PathOf(root, slot', item') ==> slot == slot' && item == item'
    ensures PathOf(root, slot, item) != WithTmp(PathOf(root, slot', item'))
  {
    TmpOf(root, slot', item');
    FileHasNoSlash(item);
    FileHasNoSlash(item');
    if PathOf(root, slot, item) == PathOf(root, slot', item') {
      FilesAreDistinct(root, slot, item, Extension(item), slot', item', Extension(item'));
      StemsAreDistinct(item, item');
    }
    if PathOf(root, slot, item) == WithTmp(PathOf(root, slot', item')) {
      FilesAreDistinct(root, slot, item, Extension(item), slot', item', "tmp");
      assert false;
    }
  }
}
