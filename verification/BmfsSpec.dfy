/** The BMFS file system on values: a directory of 64 entries and the bytes of the disk. */
module BmfsSpec {
  import opened Words

  const ENTRIES: nat := 64
  const BLOCK: nat := 2097152
  /** File sizes that a signed 32-bit loop counter can count to. */
  const MAX_COUNT: nat := 0x7FFF_FFFF

  /** The disk size in MiB is an unsigned 32-bit number; half of it is the number of blocks. */
  const MAX_BLOCKS: nat := 0x7FFF_FFFF

  type Byte = x: int | 0 <= x < 256

  /** A directory entry. The first character of the name tells the end of the directory and deleted entries. */
  datatype Entry = Entry(name: string, start: nat, reserved: nat, size: nat)

  datatype Volume = Volume(dir: seq<Entry>, disk: seq<Byte>, blocks: nat)

  predicate IsEnd(e: Entry) {
    e.name == "" || e.name[0] == '\U{00}'
  }

  predicate IsDeleted(e: Entry) {
    e.name != "" && e.name[0] == '\U{01}'
  }

  /** A name that fits the 32-byte field with its terminator and is not mistaken for a mark. */
  predicate ValidName(name: string) {
    1 <= |name| <= 31 && name[0] != '\U{01}' && forall i :: 0 <= i < |name| ==> name[i] != '\U{00}'
  }

  // ---------------------------------------------------------------- the directory

  /** findfile from slot i on: the slot of the file, or 64. */
  function FindFrom(dir: seq<Entry>, name: string, i: nat): (slot: nat)
    requires |dir| == ENTRIES && i <= ENTRIES
    ensures i <= slot <= ENTRIES
    ensures slot < ENTRIES ==> slot < EndFrom(dir, i) && dir[slot].name == name && !IsDeleted(dir[slot])
    ensures forall k :: i <= k < slot && k < EndFrom(dir, i) ==> IsDeleted(dir[k]) || dir[k].name != name
    decreases ENTRIES - i
  {
    if i == ENTRIES || IsEnd(dir[i]) then ENTRIES
    else if !IsDeleted(dir[i]) && dir[i].name == name then i
    else FindFrom(dir, name, i + 1)
  }

  function FindFile(dir: seq<Entry>, name: string): nat
    requires |dir| == ENTRIES
  {
    FindFrom(dir, name, 0)
  }

  /** The first end mark from slot i on, or 64. */
  function EndFrom(dir: seq<Entry>, i: nat): (n: nat)
    requires |dir| == ENTRIES && i <= ENTRIES
    ensures i <= n <= ENTRIES && (n < ENTRIES ==> IsEnd(dir[n]))
    ensures forall k :: i <= k < n ==> !IsEnd(dir[k])
    decreases ENTRIES - i
  {
    if i == ENTRIES || IsEnd(dir[i]) then i else EndFrom(dir, i + 1)
  }

  /** The first end mark or deleted entry from slot i on, or 64. */
  function FreeFrom(dir: seq<Entry>, i: nat): (n: nat)
    requires |dir| == ENTRIES && i <= ENTRIES
    ensures i <= n <= ENTRIES && (n < ENTRIES ==> IsEnd(dir[n]) || IsDeleted(dir[n]))
    ensures forall k :: i <= k < n ==> !IsEnd(dir[k]) && !IsDeleted(dir[k])
    decreases ENTRIES - i
  {
    if i == ENTRIES || IsEnd(dir[i]) || IsDeleted(dir[i]) then i else FreeFrom(dir, i + 1)
  }

  /** num_used_entries as create counts it: 0 when there is no end mark. */
  function UsedEntries(dir: seq<Entry>): (n: nat)
    requires |dir| == ENTRIES
    ensures n < ENTRIES
  {
    if EndFrom(dir, 0) == ENTRIES then 0 else EndFrom(dir, 0)
  }

  // ---------------------------------------------------------------- sorting by starting block

  predicate Before(a: Entry, b: Entry) {
    !IsDeleted(a) && (IsDeleted(b) || a.start <= b.start)
  }

  function Insert(e: Entry, s: seq<Entry>): seq<Entry> {
    if s == [] then [e] else if Before(e, s[0]) then [e] + s else [s[0]] + Insert(e, s[1..])
  }

  /** What qsort with StartingBlockCmp makes of the entries. */
  function Sort(s: seq<Entry>): seq<Entry> {
    if s == [] then [] else Insert(s[0], Sort(s[1..]))
  }

  // ---------------------------------------------------------------- create

  /** create's search for a place from the i-th file in disk order on; 0 if there is none. Subtraction is unsigned. */
  function PlaceFrom(s: seq<Entry>, i: nat, end: nat, request: nat, blocks: nat): nat
    requires i <= |s|
    decreases |s| - i
  {
    var next := if i == |s| || IsDeleted(s[i]) then U64(blocks - 1) else s[i].start;
    if U64(next - end) >= request then end
    else if i == |s| then 0
    else PlaceFrom(s, i + 1, U64(s[i].start + s[i].reserved), request, blocks)
  }

  function BlocksFor(megabytes: nat): nat {
    (megabytes + 1) / 2
  }

  /** The starting block that create chooses; 0 if it finds none. */
  function Place(dir: seq<Entry>, request: nat, blocks: nat): nat
    requires |dir| == ENTRIES
  {
    PlaceFrom(Sort(dir[..UsedEntries(dir)]), 0, 1, request, blocks)
  }

  function Marked(e: Entry): Entry {
    e.(name := "")
  }

  /** The directory with a new entry in `slot`, where there were n used entries. */
  function WithFile(dir: seq<Entry>, slot: nat, n: nat, e: Entry): (r: seq<Entry>)
    requires |dir| == ENTRIES && slot < ENTRIES && n < ENTRIES
    ensures |r| == ENTRIES
  {
    var d := dir[slot := e];
    if slot == n && n + 1 < ENTRIES then d[n + 1 := Marked(d[n + 1])] else d
  }

  datatype Outcome = Done | Exists | NotFound | DirectoryFull | NoSpace

  function Create(v: Volume, name: string, megabytes: nat): (Volume, Outcome)
    requires |v.dir| == ENTRIES
  {
    if FindFile(v.dir, name) != ENTRIES then (v, Exists)
    else
      var slot := FreeFrom(v.dir, 0);
      var start := Place(v.dir, BlocksFor(megabytes), v.blocks);
      if slot == ENTRIES then (v, DirectoryFull)
      else if start == 0 then (v, NoSpace)
      else (v.(dir := WithFile(v.dir, slot, UsedEntries(v.dir), Entry(name, start, BlocksFor(megabytes), 0))), Done)
  }

  // ---------------------------------------------------------------- format, write and read

  function Format(v: Volume): Volume {
    v.(dir := seq(ENTRIES, i => Entry("", 0, 0, 0)))
  }

  function Spliced(disk: seq<Byte>, at: nat, data: seq<Byte>): seq<Byte>
    requires at + |data| <= |disk|
  {
    disk[..at] + data + disk[at + |data|..]
  }

  lemma SplicedIs(disk: seq<Byte>, at: nat, data: seq<Byte>, r: seq<Byte>)
    requires at + |data| <= |disk| == |r|
    requires forall k :: 0 <= k < |r| ==> r[k] == if at <= k < at + |data| then data[k - at] else disk[k]
    ensures r == Spliced(disk, at, data)
  {
  }

  /** The file's blocks are on the disk, and its bytes can be counted. */
  predicate OnDisk(v: Volume, e: Entry) {
    e.size <= e.reserved * BLOCK && e.size <= MAX_COUNT && (e.start + e.reserved) * BLOCK <= |v.disk|
  }

  predicate AllOnDisk(v: Volume) {
    |v.dir| == ENTRIES && forall k :: 0 <= k < EndFrom(v.dir, 0) ==> IsDeleted(v.dir[k]) || OnDisk(v, v.dir[k])
  }

  function Write(v: Volume, name: string, data: seq<Byte>): (Volume, Outcome)
    requires AllOnDisk(v) && |data| <= MAX_COUNT
  {
    var slot := FindFile(v.dir, name);
    if slot == ENTRIES then (v, NotFound)
    else
      var e := v.dir[slot];
      if e.reserved * BLOCK < |data| then (v, NoSpace)
      else (v.(dir := v.dir[slot := e.(size := |data|)], disk := Spliced(v.disk, e.start * BLOCK, data)), Done)
  }

  datatype Contents = Missing | Bytes(bytes: seq<Byte>)

  function Read(v: Volume, name: string): Contents
    requires AllOnDisk(v)
  {
    var slot := FindFile(v.dir, name);
    if slot == ENTRIES then Missing
    else
      var e := v.dir[slot];
      Bytes(v.disk[e.start * BLOCK..e.start * BLOCK + e.size])
  }
}
