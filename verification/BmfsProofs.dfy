/** From format on: files never overlap, create takes the lowest place there is, and files keep what was written to them. */
module BmfsProofs {
  import opened Words
  import opened BmfsSpec

  // ---------------------------------------------------------------- ranges of blocks

  function Last(e: Entry): nat {
    e.start + e.reserved
  }

  predicate Apart(a: Entry, b: Entry) {
    Last(a) <= b.start || Last(b) <= a.start
  }

  /** A live file within the data blocks 1 .. blocks - 2. */
  predicate Fits(e: Entry, blocks: nat) {
    !IsDeleted(e) && !IsEnd(e) && 1 <= e.start && 1 <= e.reserved && Last(e) + 1 <= blocks
  }

  ghost predicate AllFit(s: seq<Entry>, blocks: nat) {
    forall i :: 0 <= i < |s| ==> Fits(s[i], blocks)
  }

  ghost predicate AllApart(s: seq<Entry>) {
    forall i, j :: 0 <= i < j < |s| ==> Apart(s[i], s[j])
  }

  /** In disk order: each file ends before the next one starts. */
  ghost predicate Chain(s: seq<Entry>) {
    forall i, j :: 0 <= i < j < |s| ==> Last(s[i]) <= s[j].start
  }

  lemma {:induction false} InsertChain(e: Entry, s: seq<Entry>, blocks: nat)
    requires Fits(e, blocks) && AllFit(s, blocks) && Chain(s)
    requires forall i :: 0 <= i < |s| ==> Apart(e, s[i])
    ensures var r := Insert(e, s); Chain(r) && AllFit(r, blocks) && |r| == |s| + 1
    ensures forall x :: x in Insert(e, s) <==> x == e || x in s
  {
    if s != [] && !Before(e, s[0]) {
      InsertChain(e, s[1..], blocks);
      var r := Insert(e, s[1..]);
      forall j | 0 <= j < |r| ensures Last(s[0]) <= r[j].start {
        assert r[j] == e || r[j] in s[1..];
      }
    }
  }

  /** The sorted copy holds the same files, in disk order. */
  lemma {:induction false} SortChain(s: seq<Entry>, blocks: nat)
    requires AllFit(s, blocks) && AllApart(s)
    ensures var r := Sort(s); Chain(r) && AllFit(r, blocks) && |r| == |s|
    ensures forall x :: x in Sort(s) <==> x in s
  {
    if s != [] {
      SortChain(s[1..], blocks);
      forall i | 0 <= i < |Sort(s[1..])| ensures Apart(s[0], Sort(s[1..])[i]) {
        assert Sort(s[1..])[i] in s[1..];
      }
      InsertChain(s[0], Sort(s[1..]), blocks);
    }
  }

  // ---------------------------------------------------------------- the lowest place

  /** A new file of `request` blocks could start at block x. */
  ghost predicate FreeAt(files: seq<Entry>, x: nat, request: nat, blocks: nat) {
    1 <= x && x + request + 1 <= blocks && forall f :: f in files ==> x + request <= f.start || Last(f) <= x
  }

  /** Where the gap after the first i files ends. */
  function GapEnd(s: seq<Entry>, i: nat, blocks: nat): int
    requires i <= |s|
  {
    if i == |s| then blocks - 1 else s[i].start
  }

  function GapStart(s: seq<Entry>, i: nat): nat
    requires i <= |s|
  {
    if i == 0 then 1 else Last(s[i - 1])
  }

  lemma GapBounds(s: seq<Entry>, i: nat, blocks: nat)
    requires AllFit(s, blocks) && Chain(s) && i <= |s| && 2 <= blocks
    ensures 1 <= GapStart(s, i) <= GapEnd(s, i, blocks) < blocks
  {
    if 0 < i {
      assert Fits(s[i - 1], blocks);
    }
    if i < |s| {
      assert Fits(s[i], blocks);
    }
  }

  /** No unsigned subtraction of the search wraps around. */
  lemma PlaceStep(s: seq<Entry>, i: nat, request: nat, blocks: nat)
    requires AllFit(s, blocks) && Chain(s) && i <= |s| && 2 <= blocks <= MAX_BLOCKS
    ensures PlaceFrom(s, i, GapStart(s, i), request, blocks) ==
            if GapEnd(s, i, blocks) - GapStart(s, i) >= request then GapStart(s, i)
            else if i == |s| then 0
            else PlaceFrom(s, i + 1, GapStart(s, i + 1), request, blocks)
  {
    GapBounds(s, i, blocks);
    Difference(GapEnd(s, i, blocks), GapStart(s, i));
    if i < |s| {
      assert Fits(s[i], blocks);
      NoWrap(Last(s[i]));
    } else {
      NoWrap(blocks - 1);
    }
    hide AllFit, Chain, U64;
  }

  lemma NoWrap(x: int)
    requires 0 <= x < TWO_64
    ensures U64(x) == x
  {
  }

  lemma Difference(a: int, b: int)
    requires 0 <= b <= a < TWO_64
    ensures U64(a - b) == a - b
  {
  }

  lemma GapHolds(s: seq<Entry>, i: nat, request: nat, blocks: nat)
    requires AllFit(s, blocks) && Chain(s) && i <= |s| && 2 <= blocks
    requires GapEnd(s, i, blocks) - GapStart(s, i) >= request
    ensures FreeAt(s, GapStart(s, i), request, blocks)
  {
    GapBounds(s, i, blocks);
    var x := GapStart(s, i);
    forall f | f in s ensures x + request <= f.start || Last(f) <= x {
      var j :| 0 <= j < |s| && s[j] == f;
      assert Fits(s[j], blocks);
    }
    if i < |s| {
      assert Fits(s[i], blocks);
    }
  }

  lemma GapTooSmall(s: seq<Entry>, i: nat, request: nat, blocks: nat, x: nat)
    requires i <= |s| && GapEnd(s, i, blocks) - GapStart(s, i) < request
    requires FreeAt(s, x, request, blocks) && GapStart(s, i) <= x
    ensures i < |s| && Last(s[i]) <= x
  {
    if i < |s| {
      assert s[i] in s;
    }
  }

  /** The search finds the lowest place, provided there is none before gap i, where it goes on. */
  lemma {:induction false} PlaceLowest(s: seq<Entry>, i: nat, request: nat, blocks: nat)
    requires AllFit(s, blocks) && Chain(s) && i <= |s| && 2 <= blocks <= MAX_BLOCKS && 1 <= request
    requires forall x :: FreeAt(s, x, request, blocks) ==> GapStart(s, i) <= x
    ensures var p := PlaceFrom(s, i, GapStart(s, i), request, blocks);
            && (p == 0 ==> forall x :: !FreeAt(s, x, request, blocks))
            && (p != 0 ==> FreeAt(s, p, request, blocks) && forall x :: FreeAt(s, x, request, blocks) ==> p <= x)
    decreases |s| - i
  {
    PlaceStep(s, i, request, blocks);
    GapBounds(s, i, blocks);
    hide PlaceFrom, FreeAt, AllFit, Chain;
    if GapEnd(s, i, blocks) - GapStart(s, i) >= request {
      GapHolds(s, i, request, blocks);
    } else {
      forall x | FreeAt(s, x, request, blocks) ensures i < |s| && GapStart(s, i + 1) <= x {
        GapTooSmall(s, i, request, blocks, x);
      }
      if i < |s| {
        PlaceLowest(s, i + 1, request, blocks);
      }
    }
  }

  // ---------------------------------------------------------------- the invariant

  function Files(dir: seq<Entry>): seq<Entry>
    requires |dir| == ENTRIES
  {
    dir[..EndFrom(dir, 0)]
  }

  ghost predicate NamesOk(s: seq<Entry>) {
    && (forall i :: 0 <= i < |s| ==> ValidName(s[i].name))
    && forall i, j :: 0 <= i < j < |s| ==> s[i].name != s[j].name
  }

  ghost predicate SizesOk(s: seq<Entry>) {
    forall i :: 0 <= i < |s| ==> s[i].size <= s[i].reserved * BLOCK && s[i].size <= MAX_COUNT
  }

  /** A volume without deleted files: they have names of their own and ranges of their own within the data blocks. */
  ghost predicate Inv(v: Volume) {
    && |v.dir| == ENTRIES && v.blocks <= MAX_BLOCKS && v.blocks * BLOCK <= |v.disk|
    && NamesOk(Files(v.dir)) && SizesOk(Files(v.dir)) && AllFit(Files(v.dir), v.blocks) && AllApart(Files(v.dir))
  }

  lemma InvOnDisk(v: Volume)
    requires Inv(v)
    ensures AllOnDisk(v)
  {
    var files := Files(v.dir);
    forall k | 0 <= k < EndFrom(v.dir, 0) ensures OnDisk(v, v.dir[k]) {
      assert files[k] == v.dir[k] && Fits(files[k], v.blocks);
    }
  }

  lemma {:induction false} EndIs(dir: seq<Entry>, i: nat, n: nat)
    requires |dir| == ENTRIES && i <= n <= ENTRIES
    requires forall k :: i <= k < n ==> !IsEnd(dir[k])
    requires n < ENTRIES ==> IsEnd(dir[n])
    ensures EndFrom(dir, i) == n
    decreases n - i
  {
    if i < n {
      EndIs(dir, i + 1, n);
    }
  }

  lemma {:induction false} NothingDeleted(dir: seq<Entry>, i: nat)
    requires |dir| == ENTRIES && i <= ENTRIES
    requires forall k :: i <= k < EndFrom(dir, i) ==> !IsDeleted(dir[k])
    ensures FreeFrom(dir, i) == EndFrom(dir, i)
    decreases ENTRIES - i
  {
    if i < ENTRIES && !IsEnd(dir[i]) {
      NothingDeleted(dir, i + 1);
    }
  }

  /** findfile finds a file exactly if there is one of that name. */
  lemma {:induction false} FindIs(dir: seq<Entry>, name: string, i: nat)
    requires |dir| == ENTRIES && i <= EndFrom(dir, 0)
    requires forall k :: 0 <= k < EndFrom(dir, 0) ==> !IsDeleted(dir[k])
    ensures var slot := FindFrom(dir, name, i);
            if slot == ENTRIES then forall k :: i <= k < EndFrom(dir, 0) ==> dir[k].name != name
            else i <= slot < EndFrom(dir, 0) && dir[slot].name == name
    decreases ENTRIES - i
  {
    if i < EndFrom(dir, 0) {
      FindIs(dir, name, i + 1);
    }
  }

  lemma Found(v: Volume, name: string)
    requires Inv(v)
    ensures var slot := FindFile(v.dir, name);
            if slot == ENTRIES then forall k :: 0 <= k < |Files(v.dir)| ==> Files(v.dir)[k].name != name
            else slot < |Files(v.dir)| && Files(v.dir)[slot] == v.dir[slot] && v.dir[slot].name == name
  {
    var files := Files(v.dir);
    forall k | 0 <= k < EndFrom(v.dir, 0) ensures !IsDeleted(v.dir[k]) {
      assert files[k] == v.dir[k] && Fits(files[k], v.blocks);
    }
    FindIs(v.dir, name, 0);
    assert forall k :: 0 <= k < |files| ==> files[k] == v.dir[k];
  }

  lemma FoundAt(v: Volume, k: nat)
    requires Inv(v) && k < |Files(v.dir)|
    ensures FindFile(v.dir, Files(v.dir)[k].name) == k
  {
    Found(v, Files(v.dir)[k].name);
  }

  lemma FormatInv(v: Volume)
    requires v.blocks <= MAX_BLOCKS && v.blocks * BLOCK <= |v.disk|
    ensures Inv(Format(v)) && Files(Format(v).dir) == []
  {
    EndIs(Format(v).dir, 0, 0);
  }

  // ---------------------------------------------------------------- create

  lemma Slots(v: Volume)
    requires Inv(v)
    ensures FreeFrom(v.dir, 0) == EndFrom(v.dir, 0)
    ensures EndFrom(v.dir, 0) < ENTRIES ==> UsedEntries(v.dir) == EndFrom(v.dir, 0)
  {
    var files := Files(v.dir);
    forall k | 0 <= k < EndFrom(v.dir, 0) ensures !IsDeleted(v.dir[k]) {
      assert files[k] == v.dir[k] && Fits(files[k], v.blocks);
    }
    NothingDeleted(v.dir, 0);
  }

  /** create takes the lowest place that is free, and finds none only if there is none. */
  lemma CreatePlaces(v: Volume, request: nat)
    requires Inv(v) && v.blocks >= 2 && request >= 1 && EndFrom(v.dir, 0) < ENTRIES
    ensures var p := Place(v.dir, request, v.blocks);
            && (p == 0 ==> forall x :: !FreeAt(Files(v.dir), x, request, v.blocks))
            && (p != 0 ==>
                  && FreeAt(Files(v.dir), p, request, v.blocks)
                  && forall x :: FreeAt(Files(v.dir), x, request, v.blocks) ==> p <= x)
  {
    Slots(v);
    var files := Files(v.dir);
    var s := Sort(files);
    SortChain(files, v.blocks);
    forall x ensures FreeAt(s, x, request, v.blocks) <==> FreeAt(files, x, request, v.blocks) {
    }
    PlaceLowest(s, 0, request, v.blocks);
  }

  lemma WithFileAt(dir: seq<Entry>, n: nat, e: Entry)
    requires |dir| == ENTRIES && n < ENTRIES
    ensures var d := WithFile(dir, n, n, e);
            d[..n + 1] == dir[..n] + [e] && (n + 1 < ENTRIES ==> IsEnd(d[n + 1]))
  {
    var d := WithFile(dir, n, n, e);
    assert d[..n + 1] == dir[n := e][..n + 1];
    assert dir[n := e][..n + 1] == dir[..n] + [e];
  }

  lemma NoEndBefore(dir: seq<Entry>, e: Entry, k: nat)
    requires |dir| == ENTRIES && EndFrom(dir, 0) < ENTRIES && !IsEnd(e) && k <= EndFrom(dir, 0)
    ensures var n := EndFrom(dir, 0); !IsEnd(WithFile(dir, n, n, e)[k])
  {
    hide EndFrom, IsEnd;
    assert k < EndFrom(dir, 0) ==> !IsEnd(dir[k]);
  }

  /** What a successful create does to the list of files. */
  lemma WithFileAppends(dir: seq<Entry>, e: Entry)
    requires |dir| == ENTRIES && EndFrom(dir, 0) < ENTRIES && !IsEnd(e)
    ensures var n := EndFrom(dir, 0); Files(WithFile(dir, n, n, e)) == Files(dir) + [e]
  {
    var n := EndFrom(dir, 0);
    var d := WithFile(dir, n, n, e);
    WithFileAt(dir, n, e);
    hide WithFile, IsEnd, EndFrom;
    forall k | 0 <= k < n + 1 ensures !IsEnd(d[k]) {
      NoEndBefore(dir, e, k);
    }
    EndIs(d, 0, n + 1);
  }

  lemma AppendKeeps(s: seq<Entry>, e: Entry, blocks: nat)
    requires NamesOk(s) && SizesOk(s) && AllFit(s, blocks) && AllApart(s)
    requires ValidName(e.name) && e.size == 0 && e.reserved >= 1
    requires forall k :: 0 <= k < |s| ==> s[k].name != e.name
    requires FreeAt(s, e.start, e.reserved, blocks)
    ensures var t := s + [e]; NamesOk(t) && SizesOk(t) && AllFit(t, blocks) && AllApart(t)
  {
    var t := s + [e];
    forall i | 0 <= i < |s| ensures Apart(t[i], e) {
      assert t[i] in s;
    }
  }

  /** What create does, for the number of blocks that it works out. */
  lemma CreateDoes(v: Volume, name: string, megabytes: nat)
    requires Inv(v) && v.blocks >= 2 && ValidName(name) && megabytes >= 1
    ensures var (w, r) := Create(v, name, megabytes);
            var request := BlocksFor(megabytes);
            var files := Files(v.dir);
            && Inv(w)
            && (r == Exists <==> exists f :: f in files && f.name == name)
            && (r == DirectoryFull <==> r != Exists && |files| == ENTRIES)
            && (r == NoSpace <==> r != Exists && r != DirectoryFull && forall x :: !FreeAt(files, x, request, v.blocks))
            && (r != Done ==> w == v)
            && (r == Done ==>
                  var start := Place(v.dir, request, v.blocks);
                  w == v.(dir := w.dir) && Files(w.dir) == files + [Entry(name, start, request, 0)]
                  && FreeAt(files, start, request, v.blocks)
                  && forall x :: FreeAt(files, x, request, v.blocks) ==> start <= x)
  {
    var files := Files(v.dir);
    Found(v, name);
    if FindFile(v.dir, name) != ENTRIES {
      assert v.dir[FindFile(v.dir, name)] in files;
    } else {
      Slots(v);
      if |files| < ENTRIES {
        CreatePlaces(v, BlocksFor(megabytes));
        var start := Place(v.dir, BlocksFor(megabytes), v.blocks);
        if start != 0 {
          var e := Entry(name, start, BlocksFor(megabytes), 0);
          WithFileAppends(v.dir, e);
          AppendKeeps(files, e, v.blocks);
        }
      }
    }
  }

  /** The number of blocks of 2 MiB that hold so many MiB, and no more than that. */
  lemma RoundsUp(megabytes: nat)
    ensures var n := BlocksFor(megabytes); 2 * n - 1 <= megabytes <= 2 * n
  {
  }

  lemma LessRoom(files: seq<Entry>, x: nat, n: nat, k: nat, blocks: nat)
    requires FreeAt(files, x, k, blocks) && n <= k
    ensures FreeAt(files, x, n, blocks)
  {
  }

  /** Block x starts a free range for so many MiB, in blocks of 2 MiB. */
  ghost predicate HasRoom(files: seq<Entry>, megabytes: nat, x: nat, k: nat, blocks: nat) {
    megabytes <= 2 * k && FreeAt(files, x, k, blocks)
  }

  /**
   create succeeds exactly if the name is new, one of the 64 slots is left and the file fits somewhere; it adds that file,
   empty, with the fewest blocks that hold it at the lowest place, and changes nothing else.
   */
  lemma CreateOutcome(v: Volume, name: string, megabytes: nat)
    requires Inv(v) && v.blocks >= 2 && ValidName(name) && megabytes >= 1
    ensures var (w, r) := Create(v, name, megabytes);
            var files := Files(v.dir);
            && Inv(w)
            && (r == Exists <==> exists f :: f in files && f.name == name)
            && (r == DirectoryFull <==> r != Exists && |files| == 64)
            && (r == NoSpace <==>
                  r != Exists && r != DirectoryFull && forall x: nat, k: nat :: !HasRoom(files, megabytes, x, k, v.blocks))
            && (r == Done || r == Exists || r == DirectoryFull || r == NoSpace)
            && (r != Done ==> w == v)
            && (r == Done ==> w == v.(dir := w.dir) && exists start: nat, n: nat ::
                  && 2 * n - 1 <= megabytes && HasRoom(files, megabytes, start, n, v.blocks)
                  && Files(w.dir) == files + [Entry(name, start, n, 0)]
                  && forall x: nat, k: nat :: HasRoom(files, megabytes, x, k, v.blocks) ==> start <= x)
  {
    var files := Files(v.dir);
    var n := BlocksFor(megabytes);
    CreateDoes(v, name, megabytes);
    RoundsUp(megabytes);
    hide Create, Inv, Files, BlocksFor, FreeAt;
    forall x: nat, k: nat | HasRoom(files, megabytes, x, k, v.blocks) ensures FreeAt(files, x, n, v.blocks) {
      LessRoom(files, x, n, k, v.blocks);
    }
    forall x: nat | FreeAt(files, x, n, v.blocks) ensures HasRoom(files, megabytes, x, n, v.blocks) {
    }
  }

  // ---------------------------------------------------------------- what files hold

  lemma SplicedAt(disk: seq<Byte>, at: nat, data: seq<Byte>, lo: nat, hi: nat)
    requires at + |data| <= |disk| && lo <= hi <= |disk|
    ensures |Spliced(disk, at, data)| == |disk|
    ensures Spliced(disk, at, data)[at..at + |data|] == data
    ensures hi <= at || at + |data| <= lo ==> Spliced(disk, at, data)[lo..hi] == disk[lo..hi]
  {
  }

  /** An update of a file's size leaves the directory otherwise as it was. */
  lemma ResizeFiles(v: Volume, slot: nat, e: Entry)
    requires Inv(v) && slot < |Files(v.dir)| && e == v.dir[slot].(size := e.size)
    ensures Files(v.dir[slot := e]) == Files(v.dir)[slot := e]
  {
    var n := EndFrom(v.dir, 0);
    var d := v.dir[slot := e];
    EndIs(d, 0, n);
  }

  lemma ResizeKeeps(s: seq<Entry>, slot: nat, e: Entry, blocks: nat)
    requires NamesOk(s) && SizesOk(s) && AllFit(s, blocks) && AllApart(s)
    requires slot < |s| && e == s[slot].(size := e.size)
    requires e.size <= e.reserved * BLOCK && e.size <= MAX_COUNT
    ensures var t := s[slot := e]; NamesOk(t) && SizesOk(t) && AllFit(t, blocks) && AllApart(t)
  {
    var t := s[slot := e];
    assert Fits(s[slot], blocks);
    forall i, j | 0 <= i < j < |t| ensures Apart(t[i], t[j]) {
      assert Apart(s[i], s[j]);
    }
  }

  /** write succeeds exactly if the file exists and has the room. */
  lemma WriteKeeps(v: Volume, name: string, data: seq<Byte>)
    requires |data| <= 0x7FFF_FFFF
    requires Inv(v)
    ensures AllOnDisk(v)
    ensures var (w, r) := Write(v, name, data);
            var slot := FindFile(v.dir, name);
            && Inv(w) && w.blocks == v.blocks && |w.disk| == |v.disk|
            && (r == NotFound <==> slot == ENTRIES)
            && (r == NoSpace <==> slot < ENTRIES && v.dir[slot].reserved * 0x20_0000 < |data|)
            && (r == Done || r == NotFound || r == NoSpace)
            && (r != Done ==> w == v)
            && (r == Done ==> slot < |Files(v.dir)| && Files(w.dir) == Files(v.dir)[slot := v.dir[slot].(size := |data|)]
                              && var at := v.dir[slot].start * 0x20_0000;
                                 at + |data| <= |v.disk| && w.disk == v.disk[..at] + data + v.disk[at + |data|..])
  {
    InvOnDisk(v);
    Found(v, name);
    var slot := FindFile(v.dir, name);
    if slot < ENTRIES && v.dir[slot].reserved * BLOCK >= |data| {
      var e := v.dir[slot].(size := |data|);
      ResizeFiles(v, slot, e);
      ResizeKeeps(Files(v.dir), slot, e, v.blocks);
      SplicedAt(v.disk, e.start * BLOCK, data, 0, 0);
    }
  }

  /** Reading a file is reading its entry. */
  lemma ReadEntry(v: Volume, k: nat)
    requires Inv(v) && k < |Files(v.dir)|
    ensures AllOnDisk(v) && OnDisk(v, Files(v.dir)[k])
    ensures var e := Files(v.dir)[k];
            Read(v, e.name) == Bytes(v.disk[e.start * 0x20_0000..e.start * 0x20_0000 + e.size])
  {
    InvOnDisk(v);
    FoundAt(v, k);
    assert Files(v.dir)[k] == v.dir[k];
    assert Fits(Files(v.dir)[k], v.blocks);
  }

  /** What was written to a file is what is read from it. */
  lemma ReadAfterWrite(v: Volume, name: string, data: seq<Byte>)
    requires |data| <= 0x7FFF_FFFF
    requires Inv(v) && AllOnDisk(v) && Write(v, name, data).1 == Done
    ensures var w := Write(v, name, data).0; AllOnDisk(w) && Read(w, name) == Bytes(data)
  {
    WriteKeeps(v, name, data);
    var w := Write(v, name, data).0;
    var slot := FindFile(v.dir, name);
    ReadEntry(w, slot);
    Found(v, name);
    SplicedAt(v.disk, v.dir[slot].start * BLOCK, data, 0, 0);
  }

  /** Two files' bytes on the disk do not overlap. */
  lemma BytesApart(v: Volume, j: nat, k: nat)
    requires Inv(v) && j < |Files(v.dir)| && k < |Files(v.dir)| && j != k
    ensures var a, b := Files(v.dir)[j], Files(v.dir)[k];
            Last(a) * BLOCK <= b.start * BLOCK || Last(b) * BLOCK <= a.start * BLOCK
  {
    var files := Files(v.dir);
    assert Apart(files[if j < k then j else k], files[if j < k then k else j]);
  }

  lemma ReadMissing(v: Volume, name: string)
    requires Inv(v) && forall k :: 0 <= k < |Files(v.dir)| ==> Files(v.dir)[k].name != name
    ensures AllOnDisk(v) && Read(v, name) == Missing
  {
    InvOnDisk(v);
    Found(v, name);
  }

  /** A file that stays in its slot, and whose bytes stay, reads the same. */
  lemma ReadSame(v: Volume, w: Volume, k: nat)
    requires Inv(v) && Inv(w) && k < |Files(v.dir)| && k < |Files(w.dir)|
    requires Files(w.dir)[k] == Files(v.dir)[k]
    requires OnDisk(v, Files(v.dir)[k]) && OnDisk(w, Files(v.dir)[k])
    requires var e := Files(v.dir)[k];
             w.disk[e.start * BLOCK..e.start * BLOCK + e.size] == v.disk[e.start * BLOCK..e.start * BLOCK + e.size]
    ensures AllOnDisk(v) && AllOnDisk(w) && Read(w, Files(v.dir)[k].name) == Read(v, Files(v.dir)[k].name)
  {
    hide Inv, Files, Read, AllOnDisk;
    ReadEntry(v, k);
    ReadEntry(w, k);
  }

  lemma FileOnDisk(v: Volume, k: nat)
    requires Inv(v) && k < |Files(v.dir)|
    ensures OnDisk(v, Files(v.dir)[k])
  {
    assert Fits(Files(v.dir)[k], v.blocks);
  }

  lemma BytesStay(disk: seq<Byte>, a: Entry, data: seq<Byte>, e: Entry)
    requires Last(a) * BLOCK <= |disk| && Last(e) * BLOCK <= |disk|
    requires |data| <= a.reserved * BLOCK && e.size <= e.reserved * BLOCK
    requires Last(a) * BLOCK <= e.start * BLOCK || Last(e) * BLOCK <= a.start * BLOCK
    ensures var d := Spliced(disk, a.start * BLOCK, data);
            && |d| == |disk|
            && d[e.start * BLOCK..e.start * BLOCK + e.size] == disk[e.start * BLOCK..e.start * BLOCK + e.size]
  {
    SplicedAt(disk, a.start * BLOCK, data, e.start * BLOCK, e.start * BLOCK + e.size);
  }

  /** Where a successful write puts the bytes. */
  lemma WriteWhere(v: Volume, name: string, data: seq<Byte>) returns (slot: nat)
    requires |data| <= MAX_COUNT && Inv(v) && AllOnDisk(v) && Write(v, name, data).1 == Done
    ensures var w := Write(v, name, data).0;
            && slot < |Files(v.dir)| == |Files(w.dir)| && Files(v.dir)[slot].name == name
            && Files(w.dir) == Files(v.dir)[slot := Files(v.dir)[slot].(size := |data|)]
            && |data| <= Files(v.dir)[slot].reserved * BLOCK
            && Files(v.dir)[slot].start * BLOCK + |data| <= |v.disk|
            && w.disk == Spliced(v.disk, Files(v.dir)[slot].start * BLOCK, data)
  {
    slot := FindFile(v.dir, name);
    WriteKeeps(v, name, data);
    Found(v, name);
    FileOnDisk(v, slot);
  }

  /** What a successful write leaves in the slots and on the disk. */
  lemma WriteOther(v: Volume, name: string, data: seq<Byte>, k: nat)
    requires |data| <= MAX_COUNT
    requires Inv(v) && AllOnDisk(v) && Write(v, name, data).1 == Done && k < |Files(v.dir)|
    requires Files(v.dir)[k].name != name
    ensures var w := Write(v, name, data).0;
            var e := Files(v.dir)[k];
            && k < |Files(w.dir)| && Files(w.dir)[k] == e && OnDisk(v, e) && OnDisk(w, e)
            && w.disk[e.start * BLOCK..e.start * BLOCK + e.size] == v.disk[e.start * BLOCK..e.start * BLOCK + e.size]
  {
    var slot := WriteWhere(v, name, data);
    FileOnDisk(v, k);
    FileOnDisk(v, slot);
    BytesApart(v, slot, k);
    BytesStay(v.disk, Files(v.dir)[slot], data, Files(v.dir)[k]);
  }

  lemma WriteNames(v: Volume, name: string, data: seq<Byte>)
    requires |data| <= MAX_COUNT && Inv(v) && AllOnDisk(v) && Write(v, name, data).1 == Done
    ensures var w := Write(v, name, data).0;
            && Inv(w) && |Files(w.dir)| == |Files(v.dir)|
            && forall k :: 0 <= k < |Files(v.dir)| ==> Files(w.dir)[k].name == Files(v.dir)[k].name
  {
    WriteKeeps(v, name, data);
    Found(v, name);
    hide Inv, AllOnDisk, Write, FindFile;
  }

  /** Writing a file changes no other file. */
  lemma WriteSpares(v: Volume, name: string, data: seq<Byte>, other: string)
    requires |data| <= MAX_COUNT
    requires Inv(v) && AllOnDisk(v) && other != name
    ensures var w := Write(v, name, data).0; AllOnDisk(w) && Read(w, other) == Read(v, other)
  {
    var (w, r) := Write(v, name, data);
    if r != Done {
      WriteKeeps(v, name, data);
    } else if k: nat :| k < |Files(v.dir)| && Files(v.dir)[k].name == other {
      WriteKeeps(v, name, data);
      hide Inv, AllOnDisk, Write, Read, Files, OnDisk;
      WriteOther(v, name, data, k);
      ReadSame(v, w, k);
    } else {
      hide Inv, AllOnDisk, Write, Read, Files;
      WriteNames(v, name, data);
      ReadMissing(v, other);
      ReadMissing(w, other);
    }
  }

  lemma NewFileEmpty(v: Volume, w: Volume, name: string)
    requires Inv(v) && Inv(w) && |Files(w.dir)| == |Files(v.dir)| + 1
    requires Files(w.dir)[|Files(v.dir)|].name == name && Files(w.dir)[|Files(v.dir)|].size == 0
    ensures AllOnDisk(w) && Read(w, name) == Bytes([])
  {
    hide AllOnDisk, Read, Files;
    ReadEntry(w, |Files(v.dir)|);
  }

  /** Creating a file changes no other file, and the new one is empty. */
  lemma CreateSpares(v: Volume, name: string, megabytes: nat, other: string)
    requires Inv(v) && AllOnDisk(v) && v.blocks >= 2 && ValidName(name) && megabytes >= 1
    ensures var (w, r) := Create(v, name, megabytes);
            && AllOnDisk(w)
            && (r == Done ==> Read(w, name) == Bytes([]))
            && (other != name ==> Read(w, other) == Read(v, other))
  {
    assert |v.dir| == ENTRIES;
    hide Create;
    CreateAppends(v, name, megabytes);
    var (w, r) := Create(v, name, megabytes);
    assert |w.dir| == ENTRIES;
    hide *;
    if r == Done {
      NewFileEmpty(v, w, name);
      if other != name {
        AppendSpares(v, w, other);
      }
    } else {
      InvOnDisk(w);
    }
  }

  lemma CreateAppends(v: Volume, name: string, megabytes: nat)
    requires Inv(v) && v.blocks >= 2 && ValidName(name) && megabytes >= 1
    ensures var (w, r) := Create(v, name, megabytes);
            var n := |Files(v.dir)|;
            && Inv(w) && (r != Done ==> w == v)
            && (r == Done ==>
                  && w.disk == v.disk && |Files(w.dir)| == n + 1 && Files(w.dir)[..n] == Files(v.dir)
                  && Files(w.dir)[n].name == name && Files(w.dir)[n].size == 0)
  {
    CreateDoes(v, name, megabytes);
  }

  lemma AppendSpares(v: Volume, w: Volume, other: string)
    requires Inv(v) && Inv(w) && w.disk == v.disk && |Files(w.dir)| == |Files(v.dir)| + 1
    requires Files(w.dir)[..|Files(v.dir)|] == Files(v.dir) && Files(w.dir)[|Files(v.dir)|].name != other
    ensures AllOnDisk(v) && AllOnDisk(w) && Read(w, other) == Read(v, other)
  {
    InvOnDisk(v);
    InvOnDisk(w);
    PrefixAt(Files(v.dir), Files(w.dir));
    hide Inv, AllOnDisk, Read, Files;
    if k: nat :| k < |Files(v.dir)| && Files(v.dir)[k].name == other {
      SameFile(v, w, k);
    } else {
      ReadMissing(v, other);
      ReadMissing(w, other);
    }
  }

  lemma SameFile(v: Volume, w: Volume, k: nat)
    requires Inv(v) && Inv(w) && w.disk == v.disk && AllOnDisk(v) && AllOnDisk(w)
    requires k < |Files(v.dir)| && k < |Files(w.dir)| && Files(w.dir)[k] == Files(v.dir)[k]
    ensures Read(w, Files(v.dir)[k].name) == Read(v, Files(v.dir)[k].name)
  {
    hide Inv, AllOnDisk, Read, Files, OnDisk;
    FileOnDisk(v, k);
    FileOnDisk(w, k);
    ReadSame(v, w, k);
  }

  lemma PrefixAt<T>(s: seq<T>, t: seq<T>)
    requires |s| <= |t| && t[..|s|] == s
    ensures forall k :: 0 <= k < |s| ==> t[k] == s[k]
  {
    assert forall k :: 0 <= k < |s| ==> t[k] == t[..|s|][k];
  }

  // ---------------------------------------------------------------- directories with deleted entries

  /** Live entries come first, by starting block, and deleted ones after them. */
  ghost predicate InDiskOrder(s: seq<Entry>) {
    forall i, j :: 0 <= i < j < |s| ==> IsDeleted(s[j]) || (!IsDeleted(s[i]) && s[i].start <= s[j].start)
  }

  lemma {:induction false} InsertOrders(e: Entry, s: seq<Entry>)
    requires InDiskOrder(s)
    ensures InDiskOrder(Insert(e, s)) && multiset(Insert(e, s)) == multiset(s) + multiset{e}
  {
    if s == [] || Before(e, s[0]) {
      assert [e] + s == Insert(e, s);
    } else {
      assert s == [s[0]] + s[1..];
      InsertOrders(e, s[1..]);
      var r := Insert(e, s[1..]);
      forall j | 0 <= j < |r| ensures IsDeleted(r[j]) || (!IsDeleted(s[0]) && s[0].start <= r[j].start) {
        assert r[j] in multiset(r);
        assert r[j] == e || r[j] in s[1..];
      }
    }
  }

  /** The sort that create relies on, deleted entries included. */
  lemma {:induction false} SortOrders(s: seq<Entry>)
    ensures InDiskOrder(Sort(s)) && multiset(Sort(s)) == multiset(s)
  {
    if s != [] {
      assert s == [s[0]] + s[1..];
      SortOrders(s[1..]);
      InsertOrders(s[0], Sort(s[1..]));
    }
  }

  /**
   A directory with 64 entries and no end mark counts as empty: if one of them is deleted, create puts a new file at block 1
   as soon as the disk is large enough, whatever is there; and if it is the first one, the next entry becomes the end mark,
   and the other files are gone.
   */
  lemma FullDirectoryOverlaps(v: Volume, name: string, megabytes: nat, slot: nat)
    requires |v.dir| == 64 && (forall k :: 0 <= k < 64 ==> !IsEnd(v.dir[k]))
    requires slot < 64 && IsDeleted(v.dir[slot]) && forall k :: 0 <= k < slot ==> !IsDeleted(v.dir[k])
    requires forall k :: 0 <= k < 64 ==> IsDeleted(v.dir[k]) || v.dir[k].name != name
    requires 1 <= megabytes && 2 <= v.blocks <= 0x7FFF_FFFF && 1 + (megabytes + 1) / 2 + 1 <= v.blocks
    ensures var (w, r) := Create(v, name, megabytes);
            && r == Done
            && var dir := v.dir[slot := Entry(name, 1, (megabytes + 1) / 2, 0)];
               w == v.(dir := if slot == 0 then dir[1 := dir[1].(name := "")] else dir)
  {
    EndIs(v.dir, 0, 64);
    FreeIs(v.dir, 0, slot);
    assert v.dir[..0] == [];
    assert FindFile(v.dir, name) == 64;
    assert Sort(v.dir[..UsedEntries(v.dir)]) == [];
    hide EndFrom, FreeFrom, FindFrom, IsEnd, IsDeleted;
    assert Place(v.dir, BlocksFor(megabytes), v.blocks) == 1;
  }

  lemma {:induction false} FreeIs(dir: seq<Entry>, i: nat, n: nat)
    requires |dir| == ENTRIES && i <= n < ENTRIES && IsDeleted(dir[n])
    requires forall k :: i <= k < n ==> !IsEnd(dir[k]) && !IsDeleted(dir[k])
    ensures FreeFrom(dir, i) == n
    decreases n - i
  {
    if i < n {
      FreeIs(dir, i + 1, n);
    }
  }

  // ---------------------------------------------------------------- runs

  datatype Command = CreateFile(name: string, megabytes: nat) | WriteFile(name: string, data: seq<Byte>)

  /** Sizes that the utility's 32-bit loop counters can count to. */
  predicate Allowed(c: Command) {
    match c
    case CreateFile(name, megabytes) => ValidName(name) && 1 <= megabytes <= MAX_COUNT
    case WriteFile(name, data) => |data| <= MAX_COUNT
  }

  function Do(v: Volume, c: Command): Volume
    requires AllOnDisk(v) && Allowed(c)
  {
    match c
    case CreateFile(name, megabytes) => Create(v, name, megabytes).0
    case WriteFile(name, data) => Write(v, name, data).0
  }

  lemma DoKeeps(v: Volume, c: Command)
    requires Inv(v) && v.blocks >= 2 && Allowed(c)
    ensures AllOnDisk(v) && Inv(Do(v, c)) && Do(v, c).blocks == v.blocks
  {
    InvOnDisk(v);
    hide Inv, AllOnDisk, Create, Write;
    match c
    case CreateFile(name, megabytes) => CreateOutcome(v, name, megabytes);
    case WriteFile(name, data) => WriteKeeps(v, name, data);
  }

  lemma DoSpares(v: Volume, c: Command, other: string)
    requires Inv(v) && v.blocks >= 2 && Allowed(c) && other != c.name
    ensures AllOnDisk(v) && AllOnDisk(Do(v, c)) && Read(Do(v, c), other) == Read(v, other)
  {
    InvOnDisk(v);
    hide Inv, AllOnDisk, Create, Write, Read;
    match c
    case CreateFile(name, megabytes) => CreateSpares(v, name, megabytes, other);
    case WriteFile(name, data) => WriteSpares(v, name, data, other);
  }

  function Final(v: Volume, run: seq<Command>): Volume
    requires Inv(v) && v.blocks >= 2 && forall i :: 0 <= i < |run| ==> Allowed(run[i])
    decreases |run|
  {
    if run == [] then v
    else
      DoKeeps(v, run[0]);
      Final(Do(v, run[0]), run[1..])
  }

  /** However many files are created and written, none overlaps another, and a file that is not named keeps its contents. */
  lemma {:induction false} EveryRun(v: Volume, run: seq<Command>, other: string)
    requires Inv(v) && v.blocks >= 2 && forall i :: 0 <= i < |run| ==> Allowed(run[i])
    ensures Inv(Final(v, run)) && AllOnDisk(v) && AllOnDisk(Final(v, run))
    ensures (forall i :: 0 <= i < |run| ==> run[i].name != other) ==> Read(Final(v, run), other) == Read(v, other)
    decreases |run|
  {
    InvOnDisk(v);
    hide Inv, AllOnDisk, Do, Read, Allowed;
    if run != [] {
      DoKeeps(v, run[0]);
      if run[0].name != other {
        DoSpares(v, run[0], other);
      }
      EveryRun(Do(v, run[0]), run[1..], other);
    }
  }

  // ---------------------------------------------------------------- disks that are too small

  /**
   On a freshly formatted disk, create stays within the data blocks, or refuses, exactly if the disk has at least two
   blocks. With fewer the unsigned subtraction of the search wraps around, and any file is said to fit at block 1.
   */
  lemma SmallDisks(v: Volume, name: string, megabytes: nat)
    requires |v.dir| == ENTRIES && Files(v.dir) == [] && v.blocks <= MAX_BLOCKS
    requires 1 <= megabytes <= MAX_COUNT
    ensures var (w, r) := Create(v, name, megabytes);
            v.blocks >= 2 <==> r == NoSpace || 1 + (megabytes + 1) / 2 + 1 <= v.blocks
    ensures v.blocks < 2 ==> Place(v.dir, BlocksFor(megabytes), v.blocks) == 1
  {
    assert EndFrom(v.dir, 0) == 0;
    assert v.dir[..0] == [];
    assert Sort([]) == [];
  }
}
