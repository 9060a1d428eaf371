/** The BMFS utility: the directory buffer and the disk, edited in place. */
module BmfsClass {
  import opened Words
  import opened BmfsSpec
  import opened BmfsProofs

  class Bmfs {
    const directory: array<Entry>
    const disk: array<Byte>
    const blocks: nat

    /** A disk of so many bytes, before it is formatted. */
    constructor (disk: array<Byte>)
      requires disk.Length / 1048576 < 0x1_0000_0000
      ensures Valid() && this.disk == disk && blocks == disk.Length / 1048576 / 2
      ensures fresh(directory)
    {
      this.disk := disk;
      directory := new Entry[ENTRIES](_ => Entry("", 0, 0, 0));
      blocks := disk.Length / 1048576 / 2;
    }

    ghost predicate Valid()
      reads this
    {
      directory.Length == ENTRIES && blocks <= MAX_BLOCKS && blocks * BLOCK <= disk.Length
    }

    ghost function Value(): Volume
      reads this, directory, disk
    {
      Volume(directory[..], disk[..], blocks)
    }

    method FindFile(name: string) returns (slot: nat)
      requires Valid()
      ensures slot == BmfsSpec.FindFile(directory[..], name)
    {
      var i := 0;
      while i < ENTRIES
        invariant 0 <= i <= ENTRIES
        invariant FindFrom(directory[..], name, i) == BmfsSpec.FindFile(directory[..], name)
      {
        if IsEnd(directory[i]) {
          return ENTRIES;
        } else if IsDeleted(directory[i]) {
        } else if name == directory[i].name {
          return i;
        }
        i := i + 1;
      }
      return ENTRIES;
    }

    method Format()
      requires Valid()
      modifies directory
      ensures Value() == BmfsSpec.Format(old(Value())) && Inv(Value()) && Files(directory[..]) == []
    {
      FormatInv(Value());
      var i := 0;
      while i < ENTRIES
        invariant 0 <= i <= ENTRIES
        invariant forall k :: 0 <= k < i ==> directory[k] == Entry("", 0, 0, 0)
      {
        directory[i] := Entry("", 0, 0, 0);
        i := i + 1;
      }
      assert directory[..] == BmfsSpec.Format(old(Value())).dir;
    }

    /** create's count of the entries in use, and its choice of a slot: 64 if there is none. */
    method CountEntries() returns (used: nat, slot: nat)
      requires Valid()
      ensures used == UsedEntries(directory[..]) && slot == FreeFrom(directory[..], 0)
    {
      ghost var dir := directory[..];
      used, slot := 0, ENTRIES;
      var i := 0;
      while i < ENTRIES
        invariant 0 <= i <= ENTRIES && used == 0
        invariant EndFrom(dir, 0) == EndFrom(dir, i)
        invariant if slot == ENTRIES then FreeFrom(dir, 0) == FreeFrom(dir, i) else FreeFrom(dir, 0) == slot
      {
        if IsEnd(directory[i]) {
          used := i;
          if slot == ENTRIES {
            slot := i;
          }
          break;
        } else if IsDeleted(directory[i]) {
          if slot == ENTRIES {
            slot := i;
          }
        }
        i := i + 1;
      }
    }

    /** create's walk over the sorted copy of the directory; 0 if no gap is large enough. */
    method FindPlace(s: seq<Entry>, request: nat) returns (start: nat)
      ensures start == PlaceFrom(s, 0, 1, request, blocks)
    {
      start := 0;
      var end: nat := 1;
      var i := 0;
      while i < |s| + 1
        invariant 0 <= i <= |s| + 1 && start == 0
        invariant if i <= |s| then PlaceFrom(s, i, end, request, blocks) == PlaceFrom(s, 0, 1, request, blocks)
                  else PlaceFrom(s, 0, 1, request, blocks) == 0
      {
        var next: nat;
        if i == |s| || IsDeleted(s[i]) {
          next := U64(blocks - 1);
        } else {
          next := s[i].start;
        }
        if U64(next - end) >= request {
          start := end;
          break;
        }
        if i < |s| {
          end := U64(s[i].start + s[i].reserved);
        }
        i := i + 1;
      }
    }

    method Create(name: string, megabytes: nat) returns (r: Outcome)
      requires Valid() && ValidName(name) && megabytes >= 1
      modifies directory
      ensures Valid() && (Value(), r) == BmfsSpec.Create(old(Value()), name, megabytes)
    {
      hide FindFrom, PlaceFrom, FreeFrom, EndFrom, Sort, WithFile, UsedEntries;
      var request := megabytes;
      if request % 2 != 0 {
        request := request + 1;
      }
      request := request / 2;
      var found := FindFile(name);
      if found != ENTRIES {
        return Exists;
      }
      var used, slot := CountEntries();
      if slot == ENTRIES {
        return DirectoryFull;
      }
      var start := FindPlace(Sort(directory[..used]), request);
      if start == 0 {
        return NoSpace;
      }
      AddEntry(slot, used, Entry(name, start, request, 0));
      return Done;
    }

    method AddEntry(slot: nat, used: nat, e: Entry)
      requires Valid() && slot < ENTRIES && used < ENTRIES
      modifies directory
      ensures directory[..] == WithFile(old(directory[..]), slot, used, e)
    {
      directory[slot] := e;
      assert directory[..] == old(directory[..])[slot := e];
      if slot == used && used + 1 < ENTRIES {
        directory[used + 1] := directory[used + 1].(name := "");
      }
    }

    /** write, with the bytes of the local file. */
    method Write(name: string, data: seq<Byte>) returns (r: Outcome)
      requires Valid() && AllOnDisk(Value()) && |data| <= MAX_COUNT
      modifies directory, disk
      ensures Valid() && (Value(), r) == BmfsSpec.Write(old(Value()), name, data)
    {
      var slot := FindFile(name);
      if slot == ENTRIES {
        return NotFound;
      }
      var e := directory[slot];
      assert OnDisk(Value(), e);
      if e.reserved * BLOCK < |data| {
        return NoSpace;
      }
      PutBytes(e.start * BLOCK, data);
      directory[slot] := e.(size := |data|);
      return Done;
    }

    /** The byte loop of write. */
    method PutBytes(at: nat, data: seq<Byte>)
      requires at + |data| <= disk.Length
      modifies disk
      ensures disk[..] == Spliced(old(disk[..]), at, data)
    {
      var i := 0;
      while i < |data|
        invariant 0 <= i <= |data|
        invariant forall k :: 0 <= k < disk.Length ==>
                    disk[k] == if at <= k < at + i then data[k - at] else old(disk[k])
      {
        disk[at + i] := data[i];
        i := i + 1;
      }
      SplicedIs(old(disk[..]), at, data, disk[..]);
    }

    /** read: the bytes that go to the local file. */
    method Read(name: string) returns (r: Contents)
      requires Valid() && AllOnDisk(Value())
      ensures r == BmfsSpec.Read(Value(), name)
    {
      var slot := FindFile(name);
      if slot == ENTRIES {
        return Missing;
      }
      var e := directory[slot];
      assert OnDisk(Value(), e);
      var at := e.start * BLOCK;
      var bytes: seq<Byte> := [];
      var i := 0;
      while i < e.size
        invariant 0 <= i <= e.size && bytes == disk[at..at + i]
      {
        bytes := bytes + [disk[at + i]];
        i := i + 1;
      }
      return Bytes(bytes);
    }
  }
}
