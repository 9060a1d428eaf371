/** The ring buffer of a pipe: what the critical sections of readPipe and writePipe do to it. */
module PipeRing {

  type Byte = b: int | 0 <= b < 256

  const PIPE_BUFFER_SIZE: nat := 512

  datatype Ring = Ring(buffer: seq<Byte>, readIdx: nat, writeIdx: nat, count: nat)

  predicate Valid(r: Ring) {
    && |r.buffer| == PIPE_BUFFER_SIZE && r.count <= PIPE_BUFFER_SIZE
    && r.readIdx < PIPE_BUFFER_SIZE && r.writeIdx < PIPE_BUFFER_SIZE
    && r.writeIdx == (r.readIdx + r.count) % PIPE_BUFFER_SIZE
  }

  /** The bytes in the pipe, oldest first: `count` cells from readIdx on, wrapping around. */
  function Held(r: Ring): (h: seq<Byte>)
    requires Valid(r)
    ensures |h| == r.count
  {
    seq(r.count, i requires 0 <= i < r.count => r.buffer[(r.readIdx + i) % PIPE_BUFFER_SIZE])
  }

  function Put(r: Ring, b: Byte): Ring
    requires Valid(r)
  {
    Ring(r.buffer[r.writeIdx := b], r.readIdx, (r.writeIdx + 1) % PIPE_BUFFER_SIZE, r.count + 1)
  }

  function Front(r: Ring): Byte
    requires Valid(r)
  {
    r.buffer[r.readIdx]
  }

  function Drop(r: Ring): Ring
    requires Valid(r) && r.count > 0
  {
    Ring(r.buffer, (r.readIdx + 1) % PIPE_BUFFER_SIZE, r.writeIdx, r.count - 1)
  }

  /** Writing into a pipe that is not full appends the byte, and overwrites no byte that is still unread. */
  lemma PutAppends(r: Ring, b: Byte)
    requires Valid(r) && r.count < PIPE_BUFFER_SIZE
    ensures Valid(Put(r, b)) && Held(Put(r, b)) == Held(r) + [b]
  {
    var t := Put(r, b);
    NextIndex(r.readIdx, r.count);
    forall i | 0 <= i < t.count
      ensures Held(t)[i] == (Held(r) + [b])[i]
    {
      if i < r.count {
        OtherIndex(r.readIdx, i, r.count);
      }
    }
  }

  lemma NextIndex(start: nat, count: nat)
    requires start < PIPE_BUFFER_SIZE && count < PIPE_BUFFER_SIZE
    ensures ((start + count) % PIPE_BUFFER_SIZE + 1) % PIPE_BUFFER_SIZE == (start + count + 1) % PIPE_BUFFER_SIZE
  {
  }

  lemma OtherIndex(start: nat, i: nat, j: nat)
    requires start < PIPE_BUFFER_SIZE && i < j < PIPE_BUFFER_SIZE
    ensures (start + i) % PIPE_BUFFER_SIZE != (start + j) % PIPE_BUFFER_SIZE
  {
  }

  /** Reading from a pipe that is not empty takes its oldest byte. */
  lemma DropPops(r: Ring)
    requires Valid(r) && r.count > 0
    ensures Valid(Drop(r)) && Held(r) == [Front(r)] + Held(Drop(r))
  {
    var t := Drop(r);
    ShiftedIndex(r.readIdx, r.count - 1);
    assert Valid(t);
    hide Valid;
    forall i | 0 <= i < t.count
      ensures Held(r)[i + 1] == Held(t)[i]
    {
      ShiftedIndex(r.readIdx, i);
    }
    assert Held(r)[0] == Front(r);
  }

  lemma ShiftedIndex(start: nat, i: nat)
    requires start < PIPE_BUFFER_SIZE && i < PIPE_BUFFER_SIZE
    ensures (start + (i + 1)) % PIPE_BUFFER_SIZE == ((start + 1) % PIPE_BUFFER_SIZE + i) % PIPE_BUFFER_SIZE
  {
  }

  /** How a critical section of readPipe ends. */
  datatype Outcome = Moved | LastByte | Retry | EndOfFile

  /** One slot of the kernel's pipe table. */
  class Pipe {
    var buffer: array<Byte>
    var readIdx: nat
    var writeIdx: nat
    var count: nat
    var readers: nat
    var writers: nat
    var isOpen: bool

    ghost function Value(): Ring
      reads this, buffer
    {
      Ring(buffer[..], readIdx, writeIdx, count)
    }

    constructor ()
      ensures fresh(buffer) && Valid(Value()) && Held(Value()) == [] && !isOpen
    {
      buffer := new Byte[PIPE_BUFFER_SIZE](_ => 0);
      readIdx := 0;
      writeIdx := 0;
      count := 0;
      readers := 0;
      writers := 0;
      isOpen := false;
    }

    /** createPipe, once it has found this slot closed. */
    method Open()
      requires buffer.Length == PIPE_BUFFER_SIZE && !isOpen
      modifies this, buffer
      ensures buffer == old(buffer) && isOpen && readers == 1 && writers == 1
      ensures Valid(Value()) && Held(Value()) == [] && readIdx == writeIdx == 0
      ensures forall k :: 0 <= k < buffer.Length ==> buffer[k] == 0
    {
      readIdx := 0;
      writeIdx := 0;
      count := 0;
      readers := 1;
      writers := 1;
      var j := 0;
      while j < PIPE_BUFFER_SIZE
        invariant 0 <= j <= PIPE_BUFFER_SIZE
        invariant forall k :: 0 <= k < j ==> buffer[k] == 0
        modifies buffer
      {
        buffer[j] := 0;
        j := j + 1;
      }
      isOpen := true;
    }

    /** The critical section of readPipe. */
    method ReadSection() returns (outcome: Outcome, byte: Byte)
      requires Valid(Value())
      modifies this`readIdx, this`count
      ensures Valid(Value())
      ensures old(count) > 0 ==>
                && Held(old(Value())) == [byte] + Held(Value()) && Value() == Drop(old(Value()))
                && outcome == if writers == 0 && count == 0 then LastByte else Moved
      ensures old(count) == 0 ==>
                Value() == old(Value()) && outcome == if writers == 0 then EndOfFile else Retry
    {
      byte := 0;
      if count == 0 && writers == 0 {
        return EndOfFile, byte;
      }
      if count > 0 {
        DropPops(Value());
        byte := buffer[readIdx];
        readIdx := (readIdx + 1) % PIPE_BUFFER_SIZE;
        count := count - 1;
        if writers == 0 && count == 0 {
          return LastByte, byte;
        }
        return Moved, byte;
      } else {
        return Retry, byte;
      }
    }

    /** The critical section of writePipe; the byte is lost when the ring is full. */
    method WriteSection(byte: Byte) returns (stored: bool)
      requires Valid(Value())
      modifies this`writeIdx, this`count, buffer
      ensures Valid(Value()) && stored == (old(count) < PIPE_BUFFER_SIZE)
      ensures stored ==> Held(Value()) == Held(old(Value())) + [byte] && Value() == Put(old(Value()), byte)
      ensures !stored ==> Value() == old(Value())
    {
      if count < PIPE_BUFFER_SIZE {
        PutAppends(Value(), byte);
        buffer[writeIdx] := byte;
        writeIdx := (writeIdx + 1) % PIPE_BUFFER_SIZE;
        count := count + 1;
        return true;
      }
      return false;
    }
  }
}
