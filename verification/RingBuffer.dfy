/**
 The byte ring of sdk_src/utils/utils_ringbuff.c. One cell always stays free, so equal indices mean
 an empty ring; the flag `full` only records that some push was cut short and no pop clears it.
 */
module RingBuffer {
  import opened Arithmetic

  const Ok := 0
  const Full := -4
  const TooShort := -5

  /** C compares an int with an unsigned as unsigned. */
  predicate Exceeds(len: int32, size: uint32) {
    (if len < 0 then len + 0x1_0000_0000 else len) > size
  }

  /** The bytes stored between two indices. */
  function Stored(size: nat, readpoint: nat, writepoint: nat): nat
    requires readpoint < size && writepoint < size
  {
    if readpoint <= writepoint then writepoint - readpoint else size - readpoint + writepoint
  }

  /** The cell of the i-th stored byte. */
  function Cell(size: nat, readpoint: nat, i: nat): nat
    requires readpoint < size && i < size - 1
  {
    if readpoint + 1 + i < size then readpoint + 1 + i else readpoint + 1 + i - size
  }

  function Next(size: nat, at: nat): nat
    requires at < size
  {
    if at + 1 == size then 0 else at + 1
  }

  lemma NextIsModulo(size: nat, at: nat)
    requires at < size
    ensures (at + 1) % size == Next(size, at)
  {
    DivisionUnique(at + 1, size, if at + 1 == size then 1 else 0, Next(size, at));
  }

  /** The stored bytes, oldest first. */
  function Bytes(cells: seq<byte>, size: nat, readpoint: nat, writepoint: nat): (s: seq<byte>)
    requires size <= |cells| && readpoint < size && writepoint < size
    ensures |s| == Stored(size, readpoint, writepoint)
  {
    seq(Stored(size, readpoint, writepoint),
        i requires 0 <= i < Stored(size, readpoint, writepoint) => cells[Cell(size, readpoint, i)])
  }

  /** Writing the cell after the last one appends, unless it is the one that has to stay free. */
  lemma Appended(cells: seq<byte>, size: nat, readpoint: nat, writepoint: nat, b: byte)
    requires size <= |cells| && readpoint < size && writepoint < size && Next(size, writepoint) != readpoint
    ensures var w := Next(size, writepoint);
            Bytes(cells[w := b], size, readpoint, w) == Bytes(cells, size, readpoint, writepoint) + [b]
  {
    var w := Next(size, writepoint);
    var (was, now) := (Bytes(cells, size, readpoint, writepoint), Bytes(cells[w := b], size, readpoint, w));
    assert |now| == |was| + 1;
    forall i | 0 <= i < |now| ensures now[i] == (was + [b])[i] {
      assert now[i] == cells[w := b][Cell(size, readpoint, i)];
    }
  }

  /** Moving the read index drops the oldest byte, which then is the one it points at. */
  lemma Dropped(cells: seq<byte>, size: nat, readpoint: nat, writepoint: nat)
    requires size <= |cells| && readpoint < size && writepoint < size && writepoint != readpoint
    ensures var (r, was) := (Next(size, readpoint), Bytes(cells, size, readpoint, writepoint));
            |was| > 0 && was[0] == cells[r] && Bytes(cells, size, r, writepoint) == was[1..]
  {
    var (r, was) := (Next(size, readpoint), Bytes(cells, size, readpoint, writepoint));
    var now := Bytes(cells, size, r, writepoint);
    assert |now| == |was| - 1;
    forall i | 0 <= i < |now| ensures now[i] == was[1..][i] {
      assert now[i] == cells[Cell(size, r, i)] && was[i + 1] == cells[Cell(size, readpoint, i + 1)];
    }
  }

  /** The next byte goes from the stored ones to the caller's buffer. */
  lemma Delivered(stored: seq<byte>, o: seq<byte>, i: nat)
    requires i < |stored| && i < |o|
    ensures stored[i..] == [stored[i]] + stored[i + 1..]
    ensures (stored[..i] + o[i..])[i := stored[i]] == stored[..i + 1] + o[i + 1..]
  {
  }

  class Ring {
    var size: uint32
    var readpoint: uint32
    var writepoint: uint32
    var buffer: array<byte>
    var full: bool

    ghost predicate Valid() reads this {
      && size <= buffer.Length
      && (if size == 0 then readpoint == 0 == writepoint else readpoint < size && writepoint < size)
    }

    /** What is stored, oldest byte first. */
    ghost function Contents(): seq<byte>
      requires Valid()
      reads this, buffer
    {
      if size == 0 then [] else Bytes(buffer[..], size, readpoint, writepoint)
    }

    /** ring_buff_init */
    constructor Init(buff: array<byte>, n: uint32)
      requires n <= buff.Length
      modifies buff
      ensures Valid() && size == n && buffer == buff && !full && Contents() == []
      ensures forall i :: 0 <= i < buff.Length ==> buff[i] == if i < n then 0 else old(buff[i])
    {
      buffer, size, readpoint, writepoint, full := buff, n, 0, 0, false;
      new;
      forall i | 0 <= i < n { buff[i] := 0; }
    }

    /** ring_buff_flush */
    method Flush() returns (r: int)
      requires Valid()
      modifies this, buffer
      ensures r == Ok && Valid() && size == old(size) && buffer == old(buffer) && !full && Contents() == []
      ensures forall i :: 0 <= i < buffer.Length ==> buffer[i] == if i < size then 0 else old(buffer[i])
    {
      readpoint, writepoint := 0, 0;
      forall i | 0 <= i < size { buffer[i] := 0; }
      full := false;
      return Ok;
    }

    /** ring_buff_push_data: stores the longest prefix that leaves one cell free. */
    method Push(data: seq<byte>, len: int32) returns (r: int)
      requires Valid() && len <= |data|
      modifies this`writepoint, this`full, buffer
      ensures Valid()
      ensures r == PushCode(size, old(|Contents()|), len)
      ensures full == (old(full) || r == Full)
      ensures len > size || (len < 0 && size < 0x8000_0000) ==> r == -5 && Contents() == old(Contents())
      ensures 0 < len <= size ==>
        var free := size - 1 - old(|Contents()|);
        if len <= free then r == 0 && Contents() == old(Contents()) + data[..len]
        else r == -4 && free >= 0 && Contents() == old(Contents()) + data[..free]
      ensures Contents() == old(Contents()) + data[..Accepts(size, old(|Contents()|), len)]
      ensures forall i :: size <= i < buffer.Length ==> buffer[i] == old(buffer[i])
    {
      hide Bytes;
      ghost var stored := |Contents()|;
      if Exceeds(len, size) { return TooShort; }
      var i := 0;
      while i < len
        invariant 0 <= i && (len >= 0 ==> i <= len) && (len < 0 ==> i == 0)
        invariant Valid() && |Contents()| == stored + i && full == old(full)
        invariant Contents() == old(Contents()) + data[..i]
        invariant forall j :: size <= j < buffer.Length ==> buffer[j] == old(buffer[j])
      {
        NextIsModulo(size, writepoint);
        if (writepoint + 1) % size == readpoint {
          assert i == Accepts(size, stored, len);
          full := true;
          return Full;
        }
        PushByte(data[i]);
        i := i + 1;
      }
      assert (if len < 0 then 0 else len) == Accepts(size, stored, len);
      return Ok;
    }

    /** One turn of the loop of ring_buff_push_data. */
    method PushByte(b: byte)
      requires Valid() && size > 0 && Next(size, writepoint) != readpoint
      modifies this`writepoint, buffer
      ensures Valid() && Contents() == old(Contents()) + [b]
      ensures forall i :: size <= i < buffer.Length ==> buffer[i] == old(buffer[i])
    {
      Appended(buffer[..], size, readpoint, writepoint, b);
      hide Bytes;
      ghost var cells := buffer[..];
      if writepoint < size - 1 {
        writepoint := writepoint + 1;
      } else {
        writepoint := 0;
      }
      buffer[writepoint] := b;
      assert buffer[..] == cells[writepoint := b];
    }

    /** ring_buff_pop_data: the oldest bytes, as many as were asked for and are there. */
    method Pop(out: array<byte>, len: int32) returns (r: int)
      requires Valid() && len <= out.Length && out != buffer
      modifies this`readpoint, out
      ensures Valid()
      ensures r == PopCode(size, old(|Contents()|), len)
      ensures len > size || (len < 0 && size < 0x8000_0000) ==>
        r == -5 && out[..] == old(out[..]) && Contents() == old(Contents())
      ensures 0 <= len <= size ==>
        && r == (if len <= old(|Contents()|) then len else old(|Contents()|))
        && out[..] == old(Contents())[..r] + old(out[..])[r..] && Contents() == old(Contents())[r..]
      ensures var n := Takes(size, old(|Contents()|), len);
              && out[..] == old(Contents())[..n] + old(out[..])[n..]
              && Contents() == old(Contents())[n..]
    {
      hide Bytes;
      ghost var (stored, o) := (Contents(), out[..]);
      if Exceeds(len, size) { return TooShort; }
      var i := 0;
      while i < len
        invariant 0 <= i && (len >= 0 ==> i <= len) && (len < 0 ==> i == 0)
        invariant Valid() && i <= |stored| && Contents() == stored[i..]
        invariant out[..] == stored[..i] + o[i..]
      {
        if writepoint == readpoint { break; }
        var b := PopByte();
        ghost var was := out[..];
        out[i] := b;
        assert out[..] == was[i := b];
        Delivered(stored, o, i);
        i := i + 1;
      }
      return i;
    }

    /** One turn of the loop of ring_buff_pop_data. */
    method PopByte() returns (b: byte)
      requires Valid() && size > 0 && writepoint != readpoint
      modifies this`readpoint
      ensures Valid() && old(Contents()) == [b] + Contents()
    {
      Dropped(buffer[..], size, readpoint, writepoint);
      hide Bytes;
      if readpoint == size - 1 {
        readpoint := 0;
      } else {
        readpoint := readpoint + 1;
      }
      return buffer[readpoint];
    }
  }

  // ---------------------------------------------------------------- what a call does to the contents

  /** How many of `len` bytes a push stores: the longest prefix that leaves one cell free. */
  function Accepts(size: uint32, stored: nat, len: int32): (n: nat)
    ensures n <= len || n == 0
    ensures 0 < len && !Exceeds(len, size) && stored < size ==> stored + n < size && (n < len ==> stored + n + 1 == size)
  {
    if Exceeds(len, size) || len < 0 then 0
    else if stored + len < size || len == 0 then len
    else if stored < size then size - 1 - stored else 0
  }

  function PushCode(size: uint32, stored: nat, len: int32): int {
    if Exceeds(len, size) then TooShort else if Accepts(size, stored, len) < len then Full else Ok
  }

  /** How many bytes a pop of `len` takes out. */
  function Takes(size: uint32, stored: nat, len: int32): (n: nat)
    ensures n <= stored
  {
    if Exceeds(len, size) || len < 0 then 0 else if len <= stored then len else stored
  }

  function PopCode(size: uint32, stored: nat, len: int32): int {
    if Exceeds(len, size) then TooShort else Takes(size, stored, len)
  }

  // ---------------------------------------------------------------- whole runs

  datatype Call = Push(data: seq<byte>) | Pop(len: int32)

  /** A run: what is stored at its end, and all that was accepted and popped on the way. */
  datatype Ledger = Ledger(stored: seq<byte>, accepted: seq<byte>, popped: seq<byte>)

  predicate Callable(calls: seq<Call>) {
    forall i :: 0 <= i < |calls| ==> calls[i].Push? ==> |calls[i].data| < 0x8000_0000
  }

  function After(size: uint32, start: seq<byte>, calls: seq<Call>): Ledger
    requires Callable(calls)
  {
    if calls == [] then Ledger(start, [], [])
    else
      var before := After(size, start, calls[..|calls| - 1]);
      Enter(size, before, calls[|calls| - 1])
  }

  function Enter(size: uint32, l: Ledger, call: Call): Ledger
    requires call.Push? ==> |call.data| < 0x8000_0000
  {
    match call
    case Push(data) =>
      var some := data[..Accepts(size, |l.stored|, |data|)];
      Ledger(l.stored + some, l.accepted + some, l.popped)
    case Pop(len) =>
      var n := Takes(size, |l.stored|, len);
      Ledger(l.stored[n..], l.accepted, l.popped + l.stored[..n])
  }

  /** No run loses, invents or reorders a byte, and none stores more than size - 1. */
  lemma {:induction false} RunConserves(size: uint32, start: seq<byte>, calls: seq<Call>)
    requires Callable(calls) && |start| <= (if size == 0 then 0 else size - 1)
    ensures var l := After(size, start, calls);
            && start + l.accepted == l.popped + l.stored
            && |l.stored| <= (if size == 0 then 0 else size - 1)
  {
    if calls != [] {
      var call := calls[|calls| - 1];
      RunConserves(size, start, calls[..|calls| - 1]);
      var l := After(size, start, calls[..|calls| - 1]);
      match call
      case Push(data) =>
        var some := data[..Accepts(size, |l.stored|, |data|)];
        assert start + (l.accepted + some) == (start + l.accepted) + some;
        assert l.popped + (l.stored + some) == (l.popped + l.stored) + some;
      case Pop(len) =>
        var n := Takes(size, |l.stored|, len);
        assert l.stored == l.stored[..n] + l.stored[n..];
        assert (l.popped + l.stored[..n]) + l.stored[n..] == l.popped + l.stored;
    }
  }

  /** From an empty ring the popped bytes are a prefix of the accepted ones, the rest is stored. */
  lemma PoppedIsPrefix(size: uint32, calls: seq<Call>)
    requires Callable(calls)
    ensures var l := After(size, [], calls);
            l.popped <= l.accepted && l.stored == l.accepted[|l.popped|..]
  {
    RunConserves(size, [], calls);
    var l := After(size, [], calls);
    assert [] + l.accepted == l.accepted;
  }

  /** Runs the calls on a ring. */
  method Drive(ring: Ring, calls: seq<Call>) returns (popped: seq<byte>)
    requires ring.Valid() && Callable(calls)
    modifies ring, ring.buffer
    ensures ring.Valid() && ring.size == old(ring.size) && ring.buffer == old(ring.buffer)
    ensures ring.Contents() == After(ring.size, old(ring.Contents()), calls).stored
    ensures popped == After(ring.size, old(ring.Contents()), calls).popped
  {
    popped := [];
    ghost var (size, start) := (ring.size, ring.Contents());
    ghost var l := Ledger(start, [], []);
    hide Bytes, Enter;
    assert calls[..0] == [];
    for i := 0 to |calls|
      invariant ring.Valid() && ring.size == size && ring.buffer == old(ring.buffer)
      invariant l == After(size, start, calls[..i]) && l.stored == ring.Contents() && l.popped == popped
    {
      assert calls[..i + 1][..i] == calls[..i];
      var some := Perform(ring, calls[i]);
      l := Enter(size, l, calls[i]);
      popped := popped + some;
    }
    assert calls[..|calls|] == calls;
  }

  method Perform(ring: Ring, call: Call) returns (popped: seq<byte>)
    requires ring.Valid() && (call.Push? ==> |call.data| < 0x8000_0000)
    modifies ring, ring.buffer
    ensures ring.Valid() && ring.size == old(ring.size) && ring.buffer == old(ring.buffer)
    ensures forall l: Ledger :: l.stored == old(ring.Contents()) ==>
      var m := Enter(ring.size, l, call); m.stored == ring.Contents() && m.popped == l.popped + popped
  {
    match call
    case Push(data) =>
      var _ := ring.Push(data, |data|);
      popped := [];
    case Pop(len) =>
      var out := new byte[if len < 0 then 0 else len];
      var n := ring.Pop(out, len);
      popped := if n > 0 then out[..n] else [];
  }
}
