/** Writer and reader of the simple wire format
    (fdbus/CFdbSimpleSerializer.cpp), working in place on a growing buffer. */
module Serializer {
  import opened Codec

  const SCRATCH_SIZE := 2048
  const BLOCK_SIZE := 1024

  lemma Associative(a: Bytes, b: Bytes, c: Bytes)
    ensures a + b + c == a + (b + c)
  {}

  class SimpleSerializer {
    const scratch: array<byte>
    var buffer: array<byte>
    var totalSize: nat
    var pos: nat

    /** The buffer is the scratch area, or a heap block of `totalSize` bytes. */
    ghost predicate Valid()
      reads this, scratch, buffer
    {
      && scratch.Length == SCRATCH_SIZE
      && buffer.Length == totalSize && pos <= totalSize
    }

    ghost function Written(): Bytes
      requires Valid()
      reads this, scratch, buffer
    {
      buffer[..pos]
    }

    constructor ()
      ensures Valid() && Written() == [] && fresh(scratch) && fresh(buffer)
    {
      var cache := new byte[SCRATCH_SIZE](_ => 0);
      scratch, buffer := cache, cache;
      totalSize, pos := SCRATCH_SIZE, 0;
    }

    /** Makes room for `size` more bytes, moving to the heap or growing there. */
    method AddMemory(size: nat)
      requires Valid()
      modifies this`buffer, this`totalSize
      ensures Valid() && pos + size <= totalSize
      ensures Written() == old(Written())
      ensures buffer == old(buffer) || fresh(buffer)
    {
      var newPos := pos + size;
      if buffer == scratch {
        if newPos > SCRATCH_SIZE {
          totalSize := totalSize + size + BLOCK_SIZE;
          MoveTo(totalSize);
        }
        return;
      }
      var oldTotal := totalSize;
      if newPos > totalSize {
        if size < BLOCK_SIZE {
          totalSize := totalSize + BLOCK_SIZE;
        } else {
          totalSize := totalSize + size + BLOCK_SIZE;
        }
      }
      if totalSize > oldTotal {
        MoveTo(totalSize);
      }
    }

    /** Continues in a new block with the bytes written so far. */
    method MoveTo(size: nat)
      requires pos <= buffer.Length && pos <= size
      modifies this`buffer
      ensures fresh(buffer) && buffer.Length == size && buffer[..pos] == old(buffer[..pos])
    {
      var block := new byte[size](_ => 0);
      forall i | 0 <= i < pos {
        block[i] := buffer[i];
      }
      buffer := block;
    }

    /** Copies `data` to the room after the written bytes. */
    method Copy(data: Bytes)
      requires Valid() && pos + |data| <= totalSize
      modifies buffer
      ensures Written() == old(Written())
      ensures buffer[pos..pos + |data|] == data
    {
      for i := 0 to |data|
        invariant buffer[..pos] == old(buffer[..pos])
        invariant buffer[pos..pos + i] == data[..i]
      {
        buffer[pos + i] := data[i];
      }
    }

    /** Copies `data` back to front to the room after the written bytes. */
    method CopyReversed(data: Bytes)
      requires Valid() && pos + |data| <= totalSize
      modifies buffer
      ensures Written() == old(Written())
      ensures buffer[pos..pos + |data|] == Reverse(data)
    {
      for i := 0 to |data|
        invariant buffer[..pos] == old(buffer[..pos])
        invariant buffer[pos..pos + i] == Reverse(data)[..i]
      {
        buffer[pos + i] := data[|data| - 1 - i];
      }
    }

    /** Appends an integer given as it is in memory; the wire is little-endian. */
    method AddBasicType(data: Bytes, little: bool)
      requires Valid()
      modifies this, buffer
      ensures Valid()
      ensures Written() == old(Written()) + (if little then data else Reverse(data))
      ensures buffer == old(buffer) || fresh(buffer)
    {
      AddMemory(|data|);
      if little {
        Copy(data);
      } else {
        CopyReversed(data);
      }
      assert buffer[..pos + |data|] == buffer[..pos] + buffer[pos..pos + |data|];
      pos := pos + |data|;
    }

    method AddRawData(data: Bytes)
      requires Valid()
      modifies this, buffer
      ensures Valid()
      ensures Written() == old(Written()) + data
      ensures buffer == old(buffer) || fresh(buffer)
    {
      AddMemory(|data|);
      Copy(data);
      assert buffer[..pos + |data|] == buffer[..pos] + buffer[pos..pos + |data|];
      pos := pos + |data|;
    }

    /** Appends the integer `v` in `width` bytes. */
    method AddInt(v: nat, width: nat, little: bool)
      requires Valid()
      modifies this, buffer
      ensures Valid()
      ensures Written() == old(Written()) + LittleEndian(v, width)
      ensures buffer == old(buffer) || fresh(buffer)
    {
      ReverseTwice(LittleEndian(v, width));
      AddBasicType(InMemory(v, width, little), little);
    }

    method AddString(chars: Bytes, little: bool)
      requires Valid()
      modifies this, buffer
      ensures Valid()
      ensures Written() == old(Written()) + Encode(Str(chars))
      ensures buffer == old(buffer) || fresh(buffer)
    {
      ghost var before := Written();
      var l := StringLength(|chars|);
      var text := (chars + [0])[..l];
      AddInt(l, 2, little);
      AddRawData(text);
      Associative(before, LittleEndian(l, 2), text);
    }

    /** Appends one item on a host of either endianness. */
    method Add(item: Item, little: bool)
      requires Valid()
      modifies this, buffer
      ensures Valid()
      ensures Written() == old(Written()) + Encode(item)
      ensures buffer == old(buffer) || fresh(buffer)
    {
      match item
      case Int(width, signed, v) =>
        AddInt(Pattern(width, v), width, little);
      case Str(chars) => AddString(chars, little);
      case Raw(block) => AddRawData(block);
    }

    /** The bytes on the wire depend on the items only, not on the host. */
    method AddAll(items: seq<Item>, little: bool)
      requires Valid()
      modifies this, buffer
      ensures Valid()
      ensures Written() == old(Written()) + EncodeAll(items)
      ensures buffer == old(buffer) || fresh(buffer)
    {
      for n := 0 to |items|
        invariant Valid() && (buffer == old(buffer) || fresh(buffer))
        invariant Written() + EncodeAll(items[n..]) == old(Written()) + EncodeAll(items)
      {
        ghost var before := Written();
        assert items[n..][1..] == items[n + 1..];
        Add(items[n], little);
        Associative(before, Encode(items[n]), EncodeAll(items[n + 1..]));
      }
      assert Written() + EncodeAll(items[|items|..]) == Written();
    }
  }

  /** The memory of an integer on either host gives the bytes back. */
  lemma MemoryToBytes(bytes: Bytes, memory: Bytes, little: bool)
    requires memory == if little then bytes else Reverse(bytes)
    ensures (if little then memory else Reverse(memory)) == bytes
  {
    ReverseTwice(bytes);
  }

  /** A reader over a buffer of known size. */
  class SimpleDeserializer {
    const buffer: Bytes
    var pos: nat
    var error: bool

    ghost predicate Valid()
      reads this
    {
      pos <= |buffer|
    }

    constructor (buffer: Bytes)
      ensures Valid() && this.buffer == buffer && pos == 0 && !error
    {
      this.buffer, pos, error := buffer, 0, false;
    }

    /** Rebuilds the integer's memory on this host, byte by byte. */
    method RetrieveBasicData(size: nat, little: bool) returns (memory: Bytes)
      requires Valid() && pos + size <= |buffer|
      modifies this`pos
      ensures Valid() && pos == old(pos) + size
      ensures memory == if little then buffer[old(pos)..pos] else Reverse(buffer[old(pos)..pos])
    {
      memory := [];
      for i := 0 to size
        invariant |memory| == i && pos == old(pos)
        invariant forall j | 0 <= j < i :: memory[j] == if little then buffer[pos + j] else buffer[pos + size - 1 - j]
      {
        memory := memory + [if little then buffer[pos + i] else buffer[pos + size - 1 - i]];
      }
      pos := pos + size;
    }

    method GetInt(width: nat, signed: bool, little: bool) returns (v: int)
      requires Valid()
      modifies this`pos, this`error
      ensures Valid()
      ensures var r := ReadInt(buffer, old(pos), width, signed);
              if old(error) then error && pos == old(pos)
              else if r.Ok? then !error && v == r.value && pos == r.pos
              else error && pos == old(pos)
    {
      v := 0;
      if error { return; }
      if pos + width > |buffer| {
        error := true;
        return;
      }
      ghost var start := pos;
      var memory := RetrieveBasicData(width, little);
      MemoryToBytes(buffer[start..start + width], memory, little);
      v := FromPattern(width, signed, FromLittleEndian(if little then memory else Reverse(memory)));
    }

    method GetString(little: bool) returns (chars: Bytes)
      requires Valid()
      modifies this`pos, this`error
      ensures Valid()
      ensures var r := ReadStr(buffer, old(pos));
              if old(error) then error
              else if r.Ok? then !error && chars == r.value && pos == r.pos
              else error
    {
      chars := [];
      var len := GetInt(2, false, little);
      if error || len == 0 { return; }
      if pos + len > |buffer| {
        error := true;
        return;
      }
      if buffer[pos + len - 1] != 0 {
        error := true;
        return;
      }
      chars := UpToNul(buffer[pos..pos + len]);
      pos := pos + len;
    }

    method GetRawData(size: nat) returns (ok: bool, block: Bytes)
      requires Valid()
      modifies this`pos
      ensures Valid()
      ensures var r := ReadRaw(buffer, old(pos), size);
              if r.Ok? then ok && block == r.value && pos == r.pos else !ok && pos == old(pos)
    {
      if pos + size > |buffer| {
        return false, [];
      }
      ok, block := true, buffer[pos..pos + size];
      pos := pos + size;
    }
  }
}
