/**
 A block of raw memory with a bump pointer.
 */
module RawBlock {
  import opened Options

  type Byte = x: int | 0 <= x < 256

  /** The contents of a block: its bytes, and how many of them are handed out. */
  datatype Block = Block(bytes: seq<Byte>, ptr: nat)

  predicate GoodBlock(block: Block)
  {
    block.ptr <= |block.bytes|
  }

  function FreeSpace(block: Block): nat
    requires GoodBlock(block)
  {
    |block.bytes| - block.ptr
  }

  /** A block of twice the size that starts with what was handed out of the old one. */
  predicate Grown(block: Block, block': Block)
  {
    && GoodBlock(block) && GoodBlock(block')
    && |block'.bytes| == 2 * |block.bytes| && block'.ptr == block.ptr
    && block'.bytes[..block.ptr] == block.bytes[..block.ptr]
  }

  class RawBlock {
    var bytes: array<Byte>
    var ptr: nat

    ghost predicate Valid()
      reads this
    {
      ptr <= bytes.Length
    }

    ghost function Value(): (r: Block)
      requires Valid()
      reads this, bytes
      ensures GoodBlock(r)
    {
      Block(bytes[..], ptr)
    }

    /** init_at_size: fresh memory, none of it handed out. */
    constructor (cap: nat, init: nat -> Byte)
      ensures Valid() && fresh(bytes) && bytes.Length == cap && ptr == 0
    {
      bytes := new Byte[cap](init);
      ptr := 0;
    }

    /** Hands out the next `size` bytes, or nothing if they do not fit. */
    method Alloc(size: nat) returns (at: Option<nat>)
      requires Valid()
      modifies this`ptr
      ensures Valid() && bytes == old(bytes)
      ensures at.Some? <==> old(ptr) + size <= bytes.Length
      ensures at.Some? ==> at.value == old(ptr) && ptr == old(ptr) + size
      ensures at.None? ==> ptr == old(ptr)
    {
      if bytes.Length - ptr >= size {
        at := Some(ptr);
        ptr := ptr + size;
      } else {
        at := None;
      }
    }

    /** A new block, twice as large, with a copy of everything handed out so far. */
    method GrowNew(init: nat -> Byte) returns (block: RawBlock)
      requires Valid()
      ensures block.Valid() && fresh(block) && fresh(block.bytes)
      ensures Grown(Value(), block.Value())
    {
      block := new RawBlock(2 * bytes.Length, init);
      var used := ptr;
      for i := 0 to used
        invariant block.Valid() && fresh(block) && fresh(block.bytes) && block.bytes.Length == 2 * bytes.Length
                && block.ptr == 0
        invariant block.bytes[..i] == bytes[..i]
      {
        block.bytes[i] := bytes[i];
      }
      block.ptr := used;
      assert block.bytes[..][..used] == block.bytes[..used] && bytes[..][..used] == bytes[..used];
    }
  }
}
