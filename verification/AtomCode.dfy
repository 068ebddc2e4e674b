/**
 Atoms as numbers: short strings are stored in the number itself, static strings by their
 position in a fixed list, all others by their position in the atom table's block.
 */
module AtomCode {
  import opened RawBlock

  type Text = seq<Byte>

  const INLINED_ATOM_MAX_LEN := 6
  const HEADER_SIZE := 8
  const ATOM_TABLE_ALIGN := 8
  const MAX_TEXT := 0x4_0000_0000_0000

  // ----- little-endian numbers -----

  function FromLe(bytes: seq<Byte>): nat
  {
    if bytes == [] then 0 else bytes[0] + 256 * FromLe(bytes[1..])
  }

  function ToLe(n: nat, size: nat): (r: seq<Byte>)
    ensures |r| == size
  {
    if size == 0 then [] else [n % 256] + ToLe(n / 256, size - 1)
  }

  function Power(size: nat): nat
  {
    if size == 0 then 1 else 256 * Power(size - 1)
  }

  lemma {:induction false} BytesBack(bytes: seq<Byte>)
    ensures ToLe(FromLe(bytes), |bytes|) == bytes
  {
    if bytes != [] {
      BytesBack(bytes[1..]);
      assert FromLe(bytes) % 256 == bytes[0] && FromLe(bytes) / 256 == FromLe(bytes[1..]);
    }
  }

  lemma {:induction false} NumberBack(n: nat, size: nat)
    requires n < Power(size)
    ensures FromLe(ToLe(n, size)) == n
  {
    if size > 0 {
      assert n / 256 < Power(size - 1);
      NumberBack(n / 256, size - 1);
      assert ToLe(n, size)[1..] == ToLe(n / 256, size - 1);
    }
  }

  // ----- inlined atoms -----

  predicate Inlinable(s: Text)
  {
    s != [] && |s| <= INLINED_ATOM_MAX_LEN && 0 !in s
  }

  function Zeros(n: nat): (r: seq<Byte>)
    ensures |r| == n && forall i :: 0 <= i < n ==> r[i] == 0
  {
    seq(n, i => 0)
  }

  /** new_inlined: the bytes, padded with zeros, are the number. */
  function NewInlined(s: Text): nat
    requires |s| <= INLINED_ATOM_MAX_LEN
  {
    2 * FromLe(s + Zeros(8 - |s|)) + 1
  }

  /** The position of the first zero byte. */
  function FirstZero(bytes: seq<Byte>): (r: nat)
    ensures r <= |bytes| && 0 !in bytes[..r] && (r < |bytes| ==> bytes[r] == 0)
  {
    if bytes == [] || bytes[0] == 0 then 0
    else
      var r := 1 + FirstZero(bytes[1..]);
      assert bytes[..r] == [bytes[0]] + bytes[1..][..r - 1];
      r
  }

  function InlinedToStr(bytes: seq<Byte>): Text
    requires |bytes| == 8
  {
    var slice := FirstZero(bytes);
    if slice == |bytes| then bytes[..INLINED_ATOM_MAX_LEN] else bytes[..slice]
  }

  lemma {:induction false} FirstZeroAt(bytes: seq<Byte>, n: nat)
    requires n < |bytes| && 0 !in bytes[..n] && bytes[n] == 0
    ensures FirstZero(bytes) == n
  {
    if n > 0 {
      assert bytes[0] in bytes[..n] && bytes[1..][..n - 1] == bytes[..n][1..];
      FirstZeroAt(bytes[1..], n - 1);
    }
  }

  /** An inlined atom decodes to the string it was made from. */
  lemma {:induction false} InlinedBack(s: Text)
    requires Inlinable(s)
    ensures NewInlined(s) % 2 == 1 && InlinedToStr(ToLe(NewInlined(s) / 2, 8)) == s
  {
    var bytes := s + Zeros(8 - |s|);
    BytesBack(bytes);
    assert bytes[..|s|] == s;
    FirstZeroAt(bytes, |s|);
  }

  // ----- table atoms -----

  /** The room a string takes in the block: header and bytes, rounded up to the alignment. */
  function EntrySize(s: Text): (r: nat)
    ensures HEADER_SIZE + |s| <= r < HEADER_SIZE + |s| + ATOM_TABLE_ALIGN && r % ATOM_TABLE_ALIGN == 0
  {
    (HEADER_SIZE + |s| + ATOM_TABLE_ALIGN - 1) / ATOM_TABLE_ALIGN * ATOM_TABLE_ALIGN
  }

  /** The header: a mark bit, which is clear, below the length. */
  function Header(len: nat): (r: seq<Byte>)
    ensures |r| == HEADER_SIZE
  {
    ToLe(2 * len, HEADER_SIZE)
  }

  function HeaderLen(bytes: seq<Byte>): nat
  {
    FromLe(bytes) / 2 % MAX_TEXT
  }

  lemma {:induction false} HeaderBack(len: nat)
    requires len < MAX_TEXT
    ensures HeaderLen(Header(len)) == len
  {
    assert Power(8) == 0x1_0000_0000_0000_0000 by {
      assert Power(4) == 0x1_0000_0000;
      assert Power(6) == 0x1_0000_0000_0000;
    }
    NumberBack(2 * len, 8);
  }

  /** The string stored at an offset of the block. */
  function Stored(block: Block, off: nat): Text
  {
    if off + HEADER_SIZE > |block.bytes| then []
    else
      var len := HeaderLen(block.bytes[off..off + HEADER_SIZE]);
      if off + HEADER_SIZE + len > |block.bytes| then [] else block.bytes[off + HEADER_SIZE..off + HEADER_SIZE + len]
  }

  /** The entry for `s` is at `off`, within what was handed out. */
  predicate Holds(block: Block, off: nat, s: Text)
  {
    && GoodBlock(block) && |s| < MAX_TEXT && off + HEADER_SIZE + |s| <= block.ptr
    && block.bytes[off..off + HEADER_SIZE + |s|] == Header(|s|) + s
  }

  lemma {:induction false} HoldsStored(block: Block, off: nat, s: Text)
    requires Holds(block, off, s)
    ensures Stored(block, off) == s
  {
    hide Header, HeaderLen;
    var entry := block.bytes[off..off + HEADER_SIZE + |s|];
    assert block.bytes[off..off + HEADER_SIZE] == entry[..HEADER_SIZE] == Header(|s|);
    HeaderBack(|s|);
    assert block.bytes[off + HEADER_SIZE..off + HEADER_SIZE + |s|] == entry[HEADER_SIZE..] == s;
  }

  /** Entries stay where they are as long as the bytes handed out do not change. */
  lemma {:induction false} HoldsKept(block: Block, block': Block, off: nat, s: Text)
    requires Holds(block, off, s) && GoodBlock(block') && block.ptr <= block'.ptr
    requires off + HEADER_SIZE + |s| <= |block'.bytes|
    requires block'.bytes[..off + HEADER_SIZE + |s|] == block.bytes[..off + HEADER_SIZE + |s|]
    ensures Holds(block', off, s)
  {
    var end := off + HEADER_SIZE + |s|;
    assert block'.bytes[off..end] == block'.bytes[..end][off..];
    assert block.bytes[off..end] == block.bytes[..end][off..];
  }

  /** write_to_ptr. */
  function Written(block: Block, off: nat, s: Text): (r: Block)
    requires GoodBlock(block) && off + HEADER_SIZE + |s| <= |block.bytes|
    ensures GoodBlock(r) && r.ptr == block.ptr && |r.bytes| == |block.bytes|
    ensures r.bytes[..off] == block.bytes[..off]
  {
    Block(block.bytes[..off] + (Header(|s|) + s) + block.bytes[off + HEADER_SIZE + |s|..], block.ptr)
  }

  lemma {:induction false} WrittenHolds(block: Block, off: nat, s: Text)
    requires GoodBlock(block) && |s| < MAX_TEXT && off + HEADER_SIZE + |s| <= block.ptr
    ensures Holds(Written(block, off, s), off, s)
  {
    hide Header;
  }

  // ----- all atoms -----

  /** The fixed list of static strings: no repeats, and none that could be inlined. */
  predicate GoodStatics(strings: seq<Text>)
  {
    && (forall i :: 0 <= i < |strings| ==> !Inlinable(strings[i]))
    && (forall i, j :: 0 <= i < j < |strings| ==> strings[i] != strings[j])
  }

  function TableAtom(strings: seq<Text>, off: nat): nat
  {
    2 * (|strings| + off)
  }

  /** as_str: what an atom stands for, read through the current block. */
  function AsStr(strings: seq<Text>, block: Block, atom: nat): Text
  {
    if atom % 2 == 1 then InlinedToStr(ToLe(atom / 2, 8))
    else if atom / 2 < |strings| then strings[atom / 2]
    else Stored(block, atom / 2 - |strings|)
  }

  lemma {:induction false} TableAtomStored(strings: seq<Text>, block: Block, off: nat, s: Text)
    requires Holds(block, off, s)
    ensures AsStr(strings, block, TableAtom(strings, off)) == s
  {
    HoldsStored(block, off, s);
  }
}
