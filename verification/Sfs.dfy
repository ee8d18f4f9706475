/** Growing and shrinking a file in place. */
module Sfs {
  import opened SfsMap

  const BLKSIZE := 4096
  const MAX_FILE_SIZE := 134217728
  const WORD_BITS := 32

  datatype Ret = Done | NoMem | Inval | Panic

  /** The least number of blocks that hold len bytes. */
  function BlocksFor(len: nat): (r: nat)
    ensures 4096 * r >= len && (r > 0 ==> 4096 * (r - 1) < len)
  {
    (len + BLKSIZE - 1) / BLKSIZE
  }

  /** How many free blocks it takes to have t logical blocks. */
  function Needed(d: Disk, t: nat): nat {
    if t <= d.blocks then 0 else t - d.blocks + if t > NDIRECT && d.indirect == 0 then 1 else 0
  }

  /** Block b is the lowest free one. */
  ghost predicate Lowest(free: seq<bool>, b: nat) {
    b < |free| && free[b] && forall c :: 0 <= c < b ==> !free[c]
  }

  /** The new logical block is the lowest free one, or the next if a pointer block took the
      lowest; both were cleared. */
  ghost predicate NewBlocks(d: Disk, d': Disk) {
    var b := At(d', d.blocks);
    if d'.indirect == d.indirect then Lowest(d.free, b) && Table(d', b) == Zeros()
    else
      && Lowest(d.free, d'.indirect) && Lowest(d.free[d'.indirect := false], b) && Table(d', b) == Zeros()
      && Table(d', d'.indirect) == Zeros()[0 := b]
  }

  lemma MappedNew(d: Disk, b: nat)
    requires Good(d) && d.blocks < MAXBLOCKS && (d.blocks >= NDIRECT ==> d.indirect != 0) && Lowest(d.free, b)
    ensures Shaped(Taken(d, b)) && NewBlocks(d, Appended(Taken(d, b), b))
  {
    hide Good;
    GrowGood(d, b);
    AppendedAt(Taken(d, b), b, d.blocks);
    GoodPointer(d, b);
  }

  /** A free block is not the pointer block. */
  lemma GoodPointer(d: Disk, b: nat)
    requires Good(d) && b < |d.free| && d.free[b]
    ensures b != d.indirect || d.indirect == 0
    ensures d.free != [] && !d.free[0]
  {
  }

  lemma PointerNew(d: Disk, e: nat, b: nat)
    requires Good(d) && d.blocks == NDIRECT && d.indirect == 0 && Lowest(d.free, e)
    requires Lowest(d.free[e := false], b)
    ensures
      var d1 := Taken(d, e).(indirect := e);
      Shaped(Taken(d1, b)) && e != 0 && NewBlocks(d, Appended(Taken(d1, b), b))
  {
    hide Good;
    var d1 := Taken(d, e).(indirect := e);
    GoodPointer(d, e);
    PointerGood(d, e);
    GrowGood(d1, b);
    AppendedAt(Taken(d1, b), b, NDIRECT);
    GoodPointer(d1, b);
  }

  class File {
    /** The free map's bits, a whole number of words; bits past the end are clear. */
    const free: array<bool>
    var unused: int
    var entries: map<nat, seq<nat>>
    const direct: array<nat>
    var indirect: nat
    var blocks: nat
    var size: nat

    constructor (
      bits: array<bool>, count: int, tables: map<nat, seq<nat>>, inode: array<nat>, pointer: nat, nblocks: nat,
      bytes: nat)
      ensures free == bits && unused == count && entries == tables && direct == inode
      ensures indirect == pointer && blocks == nblocks && size == bytes
    {
      free, unused, entries, direct := bits, count, tables, inode;
      indirect, blocks, size := pointer, nblocks, bytes;
    }

    ghost function D(): Disk
      reads this, free, direct
    {
      Disk(free[..], unused, entries, direct[..], indirect, blocks)
    }

    ghost predicate Valid()
      reads this, free, direct
    {
      Good(D()) && free.Length % WORD_BITS == 0
    }

    /** bitmap_alloc: the lowest set bit, word by word. */
    method FindFree() returns (b: nat, found: bool)
      requires free.Length % WORD_BITS == 0
      ensures found ==> b < free.Length && free[b] && forall c :: 0 <= c < b ==> !free[c]
      ensures !found ==> forall c :: 0 <= c < free.Length ==> !free[c]
    {
      var ix := 0;
      while ix < free.Length / WORD_BITS
        invariant ix <= free.Length / WORD_BITS
        invariant forall c :: 0 <= c < ix * WORD_BITS ==> !free[c]
      {
        var offset := 0;
        while offset < WORD_BITS
          invariant offset <= WORD_BITS
          invariant forall c :: 0 <= c < ix * WORD_BITS + offset ==> !free[c]
        {
          if free[ix * WORD_BITS + offset] {
            return ix * WORD_BITS + offset, true;
          }
          offset := offset + 1;
        }
        ix := ix + 1;
      }
      return 0, false;
    }

    /** sfs_block_alloc: fails exactly when the superblock counts no unused block. */
    method BlockAlloc() returns (b: nat, ok: bool)
      requires Shaped(D()) && free.Length % WORD_BITS == 0 && unused == Count(free[..])
      modifies this`unused, this`entries, free
      ensures ok <==> old(unused) > 0
      ensures !ok ==> D() == old(D())
      ensures ok ==> 0 < b < free.Length && old(free[b]) && D() == Taken(old(D()), b) && Lowest(old(free[..]), b)
    {
      CountZero(free[..]);
      b, ok := FindFree();
      if ok {
        assert free[..][b];
        free[b] := false;
        unused := unused - 1;
        entries := entries[b := Zeros()];
      }
    }

    method BlockFree(b: nat)
      requires 0 < b < free.Length && !free[b]
      modifies this`unused, free
      ensures D() == Freed(old(D()), b)
      ensures old(unused == Count(free[..])) ==> unused == Count(free[..])
    {
      CountUpdate(free[..], b, true);
      assert free[..][b := true] == free[..b] + [true] + free[b + 1..];
      free[b] := true;
      unused := unused + 1;
    }

    /** sfs_bmap_load_nolock at the end of the file: one more block, and a pointer block if
        it is the first one behind the direct ones. */
    method Append() returns (ok: bool)
      requires Valid() && blocks < MAXBLOCKS
      modifies this`unused, this`entries, this`indirect, this`blocks, free, direct
      ensures Valid() && OthersKept(old(D()), D())
      ensures ok <==> old(unused) >= Needed(old(D()), old(blocks) + 1)
      ensures ok ==> exists b :: 0 < b < free.Length && old(free[b]) && Mapping(D()) == old(Mapping(D())) + [b]
      ensures ok ==> NewBlocks(old(D()), D())
      ensures ok ==> unused == old(unused) - Needed(old(D()), old(blocks) + 1) && blocks == old(blocks) + 1
      ensures ok ==> (indirect == 0 <==> old(indirect) == 0 && old(blocks) < NDIRECT)
      ensures !ok ==>
        Mapping(D()) == old(Mapping(D())) && unused == old(unused) && free[..] == old(free[..]) &&
        blocks == old(blocks) && indirect == old(indirect)
    {
      ghost var d := D();
      if blocks < NDIRECT || indirect != 0 {
        var b;
        b, ok := BlockAlloc();
        hide NewBlocks, Lowest;
        if ok {
          GrowGood(d, b);
          MappedNew(d, b);
          Map(b);
        }
      } else {
        ok := AppendWithPointer();
      }
    }

    /** The number is written into the inode or into the pointer block. */
    method Map(b: nat)
      requires Shaped(D()) && blocks < MAXBLOCKS && (blocks >= NDIRECT ==> indirect != 0)
      modifies this`entries, this`blocks, direct
      ensures D() == Appended(old(D()), b)
    {
      if blocks < NDIRECT {
        direct[blocks] := b;
      } else {
        var table: seq<nat> := entries[indirect];
        table := table[blocks - NDIRECT := b];
        entries := entries[indirect := table];
      }
      blocks := blocks + 1;
    }

    /** The first block behind the direct ones: a pointer block and the block, or neither. */
    method AppendWithPointer() returns (ok: bool)
      requires Valid() && blocks == NDIRECT && indirect == 0
      modifies this`unused, this`entries, this`indirect, this`blocks, free, direct
      ensures Valid() && OthersKept(old(D()), D())
      ensures ok <==> old(unused) >= 2
      ensures ok ==> exists b :: 0 < b < free.Length && old(free[b]) && Mapping(D()) == old(Mapping(D())) + [b]
      ensures ok ==> NewBlocks(old(D()), D())
      ensures ok ==> unused == old(unused) - 2 && blocks == old(blocks) + 1 && indirect != 0
      ensures !ok ==>
        Mapping(D()) == old(Mapping(D())) && unused == old(unused) && free[..] == old(free[..]) &&
        blocks == old(blocks) && indirect == 0
    {
      ghost var d := D();
      var e, b;
      e, ok := BlockAlloc();
      if !ok {
        return;
      }
      PointerGood(d, e);
      hide NewBlocks, Lowest;
      ghost var d1 := D().(indirect := e);
      b, ok := BlockAlloc();
      if !ok {
        UndoGood(d, e);
        BlockFree(e);
        return;
      }
      indirect := e;
      PointerNew(d, e, b);
      GrowGood(d1, b);
      assert D() == Taken(d1, b);
      Map(b);
      OthersKeptTrans(d, d1, D());
    }

    /** sfs_bmap_truncate_nolock: the last block goes back to the free map. */
    method DropLast()
      requires Valid() && blocks > 0
      modifies this`unused, this`entries, this`blocks, free, direct
      ensures Valid() && OthersKept(old(D()), D())
      ensures Mapping(D()) == old(Mapping(D()))[..old(blocks) - 1] && blocks == old(blocks) - 1
      ensures unused == old(unused) + 1 && old(InUse(D(), At(D(), blocks - 1)))
      ensures free[..] == old(free[..])[old(At(D(), blocks - 1)) := true]
    {
      ghost var d := D();
      ShrinkGood(d);
      var b: nat;
      if blocks <= NDIRECT {
        b := direct[blocks - 1];
        direct[blocks - 1] := 0;
      } else {
        var table: seq<nat> := entries[indirect];
        b := table[blocks - 1 - NDIRECT];
        table := table[blocks - 1 - NDIRECT := 0];
        entries := entries[indirect := table];
      }
      blocks := blocks - 1;
      assert D() == Cut(d) && b == At(d, d.blocks - 1);
      BlockFree(b);
    }

    /** The enlarging loop; stops with Panic where the map ends. */
    method GrowTo(t: nat) returns (ret: Ret)
      requires Valid() && blocks < t
      modifies this`unused, this`entries, this`indirect, this`blocks, free, direct
      ensures Valid() && OthersKept(old(D()), D())
      ensures old(blocks) <= blocks <= t && Mapping(D())[..old(blocks)] == old(Mapping(D()))
      ensures ret == Done || ret == NoMem || ret == Panic
      ensures ret == Done <==> blocks == t
      ensures ret == Done <==> t <= MAXBLOCKS && old(unused) >= Needed(old(D()), t)
      ensures ret == Panic <==> t > MAXBLOCKS && old(unused) >= Needed(old(D()), MAXBLOCKS)
      ensures ret == Panic ==> blocks == MAXBLOCKS
      ensures unused == old(unused) - Needed(old(D()), blocks)
      ensures ret != Done ==>
        (blocks > old(blocks) <==> old(blocks) < MAXBLOCKS && old(unused) >= Needed(old(D()), old(blocks) + 1))
    {
      hide NewBlocks, Lowest, OthersKept;
      OthersKeptSame(D());
      while blocks != t
        invariant Valid() && OthersKept(old(D()), D())
        invariant old(blocks) <= blocks <= t && blocks <= MAXBLOCKS && Mapping(D())[..old(blocks)] == old(Mapping(D()))
        invariant blocks > old(blocks) ==> old(blocks) < MAXBLOCKS && old(unused) >= Needed(old(D()), old(blocks) + 1)
        invariant blocks == old(blocks) ==> unused == old(unused) && D() == old(D())
        invariant unused == old(unused) - Needed(old(D()), blocks)
        invariant old(unused) - Needed(old(D()), t) == unused - Needed(D(), t)
        invariant old(unused) - Needed(old(D()), MAXBLOCKS) == unused - Needed(D(), MAXBLOCKS)
        decreases t - blocks
      {
        if blocks == MAXBLOCKS {
          return Panic;
        }
        ghost var d := D();
        var ok := Append();
        OthersKeptTrans(old(D()), d, D());
        if !ok {
          return NoMem;
        }
      }
      return Done;
    }

    /** sfs_truncfile. */
    method TruncFile(len: int) returns (ret: Ret)
      requires Valid()
      modifies this, free, direct
      ensures Valid() && OthersKept(old(D()), D())
      ensures len < 0 || len > MAX_FILE_SIZE ==> ret == Inval && D() == old(D()) && size == old(size)
      ensures ret == Inval ==> len < 0 || len > MAX_FILE_SIZE
      ensures 0 <= len <= MAX_FILE_SIZE && len == old(size) ==>
        ret == (if BlocksFor(len) == old(blocks) then Done else Panic) && D() == old(D()) && size == old(size)
      ensures 0 <= len <= MAX_FILE_SIZE && len != old(size) ==>
        && (ret == Done <==> BlocksFor(len) <= MAXBLOCKS && old(unused) >= Needed(old(D()), BlocksFor(len)))
        && (ret == Panic <==> BlocksFor(len) > MAXBLOCKS && old(unused) >= Needed(old(D()), MAXBLOCKS))
      ensures ret == Done ==> blocks == BlocksFor(len) && size == len
      ensures ret == Done ==> 4096 * (blocks - 1) < len <= 4096 * blocks || (len == 0 && blocks == 0)
      ensures ret != Done ==> size == old(size) && blocks >= old(blocks)
      ensures ret == NoMem ==> blocks < BlocksFor(len)
      ensures ret == NoMem ==> (blocks > old(blocks) <==> old(unused) >= Needed(old(D()), old(blocks) + 1))
      ensures forall i :: 0 <= i < old(blocks) && i < blocks ==> At(D(), i) == old(At(D(), i))
      ensures blocks < old(blocks) ==> unused == old(unused) + (old(blocks) - blocks) && indirect == old(indirect)
      ensures blocks >= old(blocks) ==> unused == old(unused) - Needed(old(D()), blocks)
    {
      if len < 0 || len > MAX_FILE_SIZE {
        return Inval;
      }
      var t := BlocksFor(len);
      if size == len {
        return if t == blocks then Done else Panic;
      }
      ret := Done;
      if blocks < t {
        ret := GrowTo(t);
        Survive(old(D()), D());
        if ret != Done {
          return;
        }
      } else {
        while blocks != t
          invariant Valid() && OthersKept(old(D()), D()) && t <= blocks <= old(blocks) && size == old(size)
          invariant Mapping(D()) == old(Mapping(D()))[..blocks]
          invariant unused == old(unused) + (old(blocks) - blocks) && indirect == old(indirect)
          decreases blocks
        {
          ghost var d := D();
          DropLast();
          OthersKeptTrans(old(D()), d, D());
        }
        Survive(D(), old(D()));
      }
      size := len;
    }
  }

  /** A failed enlargement keeps the blocks that it got but not the size; setting the size
      that the file still has then stops the kernel, exactly when a block was got. */
  method GrowThenKeep(f: File, len: int) returns (first: Ret, second: Ret)
    requires f.Valid() && BlocksFor(f.size) == f.blocks && f.size <= MAX_FILE_SIZE
    modifies f, f.free, f.direct
    ensures f.Valid() && f.size == (if first == Done then len else old(f.size))
    ensures first == NoMem ==> (second == Panic <==> old(f.unused) >= Needed(old(f.D()), old(f.blocks) + 1))
    ensures first == Done || first == Inval ==> second == Done
  {
    first := f.TruncFile(len);
    second := f.TruncFile(f.size);
  }

  lemma OthersKeptSame(d: Disk)
    ensures OthersKept(d, d)
  {
  }

  lemma Survive(a: Disk, b: Disk)
    requires a.blocks <= b.blocks && Mapping(b)[..a.blocks] == Mapping(a)
    ensures forall i :: 0 <= i < a.blocks ==> At(a, i) == At(b, i)
  {
    forall i | 0 <= i < a.blocks ensures At(a, i) == At(b, i) {
      assert Mapping(a)[i] == Mapping(b)[..a.blocks][i];
    }
  }
}
