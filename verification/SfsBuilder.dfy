/** The image builder, and its agreement with the kernel's block map and mount check. */
module SfsBuilder {
  import opened Options
  import opened SfsMap
  import Sfs

  const BLKBITS := 32768
  const BLKN_FREEMAP := 2

  /** The builder's counters and its cached blocks. */
  class Image {
    const ninos: nat
    var nextIno: nat
    var unused: int
    var cache: map<nat, seq<nat>>

    ghost predicate Valid()
      reads this
    {
      && 0 < nextIno <= ninos && unused == ninos - nextIno
      && forall b :: b in cache ==> 0 < b < nextIno && |cache[b]| == NENTRY
    }

    /** create_sfs: the super block, the root inode and the free map are in use. */
    constructor (n: nat)
      requires BLKN_FREEMAP + (n + BLKBITS - 1) / BLKBITS < n
      ensures Valid() && ninos == n && cache == map[] && nextIno == BLKN_FREEMAP + (n + BLKBITS - 1) / BLKBITS
      ensures (nextIno - 2) * 32768 >= n > (nextIno - 3) * 32768
    {
      ninos := n;
      nextIno := BLKN_FREEMAP + (n + BLKBITS - 1) / BLKBITS;
      unused := n - (BLKN_FREEMAP + (n + BLKBITS - 1) / BLKBITS);
      cache := map[];
    }

    /** The next block number; None stops the builder for lack of space. */
    method AllocIno() returns (ino: Option<nat>)
      requires Valid()
      modifies this`nextIno, this`unused
      ensures Valid()
      ensures ino == if old(nextIno) < ninos then Some(old(nextIno)) else None
      ensures nextIno == old(nextIno) + if ino.Some? then 1 else 0
    {
      if nextIno < ninos {
        unused := unused - 1;
        ino := Some(nextIno);
        nextIno := nextIno + 1;
      } else {
        ino := None;
      }
    }
  }

  class BuiltFile {
    const direct: array<nat>
    var indirect: nat
    var nblks: nat
    /** The block numbers appended so far. */
    ghost var appended: seq<nat>

    /** The inode and the cached blocks as the kernel will find them on disk. */
    ghost function OnDisk(cache: map<nat, seq<nat>>): Disk
      reads this, direct
    {
      Disk([], 0, cache, direct[..], indirect, nblks)
    }

    /** The kernel's block map finds at every index what was appended there, and nothing
        behind the end. */
    ghost predicate Agrees(cache: map<nat, seq<nat>>)
      reads this, direct
    {
      && direct.Length == NDIRECT && nblks == |appended| <= MAXBLOCKS
      && (nblks <= NDIRECT ==> indirect == 0) && (indirect != 0 ==> indirect in cache && |cache[indirect]| == NENTRY)
      && (nblks > NDIRECT ==> indirect != 0)
      && forall i {:trigger At(OnDisk(cache), i)} :: 0 <= i < MAXBLOCKS ==>
        At(OnDisk(cache), i) == if i < nblks then appended[i] else 0
    }

    constructor ()
      ensures fresh(direct) && appended == [] && forall cache :: Agrees(cache)
    {
      direct := new nat[NDIRECT](_ => 0);
      indirect, nblks, appended := 0, 0, [];
    }

    /** append_block below the double indirect range; fails when a pointer block is needed
        and the image is full. */
    method AppendBlock(image: Image, ino: nat) returns (ok: bool)
      requires image.Valid() && Agrees(image.cache) && nblks < MAXBLOCKS
      modifies this, direct, image
      ensures image.Valid()
      ensures ok <==> !(old(nblks) == NDIRECT && old(image.nextIno) == image.ninos)
      ensures ok ==> Agrees(image.cache) && appended == old(appended) + [ino]
      ensures !ok ==> appended == old(appended) && image.cache == old(image.cache)
      ensures
        var pointer := old(nblks) == NDIRECT;
        && image.nextIno == old(image.nextIno) + (if ok && pointer then 1 else 0)
        && (ok ==> indirect == if pointer then old(image.nextIno) else old(indirect))
      ensures forall b :: b in old(image.cache) && b != old(indirect) ==>
        b in image.cache && image.cache[b] == old(image.cache[b])
    {
      ghost var d := OnDisk(image.cache);
      if nblks < NDIRECT {
        direct[nblks] := ino;
      } else {
        if indirect == 0 {
          var number := image.AllocIno();
          if number.None? {
            return false;
          }
          indirect := number.value;
          image.cache := image.cache[indirect := Zeros()];
        }
        var data: seq<nat> := image.cache[indirect];
        data := data[nblks - NDIRECT := ino];
        image.cache := image.cache[indirect := data];
      }
      nblks := nblks + 1;
      appended := appended + [ino];
      ok := true;
      forall i | 0 <= i < MAXBLOCKS ensures At(OnDisk(image.cache), i) == if i < nblks then appended[i] else 0 {
        assert At(d, i) == if i < nblks - 1 then appended[i] else 0;
      }
    }
  }

  // ----- what the kernel finds -----

  /** The numbers that a file uses were all handed out by the builder, once each. */
  ghost predicate Numbered(blocks: seq<nat>, indirect: nat, next: nat) {
    && indirect < next
    && (forall i :: 0 <= i < |blocks| ==> 0 < blocks[i] < next && blocks[i] != indirect)
    && forall i, j :: 0 <= i < j < |blocks| ==> blocks[i] != blocks[j]
  }

  /** The disk at the next mount: the inode and the blocks with a free map in which exactly
      the numbers from next on are free. */
  lemma BuiltGood(d: Disk, blocks: seq<nat>, next: nat, ninos: nat, bits: seq<bool>)
    requires 0 < next <= ninos <= |bits| && forall k :: 0 <= k < |bits| ==> (bits[k] <==> next <= k < ninos)
    requires Numbered(blocks, d.indirect, next) && |d.direct| == NDIRECT && d.blocks == |blocks| <= MAXBLOCKS
    requires d.indirect != 0 ==> |Table(d, d.indirect)| == NENTRY
    requires d.blocks > NDIRECT ==> d.indirect != 0
    requires forall i :: 0 <= i < MAXBLOCKS ==> At(d, i) == if i < |blocks| then blocks[i] else 0
    ensures
      var r := d.(free := bits, unused := Count(bits));
      Good(r) && Mapping(r) == blocks
  {
    var r := d.(free := bits, unused := Count(bits));
    forall i: nat ensures At(r, i) == At(d, i) {}
    forall i | 0 <= i < r.blocks ensures Maps(r, i) {}
    forall i, j | 0 <= i < j < r.blocks ensures Differ(r, i, j) {}
  }

  lemma FileGood(image: Image, file: BuiltFile, bits: seq<bool>)
    requires image.Valid() && file.Agrees(image.cache)
    requires Numbered(file.appended, file.indirect, image.nextIno) && image.ninos <= |bits|
    requires forall k :: 0 <= k < |bits| ==> (bits[k] <==> image.nextIno <= k < image.ninos)
    ensures file.direct.Length == NDIRECT
    ensures
      var d := file.OnDisk(image.cache).(free := bits, unused := Count(bits));
      Good(d) && Mapping(d) == file.appended
  {
    hide Good, Numbered;
    BuiltGood(file.OnDisk(image.cache), file.appended, image.nextIno, image.ninos, bits);
  }

  /** A data block of a file: the next number, appended. */
  method AddBlock(image: Image, file: BuiltFile) returns (ok: bool)
    requires image.Valid() && file.Agrees(image.cache) && file.nblks < MAXBLOCKS
    requires Numbered(file.appended, file.indirect, image.nextIno)
    modifies file, file.direct, image
    ensures image.Valid() && image.nextIno >= old(image.nextIno)
    ensures ok <==> old(image.nextIno) + (if old(file.nblks) == NDIRECT then 2 else 1) <= image.ninos
    ensures
      ok ==>
        && file.Agrees(image.cache) && Numbered(file.appended, file.indirect, image.nextIno)
        && file.appended == old(file.appended) + [old(image.nextIno)]
        && (file.indirect == old(file.indirect) || file.indirect > old(image.nextIno))
    ensures forall b :: b in old(image.cache) && b != old(file.indirect) ==>
      b in image.cache && image.cache[b] == old(image.cache[b])
  {
    var number := image.AllocIno();
    if number.None? {
      return false;
    }
    ok := file.AppendBlock(image, number.value);
  }

  /** Another file is not disturbed: new numbers are not among its own, and its pointer
      block is not written. */
  lemma OtherFile(file: BuiltFile, cache: map<nat, seq<nat>>, cache': map<nat, seq<nat>>, next: nat, next': nat)
    requires file.Agrees(cache) && Numbered(file.appended, file.indirect, next) && next <= next'
    requires file.indirect != 0 ==> file.indirect in cache' && cache'[file.indirect] == cache[file.indirect]
    ensures file.Agrees(cache') && Numbered(file.appended, file.indirect, next')
    ensures forall b :: next <= b ==> b !in file.appended && b != file.indirect
  {
    forall i | 0 <= i < MAXBLOCKS ensures At(file.OnDisk(cache'), i) == At(file.OnDisk(cache), i) {}
  }

  /** The image is closed and mounted: the kernel finds the file with the blocks that were
      appended, in a state in which it can be grown and truncated. */
  method Mount(image: Image, file: BuiltFile, size: nat) returns (kernel: Sfs.File)
    requires image.Valid() && file.Agrees(image.cache)
    requires Numbered(file.appended, file.indirect, image.nextIno)
    ensures fresh(kernel) && kernel.Valid() && Mapping(kernel.D()) == file.appended
    ensures kernel.unused == image.unused && kernel.size == size
  {
    hide Good, Mapping, Count, BuiltFile.Agrees, Numbered;
    var bits := WriteFreemap(image.ninos, image.nextIno);
    var unused := CountFree(bits);
    FileGood(image, file, bits);
    var free := new bool[|bits|](i requires 0 <= i < |bits| => bits[i]);
    var inode := file.direct[..];
    var direct := new nat[NDIRECT](i requires 0 <= i < |inode| => inode[i]);
    kernel := new Sfs.File(free, unused, image.cache, direct, file.indirect, file.nblks, size);
    assert free[..] == bits;
    assert direct[..] == file.direct[..];
    assert kernel.D() == file.OnDisk(image.cache).(free := bits, unused := Count(bits));
  }

  // ----- the free map -----

  lemma {:induction false} CountRange(bits: seq<bool>, from: nat, to: nat)
    requires from <= to <= |bits| && forall k :: 0 <= k < |bits| ==> (bits[k] <==> from <= k < to)
    ensures Count(bits) == to - from
  {
    if bits != [] {
      var n := |bits| - 1;
      if to == |bits| && from < to {
        CountRange(bits[..n], from, n);
      } else if from == to == |bits| {
        CountRange(bits[..n], n, n);
      } else {
        CountRange(bits[..n], from, to);
      }
    }
  }

  /** close_sfs: block by block of the map, the bits of unused block numbers are set. */
  method WriteFreemap(ninos: nat, nextIno: nat) returns (bits: seq<bool>)
    requires nextIno <= ninos
    ensures |bits| % BLKBITS == 0 && ninos <= |bits| < ninos + BLKBITS
    ensures forall k :: 0 <= k < |bits| ==> (bits[k] <==> nextIno <= k < ninos)
    ensures Count(bits) == ninos - nextIno
  {
    bits := [];
    var i := 0;
    while i < ninos
      invariant |bits| == i && i % BLKBITS == 0 && i < ninos + BLKBITS
      invariant forall k :: 0 <= k < i ==> (bits[k] <==> nextIno <= k < ninos)
    {
      var block := BlockBits(i, ninos, nextIno);
      bits := bits + block;
      i := i + BLKBITS;
    }
    CountRange(bits, nextIno, ninos);
  }

  method BlockBits(i: nat, ninos: nat, nextIno: nat) returns (block: seq<bool>)
    requires nextIno <= ninos && i < ninos
    ensures |block| == BLKBITS
    ensures forall j :: 0 <= j < BLKBITS ==> (block[j] <==> nextIno <= i + j < ninos)
  {
    block := seq(BLKBITS, _ => false);
    if i + BLKBITS > nextIno {
      var start, end := 0, BLKBITS;
      if i < nextIno {
        start := nextIno - i;
      }
      if i + BLKBITS > ninos {
        end := ninos - i;
      }
      for j := start to end
        invariant |block| == BLKBITS
        invariant forall k :: 0 <= k < BLKBITS ==> (block[k] <==> start <= k < j)
      {
        block := block[j := true];
      }
    }
  }

  /** sfs_do_mount: the set bits, counted. */
  method CountFree(bits: seq<bool>) returns (unused: nat)
    ensures unused == Count(bits)
  {
    unused := 0;
    for i := 0 to |bits|
      invariant unused == Count(bits[..i])
    {
      assert bits[..i + 1][..i] == bits[..i];
      if bits[i] {
        unused := unused + 1;
      }
    }
    assert bits[..|bits|] == bits;
  }

  /** An image that the builder closes passes the kernel's check when it is mounted. */
  method MountAgrees(image: Image) returns (unused: nat)
    requires image.Valid()
    ensures unused == image.unused
  {
    var bits := WriteFreemap(image.ninos, image.nextIno);
    unused := CountFree(bits);
  }
}
