/** A file's block map on disk, as values: which disk blocks it uses and which are free. */
module SfsMap {

  const NDIRECT := 12
  const NENTRY := 1024
  const MAXBLOCKS := NDIRECT + NENTRY

  /** The free map (true is free), the count in the superblock, the contents of blocks as
      tables of block numbers, and the fields of one inode. */
  datatype Disk = Disk(
    free: seq<bool>, unused: int, entries: map<nat, seq<nat>>,
    direct: seq<nat>, indirect: nat, blocks: nat)

  function Count(free: seq<bool>): nat {
    if free == [] then 0 else Count(free[..|free| - 1]) + if free[|free| - 1] then 1 else 0
  }

  lemma {:induction false} CountUpdate(free: seq<bool>, b: nat, v: bool)
    requires b < |free|
    ensures Count(free[b := v]) == Count(free) - (if free[b] then 1 else 0) + (if v then 1 else 0)
  {
    if b == |free| - 1 {
      assert free[b := v][..b] == free[..b];
    } else {
      assert free[b := v][..|free| - 1] == free[..|free| - 1][b := v];
      CountUpdate(free[..|free| - 1], b, v);
    }
  }

  lemma {:induction false} CountZero(free: seq<bool>)
    ensures Count(free) == 0 <==> forall b :: 0 <= b < |free| ==> !free[b]
  {
    if free != [] {
      CountZero(free[..|free| - 1]);
    }
  }

  function Table(d: Disk, b: nat): seq<nat> {
    if b in d.entries then d.entries[b] else []
  }

  /** The disk block of logical block i; zero is none. */
  function At(d: Disk, i: nat): nat {
    if i < NDIRECT then (if i < |d.direct| then d.direct[i] else 0)
    else if d.indirect == 0 then 0
    else if i - NDIRECT < |Table(d, d.indirect)| then Table(d, d.indirect)[i - NDIRECT] else 0
  }

  /** Block b is on the disk and in use. */
  ghost predicate InUse(d: Disk, b: nat) {
    0 < b < |d.free| && !d.free[b]
  }

  ghost predicate Maps(d: Disk, i: nat) {
    InUse(d, At(d, i)) && At(d, i) != d.indirect
  }

  ghost predicate Differ(d: Disk, i: nat, j: nat) {
    At(d, i) != At(d, j)
  }

  ghost predicate Shaped(d: Disk) {
    && 0 < |d.free| && !d.free[0] && |d.direct| == NDIRECT && d.blocks <= MAXBLOCKS
    && (d.indirect != 0 ==> InUse(d, d.indirect) && |Table(d, d.indirect)| == NENTRY)
    && (d.blocks > NDIRECT ==> d.indirect != 0)
  }

  /** Exactly the first `blocks` logical blocks are mapped, to different blocks in use, none
      of which is the pointer block; and the count is right. */
  ghost predicate Good(d: Disk) {
    && Shaped(d) && d.unused == Count(d.free)
    && (forall i {:trigger Maps(d, i)} :: 0 <= i < d.blocks ==> Maps(d, i))
    && (forall i {:trigger At(d, i)} :: d.blocks <= i < MAXBLOCKS ==> At(d, i) == 0)
    && (forall i, j {:trigger Differ(d, i, j)} :: 0 <= i < j < d.blocks ==> Differ(d, i, j))
  }

  /** The disk blocks of the file in order. */
  function Mapping(d: Disk): seq<nat> {
    seq(d.blocks, i requires 0 <= i < d.blocks => At(d, i))
  }

  ghost predicate Ours(d: Disk, b: nat) {
    (b != 0 && b == d.indirect) || exists i :: 0 <= i < d.blocks && At(d, i) == b
  }

  /** Blocks in use by others stay in use, with their contents. */
  ghost predicate OthersKept(d: Disk, d': Disk) {
    && |d'.free| == |d.free|
    && forall b {:trigger InUse(d, b)} :: InUse(d, b) && !Ours(d, b) ==>
      InUse(d', b) && !Ours(d', b) && Table(d', b) == Table(d, b)
  }

  // ----- steps -----

  function Zeros(): (r: seq<nat>)
    ensures |r| == NENTRY && forall i :: 0 <= i < NENTRY ==> r[i] == 0
  {
    seq(NENTRY, _ => 0)
  }

  /** Block b is taken from the free map and cleared. */
  function Taken(d: Disk, b: nat): Disk
    requires b < |d.free|
  {
    d.(free := d.free[b := false], unused := d.unused - 1, entries := d.entries[b := Zeros()])
  }

  function Freed(d: Disk, b: nat): Disk
    requires b < |d.free|
  {
    d.(free := d.free[b := true], unused := d.unused + 1)
  }

  /** Logical block `blocks` becomes b. */
  function Appended(d: Disk, b: nat): Disk
    requires Shaped(d) && d.blocks < MAXBLOCKS && (d.blocks >= NDIRECT ==> d.indirect != 0)
  {
    if d.blocks < NDIRECT then d.(direct := d.direct[d.blocks := b], blocks := d.blocks + 1)
    else d.(entries := d.entries[d.indirect := Table(d, d.indirect)[d.blocks - NDIRECT := b]], blocks := d.blocks + 1)
  }

  /** The last logical block is unmapped. */
  function Cut(d: Disk): Disk
    requires Shaped(d) && d.blocks > 0
  {
    if d.blocks <= NDIRECT then d.(direct := d.direct[d.blocks - 1 := 0], blocks := d.blocks - 1)
    else
      var table := Table(d, d.indirect)[d.blocks - 1 - NDIRECT := 0];
      d.(entries := d.entries[d.indirect := table], blocks := d.blocks - 1)
  }

  lemma TakenAt(d: Disk, b: nat, i: nat)
    requires Shaped(d) && b < |d.free| && d.free[b]
    ensures At(Taken(d, b), i) == At(d, i)
  {
  }

  lemma AppendedAt(d: Disk, b: nat, i: nat)
    requires Shaped(d) && d.blocks < MAXBLOCKS && (d.blocks >= NDIRECT ==> d.indirect != 0) && i < MAXBLOCKS
    ensures At(Appended(d, b), i) == if i == d.blocks then b else At(d, i)
  {
  }

  lemma CutAt(d: Disk, i: nat)
    requires Shaped(d) && d.blocks > 0 && i < MAXBLOCKS
    ensures At(Cut(d), i) == if i == d.blocks - 1 then 0 else At(d, i)
  {
  }

  /** A file grows by a free block. */
  lemma GrowGood(d: Disk, b: nat)
    requires Good(d) && d.blocks < MAXBLOCKS && (d.blocks >= NDIRECT ==> d.indirect != 0)
    requires b < |d.free| && d.free[b]
    ensures
      var r := Appended(Taken(d, b), b);
      Shaped(Taken(d, b)) && Good(r) && Mapping(r) == Mapping(d) + [b] && OthersKept(d, r)
  {
    var t := Taken(d, b);
    var r := Appended(t, b);
    CountUpdate(d.free, b, false);
    forall i | 0 <= i < MAXBLOCKS ensures At(r, i) == if i == d.blocks then b else At(d, i) {
      TakenAt(d, b, i);
      AppendedAt(t, b, i);
    }
    assert Shaped(r);
    forall i | 0 <= i < r.blocks ensures Maps(r, i) { assert i < d.blocks ==> Maps(d, i); }
    forall i, j | 0 <= i < j < r.blocks ensures Differ(r, i, j) {
      assert i < d.blocks && Maps(d, i);
      assert j < d.blocks ==> Differ(d, i, j);
    }
    GrowOthers(d, b);
  }

  lemma GrowOthers(d: Disk, b: nat)
    requires Good(d) && d.blocks < MAXBLOCKS && (d.blocks >= NDIRECT ==> d.indirect != 0)
    requires b < |d.free| && d.free[b]
    ensures Shaped(Taken(d, b)) && OthersKept(d, Appended(Taken(d, b), b))
  {
    var t := Taken(d, b);
    var r := Appended(t, b);
    forall c | InUse(d, c) && !Ours(d, c) ensures InUse(r, c) && !Ours(r, c) && Table(r, c) == Table(d, c) {
      forall i | 0 <= i < r.blocks ensures At(r, i) != c {
        TakenAt(d, b, i);
        AppendedAt(t, b, i);
      }
    }
  }

  /** A pointer block is taken when the direct ones are used up. */
  lemma PointerGood(d: Disk, e: nat)
    requires Good(d) && d.indirect == 0 && e < |d.free| && d.free[e]
    ensures
      var r := Taken(d, e).(indirect := e);
      Good(r) && Mapping(r) == Mapping(d) && OthersKept(d, r)
  {
    var r := Taken(d, e).(indirect := e);
    CountUpdate(d.free, e, false);
    assert Shaped(r);
    forall i | 0 <= i < MAXBLOCKS ensures At(r, i) == At(d, i) {}
    forall i | 0 <= i < r.blocks ensures Maps(r, i) { assert Maps(d, i); }
    forall i, j | 0 <= i < j < r.blocks ensures Differ(r, i, j) { assert Differ(d, i, j); }
    forall c | InUse(d, c) && !Ours(d, c) ensures InUse(r, c) && !Ours(r, c) && Table(r, c) == Table(d, c) {
      forall i | 0 <= i < r.blocks ensures At(r, i) != c { assert At(d, i) != c; }
    }
  }

  /** Taking a block and giving it back changes nothing but that block's contents. */
  lemma UndoGood(d: Disk, e: nat)
    requires Good(d) && e < |d.free| && d.free[e]
    ensures
      var r := Freed(Taken(d, e), e);
      Good(r) && Mapping(r) == Mapping(d) && OthersKept(d, r) && r.free == d.free && r.unused == d.unused
  {
    var r := Freed(Taken(d, e), e);
    assert r.free == d.free;
    forall i | 0 <= i < MAXBLOCKS ensures At(r, i) == At(d, i) { TakenAt(d, e, i); }
    assert Shaped(r);
    forall i | 0 <= i < r.blocks ensures Maps(r, i) { assert Maps(d, i); }
    forall i, j | 0 <= i < j < r.blocks ensures Differ(r, i, j) { assert Differ(d, i, j); }
    forall c | InUse(d, c) && !Ours(d, c) ensures InUse(r, c) && !Ours(r, c) && Table(r, c) == Table(d, c) {
      forall i | 0 <= i < r.blocks ensures At(r, i) != c { assert At(d, i) != c; }
    }
  }

  /** The last block goes back to the free map; the others stay where they are. */
  lemma ShrinkGood(d: Disk)
    requires Good(d) && d.blocks > 0
    ensures InUse(d, At(d, d.blocks - 1))
    ensures
      var r := Freed(Cut(d), At(d, d.blocks - 1));
      Good(r) && Mapping(r) == Mapping(d)[..d.blocks - 1] && OthersKept(d, r)
  {
    var last := d.blocks - 1;
    assert Maps(d, last);
    var b := At(d, last);
    var r := Freed(Cut(d), b);
    CountUpdate(d.free, b, true);
    forall i | 0 <= i < MAXBLOCKS ensures At(r, i) == if i == last then 0 else At(d, i) { CutAt(d, i); }
    assert Shaped(r);
    forall i | 0 <= i < r.blocks ensures Maps(r, i) { assert Maps(d, i) && Differ(d, i, last); }
    forall i, j | 0 <= i < j < r.blocks ensures Differ(r, i, j) { assert Differ(d, i, j); }
    ShrinkOthers(d);
  }

  lemma ShrinkOthers(d: Disk)
    requires Good(d) && d.blocks > 0 && InUse(d, At(d, d.blocks - 1))
    ensures OthersKept(d, Freed(Cut(d), At(d, d.blocks - 1)))
  {
    var last := d.blocks - 1;
    var r := Freed(Cut(d), At(d, last));
    forall i | 0 <= i < r.blocks ensures At(r, i) == At(d, i) { CutAt(d, i); }
    forall c | InUse(d, c) && !Ours(d, c) ensures InUse(r, c) && !Ours(r, c) && Table(r, c) == Table(d, c) {
      assert At(d, last) != c;
      forall i | 0 <= i < r.blocks ensures At(r, i) != c { assert At(d, i) != c; }
    }
  }

  lemma OthersKeptTrans(a: Disk, b: Disk, c: Disk)
    requires OthersKept(a, b) && OthersKept(b, c)
    ensures OthersKept(a, c)
  {
    forall x | InUse(a, x) && !Ours(a, x) ensures InUse(c, x) && !Ours(c, x) && Table(c, x) == Table(a, x) {
      assert InUse(b, x);
    }
  }
}
