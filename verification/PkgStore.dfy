/** The "pkg" flash partition: erased up front, then written in chunks that can only clear bits. */
module PkgStore {
  import Arith

  const MAX_CHUNK: nat := 512
  const EINVAL: int := -22
  const ENOSPC: int := -28

  // ---- flash ----

  /** What a write did: all of it, or a failure that left something in its place. */
  datatype Outcome = Done | Failed(left: seq<bv8>)

  /** Programming a cell can clear bits but not set them. */
  function Anded(cells: seq<bv8>, at: nat, data: seq<bv8>): (r: seq<bv8>)
    requires at + |data| <= |cells|
    ensures |r| == |cells|
  {
    seq(|cells|, i requires 0 <= i < |cells| => if at <= i < at + |data| then cells[i] & data[i - at] else cells[i])
  }

  predicate OutcomeOk(cells: seq<bv8>, at: nat, data: seq<bv8>, o: Outcome) {
    match o
    case Done => at + |data| <= |cells|
    case Failed(left) => |left| == |data|
  }

  function Stored(cells: seq<bv8>, at: nat, data: seq<bv8>, o: Outcome): (r: seq<bv8>)
    requires OutcomeOk(cells, at, data, o)
    ensures |r| == |cells|
  {
    match o
    case Done => Anded(cells, at, data)
    case Failed(left) =>
      if at + |left| <= |cells| then cells[..at] + left + cells[at + |left|..] else cells
  }

  function Blank(len: nat): (cells: seq<bv8>)
    ensures |cells| == len
  {
    seq(len, _ => 0xFF)
  }

  /** Data written to blank cells is what they hold. */
  lemma BlankTakesData(cells: seq<bv8>, at: nat, data: seq<bv8>)
    requires at + |data| <= |cells| && cells[at..at + |data|] == Blank(|data|)
    ensures Anded(cells, at, data) == cells[..at] + data + cells[at + |data|..]
  {
    forall i | 0 <= i < |cells|
      ensures Anded(cells, at, data)[i] == (cells[..at] + data + cells[at + |data|..])[i]
    {
      if at <= i < at + |data| {
        assert cells[i] == cells[at..at + |data|][i - at] == 0xFF;
        OnesAnd(data[i - at]);
      }
    }
  }

  lemma OnesAnd(b: bv8)
    ensures 0xFF & b == b
  {
  }

  // ---- sizes ----

  function AlignUp(val: nat, align: nat): (r: nat)
    requires 0 < align
  {
    (val + align - 1) / align * align
  }

  /** The smallest multiple of the block that has room. */
  lemma AlignUpIsLeast(val: nat, align: nat)
    requires 0 < align
    ensures AlignUp(val, align) % align == 0 && val <= AlignUp(val, align) < val + align
    ensures forall m: nat | val <= m * align :: AlignUp(val, align) <= m * align
  {
    var q := (val + align - 1) / align;
    assert (val + align - 1) == q * align + (val + align - 1) % align;
    Arith.DivModUnique(q, 0, align);
    forall m: nat | val <= m * align
      ensures AlignUp(val, align) <= m * align
    {
      Arith.MulSucc(m, align);
      if m < q {
        Arith.MulMono(m + 1, q, align);
      } else {
        Arith.MulMono(q, m, align);
      }
    }
  }

  lemma AlignUpZero(align: nat)
    requires 0 < align
    ensures AlignUp(0, align) == 0
  {
    Arith.DivModUnique(0, align - 1, align);
  }

  /** Padding to a write block never leaves the erase blocks of a longer announcement. */
  lemma PaddingStaysErased(len: nat, announced: nat, wb: nat, eb: nat)
    requires len <= announced && 0 < wb && 0 < eb && eb % wb == 0
    ensures AlignUp(len, wb) <= AlignUp(announced, eb)
  {
    AlignUpIsLeast(len, wb);
    AlignUpIsLeast(announced, eb);
    var q, m := (announced + eb - 1) / eb, eb / wb;
    Arith.DivModParts(eb, wb);
    Arith.MulAssoc(q, m, wb);
    Arith.MulMono(0, m, q);
    assert AlignUp(announced, eb) == q * m * wb;
  }

  function Padded(data: seq<bv8>, wb: nat): (r: seq<bv8>)
    requires 0 < wb
    ensures |r| == AlignUp(|data|, wb) && data <= r
  {
    AlignUpIsLeast(|data|, wb);
    data + Blank(AlignUp(|data|, wb) - |data|)
  }

  // ---- the partition ----

  class Partition {
    const eraseBlock: nat
    const writeBlock: nat
    var cells: seq<bv8>
    // Since the upload began: how much of the partition was made blank for it, what every write did, and where the
    // furthest one ended. And how many calls the device itself has failed.
    ghost var erased: nat
    ghost var outcomes: seq<Outcome>
    ghost var top: nat
    ghost var faults: nat

    /** Blocks as the flash driver has them: whole chunks and erase blocks are whole write blocks, and padding fits the
        buffer that a chunk is padded in. */
    ghost predicate Valid()
      reads this
    {
      && 0 < eraseBlock && 0 < writeBlock <= 16 && MAX_CHUNK % writeBlock == 0 && eraseBlock % writeBlock == 0
      && erased <= |cells|
    }

    constructor (cells: seq<bv8>, eraseBlock: nat, writeBlock: nat)
      requires 0 < eraseBlock && 0 < writeBlock <= 16 && MAX_CHUNK % writeBlock == 0 && eraseBlock % writeBlock == 0
      ensures Valid() && this.cells == cells && erased == 0
    {
      this.cells, this.eraseBlock, this.writeBlock := cells, eraseBlock, writeBlock;
      erased, outcomes, top, faults := 0, [], 0, 0;
    }

    function Capacity(): nat
      reads this
    {
      |cells|
    }

    /** An upload begins that nothing is made blank for. */
    ghost method Begin()
      requires Valid()
      modifies `erased, `outcomes, `top
      ensures Valid() && erased == 0 && outcomes == [] && top == 0
    {
      erased, outcomes, top := 0, [], 0;
    }

    method FlashErase(len: nat) returns (err: int)
      requires Valid() && len <= |cells| && len % eraseBlock == 0
      modifies this
      ensures Valid() && |cells| == old(|cells|) && outcomes == [] && top == 0
      ensures faults == old(faults) + if err == 0 then 0 else 1
      ensures err == 0 ==> erased == len && cells == Blank(len) + old(cells[len..])
      ensures err != 0 ==> erased == 0 && cells[len..] == old(cells[len..])
    {
      err := *;
      if err == 0 {
        cells := Blank(len) + cells[len..];
        erased := len;
      } else {
        var left: seq<bv8> := *;
        if |left| == len {
          cells := left + cells[len..];
        }
        erased, faults := 0, faults + 1;
      }
      outcomes, top := [], 0;
    }

    method FlashWrite(at: nat, data: seq<bv8>) returns (err: int)
      requires Valid() && at % writeBlock == 0 && |data| % writeBlock == 0
      modifies `cells, `outcomes, `top, `faults
      ensures Valid() && |cells| == old(|cells|) && top == Arith.Max(old(top), at + |data|)
      ensures faults >= old(faults) && (err == 0 <==> faults == old(faults) && at + |data| <= |cells|)
      ensures |outcomes| == old(|outcomes|) + 1 && outcomes[..old(|outcomes|)] == old(outcomes)
      ensures var o := outcomes[old(|outcomes|)];
              OutcomeOk(old(cells), at, data, o) && (err == 0 <==> o.Done?) && cells == Stored(old(cells), at, data, o)
    {
      err := *;
      if err != 0 {
        faults := faults + 1;
      } else if at + |data| > |cells| {
        err := EINVAL;
      }
      ghost var o := Done;
      if err == 0 {
        cells := Anded(cells, at, data);
      } else {
        var left: seq<bv8> := *;
        if |left| != |data| {
          left := data;
        }
        o := Failed(left);
        if at + |left| <= |cells| {
          cells := cells[..at] + left + cells[at + |left|..];
        }
      }
      outcomes, top := outcomes + [o], Arith.Max(top, at + |data|);
    }

    /** Makes room for a package; more than fits is refused, and so is what doesn't fit in whole erase blocks. */
    method Erase(len: nat) returns (err: int)
      requires Valid()
      modifies this
      ensures Valid() && |cells| == old(|cells|)
      ensures faults >= old(faults) && (err == 0 <==> faults == old(faults) && AlignUp(len, eraseBlock) <= |cells|)
      ensures err == 0 ==>
                && erased == AlignUp(len, eraseBlock) <= |cells| && outcomes == [] && top == 0
                && cells == Blank(erased) + old(cells)[erased..]
      ensures AlignUp(len, eraseBlock) > |cells| ==> err != 0 && cells == old(cells)
    {
      err := *;
      if err != 0 {
        faults := faults + 1;
        return;
      }
      AlignUpIsLeast(len, eraseBlock);
      var eraseLen := AlignUp(len, eraseBlock);
      if eraseLen > |cells| {
        return ENOSPC;
      }
      err := FlashErase(eraseLen);
    }

    /** Writes up to a chunk, the last write block filled up with blank bytes. */
    method Write(offset: nat, buf: array<bv8>, len: nat) returns (err: int)
      requires Valid() && len <= buf.Length && offset % writeBlock == 0
      modifies `cells, `outcomes, `top, `faults
      ensures Valid() && |cells| == old(|cells|)
      ensures len > MAX_CHUNK ==>
                err == EINVAL && cells == old(cells) && outcomes == old(outcomes)
                && top == old(top) && faults == old(faults)
      ensures len <= MAX_CHUNK ==>
                var data := Padded(buf[..len], writeBlock);
                && |outcomes| == old(|outcomes|) + 1 && outcomes[..old(|outcomes|)] == old(outcomes)
                && top <= Arith.Max(old(top), offset + |data|) && faults >= old(faults)
                && (err == 0 <==> faults == old(faults) && offset + |data| <= |cells|)
                && (faults == old(faults) ==> top == Arith.Max(old(top), offset + |data|))
                && var o := outcomes[old(|outcomes|)];
                OutcomeOk(old(cells), offset, data, o) && (err == 0 <==> o.Done?)
                && cells == Stored(old(cells), offset, data, o)
    {
      if len > MAX_CHUNK {
        return EINVAL;
      }
      AlignUpIsLeast(len, writeBlock);
      var alignedLen := AlignUp(len, writeBlock);
      err := *;
      if err != 0 {
        // The partition could not be opened: nothing of it has changed.
        ghost var data := Padded(buf[..len], writeBlock);
        ghost var was := if offset + |data| <= |cells| then cells[offset..offset + |data|] else data;
        outcomes, faults := outcomes + [Failed(was)], faults + 1;
        return;
      }
      if alignedLen == len {
        assert Padded(buf[..len], writeBlock) == buf[..len];
        err := FlashWrite(offset, buf[..len]);
      } else {
        var padded := new bv8[MAX_CHUNK + 16];
        forall i | 0 <= i < len {
          padded[i] := buf[i];
        }
        forall i | len <= i < alignedLen {
          padded[i] := 0xFF;
        }
        assert padded[..alignedLen] == Padded(buf[..len], writeBlock);
        err := FlashWrite(offset, padded[..alignedLen]);
      }
    }
  }
}
