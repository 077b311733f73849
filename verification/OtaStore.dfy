/** The secondary image slot: a buffered image writer, and the checks before an image is marked pending. */
module OtaStore {
  const ENOSPC: int := -28
  const EIO: int := -5
  const EINVAL: int := -22
  const IMAGE_MAGIC: nat := 0x96f3b83d

  /** The first word of the slot as the processor reads it, lowest byte first. */
  function Magic(slot: seq<bv8>): (word: nat)
    requires |slot| >= 4
  {
    slot[0] as int + 0x100 * slot[1] as int + 0x10000 * slot[2] as int + 0x1000000 * slot[3] as int
  }

  /** An image begins with 3d b8 f3 96. */
  lemma MagicBytes(slot: seq<bv8>)
    requires |slot| >= 4
    ensures Magic(slot) == IMAGE_MAGIC <==> slot[..4] == [0x3d, 0xb8, 0xf3, 0x96]
  {
    var a, b, c, d := slot[0] as int, slot[1] as int, slot[2] as int, slot[3] as int;
    FourDigits(a, b, c, d);
    assert slot[..4] == [slot[0], slot[1], slot[2], slot[3]];
  }

  lemma FourDigits(a: int, b: int, c: int, d: int)
    requires 0 <= a < 256 && 0 <= b < 256 && 0 <= c < 256 && 0 <= d < 256
    ensures a + 0x100 * b + 0x10000 * c + 0x1000000 * d == 0x96f3b83d
       <==> (a, b, c, d) == (0x3d, 0xb8, 0xf3, 0x96)
  {
  }

  /** Zephyr's image writer: bytes are accepted in order and reach the slot by the next flush. Any call can fail, and
      then what it took and what the slot holds isn't known. */
  class ImageWriter {
    var slot: seq<bv8>
    var accepted: seq<bv8>
    // Calls that have failed. And since the upload began: whether one of them was a write, and writes after that.
    ghost var faults: nat
    ghost var broken: bool
    ghost var late: nat

    constructor (slot: seq<bv8>)
      ensures this.slot == slot
    {
      this.slot, accepted, faults, broken, late := slot, [], 0, false, 0;
    }

    /** An upload begins: what became of the writes before it doesn't matter to it. */
    ghost method Begin()
      modifies `broken, `late
      ensures !broken && late == 0
    {
      broken, late := false, 0;
    }

    method Init() returns (err: int)
      modifies this
      ensures |slot| == old(|slot|)
      ensures faults == old(faults) + if err == 0 then 0 else 1
      ensures err == 0 ==> accepted == [] && !broken && late == 0
    {
      err := *;
      if err == 0 {
        accepted, broken, late := [], false, 0;
      } else {
        accepted := *;
        faults := faults + 1;
      }
    }

    method BufferedWrite(data: seq<bv8>, flush: bool) returns (err: int)
      requires |slot| >= 4
      modifies this
      ensures |slot| == old(|slot|) && late == old(late) + if old(broken) then 1 else 0
      ensures err == 0 ==>
                && accepted == old(accepted) + data && faults == old(faults) && broken == old(broken)
                && (flush ==> |accepted| <= |slot| && slot[..|accepted|] == accepted)
      ensures err != 0 ==> broken && faults == old(faults) + 1
    {
      err := *;
      var len := |slot|;
      late := if broken then late + 1 else late;
      if err == 0 && |accepted| + |data| > len {
        err := EINVAL;
      }
      if err == 0 {
        accepted := accepted + data;
        if flush {
          slot := accepted + slot[|accepted|..];
        }
      } else {
        accepted := *;
        slot := *;
        if |slot| != len {
          slot := seq(len, _ => 0xFF);
        }
        broken, faults := true, faults + 1;
      }
    }

    /** How many bytes have reached the slot: all of them, once they are flushed. */
    function BytesWritten(): nat
      reads this
    {
      |accepted|
    }

    method ReadMagic() returns (err: int, magic: nat)
      requires |slot| >= 4
      modifies `faults
      ensures faults == old(faults) + if err == 0 then 0 else 1
      ensures err == 0 ==> magic == Magic(slot)
    {
      err := *;
      magic := 0;
      if err == 0 {
        magic := Magic(slot);
      } else {
        faults := faults + 1;
      }
    }
  }

  class Store {
    const writer: ImageWriter
    var expectedLen: nat
    // Whether the bootloader has been asked to swap the image in.
    var pending: bool

    ghost predicate Valid()
      reads writer
    {
      |writer.slot| >= 4
    }

    constructor (slot: seq<bv8>)
      requires |slot| >= 4
      ensures Valid() && !pending && fresh(writer) && writer.slot == slot
    {
      writer := new ImageWriter(slot);
      expectedLen, pending := 0, false;
    }

    function Capacity(): nat
      reads writer
    {
      |writer.slot|
    }

    method Start(len: nat) returns (err: int)
      requires Valid()
      modifies `expectedLen, writer
      ensures Valid() && |writer.slot| == old(|writer.slot|)
      ensures len > |writer.slot| ==> err == ENOSPC
      ensures err == 0 <==> len <= |writer.slot| && writer.faults == old(writer.faults)
      ensures writer.faults >= old(writer.faults)
      ensures err == 0 ==>
                && expectedLen == len <= |writer.slot|
                && writer.accepted == [] && !writer.broken && writer.late == 0
      ensures err != 0 ==> expectedLen == old(expectedLen)
    {
      if len > |writer.slot| {
        return ENOSPC;
      }
      err := writer.Init();
      if err == 0 {
        expectedLen := len;
      }
    }

    method Write(buf: array<bv8>, len: nat) returns (err: int)
      requires Valid() && len <= buf.Length
      modifies writer
      ensures Valid() && |writer.slot| == old(|writer.slot|)
      ensures writer.late == old(writer.late) + if old(writer.broken) then 1 else 0
      ensures err == 0 ==>
                && writer.accepted == old(writer.accepted) + buf[..len]
                && writer.faults == old(writer.faults) && writer.broken == old(writer.broken)
      ensures err != 0 ==> writer.broken && writer.faults == old(writer.faults) + 1
    {
      err := writer.BufferedWrite(buf[..len], false);
    }

    method RequestUpgrade() returns (err: int)
      modifies `pending, writer`faults
      ensures writer.faults == old(writer.faults) + if err == 0 then 0 else 1
      ensures pending == (old(pending) || err == 0)
    {
      err := *;
      if err == 0 {
        pending := true;
      } else {
        writer.faults := writer.faults + 1;
      }
    }

    /** Marks the image pending exactly if nothing has failed, its length is the announced one and it begins as an image
        does. */
    method Finish() returns (err: int)
      requires Valid() && !writer.broken
      modifies `pending, writer
      ensures Valid() && |writer.slot| == old(|writer.slot|) && writer.late == old(writer.late)
      ensures err == 0 <==>
              writer.faults == old(writer.faults) && old(|writer.accepted|) == expectedLen
              && Magic(writer.slot) == IMAGE_MAGIC
      ensures err == 0 ==>
                && writer.accepted == old(writer.accepted) && expectedLen <= |writer.slot|
                && writer.slot[..expectedLen] == old(writer.accepted)
      ensures pending == (old(pending) || err == 0)
    {
      hide Magic;
      err := writer.BufferedWrite([], true);
      if err != 0 {
        return;
      }
      if writer.BytesWritten() != expectedLen {
        return EIO;
      }
      var magic: nat;
      err, magic := writer.ReadMagic();
      if err != 0 {
        return;
      }
      if magic != IMAGE_MAGIC {
        return EINVAL;
      }
      err := RequestUpgrade();
    }
  }
}
