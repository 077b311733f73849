/** The streaming uploads: bytes staged up to a chunk, then written to the package partition or to the image writer. */
module Loader {
  import Arith
  import opened PkgStore
  import opened PkgStream
  import OtaStore

  datatype Mode = LineMode | PkgMode | OtaMode

  datatype Ret = Ok | PkgFailed | UnsupportedMode

  class Control {
    var restart: bool
    var mode: Mode
    // The staging buffer, shared by both kinds of upload.
    const buf: array<bv8>
    var bufLen: nat
    var pkgWritten: nat
    var pkgReady: bool
    var otaFailed: bool
    const pkg: Partition
    const ota: OtaStore.Store
    // The current upload: its announced length, 0 if it was refused, the bytes passed on from the buffer so far, and
    // the calls the device had failed by its start. For a package, the partition as it was found then; for an image,
    // what the writer had accepted by then.
    ghost var announced: nat
    ghost var passed: seq<bv8>
    ghost var faultsBefore: nat
    ghost var base: seq<bv8>
    ghost var before: seq<bv8>

    ghost predicate Valid()
      reads this, pkg, ota, ota.writer
    {
      buf.Length == MAX_CHUNK && bufLen <= MAX_CHUNK && pkg.Valid() && ota.Valid()
    }

    /** The bytes received of the current upload. */
    ghost function Received(): (stream: seq<bv8>)
      requires bufLen <= buf.Length
      reads `bufLen, `passed, buf
    {
      passed + buf[..bufLen]
    }

    /** A package on its way: flash holds what the writes of its whole chunks left. */
    ghost predicate PkgStaged()
      reads this, pkg, ota, ota.writer
    {
      && Valid() && |passed| == pkgWritten && OutcomesOk(passed, pkg.outcomes)
      && |base| == |pkg.cells| && pkg.cells == Programmed(base, passed, pkg.outcomes)
      && announced <= pkg.erased == AlignUp(announced, pkg.eraseBlock) <= |base|
      && base[..pkg.erased] == Blank(pkg.erased)
      && pkg.top <= pkgWritten && faultsBefore <= pkg.faults
      && (pkg.faults == faultsBefore ==> pkg.top == pkgWritten && (|passed| <= |base| ==> AllDone(pkg.outcomes)))
    }

    ghost predicate PkgReceiving()
      reads this, pkg, ota, ota.writer
    {
      PkgStaged() && bufLen < MAX_CHUNK
    }

    /** An image on its way: what was passed on is accepted, unless a write failed; nothing was written after that. */
    ghost predicate OtaStaged()
      reads this, pkg, ota, ota.writer
    {
      && Valid() && ota.writer.late == 0 && faultsBefore <= ota.writer.faults
      && (otaFailed <==> ota.writer.broken) && (otaFailed <==> ota.writer.faults > faultsBefore)
      && (!otaFailed ==> ota.writer.accepted == before + passed)
    }

    ghost predicate OtaReceiving()
      reads this, pkg, ota, ota.writer
    {
      OtaStaged() && bufLen < MAX_CHUNK
    }

    constructor (pkg: Partition, ota: OtaStore.Store)
      requires pkg.Valid() && ota.Valid()
      ensures Valid() && mode == LineMode && !restart && !pkgReady
      ensures fresh(buf) && this.pkg == pkg && this.ota == ota
    {
      restart, mode, pkgReady, otaFailed := false, LineMode, false, false;
      buf := new bv8[MAX_CHUNK](_ => 0);
      bufLen, pkgWritten := 0, 0;
      this.pkg, this.ota := pkg, ota;
      announced, passed, base, before, faultsBefore := 0, [], [], [], 0;
    }

    // ---- packages ----

    /** An upload that flash isn't made blank for. */
    ghost method PkgRefuse()
      requires Valid() && pkgWritten == 0
      modifies `announced, `passed, `base, `faultsBefore, pkg`erased, pkg`outcomes, pkg`top
      ensures PkgStaged() && passed == [] && announced == 0 && base == pkg.cells
    {
      AlignUpZero(pkg.eraseBlock);
      hide AlignUp;
      pkg.Begin();
      announced, passed, base, faultsBefore := 0, [], pkg.cells, pkg.faults;
    }

    /** Starts a package: refused exactly if it doesn't fit or the device fails. Bytes of a refused one are staged and
        written all the same. */
    method PkgStart(len: nat) returns (room: nat)
      requires Valid() && bufLen == 0
      modifies `pkgWritten, `announced, `passed, `base, `faultsBefore, pkg
      ensures PkgReceiving() && Received() == [] && base == pkg.cells && |pkg.cells| == old(|pkg.cells|)
      ensures pkg.faults >= old(pkg.faults)
      ensures room == if pkg.faults == old(pkg.faults) && AlignUp(len, pkg.eraseBlock) <= |pkg.cells|
                      then |pkg.cells| else 0
      ensures room > 0 ==> announced == len && base[pkg.erased..] == old(pkg.cells)[pkg.erased..]
      ensures AlignUp(len, pkg.eraseBlock) > |pkg.cells| ==> pkg.cells == old(pkg.cells)
    {
      AlignUpIsLeast(len, pkg.eraseBlock);
      pkgWritten := 0;
      var capacity := pkg.Capacity();
      if capacity < len {
        PkgRefuse();
        return 0;
      }
      var err := pkg.Erase(len);
      if err != 0 {
        PkgRefuse();
        return 0;
      }
      announced, passed, base, faultsBefore := len, [], pkg.cells, pkg.faults;
      return capacity;
    }

    /** A full buffer goes to flash. Whether that worked isn't remembered. */
    method PkgFlush(offset: nat)
      requires PkgStaged() && bufLen == MAX_CHUNK && offset == pkgWritten
      modifies `bufLen, `pkgWritten, `passed, pkg`cells, pkg`outcomes, pkg`top, pkg`faults
      ensures PkgReceiving() && Received() == old(Received())
    {
      hide Programmed, Padded, Stored, OutcomeOk;
      ghost var chunk, outcomes := buf[..MAX_CHUNK], pkg.outcomes;
      bufLen := 0;
      ChunksAreBlocks(|outcomes|, pkg.writeBlock);
      ChunkUnpadded(chunk, pkg.writeBlock);
      var err := pkg.Write(offset, buf, MAX_CHUNK);
      pkgWritten := offset + MAX_CHUNK;
      ProgrammedNext(base, passed, outcomes, chunk, pkg.outcomes[|outcomes|]);
      OutcomesGrow(passed, outcomes, chunk, pkg.outcomes[|outcomes|], old(pkg.cells));
      assert outcomes + [pkg.outcomes[|outcomes|]] == pkg.outcomes;
      passed := passed + chunk;
    }

    /** Takes the next byte of the stream, at this position. */
    method PkgTake(b: bv8, at: nat)
      requires PkgReceiving() && at == |Received()|
      modifies `bufLen, `pkgWritten, `passed, buf, pkg`cells, pkg`outcomes, pkg`top, pkg`faults
      ensures PkgReceiving() && Received() == old(Received()) + [b]
    {
      hide Programmed, OutcomesOk;
      buf[bufLen] := b;
      assert buf[..bufLen + 1] == old(buf[..bufLen]) + [b];
      bufLen := bufLen + 1;
      assert Received() == old(Received()) + [b];
      if bufLen == MAX_CHUNK {
        PkgFlush(at + 1 - MAX_CHUNK);
      }
    }

    /** Takes the next bytes of the stream. */
    method PkgData(piece: seq<bv8>, pos: nat)
      requires PkgReceiving() && pos == |Received()|
      modifies `bufLen, `pkgWritten, `passed, buf, pkg`cells, pkg`outcomes, pkg`top, pkg`faults
      ensures PkgReceiving() && Received() == old(Received()) + piece
    {
      hide Programmed, OutcomesOk;
      for i := 0 to |piece|
        invariant PkgReceiving() && Received() == old(Received()) + piece[..i]
      {
        PkgTake(piece[i], pos + i);
      }
    }

    /** Padded to a write block, the bytes received fit what was made blank - as they do when there are no more than
        announced. */
    ghost predicate Fits()
      requires Valid()
      reads this, pkg, ota, ota.writer, buf
    {
      |Received()| <= AlignUp(|Received()|, pkg.writeBlock) <= pkg.erased
    }

    lemma AnnouncedFits()
      requires PkgReceiving() && |Received()| <= announced
      ensures Fits()
    {
      AlignUpIsLeast(|Received()|, pkg.writeBlock);
      PaddingStaysErased(|Received()|, announced, pkg.writeBlock, pkg.eraseBlock);
    }

    /** Writes what is in the buffer behind the chunks. */
    method PkgTail() returns (err: int)
      requires PkgReceiving() && 0 < bufLen
      modifies pkg`cells, pkg`outcomes, pkg`top, pkg`faults
      ensures Valid() && |pkg.cells| == |base|
      ensures pkg.top <= AlignUp(|Received()|, pkg.writeBlock)
      ensures pkg.faults == faultsBefore ==> pkg.top == AlignUp(|Received()|, pkg.writeBlock)
      ensures |pkg.outcomes| == old(|pkg.outcomes|) + 1 && (err == 0 <==> pkg.outcomes[old(|pkg.outcomes|)].Done?)
      ensures pkg.faults >= old(pkg.faults)
      ensures err == 0 <==> pkg.faults == old(pkg.faults) && AlignUp(|Received()|, pkg.writeBlock) <= |base|
      ensures Fits() && err == 0 ==>
                pkg.cells == old(pkg.cells)[..pkgWritten] + (buf[..bufLen] + base[|Received()|..])
    {
      hide Programmed, Padded, Blank, Anded, AlignUp;
      ChunksAreBlocks(|pkg.outcomes|, pkg.writeBlock);
      TailPadding(|pkg.outcomes|, bufLen, pkg.writeBlock);
      AlignUpIsLeast(|Received()|, pkg.writeBlock);
      ghost var held, tail, outcomes := pkg.cells, buf[..bufLen], pkg.outcomes;
      err := pkg.Write(pkgWritten, buf, bufLen);
      if err == 0 && Fits() {
        TailWritten(base, passed, tail, outcomes, pkg.writeBlock, pkg.erased);
        assert pkg.cells == Anded(held, pkgWritten, Padded(tail, pkg.writeBlock));
      }
    }

    /** Writes what is in the buffer, if there is anything. */
    method PkgRest() returns (err: int)
      requires PkgReceiving()
      modifies pkg`cells, pkg`outcomes, pkg`top, pkg`faults
      ensures Valid() && |pkg.cells| == |base|
      ensures pkg.top <= AlignUp(|Received()|, pkg.writeBlock)
      ensures pkg.faults == faultsBefore ==> pkg.top == AlignUp(|Received()|, pkg.writeBlock)
      ensures bufLen == 0 ==> err == 0 && pkg.outcomes == old(pkg.outcomes)
      ensures bufLen > 0 ==>
                && |pkg.outcomes| == old(|pkg.outcomes|) + 1
                && (err == 0 <==> pkg.outcomes[old(|pkg.outcomes|)].Done?)
      ensures pkg.faults >= old(pkg.faults) && (Fits() && pkg.faults == old(pkg.faults) ==> err == 0)
      ensures Fits() && err == 0 ==> HeldAsWritten(pkg.cells, base, passed, buf[..bufLen], old(pkg.outcomes))
    {
      assert pkgWritten == MAX_CHUNK * |pkg.outcomes|;
      hide Programmed, Padded, HeldAsWritten, Blank, AlignUp, OutcomesOk;
      ghost var tail, outcomes := buf[..bufLen], pkg.outcomes;
      err := 0;
      if bufLen > 0 {
        err := PkgTail();
      } else {
        ChunksPadded(|outcomes|, pkg.writeBlock);
        if Fits() {
          NoTail(base, passed, outcomes, pkg.erased);
        }
      }
      if Fits() && err == 0 {
        HeldAtEnd(pkg.cells, base, passed, tail, outcomes, pkg.erased);
      }
    }

    /** The rest of the buffer goes to flash. Whatever became of the chunks before it, the package counts as received.
        When it fits what was made blank, flash holds it if no write returned an error - and exactly if every chunk
        whose write failed was left as it should be all the same. Writes end where the bytes received do, padded. */
    method PkgEnd() returns (r: Ret)
      requires PkgReceiving()
      modifies `bufLen, `pkgWritten, `pkgReady, pkg`cells, pkg`outcomes, pkg`top, pkg`faults
      ensures Valid() && bufLen == 0 && r in {Ok, PkgFailed}
      ensures old(bufLen) == 0 ==> r == Ok && pkg.outcomes == old(pkg.outcomes)
      ensures old(bufLen) > 0 ==>
                && |pkg.outcomes| == old(|pkg.outcomes|) + 1
                && (r == Ok <==> pkg.outcomes[old(|pkg.outcomes|)].Done?)
      ensures pkgReady == (old(pkgReady) || r == Ok)
      ensures pkg.top <= AlignUp(old(|Received()|), pkg.writeBlock)
      ensures pkg.faults == faultsBefore ==> pkg.top == AlignUp(old(|Received()|), pkg.writeBlock)
      ensures old(|Received()|) <= announced ==> old(Fits()) && pkg.top <= pkg.erased
      ensures old(Fits()) && r == Ok ==> HeldAsWritten(pkg.cells, base, passed, old(buf[..bufLen]), old(pkg.outcomes))
      ensures old(Fits()) && pkg.faults == faultsBefore ==>
                r == Ok && AllDone(old(pkg.outcomes))
    {
      hide Programmed, Padded, HeldAsWritten, Blank, AlignUp, AllDone, OutcomesOk;
      if |Received()| <= announced {
        AnnouncedFits();
      }
      var err := PkgRest();
      if err != 0 {
        bufLen := 0;
        return PkgFailed;
      }
      pkgWritten := pkgWritten + bufLen;
      bufLen := 0;
      pkgReady := true;
      r := Ok;
    }

    // ---- images ----

    /** Starts an image: refused exactly if it is too long or the writer can't be set up. Bytes of a refused one go on
        behind whatever the writer has. */
    method OtaStart(len: nat) returns (room: nat)
      requires Valid() && bufLen == 0
      modifies `otaFailed, `announced, `passed, `before, `faultsBefore, ota`expectedLen, ota.writer
      ensures OtaReceiving() && Received() == [] && |ota.writer.slot| == old(|ota.writer.slot|)
      ensures ota.writer.faults >= old(ota.writer.faults)
      ensures room == if len <= |ota.writer.slot| && ota.writer.faults == old(ota.writer.faults)
                      then |ota.writer.slot| else 0
      ensures if room > 0 then before == [] && announced == ota.expectedLen == len
              else announced == 0 && ota.expectedLen == old(ota.expectedLen)
    {
      otaFailed := false;
      var capacity := ota.Capacity();
      if capacity < len {
        ota.writer.Begin();
        announced, passed, before, faultsBefore := 0, [], ota.writer.accepted, ota.writer.faults;
        return 0;
      }
      var err := ota.Start(len);
      ota.writer.Begin();
      passed, before, faultsBefore := [], ota.writer.accepted, ota.writer.faults;
      if err != 0 {
        announced := 0;
        return 0;
      }
      announced := len;
      return capacity;
    }

    /** What is in the buffer goes to the writer, unless a write has failed: then it is dropped. */
    method OtaFlush()
      requires OtaStaged()
      modifies `bufLen, `otaFailed, `passed, ota.writer
      ensures OtaReceiving() && bufLen == 0 && Received() == old(Received())
    {
      var len := bufLen;
      bufLen := 0;
      passed := passed + buf[..len];
      if len == 0 || otaFailed {
        return;
      }
      var err := ota.Write(buf, len);
      if err != 0 {
        otaFailed := true;
      }
    }

    /** Takes the next byte of the stream. */
    method OtaTake(b: bv8)
      requires OtaReceiving()
      modifies `bufLen, `otaFailed, `passed, buf, ota.writer
      ensures OtaReceiving() && Received() == old(Received()) + [b]
    {
      buf[bufLen] := b;
      assert buf[..bufLen + 1] == old(buf[..bufLen]) + [b];
      bufLen := bufLen + 1;
      assert Received() == old(Received()) + [b];
      if bufLen == MAX_CHUNK {
        OtaFlush();
      }
    }

    /** Takes the next bytes of the stream. */
    method OtaData(piece: seq<bv8>)
      requires OtaReceiving()
      modifies `bufLen, `otaFailed, `passed, buf, ota.writer
      ensures OtaReceiving() && Received() == old(Received()) + piece
    {
      for i := 0 to |piece|
        invariant OtaReceiving() && Received() == old(Received()) + piece[..i]
      {
        OtaTake(piece[i]);
      }
    }

    /** The image counts as received, and the device restarts into it, exactly if nothing has failed since the start,
        as many bytes came as are expected and they begin as an image does; then the slot holds just what came - behind,
        if the start was refused, what the writer had before. */
    method OtaEnd() returns (r: Ret)
      requires OtaReceiving()
      modifies `bufLen, `otaFailed, `passed, `restart, ota`pending, ota.writer
      ensures Valid() && bufLen == 0 && r in {Ok, PkgFailed} && ota.writer.late == 0
      ensures r == Ok <==> ota.writer.faults == faultsBefore && |before| + old(|Received()|) == ota.expectedLen
                           && OtaStore.Magic(ota.writer.slot) == OtaStore.IMAGE_MAGIC
      ensures r == Ok ==>
                ota.expectedLen <= |ota.writer.slot| && ota.writer.slot[..ota.expectedLen] == before + old(Received())
      ensures restart == (old(restart) || r == Ok) && ota.pending == (old(ota.pending) || r == Ok)
    {
      hide OtaStore.Magic;
      OtaFlush();
      if otaFailed {
        return PkgFailed;
      }
      assert ota.writer.accepted == before + old(Received());
      var err := ota.Finish();
      if err != 0 {
        return PkgFailed;
      }
      restart := true;
      r := Ok;
    }

    // ---- both ----

    method Start(m: Mode, len: nat) returns (room: nat)
      requires Valid()
      modifies this, pkg, ota`expectedLen, ota.writer
      ensures Valid() && mode == m && bufLen == 0 && Received() == []
      ensures m == PkgMode ==> PkgReceiving()
      ensures m == OtaMode ==> OtaReceiving() && (room > 0 ==> before == [] && ota.expectedLen == len)
      ensures if m == LineMode then room == 0 else room > 0 ==> announced == len
      ensures restart == old(restart) && pkgReady == old(pkgReady)
    {
      mode, bufLen := m, 0;
      match m
      case PkgMode => room := PkgStart(len);
      case OtaMode => room := OtaStart(len);
      case LineMode =>
        passed := [];
        room := 0;
    }

    /** The next piece of the stream, for whichever upload was started - refused or not. */
    method Data(piece: seq<bv8>, pos: nat)
      requires mode == PkgMode ==> PkgReceiving() && pos == |Received()|
      requires mode == OtaMode ==> OtaReceiving()
      modifies `bufLen, `pkgWritten, `otaFailed, `passed, buf, pkg`cells, pkg`outcomes, pkg`top, pkg`faults, ota.writer
      ensures mode == PkgMode ==> PkgReceiving() && Received() == old(Received()) + piece
      ensures mode == OtaMode ==> OtaReceiving() && Received() == old(Received()) + piece
    {
      match mode
      case PkgMode => PkgData(piece, pos);
      case OtaMode => OtaData(piece);
      case LineMode =>
    }

    /** The end of the upload; the mode is line mode again. Only a received image asks for a restart. */
    method End() returns (r: Ret)
      requires Valid()
      requires mode == PkgMode ==> PkgReceiving()
      requires mode == OtaMode ==> OtaReceiving()
      modifies this, pkg`cells, pkg`outcomes, pkg`top, pkg`faults, ota`pending, ota.writer
      ensures mode == LineMode && (r == UnsupportedMode <==> old(mode) == LineMode)
      ensures restart == (old(restart) || (old(mode) == OtaMode && r == Ok))
      ensures pkgReady == (old(pkgReady) || (old(mode) == PkgMode && r == Ok))
      ensures old(mode) == PkgMode && old(Fits()) && r == Ok ==>
                HeldAsWritten(pkg.cells, base, passed, old(buf[..bufLen]), old(pkg.outcomes))
      ensures old(mode) == PkgMode && old(|Received()|) <= announced ==> old(Fits()) && pkg.top <= pkg.erased
      ensures old(mode) == OtaMode && r == Ok ==>
                ota.expectedLen <= |ota.writer.slot| && ota.writer.slot[..ota.expectedLen] == before + old(Received())
    {
      hide HeldAsWritten, AllDone, Programmed, OutcomesOk, AlignUp;
      var was := mode;
      mode := LineMode;
      match was
      case PkgMode => r := PkgEnd();
      case OtaMode => r := OtaEnd();
      case LineMode => r := UnsupportedMode;
    }
  }

  // ---- whole chunks and write blocks ----

  lemma ChunksAreBlocks(n: nat, wb: nat)
    requires 0 < wb && MAX_CHUNK % wb == 0
    ensures (MAX_CHUNK * n) % wb == 0
  {
    var m := MAX_CHUNK / wb;
    assert MAX_CHUNK * n == (m * n) * wb;
    Arith.DivModUnique(m * n, 0, wb);
  }

  lemma ChunksPadded(n: nat, wb: nat)
    requires 0 < wb && MAX_CHUNK % wb == 0
    ensures AlignUp(MAX_CHUNK * n, wb) == MAX_CHUNK * n
  {
    ChunksAreBlocks(n, wb);
    Arith.DivModParts(MAX_CHUNK * n, wb);
    Arith.DivModUnique(MAX_CHUNK * n / wb, wb - 1, wb);
  }

  lemma ChunkUnpadded(chunk: seq<bv8>, wb: nat)
    requires 0 < wb && |chunk| == MAX_CHUNK && MAX_CHUNK % wb == 0
    ensures Padded(chunk, wb) == chunk
  {
    AlignUpIsLeast(MAX_CHUNK, wb);
    assert MAX_CHUNK <= MAX_CHUNK / wb * wb;
  }

  lemma AlignUpShifted(q: nat, len: nat, wb: nat)
    requires 0 < wb
    ensures q * wb + AlignUp(len, wb) == AlignUp(q * wb + len, wb)
  {
    Arith.DivModParts(len + wb - 1, wb);
    var d, m := (len + wb - 1) / wb, (len + wb - 1) % wb;
    assert (q + d) * wb == q * wb + d * wb;
    Arith.DivModUnique(q + d, m, wb);
  }

  lemma TailPadding(n: nat, len: nat, wb: nat)
    requires 0 < wb && MAX_CHUNK % wb == 0
    ensures MAX_CHUNK * n + AlignUp(len, wb) == AlignUp(MAX_CHUNK * n + len, wb) && len <= AlignUp(len, wb)
  {
    ChunksAreBlocks(n, wb);
    AlignUpIsLeast(len, wb);
    var at := MAX_CHUNK * n;
    Arith.DivModParts(at, wb);
    hide AlignUp;
    AlignUpShifted(at / wb, len, wb);
  }

  lemma OutcomesGrow(data: seq<bv8>, outcomes: seq<Outcome>, chunk: seq<bv8>, o: Outcome, cells: seq<bv8>)
    requires OutcomesOk(data, outcomes) && |chunk| == MAX_CHUNK && OutcomeOk(cells, |data|, chunk, o)
    ensures OutcomesOk(data + chunk, outcomes + [o])
  {
  }
}
