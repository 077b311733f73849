/** What flash holds of a stream that was written chunk by chunk, each write with its own outcome. */
module PkgStream {
  import opened PkgStore

  /** The partition after whole chunks of data were written from its start. */
  function Programmed(cells: seq<bv8>, data: seq<bv8>, outcomes: seq<Outcome>): (r: seq<bv8>)
    requires |data| == MAX_CHUNK * |outcomes|
    ensures |r| == |cells|
    decreases |outcomes|
  {
    if outcomes == [] then cells
    else
      var n := |outcomes| - 1;
      var before := Programmed(cells, data[..MAX_CHUNK * n], outcomes[..n]);
      if OutcomeOk(before, MAX_CHUNK * n, data[MAX_CHUNK * n..], outcomes[n]) then
        Stored(before, MAX_CHUNK * n, data[MAX_CHUNK * n..], outcomes[n])
      else
        before
  }

  lemma ProgrammedNext(cells: seq<bv8>, data: seq<bv8>, outcomes: seq<Outcome>, chunk: seq<bv8>, o: Outcome)
    requires |data| == MAX_CHUNK * |outcomes| && |chunk| == MAX_CHUNK
    requires OutcomeOk(Programmed(cells, data, outcomes), |data|, chunk, o)
    ensures Programmed(cells, data + chunk, outcomes + [o])
         == Stored(Programmed(cells, data, outcomes), |data|, chunk, o)
  {
    var n := |outcomes|;
    assert (data + chunk)[..MAX_CHUNK * n] == data && (data + chunk)[MAX_CHUNK * n..] == chunk;
    assert (outcomes + [o])[..n] == outcomes;
  }

  function Chunk(s: seq<bv8>, k: nat): (c: seq<bv8>)
    requires MAX_CHUNK * (k + 1) <= |s|
    ensures |c| == MAX_CHUNK
  {
    s[MAX_CHUNK * k..MAX_CHUNK * (k + 1)]
  }

  lemma ChunkOfPrefix(s: seq<bv8>, n: nat, k: nat)
    requires MAX_CHUNK * (k + 1) <= n <= |s|
    ensures Chunk(s[..n], k) == Chunk(s, k)
  {
  }

  lemma SameChunks(a: seq<bv8>, b: seq<bv8>, n: nat)
    requires MAX_CHUNK * n <= |a| && MAX_CHUNK * n <= |b|
    requires forall k | 0 <= k < n :: Chunk(a, k) == Chunk(b, k)
    ensures a[..MAX_CHUNK * n] == b[..MAX_CHUNK * n]
  {
    forall i | 0 <= i < MAX_CHUNK * n
      ensures a[i] == b[i]
    {
      var k, j := i / MAX_CHUNK, i % MAX_CHUNK;
      assert Chunk(a, k)[j] == a[i] && Chunk(b, k)[j] == b[i];
    }
  }

  /** What a chunk's place holds: the chunk, unless its write failed and left something else. */
  function Kept(data: seq<bv8>, outcomes: seq<Outcome>, k: nat): (chunk: seq<bv8>)
    requires MAX_CHUNK * |outcomes| <= |data| && k < |outcomes|
  {
    match outcomes[k]
    case Done => Chunk(data, k)
    case Failed(left) => left
  }

  predicate OutcomesOk(data: seq<bv8>, outcomes: seq<Outcome>) {
    && |data| == MAX_CHUNK * |outcomes|
    && forall k | 0 <= k < |outcomes| :: outcomes[k].Failed? ==> |outcomes[k].left| == MAX_CHUNK
  }

  lemma TailsOfEqual(a: seq<bv8>, b: seq<bv8>, at: nat, n: nat)
    requires |a| == |b| && at + n <= |a| && a[at..] == b[at..]
    ensures a[at..at + n] == b[at..at + n] && a[at + n..] == b[at + n..]
  {
    assert a[at..][..n] == a[at..at + n] && b[at..][..n] == b[at..at + n];
    assert a[at..][n..] == a[at + n..] && b[at..][n..] == b[at + n..];
  }

  lemma StillBlank(cells: seq<bv8>, at: nat, n: nat, blank: nat)
    requires at + n <= blank <= |cells| && cells[..blank] == Blank(blank)
    ensures cells[at..at + n] == Blank(n)
  {
    assert cells[..blank][at..at + n] == cells[at..at + n];
  }

  /** A write to cells that are still blank leaves the data, or what a failure left. */
  lemma StoredOnBlank(before: seq<bv8>, cells: seq<bv8>, at: nat, data: seq<bv8>, o: Outcome, blank: nat)
    requires |before| == |cells| && at + |data| <= blank <= |cells| && cells[..blank] == Blank(blank)
    requires before[at..] == cells[at..] && (o.Failed? ==> |o.left| == |data|)
    ensures Stored(before, at, data, o) == before[..at] + (if o.Done? then data else o.left) + cells[at + |data|..]
  {
    TailsOfEqual(before, cells, at, |data|);
    StillBlank(cells, at, |data|, blank);
    if o.Done? {
      BlankTakesData(before, at, data);
    }
  }

  lemma KeptLast(data: seq<bv8>, outcomes: seq<Outcome>)
    requires OutcomesOk(data, outcomes) && outcomes != []
    ensures var n := |outcomes| - 1;
            Kept(data, outcomes, n) == if outcomes[n].Done? then data[|data| - MAX_CHUNK..] else outcomes[n].left
  {
  }

  /** One more chunk leaves the chunks before it. */
  lemma ChunksStay(before: seq<bv8>, r: seq<bv8>, data: seq<bv8>, outcomes: seq<Outcome>)
    requires OutcomesOk(data, outcomes) && outcomes != [] && |data| <= |r| == |before|
    requires var at, n := |data| - MAX_CHUNK, |outcomes| - 1;
             && r[..at] == before[..at] && r[at..|data|] == Kept(data, outcomes, n)
             && forall k | 0 <= k < n :: Chunk(before, k) == Kept(data[..at], outcomes[..n], k)
    ensures forall k | 0 <= k < |outcomes| :: Chunk(r, k) == Kept(data, outcomes, k)
  {
    var at, n := |data| - MAX_CHUNK, |outcomes| - 1;
    assert Chunk(r, n) == r[at..|data|];
    hide Chunk;
    forall k | 0 <= k < n
      ensures Chunk(r, k) == Kept(data, outcomes, k)
    {
      ChunkOfPrefix(r, at, k);
      ChunkOfPrefix(before, at, k);
      ChunkOfPrefix(data, at, k);
      assert Chunk(before, k) == Kept(data[..at], outcomes[..n], k);
    }
  }

  /** On blank cells every chunk's place holds what its own write left, and nothing after the chunks has changed. */
  lemma {:induction false} ChunksKept(cells: seq<bv8>, data: seq<bv8>, outcomes: seq<Outcome>, blank: nat)
    requires OutcomesOk(data, outcomes) && |data| <= blank <= |cells| && cells[..blank] == Blank(blank)
    ensures var r := Programmed(cells, data, outcomes);
            && r[|data|..] == cells[|data|..]
            && forall k | 0 <= k < |outcomes| :: Chunk(r, k) == Kept(data, outcomes, k)
    decreases |outcomes|
  {
    hide Kept, Chunk, Blank, Stored;
    if outcomes == [] {
    } else {
      var n, at := |outcomes| - 1, |data| - MAX_CHUNK;
      ChunksKept(cells, data[..at], outcomes[..n], blank);
      var before, r := Programmed(cells, data[..at], outcomes[..n]), Programmed(cells, data, outcomes);
      StoredOnBlank(before, cells, at, data[at..], outcomes[n], blank);
      KeptLast(data, outcomes);
      assert r == before[..at] + Kept(data, outcomes, n) + cells[|data|..];
      ChunksStay(before, r, data, outcomes);
    }
  }

  predicate Matches(data: seq<bv8>, outcomes: seq<Outcome>)
    requires |data| == MAX_CHUNK * |outcomes|
  {
    forall k | 0 <= k < |outcomes| :: Kept(data, outcomes, k) == Chunk(data, k)
  }

  lemma PrefixMatches(r: seq<bv8>, data: seq<bv8>, outcomes: seq<Outcome>)
    requires |data| == MAX_CHUNK * |outcomes| && |data| <= |r|
    requires forall k | 0 <= k < |outcomes| :: Chunk(r, k) == Kept(data, outcomes, k)
    ensures r[..|data|] == data <==> Matches(data, outcomes)
  {
    hide Chunk, Kept;
    if Matches(data, outcomes) {
      SameChunks(r, data, |outcomes|);
      assert data[..|data|] == data;
    }
    if r[..|data|] == data {
      forall k | 0 <= k < |outcomes|
        ensures Kept(data, outcomes, k) == Chunk(data, k)
      {
        ChunkOfPrefix(r, |data|, k);
      }
    }
  }

  /** Flash holds the stream exactly if every write that failed left in place what it should have written. */
  lemma HeldExactlyIf(cells: seq<bv8>, data: seq<bv8>, outcomes: seq<Outcome>, blank: nat)
    requires OutcomesOk(data, outcomes) && |data| <= blank <= |cells| && cells[..blank] == Blank(blank)
    ensures Programmed(cells, data, outcomes) == data + cells[|data|..] <==> Matches(data, outcomes)
  {
    hide Programmed, Kept, Blank, Chunk, Matches;
    ChunksKept(cells, data, outcomes, blank);
    var r := Programmed(cells, data, outcomes);
    PrefixMatches(r, data, outcomes);
    assert r == r[..|data|] + r[|data|..];
    assert (data + cells[|data|..])[..|data|] == data;
  }

  /** In particular when no write failed. */
  lemma HeldIfAllDone(cells: seq<bv8>, data: seq<bv8>, outcomes: seq<Outcome>, blank: nat)
    requires |data| == MAX_CHUNK * |outcomes| && AllDone(outcomes)
    requires |data| <= blank <= |cells| && cells[..blank] == Blank(blank)
    ensures Programmed(cells, data, outcomes) == data + cells[|data|..]
  {
    HeldExactlyIf(cells, data, outcomes, blank);
  }

  /** Which of the writes returned an error. */
  predicate FailedAre(outcomes: seq<Outcome>, failed: seq<bool>) {
    |outcomes| == |failed| && forall k | 0 <= k < |failed| :: outcomes[k].Failed? <==> failed[k]
  }

  function Inverted(chunk: seq<bv8>): (r: seq<bv8>)
    ensures |r| == |chunk|
  {
    seq(|chunk|, i requires 0 <= i < |chunk| => !chunk[i])
  }

  /** Outcomes with the given return codes in which every failed write has left just the wrong bytes. */
  function Worst(data: seq<bv8>, failed: seq<bool>): (outcomes: seq<Outcome>)
    requires |data| == MAX_CHUNK * |failed|
    ensures OutcomesOk(data, outcomes) && FailedAre(outcomes, failed)
  {
    seq(|failed|, k requires 0 <= k < |failed| => if failed[k] then Failed(Inverted(Chunk(data, k))) else Done)
  }

  /** What the return codes of the chunk writes tell: with no error among them flash holds the stream, whatever else;
      with any it needn't. */
  lemma HeldByReturnCodes(cells: seq<bv8>, data: seq<bv8>, failed: seq<bool>, blank: nat)
    requires |data| == MAX_CHUNK * |failed| && |data| <= blank <= |cells| && cells[..blank] == Blank(blank)
    ensures (forall outcomes | OutcomesOk(data, outcomes) && FailedAre(outcomes, failed) ::
               Programmed(cells, data, outcomes) == data + cells[|data|..])
            <==> true !in failed
  {
    hide Programmed, Chunk, Blank;
    if true in failed {
      var k :| 0 <= k < |failed| && failed[k];
      var worst := Worst(data, failed);
      assert Kept(data, worst, k)[0] == !Chunk(data, k)[0] != Chunk(data, k)[0];
      HeldExactlyIf(cells, data, worst, blank);
    } else {
      forall outcomes | OutcomesOk(data, outcomes) && FailedAre(outcomes, failed)
        ensures Programmed(cells, data, outcomes) == data + cells[|data|..]
      {
        HeldIfAllDone(cells, data, outcomes, blank);
      }
    }
  }

  /** The same for chunks and the tail behind them. */
  lemma HeldByReturnCodesWithTail(base: seq<bv8>, data: seq<bv8>, tail: seq<bv8>, failed: seq<bool>, blank: nat)
    requires |data| == MAX_CHUNK * |failed| && |data| + |tail| <= blank <= |base| && base[..blank] == Blank(blank)
    ensures (forall outcomes | OutcomesOk(data, outcomes) && FailedAre(outcomes, failed) ::
               Holds(Programmed(base, data, outcomes)[..|data|] + (tail + base[|data| + |tail|..]), base, data, tail))
            <==> true !in failed
  {
    hide Programmed, Blank, Holds;
    var rest := tail + base[|data| + |tail|..];
    forall outcomes | OutcomesOk(data, outcomes) && FailedAre(outcomes, failed)
      ensures Holds(Programmed(base, data, outcomes)[..|data|] + rest, base, data, tail)
          <==> Programmed(base, data, outcomes) == data + base[|data|..]
    {
      HeldWithTail(Programmed(base, data, outcomes)[..|data|] + rest, base, data, tail, outcomes, blank);
      HeldExactlyIf(base, data, outcomes, blank);
    }
    HeldByReturnCodes(base, data, failed, blank);
  }

  lemma DoneMatches(data: seq<bv8>, outcomes: seq<Outcome>)
    requires |data| == MAX_CHUNK * |outcomes| && AllDone(outcomes)
    ensures Matches(data, outcomes)
  {
  }

  /** The rest of the stream after the whole chunks, padded to a write block: the padding is what blank cells hold. */
  lemma TailHeld(held: seq<bv8>, base: seq<bv8>, at: nat, tail: seq<bv8>, wb: nat, blank: nat)
    requires 0 < wb && at + AlignUp(|tail|, wb) <= blank <= |base| == |held| && |tail| <= AlignUp(|tail|, wb)
    requires base[..blank] == Blank(blank) && held[at..] == base[at..]
    ensures Anded(held, at, Padded(tail, wb)) == held[..at] + (tail + base[at + |tail|..])
  {
    var padded := Padded(tail, wb);
    StoredOnBlank(held, base, at, padded, Done, blank);
    StillBlank(base, at + |tail|, |padded| - |tail|, blank);
    assert base[at + |tail|..] == base[at + |tail|..at + |padded|] + base[at + |padded|..];
  }

  lemma TailWritten(base: seq<bv8>, data: seq<bv8>, tail: seq<bv8>, outcomes: seq<Outcome>, wb: nat, blank: nat)
    requires 0 < wb && |data| + AlignUp(|tail|, wb) <= blank <= |base| && |tail| <= AlignUp(|tail|, wb)
    requires OutcomesOk(data, outcomes) && base[..blank] == Blank(blank)
    ensures var held := Programmed(base, data, outcomes);
            Anded(held, |data|, Padded(tail, wb)) == held[..|data|] + (tail + base[|data| + |tail|..])
  {
    hide Programmed, Padded, Blank, Anded, AlignUp;
    ChunksKept(base, data, outcomes, blank);
    TailHeld(Programmed(base, data, outcomes), base, |data|, tail, wb, blank);
  }

  lemma PrefixDecides(p: seq<bv8>, data: seq<bv8>, rest: seq<bv8>)
    requires |p| == |data|
    ensures p + rest == data + rest <==> p == data
  {
    assert (p + rest)[..|p|] == p && (data + rest)[..|p|] == data;
  }

  /** Flash holds a stream - whole chunks and a tail - and, after it, what it held before. */
  predicate Holds(cells: seq<bv8>, base: seq<bv8>, data: seq<bv8>, tail: seq<bv8>) {
    |data| + |tail| <= |base| && cells == data + (tail + base[|data| + |tail|..])
  }

  /** It does exactly if the chunks match. */
  predicate HeldIfMatching(cells: seq<bv8>, base: seq<bv8>, data: seq<bv8>, tail: seq<bv8>, outcomes: seq<Outcome>) {
    |data| == MAX_CHUNK * |outcomes| && (Holds(cells, base, data, tail) <==> Matches(data, outcomes))
  }

  /** And in any case if no chunk's write returned an error. */
  predicate HeldAsWritten(cells: seq<bv8>, base: seq<bv8>, data: seq<bv8>, tail: seq<bv8>, outcomes: seq<Outcome>) {
    HeldIfMatching(cells, base, data, tail, outcomes) && (AllDone(outcomes) ==> Holds(cells, base, data, tail))
  }

  predicate AllDone(outcomes: seq<Outcome>) {
    forall k | 0 <= k < |outcomes| :: outcomes[k].Done?
  }

  /** With nothing but whole chunks, or with the tail in place, flash holds the stream exactly if the chunks match. */
  lemma HeldWithTail(held: seq<bv8>, base: seq<bv8>, data: seq<bv8>, tail: seq<bv8>, outcomes: seq<Outcome>, blank: nat)
    requires OutcomesOk(data, outcomes) && |data| + |tail| <= blank <= |base| == |held| && base[..blank] == Blank(blank)
    requires held == Programmed(base, data, outcomes)[..|data|] + (tail + base[|data| + |tail|..])
    ensures HeldIfMatching(held, base, data, tail, outcomes)
  {
    hide Programmed, Matches, Blank;
    HeldExactlyIf(base, data, outcomes, blank);
    ChunksKept(base, data, outcomes, blank);
    var r := Programmed(base, data, outcomes);
    assert r == r[..|data|] + base[|data|..];
    PrefixDecides(r[..|data|], data, base[|data|..]);
    PrefixDecides(r[..|data|], data, tail + base[|data| + |tail|..]);
  }

  lemma NoTail(base: seq<bv8>, data: seq<bv8>, outcomes: seq<Outcome>, blank: nat)
    requires OutcomesOk(data, outcomes) && |data| <= blank <= |base| && base[..blank] == Blank(blank)
    ensures var r := Programmed(base, data, outcomes); r == r[..|data|] + ([] + base[|data|..])
  {
    hide Programmed, Blank;
    ChunksKept(base, data, outcomes, blank);
  }

  /** A chunk whose write failed and left its place blank goes unnoticed: nothing but the log remembers the failure. */
  lemma LostChunk()
    ensures var data, outcomes := seq(MAX_CHUNK, _ => 0 as bv8), [Failed(Blank(MAX_CHUNK))];
            OutcomesOk(data, outcomes) && !Matches(data, outcomes)
            && Programmed(Blank(MAX_CHUNK), data, outcomes) == Blank(MAX_CHUNK) != data
  {
    var data, outcomes := seq(MAX_CHUNK, _ => 0 as bv8), [Failed(Blank(MAX_CHUNK))];
    assert data[0] != Blank(MAX_CHUNK)[0];
    assert Kept(data, outcomes, 0)[0] != Chunk(data, 0)[0];
  }

  lemma HeldAtEnd(held: seq<bv8>, base: seq<bv8>, data: seq<bv8>, tail: seq<bv8>, outcomes: seq<Outcome>, blank: nat)
    requires OutcomesOk(data, outcomes) && |data| + |tail| <= blank <= |base| == |held| && base[..blank] == Blank(blank)
    requires held == Programmed(base, data, outcomes)[..|data|] + (tail + base[|data| + |tail|..])
    ensures HeldAsWritten(held, base, data, tail, outcomes)
  {
    hide Programmed, Matches, Blank, AllDone, Holds;
    HeldWithTail(held, base, data, tail, outcomes, blank);
    if AllDone(outcomes) {
      DoneMatches(data, outcomes);
    }
  }
}
