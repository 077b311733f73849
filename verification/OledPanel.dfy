/** The OLED controller's display RAM: an addressing window and a cursor that data moves through it. */
module OledPanel {
  import opened Options
  import OledView

  const PAGES: nat := 8

  /** RAM by page and column, the window's columns and pages, and where the next data byte goes. */
  datatype Panel = Panel(ram: seq<seq<bv8>>, c0: nat, c1: nat, p0: nat, p1: nat, c: nat, p: nat)

  predicate PanelOk(o: Panel) {
    && |o.ram| == PAGES && (forall pg | 0 <= pg < PAGES :: |o.ram[pg]| == OledView.RAM_COLS)
    && o.c0 <= o.c <= o.c1 < OledView.RAM_COLS && o.p0 <= o.p <= o.p1 < PAGES
  }

  /** The window set to some columns and pages, the cursor at its start. */
  function Windowed(o: Panel, col: nat, cols: nat, page: nat, pages: nat): (w: Panel)
    requires PanelOk(o) && 0 < cols && col + cols <= OledView.RAM_COLS && 0 < pages && page + pages <= PAGES
    ensures PanelOk(w)
  {
    Panel(o.ram, col, col + cols - 1, page, page + pages - 1, col, page)
  }

  /** One data byte: stored, then on to the next column, the next page at the window's edge. */
  function Stored(o: Panel, b: bv8): (w: Panel)
    requires PanelOk(o)
    ensures PanelOk(w)
  {
    var ram := o.ram[o.p := o.ram[o.p][o.c := b]];
    if o.c < o.c1 then o.(ram := ram, c := o.c + 1)
    else o.(ram := ram, c := o.c0, p := if o.p < o.p1 then o.p + 1 else o.p0)
  }

  function Written(o: Panel, data: seq<bv8>): (w: Panel)
    requires PanelOk(o)
    ensures PanelOk(w)
    decreases |data|
  {
    if data == [] then o else Stored(Written(o, data[..|data| - 1]), data[|data| - 1])
  }

  /** A row with some of its bytes replaced. */
  function Spliced(row: seq<bv8>, col: nat, data: seq<bv8>): (r: seq<bv8>)
    requires col + |data| <= |row|
    ensures |r| == |row|
  {
    row[..col] + data + row[col + |data|..]
  }

  lemma SpliceOneMore(row: seq<bv8>, col: nat, data: seq<bv8>)
    requires 0 < |data| && col + |data| <= |row|
    ensures Spliced(row, col, data[..|data| - 1])[col + |data| - 1 := data[|data| - 1]] == Spliced(row, col, data)
  {
  }

  lemma {:induction false} PartOfRowWritten(o: Panel, data: seq<bv8>)
    requires PanelOk(o) && o.c == o.c0 && |data| <= o.c1 - o.c0
    ensures Written(o, data) == o.(ram := o.ram[o.p := Spliced(o.ram[o.p], o.c0, data)], c := o.c0 + |data|)
    decreases |data|
  {
    if data == [] {
      assert Spliced(o.ram[o.p], o.c0, data) == o.ram[o.p];
    } else {
      var n := |data| - 1;
      PartOfRowWritten(o, data[..n]);
      SpliceOneMore(o.ram[o.p], o.c0, data);
    }
  }

  lemma StoredAtEdge(o: Panel, b: bv8)
    requires PanelOk(o) && o.c == o.c1
    ensures Stored(o, b)
            == o.(ram := o.ram[o.p := o.ram[o.p][o.c1 := b]], c := o.c0, p := if o.p < o.p1 then o.p + 1 else o.p0)
  {
  }

  lemma UpdatedTwice(s: seq<seq<bv8>>, i: nat, a: seq<bv8>, b: seq<bv8>)
    requires i < |s|
    ensures s[i := a][i := b] == s[i := b]
  {
  }

  /** As many bytes as the window is wide replace its columns on the current page and leave the cursor at the start
      of the next. */
  lemma RowWritten(o: Panel, data: seq<bv8>)
    requires PanelOk(o) && o.c == o.c0 && |data| == o.c1 - o.c0 + 1
    ensures Written(o, data)
         == o.(ram := o.ram[o.p := Spliced(o.ram[o.p], o.c0, data)], c := o.c0,
                p := if o.p < o.p1 then o.p + 1 else o.p0)
  {
    hide Spliced, Stored;
    var n, row := |data| - 1, o.ram[o.p];
    PartOfRowWritten(o, data[..n]);
    StoredAtEdge(Written(o, data[..n]), data[n]);
    SpliceOneMore(row, o.c0, data);
    UpdatedTwice(o.ram, o.p, Spliced(row, o.c0, data[..n]), Spliced(row, o.c0, data));
  }

  /** A one-page window sent and filled changes exactly its columns of that page. */
  lemma SpanWritten(o: Panel, col: nat, pg: nat, data: seq<bv8>)
    requires PanelOk(o) && 0 < |data| && col + |data| <= OledView.RAM_COLS && pg < PAGES
    ensures Written(Windowed(o, col, |data|, pg, 1), data).ram == o.ram[pg := Spliced(o.ram[pg], col, data)]
  {
    RowWritten(Windowed(o, col, |data|, pg, 1), data);
  }

  // ---- spans ----

  /** What has to be sent of a row: nothing if it is what it was, else from its first to its last changed byte. */
  predicate IsSpan(data: seq<bv8>, was: seq<bv8>, span: Option<(nat, nat)>)
    requires |data| == |was|
  {
    match span
    case None => data == was
    case Some((first, last)) =>
      && first <= last < |data| && data[first] != was[first] && data[last] != was[last]
      && data[..first] == was[..first] && data[last + 1..] == was[last + 1..]
  }

  lemma SpliceSame(row: seq<bv8>, col: nat, data: seq<bv8>)
    requires col + |data| <= |row| && data == row[col..col + |data|]
    ensures Spliced(row, col, data) == row
  {
  }

  /** Replacing only the span makes the row what replacing all of it would. */
  lemma SpanSuffices(row: seq<bv8>, col: nat, data: seq<bv8>, first: nat, last: nat)
    requires first <= last < |data| && col + |data| <= |row|
    requires data[..first] == row[col..col + first] && data[last + 1..] == row[col + last + 1..col + |data|]
    ensures Spliced(row, col + first, data[first..last + 1]) == Spliced(row, col, data)
  {
    var a, b := Spliced(row, col + first, data[first..last + 1]), Spliced(row, col, data);
    forall i | 0 <= i < |row|
      ensures a[i] == b[i]
    {
      if col <= i < col + first {
        assert data[..first][i - col] == row[col..col + first][i - col];
      } else if col + last < i < col + |data| {
        assert data[last + 1..][i - col - last - 1] == row[col + last + 1..col + |data|][i - col - last - 1];
      }
    }
  }

  lemma PartOfPart(s: seq<bv8>, at: nat, len: nat, i: nat, j: nat)
    requires at + len <= |s| && i <= j <= len
    ensures s[at..at + len][i..j] == s[at + i..at + j]
  {
    var part, a, b := s[at..at + len], s[at..at + len][i..j], s[at + i..at + j];
    forall k | 0 <= k < |b|
      ensures a[k] == b[k]
    {
      assert part[i + k] == s[at + i + k];
    }
  }

  /** Replacing the span, if there is one, makes a row of these columns what replacing all of them would. */
  predicate Completes(row: seq<bv8>, col: nat, data: seq<bv8>, span: Option<(nat, nat)>)
    requires col + |data| <= |row|
  {
    match span
    case None => row == Spliced(row, col, data)
    case Some((first, last)) =>
      first <= last < |data| && Spliced(row, col + first, data[first..last + 1]) == Spliced(row, col, data)
  }

  lemma ChangesComplete(row: seq<bv8>, col: nat, data: seq<bv8>, was: seq<bv8>, span: Option<(nat, nat)>)
    requires |data| == |was| && col + |data| <= |row| && row[col..col + |data|] == was && IsSpan(data, was, span)
    ensures Completes(row, col, data, span)
  {
    hide Spliced;
    match span
    case None => SpliceSame(row, col, data);
    case Some((first, last)) =>
      PartOfPart(row, col, |data|, 0, first);
      PartOfPart(row, col, |data|, last + 1, |data|);
      SpanSuffices(row, col, data, first, last);
  }

  lemma WholeCompletes(row: seq<bv8>, col: nat, data: seq<bv8>)
    requires 0 < |data| && col + |data| <= |row|
    ensures Completes(row, col, data, Some((0, |data| - 1)))
  {
    assert data[0..|data|] == data;
  }

  lemma SpliceReads(row: seq<bv8>, col: nat, data: seq<bv8>)
    requires col + |data| <= |row|
    ensures Spliced(row, col, data)[col..col + |data|] == data
  {
  }

  lemma SpliceAgain(row: seq<bv8>, col: nat, a: seq<bv8>, b: seq<bv8>)
    requires |a| == |b| && col + |a| <= |row|
    ensures Spliced(Spliced(row, col, a), col, b) == Spliced(row, col, b)
  {
  }
}
