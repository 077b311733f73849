/** The OLED's thread: setting the panel up, and sending only what changed of each frame. */
module OledTask {
  import opened Options
  import opened OledView
  import opened OledRender
  import opened OledPanel

  /** What a page is built from at the moment it is built: no framebuffer yet, or one with its configuration. */
  datatype Source = NoFb | FromFb(nc: NodemConfig, fb: Fb, phase: nat)

  predicate SourceOk(s: Source) {
    s.FromFb? ==> NodemOk(s.nc) && |s.fb| >= BufferLen(s.nc)
  }

  /** The page's bytes for the drawn columns. */
  function PageOf(s: Source, oc: OledConfig, w: Window, pg: nat): (bytes: seq<bv8>)
    requires SourceOk(s)
    ensures |bytes| == w.cols
  {
    match s
    case NoFb => seq(w.cols, _ => 0)
    case FromFb(nc, fb, phase) => PageBytes(oc, nc, fb, phase, w.skip, w.cols, pg)
  }

  /** Before there is a framebuffer all is dark. */
  lemma NoFbIsDark(oc: OledConfig, w: Window, pg: nat)
    ensures forall c | 0 <= c < w.cols :: PageOf(NoFb, oc, w, pg)[c] == 0
  {
  }

  const CONTROL_DATA: bv8 := 0x40

  /** The bytes between, and with, a span's ends. */
  function SpanLen(span: Option<(nat, nat)>): int {
    match span
    case None => 0
    case Some((first, last)) => last - first + 1
  }

  function Dark(): (row: seq<bv8>)
    ensures |row| == RAM_COLS
  {
    seq(RAM_COLS, _ => 0)
  }

  class Task {
    const r: Renderer
    // Page by page, the bytes the panel was given most recently.
    const sent: array2<bv8>
    var sentValid: bool
    var enabled: bool
    var initialized: bool
    var config: OledConfig
    var w: Window
    // The panel on the bus, how many transfers it was sent and how many data bytes in them, and how many calls of the
    // bus have failed.
    ghost var panel: Panel
    ghost var transfers: nat
    ghost var bytes: nat
    ghost var errors: nat

    ghost predicate Valid()
      reads this, r, r.colBit, r.rowBit
    {
      && r.Valid() && r.pageBuf.Length == 1 + RAM_COLS && sent.Length0 == PAGES && sent.Length1 == RAM_COLS
      && PanelOk(panel)
      && (enabled ==> ConfigOk(config) && w == WindowOf(config))
      && (initialized ==> enabled)
    }

    /** The bytes of a page the panel was given most recently. */
    ghost function Remembered(pg: nat): (row: seq<bv8>)
      requires sent.Length0 == PAGES && sent.Length1 == RAM_COLS && pg < PAGES
      reads sent
      ensures |row| == RAM_COLS
    {
      seq(RAM_COLS, j requires 0 <= j < RAM_COLS reads sent => sent[pg, j])
    }

    /** A page of RAM: what was sent of it in the draw window, and zero outside. */
    ghost function ShownRow(pg: nat): (row: seq<bv8>)
      requires Valid() && pg < PAGES && (w.cols > 0 ==> w.col + w.cols <= RAM_COLS)
      reads this, r, r.colBit, r.rowBit, sent
      ensures |row| == RAM_COLS
    {
      if pg < w.pages && w.cols > 0 then Spliced(Dark(), w.col, Remembered(pg)[..w.cols]) else Dark()
    }

    ghost predicate Shadowed()
      requires Valid()
      reads this, r, r.colBit, r.rowBit, sent
    {
      (w.cols > 0 ==> w.col + w.cols <= RAM_COLS) && forall pg | 0 <= pg < PAGES :: panel.ram[pg] == ShownRow(pg)
    }

    /** A panel that is in use is exactly what the thread thinks it is. */
    ghost predicate Coherent()
      reads this, r, r.colBit, r.rowBit, sent
    {
      Valid() && (initialized ==> sentValid && Shadowed())
    }

    constructor (ghost panel: Panel)
      requires PanelOk(panel)
      ensures Coherent() && fresh(r) && fresh(r.pageBuf) && fresh(r.colBit) && fresh(r.rowBit) && fresh(sent)
    {
      r := new Renderer();
      sent := new bv8[PAGES, RAM_COLS]((_, _) => 0);
      sentValid, enabled, initialized := false, false, false;
      config := OledConfig(128, 64, 0, 0, 0);
      w := Window(0, 0, 0, 0);
      this.panel, transfers, bytes, errors := panel, 0, 0, 0;
    }

    // ---- the bus: any transfer can fail, and then the panel can be in any state ----

    ghost method Upset()
      requires PanelOk(panel)
      modifies `panel, `errors
      ensures PanelOk(panel) && errors == old(errors) + 1
    {
      ghost var any :| PanelOk(any);
      panel, errors := any, errors + 1;
    }

    method SetWindow(col: nat, cols: nat, page: nat, pages: nat) returns (err: int)
      requires PanelOk(panel) && 0 < cols && col + cols <= RAM_COLS && 0 < pages && page + pages <= PAGES
      modifies `panel, `transfers, `errors
      ensures PanelOk(panel) && transfers == old(transfers) + 1 && errors == old(errors) + if err == 0 then 0 else 1
      ensures err == 0 ==> panel == Windowed(old(panel), col, cols, page, pages)
    {
      err := *;
      if err == 0 {
        panel := Windowed(panel, col, cols, page, pages);
      } else {
        Upset();
      }
      transfers := transfers + 1;
    }

    method I2cWrite(buf: seq<bv8>) returns (err: int)
      requires PanelOk(panel) && |buf| > 0 && buf[0] == CONTROL_DATA
      modifies `panel, `transfers, `bytes, `errors
      ensures bytes == old(bytes) + |buf| - 1
      ensures PanelOk(panel) && transfers == old(transfers) + 1 && errors == old(errors) + if err == 0 then 0 else 1
      ensures err == 0 ==> panel == Written(old(panel), buf[1..])
    {
      err := *;
      if err == 0 {
        panel := Written(panel, buf[1..]);
      } else {
        Upset();
      }
      transfers, bytes := transfers + 1, bytes + |buf| - 1;
    }

    /** The controller's settings; whatever the panel was doing before, its RAM may hold anything after. */
    method Init() returns (err: int)
      requires PanelOk(panel)
      modifies `panel, `errors
      ensures PanelOk(panel) && errors == old(errors) + if err == 0 then 0 else 1
    {
      err := *;
      ghost var any :| PanelOk(any);
      panel := any;
      errors := errors + if err == 0 then 0 else 1;
    }

    /** The command that blanks the panel before it is set up anew; whether it arrives doesn't matter. */
    method SwitchOff() returns (err: int)
      requires PanelOk(panel)
      modifies `panel
      ensures PanelOk(panel)
    {
      err := *;
      ghost var any :| PanelOk(any);
      panel := any;
    }

    /** One transfer of part of the page; the byte before that part makes room for the control byte meanwhile. */
    method WritePage(first: nat, len: nat) returns (err: int)
      requires PanelOk(panel) && r.pageBuf.Length == 1 + RAM_COLS && first + len <= RAM_COLS
      modifies `panel, `transfers, `bytes, `errors, r.pageBuf
      ensures r.pageBuf[..] == old(r.pageBuf[..]) && bytes == old(bytes) + len
      ensures PanelOk(panel) && transfers == old(transfers) + 1 && errors == old(errors) + if err == 0 then 0 else 1
      ensures err == 0 ==> panel == Written(old(panel), r.pageBuf[1 + first..1 + first + len])
    {
      var saved := r.pageBuf[first];
      r.pageBuf[first] := CONTROL_DATA;
      var buf := r.pageBuf[first..first + 1 + len];
      err := I2cWrite(buf);
      r.pageBuf[first] := saved;
      assert buf[1..] == r.pageBuf[1 + first..1 + first + len];
    }

    // ---- setting the panel up ----

    /** Page after page of zeroes, through a window over all of RAM. */
    method ClearRam() returns (err: int)
      requires Valid()
      modifies `panel, `transfers, `bytes, `errors, r.pageBuf
      ensures (err == 0 <==> errors == old(errors)) && errors >= old(errors)
      ensures PanelOk(panel) && (err == 0 ==> forall i | 0 <= i < PAGES :: panel.ram[i] == Dark())
    {
      hide Written, Renderer.Valid, Spliced;
      err := SetWindow(0, RAM_COLS, 0, PAGES);
      forall i | 0 <= i < RAM_COLS {
        r.pageBuf[1 + i] := 0;
      }
      assert r.pageBuf[1..] == Dark();
      var pg := 0;
      while pg < PAGES && err == 0
        invariant pg <= PAGES && PanelOk(panel) && r.pageBuf[1..] == Dark() && errors >= old(errors)
        invariant err == 0 <==> errors == old(errors)
        invariant err == 0 ==>
                    && panel.c0 == panel.c == 0 && panel.c1 == RAM_COLS - 1 && panel.p0 == 0 && panel.p1 == PAGES - 1
                    && panel.p == pg % PAGES && forall i | 0 <= i < pg :: panel.ram[i] == Dark()
      {
        ghost var before := panel;
        err := WritePage(0, RAM_COLS);
        if err == 0 {
          assert r.pageBuf[1..1 + RAM_COLS] == Dark();
          RowWritten(before, Dark());
          SpliceWhole(before.ram[pg], Dark());
        }
        pg := pg + 1;
      }
    }

    /** Zeroes the panel's RAM and what it is remembered to hold. */
    method Clear() returns (err: int)
      requires Valid()
      modifies `panel, `transfers, `bytes, `errors, `sentValid, r.pageBuf, sent
      ensures Valid() && sentValid == (err == 0) && (err == 0 <==> errors == old(errors)) && errors >= old(errors)
      ensures err == 0 && (w.cols > 0 ==> w.col + w.cols <= RAM_COLS) ==> Shadowed()
    {
      hide Spliced;
      err := ClearRam();
      forall i, j | 0 <= i < PAGES && 0 <= j < RAM_COLS {
        sent[i, j] := 0;
      }
      sentValid := err == 0;
      if w.cols > 0 && w.col + w.cols <= RAM_COLS {
        forall pg | 0 <= pg < PAGES
          ensures ShownRow(pg) == Dark()
        {
          assert Remembered(pg) == Dark();
          assert Dark()[..w.cols] == Dark()[w.col..w.col + w.cols];
          SpliceSame(Dark(), w.col, Dark()[..w.cols]);
        }
      }
    }

    method PanelSetup() returns (err: int)
      requires Valid() && enabled
      modifies `panel, `transfers, `bytes, `errors, `sentValid, r.pageBuf, sent
      ensures Valid() && (err == 0 <==> errors == old(errors)) && errors >= old(errors)
      ensures err == 0 ==> sentValid && Shadowed()
    {
      WindowFits(config, 0);
      err := Init();
      if err == 0 {
        err := Clear();
      }
    }

    // ---- one page ----

    /** The first and the last column of a page that differ from what was sent; None if none does. */
    method ChangedSpan(pg: nat) returns (span: Option<(nat, nat)>)
      requires r.pageBuf.Length == 1 + RAM_COLS && sent.Length0 == PAGES && sent.Length1 == RAM_COLS
      requires pg < PAGES && 0 < w.cols <= RAM_COLS
      ensures IsSpan(r.pageBuf[1..1 + w.cols], Remembered(pg)[..w.cols], span)
    {
      ghost var data, was := r.pageBuf[1..1 + w.cols], Remembered(pg)[..w.cols];
      var first := 0;
      while first < w.cols && r.pageBuf[1 + first] == sent[pg, first]
        invariant 0 <= first <= w.cols && data[..first] == was[..first]
      {
        assert data[first] == r.pageBuf[1 + first] && was[first] == sent[pg, first];
        first := first + 1;
      }
      if first == w.cols {
        return None;
      }
      assert data[first] == r.pageBuf[1 + first] && was[first] == sent[pg, first];
      var last := w.cols - 1;
      while r.pageBuf[1 + last] == sent[pg, last]
        invariant first <= last < w.cols && data[last + 1..] == was[last + 1..]
        decreases last
      {
        assert data[last..] == [data[last]] + data[last + 1..] && was[last..] == [was[last]] + was[last + 1..];
        last := last - 1;
      }
      assert data[last] == r.pageBuf[1 + last] && was[last] == sent[pg, last];
      span := Some((first, last));
    }

    /** Builds one page from what there is of a frame. */
    method Build(s: Source, pg: nat)
      requires Valid() && enabled && SourceOk(s) && w.cols > 0 && pg < w.pages
      modifies r, r.pageBuf, r.colBit, r.rowBit
      ensures Valid() && r.pageBuf[1..1 + w.cols] == PageOf(s, config, w, pg)
    {
      WindowFits(config, 0);
      SizeBounds(config);
      if s.FromFb? {
        r.FramePrepare(config, s.nc);
        r.BuildPage(config, s.nc, s.fb, s.phase, w.skip, w.cols, pg);
      } else {
        forall i | 0 <= i < w.cols {
          r.pageBuf[1 + i] := 0;
        }
      }
    }

    /** Sends columns first..last of the page and remembers them. */
    method SendSpan(pg: nat, first: nat, last: nat) returns (err: int)
      requires Valid() && pg < PAGES && first <= last < w.cols && w.col + w.cols <= RAM_COLS
      modifies `panel, `transfers, `bytes, `errors, r.pageBuf, sent
      ensures Valid() && r.pageBuf[..] == old(r.pageBuf[..])
      ensures err == 0 ==> bytes == old(bytes) + (last - first + 1)
      ensures (err == 0 <==> errors == old(errors)) && errors >= old(errors)
      ensures err == 0 ==>
                var part := r.pageBuf[1 + first..1 + last + 1];
                && panel.ram == old(panel.ram)[pg := Spliced(old(panel.ram[pg]), w.col + first, part)]
                && Remembered(pg) == Spliced(old(Remembered(pg)), first, part)
                && forall i | 0 <= i < PAGES && i != pg :: Remembered(i) == old(Remembered(i))
    {
      hide Written;
      var len := last - first + 1;
      ghost var before := panel;
      err := SetWindow(w.col + first, len, pg, 1);
      if err == 0 {
        err := WritePage(first, len);
      }
      if err == 0 {
        SpanWritten(before, w.col + first, pg, r.pageBuf[1 + first..1 + first + len]);
        forall j | first <= j <= last {
          sent[pg, j] := r.pageBuf[1 + j];
        }
      }
    }

    /** What of a page has to be sent: nothing, or its first to last changed column - all of it while what the panel
        holds isn't known. */
    method SpanToSend(pg: nat, ghost row: seq<bv8>, ghost data: seq<bv8>) returns (span: Option<(nat, nat)>)
      requires r.pageBuf.Length == 1 + RAM_COLS && sent.Length0 == PAGES && sent.Length1 == RAM_COLS && pg < PAGES
      requires 0 < w.cols && w.col + w.cols <= RAM_COLS == |row| && r.pageBuf[1..1 + w.cols] == data
      requires sentValid ==> row[w.col..w.col + w.cols] == Remembered(pg)[..w.cols]
      ensures span.None? <==> sentValid && Remembered(pg)[..w.cols] == data
      ensures if sentValid then IsSpan(data, Remembered(pg)[..w.cols], span) else span == Some((0, w.cols - 1))
      ensures Completes(row, w.col, data, span) && Completes(Remembered(pg), 0, data, span)
      ensures span.Some? ==> r.pageBuf[1 + span.value.0..1 + span.value.1 + 1] == data[span.value.0..span.value.1 + 1]
    {
      hide Remembered, Spliced, Completes;
      if sentValid {
        span := ChangedSpan(pg);
        ChangesComplete(row, w.col, data, Remembered(pg)[..w.cols], span);
        ChangesComplete(Remembered(pg), 0, data, Remembered(pg)[..w.cols], span);
        assert span.Some? ==> data[span.value.0] != Remembered(pg)[..w.cols][span.value.0];
      } else {
        span := Some((0, w.cols - 1));
        WholeCompletes(row, w.col, data);
        WholeCompletes(Remembered(pg), 0, data);
      }
      if span.Some? {
        PartOfPart(r.pageBuf[..], 1, w.cols, span.value.0, span.value.1 + 1);
      }
    }

    /** Builds a page and finds what of it has to be sent. */
    method BuildAndCompare(s: Source, pg: nat) returns (span: Option<(nat, nat)>)
      requires Valid() && enabled && SourceOk(s) && w.cols > 0 && pg < w.pages <= PAGES && w.col + w.cols <= RAM_COLS
      requires sentValid ==> panel.ram[pg][w.col..w.col + w.cols] == Remembered(pg)[..w.cols]
      modifies r, r.pageBuf, r.colBit, r.rowBit
      ensures Valid()
      ensures var data := PageOf(s, config, w, pg);
              && Completes(panel.ram[pg], w.col, data, span) && Completes(Remembered(pg), 0, data, span)
              && (span.None? <==> sentValid && Remembered(pg)[..w.cols] == data)
              && (if sentValid then IsSpan(data, Remembered(pg)[..w.cols], span) else span == Some((0, w.cols - 1)))
              && (span.Some? ==>
                  r.pageBuf[1 + span.value.0..1 + span.value.1 + 1] == data[span.value.0..span.value.1 + 1])
    {
      hide Renderer.Valid, PageOf, Completes, Remembered, ConfigOk, WindowOf, SourceOk;
      ghost var row, data := panel.ram[pg], PageOf(s, config, w, pg);
      Build(s, pg);
      span := SpanToSend(pg, row, data);
    }

    /** One page of a frame: built, and sent from its first to its last column that isn't what was sent before. */
    method FlushPage(s: Source, pg: nat) returns (err: int)
      requires Valid() && enabled && SourceOk(s) && w.cols > 0 && pg < w.pages <= PAGES && w.col + w.cols <= RAM_COLS
      requires sentValid ==> panel.ram[pg][w.col..w.col + w.cols] == Remembered(pg)[..w.cols]
      modifies `panel, `transfers, `bytes, `errors, r, r.pageBuf, r.colBit, r.rowBit, sent
      ensures Valid() && (err == 0 <==> errors == old(errors)) && errors >= old(errors)
      ensures err == 0 ==>
                && panel.ram == old(panel.ram)[pg := Spliced(old(panel.ram[pg]), w.col, PageOf(s, config, w, pg))]
                && Remembered(pg) == Spliced(old(Remembered(pg)), 0, PageOf(s, config, w, pg))
                && forall i | 0 <= i < PAGES && i != pg :: Remembered(i) == old(Remembered(i))
      ensures sentValid && old(Remembered(pg))[..w.cols] == PageOf(s, config, w, pg) ==>
                err == 0 && transfers == old(transfers)
      // As few bytes as there are from the first to the last changed one.
      ensures old(sentValid) ==>
                exists span ::
                  && IsSpan(PageOf(s, config, w, pg), old(Remembered(pg))[..w.cols], span)
                  && (err == 0 ==> bytes == old(bytes) + SpanLen(span))
    {
      hide Renderer.Valid, PageOf, Spliced, Remembered, ConfigOk, SourceOk;
      var span := BuildAndCompare(s, pg);
      err := 0;
      if span.Some? {
        err := SendSpan(pg, span.value.0, span.value.1);
      }
    }

    // ---- frames ----

    /** Every page of the draw window shows the page built from its source. */
    ghost predicate Showing(src: seq<Source>)
      requires Valid() && |src| == PAGES && forall pg | 0 <= pg < PAGES :: SourceOk(src[pg])
      reads this, r, r.colBit, r.rowBit
    {
      w.cols > 0 ==>
        && w.col + w.cols <= RAM_COLS && w.pages <= PAGES
        && forall pg | 0 <= pg < w.pages :: panel.ram[pg] == Spliced(Dark(), w.col, PageOf(src[pg], config, w, pg))
    }

    /** One page of a flush: what is remembered stays what the panel shows. */
    method ShowPage(s: Source, pg: nat) returns (err: int)
      requires Valid() && enabled && SourceOk(s) && w.cols > 0 && pg < w.pages <= PAGES && w.col + w.cols <= RAM_COLS
      requires Shadowed()
      modifies `panel, `transfers, `bytes, `errors, r, r.pageBuf, r.colBit, r.rowBit, sent
      ensures Valid() && (err == 0 <==> errors == old(errors)) && errors >= old(errors)
      ensures err == 0 ==>
                && Shadowed() && Remembered(pg)[..w.cols] == PageOf(s, config, w, pg)
                && forall i | 0 <= i < PAGES && i != pg :: Remembered(i) == old(Remembered(i))
      ensures sentValid && old(Remembered(pg))[..w.cols] == PageOf(s, config, w, pg) ==>
                err == 0 && transfers == old(transfers)
    {
      hide Renderer.Valid, PageOf, Spliced, Remembered, ConfigOk, WindowOf, SourceOk;
      ghost var row, was := panel.ram[pg], Remembered(pg);
      SpliceReads(Dark(), w.col, was[..w.cols]);
      err := FlushPage(s, pg);
      if err == 0 {
        PageShown(row, was, w.col, PageOf(s, config, w, pg));
      }
    }

    /** One flush: page after page until one fails. A failure means setting the panel up again. */
    method Flush(src: seq<Source>)
      requires Coherent() && initialized && |src| == PAGES && forall pg | 0 <= pg < PAGES :: SourceOk(src[pg])
      modifies `panel, `transfers, `bytes, `errors, `sentValid, `initialized, r, r.pageBuf, r.colBit, r.rowBit, sent
      ensures Coherent() && (initialized <==> errors == old(errors)) && errors >= old(errors)
      ensures initialized ==> Showing(src)
      ensures (forall pg | 0 <= pg < w.pages && w.cols > 0 ::
                 old(Remembered(pg))[..w.cols] == PageOf(src[pg], config, w, pg)) ==>
                initialized && transfers == old(transfers)
    {
      WindowFits(config, 0);
      SizeBounds(config);
      hide Renderer.Valid, PageOf, Spliced, Remembered, PanelOk, ConfigOk, WindowOf, SourceOk;
      var err := 0;
      var pg := 0;
      while pg < w.pages && w.cols > 0 && err == 0
        invariant pg <= w.pages <= PAGES && Valid() && sentValid && initialized
        invariant (err == 0 <==> errors == old(errors)) && errors >= old(errors)
        invariant err == 0 ==> Shadowed()
        invariant err == 0 && w.cols > 0 ==>
            forall i | 0 <= i < pg :: Remembered(i)[..w.cols] == PageOf(src[i], config, w, i)
        invariant err == 0 ==> forall i | pg <= i < w.pages :: Remembered(i) == old(Remembered(i))
        invariant (forall i | 0 <= i < w.pages && w.cols > 0 ::
                     old(Remembered(i))[..w.cols] == PageOf(src[i], config, w, i)) ==>
            err == 0 && transfers == old(transfers)
      {
        err := ShowPage(src[pg], pg);
        pg := pg + 1;
      }
      if err == 0 && w.cols > 0 {
        sentValid := true;
      }
      if err != 0 {
        initialized, sentValid := false, false;
      }
    }

    // ---- the thread ----

    /** A new configuration: the panel is switched off, and set up again if there is one. */
    method Reconfigure(next: Option<OledConfig>)
      requires Valid() && (next.Some? ==> ConfigOk(next.value))
      modifies `panel, `initialized, `sentValid, `enabled, `config, `w
      ensures Coherent() && !initialized && enabled == next.Some?
      ensures next.Some? ==> config == next.value && w == WindowOf(next.value)
    {
      if initialized {
        var err := SwitchOff();
      }
      initialized, sentValid, enabled := false, false, next.Some?;
      if next.Some? {
        config, w := next.value, WindowOf(next.value);
      }
    }

    /** One pass: a configuration that may have changed, a setup that may be due, a health check that may find the panel
        gone, a frame that may have to be flushed. */
    method Pass(seen: Seen) returns (flushed: bool)
      requires Coherent() && SeenOk(seen)
      modifies this, r, r.pageBuf, r.colBit, r.rowBit, sent
      ensures Coherent()
      ensures seen.change.Some? ==> enabled == seen.change.value.Some?
      ensures flushed && initialized ==> Showing(seen.src)
      // A pass without a bus error has a panel that is on the bus and due up and, unless nothing was drawn, showing.
      ensures var wasUp := old(initialized) && seen.change.None?;
              errors == old(errors) && enabled && !seen.lost && (wasUp || seen.due) ==>
                initialized && (seen.dirty || !wasUp ==> flushed)
    {
      hide ConfigOk, SourceOk;
      flushed := false;
      if seen.change.Some? {
        Reconfigure(seen.change.value);
      }
      var dirty := seen.dirty;
      if enabled && !initialized && seen.due {
        var err := PanelSetup();
        initialized := err == 0;
        dirty := dirty || initialized;
      }
      if initialized && seen.lost {
        initialized, sentValid := false, false;
        return;
      }
      if initialized && dirty {
        Flush(seen.src);
        flushed := true;
      }
    }

    /** Whatever the passes see, the panel in use is what the thread thinks it is. */
    method Run(seen: seq<Seen>)
      requires Coherent() && forall i | 0 <= i < |seen| :: SeenOk(seen[i])
      modifies this, r, r.pageBuf, r.colBit, r.rowBit, sent
      ensures Coherent()
    {
      for i := 0 to |seen|
        invariant Coherent()
      {
        var _ := Pass(seen[i]);
      }
    }
  }

  /** What a pass of the thread finds: a configuration that changed (None inside: switched off), whether setting up is
      due, whether the status byte says the panel is gone, whether a frame is due, and what each page is built from. */
  datatype Seen = Seen(change: Option<Option<OledConfig>>, due: bool, lost: bool, dirty: bool, src: seq<Source>)

  predicate SeenOk(seen: Seen) {
    && (seen.change.Some? && seen.change.value.Some? ==> ConfigOk(seen.change.value.value))
    && |seen.src| == PAGES && forall pg | 0 <= pg < PAGES :: SourceOk(seen.src[pg])
  }

  lemma PageShown(row: seq<bv8>, was: seq<bv8>, col: nat, data: seq<bv8>)
    requires |was| == RAM_COLS && col + |data| <= RAM_COLS && row == Spliced(Dark(), col, was[..|data|])
    ensures Spliced(row, col, data) == Spliced(Dark(), col, data)
    ensures Spliced(was, 0, data)[..|data|] == data
  {
    SpliceAgain(Dark(), col, was[..|data|], data);
    SpliceReads(was, 0, data);
  }

  lemma SpliceWhole(row: seq<bv8>, data: seq<bv8>)
    requires |row| == |data|
    ensures Spliced(row, 0, data) == data
  {
  }
}
