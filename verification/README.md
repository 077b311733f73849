# nodem nRF9151 firmware: a Dafny model

A model, in Dafny, of the parts of this firmware that are easy to get subtly wrong, with proofs of what they promise.

- **HUB75 LED matrix** (`Hub75*.dfy`, `Text.dfy`). How a display pixel becomes a place on the shift-register chain
  (`Hub75Geometry`), what the documentation promises of that place (`Hub75Layout`), how a colour becomes bit planes and
  lit ticks (`Hub75Light`), both end up in the frame (`Hub75Frame`), a frame row becomes PWM columns (`Hub75Pwm`), and
  the interrupt plays them out of two ping-ponged buffers (`Hub75Pipeline`). `Hub75Driver` is the driver itself: a class
  with the source's fields, updated in place, each method proved equal to those specifications. Around it: the arena
  allocator (`Hub75Alloc`), the text form of the configuration (`Hub75Text` as functions, `Hub75Defaults` on what may be
  left out of it, `Hub75Parser` as the loops and cursors of the source, `Hub75Settings` through the store), and the
  thread that holds, restarts and gives up on the panel (`Hub75Supervisor`).
- **SSD1306 OLED** (`AxisMap`, `Oled*.dfy`). Table-driven page rendering, rotation, the panel's RAM, and the flush that
  sends only what changed, over nondeterministic bus failures and configuration changes.
- **Uploads** (`PkgStore`, `PkgStream`, `OtaStore`, `Loader`). A byte stream staged in 512-byte chunks onto
  erase-then-AND flash, or into an image writer with a commit condition.
- **Connection** (`Modem`). The six-step loop, its TLS socket and its websocket.
- **Config store** (`ConfigStore`). The 16-slot typed table in front of flash.

Code that changes state in the source is a class or a method with loops here; what it computes is stated by functions,
and what the firmware promises is proved of those functions, for every configuration and every run. The hardware is
modelled as far as its effect can be seen: a PWM value by the ticks it is high, the panel chain as a shift register
clocked by CLK's rising edge, the OLED's RAM as an addressing window with a moving cursor, flash as bytes of which a
write can only clear bits. Whatever a call to the outside may return is arbitrary.

Check it with `dafny verify dfyconfig.toml` (Dafny 4.11).

## What the code does not quite do

- `pkg_data` only logs a failed chunk write, so `pkg_end` can return Ok for a package flash does not hold
  (`PkgStream.LostChunk`). Ok is to be relied on exactly if no chunk write returned an error
  (`PkgStream.HeldByReturnCodes`, `Loader.Control.PkgEnd`).
- After a start that was refused - no room, or the erase failed - bytes are staged and written all the same, and
  `pkg_end` can announce a package (`Loader.Control.Start`, `Data` and `End` describe these uploads too).
- Three overload trips within 10 seconds are meant to leave the panel off until the configuration changes
  (`zephyr-app/src/hub75_task.c:2153-2155`). The window they are counted in starts at the first trip after the last
  window, at boot at time 0, and may run out between them: then the panel restarts (`Hub75Supervisor.LateTripsRestart`).
  `Hub75Supervisor.ThreeTripsStop` says exactly when.
- `modem_task` relies on `step_register` always closing the TLS connection (`zephyr-app/src/modem_task.c:917-921`), but
  its two early returns come before it reads the socket. A run loses no socket exactly if it never takes one of them
  (`Modem.OwnedExactlyIf`), and `Modem.Leak` is a run that does. `#reg` checks code and name before it writes either,
  but a device that has no name yet is left with a code alone when the second write fails or power is lost before it
  (`nodem-ffi/src/control.rs:201-208`). Given that only `step_register` takes a pending code away, a socket is lost
  exactly if an attempt finds too short a name (`Modem.OwnedExactlyIfNamed`).
- `<chain>` is documented as ignored with one row per address (`zephyr-app/src/hub75_task.h:103`), but zigzag still turns
  every second piece (`Hub75Geometry.OneRowIgnoresChain`, `TurnedWithOneRow`).
- A name read into its 65-byte buffer is cut to 64 characters, so `step_register`'s check for longer names never fails.
- The frame is blank until the first one is drawn into it (`zephyr-app/src/hub75_task.c:2031-2032`), but before the
  first interrupt row address 0 shows what the latches hold,
  undriven panels included, and only FM6126A panels have had them blanked (`Hub75Pipeline.FirstShiftLight`,
  `FirstShiftDark`, `Hub75Driver.Driver.ChipInit`).
- `hub75_config_parse` does not bound the rows that share a row address, which are counted in a byte
  (`Hub75Text.RowBlocksUnchecked`); past 255 of them the pixel map reads behind its table
  (`Hub75Config.TableHoldsRows`).
- A settings record whose key is too long for a slot is cut, and can then stand in the table twice
  (`ConfigStore.LongKey`, `TwinsLoaded`; `LoadedOk` says exactly when). The store writes no such record itself.
- `hub75_config_set` and `config_set_*` leave a value in RAM that could not be saved; only lookups after a reload tell.

## Assumptions

- `row_blocks` is at most 255, what its `uint8_t` holds: `Hub75Driver.Driver.Start` requires it.
- The PWM, LAT and address pins behave as the comments at `zephyr-app/src/hub75_task.c:76-84` and 1689-1698 say; an
  interrupt comes after its shift has played to the end.
- The OLED does not lose power by itself; any failed transfer may leave it in any state.
- Flash write blocks divide 512 and the erase block and are at most 16 bytes (the room `pkg_store_write` pads in).
- Pieces of a package come in order, each at the position the ones before it add up to: nodem-rs, which is not part of
  this model, sends them so.
- Strings hold no NUL.

## Model

| member | source | states |
|---|---|---|
| Hub75Config.ChainCountsPixels | zephyr-app/src/hub75_task.c:1966-1975 | a driven-in-full chain has one position per two display pixels of a row address: width x height is scan rows x chain length x 2, so the pixel map can be a bijection |
| Hub75Geometry.ChainPosParts | zephyr-app/src/hub75_task.c:1355-1365 | the position the table arithmetic computes from panel, segment (in the blocks' order, mirrored when zigzag turns it) and offset |
| Hub75Geometry.OneRowPos | zephyr-app/src/hub75_task.c:1348-1368 | with one row per address a column's position is its own, unless its piece is one that zigzag turns |
| Hub75Geometry.OneRowIgnoresChain | zephyr-app/src/hub75_task.h:97-103 | documented to be ignored with one row per address, the chain's order is if and only if there is no zigzag, or its pieces are single columns or whole panels |
| Hub75Geometry.TurnedWithOneRow | zephyr-app/src/hub75_task.h:97-103 | an accepted configuration with one row per address for which it is not |
| Hub75Geometry.ChainPosRoundTrip | zephyr-app/src/hub75_task.c:1338-1368 | from the position of a (row block, column) the explicit inverse gets both back, for every segment width, order and zigzag |
| Hub75Geometry.ChainCellRoundTrip | zephyr-app/src/hub75_task.c:1338-1368 | every position of a row of panels is the position of the (row block, column) the inverse names |
| Hub75Geometry.ChainPosPanel | zephyr-app/src/hub75_task.c:1356-1365 | the positions of a panel are exactly its own stretch of the chain, nearest panel first |
| Hub75Geometry.TableIsPermutation | zephyr-app/src/hub75_task.c:1348-1368 | the filled table is a permutation of 0..width*row_blocks-1: in range, no entry twice, none missing |
| Hub75Geometry.LocateRowRoundTrip | zephyr-app/src/hub75_task.c:1396-1427 | row address, half, block and row of panels give the display row back, through mirroring and upside-down panels |
| Hub75Geometry.RowAtRoundTrip | zephyr-app/src/hub75_task.c:1396-1427 | and every combination of them is some display row's |
| Hub75Geometry.LocateRoundTrip | zephyr-app/src/hub75_task.c:1348-1445 | pixel -> (row address, chain position, half) -> pixel is the identity, for every accepted geometry: flips, grid, serpentine, far_first, segment, zigzag |
| Hub75Geometry.PixelAtRoundTrip | zephyr-app/src/hub75_task.c:1348-1445 | (row address, chain position, half) -> pixel -> the same place: with the row above, a bijection of width x height onto scan_rows x chain_len x 2 |
| Hub75Geometry.LocateInjective | zephyr-app/src/hub75_task.c:1348-1445 | no two pixels share a place on the chain |
| Hub75Layout.Entry | zephyr-app/src/hub75_task.h:84-100 | seen upright, the chain enters at the top left: pixel (0,0) with "n", the first column of the last row of its address with "f", is on address 0, position 0, upper half |
| Hub75Layout.Mirrored | zephyr-app/src/hub75_task.h:80-87 | "r" and "b" are the display read from the other side: the place of (x,y) is that of (width-1-x, height-1-y) without them |
| Hub75Layout.NextRowOfPanels | zephyr-app/src/hub75_task.h:84-87 | without "i" the next row of panels shows, at the positions behind this one's, what is one panel height further down |
| Hub75Layout.SerpentineTurns | zephyr-app/src/hub75_task.h:87-90 | with "i" the second row of panels is upside down: the pixel diagonally opposite over the two rows is one row of panels further along, same address and half |
| Hub75Layout.SecondNextRowOfPanels | zephyr-app/src/hub75_task.c:1371-1385 | two rows of panels further down it is all the same again, two rows of panels further along, serpentine or not |
| Hub75Layout.LowerHalf | zephyr-app/src/hub75_task.c:1411-1425 | a panel's lower half is at the same places as its upper one, on the second data lines |
| Hub75Layout.NextRow | zephyr-app/src/hub75_task.c:1379-1381 | down a half, one row after the other is on the next row address at the same position, then on address 0 again |
| Hub75Layout.NextRowOfAddress | zephyr-app/src/hub75_task.h:98-100 | the next row of an address is one piece further along with "n", one piece nearer with "f" |
| Hub75Layout.AlongRow | zephyr-app/src/hub75_task.c:1338-1347 | the next column of a piece is one position on, the next piece a piece of every row of the address on, the next panel a whole panel on |
| Hub75Layout.ZigzagTurns | zephyr-app/src/hub75_task.h:98-101 | with "z" every second piece of a panel, counted from its input, is turned round and nothing else |
| Hub75Layout.PieceWidth | zephyr-app/src/hub75_task.h:98-99 | a piece is `segment` columns, by default a whole panel width |
| Hub75Light.Spread | zephyr-app/src/hub75_task.c:983-999 | the loops compute the plane bytes, and bit k of each channel's level is what lights that channel in plane k |
| Hub75Light.LevelIsNearest | zephyr-app/src/hub75_task.c:989-991 | a channel's level is the nearest whole number to v*(2^depth-1)/255 and fits the depth |
| Hub75Light.LevelMonotone | zephyr-app/src/hub75_task.c:989-991 | a brighter channel value never gets a lower level |
| Hub75Light.PlanesRecombine | zephyr-app/src/hub75_task.c:992-998 | the plane bits of a level, weighted 2^k, add up to the level again |
| Hub75Light.PlaneByteLamps | zephyr-app/src/hub75_task.c:993-996 | a plane byte holds each channel's bit in its own place and nothing else |
| Hub75Light.StoreFieldLamps | zephyr-app/src/hub75_task.c:1440-1444 | storing a pixel replaces its own half's three channels, keeps the other half's and stays below 64 |
| Hub75Light.OnTicksIsNearest | zephyr-app/src/hub75_task.c:832-834 | for every brightness the on-time is that share of the row's ticks out of BRIGHTNESS_MAX, to the nearest tick |
| Hub75Light.OnTicksFollow | zephyr-app/src/hub75_task.c:832-834 | brightness 0 is dark, BRIGHTNESS_MAX the whole row, and more brightness never less time |
| Hub75Light.OnTicksBound | zephyr-app/src/hub75_task.c:832-834 | the on-time of a brightness never exceeds the row's ticks |
| Hub75Light.PlaneTicksIsFloor | zephyr-app/src/hub75_task.c:814-818 | plane k gets 2^k of 2^(depth-1) of the on-time, less than a tick being lost |
| Hub75Light.PlaneTicksDouble | zephyr-app/src/hub75_task.c:838-839 | each plane's ticks are at least twice the one before, and the top plane gets the whole on-time |
| Hub75Light.LightMonotone | zephyr-app/src/hub75_task.c:830-851 | the total lit ticks are monotone in the level |
| Hub75Light.LightShortfall | zephyr-app/src/hub75_task.c:830-851 | lit ticks fall short of level*on_ticks/2^(depth-1) by less than one tick for each of the depth-1 planes that are rounded down |
| Hub75Frame.FrameIndexInjective | zephyr-app/src/hub75_task.c:853-859 | distinct (row address, entry, plane) have distinct bytes of the frame |
| Hub75Frame.StoreLamp | zephyr-app/src/hub75_task.c:1431-1445 | storing a pixel sets exactly its own place on every plane; every other place of the chain keeps its lamps |
| Hub75Frame.StoreOk | zephyr-app/src/hub75_task.c:1431-1445 | frame bytes stay below 64, the size of the lookup table |
| Hub75Frame.DrawShows | zephyr-app/src/hub75_task.c:1431-1445 | drawing a pixel shows its colour and disturbs no other pixel, whatever the geometry |
| Hub75Frame.DrawnNext | zephyr-app/src/hub75_task.c:1458-1469 | a picture drawn pixel by pixel in scan order stays drawn |
| Hub75Frame.DrivenByPanel | zephyr-app/src/hub75_task.c:1431-1437 | a pixel is stored if and only if its panel's index along the chain is below drive_panels |
| Hub75Pwm.PwmTopIsLargest | zephyr-app/src/hub75_task.c:1990-1991 | a column takes the largest even number of 16 MHz ticks that is not slower than the configured clock |
| Hub75Pwm.RisesInside | zephyr-app/src/hub75_task.c:76-87 | a value rises in a period exactly if it is low at the first tick and high at the last, and does at the tick it names |
| Hub75Pwm.LowTicksCounts | zephyr-app/src/hub75_task.c:76-83 | the closed form for how long a PWM value is low is the number of ticks of the period at which it is low |
| Hub75Pwm.SampledLines | zephyr-app/src/hub75_task.c:58-59 | bit by bit, what is clocked in are the levels of R1, G1, B1, R2, G2 and B2 at CLK's rise |
| Hub75Pwm.DataColumnMeaning | zephyr-app/src/hub75_task.c:807-812 | the looked-up column clocks the chain once, presents exactly the frame byte's six lines at that edge, which is the middle of the period and leaves the lines alone, and enables the rows for what its OE value says |
| Hub75Pwm.FillerMeaning | zephyr-app/src/hub75_task.c:2015-2019 | a filler column clocks the chain once, in the middle of the period, with all six lines low and the rows off |
| Hub75Pwm.LitPlaneIsPrevious | zephyr-app/src/hub75_task.c:1637-1638 | the plane a shift lights is the plane of the shift before it, across row ends and the cycle's wrap-around |
| Hub75Pwm.RenderingLight | zephyr-app/src/hub75_task.c:1632-1649 | over one shift, filler and idle steps included, the rows are enabled for exactly the lit plane's ticks |
| Hub75Pwm.RenderingColumn | zephyr-app/src/hub75_task.c:1632-1649 | column i of a rendering carries the shift's frame byte and the OE of the plane before |
| Hub75Pwm.ShiftFillsChain | zephyr-app/src/hub75_task.c:1723-1767 | after the filler and data that the sequences play, position p < drive_len holds frame entry drive_len-1-p and every later position is blank, whatever the chain held |
| Hub75Pipeline.PinsSelectRow | zephyr-app/src/hub75_task.c:950-960 | clearing and setting the address pins makes the panel decode exactly the row and leaves every other pin alone |
| Hub75Pipeline.AddressLines | zephyr-app/src/hub75_task.c:53-56 | A and B, with 8 addresses C, with 16 D and with 32 E, on their own P0 pins, are a panel's address lines and no other pin is |
| Hub75Pipeline.InterruptKeeps | zephyr-app/src/hub75_task.c:1676-1721 | one interrupt keeps the ping-pong invariant and latches what was shifted, on its row, lit by its own plane's OE |
| Hub75Pipeline.PingPongAlways | zephyr-app/src/hub75_task.c:1676-1721 | in every reachable state, with anything drawn in between: buffer shift_buf holds the rendering of shift_seq, the other that of the next shift; from the first interrupt on the latches hold the shift before, the pins select its row, OE is its plane's, undriven positions are blank; before it, pins and latches are as at the start, under the top plane's OE |
| Hub75Pipeline.FirstShiftLight | zephyr-app/src/hub75_task.c:2029-2052 | from the start to the first interrupt an LED is lit if it is on row address 0 and its latch happens to be set, driven or not, for the top plane's ticks; else not at all |
| Hub75Pipeline.FirstShiftDark | zephyr-app/src/hub75_task.c:2031-2036 | so nothing shows before the first frame if and only if no latch is set at the start, or the brightness comes to no tick |
| Hub75Driver.Driver.ChipInit | zephyr-app/src/hub75_task.c:1929-1960 | plain shift registers are left as they are, the other chips' chain is clocked through and latched all off |
| Hub75Pipeline.LedTicksOfShift | zephyr-app/src/hub75_task.c:1676-1721 | between two interrupts an LED is lit for the ticks of the latched plane if its row is selected and its bit set, else not at all |
| Hub75Pipeline.WindowTotal | zephyr-app/src/hub75_task.c:1703-1708 | any window of one whole cycle visits every shift once, wherever it starts |
| Hub75Pipeline.CycleLight | zephyr-app/src/hub75_task.c:1676-1721 | over one cycle with the frame unchanged an LED is lit for exactly the planes its bits are set on; an undriven one never |
| Hub75Pipeline.PixelLight | zephyr-app/src/hub75_task.c:1632-1721 | end to end: a pixel drawn in a colour is lit per channel for exactly the sum over planes of bit k of its level times (on_ticks << k) >> (depth-1); on an undriven panel it stays dark |
| Hub75Alloc.FitsFewer | zephyr-app/src/hub75_task.c:1805-1815 | what fits for some number of panels fits for fewer |
| Hub75Alloc.LayoutIsTight | zephyr-app/src/hub75_task.c:1801-1833 | the nine buffers follow each other without a gap from the arena's start, each as long as what is indexed in it, rounded up to eight bytes |
| Hub75Alloc.FitsIfLaidOut | zephyr-app/src/hub75_task.c:1808-1814 | a number of panels fits if and only if every buffer laid out for it ends inside the arena |
| Hub75Alloc.Alloc | zephyr-app/src/hub75_task.c:1799-1836 | the loop finds the largest number of panels whose buffers fit (n fits if and only if n <= result) and its layout is 8-aligned, inside the arena and pairwise disjoint |
| Hub75Alloc.IndicesStayInside | zephyr-app/src/hub75_task.c:1799-1836 | every later index into frame, step buffers, chain table and column table lies in its own region |
| Hub75Alloc.ArenaBoundsOe | zephyr-app/src/hub75_task.c:830-851 | the arena bounds the driven chain to 574 columns, so row_ticks*brightness plus rounding and on_ticks << k stay below 2^32 and full steps below 2^16 |
| Hub75Driver.Driver.ChainEntry | zephyr-app/src/hub75_task.c:1355-1365 | the imperative index arithmetic is the specified chain position |
| Hub75Driver.Driver.ChainBuild | zephyr-app/src/hub75_task.c:1348-1368 | the two loops fill the whole table with the specified positions |
| Hub75Driver.Driver.FrameLocateRow | zephyr-app/src/hub75_task.c:1396-1427 | end, before, table row, direction and shift agree with the specified row address, half, block and row of panels |
| Hub75Driver.Driver.FrameRowSet | zephyr-app/src/hub75_task.c:1431-1445 | the whole new frame: the pixel stored at its located place, or unchanged if its panel is not driven |
| Hub75Driver.Driver.FrameDraw | zephyr-app/src/hub75_task.c:1549-1600 | row by row, up to the one where the mapping is found gone: the rows before it show the picture, every other pixel what it showed; with none, the frame shows the whole picture |
| Hub75Driver.Driver.OeSet | zephyr-app/src/hub75_task.c:830-851 | full steps and partial word of every plane make up exactly its ticks |
| Hub75Driver.OeEntryAddsUp | zephyr-app/src/hub75_task.c:838-844 | full steps times PWM period plus the partial step's low time is the plane's ticks |
| Hub75Driver.Driver.RenderSpan | zephyr-app/src/hub75_task.c:1610-1624 | a span rewrites exactly its columns with data and OE, all others unchanged |
| Hub75Driver.Driver.RenderRow | zephyr-app/src/hub75_task.c:1632-1649 | the three spans together are the specified rendering of the shift; the other buffer pair is untouched |
| Hub75Driver.Driver.AddrMaskOf | zephyr-app/src/hub75_task.c:950-960 | the loop builds the set of address pins of the row |
| Hub75Pwm.SetPlaysShift | zephyr-app/src/hub75_task.c:1723-1767 | the sequence lengths, repeat count and loop that are set up play one filler column per undriven position and then the data once |
| Hub75Pwm.UndrivenPositions | zephyr-app/src/hub75_task.c:1728-1743 | the chain is longer than its driven part exactly if some panel is not driven, so the repeat count is never negative when it is used |
| Hub75Driver.Driver.PwmSetup | zephyr-app/src/hub75_task.c:1728-1767 | from the sizes and data_seq the instance gets filler and data, or the data alone, each with its length and repeats |
| Hub75Driver.Driver.PlaySequence | zephyr-app/src/hub75_task.c:1723-1767 | each instance plays every step its own sequence has values for, for one period and as many more as it repeats; CLK, OE and the row data come from the two together |
| Hub75Driver.Driver.PlayShift | zephyr-app/src/hub75_task.c:1723-1767 | playing the sequences the instances were given moves the chain exactly as one shift is specified to |
| Hub75Driver.Driver.ShiftStart | zephyr-app/src/hub75_task.c:1655-1663 | both instances go on with the current buffer pair, in whichever sequence carries the data |
| Hub75Driver.Driver.Advance | zephyr-app/src/hub75_task.c:1703-1708 | next shift, other buffer, freed pair rendered |
| Hub75Driver.Driver.Isr | zephyr-app/src/hub75_task.c:1676-1721 | one interrupt is the specified pipeline step on the driver's own fields; a stuck PWM or the overrun limit trips the overload and disables it |
| Hub75Driver.Driver.RunRows | zephyr-app/src/hub75_task.c:1676-1721 | rows played and interrupts handled in turn, whichever renderings overrun, follow the specified run for as long as there are interrupts, and the ticks an LED is lit for over them are those of that run; the interrupt is off at the end exactly if it was before or OVERRUN_LIMIT renderings in a row overran, and the row in which that happens is the last |
| Hub75Driver.Driver.ShowPicture | zephyr-app/src/hub75_task.c:1632-1721 | of the driver itself: a picture drawn while it runs, two rows for it to go out, and a whole cycle more, all with that frame; the ticks an LED is lit for over that cycle of the driver's run are given, and every LED is lit for exactly its colour's light, undriven ones not at all - whichever renderings overrun, unless enough in a row do to switch the interrupt off |
| Hub75Driver.Driver.RenderFirst | zephyr-app/src/hub75_task.c:2033-2036 | the start renders shifts 0 and 1 (modulo the cycle) into the two pairs |
| Hub75Driver.Driver.SetupAddrPins | zephyr-app/src/hub75_task.c:2021-2026 | the mask is exactly the address pins of the scan, all driven low |
| Hub75Config.RowBlocksFitByte | zephyr-app/src/hub75_task.c:1972 | row_blocks fits its byte if and only if a panel has less than 512 rows for each row address |
| Hub75Config.TableHoldsRows | zephyr-app/src/hub75_task.c:1348-1368 | the table, sized by that byte, has a place for every column of the rows sharing an address if and only if their number fits it |
| Hub75Text.RowBlocksUnchecked | zephyr-app/src/hub75_task.c:634-650 | the parser accepts a configuration for which it does not |
| Hub75Driver.Driver.Start | zephyr-app/src/hub75_task.c:1966-2068 | starting succeeds if and only if one panel fits; then as many panels as fit are driven, every buffer lies within its own region of the layout, the frame is blank, the chip is set up and the pipeline is at the start of its specified runs |
| Text.NextField | zephyr-app/src/hub75_task.c:249-278 | the cursor method returns the trimmed field and the rest, or fails if it does not fit its buffer |
| Text.FieldHead | zephyr-app/src/hub75_task.c:249-278 | the first field of "field, separator, rest" is the field, with the cursor at the rest |
| Text.StrtolDecimal | zephyr-app/src/hub75_task.c:281-291 | strtol reads a printed decimal back and stops behind it |
| Text.NumberDecimal | zephyr-app/src/hub75_task.c:281-291 | a printed number in range parses to itself |
| Text.FieldTrimmed | zephyr-app/src/hub75_task.c:265-276 | a field is taken without the spaces around it, if what is left fits its buffer |
| Text.StrtolSigned | zephyr-app/src/hub75_task.c:281-291 | a number may have spaces and a sign before it, and a minus makes it negative |
| Hub75Text.HexRoundTrip | zephyr-app/src/hub75_task.c:541-564 | a printed colour's six digits read back as the colour |
| Hub75Text.PaletteRoundTrip | zephyr-app/src/hub75_task.c:524-531 | palette letters read back as the palette |
| Hub75Text.ColorRoundTrip | zephyr-app/src/hub75_task.c:483-565 | printing and parsing a colour field - fixed or effect, with default and explicit speed, palette and scale - is the identity |
| Hub75Text.GeometryRoundTrip | zephyr-app/src/hub75_task.c:342-370 | likewise size, layout and grid |
| Hub75Text.ProtocolRoundTrip | zephyr-app/src/hub75_task.c:399-481 | likewise scan, chain, clock, chip and depth; no printed protocol is taken for a preset |
| Hub75Text.ParsedIsAccepted | zephyr-app/src/hub75_task.c:589-651 | everything the parser accepts meets the ranges and divisibility the driver relies on |
| Hub75Text.ConfigRoundTrip | zephyr-app/src/hub75_task.c:589-711 | for every accepted configuration, parsing its printed form gives exactly it back |
| Hub75Text.ConfigTextFits | zephyr-app/src/hub75_task.c:653-711 | the printed form and its pieces fit their buffers and the store's 127-character limit |
| Hub75Text.NormalizedMeansTheSame | zephyr-app/src/hub75_task.c:713-736 | normalizing keeps the meaning, fits the store and is idempotent |
| Hub75Defaults.DefaultText | zephyr-app/src/hub75_task.c:567-585 | the default configuration is accepted and its text parses to it |
| Hub75Defaults.EmptyFieldsTakeDefaults | zephyr-app/src/hub75_task.h:139 | a value of plain fields, any of them empty or missing at the end, means what it does with the default text's field in each such place |
| Hub75Defaults.MalformedFields | zephyr-app/src/hub75_task.c:604-627 | a sixth field, or one of 32 characters or more, makes a value malformed |
| Hub75Defaults.SpacesBefore | zephyr-app/src/hub75_task.c:591-596 | spaces in front of a value do not count, and alone they disable the panel |
| Hub75Defaults.EmptyPartsTakeDefaults | zephyr-app/src/hub75_task.c:429-480 | the same for the parts of a protocol, within any value |
| Hub75Defaults.PresetsSpelledOut | zephyr-app/src/hub75_task.h:91-113 | each preset means its spelled-out form: "8sf" is "8:f:500:shift:4", and so on |
| Hub75Defaults.ChipAliases | zephyr-app/src/hub75_task.h:105-107 | "fm6124" and "icn2038s" mean "fm6126a" |
| Hub75Defaults.EffectsSpelledOut | zephyr-app/src/hub75_task.h:114-133 | each effect's names, "rainbow" included, mean the same, and its empty parts its own speed and a scale of 8 |
| Hub75Defaults.ShortHex | zephyr-app/src/hub75_task.c:483-487 | missing hex digits of a colour are zeroes |
| Hub75Defaults.HexCapitals | zephyr-app/src/hub75_task.c:541-556 | capital hex digits mean what the small ones do |
| Hub75Defaults.PaletteOrder | zephyr-app/src/hub75_task.h:127-129 | the palette letters are k r g y b m c w, in this order |
| Hub75Defaults.EmptyGridIsOnePanel | zephyr-app/src/hub75_task.h:83 | a grid left out or empty is "1x1" |
| Hub75Defaults.LoneNumberIsOneRow | zephyr-app/src/hub75_task.c:313-340 | a lone number is that many panels side by side |
| Hub75Defaults.LayoutLetters | zephyr-app/src/hub75_task.h:80-83 | a layout is up to one of l/r and one of t/b in any order, a missing one l or t; nothing else is accepted |
| Hub75Defaults.TooManyParts | zephyr-app/src/hub75_task.c:342-498 | more parts than there are, or one that does not fit its buffer, make a geometry, protocol or colour malformed |
| Hub75Defaults.NothingTrailing | zephyr-app/src/hub75_task.c:650-679 | a colour is printed only as far as its last part that is not the default |
| Hub75Parser.ParseLayout | zephyr-app/src/hub75_task.c:293-311 | the character loop is the specified parse: at most one of l/r and one of t/b, in any order, nothing else |
| Hub75Parser.FindPreset | zephyr-app/src/hub75_task.c:401-424 | the table search finds a preset by its exact name |
| Hub75Parser.ParsePalette | zephyr-app/src/hub75_task.c:524-531 | the letter loop is the specified palette parse |
| Hub75Parser.ParseHex | zephyr-app/src/hub75_task.c:541-564 | the digit loop, missing digits as zeroes, is the specified colour parse |
| Hub75Parser.ParseGeometry | zephyr-app/src/hub75_task.c:342-370 | the cursor-driven parse equals the specified one, failures included |
| Hub75Parser.ParseProtocol | zephyr-app/src/hub75_task.c:399-481 | likewise for the protocol field |
| Hub75Parser.ParseColor | zephyr-app/src/hub75_task.c:488-565 | likewise for a colour field |
| Hub75Parser.ParseConfig | zephyr-app/src/hub75_task.c:589-651 | the imperative parser is the specified one for every text: disabled, malformed or accepted |
| Hub75Parser.FormatConfig | zephyr-app/src/hub75_task.c:692-711 | the imperative printer prints the specified text |
| Hub75Settings.Settings.ConfigSet | zephyr-app/src/hub75_task.c:713-736 | a malformed value stores nothing; else the table takes the normalized text, flash too if saving succeeds, and success counts a new generation |
| Hub75Settings.Settings.ConfigRead | zephyr-app/src/hub75_task.c:742-765 | reads what is stored; a missing or malformed value gives, and persists, the default |
| Hub75Settings.Settings.SetThenRead | zephyr-app/src/hub75_task.c:713-765 | a configuration that was set successfully is held by the store as its normalized text and is the one read back from there |
| ConfigStore.WithKeySets | zephyr-app/src/config_store.c:36-62 | setting a key keeps the table free of duplicate slots, gives the key its value and leaves every other key alone |
| ConfigStore.TableIsLookup | zephyr-app/src/config_store.c:36-62 | the slots' lookups are those of a map keyed by (type, key) |
| ConfigStore.TableSize | zephyr-app/src/config_store.c:14-33 | the map has as many keys as used slots; full means no free slot |
| ConfigStore.TableOfWithKey | zephyr-app/src/config_store.c:36-62 | setting a key in the slots is setting it in the map |
| ConfigStore.ReloadKeepsLookups | zephyr-app/src/config_store.c:64-116 | reloading a table's records in any order into an empty table gives the same lookups |
| ConfigStore.Store.FindEntry | zephyr-app/src/config_store.c:38-62 | finds the key's slot, else claims the first free one, else fails; nothing else changes |
| ConfigStore.Store.ConfigSetStr | zephyr-app/src/config_store.c:136-164 | too long: refused and nothing stored; no room: -ENOMEM; else the table takes the value and flash does if saving succeeds |
| ConfigStore.Store.ConfigSetI32 | zephyr-app/src/config_store.c:177-204 | the same for integers |
| ConfigStore.Store.ConfigGetStr | zephyr-app/src/config_store.c:118-134 | the stored string or the default, cut to the buffer |
| ConfigStore.Store.ConfigGetI32 | zephyr-app/src/config_store.c:166-175 | the stored integer or the default |
| ConfigStore.LongKey | zephyr-app/src/config_store.c:52-61 | a key too long for a slot keeps the table free of duplicates if and only if no slot holds what is kept of it, and is not found again under its whole length |
| ConfigStore.Store.SettingsSet | zephyr-app/src/config_store.c:64-116 | one record handed over by the loader, whatever its key and value: taken over, cut to what a slot holds, if readable and there is room; and when the table stays free of duplicates |
| ConfigStore.SetUnique | zephyr-app/src/config_store.c:36-62 | whatever the key and the table, setting it leaves no duplicate slots exactly if there were none and the key is short enough for a slot or what is kept of it is not held |
| ConfigStore.LoadedOk | zephyr-app/src/config_store.c:64-116 | whatever records are found, and in whatever order, the loaded table has no duplicate slots if and only if no record with too long a key gets a slot after one with the same kept key |
| ConfigStore.TwinsLoaded | zephyr-app/src/config_store.c:52-61 | two records whose keys differ in the sixteenth character load into two slots with one key |
| ConfigStore.Store.SettingsLoad | zephyr-app/src/config_store.c:234-250 | every record in turn, whatever its key and value, into the empty table, those that cannot be read whole passed over: the specified load of the others, and exactly when it ends free of duplicates |
| ConfigStore.LineReads | zephyr-app/src/config_store.c:214-221 | a listed line is the key, "=", the value and CR LF: the key and a string are read back as they are, a number by strtol |
| ConfigStore.LinesInOrder | zephyr-app/src/config_store.c:212-228 | the lines are in the order of the slots |
| ConfigStore.Store.ConfigList | zephyr-app/src/config_store.c:206-232 | whole lines of a prefix of the entries, stopping exactly at the first used one that does not fit |
| Hub75Supervisor.AlwaysSafe | zephyr-app/src/hub75_task.c:2107-2182 | over every run: held implies off with no restart scheduled, and so does a third counted trip |
| Hub75Supervisor.TripSchedules | zephyr-app/src/hub75_task.c:2156-2173 | a trip opens a window if the last one is over, else is the next in it; below the third it schedules a restart OVERLOAD_RESTART_MS later, the third none; the panel is off |
| Hub75Supervisor.WindowCounts | zephyr-app/src/hub75_task.c:2156-2182 | over passes that apply nothing and whose trips come within OVERLOAD_WINDOW_MS of the window start, the window stays and trips and automatic restarts are counted exactly as they happen |
| Hub75Supervisor.ThirdTripStops | zephyr-app/src/hub75_task.c:2156-2182 | so the panel is stopped exactly from the third trip of the window on, off with nothing scheduled, and the window sees at most two automatic restarts |
| Hub75Supervisor.WindowFromItsTrip | zephyr-app/src/hub75_task.c:2160-2172 | counted from the trip that opens a window: two more inside it stop the panel, fewer do not, at most two restarts follow |
| Hub75Supervisor.ThreeTripsStop | zephyr-app/src/hub75_task.c:2148-2172 | three trips in a row within OVERLOAD_WINDOW_MS, documented to leave the panel off, do so if and only if the window open at the first does not run out between it and the third; else the panel restarts |
| Hub75Supervisor.LateTripsRestart | zephyr-app/src/hub75_task.c:2148-2172 | runs from the start in which they do not: trips at 9000, 9500 and 10001 ms, say, and the panel runs with one trip counted |
| Hub75Supervisor.StoppedStaysOff | zephyr-app/src/hub75_task.c:2160-2182 | stopped by its third trip, the panel stays off through any passes that apply no configuration |
| Hub75Supervisor.AppliesWhen | zephyr-app/src/hub75_task.c:2108-2123 | what applies one is exactly a configuration not applied yet or the release of a hold, while not held |
| Hub75Supervisor.ApplySetsUp | zephyr-app/src/hub75_task.c:2123-2142 | a pass that applies a configuration leaves the panel running exactly if it is enabled and starts, with no trip counted and nothing scheduled, unless it trips at once |
| Hub75Supervisor.HoldFollows | zephyr-app/src/hub75_task.c:2107-2121 | the panel is held exactly as long as asked, and off meanwhile |
| Hub75Supervisor.NothingNew | zephyr-app/src/hub75_task.c:2107-2182 | a pass that finds nothing new changes nothing |
| Hub75Supervisor.TripComesBack | zephyr-app/src/hub75_task.c:2160-2182 | a trip that is not the third of its window brings the panel back at the first pass OVERLOAD_RESTART_MS later, unless held or configured before |
| Hub75Supervisor.Task.Pass | zephyr-app/src/hub75_task.c:2107-2182 | one pass of the loop on its own variables is the specified step |
| AxisMap.QuotientIsFloor | zephyr-app/src/nodem_config.h:61-65 | the rounding of nodem_map_axis is floor division for negative distances too |
| AxisMap.ClampKeepsInside | zephyr-app/src/nodem_config.h:67 | the int16 clamp never moves a coordinate into or out of a framebuffer |
| AxisMap.CoordinateOwnsPixels | zephyr-app/src/nodem_config.h:53-68 | each framebuffer coordinate is read by exactly scale consecutive driver pixels |
| AxisMap.LargeImageFromEdge | zephyr-app/src/nodem_config.h:53-68 | one at least as large as the output starts at its first pixel, shifted by the offset alone |
| AxisMap.SmallImageIsCentred | zephyr-app/src/nodem_config.h:53-68 | an unshifted smaller image is wholly visible and centred to within one pixel |
| OledView.FlipsAndTransposeRotate | zephyr-app/src/display_task.c:271-284 | controller flips, mirrored start column and software transpose together are exactly the clockwise rotation, on the same glass |
| OledView.QuarterTurns | zephyr-app/src/display_task.c:265-271 | what a clockwise rotation is: the top left corner goes to the top right, two quarter turns are the half turn, three the turn to the left |
| OledView.UnrotatedStart | zephyr-app/src/display_task.c:705 | unrotated, the frame starts at the panel's first column plus the configured x |
| OledView.OffsetOfSize | zephyr-app/src/display_task.c:93-100 | the supported sizes and their first columns |
| OledView.WindowFits | zephyr-app/src/display_task.c:705-713 | col+cols <= 128 and skip+cols <= width; the window is exactly the frame columns whose RAM column exists |
| OledRender.BitsShowPixels | zephyr-app/src/display_task.c:597-635 | shifting a page byte right by b gives pixel b in its lowest bit |
| OledRender.PageShowsRows | zephyr-app/src/display_task.c:597-635 | bit b of a page byte is the pixel of row 8*page+b |
| OledRender.FbHighBitFirst | zephyr-app/src/display_task.c:629 | a framebuffer byte's highest bit is its first pixel |
| OledRender.ImageReadsFramebuffer | zephyr-app/src/display_task.c:621-634 | an image pixel is the framebuffer bit y*width+x of the coordinates it maps to, highest bit first, and dark outside |
| OledRender.FrameShowsImage | zephyr-app/src/display_task.c:516-557 | the panel shows each image pixel, or the fallback's, where the rotation's software part puts it |
| OledRender.FallbackDots | zephyr-app/src/display_task.c:559-582 | without a mapping only the edge has dots, every second one from the corner on, alternating with the phase |
| OledRender.TablesGivePixel | zephyr-app/src/display_task.c:507-557 | the sum of the two table entries is the pixel's framebuffer bit, inside the framebuffer, exactly when neither is -1; transposed or not |
| OledRender.Renderer.FramePrepare | zephyr-app/src/display_task.c:516-557 | whether it rebuilds or returns early, the tables are those of the current configurations |
| OledRender.Renderer.BuildByte | zephyr-app/src/display_task.c:621-634 | one column's byte from the preloaded rows is the directly evaluated one |
| OledRender.Renderer.BuildPage | zephyr-app/src/display_task.c:590-636 | the table-driven page equals evaluating mapping and bounds per pixel, fallback included: bit b of each byte is the pixel of row 8*page+b |
| OledRender.Renderer.BuildFallbackPage | zephyr-app/src/display_task.c:562-582 | the fallback page is the blinking dotted edge, pixel by pixel |
| OledPanel.RowWritten | zephyr-app/src/display_task.c:353-394 | a window's width of data replaces its columns of one page and moves on to the next |
| OledPanel.SpanWritten | zephyr-app/src/display_task.c:353-394 | a one-page window set and filled changes exactly those columns of that page |
| OledPanel.SpanSuffices | zephyr-app/src/display_task.c:766-806 | sending only the first-to-last changed span leaves the row as sending all of it would |
| OledTask.Task.WritePage | zephyr-app/src/display_task.c:385-394 | the control byte borrowed from the page buffer is put back and only the span is sent |
| OledTask.Task.ClearRam | zephyr-app/src/display_task.c:399-405 | clearing zeroes every page of RAM |
| OledTask.Task.Clear | zephyr-app/src/display_task.c:399-412 | after a clear the remembered contents are the panel's, and trusted exactly if it succeeded |
| OledTask.Task.ChangedSpan | zephyr-app/src/display_task.c:781-792 | the two scans find exactly the first and last differing column, or that there is none |
| OledTask.Task.FlushPage | zephyr-app/src/display_task.c:774-809 | without error the page's drawn RAM and its memory become the built page; an unchanged page sends nothing, and while the memory is trusted exactly the bytes from the first to the last changed one go out |
| OledTask.Task.Flush | zephyr-app/src/display_task.c:766-830 | without a bus error every drawn page shows what was built; a frame equal to what was sent makes no transfer; exactly an error gives the panel up |
| OledTask.Task.Reconfigure | zephyr-app/src/display_task.c:679-724 | a new configuration drops initialized and sent_valid and takes the new window |
| OledTask.Task.Pass | zephyr-app/src/display_task.c:678-832 | any pass, whatever fails or changes, keeps the panel in use coherent: sent_valid, sent equal to RAM on the window, zero outside; one without a bus error ends with a due panel up and a due frame shown |
| OledTask.Task.Run | zephyr-app/src/display_task.c:678-832 | hence over every run, from the constructor on |
| OledTask.NoFbIsDark | zephyr-app/src/display_task.c:774-780 | before there is a framebuffer all pages are dark |
| PkgStore.AlignUpIsLeast | zephyr-app/src/pkg_store.c:16-19 | align_up is the least multiple with room |
| PkgStore.PaddingStaysErased | zephyr-app/src/pkg_store.c:26-96 | padding to a write block never leaves the erase blocks of the announced length |
| PkgStore.BlankTakesData | zephyr-app/src/pkg_store.c:80-88 | bytes written to erased flash are what it then holds, though writes can only clear bits |
| PkgStore.Partition.Erase | zephyr-app/src/pkg_store.c:26-56 | refuses what does not fit in whole erase blocks; else exactly the rounded length is blank |
| PkgStore.Partition.Write | zephyr-app/src/pkg_store.c:58-96 | over 512 bytes refused; else one write of the data padded with 0xFF to a write block |
| PkgStream.ChunksKept | nodem-ffi/src/control.rs:507-523 | after any pattern of failures every chunk's place holds what its own write left, and nothing beyond has changed |
| PkgStream.HeldByReturnCodes | nodem-ffi/src/control.rs:507-523 | for any return codes of the chunk writes: whatever failed writes leave behind, flash holds the stream, if and only if none of them returned an error |
| PkgStream.HeldIfAllDone | nodem-ffi/src/control.rs:507-523 | in particular if no write failed |
| PkgStream.HeldByReturnCodesWithTail | nodem-ffi/src/control.rs:507-544 | the same with the final partial chunk behind them |
| PkgStream.LostChunk | nodem-ffi/src/control.rs:516-520 | a concrete failed chunk write that leaves flash unlike the stream: the source only logs it |
| Loader.Control.PkgStart | nodem-ffi/src/control.rs:489-505 | refused exactly if it does not fit in whole erase blocks or the device fails; either way nothing is received yet, and an accepted length is blank |
| Loader.Control.PkgTake | nodem-ffi/src/control.rs:508-521 | one more byte: passed on plus staged is always what was received, each full buffer written where it belongs |
| Loader.Control.PkgData | nodem-ffi/src/control.rs:507-523 | for any split of a contiguous stream, the bytes received grow by exactly the piece |
| Loader.Control.PkgEnd | nodem-ffi/src/control.rs:525-544 | Ok if and only if the last partial write was; when the bytes received, padded, fit what was made blank, Ok and no error from a chunk write mean flash holds the stream; without a device fault writes end exactly where the padded stream does, so inside the erased range exactly if it fits, as it does when no longer than announced |
| OtaStore.MagicBytes | zephyr-app/src/ota_store.c:81-97 | an image is one that begins with the bytes 3d b8 f3 96 |
| OtaStore.Store.Start | zephyr-app/src/ota_store.c:28-45 | too long refused; else the writer is empty and the length remembered |
| OtaStore.Store.Finish | zephyr-app/src/ota_store.c:58-104 | pending if and only if nothing failed, the length is the announced one and the image begins with the magic; then the slot holds the accepted bytes |
| Loader.Control.OtaFlush | nodem-ffi/src/control.rs:584-595 | no write follows a failed one |
| Loader.Control.OtaData | nodem-ffi/src/control.rs:573-582 | for any split, everything received is accepted in order or staged, unless a write failed |
| Loader.Control.OtaStart | nodem-ffi/src/control.rs:555-571 | refused exactly if it is too long or the writer cannot be set up; an accepted one starts with an empty writer |
| Loader.Control.OtaEnd | nodem-ffi/src/control.rs:597-613 | Ok, pending and restart if and only if nothing has failed since the start, as many bytes are accepted as expected and the magic matches; after an accepted start the slot then holds exactly the stream |
| Loader.Control.Start | nodem-ffi/src/control.rs:447-456 | the mode chooses the upload; nothing is staged from the one before, refused or not |
| Loader.Control.Data | nodem-ffi/src/control.rs:458-464 | pieces go to whichever upload was started, also after a refused start |
| Loader.Control.End | nodem-ffi/src/control.rs:466-474 | line mode again; only a received image restarts, only a received package is announced |
| Modem.PassKeepsOwned | zephyr-app/src/modem_task.c:849-978 | a pass keeps "the TLS socket is open exactly while registering or over the websocket, and nothing else is open" if and only if it is not a registration given up early |
| Modem.GivingUp | zephyr-app/src/modem_task.c:569-584 | given up early means: the code is gone, or the stored name is shorter than three characters |
| Modem.OwnedExactlyIf | zephyr-app/src/modem_task.c:849-978 | over every run: at most one TLS socket, none lost, open exactly while registering or over the websocket, if and only if the run never gives registering up |
| Modem.OwnedExactlyIfNamed | zephyr-app/src/modem_task.c:548-584 | as nothing but an attempt takes a pending code away, that is: if and only if every attempt finds a name of three characters or more |
| Modem.SocketsCounted | zephyr-app/src/modem_task.c:849-978 | over every run: the open sockets are the one in use plus exactly one for every registration given up |
| Modem.Leak | zephyr-app/src/modem_task.c:569-584 | and a concrete run in which one is, with a code pending in every pass: stored without a name, it is dropped with socket 1 open, and the next registration connects through socket 2 beside it |
| Modem.RoundGoesOn | zephyr-app/src/modem_task.c:747-829 | which rounds over the websocket end it |
| Modem.ResumesAtLink | zephyr-app/src/modem_task.c:747-829 | the connection is taken up at the link exactly if losing it, with no code pending, is what ended the websocket; else at TLS |
| Modem.FailedIsRetried | zephyr-app/src/modem_task.c:883-901 | a failed step is tried again as it was, but a failed websocket leaves no socket and goes back to TLS |
| Modem.StepsInTurn | zephyr-app/src/modem_task.c:905-976 | the state after each step that does not fail |
| Modem.IdlesUntilWanted | zephyr-app/src/modem_task.c:957-971 | idling goes on to TLS at the first look with a reason to connect, while no look before or then finds the link down |
| Modem.NameReadFits | zephyr-app/src/modem_task.c:576-581 | a name of up to 64 characters is read whole and a longer one cut, so none is found too long |
| Modem.CodeUsedUp | zephyr-app/src/modem_task.c:548-627 | an attempt made with a pending code uses it up: cleared, or marked rejected exactly if the attempt was made and failed |
| Modem.FirstRoundDecides | zephyr-app/src/modem_task.c:747-829 | a websocket is given up at the first round that gives a reason |
| Modem.Connection.TlsConnect | zephyr-app/src/modem_task.c:310-355 | a socket that cannot be connected is closed again |
| Modem.Connection.StepRegister | zephyr-app/src/modem_task.c:567-627 | early returns, request and closing of the socket, as specified |
| Modem.Connection.WebsocketConnect | zephyr-app/src/modem_task.c:645-688 | failing closes the TLS socket and forgets it; succeeding leaves it under the websocket |
| Modem.Connection.Supervise | zephyr-app/src/modem_task.c:747-829 | with the websocket on its open socket throughout, resumes at PDN exactly if the link was lost and no code is pending, else at TLS |
| Modem.Connection.Idle | zephyr-app/src/modem_task.c:957-971 | idles until the link is lost or there is a reason to connect |
| Modem.Connection.PassWebsocket | zephyr-app/src/modem_task.c:926-947 | both are closed, websocket first, and forgotten |
| Modem.Connection.Pass | zephyr-app/src/modem_task.c:849-978 | one pass on the loop's own variables is the specified step; only open sockets are ever closed, so none is closed twice |

## Left out

- Hub75Driver.Driver.Start: requires row_blocks <= 255, because beyond that the byte wraps and the driver reads positions outside its table, which has no meaning to state.
- Machine widths otherwise: sizes, indices and counters are unbounded integers; bounds are proved where the source could wrap (OE arithmetic, frame bytes, table indices, printed lengths), and framebuffer coordinates carry their int16 clamp.
- The 64-bit plane word of a colour is a sequence of plane bytes, and a 32-bit step word its two halves.
- The running geometry's static variables are grouped in one record (`Hub75Driver.Sizes`).
- Colour effects, palettes' rendering and gamma: a painted colour is an arbitrary RGB value.
- The framebuffer hash that skips redrawing: sound only up to collisions, so every redraw is taken as forced.
- hub75_stop and what follows it on the wires: pins, PWM and interrupt registers, busy waits, the FM6126A's register writes (the blank row behind them is modelled).
- The OLED's display-offset register (its configured y), contrast, charge pump and other settings; the status byte is an arbitrary answer.
- The OLED's and nodem's own parse/format pairs: smaller copies of the HUB75 round trip.
- The status steps and `#stat` text of the modem, ping timing, the ring buffers' contents, HTTP, AT and TLS behaviour: their outcomes are arbitrary.
- OledTask.Task.Init: the controller's command sequence is one call that leaves the RAM arbitrary, because only the RAM matters here.
- Modem.Connection.Pass: a poll loop that never ends is a pass that never returns; only passes that do are described.
- Loader.Control.PkgEnd: what flash holds of a stream longer than was made blank for is not described beyond where its writes end, because there they only clear bits of older content.
- Locks and thread timing: an interrupt, a page build under the mutex and a pass between two waits are each one step.
- FFI glue, logging, UART, heartbeat, time comparisons and the media runtime.
