# Verified models of claude-master-go

This project models the parts of claude-master-go whose correctness rests on more than one
function, and proves what those parts promise. Everything is Dafny 4.11; `dafny verify
dfyconfig.toml` checks the whole of it.

What is modelled:

- **The terminal model** (`internal/screen/vt.go`). `Terminal.dfy` gives the model as a value
  and one pure function for each thing its byte machine can do; `VT.dfy` is the class with
  its rows shared by reference, each method verified against those functions. An index out of
  range is the flag `panicked` rather than a precondition, so the margins the code accepts
  without clamping are modelled as they are. The column width of a rune is an arbitrary
  function into 0, 1 and 2. The log of all scrolled-out lines, the number of scrollback
  erasures and whether a wide rune was ever drawn are history variables that no branch reads.
- **The renderer** (`internal/screen/scroll.go`). `Frame.dfy` is the byte frame `RenderANSI`
  prints, `Scroll.dfy` the scroll position and the class that prints it. `FrameRoundTrip.dfy`
  and `FrameExactness.dfy` feed the printed bytes back into the byte machine of any other
  terminal model: printer and parser are two programs, and the theorems connect them. The
  sequences are those of ECMA-48 (section 5.4, CUP in 8.3.21, ED in 8.3.39, EL in 8.3.41, SGR
  in 8.3.117); runes are UTF-8 as in section 3 of RFC 3629 (`Utf8.dfy`).
- **What single bytes and sequences do** to that model, cell by cell and number by number, is
  stated apart from its functions in `TerminalEffects.dfy`.
- **The session log** (`internal/screen/flush.go`, `internal/ptyproxy/sessionlog.go`):
  `SessionLog.dfy`. `PrintedText.dfy` follows lines of text from the bytes that print them
  through the screen and the history into the log.
- **The synchronized-output pump** (`internal/ttysync`). `SyncWrap.dfy` has the marker
  stripper and the tail tracker, `Pump.dfy` the event loop as a step machine over reads, two
  timers, time and the end of the stream, and the loop verified against it. `TokenStreams.dfy`
  holds the tracker against a grammar of its own (runes, control sequences and strings as in
  ECMA-48, sections 5.4 and 5.6), `TrackerAndModel.dfy` against the terminal model's parser.
- **The wire protocol** (`internal/client`, `internal/ptyproxy/server.go`): `Wire.dfy` has the
  frame encoders and the incremental decoder.
- **The tmux text formats** (`internal/tmuxcc`): the layout parser in `Layout.dfy`, the octal
  escapes in `Octal.dfy`.
- **Two controllers**: the gate that holds broadcasts back during a synchronized update
  (`SyncGate.dfy`), and the reconciliation of tmux windows with remote sessions, in which any
  tmux call may fail (`Reconcile.dfy`).

The files named `...Theorems`, `FrameRoundTrip` and `FrameExactness` hold the main results. A
method is verified against a function of its inputs or of the old state; the laws are then
proved about those functions, over all inputs, all ways of cutting them into reads, and all
interleavings of timers.

Where the code does less than its comments say, the model follows the code, and the results
say exactly when the promise holds:

- DECSTBM takes any two positive numbers. Without another margin request the model can index
  out of range later if and only if exactly one of the two margins lies on the screen
  (`MarginSafetyIsExact`); one request to a new model is enough for that (`MarginsBeyondPanic`).
- Overwriting one half of a wide rune leaves a row that the printer gets wrong: a continuation
  cell without its rune is skipped, and a wide rune without its continuation cell pushes the
  rest of the row on. A receiver looks like the viewport if and only if no colour has bits
  beyond the 24-bit mark, every continuation cell follows a wide rune, and every wide rune is
  followed by its continuation cell, or, in the last two columns, by a narrow rune in another
  style: printing that style drops the pending wrap, so the rune lands where it belongs
  (`RenderIsExact`). On a single column the same holds for looking alike with the history as
  it was. Streams that do not come back: `HalfOverwrittenNeverShows` for the first kind,
  `ForeignColorNeverShows` (a palette number beyond the palette) for the colours.
- The tracker takes an escape inside a control sequence for its end, and lets an overlong
  sequence through raw. The payload of the pump is independent of reads and timers if and only
  if no marker starts in the first way and no sequence is overlong (`MeaningIsExact`); the runs
  that show the other direction read at most 8192 bytes at a time, as the code does.
- No marker is meant to stand inside a sequence or rune. On the runs the code can make, every
  write ends where the stream has nothing unfinished if and only if no byte begins a sequence
  or rune inside another one and no sequence is overlong (`CutsAreCleanExactly`). Such a byte is
  an escape right behind an escape that began a sequence, or the first byte of a sequence or
  rune where an unfinished rune should go on (`RestartsInBytes`): "a" ESC ESC is an input
  (`TwoEscapesRestart`). In the first case the head ends in a beginning of a marker, so the
  carry of a flush, which the code expects to be empty, is not (`VoidEscapeIsCarried`).
- The tracker takes only some of the parameter bytes of ECMA-48: it holds a control sequence
  back whole if and only if no `<`, `=` or `>` is in it (`ControlIsHeldExactly`). Behind one of
  these it lets the beginning out, and the end marker stands inside (`PrivateIsCut`), although
  the terminal model reads on behind `=` and `>` (`NotHeldBehindPrivate`). On streams of runes,
  control sequences without them, strings and two-byte escapes every write ends between two of
  them and the meaning is kept (`WritesEndBetweenTokens`, `TokensKeepMeaning`).
- The first capture only notes where it starts, so the lines that the first read scrolls out
  are never logged (`PrintedLinesAreLogged`, `FirstReadIsMissed`).
- The session log holds every line scrolled out after the first capture if and only if each
  capture comes while history still holds all lines since the one before (`LogIsExact`): reads
  of at most 4096 bytes on two columns ensure that unless the scrollback is erased
  (`LogLosesNothing`); erasing it in the same read loses the line (`ErasedIsLost`).
- The wire decoder forwards a lone 0xff. It does what the frames mean if and only if no read
  ends between the two magic bytes of a frame (`DeliveryIsExact`).
- A hold covers a stretch of updates, not one: a read that ends an update and begins another
  does not start the second anew, so the valve can send a frame one millisecond into an update
  (`LateRenewalIsShown`). A frame shows an update younger than a second if and only if such a
  read came less than a second before it (`FrameAge`).
- When the master ends without data while the valve is pending, the clients never see the last
  state (`ShownAtEnd`, `OpenUpdateIsLost`); the host still does, if the valve fires before the process ends.
- The marker of a remote session is its id and its PC joined by " --pc ": two sessions can share
  one if ids may contain spaces, and cannot otherwise (`MarkersCanMeet`, `MarkersDiffer`).
- A reader who is scrolled back stays put in the canvas; the lines in view move by exactly the
  number of lines the length cap dropped (`DriftIsTrimming`).

## Model

| member | source | states |
|---|---|---|
| TerminalTheorems.ChunkIndependence | internal/screen/vt.go:92-220 | Feeding a byte string in any pieces leaves the same full state (grid, cursor, wrap, pen, margins, history, parser, carried UTF-8 bytes) as feeding it at once. |
| TerminalTheorems.FeedSplit | internal/screen/vt.go:94-98 | One cut anywhere, even inside a rune or a control sequence, makes no difference. |
| TerminalTheorems.FeedNothing | internal/screen/vt.go:94-98 | An empty read changes nothing, carried bytes included. |
| TerminalTheorems.SafeRunNeverPanics | internal/screen/vt.go:411-419 | If both margins, now and in every later request, are on the screen or both beyond it, no index is ever out of range. |
| TerminalTheorems.UnsafeMarginsPanic | internal/screen/vt.go:260-288 | With one margin on the screen and one beyond it, a concrete input without a margin request leads to an index out of range. |
| TerminalTheorems.MarginsBeyondPanic | internal/screen/vt.go:411-419 | A new model of any size takes margins from the first line to the one below the last, and a cursor movement and a line feed then index out of range. |
| TerminalTheorems.MarginSafetyIsExact | internal/screen/vt.go:411-419 | From every state with the invariant, in the middle of a sequence or rune too: no input that completes no margin request goes out of range, if and only if both margins are on the screen or both beyond it. |
| TerminalTheorems.FeedStaysNarrow | internal/screen/vt.go:231-255 | A stream of runes of at most one column never draws a wide one. |
| TerminalInvariants.FeedInv | internal/screen/vt.go:94-288 | Every input keeps: cursor inside the grid, all rows of full width, every cell one the machine draws, history at most 5000 lines and exactly the newest part of the log of all scrolled-out lines; and on two columns or more a read scrolls out at most its length plus three lines. |
| TerminalInvariants.NewModelInv | internal/screen/vt.go:76-81 | A new model has that invariant. |
| TerminalInvariants.LineFeedInv | internal/screen/vt.go:257-277 | A line feed keeps the invariant and pushes at most one line. |
| TerminalInvariants.EraseDisplayInv | internal/screen/vt.go:479-497 | Erasing keeps the invariant; no mode but 3 touches history, and 3 drops the retained lines. |
| VTModel.VT.constructor | internal/screen/vt.go:76-90 | A new object is the new model, with distinct fresh rows. |
| VTModel.VT.Feed | internal/screen/vt.go:94-187 | The object ends in the state the pure machine computes; grid rows stay distinct objects, disjoint from history; no row that was already history is written to. |
| VTModel.VT.Consume | internal/screen/vt.go:99-186 | The byte loop computes the run of the pure machine. |
| VTModel.VT.PutByte | internal/screen/vt.go:189-220 | Draws one rune, skips an invalid lead byte, or carries an unfinished rune to the next call. |
| VTModel.VT.Draw | internal/screen/vt.go:231-255 | Writes a rune at the cursor with pending wrap, early wrap and the continuation cell. |
| VTModel.VT.LineFeed | internal/screen/vt.go:257-277 | Scrolls the region, copying the top line into capped history, or moves down. |
| VTModel.VT.ReverseIndex | internal/screen/vt.go:279-288 | Scrolls the region down or moves up; history is untouched. |
| VTModel.ShiftUp | internal/screen/vt.go:271-274 | Moving row references up shifts exactly lines top..bot. |
| VTModel.ShiftDown | internal/screen/vt.go:281-284 | Moving row references down shifts exactly lines top..bot. |
| VTModel.VT.EraseLine | internal/screen/vt.go:461-476 | Erases to the right, to the left or all of the cursor line in place. |
| VTModel.VT.EraseDisplay | internal/screen/vt.go:479-497 | Erases below, above, all, or all with the scrollback. |
| VTModel.VT.Sgr | internal/screen/vt.go:320-368 | Interprets a whole list of renditions, colours with their own parameters included. |
| VTModel.VT.SetMargins | internal/screen/vt.go:411-419 | Takes any two positive margins as they are, resets them otherwise, and puts the cursor at the top margin, clamped. |
| VTModel.VT.CsiMove | internal/screen/vt.go:389-437 | Cursor movement by parameters with defaults, clamped to the grid. |
| VTModel.VT.Csi | internal/screen/vt.go:389-437 | Dispatches a control sequence by its final byte. |
| VTModel.ReadParams | internal/screen/vt.go:290-304 | Reads the parameter bytes into numbers. |
| VTModel.VT.ClampCursor | internal/screen/vt.go:446-459 | Puts the cursor back into the grid. |
| TerminalEffects.LineFeedScrolls | internal/screen/vt.go:257-277 | On the bottom margin a line feed makes the line on the top margin the newest line of history and log, moves the lines below it up and opens a blank one; elsewhere it moves down at most to the last line, and history stays as it was. |
| TerminalEffects.ReverseIndexScrolls | internal/screen/vt.go:279-288 | On the top margin the lines move down, a blank one enters and history stays; elsewhere the cursor moves up at most to the first line. |
| TerminalEffects.WrapIsNewline | internal/screen/vt.go:231-255 | A wrap that is pending when a rune comes, and a rune that does not fit, do what CR LF in front of the rune does. |
| TerminalEffects.ZeroWidthIgnored | internal/screen/vt.go:231-235 | A rune that takes no column changes nothing, not even a pending wrap. |
| TerminalEffects.RunNextLine | internal/screen/vt.go:151-154 | NEL does what CR LF does, unless a wrap is pending. |
| TerminalEffects.RunIndex | internal/screen/vt.go:145-147 | IND is a line feed. |
| TerminalEffects.RunLineFeed | internal/screen/vt.go:109-111 | LF is a line feed that drops a pending wrap. |
| TerminalEffects.RunOsc | internal/screen/vt.go:173-183 | An OSC string ended by BEL or ESC \ changes nothing. |
| TerminalEffects.RunOtherEscape | internal/screen/vt.go:155-158 | Any other two-byte escape, ESC P included, changes nothing. |
| TerminalEffects.SingleControls | internal/screen/vt.go:112-124 | BS goes back one column, HT to the next multiple of eight or the last column; other controls do nothing. |
| TerminalEffects.RunMove | internal/screen/vt.go:389-409 | CUU, CUD, CUF, CUB, CHA, VPA, CUP and HVP move by or to their numbers, 1 if missing or zero, and stop at the edges. |
| TerminalEffects.SaveRestore | internal/screen/vt.go:138-144 | DECSC, any bytes without a 7 that end between sequences, DECRC: the cursor is where it was and nothing else changes. |
| TerminalEffects.RunMargins | internal/screen/vt.go:411-419 | DECSTBM takes two positive numbers as they are, anything else as the whole screen, and does nothing with a question mark. |
| TerminalEffects.RunEraseLine | internal/screen/vt.go:461-476 | EL with no number or 0 empties exactly the columns from the cursor on, with 1 those up to it, with 2 all, and nothing else. |
| TerminalEffects.RunEraseDisplay | internal/screen/vt.go:479-497 | ED empties the same in the cursor line and every line below, above, or all; history changes only with 3, which drops the retained lines. |
| TerminalEffects.RunIgnored | internal/screen/vt.go:421-437 | Any other final byte, but for modes and renditions, changes nothing besides dropping a pending wrap. |
| TerminalEffects.SgrSelects | internal/screen/vt.go:320-368 | Each rendition sets or resets its own attribute and no other; the sixteen named colours are palette entries 0 to 15; unknown numbers do nothing. |
| TerminalEffects.SgrSplits | internal/screen/vt.go:320-368 | A list of renditions has the effect of its parts one after the other. |
| ControlSequences.RunCsi | internal/screen/vt.go:154-168 | Any well-formed control sequence is consumed whole and has the effect of its final byte and parameters. |
| ControlSequences.ParamsInvertNumerals | internal/screen/vt.go:290-304 | Reading parameters inverts printing numbers separated by semicolons. |
| Utf8.DecodeInvertsEncode | internal/screen/vt.go:222-229 | Decoding the UTF-8 bytes of a scalar value gives the value back. |
| Utf8.DecodesOnlyEncodings | internal/screen/vt.go:222-229 | Every sequence that is not the encoding of what it is decoded to gives U+FFFD. |
| Utf8.LeadBits | internal/screen/vt.go:192-206 | How many bytes a lead byte announces, by its high bits. |
| Frame.RunStyle | internal/screen/scroll.go:158-177 | The style sequences of a row select that style in the receiver, its colours cut to what can be printed, whatever the pen was. |
| Frame.SgrColor | internal/screen/scroll.go:121-135 | Interpreting a printed colour gives the colour back, cut to its low 24 bits if it is a 24-bit one. |
| Frame.SeenIsExact | internal/screen/scroll.go:121-135 | A colour survives printing if and only if it has no bits beyond the 24-bit mark. |
| Frame.OpeningBytes | internal/screen/scroll.go:242-278 | The bytes in front of a frame, one by one: synchronized output on, cursor hidden, screen cleared, last line, home. |
| Frame.ClosingBytes | internal/screen/scroll.go:242-278 | A cursor in view is addressed and shown, one out of view stays hidden; synchronized output off. |
| FrameRoundTrip.PaintRows | internal/screen/scroll.go:140-184 | Printing reproducible rows paints exactly those rows, one below the other, and scrolls nothing out. |
| FrameRoundTrip.FrameReproduces | internal/screen/scroll.go:242-278 | Fed to any receiver of the frame's size, a frame of reproducible rows leaves exactly those rows above blanks, the cursor where asked, synchronized output ended, history untouched, and no other trace. |
| ScrollTheorems.RenderRoundTrip | internal/screen/scroll.go:242-278 | Rendering any model with the invariant and with reproducible rows and feeding the bytes: the receiver keeps its history, is out of synchronized output, has its cursor on the model's when in view, and looks like the viewport if and only if every colour in view can be printed. |
| FrameExactness.RenderIsExact | internal/screen/scroll.go:140-184 | For every model with the invariant, every viewport and receiver: the receiver looks like the viewport and keeps its history if and only if every row is reproducible and every colour can be printed; on two columns or more looking alike alone decides. |
| FrameExactness.AlikeIsReproducible | internal/screen/vt.go:231-255 | A receiver that looks like the rows of a frame (and, on a single column, kept its history) was sent reproducible rows. |
| FrameExactness.PrintSpill | internal/screen/vt.go:236-255 | A row that ends in a wide rune and a narrow one in its style takes two lines of the receiver, the first with a continuation cell in the last column. |
| FrameExactness.HalfOverwrittenNeverShows | internal/screen/vt.go:246-249 | After a wide rune at home and a narrow one over its second half, no receiver of the model's size ever looks like it. |
| FrameExactness.ForeignColorNeverShows | internal/screen/scroll.go:121-135 | After SGR 38;5;50331647 and a rune, no receiver of the model's size ever looks like it with its history as it was, or on two columns at all. |
| FrameExactness.FrameLeavesWeak | internal/screen/vt.go:231-255 | Whatever rows are printed, in the receiver every continuation cell follows a wide rune, and a wide rune lacks its own only in front of a narrow rune in the last column or on a single column. |
| ScrollTheorems.NarrowIsPrintable | internal/screen/vt.go:246-255 | If no wide rune was ever drawn, every viewport is well formed. |
| ScrollTheorems.NarrowStreamIsPrintable | internal/screen/vt.go:231-255 | After any stream of runes of at most one column, every viewport is well formed. |
| ScrollTheorems.NarrowStreamRoundTrip | internal/screen/scroll.go:242-278 | After such a stream the receiver of a render looks like the viewport if and only if its colours can be printed, and keeps its history. |
| Scroll.ScrollRenderer.RenderANSI | internal/screen/scroll.go:242-278 | Prints the frame of the viewport after settling the position, reading rows through shared references. |
| Scroll.ScrollRenderer.ViewCells | internal/screen/scroll.go:187-227 | Settles the position and returns the rows in view, by reference. |
| Scroll.ScrollRenderer.Scroll | internal/screen/scroll.go:32-53 | Moves the position: upward from following it anchors, at the bottom it follows again, never above the first line. |
| Scroll.ScrollRenderer.FollowBottom | internal/screen/scroll.go:28-28 | Follows the bottom again. |
| Scroll.ScrollRenderer.AppendRow | internal/screen/scroll.go:140-184 | The cell loop prints the row's bytes, styles only where they change. |
| ScrollTheorems.RenderSettles | internal/screen/scroll.go:187-227 | The viewport is always canvas[oy .. oy+vrows] with 0 <= oy <= maxOy, and at maxOy if and only if it follows. |
| ScrollTheorems.SaneIsKept | internal/screen/scroll.go:32-53 | No scroll or render makes the position negative. |
| ScrollTheorems.ScrollMoves | internal/screen/scroll.go:32-53 | Between two renders a scroll moves the viewport by exactly its distance, within the canvas, and follows if and only if that is the bottom; following or not. |
| ScrollTheorems.ScrollsAdd | internal/screen/scroll.go:32-53 | Scrolls that stay in the canvas add up, with or without a render between them, and a scroll back undoes a scroll. |
| ScrollTheorems.LiveViewIsGrid | internal/screen/scroll.go:187-227 | Following in a viewport of the model's size shows its grid, whatever the history. |
| ScrollTheorems.EveryLineReachable | internal/screen/scroll.go:32-53 | One scroll from the bottom reaches every position. |
| ScrollTheorems.HomeAndEndReach | internal/client/client.go:91-142 | Up to 27767 rows, the clamped Home and End keys reach exactly the oldest line and the live bottom, whatever was fed in between. |
| ScrollTheorems.DriftIsTrimming | internal/screen/scroll.go:187-227 | While reading back, any input without a scrollback erasure leaves the reader not following, and the lines in view are those of the log of scrolled-out lines moved on by exactly the number the cap dropped. |
| ScrollTheorems.NoDrift | internal/screen/scroll.go:187-227 | Without trimming the next viewport is identical and still not following. |
| SessionLog.RunesInOrder | internal/screen/vt.go:499-511 | The text of a row has one rune for each cell that is not a continuation cell, in the order of the columns: its rune, or a space for an empty cell. |
| SessionLog.LineTextIsExact | internal/screen/vt.go:499-513 | A line is that text without its spaces at the end, and nothing else is cut off. |
| SessionLog.DropBlankEndIsExact | internal/ptyproxy/sessionlog.go:77-81 | Exactly the empty lines at the end of the screen are left out. |
| SessionLog.HistoryFlusher.TakeNewLines | internal/screen/flush.go:67-85 | Returns the lines confirmed since the last call, by the global line count, as far as history holds them. |
| SessionLog.HistoryFlusher.CaptureLines | internal/screen/flush.go:40-48 | Appends the new lines to the pending ones, capped. |
| SessionLog.CapKeepsNewest | internal/screen/flush.go:40-48 | The cap keeps the newest 100000 pending lines, whether it is applied after each capture or once. |
| SessionLog.HistoryFlusher.Drain | internal/screen/flush.go:57-63 | Hands out all pending lines once. |
| SessionLog.Log.CaptureAndDrain | internal/ptyproxy/sessionlog.go:55-63 | After a read, exactly the captured lines are appended to the file, each terminated; a closed log takes nothing. |
| SessionLog.Log.Finalize | internal/ptyproxy/sessionlog.go:66-94 | At the end the rest, the visible lines without trailing empty ones, and the end line are written, and the log is closed; a second time nothing happens. |
| SessionLog.PumpLogged | internal/ptyproxy/server.go:204-212 | The read loop with the log on ends in the model, flusher and file that the specification computes. |
| SessionLog.CaptureIsExact | internal/screen/flush.go:67-85 | A capture returns exactly the lines scrolled out since the last one that history still holds, in order. |
| SessionLog.ReadFitsHistory | internal/screen/vt.go:231-277 | A read of at most 4096 bytes on two columns or more never scrolls out more than history holds. |
| SessionLog.LogIsExact | internal/screen/flush.go:67-85 | For every run from any model with the invariant, of any width and with any reads: the lines written are exactly those scrolled out after the first capture, each once and in order, if and only if at every capture the lines history has dropped so far were already captured. |
| SessionLog.ErasedIsLost | internal/screen/vt.go:479-497 | From a new model of any size, a read that scrolls a line out and erases the scrollback: that line is never written. |
| SessionLog.LogLosesNothing | internal/ptyproxy/sessionlog.go:55-63 | Over any run of such reads without a scrollback erasure, the file holds exactly the lines scrolled out after the first capture, each once and in order. |
| SessionLog.LogReadsBack | internal/ptyproxy/sessionlog.go:55-63 | Splitting the file at line ends gives those lines back: no line can contain a line end. |
| PrintedText.FeedPrintsLines | internal/screen/vt.go:231-277 | Lines of narrow runes printed to a blank model (a new one is), CR LF between them: the last of them stand on the screen, those before in the log, each as its own row and in order, nothing lost or doubled. |
| PrintedText.PrintedLinesAreLogged | internal/ptyproxy/server.go:204-212 | In reads of at most 4096 bytes cut anywhere, the session log followed by the screen is the text of the printed lines in order, but for those that the first read scrolled out. |
| PrintedText.FirstReadIsMissed | internal/screen/flush.go:67-74 | Lines printed in one first read: all that no longer fit the screen are missing in the log. |
| SyncWrap.StripSyncMarkers | internal/ttysync/syncwrap.go:31-62 | The index loop returns the data without its complete markers; a proper beginning of a marker at the very end is always handed back as the carry, and nothing else is. |
| SyncWrap.StripCut | internal/ttysync/syncwrap.go:31-62 | Stripping distributes over every cut that splits no marker. |
| SyncWrap.StripSplit | internal/ttysync/syncwrap.go:31-62 | A cut through a marker leaves both halves in: exactly eight bytes more come out. |
| SyncWrap.MarkerIsEither | internal/ttysync/syncwrap.go:18-22 | A marker is the eight bytes of BSU or those of ESU. |
| SyncWrap.StripOfMarkers | internal/ttysync/syncwrap.go:31-62 | A marker alone leaves nothing, and data without markers is left as it is. |
| SyncWrap.TailTracker.Feed | internal/ttysync/syncwrap.go:97-188 | One byte moves the tracker as specified. |
| SyncWrap.TailTracker.Rebase | internal/ttysync/syncwrap.go:201-209 | Moves the recorded start back with the buffer. |
| SyncWrap.RebaseIsFresh | internal/ttysync/syncwrap.go:201-209 | After a cut at the permitted place, the rebased tracker is the one a new tracker would be on the kept bytes. |
| SyncWrap.TrackMoreTracked | internal/ttysync/wrap.go:257-262 | Feeding chunk by chunk is tracking the whole buffer. |
| SyncWrap.HeadEndsClean | internal/ttysync/syncwrap.go:192-198 | In which states of the tracker a head can end: ground, an escape in front of an escape, or a rune that the next byte does not continue. |
| SyncWrap.HeadIsExact | internal/ttysync/syncwrap.go:192-198 | A head ends with nothing unfinished if and only if the byte at the cut does not begin a sequence or rune inside another. |
| SyncWrap.CleanIffNoRestart | internal/ttysync/syncwrap.go:97-198 | The heads of all prefixes of a stream end with nothing unfinished if and only if no byte of it begins a sequence or rune inside another. |
| SyncWrap.RestartsInBytes | internal/ttysync/syncwrap.go:97-142 | Those bytes are: an escape right behind the escape that began the unfinished sequence, and an escape or rune lead byte where a rune should go on. |
| SyncWrap.VoidEscape | internal/ttysync/syncwrap.go:140-142 | A head ends on a void escape if and only if escapes stand on both sides of the cut and the first of them did not end a control sequence. |
| SyncWrap.VoidEscapeIsCarried | internal/ttysync/wrap.go:192-199 | Such a head ends in a beginning of a marker, the escape, which the stripper hands back as carry. |
| SyncWrap.TwoEscapesRestart | internal/ttysync/syncwrap.go:140-142 | "a" ESC ESC is such an input. |
| SyncWrap.SplitGrows | internal/ttysync/syncwrap.go:192-198 | More input never moves the permitted cut back. |
| SyncWrap.CutPassesMarker | internal/ttysync/syncwrap.go:97-198 | A permitted cut behind the start of a marker the tracker saw begin is behind its end. |
| SyncWrap.PermittedCutIsClear | internal/ttysync/syncwrap.go:192-198 | No permitted cut falls inside a marker. |
| TokenStreams.TokenIsHeld | internal/ttysync/syncwrap.go:97-188 | Every rune, control sequence (parameters of digits, colon, semicolon, question mark and intermediates; any final byte), OSC or DCS string ended by BEL or ESC \, and two-byte escape: no proper beginning may be emitted, and the whole is finished. |
| TokenStreams.BrokenRuneIsText | internal/ttysync/syncwrap.go:97-110 | A byte that does not continue an unfinished rune is tracked as behind finished text. |
| TokenStreams.SplitAtTokens | internal/ttysync/syncwrap.go:192-198 | Of any beginning of a stream of these, exactly the complete ones may be emitted. |
| TokenStreams.WritesEndBetweenTokens | internal/ttysync/wrap.go:148-156 | On every run over such a stream that the code can make, every write ends between two of them. |
| TokenStreams.TokensKeepMeaning | internal/ttysync/wrap.go:162-225 | On every such run the whole stream is wrapped without its markers. |
| TokenStreams.ControlIsHeldExactly | internal/ttysync/syncwrap.go:149-155 | Over all parameter and intermediate bytes of ECMA-48, a control sequence is held back whole if and only if none of them is 0x3c to 0x3e. |
| TokenStreams.PrivateIsCut | internal/ttysync/syncwrap.go:149-155 | For each other one, a run the code can make that wraps its beginning on its own. |
| TrackerAndModel.HeldWhileInside | internal/screen/vt.go:160-172 | In every control sequence as the terminal model reads it, the tracker holds back all of it exactly as long as the model is inside. |
| TrackerAndModel.SameRunes | internal/ttysync/syncwrap.go:112-125 | Tracker and model await the same number of bytes behind every lead byte. |
| TrackerAndModel.NotHeldBehindPrivate | internal/ttysync/syncwrap.go:149-155 | Behind a greater-than or equals sign the model is still inside and the tracker lets go. |
| Pump.PumpWithIdleConfig | internal/ttysync/wrap.go:94-302 | The event loop over any list of events ends in the state and with the writes the step machine computes. |
| Pump.Loop.Handle | internal/ttysync/wrap.go:228-301 | One event is one step of the machine. |
| Pump.Loop.Flush | internal/ttysync/wrap.go:162-225 | A flush emits, keeps and resets what the machine says, in each of its four cases. |
| Pump.Loop.OnRead | internal/ttysync/wrap.go:239-287 | A read is tracked, appended, flushed at the buffer limit, or arms the timers. |
| PumpTheorems.RunKeeps | internal/ttysync/wrap.go:128-302 | In every reachable state the tracker is the one of the buffer; a non-empty buffer has an armed idle timer or is one unfinished sequence; with a limit the buffer is at most max(limit - 1, 32768); at the end nothing is left. |
| PumpTheorems.RunConserves | internal/ttysync/wrap.go:162-225 | On every run the bytes read are cut into consecutive pieces, none skipped or repeated, and the writes are exactly BSU + stripped piece + ESU, a raw piece, or a wrapped head with the raw tail, in order; an all-marker piece writes nothing. |
| PumpTheorems.PlainPumpIsIdentity | internal/ttysync/wrap.go:169-176 | With wrapping off the writes and the buffer concatenate to the input. |
| PumpTheorems.MeaningPreserved | internal/ttysync/wrap.go:162-225 | For every chunking and timer interleaving of a stream whose markers are seen and whose sequences are not overlong: what is wrapped is the stream up to its last unfinished sequence without its markers, and that sequence follows raw at the end. |
| PumpTheorems.MeaningIsExact | internal/ttysync/syncwrap.go:149-155 | That holds for all runs over a stream that the code can make (reads of 1 to 8192 bytes, timers in time) if and only if no marker starts where the tracker takes its escape for the end of a control sequence and no sequence is overlong. |
| PumpTheorems.UnseenMarkerSplits | internal/ttysync/syncwrap.go:149-155 | For every other marker, a run the code can make that cuts through it. |
| PumpTheorems.OverlongGoesRaw | internal/ttysync/wrap.go:182-191 | Every overlong beginning, read in pieces of at most 8192 bytes and flushed by the idle timer, goes out raw. |
| PumpTheorems.CutsAreCleanExactly | internal/ttysync/wrap.go:148-156 | Over all runs over a stream that the code can make, every write ends where the stream has no sequence or rune unfinished, if and only if no byte of it begins a sequence or rune inside another and no sequence is overlong. |
| PumpTheorems.RestartIsCut | internal/ttysync/wrap.go:192-225 | For every such byte, a run the code can make in which the idle timer fires right behind it: exactly the bytes in front of it are wrapped, with something unfinished at their end. |
| PumpTheorems.LatencyBound | internal/ttysync/wrap.go:271-287 | With timers served when due, no byte of a finished sequence waits in the buffer longer than MaxHold after the read that finished it. |
| PumpTheorems.IdleFiresAfterQuiet | internal/ttysync/wrap.go:281-287 | Behind a read below the buffer limit the idle timer fires after exactly the hold time if hold is active and set, else the idle time, unless MaxHold comes first. |
| Wire.SendScroll | internal/client/client.go:110-115 | The SCROLL frame, the distance clamped to 16 bits. |
| Wire.SendResize | internal/client/client.go:119-129 | The RESIZE frame. |
| Wire.SendImage | internal/client/clipboard.go:29-36 | The IMAGE frame, filled by index and copy. |
| Wire.Client.OnRead | internal/ptyproxy/server.go:286-301 | A read appends to the buffer and acts as the decoder specifies. |
| Wire.Client.ParseClientInput | internal/ptyproxy/server.go:303-366 | The loop takes frames off and forwards the rest exactly as the byte-by-byte specification; it terminates on the length of the buffer. |
| Wire.Client.NextMagic | internal/ptyproxy/server.go:349-356 | Finds the first magic number, or the end. |
| Wire.ForwardRun | internal/ptyproxy/server.go:348-362 | Bytes without a magic number among them are forwarded one after the other. |
| WireTheorems.DecodeInvertsEncode | internal/ptyproxy/server.go:303-366 | The decoder does exactly what any sequence of frames and typed bytes means, and keeps nothing back. |
| WireTheorems.ScrollArrives | internal/client/client.go:91-115 | A scroll distance arrives unchanged if it fits into 16 bits, else as the nearest one that does. |
| WireTheorems.BadImageIsDropped | internal/ptyproxy/server.go:328-337 | Of an image with length 0 or beyond the limit exactly the seven bytes of the header are dropped. |
| WireTheorems.DecodeSplit | internal/ptyproxy/server.go:303-366 | Decoding in two reads is decoding at once, unless the first ends in a lone 0xff that the second completes to a magic number. |
| WireTheorems.LoneIffSplitsMagic | internal/ptyproxy/server.go:349-361 | A prefix of an encoded stream decodes to a lone 0xff at its end if and only if it ends between the magic bytes of a frame, payloads that contain 0xff included. |
| WireTheorems.DeliveryIsExact | internal/ptyproxy/server.go:303-366 | In any chunking the server does exactly what the frames mean, in order, if and only if no read ends between the two magic bytes of a frame. |
| LayoutParser.MatchBracket | internal/tmuxcc/layout.go:144-158 | The scan returns the matching bracket at depth 0. |
| LayoutParser.IsChildBoundary | internal/tmuxcc/layout.go:214-221 | Digits, then an x. |
| LayoutParser.ParseNode | internal/tmuxcc/layout.go:52-140 | Parses header, then id or children; each error in its place; terminates on (length, rank) together with ParseChildren. |
| LayoutParser.ParseChildren | internal/tmuxcc/layout.go:164-210 | The single pass with depth and start cuts exactly the children of the recursive specification. |
| LayoutParser.ParseLayout | internal/tmuxcc/layout.go:42-48 | Skips the cookie or fails. |
| LayoutParser.LeafPanes | internal/tmuxcc/layout.go:224-239 | Lists the ids of the leaves. |
| LayoutTheorems.ParseInvertsPrint | internal/tmuxcc/layout.go:9-48 | For every pane tree and cookie, parsing the printed form returns the tree. |
| LayoutTheorems.PrintIsInjective | internal/tmuxcc/layout.go:9-31 | Different pane trees print differently. |
| LayoutTheorems.NumbersAreExact | internal/tmuxcc/layout.go:53-96 | A field is read as its number, sign included, exactly if that fits into 64 bits. |
| LayoutTheorems.NotANumber | internal/tmuxcc/layout.go:53-96 | Any byte but a digit or a leading sign makes a field an error. |
| LayoutTheorems.MatchNode | internal/tmuxcc/layout.go:144-158 | A printed subtree leaves the bracket depth where it was, for both kinds of brackets. |
| LayoutTheorems.EndNode | internal/tmuxcc/layout.go:164-210 | No child boundary is found inside a printed subtree, at any depth. |
| LayoutTheorems.PanesInOrder | internal/tmuxcc/layout.go:224-239 | The listed ids stand in the printed form at strictly increasing places: left to right. |
| LayoutTheorems.PanesAreAll | internal/tmuxcc/layout.go:224-239 | The listed ids are exactly those of the leaves, and as many are listed as there are leaves with one. |
| Octal.DecodeOctalEscapes | internal/tmuxcc/protocol.go:256-292 | The index loop computes the recursive specification, errors included. |
| Octal.DecodeIsExact | internal/tmuxcc/protocol.go:256-292 | Decoding succeeds with given bytes if and only if the text is made of legal pieces that stand for them. |
| Octal.DecodeInvertsWritten | internal/tmuxcc/protocol.go:248-255 | Whatever allowed form each byte is written in, decoding gives the bytes back. |
| Octal.EncodeSendKeysLiteral | internal/tmuxcc/input.go:20-31 | The command line with every byte of the data in three octal digits between the quotes. |
| Octal.SendKeysCarriesData | internal/tmuxcc/input.go:20-31 | What stands between the quotes decodes to the data, and no quote occurs in it. |
| SyncGate.Server.OnRead | internal/ptyproxy/server.go:206-256 | One turn of the read loop is one step of the gate. |
| SyncGate.Server.SyncValve | internal/ptyproxy/server.go:196-202 | The valve sends one frame if the model is still held; after Stop it reaches the host only. |
| SyncGateTheorems.NeverMidFrame | internal/ptyproxy/server.go:213-250 | On every timed run each frame shows the current model, and that is outside a synchronized update, or every read for a second left it inside one, or the frame is of a read that came with an error. |
| SyncGateTheorems.FrameAge | internal/ptyproxy/server.go:218-240 | A frame inside an update, other than that of a read with an error, shows an update opened less than a second before if and only if a read less than a second before ended one update and began another. |
| SyncGateTheorems.LateRenewalIsShown | internal/ptyproxy/server.go:218-240 | BSU at 0 ms and ESU with BSU in one read at 999 ms: the valve at 1000 ms sends a frame inside the update opened at 999 ms. |
| SyncGateTheorems.MarkersAreTheSame | internal/ttysync/syncwrap.go:18-22 | The mode sequences the terminal model follows are the markers of the pump. |
| SyncGateTheorems.EverythingIsShown | internal/ptyproxy/server.go:213-250 | On every timed run each read is shown to the host within a second of being fed, or it is not overdue and the valve covers it. |
| SyncGateTheorems.ClientsSeeTheSame | internal/ptyproxy/server.go:259-266 | While the gate runs, what is shown to the host in time is shown to the clients. |
| SyncGateTheorems.ShownAtEnd | internal/ptyproxy/server.go:251-254 | When the master ends without data, the clients have seen everything if and only if a frame was the last thing to happen; if the valve is not due at that moment, if and only if it is off. |
| SyncGateTheorems.OpenUpdateIsLost | internal/ptyproxy/server.go:251-254 | A read that opens an update, then the end: the clients never see that read. |
| SyncGateTheorems.NothingAfterStop | internal/ptyproxy/server.go:145-156 | After Stop nothing more reaches the clients, whatever still happens. |
| SyncGateTheorems.GateFeedsStream | internal/ptyproxy/server.go:206-210 | Holding frames back never changes what the model is fed. |
| Reconcile.Desired | internal/cloud/agent/remotesync.go:108-143 | Exactly the markers of the sessions of foreign PCs, or nothing if some list failed. |
| Reconcile.WantedBySession | internal/cloud/agent/remotesync.go:75-91 | Which marker a session asks for: that of its key, else of its session id, on a named PC other than this one; none without either. |
| Reconcile.MarkersDiffer | internal/cloud/agent/remotesync.go:75-77 | Sessions with ids without spaces have the same marker only if id and PC are the same. |
| Reconcile.MarkersCanMeet | internal/cloud/agent/remotesync.go:75-77 | With spaces in an id two sessions share a marker. |
| Reconcile.TakeIds | internal/cloud/agent/remotesync.go:158-163 | Moves exactly the windows with a marker out of the map, each once. |
| Reconcile.ReconcileMarker | internal/cloud/agent/remotesync.go:157-183 | One marker: keeps one window and kills the others, or creates one unless under the guard. |
| Reconcile.Sweep | internal/cloud/agent/remotesync.go:184-193 | Kills windows of vanished sessions, then legacy ones. |
| Reconcile.ReconcileRemote | internal/cloud/agent/remotesync.go:93-194 | Whatever calls fail: a failed list of windows, PCs or sessions changes nothing; windows without a marker or arrow are never touched; a desired marker with a window keeps one; new windows only for desired markers without one, never under the guard; without failures at most one each, none undesired, no legacy left. |
| ReconcileTheorems.OnePass | internal/cloud/agent/remotesync.go:145-193 | One pass without failures leaves at most one window per desired marker and none undesired, and exactly one each unless more than three times as many windows and eight were marked. |
| ReconcileTheorems.TwoPasses | internal/cloud/agent/remotesync.go:145-193 | Two passes without failures reach exactly one window per desired marker from any windows whatever. |
| ReconcileTheorems.ConvergedIsStable | internal/cloud/agent/remotesync.go:145-193 | From there a pass creates and kills nothing, whatever fails in it. |
| ReconcileTheorems.PurgeBoundsArrows | internal/tmux/mark_unix.go:63-82 | On unix, even if marking always fails, a pass whose kills and lists succeed leaves no more remote windows than desired markers. |
| ReconcileTheorems.PassIsBounded | internal/cloud/agent/remotesync.go:145-152 | Whatever fails, a pass makes at most one window per desired marker, and none under the guard. |
| ReconcileTheorems.NeverRunsAway | internal/cloud/agent/remotesync.go:145-152 | Over any number of rounds with any failures and changing sessions, the marked windows stay within the start or four times the largest set of sessions plus eight. |

## Left out

- PTY and ConPTY backends, unix sockets, process scanning, tmux execution, Firestore, the WSS relay, self-update and the install and watch scripts: input and output only.
- The regular-expression heuristics of `internal/screen/status.go` and `internal/screen/input.go`, dashboard text, configuration and `internal/screen/vt10x.go`: no invariant of their own.
- `ViewLines`, navigation-mode keys and host mouse and page keys: they would add easy members beside `ViewCells` and `Scroll`.
- Control-sequence parameters are unbounded integers; the code's 64-bit overflow on absurdly long numbers is not modelled.
- The column width of a rune is an arbitrary function of the rune, not the table of the width library; a space is taken to have width 1 where frames are concerned.
- SessionLog.LogLosesNothing: two columns, reads of at most 4096 bytes and no CSI 3 J are sufficient, not necessary; `LogIsExact` has the exact condition without them.
- The hold parser of `internal/ttysync/ansi.go` is an arbitrary boolean for each read.
- A failing write ends the pump in the code; every write in the model succeeds.
- A broadcast of the gate records the model it shows; the renderer that turns the model into bytes is modelled apart from it, and slow or vanished clients are not modelled.
- Time is logical, steps under the mutex are atomic and instantaneous, and stopping a timer is atomic. A valve that fires after `Stop` writes to the host in the model as in the code; that the process may have ended by then is not modelled.
- The line written when the session log is opened, and the opening itself, are not modelled; the file of the model starts behind it.
- A client's own resize or scroll is rendered at once, past the gate; the gate's results are about `masterPump` and the valve.
- What handling an image does after the decoder has delivered it, and the rendering after a resize or scroll frame, are not part of the wire model.
- Windows are a map from ids to markers that only the modelled pass changes; window style, names beyond the arrow, and the snapshot for the dashboard are not modelled.
- tmux field widths in a layout are non-negative, as tmux prints them; the parser also accepts a sign, which the printed forms never have.
