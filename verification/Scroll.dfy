/** The top-anchored scroll position of internal/screen/scroll.go: pure functions on
    a position, and the mutable renderer that is verified against them. */
module Scroll {
  import opened Bytes
  import opened Utf8
  import opened Terminal
  import opened ControlSequences
  import opened Frame
  import opened VTModel

  /** `anchor` is the canvas line at the top of the viewport when not following;
      `lastMaxOy` and `lastOy` are left by the previous render. */
  datatype View = View(follow: bool, anchor: int, lastMaxOy: nat, lastOy: nat)

  const INITIAL := View(true, 0, 0, 0)

  /** dy < 0 goes to older lines, dy > 0 to newer ones. */
  function ScrollBy(v: View, dy: int): View {
    if dy == 0 then v
    else if v.follow then
      if dy < 0 then v.(anchor := if v.lastMaxOy + dy < 0 then 0 else v.lastMaxOy + dy, follow := false) else v
    else
      var a := v.anchor + dy;
      if a >= v.lastMaxOy then v.(anchor := a, follow := true)
      else if a < 0 then v.(anchor := 0)
      else v.(anchor := a)
  }

  /** The largest top line that still fills the viewport. */
  function MaxOy(total: nat, vrows: nat): nat {
    if total < vrows then 0 else total - vrows
  }

  /** Where a render of a canvas of `total` lines puts the viewport: `lastOy`. */
  function Place(v: View, total: nat, vrows: nat): View {
    var maxOy := MaxOy(total, vrows);
    if v.follow then v.(lastMaxOy := maxOy, lastOy := maxOy)
    else if v.anchor >= maxOy then View(true, maxOy, maxOy, maxOy)
    else if v.anchor < 0 then View(false, 0, maxOy, 0)
    else v.(lastMaxOy := maxOy, lastOy := v.anchor)
  }

  /** At most `vrows` canvas lines from `oy` on. */
  function Window<T>(canvas: seq<T>, oy: nat, vrows: nat): seq<T> {
    if oy >= |canvas| then []
    else if oy + vrows <= |canvas| then canvas[oy..oy + vrows]
    else canvas[oy..]
  }

  /** History above the visible grid. */
  function Canvas(s: State): seq<Row> {
    s.past.lines + s.grid
  }

  function Placed(v: View, s: State, vrows: nat): View {
    Place(v, |Canvas(s)|, vrows)
  }

  /** The rows a render of `s` shows. */
  function Viewport(v: View, s: State, vrows: nat): seq<Row> {
    Window(Canvas(s), Placed(v, s, vrows).lastOy, vrows)
  }

  /** 1-based viewport row of the model's cursor. */
  function CursorRow(v: View, s: State, vrows: nat): int {
    |s.past.lines| + s.cy - Placed(v, s, vrows).lastOy + 1
  }

  /** The frame a render of `s` prints. */
  function Render(v: View, s: State, vrows: nat, vcols: nat): seq<Byte> {
    FrameBytes(Viewport(v, s, vrows), CursorRow(v, s, vrows), s.cx + 1, vrows, vcols)
  }

  /** One step of printing a row, behind what is already printed. */
  lemma RowBytesStep(row: Row, x: nat, vcols: nat, first: bool, cur: Style, b: seq<Byte>)
    requires x < vcols
    ensures var c := CellAt(row, x); var st := PrintedStyle(c);
      b + RowBytes(row, x, vcols, first, cur) ==
      if c.cont then b + RowBytes(row, x + 1, vcols, first, cur)
      else if first || st != cur then
        b + StyleBytes(st) + Encode(PrintedRune(c)) + RowBytes(row, x + 1, vcols, false, st)
      else b + Encode(PrintedRune(c)) + RowBytes(row, x + 1, vcols, false, st)
  {
    hide StyleBytes, Encode;
  }

  lemma RowBytesEnd(row: Row, vcols: nat, first: bool, cur: Style)
    ensures RowBytes(row, vcols, vcols, first, cur) == SgrBytes([0])
  {
  }

  /** References in a window spell out the window of the lines. */
  lemma WindowSpells(arrays: seq<array<Cell>>, lines: seq<Row>, cols: nat, oy: nat, vrows: nat)
    requires Spells(arrays, lines, cols)
    ensures var rows := Window(arrays, oy, vrows); var shown := Window(lines, oy, vrows);
      |rows| == |shown| && forall i | 0 <= i < |rows| :: rows[i][..] == shown[i]
  {
    forall i | 0 <= i < |Window(arrays, oy, vrows)|
      ensures Window(arrays, oy, vrows)[i][..] == Window(lines, oy, vrows)[i]
    {
      SpellsAt(arrays, lines, cols, oy + i);
    }
  }

  lemma CanvasSpells(v: VT)
    requires v.Valid()
    ensures |v.hist| == |v.past.lines| && |v.buf| == |v.grid|
    ensures Spells(v.hist + v.buf, Canvas(v.Abs()), v.cols)
  {
    hide Shape, AllParameters, Distinct, VT.Disjoint;
  }

  /** The referenced rows in a window spell out the window of the canvas. */
  lemma WindowReads(v: VT, oy: nat, vrows: nat)
    requires v.Valid()
    ensures |v.hist| == |v.past.lines| && |v.buf| == |v.grid|
    ensures var rows := Window(v.hist + v.buf, oy, vrows); var lines := Window(Canvas(v.Abs()), oy, vrows);
      |rows| == |lines| && forall i | 0 <= i < |rows| :: rows[i][..] == lines[i]
  {
    CanvasSpells(v);
    hide Spells, Window, Canvas, VT.Valid;
    WindowSpells(v.hist + v.buf, Canvas(v.Abs()), v.cols, oy, vrows);
  }

  lemma SliceStep<T>(all: seq<T>, from: nat, i: nat)
    requires from <= i < |all|
    ensures all[from..i + 1] == all[from..i] + [all[i]]
  {
  }

  lemma WindowIs<T>(all: seq<T>, oy: nat, vrows: nat, r: nat)
    requires r <= vrows && oy + r <= |all| && (r == vrows || oy + r == |all|)
    ensures Window(all, oy, vrows) == all[oy..oy + r]
  {
  }

  class ScrollRenderer {
    var follow: bool
    var anchor: int
    var lastMaxOy: nat
    var lastOy: nat

    function Abs(): View
      reads this
    {
      View(follow, anchor, lastMaxOy, lastOy)
    }

    constructor ()
      ensures Abs() == INITIAL
    {
      follow, anchor, lastMaxOy, lastOy := true, 0, 0, 0;
    }

    method FollowBottom()
      modifies `follow
      ensures follow
    {
      follow := true;
    }

    method Scroll(dy: int)
      modifies `follow, `anchor
      ensures Abs() == ScrollBy(old(Abs()), dy)
    {
      if dy == 0 {
        return;
      }
      if follow {
        if dy < 0 {
          anchor := lastMaxOy + dy;
          if anchor < 0 {
            anchor := 0;
          }
          follow := false;
        }
        return;
      }
      anchor := anchor + dy;
      if anchor >= lastMaxOy {
        follow := true;
      } else if anchor < 0 {
        anchor := 0;
      }
    }

    /** The rows in view, by reference, after settling the position. */
    method ViewCells(hist: seq<array<Cell>>, vis: seq<array<Cell>>, vrows: nat) returns (out: seq<array<Cell>>)
      modifies this
      ensures Abs() == Place(old(Abs()), |hist| + |vis|, vrows)
      ensures out == Window(hist + vis, lastOy, vrows)
    {
      hide Window;
      var total := |hist| + |vis|;
      var maxOy: int := total - vrows;
      if maxOy < 0 {
        maxOy := 0;
      }
      lastMaxOy := maxOy;
      var oy: int;
      if follow {
        oy := maxOy;
      } else {
        oy := anchor;
        if oy >= maxOy {
          oy := maxOy;
          follow := true;
        } else if oy < 0 {
          oy := 0;
        }
        anchor := oy;
      }
      lastOy := oy;
      assert Abs() == Place(old(Abs()), total, vrows);
      out := [];
      ghost var all := hist + vis;
      var r := 0;
      while r < vrows && oy + r < total
        invariant r <= vrows && oy + r <= total
        invariant Abs() == Place(old(Abs()), total, vrows) && lastOy == oy
        invariant |all| == total && out == all[oy..oy + r]
      {
        var i := oy + r;
        SliceStep(all, oy, i);
        out := out + [if i < |hist| then hist[i] else vis[i - |hist|]];
        r := r + 1;
      }
      WindowIs(all, oy, vrows, r);
    }

    /** Prints one row. */
    method AppendRow(row: array<Cell>, vcols: nat) returns (b: seq<Byte>)
      ensures b == RowBytes(row[..], 0, vcols, true, PLAIN)
    {
      hide StyleBytes, Encode, SgrBytes, RowBytes;
      b := [];
      var cur := PLAIN;
      var first := true;
      var x := 0;
      while x < vcols
        invariant x <= vcols
        invariant b + RowBytes(row[..], x, vcols, first, cur) == RowBytes(row[..], 0, vcols, true, PLAIN)
      {
        var ch := EMPTY;
        if x < row.Length {
          ch := row[x];
        }
        RowBytesStep(row[..], x, vcols, first, cur, b);
        if !ch.cont {
          var st := PrintedStyle(ch);
          if first || st != cur {
            b := b + StyleBytes(st);
            cur := st;
            first := false;
          }
          b := b + Encode(PrintedRune(ch));
        }
        x := x + 1;
      }
      RowBytesEnd(row[..], vcols, first, cur);
      b := b + SgrBytes([0]);
    }

    /** Prints the rows, separated by CR LF. */
    method AppendRows(rows: seq<array<Cell>>, ghost lines: seq<Row>, vcols: nat) returns (b: seq<Byte>)
      requires |rows| == |lines| && forall i | 0 <= i < |rows| :: rows[i][..] == lines[i]
      ensures b == RowsBytes(lines, 0, vcols)
    {
      b := [];
      var i := 0;
      while i < |rows|
        invariant i <= |rows|
        invariant b + RowsBytes(lines, i, vcols) == RowsBytes(lines, 0, vcols)
      {
        var text := AppendRow(rows[i], vcols);
        ghost var before, rest := b, RowsBytes(lines, i + 1, vcols);
        ghost var separator := if i + 1 < |rows| then NEWLINE else [];
        b := b + text;
        if i + 1 < |rows| {
          b := b + NEWLINE;
        }
        assert b == before + text + separator;
        assert before + (text + separator + rest) == b + rest;
        i := i + 1;
      }
      assert b + [] == b;
    }

    /** The frame for the model `v`, read through the references it shares. */
    method RenderANSI(v: VT, vrows: nat, vcols: nat) returns (out: seq<Byte>)
      requires v.Valid()
      modifies this
      ensures Abs() == Placed(old(Abs()), v.Abs(), vrows)
      ensures out == Render(old(Abs()), v.Abs(), vrows, vcols)
    {
      hide RowsBytes, Window, VT.GridValid, VT.HistValid, Opening, Closing, CsiBytes, Numerals;
      assert |v.hist| + |v.buf| == |Canvas(v.Abs())| by { WindowReads(v, 0, 0); }
      var rows := ViewCells(v.hist, v.buf, vrows);
      ghost var lines := Window(Canvas(v.Abs()), lastOy, vrows);
      WindowReads(v, lastOy, vrows);
      out := Opening();
      var text := AppendRows(rows, lines, vcols);
      out := out + text;
      var cur := |v.hist| + v.cy;
      var crow := cur - lastOy + 1;
      var ccol := v.cx + 1;
      ghost var top := out;
      if 1 <= crow <= vrows {
        if ccol > vcols {
          ccol := vcols;
        }
        out := out + CsiBytes(false, Numerals([crow, ccol]), 0x48);
        out := out + CsiBytes(true, Numerals([25]), 0x68);
        assert out == top + (CsiBytes(false, Numerals([crow, ccol]), 0x48) + CsiBytes(true, Numerals([25]), 0x68));
      } else {
        assert out == top + [];
      }
      out := out + Closing();
    }
  }
}
