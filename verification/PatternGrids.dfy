/** The pattern grid: a window of decoder cells, row by row, refilled in place and copied to the renderer. */
module PatternGrids {
  import opened Arithmetic
  import opened Wrappers

  datatype Kind = NoteColumn | InstrumentColumn | VolumeColumn | EffectColumn | ParamColumn | CustomColumn

  datatype Class = Empty | Note | NoteOff | Instrument | Volume | Effect | Param | Custom

  type Byte = b: nat | b < 256

  const NO_BYTES: seq<Byte> := [0, 0, 0, 0, 0, 0, 0, 0, 0, 0, 0, 0, 0, 0, 0, 0]

  /** A decoder's cell text: sixteen bytes, padded with zeros. */
  type Text = t: seq<Byte> | |t| == 16 witness NO_BYTES

  datatype Column = Column(width: nat, kind: Kind)

  datatype Cell = Cell(holds: Class, text: Text)

  const BLANK := Cell(Empty, NO_BYTES)

  predicate BlankByte(b: Byte) { b == 0 || b == '.' as int || b == ' ' as int || b == '-' as int }

  function ClassOf(kind: Kind, text: Text): Class {
    if forall b <- text :: BlankByte(b) then Empty
    else match kind
         case NoteColumn =>
           if text[0] == '=' as int || text[0] == '^' as int || text[0] == '~' as int || text[0] == '#' as int then NoteOff
           else Note
         case InstrumentColumn => Instrument
         case VolumeColumn => Volume
         case EffectColumn => Effect
         case ParamColumn => Param
         case CustomColumn => Custom
  }

  /**
   A cell is empty exactly if it has no byte but zeros, dots, spaces and dashes, a note-off exactly if it is a note
   cell beginning with one of the four marks, and else what its column holds.
   */
  lemma ClassExactly(kind: Kind, text: Text)
    ensures ClassOf(kind, text) == Empty <==>
              forall i :: 0 <= i < 16 ==> text[i] == 0 || text[i] == '.' as int || text[i] == ' ' as int || text[i] == '-' as int
    ensures ClassOf(kind, text) == NoteOff <==>
              && kind == NoteColumn
              && (text[0] == '=' as int || text[0] == '^' as int || text[0] == '~' as int || text[0] == '#' as int)
    ensures ClassOf(kind, text) == Note ==> kind == NoteColumn
    ensures ClassOf(kind, text) == Instrument ==> kind == InstrumentColumn
    ensures ClassOf(kind, text) == Volume ==> kind == VolumeColumn
    ensures ClassOf(kind, text) == Effect ==> kind == EffectColumn
    ensures ClassOf(kind, text) == Param ==> kind == ParamColumn
    ensures ClassOf(kind, text) == Custom ==> kind == CustomColumn
  {
    assert (forall b <- text :: BlankByte(b)) <==> forall i :: 0 <= i < 16 ==> BlankByte(text[i]);
  }

  // ----- a window as a value -----

  /** What a grid shows: whole rows of `stride` cells, the first of them pattern row `windowLo`. */
  datatype Window = Window(stride: nat, windowLo: nat, rows: nat, cells: seq<Cell>)

  ghost predicate Whole(w: Window) { |w.cells| == w.rows * w.stride }

  function WholeRows(cells: nat, stride: nat): nat { if stride == 0 then 0 else cells / stride }

  /** The decoder's cell at `index` of a row-major window. */
  function Classified(columns: seq<Column>, source: seq<Text>, index: nat): Cell
    requires columns != [] && index < |source|
  {
    Cell(ClassOf(columns[index % |columns|].kind, source[index]), source[index])
  }

  /** What a grid of `capacity` cells shows once the window is loaded. */
  function LoadedWindow(columns: seq<Column>, channels: nat, capacity: nat, windowLo: nat, source: seq<Text>): Window {
    var stride := channels * |columns|;
    var rows := Min(WholeRows(|source|, stride), WholeRows(capacity, stride));
    if rows * stride <= |source| && columns != [] then
      Window(stride, windowLo, rows, seq(rows * stride, i requires 0 <= i < rows * stride => Classified(columns, source, i)))
    else Window(stride, windowLo, 0, [])
  }

  /** What a grid of `capacity` cells shows once another of the same layout is copied in. */
  function CopiedWindow(from: Window, capacity: nat): Window {
    var n := Min(|from.cells|, capacity);
    var rows := WholeRows(n, from.stride);
    RowsFit(n, from.stride);
    Window(from.stride, from.windowLo, rows, from.cells[..rows * from.stride])
  }

  /** The cell a renderer is given for column `c` of pattern row `row`. */
  function Shown(w: Window, row: nat, c: nat): Cell
    requires Whole(w) && c < w.stride
  {
    if w.windowLo <= row < w.windowLo + w.rows then
      IndexInside(row - w.windowLo, c, w.rows, w.stride);
      w.cells[At(row - w.windowLo, c, w.stride)]
    else BLANK
  }

  // ----- row-major indices -----

  /** Where column `c` of row `r` lies. */
  function At(r: nat, c: nat, stride: nat): nat { r * stride + c }

  lemma IndexInside(r: nat, c: nat, rows: nat, stride: nat)
    requires r < rows && c < stride
    ensures At(r, c, stride) < rows * stride
  {
    assert (r + 1) * stride <= rows * stride;
  }

  lemma RowsFit(cells: nat, stride: nat)
    ensures WholeRows(cells, stride) * stride <= cells
    ensures stride > 0 ==> cells < (WholeRows(cells, stride) + 1) * stride
  {
  }

  lemma RowsOfWhole(rows: nat, stride: nat)
    requires stride > 0
    ensures WholeRows(rows * stride, stride) == rows
  {
    var q := WholeRows(rows * stride, stride);
    RowsFit(rows * stride, stride);
    Cancel(stride, q, rows + 1);
    Cancel(stride, rows, q + 1);
  }

  lemma MoreRows(a: nat, b: nat, stride: nat)
    requires a <= b
    ensures a * stride <= b * stride
  {
  }

  lemma ModOfSum(a: nat, n: nat, k: nat)
    requires k < n
    ensures (a * n + k) % n == k
  {
    var x := a * n + k;
    var q, r := x / n, x % n;
    assert x == q * n + r;
    Cancel(n, q, a + 1);
    Cancel(n, a, q + 1);
  }

  /** Row by row, channel by channel, column by column: a cell's column is its place in its channel. */
  lemma ColumnOfIndex(r: nat, channels: nat, n: nat, ch: nat, k: nat)
    requires ch < channels && k < n
    ensures ch * n + k < channels * n
    ensures (r * (channels * n) + (ch * n + k)) % n == k
  {
    IndexInside(ch, k, channels, n);
    assert r * (channels * n) + (ch * n + k) == (r * channels + ch) * n + k by { Regroup(r, channels, n, ch); }
    ModOfSum(r * channels + ch, n, k);
  }

  lemma Regroup(r: nat, channels: nat, n: nat, ch: nat)
    ensures r * (channels * n) + ch * n == (r * channels + ch) * n
  {
    assert r * (channels * n) == r * channels * n;
  }

  lemma LoadedIsWhole(columns: seq<Column>, channels: nat, capacity: nat, windowLo: nat, source: seq<Text>)
    ensures var w := LoadedWindow(columns, channels, capacity, windowLo, source);
            && Whole(w) && w.stride == channels * |columns| && w.windowLo == windowLo
            && w.rows == Min(WholeRows(|source|, w.stride), WholeRows(capacity, w.stride))
            && |w.cells| <= capacity && |w.cells| <= |source| && (w.stride == 0 ==> w.rows == 0)
  {
    var stride := channels * |columns|;
    var rows := Min(WholeRows(|source|, stride), WholeRows(capacity, stride));
    RowsFit(|source|, stride);
    RowsFit(capacity, stride);
    MoreRows(rows, WholeRows(|source|, stride), stride);
    MoreRows(rows, WholeRows(capacity, stride), stride);
  }

  lemma LoadedCell(columns: seq<Column>, channels: nat, capacity: nat, windowLo: nat, source: seq<Text>, i: nat)
    requires columns != [] && i < |source| && i < |LoadedWindow(columns, channels, capacity, windowLo, source).cells|
    ensures LoadedWindow(columns, channels, capacity, windowLo, source).cells[i] == Classified(columns, source, i)
  {
    hide Classified;
  }

  /** A copy into a grid no smaller is the same window; into a smaller one, its leading whole rows. */
  lemma CopyKeepsWhatFits(from: Window, capacity: nat)
    requires Whole(from) && (from.stride == 0 ==> from.rows == 0)
    ensures from.rows * from.stride <= capacity ==> CopiedWindow(from, capacity) == from
    ensures CopiedWindow(from, capacity).rows == Min(from.rows, WholeRows(capacity, from.stride))
  {
    if from.stride > 0 {
      RowsOfWhole(from.rows, from.stride);
      RowsFit(capacity, from.stride);
      if from.rows * from.stride <= capacity {
        assert from.cells[..|from.cells|] == from.cells;
        Cancel(from.stride, from.rows, WholeRows(capacity, from.stride) + 1);
      } else {
        Cancel(from.stride, WholeRows(capacity, from.stride), from.rows);
      }
    }
  }

  /**
   Load a window, copy it to a grid of the same size, and ask for any cell of any row: inside the window
   it is the decoder's cell, classified by its own column; outside, a blank.
   */
  lemma RendererSeesTheDecoder(columns: seq<Column>, channels: nat, capacity: nat, windowLo: nat, source: seq<Text>,
                               row: nat, ch: nat, k: nat)
    requires ch < channels && k < |columns|
    ensures var loaded := LoadedWindow(columns, channels, capacity, windowLo, source);
            var copied := CopiedWindow(loaded, capacity);
            var c := ch * |columns| + k;
            var index := At(if windowLo <= row then row - windowLo else 0, c, channels * |columns|);
            && Whole(copied) && c < copied.stride
            && (windowLo <= row < windowLo + loaded.rows ==>
                  index < |source|
                  && Shown(copied, row, c) == Cell(ClassOf(columns[k].kind, source[index]), source[index]))
            && (!(windowLo <= row < windowLo + loaded.rows) ==> Shown(copied, row, c) == BLANK)
  {
    hide ClassOf, LoadedWindow, CopiedWindow;
    var loaded := LoadedWindow(columns, channels, capacity, windowLo, source);
    LoadedIsWhole(columns, channels, capacity, windowLo, source);
    CopyKeepsWhatFits(loaded, capacity);
    ColumnOfIndex(if windowLo <= row then row - windowLo else 0, channels, |columns|, ch, k);
    if windowLo <= row < windowLo + loaded.rows {
      var c := ch * |columns| + k;
      IndexInside(row - windowLo, c, loaded.rows, loaded.stride);
      LoadedCell(columns, channels, capacity, windowLo, source, At(row - windowLo, c, loaded.stride));
    }
  }

  function RowCells(w: Window, row: nat): (cells: seq<Cell>)
    requires Whole(w)
    ensures |cells| == w.stride
  {
    seq(w.stride, c requires 0 <= c < w.stride => Shown(w, row, c))
  }

  /** Rows `lo` to `lo + n`, one after another. */
  function Block(w: Window, lo: nat, n: nat): seq<Cell>
    requires Whole(w)
  {
    if n == 0 then [] else Block(w, lo, n - 1) + RowCells(w, lo + n - 1)
  }

  /** A block holds row `lo + r` of the window as its row `r`. */
  lemma {:induction false} BlockAt(w: Window, lo: nat, n: nat, r: nat, c: nat)
    requires Whole(w) && r < n && c < w.stride
    ensures |Block(w, lo, n)| == n * w.stride
    ensures At(r, c, w.stride) < n * w.stride && Block(w, lo, n)[At(r, c, w.stride)] == Shown(w, lo + r, c)
    decreases n
  {
    hide Shown;
    BlockLength(w, lo, n);
    BlockLength(w, lo, n - 1);
    IndexInside(r, c, n, w.stride);
    if r < n - 1 {
      BlockAt(w, lo, n - 1, r, c);
    } else {
      assert At(r, c, w.stride) - (n - 1) * w.stride == c;
    }
  }

  lemma {:induction false} BlockLength(w: Window, lo: nat, n: nat)
    requires Whole(w)
    ensures |Block(w, lo, n)| == n * w.stride
    decreases n
  {
    if n > 0 {
      BlockLength(w, lo, n - 1);
      assert n * w.stride == (n - 1) * w.stride + w.stride;
    }
  }

  lemma OneMoreRow(i: nat, n: nat, stride: nat)
    requires i < n
    ensures At(i + 1, 0, stride) == At(i, 0, stride) + stride <= At(n, 0, stride)
  {
    MoreRows(i + 1, n, stride);
  }

  lemma FirstRow(stride: nat)
    ensures At(0, 0, stride) == 0
  {
  }

  lemma RowsInside(n: nat, length: nat, stride: nat)
    requires n <= WholeRows(length, stride)
    ensures At(n, 0, stride) == n * stride <= length
  {
    RowsFit(length, stride);
    MoreRows(n, WholeRows(length, stride), stride);
  }

  lemma BlockStart(w: Window, lo: nat)
    requires Whole(w)
    ensures Block(w, lo, 0) == []
  {
  }

  lemma BlockStep(w: Window, lo: nat, n: nat)
    requires Whole(w)
    ensures Block(w, lo, n + 1) == Block(w, lo, n) + RowCells(w, lo + n)
  {
  }

  /** The first `done` cells are the block, and the rest are as they were. */
  ghost predicate Overwrites(out: seq<Cell>, was: seq<Cell>, done: nat, block: seq<Cell>) {
    done <= |out| == |was| && out[..done] == block && out[done..] == was[done..]
  }

  lemma RowDrawn(before: seq<Cell>, after: seq<Cell>, was: seq<Cell>, done: nat, block: seq<Cell>, row: seq<Cell>)
    requires Overwrites(before, was, done, block) && |after| == |before| && done + |row| <= |before|
    requires after[..done + |row|] == before[..done] + row && after[done + |row|..] == before[done + |row|..]
    ensures Overwrites(after, was, done + |row|, block + row)
  {
    assert before[done + |row|..] == before[done..][|row|..] == was[done..][|row|..] == was[done + |row|..];
  }

  lemma OutsideIsBlank(w: Window, row: nat)
    requires Whole(w)
    ensures !(w.windowLo <= row < w.windowLo + w.rows) ==> RowCells(w, row) == seq(w.stride, c => BLANK)
  {
  }

  /** Overwrites one row's cells in place. */
  method PutRow(out: array<Cell>, start: nat, stride: nat, cells: seq<Cell>)
    requires |cells| == stride && start + stride <= out.Length
    modifies out
    ensures out[..start + stride] == old(out[..start]) + cells
    ensures out[start + stride..] == old(out[start + stride..])
  {
    forall c | 0 <= c < stride {
      out[start + c] := cells[c];
    }
    assert out[start..start + stride] == cells;
    assert out[..start + stride] == out[..start] + out[start..start + stride];
  }

  // ----- the grid -----

  /** Where a capture says the song is: the pattern, the playing row, and the rows its cells cover. */
  datatype Position = Position(pattern: nat, row: nat, windowLo: nat, windowHi: nat)

  function Key(p: Position): (nat, nat, nat) { (p.pattern, p.windowLo, p.windowHi) }

  /** What a grid shows, and which window its cells were taken from. */
  datatype Display = Display(window: Window, key: Option<(nat, nat, nat)>)

  /** A grid after a capture: cleared without a position, reloaded when the window moved, otherwise as it was. */
  function Filled(d: Display, columns: seq<Column>, channels: nat, capacity: nat,
                  position: Option<Position>, source: seq<Text>): Display
  {
    match position
    case None => Display(Window(d.window.stride, d.window.windowLo, 0, []), None)
    case Some(p) =>
      if d.key == Some(Key(p)) then d
      else Display(LoadedWindow(columns, channels, capacity, p.windowLo, source), Some(Key(p)))
  }

  /** Of two captures in a row, the second reloads the cells exactly if it is in another pattern or covers other rows. */
  lemma ReloadsExactly(d: Display, columns: seq<Column>, channels: nat, capacity: nat, p: Position, source: seq<Text>,
                       p': Position, source': seq<Text>)
    ensures var first := Filled(d, columns, channels, capacity, Some(p), source);
            var second := Filled(first, columns, channels, capacity, Some(p'), source');
            if p'.pattern == p.pattern && p'.windowLo == p.windowLo && p'.windowHi == p.windowHi then second == first
            else second.window == LoadedWindow(columns, channels, capacity, p'.windowLo, source')
  {
    hide LoadedWindow;
  }

  /** After a capture that finds no position nothing is shown, and the next position reloads the cells, the same one even. */
  lemma NoPositionForgets(d: Display, columns: seq<Column>, channels: nat, capacity: nat, lost: seq<Text>,
                          p: Position, source: seq<Text>)
    ensures var cleared := Filled(d, columns, channels, capacity, None, lost);
            && cleared.window.rows == 0 && cleared.window.cells == []
            && Filled(cleared, columns, channels, capacity, Some(p), source).window
               == LoadedWindow(columns, channels, capacity, p.windowLo, source)
  {
    hide LoadedWindow;
  }

  lemma ColumnsThere(channels: nat, n: nat)
    requires channels * n > 0
    ensures n > 0
  {
  }

  /** Columns side by side, a space between each two. */
  function TextWidth(columns: seq<Column>): nat {
    if columns == [] then 0
    else TextWidth(columns[..|columns| - 1]) + columns[|columns| - 1].width + if |columns| > 1 then 1 else 0
  }

  /** So `n` columns of one width take as many characters as their cells and the spaces between them. */
  lemma {:induction false} TextWidthOfAlike(columns: seq<Column>, width: nat)
    requires forall c <- columns :: c.width == width
    ensures TextWidth(columns) == if columns == [] then 0 else |columns| * width + |columns| - 1
    decreases |columns|
  {
    if columns != [] {
      var n := |columns| - 1;
      TextWidthOfAlike(columns[..n], width);
      assert (n + 1) * width == n * width + width;
    }
  }

  class PatternGrid {
    const columns: seq<Column>
    const channels: nat
    const cells: array<Cell>
    var rows: nat
    var windowLo: nat
    var cursor: nat
    /** The pattern and window the cells were copied from, if any. */
    var key: Option<(nat, nat, nat)>

    ghost predicate Valid()
      reads this
    {
      rows * Stride() <= cells.Length && (Stride() == 0 ==> rows == 0)
    }

    function Stride(): nat { channels * |columns| }

    function Shows(): Window
      requires Valid()
      reads this, cells
    {
      Window(Stride(), windowLo, rows, cells[..rows * Stride()])
    }

    /** How many leading columns fit in `chars` characters with a space between them: one at the least. */
    method ColumnsFitting(chars: nat) returns (fit: nat)
      ensures fit <= |columns| && (columns != [] ==> fit >= 1)
      ensures fit > 1 ==> TextWidth(columns[..fit]) <= chars
      ensures fit < |columns| ==> TextWidth(columns[..fit + 1]) > chars
    {
      fit := 0;
      var used := 0;
      while fit < |columns|
        invariant fit <= |columns| && used == TextWidth(columns[..fit])
        invariant fit > 1 ==> used <= chars
      {
        assert columns[..fit + 1][..fit] == columns[..fit];
        var need := columns[fit].width + if fit > 0 then 1 else 0;
        if fit > 0 && used + need > chars {
          break;
        }
        used := used + need;
        fit := fit + 1;
      }
    }

    constructor (channels: nat, columns: seq<Column>, rowBudget: nat)
      ensures Valid() && fresh(cells) && cells.Length == rowBudget * (channels * |columns|)
      ensures this.channels == channels && this.columns == columns
      ensures Shows() == Window(channels * |columns|, 0, 0, []) && key.None? && cursor == 0
    {
      this.channels, this.columns := channels, columns;
      cells := new Cell[rowBudget * (channels * |columns|)](_ => BLANK);
      rows, windowLo, cursor, key := 0, 0, 0, None;
    }

    /** The cells of a pattern row, or nothing outside the window. */
    method Row(row: nat) returns (r: Option<seq<Cell>>)
      requires Valid()
      ensures r.Some? <==> windowLo <= row < windowLo + rows
      ensures r.Some? ==> r.value == RowCells(Shows(), row)
    {
      if row < windowLo || row - windowLo >= rows {
        return None;
      }
      var index := row - windowLo;
      MoreRows(index + 1, rows, Stride());
      assert (index + 1) * Stride() == index * Stride() + Stride();
      r := Some(cells[index * Stride()..(index + 1) * Stride()]);
      forall c | 0 <= c < Stride() ensures r.value[c] == Shown(Shows(), row, c) {
        IndexInside(index, c, rows, Stride());
      }
    }

    /** Loads a window's whole rows, as many as fit. */
    method Load(windowLo: nat, cursor: nat, source: seq<Text>)
      requires Valid()
      modifies this`windowLo, this`cursor, this`rows, cells
      ensures Valid()
      ensures Shows() == LoadedWindow(columns, channels, cells.Length, windowLo, source)
      ensures this.cursor == cursor
    {
      hide ClassOf, Classified, LoadedWindow, WholeRows;
      this.cursor := cursor;
      this.windowLo := windowLo;
      var stride := Stride();
      LoadedIsWhole(columns, channels, cells.Length, windowLo, source);
      rows := Min(WholeRows(|source|, stride), WholeRows(cells.Length, stride));
      ghost var loaded := LoadedWindow(columns, channels, cells.Length, windowLo, source);
      if rows * stride > 0 {
        ColumnsThere(channels, |columns|);
        Classify(rows * stride, source);
      }
      forall i | 0 <= i < rows * stride ensures cells[i] == loaded.cells[i] {
        LoadedCell(columns, channels, cells.Length, windowLo, source, i);
      }
    }

    /** Puts the first `n` of a decoder's cells, each with its column's class. */
    method Classify(n: nat, source: seq<Text>)
      requires columns != [] && n <= |source| && n <= cells.Length
      modifies cells
      ensures forall i :: 0 <= i < n ==> cells[i] == Classified(columns, source, i)
    {
      hide ClassOf;
      for i := 0 to n
        invariant forall k :: 0 <= k < i ==> cells[k] == Classified(columns, source, k)
      {
        var kind := columns[i % |columns|].kind;
        cells[i] := Cell(ClassOf(kind, source[i]), source[i]);
      }
    }

    /** Takes a capture: the cursor always, the cells only when the window moved. */
    method FillFrom(position: Option<Position>, source: seq<Text>) returns (changed: bool)
      requires Valid()
      modifies this, cells
      ensures Valid()
      ensures Display(Shows(), key) == Filled(old(Display(Shows(), key)), columns, channels, cells.Length, position, source)
      ensures !changed ==> Shows() == old(Shows())
      ensures position.None? ==> (changed <==> old(rows) > 0) && rows == 0
      ensures position.Some? ==>
                var p := position.value;
                && (changed <==> old(key) != Some((p.pattern, p.windowLo, p.windowHi)))
                && key == Some((p.pattern, p.windowLo, p.windowHi))
                && (changed ==> Shows() == LoadedWindow(columns, channels, cells.Length, p.windowLo, source))
      ensures position.Some? ==> cursor == position.value.row
    {
      if position.None? {
        changed := rows > 0;
        rows := 0;
        key := None;
        return;
      }
      cursor := position.value.row;
      if key == Some(Key(position.value)) {
        return false;
      }
      key := Some(Key(position.value));
      Load(position.value.windowLo, position.value.row, source);
      changed := true;
    }

    /** Takes another grid's window, as much of it as fits. */
    method CopyFrom(other: PatternGrid)
      requires Valid() && other.Valid() && cells != other.cells && other != this
      requires columns == other.columns && channels == other.channels
      modifies this, cells
      ensures Valid()
      ensures Shows() == CopiedWindow(other.Shows(), cells.Length)
      ensures cursor == other.cursor && key == other.key
    {
      var stride := Stride();
      var n := Min(other.rows * stride, cells.Length);
      forall i | 0 <= i < n {
        cells[i] := other.cells[i];
      }
      assert cells[..n] == other.cells[..n];
      RowsFit(n, stride);
      rows := WholeRows(n, stride);
      windowLo, cursor, key := other.windowLo, other.cursor, other.key;
      assert cells[..rows * stride] == other.Shows().cells[..rows * stride];
    }

    /** Writes one pattern row, or blanks for it, into `out` from `start` on. */
    method DrawRow(row: nat, out: array<Cell>, start: nat)
      requires Valid() && out != cells && start + Stride() <= out.Length
      modifies out
      ensures out[..start + Stride()] == old(out[..start]) + RowCells(Shows(), row)
      ensures out[start + Stride()..] == old(out[start + Stride()..])
    {
      hide Shown, RowCells, At, Stride;
      var source := Row(row);
      OutsideIsBlank(Shows(), row);
      PutRow(out, start, Stride(), if source.Some? then source.value else seq(Stride(), c => BLANK));
    }

    /** Writes rows `lo..hi` into `out`, whole rows only: the window's cells, and blanks outside it. */
    method CopyRows(lo: nat, hi: nat, out: array<Cell>) returns (written: nat)
      requires Valid() && out != cells
      modifies out
      ensures var n := if Stride() == 0 || hi <= lo then 0 else Min(hi - lo, WholeRows(out.Length, Stride()));
              written == n * Stride() <= out.Length && out[..written] == Block(Shows(), lo, n)
      ensures out[written..] == old(out[written..])
    {
      hide WholeRows, Shown, Block, RowCells, At, Stride;
      var stride := Stride();
      ghost var w := Shows();
      BlockStart(w, lo);
      if stride == 0 || hi <= lo {
        return 0;
      }
      var n := Min(hi - lo, WholeRows(out.Length, stride));
      written := At(n, 0, stride);
      RowsInside(n, out.Length, stride);
      ghost var was := out[..];
      var done := 0;
      FirstRow(stride);
      for i := 0 to n
        invariant done == At(i, 0, stride) <= written <= out.Length
        invariant Shows() == w
        invariant Overwrites(out[..], was, done, Block(w, lo, i))
      {
        OneMoreRow(i, n, stride);
        ghost var before := out[..];
        DrawRow(lo + i, out, done);
        RowDrawn(before, out[..], was, done, Block(w, lo, i), RowCells(w, lo + i));
        BlockStep(w, lo, i);
        done := done + stride;
      }
    }
  }
}
