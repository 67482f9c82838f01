/** Input normalisation and layout arithmetic of `visutils/plot.py`: the depth
    of nested lists, default legends, broadcasting one line mode to every
    trace, the grid an image batch is laid out on, the one-hot visibility
    masks of the image slider, and the frames and slider steps of an
    animation.

    Figures are not built: `plot` returns the traces it would add, the image
    functions return cells, masks and frame names. Arrays are known only by
    their shape. */
module Plot {
  import opened PyResult
  import opened Arith

  // ---------------------------------------------------------------------------
  // __listdepth__

  /** A Python value as `__listdepth__` sees it: a list or tuple of values,
      or anything whose `[0]` raises (a number, `None`). */
  datatype PyValue = Atom | List(items: seq<PyValue>)

  /** `__listdepth__`: follow first elements until `x[0]` raises, counting the
      steps; an empty list raises too. */
  function ListDepth(x: PyValue): (d: nat)
    ensures d == 0 <==> x.Atom? || x.items == []
  {
    match x
    case Atom => 0
    case List(items) => if |items| == 0 then 0 else ListDepth(items[0]) + 1
  }

  /** `d` levels of single-element lists around `leaf`. */
  function Nest(d: nat, leaf: PyValue): PyValue
    decreases d
  {
    if d == 0 then leaf else List([Nest(d - 1, leaf)])
  }

  /** Nesting a value of depth 0 `d` times gives depth exactly `d`. */
  lemma {:induction false} NestDepth(d: nat, leaf: PyValue)
    requires ListDepth(leaf) == 0
    ensures ListDepth(Nest(d, leaf)) == d
    decreases d
  {
    if d > 0 {
      var inner := Nest(d - 1, leaf);
      NestDepth(d - 1, leaf);
      assert ListDepth(List([inner])) == ListDepth(inner) + 1;
    }
  }

  /** The depth only looks down the first-element chain: any list whose first
      element is `Nest(d, Atom)` has depth `d + 1`, whatever else it holds. */
  lemma FirstElementDecidesDepth(d: nat, rest: seq<PyValue>)
    ensures ListDepth(List([Nest(d, Atom)] + rest)) == d + 1
  {
    NestDepth(d, Atom);
  }

  // ---------------------------------------------------------------------------
  // __legend__ and Singleton

  /** A legend entry: a caller-supplied value or the default trace number. */
  datatype Label = Name(name: string) | Number(n: int)

  /** The `legend` argument: absent, a list, a tuple, or something else. */
  datatype LegendArg = NoLegend | ListLegend(entries: seq<Label>) | TupleLegend(entries: seq<Label>) | OtherLegend

  /** `__legend__`: a supplied legend is returned unchanged and must be a list
      or tuple; the default is `range(1, size + 1)`. */
  function Legend(arg: LegendArg, size: nat): (r: Result<seq<Label>>)
    ensures r.Err? <==> arg.OtherLegend?
    ensures r.Err? ==> r.error == AssertionError
    ensures (arg.ListLegend? || arg.TupleLegend?) ==> r == Ok(arg.entries)
    ensures arg.NoLegend? ==> r.Ok? && |r.value| == size && forall i :: 0 <= i < size ==> r.value[i] == Number(i + 1)
  {
    match arg
    case NoLegend => Ok(seq(size, i => Number(i + 1)))
    case ListLegend(e) => Ok(e)
    case TupleLegend(e) => Ok(e)
    case OtherLegend => Err(AssertionError)
  }

  /** The `mode` argument: a list or tuple of modes, one per trace, or a single
      mode that `plot` wraps in a `Singleton`. */
  datatype ModeArg = ModeList(modes: seq<string>) | OneMode(mode: string)

  /** `mode[i]`: a `Singleton` answers every index with its value; a list
      raises `IndexError` past its end. `plot` only indexes the mode, so
      `Singleton.__next__` is never reached. */
  function ModeAt(arg: ModeArg, i: nat): (r: Result<string>)
    ensures arg.OneMode? ==> r == Ok(arg.mode)
    ensures arg.ModeList? ==> (r.Ok? <==> i < |arg.modes|)
    ensures arg.ModeList? && i < |arg.modes| ==> r.value == arg.modes[i]
    ensures r.Err? ==> r.error == IndexError
  {
    match arg
    case OneMode(m) => Ok(m)
    case ModeList(ms) => if i < |ms| then Ok(ms[i]) else Err(IndexError)
  }

  // ---------------------------------------------------------------------------
  // plot

  /** An `x` or `y` argument of `plot`: a NumPy array, known by its shape, or
      a list or tuple of values. */
  datatype Series = Array(shape: seq<nat>) | Items(items: seq<PyValue>)

  /** The input normalisation of `plot`: two arrays must have the same shape
      and a 1-D array gains a leading axis; two lists must have the same depth,
      1 or 2, and depth-1 lists are wrapped in a one-element list. Any other
      combination passes through. */
  function Normalise(x: Series, y: Series): (r: Result<(Series, Series)>)
    ensures x.Array? && y.Array? ==>
              && (r.Ok? <==> x.shape == y.shape)
              && (r.Ok? ==> r.value.0 == r.value.1 && r.value.0.Array?)
              && (r.Ok? && |x.shape| == 1 ==> r.value.0.shape == [1] + x.shape)
              && (r.Ok? && |x.shape| != 1 ==> r.value == (x, y))
    ensures x.Items? && y.Items? ==>
              && (r.Ok? <==> ListDepth(List(x.items)) == ListDepth(List(y.items)) && 0 < ListDepth(List(x.items)) < 3)
              && (r.Ok? ==> r.value.0.Items? && r.value.1.Items?
                            && ListDepth(List(r.value.0.items)) == 2 == ListDepth(List(r.value.1.items)))
              && (r.Ok? && ListDepth(List(x.items)) == 1 ==> r.value == (Items([List(x.items)]), Items([List(y.items)])))
              && (r.Ok? && ListDepth(List(x.items)) == 2 ==> r.value == (x, y))
    ensures x.Array? != y.Array? ==> r == Ok((x, y))
    ensures r.Err? ==> r.error == AssertionError
  {
    match (x, y)
    case (Array(sx), Array(sy)) =>
      if sx != sy then Err(AssertionError)
      else if |sx| == 1 then Ok((Array([1] + sx), Array([1] + sy)))
      else Ok((x, y))
    case (Items(xs), Items(ys)) =>
      var xd := ListDepth(List(xs));
      var yd := ListDepth(List(ys));
      if xd != yd || !(0 < xd < 3) then Err(AssertionError)
      else if xd == 1 then Ok((Items([List(xs)]), Items([List(ys)])))
      else Ok((x, y))
    case _ => Ok((x, y))
  }

  /** `len(x)`: the leading dimension of an array (a 0-d array has none), the
      length of a list. */
  function Len(s: Series): (r: Result<nat>)
    ensures r.Err? <==> s.Array? && |s.shape| == 0
    ensures r.Ok? ==> r.value == (if s.Array? then s.shape[0] else |s.items|)
  {
    match s
    case Array(shape) => if |shape| == 0 then Err(TypeError) else Ok(shape[0])
    case Items(items) => Ok(|items|)
  }

  /** One trace `plot` adds: which row of `x`/`y` it draws, its mode and name. */
  datatype Trace = Trace(row: nat, mode: string, name: Label)

  /** The traces `plot(x, y, mode, legend)` adds, one for each row that `zip`
      pairs up, in order. */
  function Traces(x: Series, y: Series, mode: ModeArg, legend: LegendArg): (r: Result<seq<Trace>>)
    ensures r.Ok? ==> && Normalise(x, y).Ok?
                      && Len(Normalise(x, y).value.0).Ok?
                      && Len(Normalise(x, y).value.1).Ok?
                      && Legend(legend, Len(Normalise(x, y).value.0).value).Ok?
    ensures r.Ok? ==> var (x', y') := Normalise(x, y).value;
                      var names := Legend(legend, Len(x').value).value;
                      && |r.value| == Min(Len(x').value, Len(y').value)
                      && forall i :: 0 <= i < |r.value| ==>
                           && r.value[i].row == i
                           && Ok(r.value[i].mode) == ModeAt(mode, i)
                           && i < |names| && r.value[i].name == names[i]
    ensures r.Ok? <==>
              && Normalise(x, y).Ok?
              && Len(Normalise(x, y).value.0).Ok?
              && Len(Normalise(x, y).value.1).Ok?
              && Legend(legend, Len(Normalise(x, y).value.0).value).Ok?
              && var n := Len(Normalise(x, y).value.0).value;
                 var names := Legend(legend, n).value;
                 forall k :: 0 <= k < Min(n, Len(Normalise(x, y).value.1).value) ==> Drawable(mode, names, k)
    ensures Normalise(x, y).Err? ==> r == Err(AssertionError)
    ensures legend.OtherLegend? && Normalise(x, y).Ok? && Len(Normalise(x, y).value.0).Ok? ==> r == Err(AssertionError)
  {
    var (x', y') :- Normalise(x, y);
    var n :- Len(x');
    var names :- Legend(legend, n);
    var m :- Len(y');
    AddTraces(0, Min(n, m), mode, names)
  }

  /** Row `k` can be drawn: it has a mode and a name. */
  predicate Drawable(mode: ModeArg, names: seq<Label>, k: nat) {
    ModeAt(mode, k).Ok? && k < |names|
  }

  /** The loop of `plot`, from row `i` to row `count`. */
  function AddTraces(i: nat, count: nat, mode: ModeArg, names: seq<Label>): (r: Result<seq<Trace>>)
    requires i <= count
    ensures r.Ok? ==> |r.value| == count - i
                      && forall k :: 0 <= k < |r.value| ==>
                           && r.value[k].row == i + k
                           && Ok(r.value[k].mode) == ModeAt(mode, i + k)
                           && i + k < |names| && r.value[k].name == names[i + k]
    ensures r.Ok? <==> forall k :: i <= k < count ==> Drawable(mode, names, k)
    ensures r.Err? ==> r.error == IndexError
    decreases count - i
  {
    if i == count then Ok([])
    else if !Drawable(mode, names, i) then
      Err(IndexError)
    else
      match AddTraces(i + 1, count, mode, names)
      case Err(e) => Err(e)
      case Ok(rest) =>
        Ok([Trace(i, ModeAt(mode, i).value, names[i])] + rest)
  }

  /** A single mode (a string, not a list) is applied to every trace. */
  lemma {:induction false} OneModeBroadcast(x: Series, y: Series, m: string, legend: LegendArg)
    requires Traces(x, y, OneMode(m), legend).Ok?
    ensures forall t :: t in Traces(x, y, OneMode(m), legend).value ==> t.mode == m
  {
    var r := Traces(x, y, OneMode(m), legend).value;
    forall t | t in r
      ensures t.mode == m
    {
      var i :| 0 <= i < |r| && r[i] == t;
      assert Ok(r[i].mode) == ModeAt(OneMode(m), i);
    }
  }

  /** With a single mode and the default legend, `plot` succeeds whenever its
      input normalises and both inputs have a length: every row then has a
      mode and a name. */
  lemma OneModeDefaultLegendSucceeds(x: Series, y: Series, m: string)
    requires Normalise(x, y).Ok?
    requires Len(Normalise(x, y).value.0).Ok? && Len(Normalise(x, y).value.1).Ok?
    ensures Traces(x, y, OneMode(m), NoLegend).Ok?
    ensures |Traces(x, y, OneMode(m), NoLegend).value|
            == Min(Len(Normalise(x, y).value.0).value, Len(Normalise(x, y).value.1).value)
  {
    var n := Len(Normalise(x, y).value.0).value;
    var names := Legend(NoLegend, n).value;
    forall k | 0 <= k < Min(n, Len(Normalise(x, y).value.1).value)
      ensures Drawable(OneMode(m), names, k)
    {
    }
  }

  /** Two flat lists of the same length draw one trace, named 1 by default,
      through the wrapping of depth-1 input. */
  lemma FlatListsDrawOneTrace(xs: seq<PyValue>, ys: seq<PyValue>, m: string)
    requires |xs| > 0 && |ys| > 0
    requires forall k :: 0 <= k < |xs| ==> xs[k] == Atom
    requires forall k :: 0 <= k < |ys| ==> ys[k] == Atom
    ensures Traces(Items(xs), Items(ys), OneMode(m), NoLegend) == Ok([Trace(0, m, Number(1))])
  {
    assert ListDepth(List(xs)) == 1 && ListDepth(List(ys)) == 1;
    var x' := Items([List(xs)]);
    var y' := Items([List(ys)]);
    assert Normalise(Items(xs), Items(ys)) == Ok((x', y'));
    assert Len(x') == Ok(1) && Len(y') == Ok(1);
    var names := Legend(NoLegend, 1).value;
    assert names[0] == Number(1);
    assert names == [Number(1)];
    assert AddTraces(1, 1, OneMode(m), names) == Ok([]);
    assert [Trace(0, m, Number(1))] + [] == [Trace(0, m, Number(1))];
    assert AddTraces(0, 1, OneMode(m), names) == Ok([Trace(0, m, Number(1))]);
  }

  // ---------------------------------------------------------------------------
  // plot_image

  /** The batch shape `plot_image` works on: a 3-D image gains a leading
      axis, a 2-D image a leading and a trailing one. */
  function ImageBatchShape(shape: seq<nat>): (r: seq<nat>)
    ensures |shape| == 3 ==> r == [1] + shape
    ensures |shape| == 2 ==> r == [1] + shape + [1]
    ensures |shape| != 2 && |shape| != 3 ==> r == shape
    ensures |shape| >= 2 ==> |r| >= 4
  {
    if |shape| == 3 then [1] + shape
    else if |shape| == 2 then [1] + shape + [1]
    else shape
  }

  /** The least `g` with `g * g >= n`, searching upward from `g`. */
  function CeilSqrtFrom(n: nat, g: nat): (r: nat)
    requires g == 0 || (g - 1) * (g - 1) < n
    ensures r * r >= n
    ensures r == 0 || (r - 1) * (r - 1) < n
    decreases n - g
  {
    if g * g >= n then g
    else
      SquareAtLeast(g);
      CeilSqrtFrom(n, g + 1)
  }

  lemma SquareAtLeast(g: nat)
    ensures g * g >= g
  {
    if g > 0 {
      assert g * g == (g - 1) * g + g;
    }
  }

  /** `int(np.ceil(np.sqrt(n)))`, the side of the square grid. */
  function GridSide(n: nat): (g: nat)
    ensures g * g >= n
    ensures g == 0 || (g - 1) * (g - 1) < n
  {
    CeilSqrtFrom(n, 0)
  }

  /** Any `g` with the two defining properties is the grid side: the least one. */
  lemma GridSideUnique(n: nat, g: nat)
    requires g * g >= n && (g == 0 || (g - 1) * (g - 1) < n)
    ensures g == GridSide(n)
  {
    var h := GridSide(n);
    if g < h {
      assert g <= h - 1;
      MulMono(g, h - 1);
    } else if h < g {
      assert h <= g - 1;
      MulMono(h, g - 1);
    }
  }

  lemma MulMono(a: nat, b: nat)
    requires a <= b
    ensures a * a <= b * b
  {
    assert a * a <= a * b <= b * b;
  }

  /** The subplot cell `(row, col)` of image `i` on a `g`-by-`g` grid: the
      grid is filled column by column. */
  function Cell(i: nat, g: nat): (c: (nat, nat))
    requires g > 0
    ensures 1 <= c.0 <= g && 1 <= c.1
    ensures i < g * g ==> c.1 <= g
  {
    ColumnFits(i, g);
    (i % g + 1, i / g + 1)
  }

  /** Reading a cell back to the image it holds. */
  function CellIndex(c: (nat, nat), g: nat): int {
    (c.1 - 1) * g + (c.0 - 1)
  }

  lemma CellRoundTrip(i: nat, g: nat)
    requires g > 0
    ensures CellIndex(Cell(i, g), g) == i
  {
  }

  /** The cells of `plot_image` for an image batch of the given shape. A
      0-d array has no `shape[0]`. */
  function ImageCells(shape: seq<nat>): (r: Result<(nat, seq<(nat, nat)>)>)
    ensures r.Err? <==> |shape| == 0
    ensures r.Ok? ==> var n := ImageBatchShape(shape)[0];
                      var g := r.value.0;
                      && g == GridSide(n)
                      && |r.value.1| == n
                      && (forall i :: 0 <= i < n ==>
                            1 <= r.value.1[i].0 <= g && 1 <= r.value.1[i].1 <= g
                            && CellIndex(r.value.1[i], g) == i)
                      && (forall i, j :: 0 <= i < j < n ==> r.value.1[i] != r.value.1[j])
  {
    if |shape| == 0 then Err(IndexError)
    else
      var n := ImageBatchShape(shape)[0];
      var g := GridSide(n);
      var cells := seq(n, i requires 0 <= i < n => Cell(i, g));
      CellsInGrid(n, g, cells);
      Ok((g, cells))
  }

  lemma CellsInGrid(n: nat, g: nat, cells: seq<(nat, nat)>)
    requires g * g >= n && (n > 0 ==> g > 0)
    requires |cells| == n && forall i :: 0 <= i < n ==> g > 0 && cells[i] == Cell(i, g)
    ensures forall i :: 0 <= i < n ==>
              1 <= cells[i].0 <= g && 1 <= cells[i].1 <= g && CellIndex(cells[i], g) == i
    ensures forall i, j :: 0 <= i < j < n ==> cells[i] != cells[j]
  {
    forall i | 0 <= i < n
      ensures 1 <= cells[i].0 <= g && 1 <= cells[i].1 <= g && CellIndex(cells[i], g) == i
    {
      CellRoundTrip(i, g);
    }
    forall i, j | 0 <= i < j < n
      ensures cells[i] != cells[j]
    {
      CellRoundTrip(i, g);
      CellRoundTrip(j, g);
    }
  }

  /** An index below `g * g` lands in one of the `g` columns. */
  lemma ColumnFits(i: nat, g: nat)
    requires g > 0
    ensures i < g * g ==> i / g < g
  {
    var q := i / g;
    assert q * g <= i;
    MulMonoLeft(q, g);
  }

  lemma MulMonoLeft(q: int, g: nat)
    ensures q >= g ==> q * g >= g * g
  {
    if q >= g {
      assert q * g == (q - g) * g + g * g;
      assert (q - g) * g >= 0;
    }
  }

  // ---------------------------------------------------------------------------
  // scroll_images

  /** The visibility list of slider step `i`: `[t == i for t in range(n)]`. */
  function Mask(n: nat, i: nat): (r: seq<bool>)
    ensures |r| == n && forall t :: 0 <= t < n ==> (r[t] <==> t == i)
  {
    seq(n, t => t == i)
  }

  function CountTrue(s: seq<bool>): nat
    decreases |s|
  {
    if |s| == 0 then 0 else (if s[0] then 1 else 0) + CountTrue(s[1..])
  }

  /** A mask with true at index `i` only shows exactly one trace. */
  lemma {:induction false} MaskIsOneHot(s: seq<bool>, i: nat)
    requires i < |s| && forall t :: 0 <= t < |s| ==> (s[t] <==> t == i)
    ensures CountTrue(s) == 1
    decreases |s|
  {
    if i == 0 {
      NoneTrue(s[1..]);
    } else {
      MaskIsOneHot(s[1..], i - 1);
    }
  }

  lemma {:induction false} NoneTrue(s: seq<bool>)
    requires forall t :: 0 <= t < |s| ==> !s[t]
    ensures CountTrue(s) == 0
    decreases |s|
  {
    if |s| > 0 {
      NoneTrue(s[1..]);
    }
  }

  /** `scroll_images` for `n` images: the initial visibility (only trace 0,
      which must exist) and one mask per slider step. */
  function ScrollImages(n: nat): (r: Result<(seq<bool>, seq<seq<bool>>)>)
    ensures r.Err? <==> n == 0
    ensures r.Err? ==> r.error == IndexError
    ensures r.Ok? ==> var (initial, steps) := r.value;
                      && |initial| == n && initial[0] && (forall t :: 0 < t < n ==> !initial[t])
                      && |steps| == n
                      && (forall i :: 0 <= i < n ==> |steps[i]| == n && CountTrue(steps[i]) == 1 && steps[i][i])
                      && steps[0] == initial
  {
    if n == 0 then Err(IndexError)
    else
      var steps := seq(n, i requires 0 <= i => Mask(n, i));
      forall i | 0 <= i < n
        ensures CountTrue(steps[i]) == 1
      {
        MaskIsOneHot(steps[i], i);
      }
      Ok((Mask(n, 0), steps))
  }

  // ---------------------------------------------------------------------------
  // play

  function Digit(d: nat): (c: char)
    requires d < 10
    ensures '0' <= c <= '9'
  {
    ('0' as int + d) as char
  }

  function DigitValue(c: char): nat {
    if '0' <= c <= '9' then c as int - '0' as int else 0
  }

  /** Python's `str(n)` for a non-negative integer: its decimal digits, with
      no leading zero. */
  function NatToString(n: nat): (s: string)
    ensures |s| >= 1
    ensures forall k :: 0 <= k < |s| ==> '0' <= s[k] <= '9'
    ensures s[0] == '0' <==> n == 0
    decreases n
  {
    if n < 10 then [Digit(n)] else NatToString(n / 10) + [Digit(n % 10)]
  }

  /** Reading decimal digits back. */
  function ParseNat(s: string): nat
    decreases |s|
  {
    if |s| == 0 then 0 else ParseNat(s[..|s| - 1]) * 10 + DigitValue(s[|s| - 1])
  }

  lemma {:induction false} ParseNatToString(n: nat)
    ensures ParseNat(NatToString(n)) == n
    decreases n
  {
    if n >= 10 {
      ParseNatToString(n / 10);
      var s := NatToString(n);
      assert s[..|s| - 1] == NatToString(n / 10);
    }
  }

  /** Distinct frame numbers get distinct names. */
  lemma NatToStringInjective(a: nat, b: nat)
    requires NatToString(a) == NatToString(b)
    ensures a == b
  {
    ParseNatToString(a);
    ParseNatToString(b);
  }

  /** One slider step: the frame it animates and its label text. */
  datatype SliderStep = SliderStep(frame: string, caption: string)

  /** `play` for `n` images: one frame per image named `str(i)` and one slider
      step per frame; the initial figure shows image 0, which must exist. */
  function Play(n: nat): (r: Result<(seq<string>, seq<SliderStep>)>)
    ensures r.Err? <==> n == 0
    ensures r.Err? ==> r.error == IndexError
    ensures r.Ok? ==> var (frames, steps) := r.value;
                      && |frames| == n && |steps| == n
                      && (forall k :: 0 <= k < n ==> frames[k] == NatToString(k) && ParseNat(frames[k]) == k)
                      && (forall k :: 0 <= k < n ==> steps[k].frame == frames[k] && steps[k].caption == frames[k])
                      && (forall i, j :: 0 <= i < j < n ==> frames[i] != frames[j])
  {
    if n == 0 then Err(IndexError)
    else
      var frames := seq(n, i requires 0 <= i => NatToString(i));
      var steps := seq(n, k requires 0 <= k < n => SliderStep(frames[k], NatToString(k)));
      forall k | 0 <= k < n
        ensures ParseNat(frames[k]) == k
      {
        ParseNatToString(k);
      }
      Ok((frames, steps))
  }
}
