/** The state machines of `visutils/jupyter.py`: the buffer of `DynamicPlot`,
    the `progress` generator's bar counter, and the two mouse-move handlers
    that snap, clamp and de-duplicate pixel positions.

    Widgets, displays and callbacks are not modelled: a flush to the
    underlying figure and a callback invocation are returned as values. */
module Jupyter {
  import opened PyResult
  import opened Arith

  // ---------------------------------------------------------------------------
  // DynamicPlot

  /** The two caches of a `DynamicPlot` and its `update_after` bound. */
  datatype PlotBuffer<T> = PlotBuffer(xs: seq<T>, ys: seq<T>, updateAfter: int)

  /** The points handed to the figure by one flush. */
  datatype Flush<T> = Flush(xs: seq<T>, ys: seq<T>)

  /** A fresh `DynamicPlot`: both caches empty. */
  function NewBuffer<T>(updateAfter: int): (b: PlotBuffer<T>)
    ensures BufferInv(b) && b.xs == [] && b.ys == [] && b.updateAfter == updateAfter
  {
    PlotBuffer([], [], updateAfter)
  }

  /** The caches have equal length, and hold more than `update_after` points
      never (they would have been flushed). */
  predicate BufferInv<T>(b: PlotBuffer<T>) {
    |b.xs| == |b.ys| && (|b.xs| <= b.updateAfter || |b.xs| == 0)
  }

  /** `DynamicPlot.extend`: both batches are appended to the caches, which are
      flushed and cleared when they hold more than `update_after` points. */
  function Extend<T>(b: PlotBuffer<T>, x: seq<T>, y: seq<T>, trace: int): (r: Result<(PlotBuffer<T>, Option<Flush<T>>)>)
    ensures r.Err? <==> |x| != |y| || trace != 0
    ensures r.Err? ==> r.error == AssertionError
    ensures r.Ok? ==> r.value.0.updateAfter == b.updateAfter
    ensures r.Ok? && BufferInv(b) ==> BufferInv(r.value.0)
    ensures r.Ok? ==> (r.value.1.Some? <==> |b.xs| + |x| > b.updateAfter)
    ensures r.Ok? && r.value.1.Some? ==>
              r.value.1.value == Flush(b.xs + x, b.ys + y) && r.value.0.xs == [] && r.value.0.ys == []
    ensures r.Ok? && r.value.1.None? ==> r.value.0.xs == b.xs + x && r.value.0.ys == b.ys + y
  {
    if |x| != |y| || trace != 0 then Err(AssertionError)
    else
      var xs := b.xs + x;
      var ys := b.ys + y;
      if |xs| > b.updateAfter then Ok((b.(xs := [], ys := []), Some(Flush(xs, ys))))
      else Ok((b.(xs := xs, ys := ys), None))
  }

  function ConcatXs<T>(fs: seq<Flush<T>>): seq<T>
    decreases |fs|
  {
    if |fs| == 0 then [] else fs[0].xs + ConcatXs(fs[1..])
  }

  function ConcatYs<T>(fs: seq<Flush<T>>): seq<T>
    decreases |fs|
  {
    if |fs| == 0 then [] else fs[0].ys + ConcatYs(fs[1..])
  }

  /** A run of `extend` calls: the final buffer and the flushes, in order; the
      first failing call stops the run. */
  function ExtendAll<T>(b: PlotBuffer<T>, batches: seq<Flush<T>>): Result<(PlotBuffer<T>, seq<Flush<T>>)>
    decreases |batches|
  {
    if |batches| == 0 then Ok((b, []))
    else
      match Extend(b, batches[0].xs, batches[0].ys, 0)
      case Err(e) => Err(e)
      case Ok((b', f)) =>
        match ExtendAll(b', batches[1..])
        case Err(e) => Err(e)
        case Ok((b'', fs)) => Ok((b'', Emitted(f) + fs))
  }

  lemma ConcatXsAppend<T>(a: seq<Flush<T>>, b: seq<Flush<T>>)
    ensures ConcatXs(a + b) == ConcatXs(a) + ConcatXs(b)
    ensures ConcatYs(a + b) == ConcatYs(a) + ConcatYs(b)
    decreases |a|
  {
    if |a| == 0 {
      assert a + b == b;
    } else {
      assert (a + b)[1..] == a[1..] + b;
      ConcatXsAppend(a[1..], b);
    }
  }

  /** The inductive step of the conservation lemma, as plain sequence algebra. */
  lemma Glue<T>(head: seq<T>, cache: seq<T>, flushed: seq<T>, final: seq<T>, start: seq<T>, batch: seq<T>, later: seq<T>)
    requires head + cache == start + batch
    requires flushed + final == cache + later
    ensures (head + flushed) + final == start + (batch + later)
  {
    calc {
      (head + flushed) + final;
      head + (flushed + final);
      head + (cache + later);
      (head + cache) + later;
      (start + batch) + later;
    }
  }

  /** The flushes one call emits, as a list. */
  function Emitted<T>(f: Option<Flush<T>>): seq<Flush<T>> {
    if f.Some? then [f.value] else []
  }

  /** One successful `extend`: the points it flushes followed by the new cache
      are the old cache followed by the batch. */
  lemma ExtendConserves<T>(b: PlotBuffer<T>, batch: Flush<T>)
    requires |batch.xs| == |batch.ys|
    ensures Extend(b, batch.xs, batch.ys, 0).Ok?
    ensures var r := Extend(b, batch.xs, batch.ys, 0).value;
            && ConcatXs(Emitted(r.1)) + r.0.xs == b.xs + batch.xs
            && ConcatYs(Emitted(r.1)) + r.0.ys == b.ys + batch.ys
            && forall k :: 0 <= k < |Emitted(r.1)| ==> |Emitted(r.1)[k].xs| > b.updateAfter
  {
    var r := Extend(b, batch.xs, batch.ys, 0).value;
    if r.1.Some? {
      assert [r.1.value][1..] == [];
    }
  }

  /** Nothing is lost, duplicated or reordered: the flushed points followed by
      what is still cached are the points cached at the start followed by
      every batch, in call order; and each flush carries more than
      `update_after` points. */
  lemma {:induction false} ExtendAllConserves<T>(b: PlotBuffer<T>, batches: seq<Flush<T>>)
    requires BufferInv(b)
    requires forall k :: 0 <= k < |batches| ==> |batches[k].xs| == |batches[k].ys|
    ensures ExtendAll(b, batches).Ok?
    ensures var r := ExtendAll(b, batches).value;
            && BufferInv(r.0)
            && ConcatXs(r.1) + r.0.xs == b.xs + ConcatXs(batches)
            && ConcatYs(r.1) + r.0.ys == b.ys + ConcatYs(batches)
            && forall k :: 0 <= k < |r.1| ==> |r.1[k].xs| > b.updateAfter
    decreases |batches|
  {
    if |batches| > 0 {
      ExtendConserves(b, batches[0]);
      var e := Extend(b, batches[0].xs, batches[0].ys, 0).value;
      var b' := e.0;
      var head := Emitted(e.1);
      ExtendAllConserves(b', batches[1..]);
      var rest := ExtendAll(b', batches[1..]).value;
      var r := ExtendAll(b, batches).value;
      assert r == (rest.0, head + rest.1);
      ConcatXsAppend(head, rest.1);
      Glue(ConcatXs(head), b'.xs, ConcatXs(rest.1), rest.0.xs, b.xs, batches[0].xs, ConcatXs(batches[1..]));
      Glue(ConcatYs(head), b'.ys, ConcatYs(rest.1), rest.0.ys, b.ys, batches[0].ys, ConcatYs(batches[1..]));
      forall k | 0 <= k < |r.1|
        ensures |r.1[k].xs| > b.updateAfter
      {
        if k >= |head| {
          assert r.1[k] == rest.1[k - |head|];
        } else {
          assert r.1[k] == head[k];
        }
      }
    }
  }

  // ---------------------------------------------------------------------------
  // progress

  /** What the `progress` generator does: hand an item to the consumer, or
      set the bar's value. */
  datatype ProgressEvent<T> = Yield(item: T) | Tick(value: nat)

  /** The events of `progress` over `items`, from a bar already at `done`: each
      item is yielded and, once the consumer resumes the generator, the bar
      goes up by one. */
  function ProgressFrom<T>(items: seq<T>, done: nat): (r: seq<ProgressEvent<T>>)
    ensures |r| == 2 * |items|
    ensures forall j :: 0 <= j < |items| ==> r[2 * j] == Yield(items[j]) && r[2 * j + 1] == Tick(done + j + 1)
    decreases |items|
  {
    if |items| == 0 then []
    else
      var rest := ProgressFrom(items[1..], done + 1);
      assert forall j :: 1 <= j < |items| ==> rest[2 * (j - 1)] == Yield(items[j]);
      [Yield(items[0]), Tick(done + 1)] + rest
  }

  /** `progress(iterator)`: the bar is created with `max = len(iterator)` and
      `value = 0`. */
  function Progress<T>(items: seq<T>): (r: (nat, seq<ProgressEvent<T>>))
    ensures r.0 == |items|
    ensures |r.1| == 2 * |items|
  {
    (|items|, ProgressFrom(items, 0))
  }

  /** The bar's value after a prefix of the events: the last value set, or the
      initial 0. */
  function BarValue<T>(ev: seq<ProgressEvent<T>>): nat
    decreases |ev|
  {
    if |ev| == 0 then 0
    else if ev[|ev| - 1].Tick? then ev[|ev| - 1].value
    else BarValue(ev[..|ev| - 1])
  }

  /** The items yielded in a prefix of the events. */
  function Yielded<T>(ev: seq<ProgressEvent<T>>): seq<T>
    decreases |ev|
  {
    if |ev| == 0 then []
    else Yielded(ev[..|ev| - 1]) + (if ev[|ev| - 1].Yield? then [ev[|ev| - 1].item] else [])
  }

  /** One more event extends the yielded items or sets the bar. */
  lemma PrefixStep<T>(ev: seq<ProgressEvent<T>>, n: nat)
    requires n < |ev|
    ensures Yielded(ev[..n + 1]) == Yielded(ev[..n]) + (if ev[n].Yield? then [ev[n].item] else [])
    ensures BarValue(ev[..n + 1]) == if ev[n].Tick? then ev[n].value else BarValue(ev[..n])
  {
    assert ev[..n + 1][..n] == ev[..n];
  }

  /** Once the consumer has resumed the generator past `k` items, those are
      the first `k` items in order and the bar reads `k`; while the `k`-th
      item is being consumed it still reads `k - 1`. The bar never exceeds
      its maximum. */
  lemma {:induction false} ProgressCounts<T>(items: seq<T>, k: nat)
    requires k <= |items|
    ensures var p := Progress(items);
            && Yielded(p.1[..2 * k]) == items[..k]
            && BarValue(p.1[..2 * k]) == k <= p.0
            && (k > 0 ==> BarValue(p.1[..2 * k - 1]) == k - 1)
    decreases k
  {
    var ev := Progress(items).1;
    if k > 0 {
      ProgressCounts(items, k - 1);
      PrefixStep(ev, 2 * k - 2);
      PrefixStep(ev, 2 * k - 1);
      assert items[..k] == items[..k - 1] + [items[k - 1]];
    }
  }

  /** After full iteration every item has been handed over, in order, and the
      bar reads its maximum. */
  lemma ProgressCompletes<T>(items: seq<T>)
    ensures Yielded(Progress(items).1) == items
    ensures BarValue(Progress(items).1) == Progress(items).0
  {
    var ev := Progress(items).1;
    ProgressCounts(items, |items|);
    assert ev[..2 * |items|] == ev;
    assert items[..|items|] == items;
  }

  // ---------------------------------------------------------------------------
  // Pixel arithmetic

  function Abs(a: int): nat {
    if a < 0 then -a else a
  }

  /** Python's `int(a / b)`: true division truncated toward zero (not Dafny's
      Euclidean `/`). */
  function TruncDiv(a: int, b: int): (q: int)
    requires b != 0
    ensures a >= 0 ==> 0 <= a - q * b < Abs(b) && 0 <= q * b
    ensures a < 0 ==> 0 <= q * b - a < Abs(b) && q * b <= 0
  {
    var q0 := Abs(a) / Abs(b);
    var q := if (a < 0) == (b < 0) then q0 else -q0;
    TruncDivRemainder(a, b, q0, q);
    q
  }

  lemma MulNonneg(x: nat, y: nat)
    ensures x * y >= 0
  {
  }

  lemma MulNeg(x: int, y: int)
    ensures (-x) * y == -(x * y) && x * (-y) == -(x * y)
  {
  }

  lemma DivRem(n: nat, d: nat)
    requires d > 0
    ensures n == (n / d) * d + n % d && 0 <= n % d < d
  {
  }

  lemma TruncDivRemainder(a: int, b: int, q0: int, q: int)
    requires b != 0 && q0 == Abs(a) / Abs(b)
    requires q == if (a < 0) == (b < 0) then q0 else -q0
    ensures a >= 0 ==> 0 <= a - q * b < Abs(b) && 0 <= q * b
    ensures a < 0 ==> 0 <= q * b - a < Abs(b) && q * b <= 0
  {
    DivRem(Abs(a), Abs(b));
    MulNonneg(q0, Abs(b));
    TruncProduct(a, b, q0, q);
  }

  /** The truncated quotient times the divisor is `|a| / |b| * |b|`, with the
      sign of `a`. */
  lemma TruncProduct(a: int, b: int, q0: int, q: int)
    requires b != 0
    requires q == if (a < 0) == (b < 0) then q0 else -q0
    ensures a >= 0 ==> q * b == q0 * Abs(b)
    ensures a < 0 ==> q * b == -(q0 * Abs(b))
  {
    MulNeg(q0, b);
  }

  /** `(k * m) % m == 0`: a multiple of `m` leaves no remainder. */
  lemma MultipleMod(k: int, m: int)
    requires m > 0
    ensures (k * m) % m == 0
  {
    var d := (k * m) / m;
    var r := (k * m) % m;
    assert k * m == d * m + r && 0 <= r < m;
    MulSub(k, d, m);
    QuotientClose(k - d, m, r);
  }

  /** `min(max(v, lo), hi)`. */
  function Clamp(v: int, lo: int, hi: int): (r: int)
    ensures r <= hi
    ensures lo <= hi ==> lo <= r
    ensures lo <= v <= hi ==> r == v
    ensures lo <= hi && v < lo ==> r == lo
    ensures v > hi ==> r == hi
    ensures lo > hi ==> r == hi
  {
    var m := if v < lo then lo else v;
    if m < hi then m else hi
  }

  /** `int(v / s) * s`: the multiple of `s` nearest `v` toward zero. */
  function Snap(v: int, s: int): (r: int)
    requires s != 0
    ensures r % Abs(s) == 0
    ensures v >= 0 ==> 0 <= r <= v && v - r < Abs(s)
    ensures v < 0 ==> v <= r <= 0 && r - v < Abs(s)
  {
    var q := TruncDiv(v, s);
    var k := if s < 0 then -q else q;
    assert q * s == k * Abs(s);
    MultipleMod(k, Abs(s));
    q * s
  }

  // ---------------------------------------------------------------------------
  // The ipyevents mouse-move handler

  /** A `__IPyEventMouseMoveHandler`: the last reported position, the snap
      steps and the bounds. */
  datatype EventHandler = EventHandler(px: int, py: int, snapX: int, snapY: int,
                                       minX: int, minY: int, maxX: int, maxY: int)

  /** The constructor: position `(0, 0)`; the bounds default to `(0, 0)` and
      to the widget's size. */
  function NewEventHandler(width: int, height: int, snap: (int, int),
                           minPosition: Option<(int, int)>, maxPosition: Option<(int, int)>): (h: EventHandler)
    ensures h.px == 0 && h.py == 0 && (h.snapX, h.snapY) == snap
    ensures (h.minX, h.minY) == (if minPosition.Some? then minPosition.value else (0, 0))
    ensures (h.maxX, h.maxY) == (if maxPosition.Some? then maxPosition.value else (width, height))
  {
    var (minX, minY) := if minPosition.Some? then minPosition.value else (0, 0);
    var (maxX, maxY) := if maxPosition.Some? then maxPosition.value else (width, height);
    EventHandler(0, 0, snap.0, snap.1, minX, minY, maxX, maxY)
  }

  /** The position an event reports: offset by 2 pixels, snapped toward zero,
      clamped to the bounds. */
  function EventPosition(h: EventHandler, relX: int, relY: int): (r: Result<(int, int)>)
    ensures r.Err? <==> h.snapX == 0 || h.snapY == 0
    ensures r.Err? ==> r.error == ZeroDivisionError
    ensures r.Ok? ==> r.value.0 <= h.maxX && r.value.1 <= h.maxY
    ensures r.Ok? && h.minX <= h.maxX ==> h.minX <= r.value.0
    ensures r.Ok? && h.minY <= h.maxY ==> h.minY <= r.value.1
    ensures r.Ok? && h.minX <= Snap(relX - 2, h.snapX) <= h.maxX ==> r.value.0 == Snap(relX - 2, h.snapX)
    ensures r.Ok? && h.minY <= Snap(relY - 2, h.snapY) <= h.maxY ==> r.value.1 == Snap(relY - 2, h.snapY)
    ensures r.Ok? && Snap(relX - 2, h.snapX) < h.minX <= h.maxX ==> r.value.0 == h.minX
    ensures r.Ok? && Snap(relY - 2, h.snapY) < h.minY <= h.maxY ==> r.value.1 == h.minY
    ensures r.Ok? && Snap(relX - 2, h.snapX) > h.maxX ==> r.value.0 == h.maxX
    ensures r.Ok? && Snap(relY - 2, h.snapY) > h.maxY ==> r.value.1 == h.maxY
    ensures r.Ok? && h.minX > h.maxX ==> r.value.0 == h.maxX
    ensures r.Ok? && h.minY > h.maxY ==> r.value.1 == h.maxY
  {
    if h.snapX == 0 || h.snapY == 0 then Err(ZeroDivisionError)
    else Ok((Clamp(Snap(relX - 2, h.snapX), h.minX, h.maxX), Clamp(Snap(relY - 2, h.snapY), h.minY, h.maxY)))
  }

  /** `__IPyEventMouseMoveHandler.__call__`: the callback fires with the new
      position exactly when it differs from the stored one, which it replaces. */
  function OnMouseMove(h: EventHandler, relX: int, relY: int): (r: Result<(EventHandler, Option<(int, int)>)>)
    ensures r.Err? <==> EventPosition(h, relX, relY).Err?
    ensures r.Ok? ==> var p := EventPosition(h, relX, relY).value;
                      && (r.value.0.px, r.value.0.py) == p
                      && r.value.0 == h.(px := p.0, py := p.1)
                      && (r.value.1.Some? <==> p != (h.px, h.py))
                      && (r.value.1.Some? ==> r.value.1.value == p)
  {
    var p :- EventPosition(h, relX, relY);
    if p == (h.px, h.py) then Ok((h, None)) else Ok((h.(px := p.0, py := p.1), Some(p)))
  }

  /** Delivering the same event twice in a row fires the callback at most once. */
  lemma RepeatedEventFiresOnce(h: EventHandler, relX: int, relY: int)
    requires OnMouseMove(h, relX, relY).Ok?
    ensures var h' := OnMouseMove(h, relX, relY).value.0;
            OnMouseMove(h', relX, relY) == Ok((h', None))
  {
  }

  /** A run of mouse-move events: the final handler and the callback
      arguments, in order. The first failing event stops the run. */
  function HandleAll(h: EventHandler, events: seq<(int, int)>): Result<(EventHandler, seq<(int, int)>)>
    decreases |events|
  {
    if |events| == 0 then Ok((h, []))
    else
      match OnMouseMove(h, events[0].0, events[0].1)
      case Err(e) => Err(e)
      case Ok((h', f)) =>
        match HandleAll(h', events[1..])
        case Err(e) => Err(e)
        case Ok((h'', fs)) => Ok((h'', (if f.Some? then [f.value] else []) + fs))
  }

  /** Over any run, the callback never sees the same position twice in a row,
      its first position differs from the one stored at the start, the
      handler ends holding the last reported position, and every reported
      position lies within the bounds. */
  lemma {:induction false} HandleAllDeduplicates(h: EventHandler, events: seq<(int, int)>)
    requires HandleAll(h, events).Ok?
    ensures var r := HandleAll(h, events).value;
            && (forall k :: 0 < k < |r.1| ==> r.1[k] != r.1[k - 1])
            && (|r.1| > 0 ==> r.1[0] != (h.px, h.py) && r.1[|r.1| - 1] == (r.0.px, r.0.py))
            && (|r.1| == 0 ==> (r.0.px, r.0.py) == (h.px, h.py))
            && (forall k :: 0 <= k < |r.1| ==> r.1[k].0 <= h.maxX && r.1[k].1 <= h.maxY)
            && r.0.(px := h.px, py := h.py) == h
    decreases |events|
  {
    if |events| > 0 {
      var step := OnMouseMove(h, events[0].0, events[0].1).value;
      var h' := step.0;
      var f := step.1;
      HandleAllDeduplicates(h', events[1..]);
      var rest := HandleAll(h', events[1..]).value;
      var head: seq<(int, int)> := if f.Some? then [f.value] else [];
      var r := HandleAll(h, events).value;
      assert r.1 == head + rest.1;
      forall k | 0 < k < |r.1|
        ensures r.1[k] != r.1[k - 1]
      {
        if f.Some? && k == 1 {
          assert r.1[0] == (h'.px, h'.py);
        } else if f.Some? {
          assert r.1[k] == rest.1[k - 1] && r.1[k - 1] == rest.1[k - 2];
        } else {
          assert r.1[k] == rest.1[k] && r.1[k - 1] == rest.1[k - 1];
        }
      }
      forall k | 0 <= k < |r.1|
        ensures r.1[k].0 <= h.maxX && r.1[k].1 <= h.maxY
      {
        if k >= |head| {
          assert r.1[k] == rest.1[k - |head|];
        }
      }
      if |r.1| > 0 {
        if f.Some? {
          assert r.1[0] == f.value;
        } else {
          assert r.1[0] == rest.1[0];
        }
        if |rest.1| > 0 {
          assert r.1[|r.1| - 1] == rest.1[|rest.1| - 1];
        }
      }
    }
  }

  // ---------------------------------------------------------------------------
  // The ipycanvas mouse-move handler

  /** A `__IPyCanvasMouseMoveHandler`: the stored position, the scale and the
      canvas size. */
  datatype CanvasHandler = CanvasHandler(px: int, py: int, scale: int, width: int, height: int)

  function NewCanvasHandler(scale: int, width: int, height: int): (h: CanvasHandler)
    ensures h.px == 0 && h.py == 0
  {
    CanvasHandler(0, 0, scale, width, height)
  }

  /** The pixel a canvas event falls on: `int(x / scale)` clamped to
      `[0, int(width / scale - 1)]`, written `(width - scale) / scale` so that
      the division stays exact. */
  function CanvasPosition(h: CanvasHandler, x: int, y: int): (r: Result<(int, int)>)
    ensures r.Err? <==> h.scale == 0
    ensures r.Err? ==> r.error == ZeroDivisionError
    ensures r.Ok? ==> r.value.0 <= TruncDiv(h.width - h.scale, h.scale) && r.value.1 <= TruncDiv(h.height - h.scale, h.scale)
    ensures r.Ok? && 0 <= TruncDiv(h.width - h.scale, h.scale) ==> 0 <= r.value.0
    ensures r.Ok? && 0 <= TruncDiv(h.height - h.scale, h.scale) ==> 0 <= r.value.1
    ensures r.Ok? && 0 <= TruncDiv(x, h.scale) <= TruncDiv(h.width - h.scale, h.scale) ==> r.value.0 == TruncDiv(x, h.scale)
    ensures r.Ok? && 0 <= TruncDiv(y, h.scale) <= TruncDiv(h.height - h.scale, h.scale) ==> r.value.1 == TruncDiv(y, h.scale)
    ensures r.Ok? && TruncDiv(x, h.scale) < 0 <= TruncDiv(h.width - h.scale, h.scale) ==> r.value.0 == 0
    ensures r.Ok? && TruncDiv(y, h.scale) < 0 <= TruncDiv(h.height - h.scale, h.scale) ==> r.value.1 == 0
    ensures r.Ok? && TruncDiv(x, h.scale) > TruncDiv(h.width - h.scale, h.scale) ==> r.value.0 == TruncDiv(h.width - h.scale, h.scale)
    ensures r.Ok? && TruncDiv(y, h.scale) > TruncDiv(h.height - h.scale, h.scale) ==> r.value.1 == TruncDiv(h.height - h.scale, h.scale)
    ensures r.Ok? && TruncDiv(h.width - h.scale, h.scale) < 0 ==> r.value.0 == TruncDiv(h.width - h.scale, h.scale)
    ensures r.Ok? && TruncDiv(h.height - h.scale, h.scale) < 0 ==> r.value.1 == TruncDiv(h.height - h.scale, h.scale)
  {
    if h.scale == 0 then Err(ZeroDivisionError)
    else Ok((Clamp(TruncDiv(x, h.scale), 0, TruncDiv(h.width - h.scale, h.scale)),
             Clamp(TruncDiv(y, h.scale), 0, TruncDiv(h.height - h.scale, h.scale))))
  }

  /** `__IPyCanvasMouseMoveHandler.__call__` as written: it compares with the
      stored position but never stores the new one, so the handler state never
      changes and only the constructor's `(0, 0)` is ever suppressed. */
  function CanvasMouseMoveAsWritten(h: CanvasHandler, x: int, y: int): (r: Result<Option<(int, int)>>)
    ensures r.Err? <==> h.scale == 0
    ensures r.Ok? ==> var p := CanvasPosition(h, x, y).value;
                      (r.value.Some? <==> p != (h.px, h.py)) && (r.value.Some? ==> r.value.value == p)
  {
    var p :- CanvasPosition(h, x, y);
    if p == (h.px, h.py) then Ok(None) else Ok(Some(p))
  }

  /** The same event delivered twice fires the callback twice as written: the
      handler is never updated, so the second delivery meets the same `(0, 0)`
      as the first. The corrected handler, given the same two events, fires
      once and then suppresses the repeat. */
  lemma CanvasAsWrittenFiresTwice()
    ensures var h := NewCanvasHandler(1, 10, 10);
            && CanvasMouseMoveAsWritten(h, 3, 3) == Ok(Some((3, 3)))
            && CanvasMouseMove(h, 3, 3) == Ok((h.(px := 3, py := 3), Some((3, 3))))
            && CanvasMouseMove(h.(px := 3, py := 3), 3, 3) == Ok((h.(px := 3, py := 3), None))
  {
    var h := NewCanvasHandler(1, 10, 10);
    assert TruncDiv(3, 1) == 3;
    assert TruncDiv(9, 1) == 9;
  }

  /** The handler as evidently intended: like the ipyevents handler, it stores
      the position it reports. */
  function CanvasMouseMove(h: CanvasHandler, x: int, y: int): (r: Result<(CanvasHandler, Option<(int, int)>)>)
    ensures r.Err? <==> h.scale == 0
    ensures r.Ok? ==> var p := CanvasPosition(h, x, y).value;
                      && r.value.0 == h.(px := p.0, py := p.1)
                      && (r.value.1.Some? <==> p != (h.px, h.py))
                      && (r.value.1.Some? ==> r.value.1.value == p)
  {
    var p :- CanvasPosition(h, x, y);
    if p == (h.px, h.py) then Ok((h, None)) else Ok((h.(px := p.0, py := p.1), Some(p)))
  }

  /** With the position stored, a repeated event fires at most once. */
  lemma CanvasRepeatedEventFiresOnce(h: CanvasHandler, x: int, y: int)
    requires h.scale != 0
    ensures var h' := CanvasMouseMove(h, x, y).value.0;
            CanvasMouseMove(h', x, y) == Ok((h', None))
  {
  }
}
