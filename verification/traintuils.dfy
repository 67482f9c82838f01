/** The replay buffer of `traintuils.py`: `dataset` fills a buffer from the
    head of an environment stream, and `replay_iterator` then overwrites one
    slot per streamed item, cyclically, and yields a batch of sampled
    transitions `(state, action, next state)` after each write.

    The random draws of `np.random.randint` are an input; the one-hot
    encoding of actions is an opaque function parameter. */
module TrainUtils {
  import opened PyResult
  import opened Arith

  /** One item of the environment stream: a state and a raw action. */
  datatype Item<S, A> = Item(state: S, action: A)

  function StatesOf<S, A>(items: seq<Item<S, A>>): (r: seq<S>)
    ensures |r| == |items| && forall k :: 0 <= k < |items| ==> r[k] == items[k].state
  {
    seq(|items|, k requires 0 <= k < |items| => items[k].state)
  }

  function ActionsOf<S, A, B>(items: seq<Item<S, A>>, encode: A -> B): (r: seq<B>)
    ensures |r| == |items| && forall k :: 0 <= k < |items| ==> r[k] == encode(items[k].action)
  {
    seq(|items|, k requires 0 <= k < |items| => encode(items[k].action))
  }

  // ---------------------------------------------------------------------------
  // dataset

  /** `dataset(iterator, states, actions)`: the two buffers must have the same
      length `n`; item `i` is written to slot `i`, and the filled buffers are
      returned as soon as slot `n - 1` is written. If the stream ends first
      the function returns `None`; with `n == 0` the first write is out of
      bounds. The writes go into the caller's arrays, so `buffers` is those
      arrays after the call, whatever it returns. */
  method Dataset<S, A, B>(stream: seq<Item<S, A>>, states: seq<S>, actions: seq<B>, encode: A -> B)
    returns (r: Result<Option<(seq<S>, seq<B>)>>, buffers: (seq<S>, seq<B>))
    ensures |states| != |actions| ==> r == Err(AssertionError)
    ensures |states| == |actions| == 0 ==> r == (if |stream| == 0 then Ok(None) else Err(IndexError))
    ensures |states| == |actions| > 0 && |stream| < |states| ==> r == Ok(None)
    ensures |states| == |actions| > 0 && |stream| >= |states| ==>
              r == Ok(Some((StatesOf(stream[..|states|]), ActionsOf(stream[..|states|], encode))))
    ensures r.Ok? && r.value.Some? ==> r.value.value == buffers
    // the caller's arrays: the first items written in place, the rest untouched
    ensures |buffers.0| == |states| && |buffers.1| == |actions|
    ensures |states| != |actions| ==> buffers == (states, actions)
    ensures |states| == |actions| ==>
              forall k :: 0 <= k < |states| && k < |stream| ==>
                buffers.0[k] == stream[k].state && buffers.1[k] == encode(stream[k].action)
    ensures forall k :: |stream| <= k < |states| ==> buffers.0[k] == states[k]
    ensures forall k :: |stream| <= k < |actions| ==> buffers.1[k] == actions[k]
  {
    if |states| != |actions| {
      return Err(AssertionError), (states, actions);
    }
    var stop := |states| - 1;
    var st := states;
    var ac := actions;
    var i := 0;
    while i < |stream|
      invariant 0 <= i <= |stream|
      invariant i == 0 || i <= stop
      invariant |st| == |states| && |ac| == |actions|
      invariant forall k :: 0 <= k < i ==> st[k] == stream[k].state && ac[k] == encode(stream[k].action)
      invariant forall k :: i <= k < |st| ==> st[k] == states[k] && ac[k] == actions[k]
    {
      if i >= |st| {
        return Err(IndexError), (st, ac);
      }
      st := st[i := stream[i].state];
      ac := ac[i := encode(stream[i].action)];
      if i >= stop {
        assert st == StatesOf(stream[..|states|]);
        assert ac == ActionsOf(stream[..|states|], encode);
        return Ok(Some((st, ac))), (st, ac);
      }
      i := i + 1;
    }
    return Ok(None), (st, ac);
  }

  // ---------------------------------------------------------------------------
  // One replay_iterator step

  /** The replay buffers: `states_replay` and `actions_replay`. */
  datatype Replay<S, B> = Replay(states: seq<S>, actions: seq<B>)

  predicate ReplayInv<S, B>(rp: Replay<S, B>) {
    |rp.states| == |rp.actions| > 0
  }

  /** The three tensors one step yields. */
  datatype Batch<S, B> = Batch(states: seq<S>, actions: seq<B>, nextStates: seq<S>)

  /** The write of step `i`: slot `i % replay_size`. */
  function Slot(i: nat, size: nat): (p: nat)
    requires size > 0
    ensures p < size
    ensures i < size ==> p == i
  {
    i % size
  }

  /** The slot after `j`, cyclically: the next state of the transition at `j`. */
  function NextSlot(j: nat, size: nat): (r: nat)
    requires j < size
    ensures r < size
    ensures j + 1 < size ==> r == j + 1
    ensures j + 1 == size ==> r == 0
  {
    ModUnique(j + 1, size, if j + 1 < size then 0 else 1, if j + 1 < size then j + 1 else 0);
    (j + 1) % size
  }

  /** One index of the adjustment: a draw that hits the compared slot is moved
      one on, and the result is reduced modulo `replay_size`. */
  function Bump(d: int, hit: bool, size: nat): (r: nat)
    requires 0 <= d < size
    ensures r < size
    ensures !hit ==> r == d
    ensures hit ==> r == NextSlot(d, size)
  {
    ModUnique(d, size, 0, d);
    (if hit then d + 1 else d) % size
  }

  /** The index adjustment as written: a draw equal to the raw counter `i` is
      moved one slot on, then every index is reduced modulo `replay_size`. */
  function AdjustAsWritten(draws: seq<int>, i: nat, size: nat): (r: seq<nat>)
    requires size > 0
    requires forall k :: 0 <= k < |draws| ==> 0 <= draws[k] < size
    ensures |r| == |draws|
    ensures forall k :: 0 <= k < |draws| ==> r[k] < size
    ensures forall k :: 0 <= k < |draws| && draws[k] != i ==> r[k] == draws[k]
    ensures forall k :: 0 <= k < |draws| && draws[k] == i ==> r[k] == NextSlot(i, size)
    ensures i < size && size > 1 ==> forall k :: 0 <= k < |draws| ==> r[k] != i
  {
    seq(|draws|, k requires 0 <= k < |draws| => Bump(draws[k], draws[k] == i, size))
  }

  /** Once the counter reaches `replay_size`, the adjustment as written moves
      nothing. */
  lemma AsWrittenIdleAfterFill(draws: seq<int>, i: nat, size: nat)
    requires size > 0 && i >= size
    requires forall k :: 0 <= k < |draws| ==> 0 <= draws[k] < size
    ensures AdjustAsWritten(draws, i, size) == draws
  {
  }

  /** The index adjustment as evidently intended: the transition that is
      broken is the one at the slot just written, `i % replay_size`, so that
      is the draw moved one slot on. */
  function Adjust(draws: seq<int>, i: nat, size: nat): (r: seq<nat>)
    requires size > 0
    requires forall k :: 0 <= k < |draws| ==> 0 <= draws[k] < size
    ensures |r| == |draws|
    ensures forall k :: 0 <= k < |draws| ==> r[k] < size
    ensures forall k :: 0 <= k < |draws| && draws[k] != Slot(i, size) ==> r[k] == draws[k]
    ensures forall k :: 0 <= k < |draws| && draws[k] == Slot(i, size) ==> r[k] == NextSlot(Slot(i, size), size)
    ensures size > 1 ==> forall k :: 0 <= k < |draws| ==> r[k] != Slot(i, size)
  {
    var p := Slot(i, size);
    seq(|draws|, k requires 0 <= k < |draws| => Bump(draws[k], draws[k] == p, size))
  }

  /** Before the counter reaches `replay_size` the two adjustments agree, since
      then the slot just written is `i` itself. */
  lemma AdjustAgreesBeforeWrap(draws: seq<int>, i: nat, size: nat)
    requires size > 0 && i < size
    requires forall k :: 0 <= k < |draws| ==> 0 <= draws[k] < size
    ensures Adjust(draws, i, size) == AdjustAsWritten(draws, i, size)
  {
  }

  /** Which index adjustment a step applies: line 48 as written, comparing
      each draw with the raw counter, or the evidently intended one, comparing
      with the slot just written. */
  datatype Adjustment = AsWritten | Intended

  /** The adjusted indices of step `i` under adjustment `v`. */
  function Indices(v: Adjustment, draws: seq<int>, i: nat, size: nat): (r: seq<nat>)
    requires size > 0
    requires forall k :: 0 <= k < |draws| ==> 0 <= draws[k] < size
    ensures |r| == |draws| && forall k :: 0 <= k < |draws| ==> r[k] < size
  {
    match v
    case AsWritten => AdjustAsWritten(draws, i, size)
    case Intended => Adjust(draws, i, size)
  }

  /** Step `i` of `replay_iterator`: the streamed item overwrites slot
      `i % replay_size`, and the batch gathers, for each adjusted index `j`,
      the state and action at `j` and the state at the next slot. The source
      is `ReplayStep(AsWritten, ...)`. */
  function ReplayStep<S, A, B>(v: Adjustment, rp: Replay<S, B>, i: nat, item: Item<S, A>, encode: A -> B, draws: seq<int>): (r: (Replay<S, B>, Batch<S, B>))
    requires ReplayInv(rp)
    requires forall k :: 0 <= k < |draws| ==> 0 <= draws[k] < |rp.states|
    ensures ReplayInv(r.0) && |r.0.states| == |rp.states|
    ensures r.0.states[Slot(i, |rp.states|)] == item.state && r.0.actions[Slot(i, |rp.states|)] == encode(item.action)
    ensures forall j :: 0 <= j < |rp.states| && j != Slot(i, |rp.states|) ==>
              r.0.states[j] == rp.states[j] && r.0.actions[j] == rp.actions[j]
    ensures |r.1.states| == |r.1.actions| == |r.1.nextStates| == |draws|
    ensures var idx := if v.AsWritten? then AdjustAsWritten(draws, i, |rp.states|) else Adjust(draws, i, |rp.states|);
            forall k :: 0 <= k < |draws| ==>
              && r.1.states[k] == r.0.states[idx[k]]
              && r.1.actions[k] == r.0.actions[idx[k]]
              && r.1.nextStates[k] == r.0.states[NextSlot(idx[k], |rp.states|)]
  {
    var size := |rp.states|;
    var p := Slot(i, size);
    var rp' := Replay(rp.states[p := item.state], rp.actions[p := encode(item.action)]);
    var idx := Indices(v, draws, i, size);
    var batch := Batch(seq(|idx|, k requires 0 <= k < |idx| => rp'.states[idx[k]]),
                       seq(|idx|, k requires 0 <= k < |idx| => rp'.actions[idx[k]]),
                       seq(|idx|, k requires 0 <= k < |idx| => rp'.states[NextSlot(idx[k], size)]));
    (rp', batch)
  }

  /** During the first cycle the source's step and the intended one are the
      same step. */
  lemma StepAgreesBeforeWrap<S, A, B>(rp: Replay<S, B>, i: nat, item: Item<S, A>, encode: A -> B, draws: seq<int>)
    requires ReplayInv(rp) && i < |rp.states|
    requires forall k :: 0 <= k < |draws| ==> 0 <= draws[k] < |rp.states|
    ensures ReplayStep(AsWritten, rp, i, item, encode, draws) == ReplayStep(Intended, rp, i, item, encode, draws)
  {
    AdjustAgreesBeforeWrap(draws, i, |rp.states|);
  }

  /** The steps of `replay_iterator` from counter `i` on, one per streamed
      item, with one vector of draws per step, all under adjustment `v`. */
  function ReplayRun<S, A, B>(v: Adjustment, rp: Replay<S, B>, i: nat, items: seq<Item<S, A>>, encode: A -> B, draws: seq<seq<int>>): (r: (Replay<S, B>, seq<Batch<S, B>>))
    requires ReplayInv(rp) && |draws| == |items|
    requires forall s, k :: 0 <= s < |draws| && 0 <= k < |draws[s]| ==> 0 <= draws[s][k] < |rp.states|
    ensures ReplayInv(r.0) && |r.0.states| == |rp.states|
    ensures |r.1| == |items|
    ensures forall s :: 0 <= s < |items| ==> |r.1[s].states| == |r.1[s].nextStates| == |r.1[s].actions| == |draws[s]|
    decreases |items|
  {
    if |items| == 0 then (rp, [])
    else
      var st := ReplayStep(v, rp, i, items[0], encode, draws[0]);
      var rest := ReplayRun(v, st.0, i + 1, items[1..], encode, draws[1..]);
      (rest.0, [st.1] + rest.1)
  }

  /** `replay_iterator(env_iterator, replay_size)` over a finite stream: the
      first `replay_size` items fill fresh buffers, each later item drives one
      step, with the index adjustment as written. When the stream is too short
      to fill the buffers `dataset` returns `None`, which cannot be unpacked. */
  method ReplayIterator<S, A, B>(stream: seq<Item<S, A>>, blankStates: seq<S>, blankActions: seq<B>,
                                 encode: A -> B, draws: seq<seq<int>>)
    returns (r: Result<seq<Batch<S, B>>>)
    requires |blankStates| == |blankActions|
    requires |draws| == if |stream| >= |blankStates| then |stream| - |blankStates| else 0
    requires forall s, k :: 0 <= s < |draws| && 0 <= k < |draws[s]| ==> 0 <= draws[s][k] < |blankStates|
    ensures |stream| < |blankStates| ==> r == Err(TypeError)
    ensures |blankStates| == 0 ==> r == Err(if |stream| == 0 then TypeError else IndexError)
    ensures 0 < |blankStates| <= |stream| ==>
              && r.Ok?
              && |r.value| == |stream| - |blankStates|
              && r.value == ReplayRun(AsWritten, Replay(StatesOf(stream[..|blankStates|]), ActionsOf(stream[..|blankStates|], encode)),
                                      0, stream[|blankStates|..], encode, draws).1
  {
    var filled, _ := Dataset(stream, blankStates, blankActions, encode);
    match filled {
      case Err(e) =>
        return Err(e);
      case Ok(None) =>
        return Err(TypeError);
      case Ok(Some((st, ac))) =>
        var run := ReplayRun(AsWritten, Replay(st, ac), 0, stream[|blankStates|..], encode, draws);
        return Ok(run.1);
    }
  }

  // ---------------------------------------------------------------------------
  // Which sampled transitions are real

  /** Number the stream's items by position: the fill writes items
      `0 .. R-1`, and step `i` writes item `R + i`. The buffer is `Current`
      for the last written item `t` when every slot `j` holds the latest item
      at or before `t` that went to slot `j`: the one congruent to `j` modulo
      `R`, within the last `R` items. */
  predicate Current(buf: seq<int>, t: int, size: nat) {
    && size > 0
    && |buf| == size
    && forall j :: 0 <= j < size ==> buf[j] % size == j && t - size < buf[j] <= t
  }

  /** After the fill, slot `j` holds item `j`. */
  lemma FillIsCurrent(size: nat)
    requires size > 0
    ensures Current(seq(size, j => j), size - 1, size)
  {
  }

  /** `x % m == r` whenever `x == q * m + r` with `0 <= r < m`. */
  lemma ModUnique(x: int, m: int, q: int, r: int)
    requires m > 0 && x == q * m + r && 0 <= r < m
    ensures x % m == r && x / m == q
  {
    var q' := x / m;
    var r' := x % m;
    assert x == q' * m + r';
    MulSub(q, q', m);
    QuotientClose(q - q', m, r' - r);
  }

  /** Two numbers congruent modulo `m` and less than `m` apart are equal. */
  lemma CongruentClose(a: int, b: int, m: int)
    requires m > 0 && a % m == b % m && b <= a < b + m
    ensures a == b
  {
    var r := a % m;
    assert a == (a / m) * m + r;
    assert b == (b / m) * m + r;
    MulSub(a / m, b / m, m);
    QuotientClose(a / m - b / m, m, a - b);
  }

  /** Moving one on moves the residue one on, cyclically. */
  lemma ModSucc(x: int, m: int)
    requires m > 0
    ensures (x + 1) % m == ((x % m) + 1) % m
  {
    var q := x / m;
    var r := x % m;
    assert x == q * m + r;
    if r + 1 < m {
      ModUnique(x + 1, m, q, r + 1);
      ModUnique(r + 1, m, 0, r + 1);
    } else {
      ModUnique(x + 1, m, q + 1, 0);
      ModUnique(r + 1, m, 1, 0);
    }
  }

  /** Going back `m` keeps the residue. */
  lemma ModBack(x: int, m: int)
    requires m > 0
    ensures (x - m) % m == x % m
  {
    ModUnique(x - m, m, x / m - 1, x % m);
  }

  /** Writing item `t + 1` to its slot keeps the buffer current. */
  lemma WriteKeepsCurrent(buf: seq<int>, t: int, size: nat)
    requires Current(buf, t, size) && t + 1 >= 0
    ensures Current(buf[Slot(t + 1, size) := t + 1], t + 1, size)
  {
    var p := Slot(t + 1, size);
    var buf' := buf[p := t + 1];
    forall j | 0 <= j < size
      ensures buf'[j] % size == j && t + 1 - size < buf'[j] <= t + 1
    {
      if j != p {
        if buf[j] == t + 1 - size {
          ModBack(t + 1, size);
        }
      }
    }
  }

  /** In a current buffer the transition at slot `j` pairs consecutive items
      exactly when `j` is not the slot of the last written item: that one
      slot's successor holds an item from `R - 1` items back. */
  lemma TransitionIsReal(buf: seq<int>, t: int, size: nat, j: nat)
    requires Current(buf, t, size) && t >= 0 && j < size
    ensures buf[NextSlot(j, size)] == buf[j] + 1 <==> j != Slot(t, size)
  {
    var n := NextSlot(j, size);
    ModSucc(buf[j], size);
    assert (buf[j] + 1) % size == n % size;
    if j != Slot(t, size) {
      if buf[j] == t {
        assert false;
      }
      if buf[n] <= buf[j] + 1 {
        CongruentClose(buf[j] + 1, buf[n], size);
      } else {
        CongruentClose(buf[n], buf[j] + 1, size);
      }
    } else {
      CongruentClose(t, buf[j], size);
    }
  }

  /** A step on a current buffer, writing the next item, keeps it current. */
  lemma StepKeepsCurrent<A, B>(v: Adjustment, rp: Replay<int, B>, i: nat, item: Item<int, A>, encode: A -> B, draws: seq<int>)
    requires ReplayInv(rp) && Current(rp.states, |rp.states| - 1 + i, |rp.states|)
    requires item.state == |rp.states| + i
    requires forall k :: 0 <= k < |draws| ==> 0 <= draws[k] < |rp.states|
    ensures Current(ReplayStep(v, rp, i, item, encode, draws).0.states, |rp.states| + i, |rp.states|)
  {
    var size := |rp.states|;
    var t := size - 1 + i;
    WriteKeepsCurrent(rp.states, t, size);
    ModUnique(t + 1, size, 1 + i / size, i % size);
    assert Slot(t + 1, size) == Slot(i, size);
    var r := ReplayStep(v, rp, i, item, encode, draws).0;
    assert r.states == rp.states[Slot(i, size) := item.state];
  }

  /** Every row of the batch pairs an item with the item that followed it in
      the stream. */
  predicate RealTransitions<B>(b: Batch<int, B>) {
    && |b.nextStates| == |b.states|
    && forall k :: 0 <= k < |b.states| ==> b.nextStates[k] == b.states[k] + 1
  }

  predicate AllReal<B>(bs: seq<Batch<int, B>>) {
    forall s :: 0 <= s < |bs| ==> RealTransitions(bs[s])
  }

  /** With more than one slot, every sampled transition of a step is real (its
      next state is the item that followed its state in the stream) under the
      corrected adjustment, and under the one as written during the first
      cycle. */
  lemma StepSamplesRealTransitions<A, B>(v: Adjustment, rp: Replay<int, B>, i: nat, item: Item<int, A>, encode: A -> B, draws: seq<int>)
    requires ReplayInv(rp) && |rp.states| > 1 && Current(rp.states, |rp.states| - 1 + i, |rp.states|)
    requires v.Intended? || i < |rp.states|
    requires item.state == |rp.states| + i
    requires forall k :: 0 <= k < |draws| ==> 0 <= draws[k] < |rp.states|
    ensures RealTransitions(ReplayStep(v, rp, i, item, encode, draws).1)
  {
    var size := |rp.states|;
    var t := size + i;
    StepKeepsCurrent(v, rp, i, item, encode, draws);
    var r := ReplayStep(v, rp, i, item, encode, draws);
    var idx := Indices(v, draws, i, size);
    ModUnique(t, size, 1 + i / size, i % size);
    forall k | 0 <= k < |draws|
      ensures r.1.nextStates[k] == r.1.states[k] + 1
    {
      TransitionIsReal(r.0.states, t, size, idx[k]);
    }
  }

  /** Over a whole run with the corrected adjustment on the numbered stream,
      every batch holds only real transitions. */
  lemma {:induction false} RunSamplesRealTransitions<A, B>(rp: Replay<int, B>, i: nat, items: seq<Item<int, A>>, encode: A -> B, draws: seq<seq<int>>)
    requires ReplayInv(rp) && |rp.states| > 1 && Current(rp.states, |rp.states| - 1 + i, |rp.states|)
    requires forall s :: 0 <= s < |items| ==> items[s].state == |rp.states| + i + s
    requires |draws| == |items|
    requires forall s, k :: 0 <= s < |draws| && 0 <= k < |draws[s]| ==> 0 <= draws[s][k] < |rp.states|
    ensures AllReal(ReplayRun(Intended, rp, i, items, encode, draws).1)
    decreases |items|
  {
    if |items| > 0 {
      var st := ReplayStep(Intended, rp, i, items[0], encode, draws[0]);
      var rest := ReplayRun(Intended, st.0, i + 1, items[1..], encode, draws[1..]).1;
      assert RealTransitions(st.1) by {
        StepSamplesRealTransitions(Intended, rp, i, items[0], encode, draws[0]);
      }
      assert AllReal(rest) by {
        StepKeepsCurrent(Intended, rp, i, items[0], encode, draws[0]);
        RunSamplesRealTransitions(st.0, i + 1, items[1..], encode, draws[1..]);
      }
      assert ReplayRun(Intended, rp, i, items, encode, draws).1 == [st.1] + rest;
      ConsRealTransitions(st.1, rest);
    }
  }

  lemma ConsRealTransitions<B>(b: Batch<int, B>, rest: seq<Batch<int, B>>)
    requires RealTransitions(b)
    requires AllReal(rest)
    ensures AllReal([b] + rest)
  {
    forall s | 0 <= s < |[b] + rest|
      ensures RealTransitions(([b] + rest)[s])
    {
      if s > 0 {
        assert ([b] + rest)[s] == rest[s - 1];
      }
    }
  }

  /** The corrected iterator on a stream whose items are numbered by
      position: the buffers `dataset` fills, followed by the corrected run over
      the rest of the stream, yield only real transitions once there are two
      slots or more. */
  lemma NumberedStreamYieldsRealTransitions<A, B>(stream: seq<Item<int, A>>, size: nat, encode: A -> B, draws: seq<seq<int>>)
    requires 1 < size <= |stream|
    requires forall t :: 0 <= t < |stream| ==> stream[t].state == t
    requires |draws| == |stream| - size
    requires forall s, k :: 0 <= s < |draws| && 0 <= k < |draws[s]| ==> 0 <= draws[s][k] < size
    ensures AllReal(ReplayRun(Intended, Replay(StatesOf(stream[..size]), ActionsOf(stream[..size], encode)),
                              0, stream[size..], encode, draws).1)
  {
    var rp := Replay(StatesOf(stream[..size]), ActionsOf(stream[..size], encode));
    assert rp.states == seq(size, j => j);
    FillIsCurrent(size);
    RunSamplesRealTransitions(rp, 0, stream[size..], encode, draws);
  }

  /** The adjustment as written compares with the raw counter, so once the
      counter reaches `replay_size` a draw of the slot just written is kept,
      and its transition pairs the newest item, `R + i`, with the oldest one
      still in the buffer, `i + 1`. */
  lemma AsWrittenBrokenAfterWrap(buf: seq<int>, i: nat, size: nat, draws: seq<int>, k: nat)
    requires Current(buf, size + i, size) && i >= size
    requires forall k :: 0 <= k < |draws| ==> 0 <= draws[k] < size
    requires k < |draws| && draws[k] == Slot(i, size)
    ensures var j := AdjustAsWritten(draws, i, size)[k];
            && j == draws[k]
            && buf[j] == size + i
            && buf[NextSlot(j, size)] == i + 1
            && buf[NextSlot(j, size)] != buf[j] + 1
  {
    var t := size + i;
    var j := draws[k];
    var n := NextSlot(j, size);
    AsWrittenIdleAfterFill(draws, i, size);
    ModUnique(t, size, 1 + i / size, i % size);
    CongruentClose(t, buf[j], size);
    assert buf[j] == t;
    ModSucc(t, size);
    ModBack(t + 1, size);
    assert (i + 1) % size == n;
    if buf[n] <= i + 1 {
      CongruentClose(i + 1, buf[n], size);
    } else {
      CongruentClose(buf[n], i + 1, size);
    }
  }

  /** Two slots, items numbered from 0: after the fill and three steps the
      buffer holds items 4 and 3. At step 2 the draw 0 is the slot just
      written; as written it is kept and the sampled transition pairs item 4
      with item 3, while the corrected adjustment samples slot 1 and pairs
      item 3 with item 4. */
  lemma AsWrittenSamplesBrokenTransition()
    ensures Current([4, 3], 4, 2)
    ensures AdjustAsWritten([0], 2, 2) == [0] && [4, 3][NextSlot(0, 2)] == 3
    ensures Adjust([0], 2, 2) == [1] && [4, 3][NextSlot(1, 2)] == 4
  {
    assert 4 % 2 == 0 && 3 % 2 == 1;
    assert AdjustAsWritten([0], 2, 2)[0] == 0;
    assert Adjust([0], 2, 2)[0] == 1;
  }

  /** The step as written, once the counter has reached `replay_size`, keeps
      a draw of the slot just written, and the row it samples pairs the newest
      item with an item `R - 1` places older instead of with its successor. */
  lemma AsWrittenStepSamplesBrokenTransition<A, B>(rp: Replay<int, B>, i: nat, item: Item<int, A>, encode: A -> B,
                                                   draws: seq<int>, k: nat)
    requires ReplayInv(rp) && Current(rp.states, |rp.states| - 1 + i, |rp.states|) && i >= |rp.states|
    requires item.state == |rp.states| + i
    requires forall k :: 0 <= k < |draws| ==> 0 <= draws[k] < |rp.states|
    requires k < |draws| && draws[k] == Slot(i, |rp.states|)
    ensures var b := ReplayStep(AsWritten, rp, i, item, encode, draws).1;
            b.states[k] == |rp.states| + i && b.nextStates[k] == i + 1 && b.nextStates[k] != b.states[k] + 1
  {
    var size := |rp.states|;
    StepKeepsCurrent(AsWritten, rp, i, item, encode, draws);
    var r := ReplayStep(AsWritten, rp, i, item, encode, draws);
    AsWrittenBrokenAfterWrap(r.0.states, i, size, draws, k);
  }

  /** The iterator as written on the two-slot stream `0, 1, 2, 3, 4` with
      every draw 0: the third step's batch is the transition `(4, 3)`, while
      the corrected iterator samples `(3, 4)`. */
  lemma AsWrittenIteratorYieldsBrokenTransition()
    ensures var stream := seq(5, t => Item(t, 0));
            var fill := Replay(StatesOf(stream[..2]), ActionsOf(stream[..2], (a: int) => a));
            var draws := [[0], [0], [0]];
            && ReplayRun(AsWritten, fill, 0, stream[2..], (a: int) => a, draws).1[2].states == [4]
            && ReplayRun(AsWritten, fill, 0, stream[2..], (a: int) => a, draws).1[2].nextStates == [3]
            && ReplayRun(Intended, fill, 0, stream[2..], (a: int) => a, draws).1[2].states == [3]
            && ReplayRun(Intended, fill, 0, stream[2..], (a: int) => a, draws).1[2].nextStates == [4]
  {
    var stream := seq(5, t => Item(t, 0));
    var enc := (a: int) => a;
    var fill := Replay(StatesOf(stream[..2]), ActionsOf(stream[..2], enc));
    var draws := [[0], [0], [0]];
    assert fill.states == [0, 1];
    var items := stream[2..];
    assert items == [Item(2, 0), Item(3, 0), Item(4, 0)];
    AsWrittenSamplesBrokenTransition();
    ModUnique(2, 2, 1, 0);
    ModUnique(3, 2, 1, 1);
    ModUnique(4, 2, 2, 0);
    assert Slot(1, 2) == 1 && Slot(2, 2) == 0;
    var a0 := ReplayStep(AsWritten, fill, 0, items[0], enc, draws[0]);
    assert a0.0.states == [2, 1];
    var a1 := ReplayStep(AsWritten, a0.0, 1, items[1], enc, draws[1]);
    assert a1.0.states == [2, 3];
    var a2 := ReplayStep(AsWritten, a1.0, 2, items[2], enc, draws[2]);
    assert a2.0.states == [4, 3];
    assert a2.1.states == [4] && a2.1.nextStates == [3];
    var c0 := ReplayStep(Intended, fill, 0, items[0], enc, draws[0]);
    assert c0.0.states == [2, 1];
    var c1 := ReplayStep(Intended, c0.0, 1, items[1], enc, draws[1]);
    assert c1.0.states == [2, 3];
    var c2 := ReplayStep(Intended, c1.0, 2, items[2], enc, draws[2]);
    assert c2.0.states == [4, 3];
    assert c2.1.states == [3] && c2.1.nextStates == [4];
    RunThirdBatch(AsWritten, fill, items, enc, draws);
    RunThirdBatch(Intended, fill, items, enc, draws);
  }

  /** The third batch of a three-step run is the batch of its third step. */
  lemma RunThirdBatch<S, A, B>(v: Adjustment, rp: Replay<S, B>, items: seq<Item<S, A>>, encode: A -> B, draws: seq<seq<int>>)
    requires ReplayInv(rp) && |items| == |draws| == 3
    requires forall s, k :: 0 <= s < |draws| && 0 <= k < |draws[s]| ==> 0 <= draws[s][k] < |rp.states|
    ensures var s0 := ReplayStep(v, rp, 0, items[0], encode, draws[0]).0;
            var s1 := ReplayStep(v, s0, 1, items[1], encode, draws[1]).0;
            ReplayRun(v, rp, 0, items, encode, draws).1[2] == ReplayStep(v, s1, 2, items[2], encode, draws[2]).1
  {
    var s0 := ReplayStep(v, rp, 0, items[0], encode, draws[0]).0;
    var s1 := ReplayStep(v, s0, 1, items[1], encode, draws[1]).0;
    var b2 := ReplayStep(v, s1, 2, items[2], encode, draws[2]).1;
    var r2 := ReplayRun(v, s1, 2, items[2..], encode, draws[2..]).1;
    assert r2 == [b2];
    var r1 := ReplayRun(v, s0, 1, items[1..], encode, draws[1..]).1;
    assert items[1..][1..] == items[2..] && draws[1..][1..] == draws[2..];
    assert r1[1] == b2;
    assert ReplayRun(v, rp, 0, items, encode, draws).1[2] == r1[1];
  }
}
