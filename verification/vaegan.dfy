/** The VAE-GAN optimiser of `AEOptimiser.py`: the two persistent flags that
    decide whether the decoder and the discriminator train, the rule that
    updates them from two batch means, and the sequence of gradient events one
    `step` call performs.

    Losses and batch means are opaque reals: the tensor numerics that produce
    them are not modelled, only how they are gated and ordered. */
module VaeGan {

  /** `equilibrium` and `margin` of `VAEGAN.loss`. */
  const Equilibrium: real := 0.68
  const Margin: real := 0.2
  /** Below this batch mean the discriminator stops training. */
  const Lo: real := Equilibrium - Margin
  /** Above this batch mean the decoder stops training. */
  const Hi: real := Equilibrium + Margin

  /** The flags `train_dis` and `train_dec`. */
  datatype Gate = Gate(trainDis: bool, trainDec: bool)

  /** Both flags start true in the constructor. */
  const Initial: Gate := Gate(true, true)

  /** At least one of the two networks is allowed to train. */
  predicate Live(g: Gate) {
    g.trainDis || g.trainDec
  }

  /** Some batch mean is strictly below the lower threshold. */
  predicate TooLow(meanReal: real, meanRecon: real) {
    meanReal < Lo || meanRecon < Lo
  }

  /** Some batch mean is strictly above the upper threshold. */
  predicate TooHigh(meanReal: real, meanRecon: real) {
    meanReal > Hi || meanRecon > Hi
  }

  /** Both flags would be false after the two threshold tests, before the
      reset rule runs. */
  predicate BothCleared(g: Gate, meanReal: real, meanRecon: real) {
    (TooLow(meanReal, meanRecon) || !g.trainDis) && (TooHigh(meanReal, meanRecon) || !g.trainDec)
  }

  /** One evaluation of the gate inside `VAEGAN.loss`, given the batch means of
      `p1` (the discriminator on real inputs) and `p2` (on reconstructions). */
  function UpdateGate(g: Gate, meanReal: real, meanRecon: real): (r: Gate)
    ensures Live(r)
    // neither threshold crossed: nothing changes (a dead gate is revived)
    ensures !TooLow(meanReal, meanRecon) && !TooHigh(meanReal, meanRecon) ==>
              r == (if Live(g) then g else Initial)
    // only the lower threshold crossed: the discriminator stops, unless the decoder had already stopped
    ensures TooLow(meanReal, meanRecon) && !TooHigh(meanReal, meanRecon) ==>
              r == (if g.trainDec then Gate(false, true) else Initial)
    // only the upper threshold crossed: the decoder stops, unless the discriminator had already stopped
    ensures TooHigh(meanReal, meanRecon) && !TooLow(meanReal, meanRecon) ==>
              r == (if g.trainDis then Gate(true, false) else Initial)
    // both crossed: the reset happens in this same call
    ensures TooLow(meanReal, meanRecon) && TooHigh(meanReal, meanRecon) ==> r == Initial
    // a flag only becomes true again through the reset of both
    ensures (!g.trainDis && r.trainDis) || (!g.trainDec && r.trainDec) ==>
              BothCleared(g, meanReal, meanRecon) && r == Initial
    ensures BothCleared(g, meanReal, meanRecon) <==> r == Initial && (TooLow(meanReal, meanRecon) || TooHigh(meanReal, meanRecon) || !Live(g))
  {
    var dis := if TooLow(meanReal, meanRecon) then false else g.trainDis;
    var dec := if TooHigh(meanReal, meanRecon) then false else g.trainDec;
    if !dis && !dec then Initial else Gate(dis, dec)
  }

  /** The gate after a run of `loss` calls, one per pair of batch means. */
  function RunGate(g: Gate, means: seq<(real, real)>): Gate
    decreases |means|
  {
    if |means| == 0 then g else RunGate(UpdateGate(g, means[0].0, means[0].1), means[1..])
  }

  /** From the constructor's state, the two flags are never false together. */
  lemma {:induction false} RunGateLive(g: Gate, means: seq<(real, real)>)
    requires Live(g)
    ensures Live(RunGate(g, means))
    decreases |means|
  {
    if |means| > 0 {
      RunGateLive(UpdateGate(g, means[0].0, means[0].1), means[1..]);
    }
  }

  // ---------------------------------------------------------------------------
  // The gate as an explicit transition table over three named states.

  /** The three live states of the gate. */
  datatype Mode = BothTrain | DecoderOnly | DiscriminatorOnly

  /** What the two batch means say about the current batch. */
  datatype Signal = Calm | Low | High | Split

  function Classify(meanReal: real, meanRecon: real): Signal {
    match (TooLow(meanReal, meanRecon), TooHigh(meanReal, meanRecon))
    case (false, false) => Calm
    case (true, false) => Low
    case (false, true) => High
    case (true, true) => Split
  }

  function ToGate(s: Mode): Gate {
    match s
    case BothTrain => Gate(true, true)
    case DecoderOnly => Gate(false, true)
    case DiscriminatorOnly => Gate(true, false)
  }

  /** The transition table: a low mean silences the discriminator, a high
      mean silences the decoder, and silencing the one network still
      training resets both. */
  function Next(s: Mode, sig: Signal): Mode {
    match (s, sig)
    case (_, Calm) => s
    case (_, Split) => BothTrain
    case (BothTrain, Low) => DecoderOnly
    case (BothTrain, High) => DiscriminatorOnly
    case (DecoderOnly, Low) => DecoderOnly
    case (DecoderOnly, High) => BothTrain
    case (DiscriminatorOnly, Low) => BothTrain
    case (DiscriminatorOnly, High) => DiscriminatorOnly
  }

  /** The live gates are exactly the images of the three named states. */
  lemma LiveGatesAreModes(g: Gate)
    ensures Live(g) <==> exists s :: ToGate(s) == g
  {
    if Live(g) {
      var s := if !g.trainDis then DecoderOnly else if !g.trainDec then DiscriminatorOnly else BothTrain;
      assert ToGate(s) == g;
    }
  }

  /** The flag-update code and the transition table agree on every state and
      every pair of means. */
  lemma UpdateGateFollowsTable(s: Mode, meanReal: real, meanRecon: real)
    ensures UpdateGate(ToGate(s), meanReal, meanRecon) == ToGate(Next(s, Classify(meanReal, meanRecon)))
  {
  }

  // ---------------------------------------------------------------------------
  // One `step` call as a trace of gradient events.

  /** The three parameter groups, each with its own RMSprop update rule. */
  datatype SubNet = Encoder | Decoder | Discriminator

  /** What a `zero_grad` call clears: the whole model or the discriminator. */
  datatype Scope = WholeModel | DiscOnly

  /** The three losses a step back-propagates. */
  datatype LossTerm = EncoderLoss | DecoderLoss | AdversarialLoss

  datatype Event =
    | ZeroGrad(scope: Scope)
    | Log(losses: Losses)
    | Backward(term: LossTerm, value: real, retainGraph: bool)
    | Update(net: SubNet)

  /** The batch means of the three loss terms `loss` returns. */
  datatype Losses = Losses(kld: real, disl: real, gan: real)

  /** What one call sees: the means of `p1` and `p2`, and the three losses. */
  datatype Batch = Batch(meanReal: real, meanRecon: real, losses: Losses)

  /** The loss each parameter group is meant to follow. */
  function Intended(n: SubNet): LossTerm {
    match n
    case Encoder => EncoderLoss
    case Decoder => DecoderLoss
    case Discriminator => AdversarialLoss
  }

  /** The decoder's loss, `lambda_dec * disl - (1 - lambda_dec) * gan`. */
  function DecoderLossValue(l: Losses, lambdaDec: real): real {
    lambdaDec * l.disl - (1.0 - lambdaDec) * l.gan
  }

  /** The events of one `step` call, given the flags as `loss` left them. */
  function StepTrace(g: Gate, l: Losses, lambdaDec: real): (r: seq<Event>)
    ensures |r| >= 5 && r[..5] == [ZeroGrad(WholeModel), Log(l), Backward(EncoderLoss, l.kld + l.disl, true),
                                    Update(Encoder), ZeroGrad(WholeModel)]
    ensures Update(Decoder) in r <==> g.trainDec
    ensures Update(Discriminator) in r <==> g.trainDis
    ensures g.trainDis ==> r[|r| - 1] == Update(Discriminator)
  {
    [ZeroGrad(WholeModel), Log(l)]
    + [Backward(EncoderLoss, l.kld + l.disl, true), Update(Encoder), ZeroGrad(WholeModel)]
    + (if g.trainDec then [Backward(DecoderLoss, DecoderLossValue(l, lambdaDec), true), Update(Decoder)] else [])
    + (if g.trainDis then [ZeroGrad(DiscOnly), Backward(AdversarialLoss, l.gan, false), Update(Discriminator)] else [])
  }

  /** `VAEGAN.step`: the gate is updated inside `loss`, and the updated flags
      decide, in the same call, which networks are stepped. */
  function Step(g: Gate, b: Batch, lambdaDec: real): (r: (Gate, seq<Event>))
    ensures Live(r.0)
    ensures r.0 == UpdateGate(g, b.meanReal, b.meanRecon)
  {
    var g' := UpdateGate(g, b.meanReal, b.meanRecon);
    (g', StepTrace(g', b.losses, lambdaDec))
  }

  // ---------------------------------------------------------------------------
  // An abstract machine that runs a trace: gradient buffers, the computation
  // graph, the sub-networks stepped and the losses logged.

  /** Which loss terms have added gradient to each group since it was last
      cleared. Every backward pass is taken to reach all three groups, the
      worst case for a model whose wiring is not visible. */
  datatype Grads = Grads(enc: seq<LossTerm>, dec: seq<LossTerm>, dis: seq<LossTerm>)

  function Buffer(gr: Grads, n: SubNet): seq<LossTerm> {
    match n
    case Encoder => gr.enc
    case Decoder => gr.dec
    case Discriminator => gr.dis
  }

  /** `clean` stays true while every update sees only its own loss's gradient
      and no backward pass runs on a freed graph. */
  datatype Machine = Machine(grads: Grads, graphFreed: bool, clean: bool,
                             updated: seq<SubNet>, logged: seq<Losses>)

  /** The machine at the start of a call: a fresh forward pass, whatever
      gradients the previous call left behind. */
  function Start(gr: Grads): Machine {
    Machine(gr, false, true, [], [])
  }

  function Exec1(m: Machine, e: Event): Machine {
    match e
    case ZeroGrad(WholeModel) => m.(grads := Grads([], [], []))
    case ZeroGrad(DiscOnly) => m.(grads := m.grads.(dis := []))
    case Log(l) => m.(logged := m.logged + [l])
    case Backward(t, _, retain) =>
      m.(grads := Grads(m.grads.enc + [t], m.grads.dec + [t], m.grads.dis + [t]),
         graphFreed := m.graphFreed || !retain,
         clean := m.clean && !m.graphFreed)
    case Update(n) =>
      m.(clean := m.clean && Buffer(m.grads, n) == [Intended(n)],
         updated := m.updated + [n])
  }

  function Exec(m: Machine, t: seq<Event>): Machine
    decreases |t|
  {
    if |t| == 0 then m else Exec(Exec1(m, t[0]), t[1..])
  }

  lemma {:induction false} ExecAppend(m: Machine, a: seq<Event>, b: seq<Event>)
    ensures Exec(m, a + b) == Exec(Exec(m, a), b)
    decreases |a|
  {
    if |a| > 0 {
      assert (a + b)[0] == a[0];
      assert (a + b)[1..] == a[1..] + b;
      ExecAppend(Exec1(m, a[0]), a[1..], b);
    } else {
      assert a + b == b;
    }
  }

  lemma ExecPair(m: Machine, e1: Event, e2: Event)
    ensures Exec(m, [e1, e2]) == Exec1(Exec1(m, e1), e2)
  {
    assert [e1, e2][1..] == [e2];
    assert Exec(Exec1(m, e1), [e2]) == Exec(Exec1(Exec1(m, e1), e2), []);
  }

  lemma ExecTriple(m: Machine, e1: Event, e2: Event, e3: Event)
    ensures Exec(m, [e1, e2, e3]) == Exec1(Exec1(Exec1(m, e1), e2), e3)
  {
    assert [e1, e2, e3][1..] == [e2, e3];
    ExecPair(Exec1(m, e1), e2, e3);
  }

  /** The sub-networks a step with flags `g` is meant to update, in order. */
  function Expected(g: Gate): seq<SubNet> {
    [Encoder] + (if g.trainDec then [Decoder] else []) + (if g.trainDis then [Discriminator] else [])
  }

  /** Whatever gradients the previous call left, one step logs its losses
      once, updates the encoder and then the decoder iff `train_dec` and then
      the discriminator iff `train_dis`, each update seeing only the gradient
      of its own loss, and never back-propagates through a freed graph. */
  lemma {:induction false} StepTraceRuns(g: Gate, l: Losses, lambdaDec: real, gr: Grads)
    ensures var m := Exec(Start(gr), StepTrace(g, l, lambdaDec));
            m.clean && m.updated == Expected(g) && m.logged == [l]
  {
    var pre := [ZeroGrad(WholeModel), Log(l)];
    var enc := [Backward(EncoderLoss, l.kld + l.disl, true), Update(Encoder), ZeroGrad(WholeModel)];
    var dec := if g.trainDec then [Backward(DecoderLoss, DecoderLossValue(l, lambdaDec), true), Update(Decoder)] else [];
    var dis := if g.trainDis then [ZeroGrad(DiscOnly), Backward(AdversarialLoss, l.gan, false), Update(Discriminator)] else [];
    var m0 := Start(gr);
    ExecAppend(m0, pre + enc + dec, dis);
    ExecAppend(m0, pre + enc, dec);
    ExecAppend(m0, pre, enc);
    ExecPair(m0, pre[0], pre[1]);
    var m1 := Exec(m0, pre);
    assert m1 == Machine(Grads([], [], []), false, true, [], [l]);
    ExecTriple(m1, enc[0], enc[1], enc[2]);
    var m2 := Exec(m1, enc);
    assert m2 == Machine(Grads([], [], []), false, true, [Encoder], [l]);
    var m3 := Exec(m2, dec);
    if g.trainDec {
      ExecPair(m2, dec[0], dec[1]);
      assert m3 == Machine(Grads([DecoderLoss], [DecoderLoss], [DecoderLoss]), false, true, [Encoder, Decoder], [l]);
    } else {
      assert m3 == m2;
    }
    var m4 := Exec(m3, dis);
    if g.trainDis {
      ExecTriple(m3, dis[0], dis[1], dis[2]);
      assert m4.clean && m4.updated == m3.updated + [Discriminator] && m4.logged == [l];
    } else {
      assert m4 == m3;
    }
  }

  /** Every step call updates at least two of the three networks: the encoder
      always, and at least one of the others because the gate is live. */
  lemma StepUpdatesTwo(g: Gate, b: Batch, lambdaDec: real, gr: Grads)
    ensures var r := Step(g, b, lambdaDec);
            var m := Exec(Start(gr), r.1);
            m.clean && m.updated == Expected(r.0) && |m.updated| >= 2 && m.updated[0] == Encoder
  {
    var r := Step(g, b, lambdaDec);
    StepTraceRuns(r.0, b.losses, lambdaDec, gr);
  }

  // ---------------------------------------------------------------------------
  // A training run: one step per batch.

  /** The final gate and the trace of every call, in order. */
  function Train(g: Gate, batches: seq<Batch>, lambdaDec: real): (r: (Gate, seq<seq<Event>>))
    ensures |r.1| == |batches|
    decreases |batches|
  {
    if |batches| == 0 then (g, [])
    else
      var s := Step(g, batches[0], lambdaDec);
      var rest := Train(s.0, batches[1..], lambdaDec);
      (rest.0, [s.1] + rest.1)
  }

  /** Along a whole run from the constructor's state, the final gate is the
      gate driven by the batch means alone, it stays live, and every call
      updates the encoder and at least one other network with clean
      gradients. */
  lemma {:induction false} TrainUpdatesTwoEveryCall(g: Gate, batches: seq<Batch>, lambdaDec: real, gr: Grads)
    requires Live(g)
    ensures var r := Train(g, batches, lambdaDec);
            && Live(r.0)
            && r.0 == RunGate(g, seq(|batches|, k requires 0 <= k < |batches| => (batches[k].meanReal, batches[k].meanRecon)))
            && forall k :: 0 <= k < |r.1| ==>
                 var m := Exec(Start(gr), r.1[k]);
                 m.clean && |m.updated| >= 2 && m.updated[0] == Encoder
    decreases |batches|
  {
    var means := seq(|batches|, k requires 0 <= k < |batches| => (batches[k].meanReal, batches[k].meanRecon));
    if |batches| > 0 {
      var s := Step(g, batches[0], lambdaDec);
      var tail := batches[1..];
      TrainUpdatesTwoEveryCall(s.0, tail, lambdaDec, gr);
      StepUpdatesTwo(g, batches[0], lambdaDec, gr);
      var tailMeans := seq(|tail|, k requires 0 <= k < |tail| => (tail[k].meanReal, tail[k].meanRecon));
      assert means[1..] == tailMeans;
      var r := Train(g, batches, lambdaDec);
      var rest := Train(s.0, tail, lambdaDec);
      assert r.1 == [s.1] + rest.1;
      forall k | 0 <= k < |r.1|
        ensures var m := Exec(Start(gr), r.1[k]); m.clean && |m.updated| >= 2 && m.updated[0] == Encoder
      {
        if k > 0 {
          assert r.1[k] == rest.1[k - 1];
        }
      }
    }
  }
}
