/** The VAE and adversarial-autoencoder (AAE) optimisers of `AEOptimiser.py`:
    how each combines its loss terms, and the AAE's cache of constant target
    tensors, rebuilt only when the shape of the discriminator's output on real
    codes changes.

    Loss values are opaque reals; tensors are kept only where their shape and
    constant contents matter, that is for the cached targets. */
module Autoencoders {
  import opened PyResult

  // ---------------------------------------------------------------------------
  // VAE

  /** What `VAE.step` pushes to its running averages: total, KL and
      reconstruction loss. */
  datatype VaeLog = VaeLog(total: real, kld: real, recon: real)

  /** The KL term of `VAE.loss`: `beta * -0.5 * s`, where `s` is the sum over
      the latent entries of `1 + logvar - mu^2 - exp(logvar)`. */
  function Kld(beta: real, latentSum: real): (r: real)
    ensures latentSum == 0.0 ==> r == 0.0
    ensures beta == 0.0 ==> r == 0.0
  {
    beta * -0.5 * latentSum
  }

  /** `VAE.step`: the returned loss is the KL term plus the sum-reduced
      reconstruction loss, and the three values are logged. */
  function VaeStep(beta: real, latentSum: real, recon: real): (r: VaeLog)
    ensures r.recon == recon
    ensures r.kld == Kld(beta, latentSum)
    ensures r.total - r.recon == r.kld
    ensures latentSum == 0.0 ==> r.total == recon
  {
    var kld := Kld(beta, latentSum);
    VaeLog(kld + recon, kld, recon)
  }

  /** Changing `beta` changes only the KL contribution, linearly: doubling
      `beta` doubles the KL term and leaves the reconstruction term alone. */
  lemma VaeBetaScalesOnlyKld(beta: real, latentSum: real, recon: real)
    ensures VaeStep(2.0 * beta, latentSum, recon).kld == 2.0 * VaeStep(beta, latentSum, recon).kld
    ensures VaeStep(2.0 * beta, latentSum, recon).recon == VaeStep(beta, latentSum, recon).recon
    ensures VaeStep(2.0 * beta, latentSum, recon).total - VaeStep(beta, latentSum, recon).total
            == VaeStep(beta, latentSum, recon).kld
  {
  }

  // ---------------------------------------------------------------------------
  // Constant target tensors

  /** The number of elements of a tensor of the given shape. */
  function Numel(shape: seq<nat>): nat
    decreases |shape|
  {
    if |shape| == 0 then 1 else shape[0] * Numel(shape[1..])
  }

  /** A tensor: its shape and its elements in row-major order. */
  datatype Tensor = Tensor(shape: seq<nat>, data: seq<real>)

  predicate WellFormed(t: Tensor) {
    |t.data| == Numel(t.shape)
  }

  predicate AllEqual(t: Tensor, v: real) {
    forall i :: 0 <= i < |t.data| ==> t.data[i] == v
  }

  /** `np.ones(shape)` / `np.zeros(shape)` converted to a tensor. */
  function Filled(shape: seq<nat>, v: real): (t: Tensor)
    ensures t.shape == shape && WellFormed(t) && AllEqual(t, v)
  {
    Tensor(shape, seq(Numel(shape), _ => v))
  }

  /** The two cached targets of an `AAE` optimiser. */
  datatype Targets = Targets(ones: Tensor, zeros: Tensor)

  /** The constructor caches `np.array([])` for both: shape `(0,)`, no elements. */
  const InitialTargets: Targets := Targets(Tensor([0], []), Tensor([0], []))

  /** The real target is all ones and the fake target all zeros. */
  predicate ValidTargets(c: Targets) {
    WellFormed(c.ones) && AllEqual(c.ones, 1.0) && WellFormed(c.zeros) && AllEqual(c.zeros, 0.0)
  }

  lemma InitialTargetsValid()
    ensures ValidTargets(InitialTargets)
  {
  }

  /** The first half of `AAE.loss`: both targets are rebuilt, from the shapes of
      `p_real` and `p_fake`, only when the cached real target's shape differs
      from `p_real`'s; otherwise both are kept, so the fake target can be
      stale. */
  function Refresh(c: Targets, realShape: seq<nat>, fakeShape: seq<nat>): (r: Targets)
    ensures r.ones.shape == realShape
    ensures ValidTargets(c) ==> ValidTargets(r)
    ensures c.ones.shape == realShape ==> r == c
    ensures c.ones.shape != realShape ==> r.zeros.shape == fakeShape
  {
    if c.ones.shape == realShape then c
    else Targets(Filled(realShape, 1.0), Filled(fakeShape, 0.0))
  }

  /** What one `AAE.step` call sees: the shapes of `p_real` and `p_fake`, the
      pixel loss, and the two binary cross-entropies (their values, when the
      shapes agree). */
  datatype AaeBatch = AaeBatch(realShape: seq<nat>, fakeShape: seq<nat>,
                               pixel: real, bceReal: real, bceFake: real)

  /** What `AAE.step` pushes: total, pixel and adversarial loss. */
  datatype AaeLog = AaeLog(total: real, pixel: real, adversarial: real)

  function Min(a: real, b: real): real { if a <= b then a else b }
  function Max(a: real, b: real): real { if a <= b then b else a }

  /** `AAE.step`: the targets are refreshed (and stay refreshed even when the
      call then fails), the adversarial loss is the sum of the two binary
      cross-entropies, which raise `ValueError` when a target's shape differs
      from its input's, and the total is `beta * pixel + (1 - beta) * adv`. */
  function AaeStep(c: Targets, b: AaeBatch, beta: real): (r: (Targets, Result<AaeLog>))
    ensures r.0 == Refresh(c, b.realShape, b.fakeShape)
    ensures r.1.Err? <==> r.0.zeros.shape != b.fakeShape
    ensures r.1.Err? ==> r.1.error == ValueError
    ensures r.1.Ok? ==> r.1.value.pixel == b.pixel && r.1.value.adversarial == b.bceReal + b.bceFake
    ensures r.1.Ok? ==> r.1.value.total == beta * b.pixel + (1.0 - beta) * r.1.value.adversarial
    // with a weight in [0, 1] the total lies between the two terms
    ensures r.1.Ok? && 0.0 <= beta <= 1.0 ==>
              Min(r.1.value.pixel, r.1.value.adversarial) <= r.1.value.total <= Max(r.1.value.pixel, r.1.value.adversarial)
    ensures r.1.Ok? && beta == 1.0 ==> r.1.value.total == b.pixel
  {
    var c' := Refresh(c, b.realShape, b.fakeShape);
    if c'.zeros.shape != b.fakeShape then (c', Err(ValueError))
    else
      var adv := b.bceReal + b.bceFake;
      ConvexBetween(beta, b.pixel, adv);
      (c', Ok(AaeLog(beta * b.pixel + (1.0 - beta) * adv, b.pixel, adv)))
  }

  /** A weight in `[0, 1]` puts the weighted sum between its two terms. */
  lemma ConvexBetween(beta: real, x: real, y: real)
    ensures 0.0 <= beta <= 1.0 ==> Min(x, y) <= beta * x + (1.0 - beta) * y <= Max(x, y)
  {
    var d := x - y;
    assert beta * x + (1.0 - beta) * y == y + beta * d;
    if 0.0 <= beta <= 1.0 {
      if d <= 0.0 {
        assert beta * d <= 0.0;
        assert (1.0 - beta) * d <= 0.0;
      } else {
        assert beta * d >= 0.0;
        assert (1.0 - beta) * d >= 0.0;
      }
    }
  }

  /** A run of `AAE.step` calls: the final cache and each call's outcome. */
  function AaeRun(c: Targets, batches: seq<AaeBatch>, beta: real): (r: (Targets, seq<Result<AaeLog>>))
    ensures |r.1| == |batches|
    decreases |batches|
  {
    if |batches| == 0 then (c, [])
    else
      var s := AaeStep(c, batches[0], beta);
      var rest := AaeRun(s.0, batches[1..], beta);
      (rest.0, [s.1] + rest.1)
  }

  /** When every call's `p_real` and `p_fake` have the same shape, no call
      fails and the cached targets stay all ones and all zeros: the two
      targets always share a shape, so refreshing on `p_real` is enough. */
  lemma {:induction false} AaeRunSameShapesNeverFails(c: Targets, batches: seq<AaeBatch>, beta: real)
    requires ValidTargets(c) && c.ones.shape == c.zeros.shape
    requires forall k :: 0 <= k < |batches| ==> batches[k].realShape == batches[k].fakeShape
    ensures var r := AaeRun(c, batches, beta);
            && ValidTargets(r.0)
            && r.0.ones.shape == r.0.zeros.shape
            && forall k :: 0 <= k < |r.1| ==> r.1[k].Ok?
    decreases |batches|
  {
    if |batches| > 0 {
      var s := AaeStep(c, batches[0], beta);
      AaeRunSameShapesNeverFails(s.0, batches[1..], beta);
      var r := AaeRun(c, batches, beta);
      var rest := AaeRun(s.0, batches[1..], beta);
      forall k | 0 <= k < |r.1|
        ensures r.1[k].Ok?
      {
        if k > 0 {
          assert r.1[k] == rest.1[k - 1];
        }
      }
    }
  }

  /** The stale fake target: a second call whose `p_real` keeps its shape but
      whose `p_fake` has a new one fails, because the fake target is not
      rebuilt. */
  lemma StaleFakeTargetFails(beta: real)
    ensures var batches := [AaeBatch([4, 1], [4, 1], 0.0, 0.0, 0.0),
                            AaeBatch([4, 1], [8, 1], 0.0, 0.0, 0.0)];
            var r := AaeRun(InitialTargets, batches, beta);
            r.1[0].Ok? && r.1[1] == Err(ValueError)
  {
    var b0 := AaeBatch([4, 1], [4, 1], 0.0, 0.0, 0.0);
    var b1 := AaeBatch([4, 1], [8, 1], 0.0, 0.0, 0.0);
    var s0 := AaeStep(InitialTargets, b0, beta);
    assert s0.0.zeros.shape == [4, 1];
    var s1 := AaeStep(s0.0, b1, beta);
    assert [b0, b1][1..] == [b1];
    assert [b1][1..] == [];
  }
}
