/**
  * Sampling a direction towards an emitter (Scene::sample_emitter_direction), for one lane
  * and for a batch of lanes.
  *
  * The collaborators the scene delegates to are parameters: the emitter distribution's
  * sample_reuse_pdf (`select`), the chosen emitter's sample_direction (`sampleDirection`) and
  * the shadow-ray test (`occluded`, which builds the shadow ray from the reference point and
  * the direction sample). Radiance is one real channel.
  */
module EmitterSampling {
  import opened SceneObjects
  import opened EmitterDistribution

  datatype Vector3 = Vector3(x: real, y: real, z: real)

  /** The reference interaction the direction is sampled from. */
  datatype Interaction = Interaction(p: Vector3, time: real)

  datatype Point2 = Point2(x: real, y: real)

  datatype DirectionSample = DirectionSample(d: Vector3, dist: real, pdf: real)

  /** What the emitter distribution returns for a uniform number: the chosen index, its
    * selection probability, and the remainder of the number rescaled for reuse. */
  datatype Selection = Selection(index: nat, pdf: real, reused: real)

  /** A direction sample together with its radiance weight. */
  datatype EmitterSample = EmitterSample(ds: DirectionSample, spec: real)

  type Selector = real -> Selection
  type DirectionSampler = (EmitterRef, Interaction, Point2) -> EmitterSample
  type Occlusion = (Interaction, DirectionSample) -> bool

  /** The direction sample returned when there is nothing to sample. */
  const EmptySample := DirectionSample(Vector3(0.0, 0.0, 0.0), 0.0, 0.0)

  /** `s` is a draw from the distribution `distr`: an index into it, with that entry's
    * (positive) probability. */
  predicate DrawsFrom(distr: seq<real>, s: Selection) {
    s.index < |distr| && s.pdf == distr[s.index] && s.pdf > 0.0
  }

  /** The chosen emitter's own sample, taken with the first coordinate replaced by the reused
    * remainder of the selection. */
  function EmitterDraw(emitters: seq<EmitterRef>, select: Selector, sampleDirection: DirectionSampler,
                       ref: Interaction, sample: Point2): EmitterSample
    requires select(sample.x).index < |emitters|
  {
    var sel := select(sample.x);
    sampleDirection(emitters[sel.index], ref, Point2(sel.reused, sample.y))
  }

  /** The lane's shadow ray is traced and reports a hit: visibility is tested, the lane is
    * still active, the emitter's pdf is not zero, and the ray is blocked. */
  predicate Shadowed(es: EmitterSample, occluded: Occlusion, ref: Interaction,
                     testVisibility: bool, active: bool) {
    testVisibility && active && es.ds.pdf != 0.0 && occluded(ref, es.ds)
  }

  /** The emitter's radiance weight after the visibility test, before the selection pdf is
    * accounted for. */
  function Visible(es: EmitterSample, occluded: Occlusion, ref: Interaction,
                   testVisibility: bool, active: bool): real {
    if Shadowed(es, occluded, ref, testVisibility, active) then 0.0 else es.spec
  }

  /** One lane of Scene::sample_emitter_direction. */
  function SampleEmitterDirection(emitters: seq<EmitterRef>, distr: seq<real>, select: Selector,
                                  sampleDirection: DirectionSampler, occluded: Occlusion,
                                  ref: Interaction, sample: Point2, testVisibility: bool,
                                  active: bool): (r: EmitterSample)
    requires |distr| == |emitters|
    requires |emitters| > 0 ==> DrawsFrom(distr, select(sample.x))
    ensures |emitters| == 0 ==> r.spec == 0.0 && r.ds.pdf == 0.0
    ensures |emitters| > 0 ==>
      var sel := select(sample.x);
      var es := EmitterDraw(emitters, select, sampleDirection, ref, sample);
      // the direction is the emitter's, and only the pdf and the radiance are adjusted
      r.ds.d == es.ds.d && r.ds.dist == es.ds.dist &&
      // chain rule: probability of the emitter times probability of the direction
      r.ds.pdf == es.ds.pdf * sel.pdf &&
      // radiance is the visible radiance divided by the selection probability
      r.spec * sel.pdf == Visible(es, occluded, ref, testVisibility, active) &&
      // an occluded active lane carries no radiance
      (Shadowed(es, occluded, ref, testVisibility, active) ==> r.spec == 0.0)
  {
    if |emitters| == 0 then
      EmitterSample(EmptySample, 0.0)
    else
      var sel := select(sample.x);
      var es := sampleDirection(emitters[sel.index], ref, Point2(sel.reused, sample.y));
      var active := active && es.ds.pdf != 0.0;
      var spec := if testVisibility && active && occluded(ref, es.ds) then 0.0 else es.spec;
      EmitterSample(es.ds.(pdf := es.ds.pdf * sel.pdf), spec * (1.0 / sel.pdf))
  }

  /** The occlusion oracle of a scene where nothing blocks any shadow ray. */
  function NothingBlocks(): Occlusion {
    (ref: Interaction, ds: DirectionSample) => false
  }

  /** Occlusion zeroes the radiance and nothing else: against an unoccluded scene, the direction
    * sample (direction, distance and pdf) is identical, and the radiance is either identical or,
    * for a shadowed lane, zero. */
  lemma OcclusionOnlyZeroesRadiance(emitters: seq<EmitterRef>, distr: seq<real>, select: Selector,
                                    sampleDirection: DirectionSampler, occluded: Occlusion,
                                    ref: Interaction, sample: Point2, testVisibility: bool,
                                    active: bool)
    requires |distr| == |emitters|
    requires |emitters| > 0 ==> DrawsFrom(distr, select(sample.x))
    ensures var r := SampleEmitterDirection(emitters, distr, select, sampleDirection, occluded,
                                            ref, sample, testVisibility, active);
      var clear := SampleEmitterDirection(emitters, distr, select, sampleDirection, NothingBlocks(),
                                          ref, sample, testVisibility, active);
      r.ds == clear.ds && (r.spec == clear.spec || r.spec == 0.0)
  {
  }

  /** A lane whose emitter pdf is zero, or that is inactive, takes no part in the visibility
    * test: its result does not depend on the occlusion oracle. */
  lemma DegenerateLanesSkipVisibility(emitters: seq<EmitterRef>, distr: seq<real>, select: Selector,
                                      sampleDirection: DirectionSampler, occluded1: Occlusion,
                                      occluded2: Occlusion, ref: Interaction, sample: Point2,
                                      testVisibility: bool, active: bool)
    requires |distr| == |emitters| > 0 && DrawsFrom(distr, select(sample.x))
    requires !active || EmitterDraw(emitters, select, sampleDirection, ref, sample).ds.pdf == 0.0
    ensures SampleEmitterDirection(emitters, distr, select, sampleDirection, occluded1,
                                   ref, sample, testVisibility, active) ==
            SampleEmitterDirection(emitters, distr, select, sampleDirection, occluded2,
                                   ref, sample, testVisibility, active)
  {
  }

  /** With the scene's uniform distribution over `n` emitters, the returned pdf is the emitter's
    * pdf divided by n and the radiance is the visible radiance multiplied by n. */
  lemma UniformSelectionScaling(emitters: seq<EmitterRef>, select: Selector,
                                sampleDirection: DirectionSampler, occluded: Occlusion,
                                ref: Interaction, sample: Point2, testVisibility: bool,
                                active: bool)
    requires |emitters| > 0
    requires DrawsFrom(Uniform(|emitters|), select(sample.x))
    ensures var n := |emitters| as real;
      var es := EmitterDraw(emitters, select, sampleDirection, ref, sample);
      var r := SampleEmitterDirection(emitters, Uniform(|emitters|), select, sampleDirection,
                                      occluded, ref, sample, testVisibility, active);
      r.ds.pdf == es.ds.pdf / n && r.spec == Visible(es, occluded, ref, testVisibility, active) * n
  {
    UniformSelection(|emitters|);
    var n := |emitters| as real;
    var sel := select(sample.x);
    assert sel.pdf == 1.0 / n;
  }

  // ---------------------------------------------------------------------------------------
  // Unbiasedness of the emitter choice

  /** The selector that always picks emitter `k`, with its probability under `distr`, and
    * leaves the uniform number `u` for the emitter. */
  function Pick(distr: seq<real>, k: nat, u: real): Selector
    requires k < |distr|
  {
    var p := distr[k];
    (x: real) => Selection(k, p, u)
  }

  predicate Positive(distr: seq<real>) {
    forall i :: 0 <= i < |distr| ==> distr[i] > 0.0
  }

  /** The visible radiance of emitter `k` sampled with `sample`. */
  function EmitterRadiance(emitters: seq<EmitterRef>, sampleDirection: DirectionSampler,
                               occluded: Occlusion, ref: Interaction, sample: Point2,
                               testVisibility: bool, active: bool, k: nat): real
    requires k < |emitters|
  {
    Visible(sampleDirection(emitters[k], ref, sample), occluded, ref, testVisibility, active)
  }

  /** The sum, over the emitters from position `k` on, of the visible radiance of each. */
  function TotalRadiance(emitters: seq<EmitterRef>, sampleDirection: DirectionSampler,
                             occluded: Occlusion, ref: Interaction, sample: Point2,
                             testVisibility: bool, active: bool, k: nat): real
    requires k <= |emitters|
    decreases |emitters| - k
  {
    if k == |emitters| then 0.0
    else EmitterRadiance(emitters, sampleDirection, occluded, ref, sample, testVisibility, active, k)
         + TotalRadiance(emitters, sampleDirection, occluded, ref, sample, testVisibility, active, k + 1)
  }

  /** The expected radiance over the choice of emitter, from position `k` on: each emitter's
    * result weighted by the probability of choosing it. */
  function ExpectedRadiance(emitters: seq<EmitterRef>, distr: seq<real>,
                            sampleDirection: DirectionSampler, occluded: Occlusion,
                            ref: Interaction, sample: Point2, testVisibility: bool,
                            active: bool, k: nat): real
    requires |distr| == |emitters| && Positive(distr) && k <= |emitters|
    decreases |emitters| - k
  {
    if k == |emitters| then 0.0
    else
      var r := SampleEmitterDirection(emitters, distr, Pick(distr, k, sample.x), sampleDirection,
                                      occluded, ref, sample, testVisibility, active);
      distr[k] * r.spec
      + ExpectedRadiance(emitters, distr, sampleDirection, occluded, ref, sample, testVisibility, active, k + 1)
  }

  /** Dividing by the selection probability makes the estimator unbiased: its expectation over
    * the choice of emitter is the sum of all emitters' visible radiance. */
  lemma {:induction false} SelectionIsUnbiased(emitters: seq<EmitterRef>, distr: seq<real>,
                                               sampleDirection: DirectionSampler, occluded: Occlusion,
                                               ref: Interaction, sample: Point2, testVisibility: bool,
                                               active: bool, k: nat)
    requires |distr| == |emitters| && Positive(distr) && k <= |emitters|
    ensures ExpectedRadiance(emitters, distr, sampleDirection, occluded, ref, sample, testVisibility, active, k)
         == TotalRadiance(emitters, sampleDirection, occluded, ref, sample, testVisibility, active, k)
    decreases |emitters| - k
  {
    if k < |emitters| {
      SelectionIsUnbiased(emitters, distr, sampleDirection, occluded, ref, sample, testVisibility, active, k + 1);
      var select := Pick(distr, k, sample.x);
      assert DrawsFrom(distr, select(sample.x));
      var r := SampleEmitterDirection(emitters, distr, select, sampleDirection,
                                      occluded, ref, sample, testVisibility, active);
      assert EmitterDraw(emitters, select, sampleDirection, ref, sample)
          == sampleDirection(emitters[k], ref, sample);
      assert distr[k] * r.spec
          == EmitterRadiance(emitters, sampleDirection, occluded, ref, sample, testVisibility, active, k);
    }
  }

  // ---------------------------------------------------------------------------------------
  // Batches of lanes

  /** The per-lane inputs of a batched query. */
  datatype Lane = Lane(ref: Interaction, sample: Point2, active: bool)

  /** The lane can be sampled: the distribution has one entry per emitter and, if there are
    * emitters, the lane's uniform number yields a draw from it. */
  predicate Drawable(emitters: seq<EmitterRef>, distr: seq<real>, select: Selector, lane: Lane) {
    |distr| == |emitters| && (|emitters| > 0 ==> DrawsFrom(distr, select(lane.sample.x)))
  }

  /** The lane is still active after lanes with a zero emitter pdf are masked off. */
  predicate StillActive(emitters: seq<EmitterRef>, distr: seq<real>, select: Selector,
                        sampleDirection: DirectionSampler, lane: Lane)
    requires |emitters| > 0 && Drawable(emitters, distr, select, lane)
  {
    lane.active && EmitterDraw(emitters, select, sampleDirection, lane.ref, lane.sample).ds.pdf != 0.0
  }

  /** Some lane of the batch is still active: the batch's guard on the shadow-ray test. */
  predicate AnyStillActive(emitters: seq<EmitterRef>, distr: seq<real>, select: Selector,
                           sampleDirection: DirectionSampler, lanes: seq<Lane>)
    requires |emitters| > 0 && forall lane :: lane in lanes ==> Drawable(emitters, distr, select, lane)
  {
    exists lane :: lane in lanes && StillActive(emitters, distr, select, sampleDirection, lane)
  }

  /** One lane of a batch, given whether the batch runs the shadow-ray test at all. */
  function BatchLane(emitters: seq<EmitterRef>, distr: seq<real>, select: Selector,
                     sampleDirection: DirectionSampler, occluded: Occlusion, lane: Lane,
                     testVisibility: bool, runTest: bool): EmitterSample
    requires |emitters| > 0 && Drawable(emitters, distr, select, lane)
  {
    var sel := select(lane.sample.x);
    var es := EmitterDraw(emitters, select, sampleDirection, lane.ref, lane.sample);
    var active := StillActive(emitters, distr, select, sampleDirection, lane);
    var hit := testVisibility && runTest && active && occluded(lane.ref, es.ds);
    EmitterSample(es.ds.(pdf := es.ds.pdf * sel.pdf), (if hit then 0.0 else es.spec) * (1.0 / sel.pdf))
  }

  /** A batched Scene::sample_emitter_direction: every lane draws an emitter and a direction,
    * lanes with a zero emitter pdf are masked off, and the shadow-ray test is run for the
    * batch only if visibility is requested and some lane is still active. */
  function SampleBatch(emitters: seq<EmitterRef>, distr: seq<real>, select: Selector,
                       sampleDirection: DirectionSampler, occluded: Occlusion,
                       lanes: seq<Lane>, testVisibility: bool): (r: seq<EmitterSample>)
    requires forall lane :: lane in lanes ==> Drawable(emitters, distr, select, lane)
    ensures |r| == |lanes|
  {
    if |emitters| == 0 then
      seq(|lanes|, i => EmitterSample(EmptySample, 0.0))
    else
      var runTest := testVisibility && AnyStillActive(emitters, distr, select, sampleDirection, lanes);
      seq(|lanes|, i requires 0 <= i < |lanes| =>
        BatchLane(emitters, distr, select, sampleDirection, occluded, lanes[i], testVisibility, runTest))
  }

  /** Lanes are independent: every lane of a batch gets what the lane would get on its own,
    * the batch-wide "some lane active" guard on the shadow-ray test notwithstanding. */
  lemma BatchIsLanewise(emitters: seq<EmitterRef>, distr: seq<real>, select: Selector,
                        sampleDirection: DirectionSampler, occluded: Occlusion,
                        lanes: seq<Lane>, testVisibility: bool, i: nat)
    requires forall lane :: lane in lanes ==> Drawable(emitters, distr, select, lane)
    requires i < |lanes|
    ensures Drawable(emitters, distr, select, lanes[i]) &&
            SampleBatch(emitters, distr, select, sampleDirection, occluded, lanes, testVisibility)[i]
         == SampleEmitterDirection(emitters, distr, select, sampleDirection, occluded,
                                   lanes[i].ref, lanes[i].sample, testVisibility, lanes[i].active)
  {
    var lane := lanes[i];
    assert Drawable(emitters, distr, select, lane);
    if |emitters| > 0 && StillActive(emitters, distr, select, sampleDirection, lane) {
      assert AnyStillActive(emitters, distr, select, sampleDirection, lanes);
    }
  }
}
