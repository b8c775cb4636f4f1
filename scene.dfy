/**
  * The scene: the objects it was loaded from, the emitters, sensors, environment emitter and
  * integrator it collected from them, and the distribution it samples emitters with.
  *
  * The C++ constructor either completes or throws, leaving no scene. Here `Scene.Load` is the
  * body of that constructor, run on a freshly made empty scene, and `NewScene` is the
  * constructor as a caller sees it: a scene, or the configuration error.
  */
module Scenes {
  import opened Wrappers
  import opened SceneObjects
  import opened Aggregation
  import opened EmitterDistribution
  import opened EmitterSampling

  class Scene {
    var children: seq<Obj>
    var emitters: seq<EmitterRef>
    var sensors: seq<SensorRef>
    var environment: Option<EmitterRef>
    var integrator: Option<IntegratorRef>
    var emitterDistr: seq<real>

    /** The scene is what construction makes of its children. */
    ghost predicate Valid()
      reads this
    {
      !HasConflict(children) &&
      emitters == Emitters(children) &&
      sensors == Sensors(children) &&
      environment == Environment(children) &&
      integrator == Some(Integrator(children)) &&
      emitterDistr == Uniform(|emitters|)
    }

    /** Nothing has been loaded yet. */
    ghost predicate Empty()
      reads this
    {
      children == [] && emitters == [] && sensors == [] &&
      environment == None && integrator == None && emitterDistr == []
    }

    constructor ()
      ensures Empty()
    {
      children, emitters, sensors := [], [], [];
      environment, integrator := None, None;
      emitterDistr := [];
    }

    /** The fields hold what the loop of the constructor has collected from the objects `s`. */
    ghost predicate CollectedFrom(s: seq<Obj>)
      reads this
    {
      children == s && emitters == Emitters(s) && sensors == CollectedSensors(s) &&
      environment == Environment(s) && integrator == LoadedIntegrator(s) && emitterDistr == []
    }

    /** The body of the scene constructor: classify every loaded object, reject a second
      * environment emitter or integrator, add the default sensor and integrator where none was
      * loaded, and build the uniform emitter distribution. */
    method Load(objs: seq<Obj>) returns (outcome: Outcome<ConfigError>)
      requires Empty()
      modifies this
      ensures outcome.Pass? <==> !HasConflict(objs)
      ensures outcome.Fail? ==> outcome.error == ConflictError(objs)
      ensures outcome.Pass? ==> children == objs && Valid()
    {
      for i := 0 to |objs|
        invariant !HasConflict(objs[..i]) && CollectedFrom(objs[..i])
      {
        assert objs[..i + 1] == objs[..i] + [objs[i]];
        outcome := AddObject(objs[..i], objs[i]);
        if outcome.Fail? {
          FirstConflictAt(objs, i);
          assert objs[FirstConflict(objs)] == objs[i];
          return;
        }
      }
      assert objs[..|objs|] == objs;
      outcome := Pass;

      if sensors == [] {
        sensors := sensors + [DefaultSensor];
      }
      if integrator.None? {
        integrator := Some(DefaultIntegrator);
      }
      BuildEmitterDistribution();
    }

    /** One iteration of the constructor's loop: record `obj`, which comes after the objects
      * `visited`, and register it under the first of its roles (shape, emitter, sensor,
      * integrator). Fails on a second environment emitter or a second integrator. */
    method AddObject(ghost visited: seq<Obj>, obj: Obj) returns (outcome: Outcome<ConfigError>)
      requires !HasConflict(visited) && CollectedFrom(visited)
      modifies this
      ensures outcome.Pass? <==> !HasConflict(visited + [obj])
      ensures outcome.Fail? ==>
        outcome.error == ErrorFor(obj)
      ensures outcome.Pass? ==> CollectedFrom(visited + [obj])
    {
      var i := |children|;
      assert (visited + [obj])[..i] == visited;
      EnvironmentIsListedEmitter(visited);
      IntegratorIsLoadedOrDefault(visited);
      OccurrencesOfAppend(visited, IsEnvironmentEmitter, obj);
      OccurrencesOfAppend(visited, IsIntegrator, obj);

      outcome := Pass;
      children := children + [obj];
      if obj.shape {
        if obj.shapeEmits {
          emitters := emitters + [ShapeEmitter(i)];
        }
        if obj.shapeSenses {
          sensors := sensors + [ShapeSensor(i)];
        }
      } else if obj.emitter {
        emitters := emitters + [StandaloneEmitter(i)];
        if obj.environment {
          if environment.Some? {
            return Fail(DuplicateEnvironment);
          }
          environment := Some(StandaloneEmitter(i));
        }
      } else if obj.sensor {
        sensors := sensors + [StandaloneSensor(i)];
      } else if obj.integrator {
        if integrator.Some? {
          return Fail(DuplicateIntegrator);
        }
        integrator := Some(SuppliedIntegrator(i));
      }
    }

    /** The emitter distribution: a weight of 1 appended per emitter, normalised only if there
      * is at least one emitter. */
    method BuildEmitterDistribution()
      modifies this`emitterDistr
      ensures emitterDistr == Uniform(|emitters|)
    {
      var weights: seq<real> := [];
      for k := 0 to |emitters|
        invariant weights == UniformWeights(k)
      {
        weights := weights + [1.0];
      }
      if |emitters| > 0 {
        SumOfUniformWeights(|emitters|);
        weights := Normalized(weights);
      }
      emitterDistr := weights;
    }

    /** The objects the scene was loaded from, in iteration order. Every emitter, sensor and
      * integrator a constructed scene holds, other than the defaults, is one of them. */
    function Children(): (r: seq<Obj>)
      reads this
      ensures Valid() ==> forall e :: e in emitters ==> e.at < |r|
      ensures Valid() ==> forall t :: t in sensors && !t.DefaultSensor? ==> t.at < |r|
      ensures Valid() && integrator.Some? && integrator.value.SuppliedIntegrator? ==>
        integrator.value.at < |r|
    {
      EmittersInOrder(children);
      SensorsInOrder(children);
      IntegratorIsLoadedOrDefault(children);
      children
    }

    /** What every constructed scene guarantees: at least one sensor, an integrator, an
      * environment emitter only if it is one of the scene's emitters, and one selection
      * probability per emitter, each 1/n. */
    lemma ConstructedSceneInvariants()
      requires Valid()
      ensures sensors != [] && integrator.Some?
      ensures environment.Some? ==> environment.value in emitters
      ensures |emitterDistr| == |emitters|
      ensures forall i :: 0 <= i < |emitters| ==> emitterDistr[i] == 1.0 / (|emitters| as real)
    {
      DefaultSensorIffNoneCollected(children);
      EnvironmentIsListedEmitter(children);
      UniformSelection(|emitters|);
    }

    /** One lane of sample_emitter_direction on this scene. With no emitter the radiance and
      * the pdf are zero; otherwise, with n emitters chosen uniformly, the direction is the
      * chosen emitter's, its pdf is divided by n, and the visible radiance is multiplied by n. */
    function SampleEmitterDirection(select: Selector, sampleDirection: DirectionSampler,
                                    occluded: Occlusion, ref: Interaction, sample: Point2,
                                    testVisibility: bool, active: bool): (r: EmitterSample)
      reads this
      requires Valid()
      requires emitters != [] ==> DrawsFrom(emitterDistr, select(sample.x))
      ensures emitters == [] ==> r.spec == 0.0 && r.ds.pdf == 0.0
      ensures emitters != [] ==>
        var n := |emitters| as real;
        var es := EmitterDraw(emitters, select, sampleDirection, ref, sample);
        r.ds.d == es.ds.d && r.ds.dist == es.ds.dist &&
        r.ds.pdf == es.ds.pdf / n &&
        r.spec == Visible(es, occluded, ref, testVisibility, active) * n
    {
      if emitters == [] then
        EmitterSampling.SampleEmitterDirection(emitters, emitterDistr, select, sampleDirection,
                                               occluded, ref, sample, testVisibility, active)
      else
        UniformSelectionScaling(emitters, select, sampleDirection, occluded, ref, sample,
                                testVisibility, active);
        EmitterSampling.SampleEmitterDirection(emitters, emitterDistr, select, sampleDirection,
                                               occluded, ref, sample, testVisibility, active)
    }
  }

  /** Scene construction as a caller sees it: the configuration error, and then no scene, or a
    * new scene whose children are the loaded objects and which satisfies the scene's
    * invariants. */
  method NewScene(objs: seq<Obj>) returns (r: Result<Scene, ConfigError>)
    ensures r.Failure? <==> HasConflict(objs)
    ensures r.Failure? ==> r.error == ConflictError(objs)
    ensures r.Success? ==> fresh(r.value) && r.value.Valid() && r.value.Children() == objs
    ensures r.Success? ==> r.value.sensors != [] && r.value.integrator.Some?
  {
    var scene := new Scene();
    var outcome := scene.Load(objs);
    match outcome
    case Pass =>
      scene.ConstructedSceneInvariants();
      r := Success(scene);
    case Fail(e) =>
      r := Failure(e);
  }
}
