/**
  * What the scene constructor computes from the loaded objects, stated as functions of the
  * objects in iteration order, and the properties of that computation.
  *
  * Each function is defined over a prefix of the objects, so that the constructor's loop can
  * keep its fields equal to these functions of the objects it has already visited.
  */
module Aggregation {
  import opened Wrappers
  import opened SceneObjects

  /** The number of objects of `s` that satisfy `p`. */
  function Occurrences(s: seq<Obj>, p: Obj -> bool): nat
  {
    if s == [] then 0
    else Occurrences(s[..|s| - 1], p) + (if p(s[|s| - 1]) then 1 else 0)
  }

  /** Two distinct objects of `s` satisfy `p`. */
  predicate Duplicated(s: seq<Obj>, p: Obj -> bool) {
    exists i, j :: 0 <= i < j < |s| && p(s[i]) && p(s[j])
  }

  /** Construction of a scene from `s` is aborted: a second environment emitter or a second
    * integrator is met. */
  predicate HasConflict(s: seq<Obj>) {
    Occurrences(s, IsEnvironmentEmitter) > 1 || Occurrences(s, IsIntegrator) > 1
  }

  /** What the object `o` at position `k` adds to the emitter list. */
  function EmitterContribution(o: Obj, k: nat): seq<EmitterRef> {
    match RoleOf(o)
    case ShapeRole(emits, _) => if emits then [ShapeEmitter(k)] else []
    case EmitterRole(_) => [StandaloneEmitter(k)]
    case _ => []
  }

  /** The emitter list built from the objects `s`. */
  function Emitters(s: seq<Obj>): seq<EmitterRef> {
    if s == [] then []
    else Emitters(s[..|s| - 1]) + EmitterContribution(s[|s| - 1], |s| - 1)
  }

  /** What the object `o` at position `k` adds to the sensor list. */
  function SensorContribution(o: Obj, k: nat): seq<SensorRef> {
    match RoleOf(o)
    case ShapeRole(_, senses) => if senses then [ShapeSensor(k)] else []
    case SensorRole => [StandaloneSensor(k)]
    case _ => []
  }

  /** The sensors found among the objects `s`, before any default is added. */
  function CollectedSensors(s: seq<Obj>): seq<SensorRef> {
    if s == [] then []
    else CollectedSensors(s[..|s| - 1]) + SensorContribution(s[|s| - 1], |s| - 1)
  }

  /** The scene's sensor list once construction completes. */
  function Sensors(s: seq<Obj>): seq<SensorRef> {
    var collected := CollectedSensors(s);
    if collected == [] then [DefaultSensor] else collected
  }

  /** The environment emitter found among the objects `s`, if any. */
  function Environment(s: seq<Obj>): Option<EmitterRef> {
    if s == [] then None
    else if IsEnvironmentEmitter(s[|s| - 1]) then Some(StandaloneEmitter(|s| - 1))
    else Environment(s[..|s| - 1])
  }

  /** The integrator found among the objects `s`, if any. */
  function LoadedIntegrator(s: seq<Obj>): Option<IntegratorRef> {
    if s == [] then None
    else if IsIntegrator(s[|s| - 1]) then Some(SuppliedIntegrator(|s| - 1))
    else LoadedIntegrator(s[..|s| - 1])
  }

  /** The scene's integrator once construction completes. */
  function Integrator(s: seq<Obj>): IntegratorRef {
    match LoadedIntegrator(s)
    case Some(i) => i
    case None => DefaultIntegrator
  }

  /** The position of the object at which construction from `s` is aborted: the shortest
    * prefix that has a conflict ends there. */
  function FirstConflict(s: seq<Obj>): (k: nat)
    requires HasConflict(s)
    ensures k < |s| && !HasConflict(s[..k]) && HasConflict(s[..k] + [s[k]])
  {
    var init := s[..|s| - 1];
    if HasConflict(init) then
      var k := FirstConflict(init);
      assert init[..k] == s[..k] && init[k] == s[k];
      k
    else
      assert init + [s[|s| - 1]] == s;
      |s| - 1
  }

  /** The error raised when the object `o` brings the scene into conflict. */
  function ErrorFor(o: Obj): ConfigError {
    if IsEnvironmentEmitter(o) then DuplicateEnvironment else DuplicateIntegrator
  }

  /** The error construction from `s` is aborted with. */
  function ConflictError(s: seq<Obj>): ConfigError
    requires HasConflict(s)
  {
    ErrorFor(s[FirstConflict(s)])
  }

  // ---------------------------------------------------------------------------------------
  // Counting

  lemma {:induction false} OccurrencesOfPrefix(s: seq<Obj>, p: Obj -> bool, k: nat)
    requires k <= |s|
    ensures Occurrences(s[..k], p) <= Occurrences(s, p)
  {
    if k < |s| {
      var init := s[..|s| - 1];
      OccurrencesOfPrefix(init, p, k);
      assert init[..k] == s[..k];
    } else {
      assert s[..k] == s;
    }
  }

  lemma {:induction false} OccurrencesOfAppend(s: seq<Obj>, p: Obj -> bool, o: Obj)
    ensures Occurrences(s + [o], p) == Occurrences(s, p) + (if p(o) then 1 else 0)
  {
    assert (s + [o])[..|s|] == s;
  }

  /** A count of at least one is witnessed by a position, and conversely. */
  lemma {:induction false} OccurrencesPositive(s: seq<Obj>, p: Obj -> bool)
    ensures Occurrences(s, p) >= 1 <==> exists i :: 0 <= i < |s| && p(s[i])
  {
    if s != [] {
      var init := s[..|s| - 1];
      OccurrencesPositive(init, p);
      if exists i :: 0 <= i < |s| && p(s[i]) {
        var i :| 0 <= i < |s| && p(s[i]);
        if i < |s| - 1 {
          assert p(init[i]);
        }
      }
      if exists i :: 0 <= i < |init| && p(init[i]) {
        var i :| 0 <= i < |init| && p(init[i]);
        assert p(s[i]);
      }
    }
  }

  /** Two objects satisfying `p` exist exactly when `p` is satisfied more than once. */
  lemma {:induction false} DuplicatedIffCount(s: seq<Obj>, p: Obj -> bool)
    ensures Duplicated(s, p) <==> Occurrences(s, p) >= 2
  {
    if s != [] {
      var init := s[..|s| - 1];
      var last := |s| - 1;
      DuplicatedIffCount(init, p);
      OccurrencesPositive(init, p);
      if Duplicated(s, p) {
        var i, j :| 0 <= i < j < |s| && p(s[i]) && p(s[j]);
        if j < last {
          assert p(init[i]) && p(init[j]);
        } else {
          assert p(init[i]);
        }
      }
      if Occurrences(s, p) >= 2 {
        if Occurrences(init, p) >= 2 {
          var i, j :| 0 <= i < j < |init| && p(init[i]) && p(init[j]);
          assert p(s[i]) && p(s[j]);
        } else {
          var i :| 0 <= i < |init| && p(init[i]);
          assert p(s[i]) && p(s[last]);
        }
      }
    }
  }

  /** Construction fails exactly when two standalone environment emitters, or two
    * integrators, are loaded. */
  lemma ConflictIffDuplicate(s: seq<Obj>)
    ensures HasConflict(s) <==> Duplicated(s, IsEnvironmentEmitter) || Duplicated(s, IsIntegrator)
  {
    DuplicatedIffCount(s, IsEnvironmentEmitter);
    DuplicatedIffCount(s, IsIntegrator);
  }

  /** A conflict in a prefix is a conflict in the whole sequence. */
  lemma ConflictOfPrefix(s: seq<Obj>, k: nat)
    requires k <= |s| && HasConflict(s[..k])
    ensures HasConflict(s)
  {
    OccurrencesOfPrefix(s, IsEnvironmentEmitter, k);
    OccurrencesOfPrefix(s, IsIntegrator, k);
  }

  /** An object that brings a conflict-free prefix into conflict is an environment emitter or
    * an integrator, and the error names which. */
  lemma ConflictIntroducedBy(p: seq<Obj>, o: Obj)
    requires !HasConflict(p) && HasConflict(p + [o])
    ensures IsEnvironmentEmitter(o) || IsIntegrator(o)
    ensures ErrorFor(o) == DuplicateEnvironment <==> IsEnvironmentEmitter(o)
    ensures ErrorFor(o) == DuplicateIntegrator <==> IsIntegrator(o)
  {
    OccurrencesOfAppend(p, IsEnvironmentEmitter, o);
    OccurrencesOfAppend(p, IsIntegrator, o);
  }

  /** The object at which construction is aborted is the second environment emitter or the
    * second integrator, and the error names which. */
  lemma FirstConflictCulprit(s: seq<Obj>)
    requires HasConflict(s)
    ensures var o := s[FirstConflict(s)];
      (IsEnvironmentEmitter(o) || IsIntegrator(o)) &&
      (ConflictError(s) == DuplicateEnvironment <==> IsEnvironmentEmitter(o)) &&
      (ConflictError(s) == DuplicateIntegrator <==> IsIntegrator(o))
  {
    var k := FirstConflict(s);
    ConflictIntroducedBy(s[..k], s[k]);
  }

  /** The first conflict is where the prefix first acquires one. */
  lemma {:induction false} FirstConflictAt(s: seq<Obj>, k: nat)
    requires k < |s| && !HasConflict(s[..k]) && HasConflict(s[..k] + [s[k]])
    ensures HasConflict(s) && FirstConflict(s) == k
  {
    assert s[..k] + [s[k]] == s[..k + 1];
    ConflictOfPrefix(s, k + 1);
    var init := s[..|s| - 1];
    if k < |s| - 1 {
      assert init[..k] == s[..k] && init[k] == s[k];
      FirstConflictAt(init, k);
    } else {
      assert init == s[..k];
    }
  }

  // ---------------------------------------------------------------------------------------
  // Emitters

  /** An embedded emitter is listed exactly for the shapes that carry one, and a standalone
    * emitter exactly for the objects registered as emitters: a shape never is. */
  lemma {:induction false} EmitterMembership(s: seq<Obj>, k: nat)
    ensures ShapeEmitter(k) in Emitters(s) <==> k < |s| && s[k].shape && s[k].shapeEmits
    ensures StandaloneEmitter(k) in Emitters(s) <==> k < |s| && !s[k].shape && s[k].emitter
  {
    if s != [] {
      var init := s[..|s| - 1];
      EmitterMembership(init, k);
      if k < |s| - 1 {
        assert init[k] == s[k];
      }
    }
  }

  /** The emitter list follows the iteration order: each entry refers to a loaded object, and
    * positions strictly increase, so no object contributes twice. */
  lemma {:induction false} EmittersInOrder(s: seq<Obj>)
    ensures forall i :: 0 <= i < |Emitters(s)| ==> Emitters(s)[i].at < |s|
    ensures forall i, j :: 0 <= i < j < |Emitters(s)| ==> Emitters(s)[i].at < Emitters(s)[j].at
  {
    if s != [] {
      EmittersInOrder(s[..|s| - 1]);
    }
  }

  // ---------------------------------------------------------------------------------------
  // Sensors

  /** An embedded sensor is collected exactly for the shapes that carry one, a standalone
    * sensor exactly for the objects registered as sensors, and never the default sensor. */
  lemma {:induction false} SensorMembership(s: seq<Obj>, k: nat)
    ensures ShapeSensor(k) in CollectedSensors(s) <==> k < |s| && s[k].shape && s[k].shapeSenses
    ensures StandaloneSensor(k) in CollectedSensors(s) <==>
      k < |s| && RoleOf(s[k]) == SensorRole
    ensures DefaultSensor !in CollectedSensors(s)
  {
    if s != [] {
      var init := s[..|s| - 1];
      SensorMembership(init, k);
      if k < |s| - 1 {
        assert init[k] == s[k];
      }
    }
  }

  /** The collected sensors follow the iteration order, each object contributing at most once. */
  lemma {:induction false} SensorsInOrder(s: seq<Obj>)
    ensures forall i :: 0 <= i < |CollectedSensors(s)| ==>
      !CollectedSensors(s)[i].DefaultSensor? && CollectedSensors(s)[i].at < |s|
    ensures forall i, j :: 0 <= i < j < |CollectedSensors(s)| ==>
      !CollectedSensors(s)[i].DefaultSensor? && !CollectedSensors(s)[j].DefaultSensor? &&
      CollectedSensors(s)[i].at < CollectedSensors(s)[j].at
  {
    if s != [] {
      SensorsInOrder(s[..|s| - 1]);
    }
  }

  /** After construction there is at least one sensor; the default sensor is present exactly
    * once if no sensor was collected and not at all otherwise, in which case the sensors are
    * exactly the collected ones. */
  lemma DefaultSensorIffNoneCollected(s: seq<Obj>)
    ensures Sensors(s) != []
    ensures multiset(Sensors(s))[DefaultSensor] == if CollectedSensors(s) == [] then 1 else 0
    ensures CollectedSensors(s) != [] ==> Sensors(s) == CollectedSensors(s)
  {
    SensorMembership(s, 0);
  }

  // ---------------------------------------------------------------------------------------
  // Environment emitter and integrator

  /** The environment is set exactly when a standalone environment emitter was loaded; it is
    * such an emitter, and it is also in the emitter list. Embedded emitters of shapes are
    * never the environment. */
  lemma {:induction false} EnvironmentIsListedEmitter(s: seq<Obj>)
    ensures Environment(s).Some? <==> Occurrences(s, IsEnvironmentEmitter) >= 1
    ensures Environment(s).Some? ==>
      var e := Environment(s).value;
      e.StandaloneEmitter? && e.at < |s| && IsEnvironmentEmitter(s[e.at]) &&
      !s[e.at].shape && e in Emitters(s)
  {
    if s != [] {
      var init := s[..|s| - 1];
      EnvironmentIsListedEmitter(init);
      if Environment(s).Some? {
        var e := Environment(s).value;
        EmitterMembership(s, e.at);
        if e.at < |s| - 1 {
          assert init[e.at] == s[e.at];
        }
      }
    }
  }

  /** With at most one environment emitter loaded, that emitter is the environment. */
  lemma {:induction false} EnvironmentUnique(s: seq<Obj>, k: nat)
    requires Occurrences(s, IsEnvironmentEmitter) <= 1
    requires k < |s| && IsEnvironmentEmitter(s[k])
    ensures Environment(s) == Some(StandaloneEmitter(k))
  {
    var init := s[..|s| - 1];
    if k < |s| - 1 {
      assert IsEnvironmentEmitter(init[k]);
      OccurrencesPositive(init, IsEnvironmentEmitter);
      EnvironmentUnique(init, k);
    }
  }

  /** The integrator is the default exactly when none was loaded, and otherwise a loaded
    * object registered as integrator. */
  lemma {:induction false} IntegratorIsLoadedOrDefault(s: seq<Obj>)
    ensures LoadedIntegrator(s).None? <==> Occurrences(s, IsIntegrator) == 0
    ensures Integrator(s) == DefaultIntegrator <==> Occurrences(s, IsIntegrator) == 0
    ensures Integrator(s).SuppliedIntegrator? ==>
      Integrator(s).at < |s| && IsIntegrator(s[Integrator(s).at])
  {
    if s != [] {
      var init := s[..|s| - 1];
      IntegratorIsLoadedOrDefault(init);
      if Integrator(s).SuppliedIntegrator? && Integrator(s).at < |s| - 1 {
        assert init[Integrator(s).at] == s[Integrator(s).at];
      }
    }
  }

  /** With at most one integrator loaded, that integrator is the scene's. */
  lemma {:induction false} IntegratorUnique(s: seq<Obj>, k: nat)
    requires Occurrences(s, IsIntegrator) <= 1
    requires k < |s| && IsIntegrator(s[k])
    ensures Integrator(s) == SuppliedIntegrator(k)
  {
    var init := s[..|s| - 1];
    if k < |s| - 1 {
      assert IsIntegrator(init[k]);
      OccurrencesPositive(init, IsIntegrator);
      IntegratorUnique(init, k);
    }
  }

  // ---------------------------------------------------------------------------------------
  // Objects with no role

  /** An object that is none of shape, emitter, sensor or integrator changes nothing but the
    * list of children. */
  lemma OtherObjectsOnlyAffectChildren(s: seq<Obj>, o: Obj)
    requires RoleOf(o) == OtherRole
    ensures Emitters(s + [o]) == Emitters(s)
    ensures CollectedSensors(s + [o]) == CollectedSensors(s)
    ensures Environment(s + [o]) == Environment(s)
    ensures Integrator(s + [o]) == Integrator(s)
    ensures HasConflict(s + [o]) == HasConflict(s)
  {
    assert (s + [o])[..|s|] == s;
  }
}
