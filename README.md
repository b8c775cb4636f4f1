# Scene aggregation and emitter sampling of the Mitsuba 2 renderer, in Dafny

This project models two parts of `src/librender/scene.cpp`.

- **The scene constructor.** It walks the loaded objects in iteration order. Every object is recorded as a child. Each object is then registered under the first role its casts allow: shape, then emitter, then sensor, then integrator.
  - A shape adds its embedded emitter and embedded sensor, if it has them.
  - A standalone emitter is added to the emitter list. An environment emitter also becomes the scene's environment, and a second one aborts construction.
  - A sensor is added to the sensor list.
  - An integrator becomes the scene's integrator, and a second one aborts construction.

  Afterwards a default sensor is added if none was collected, and a default integrator if none was loaded. Finally a discrete distribution over the emitters is built: weight 1 per emitter, normalised only when there is at least one emitter.
- **`sample_emitter_direction`.** It picks an emitter from that distribution, delegates to the emitter's `sample_direction`, and masks off lanes whose emitter pdf is zero. It optionally runs a shadow-ray test that zeroes the radiance of occluded lanes. It then multiplies the pdf by the selection probability and divides the radiance by it.

Modules:

- `SceneObjects` (`scene_objects.dfy`): a loaded object is described by the capabilities the constructor probes. These are the four casts, `Shape::is_emitter`, `Shape::is_sensor` and `Emitter::is_environment`. `RoleOf` applies the constructor's if/else-if priority. An object is identified by its position in iteration order. The scene's lists hold references to positions (`ShapeEmitter(k)`, `StandaloneEmitter(k)`, `ShapeSensor(k)`, ...). The tokens `DefaultSensor` and `DefaultIntegrator` stand for the objects the plugin factory would create.
- `Aggregation` (`aggregation.dfy`): what the constructor computes, as functions of the objects seen so far, and the lemmas about them.
- `EmitterDistribution` (`emitter_distribution.dfy`): the uniform emitter distribution over reals.
- `EmitterSampling` (`emitter_sampling.dfy`): one lane of `sample_emitter_direction`, and a batch of lanes. The collaborators are function parameters: the distribution's `sample_reuse_pdf` (`Selector`), the emitter's `sample_direction` (`DirectionSampler`) and the shadow-ray test (`Occlusion`).
- `Scenes` (`scene.dfy`): the `Scene` class, whose fields the constructor fills in place.
  - `Scene.Load` is the constructor body, with its loop.
  - `Scene.AddObject` is one iteration of that loop.
  - `Scene.BuildEmitterDistribution` is the weight loop and the normalisation.
  - `Scene.Children` is `children()`.
  - `NewScene` is construction as a caller sees it: a thrown configuration error leaves no scene.
- `Wrappers` (`wrappers.dfy`): `Option`, `Outcome` and `Result`.

`RoleOf` tests the casts in the constructor's order, so an object that casts to both `Shape` and `Emitter` is only a shape and never the environment.

## Model

| member | source | states |
|---|---|---|
| Scenes.NewScene | src/librender/scene.cpp:21-101 | Construction fails exactly when the objects conflict, with the error of the first conflict, and then no scene exists. Otherwise it yields a fresh valid scene whose children are the loaded objects in iteration order, with at least one sensor and an integrator. |
| Scenes.Scene.Load | src/librender/scene.cpp:21-101 | The constructor body on an empty scene. It passes iff no second environment emitter or integrator is met, and otherwise fails with the first such error. On success, children equal the objects and every field equals its specification function (`Valid`). |
| Scenes.Scene.AddObject | src/librender/scene.cpp:22-51 | One loop iteration appends the object to children and registers it under its first role. It fails, naming the kind, exactly when the object is a second environment emitter or integrator. Otherwise the fields equal the specification of the extended prefix. |
| Scenes.Scene.BuildEmitterDistribution | src/librender/scene.cpp:91-96 | After appending weight 1 per emitter and normalising when there is at least one emitter, the distribution is `Uniform(n)`. |
| Scenes.Scene.ConstructedSceneInvariants | src/librender/scene.cpp:53-96 | A constructed scene has at least one sensor and an integrator. Its environment, if any, is one of its emitters. It has one selection probability per emitter, each 1/n. |
| Scenes.Scene.constructor | src/librender/scene.cpp:21-22 | Before the first object is visited, the scene has no children, emitters, sensors, environment, integrator or emitter distribution. |
| Scenes.Scene.Children | src/librender/scene.cpp:137 | `children()` returns the objects the scene was loaded from. On a constructed scene, every emitter, every collected sensor and a supplied integrator refer to positions among those children. |
| Scenes.Scene.SampleEmitterDirection | src/librender/scene.cpp:139-175 | On a constructed scene with no emitter, radiance and pdf are 0. With n emitters, every lane (an inactive one computed as if active) gets the chosen emitter's direction and distance, the pdf is the emitter pdf divided by n, and the radiance is the visible radiance times n. |
| Aggregation.ConflictIffDuplicate | src/librender/scene.cpp:37-49 | Construction is aborted iff two standalone environment emitters, or two integrators, are among the objects. |
| Aggregation.FirstConflict | src/librender/scene.cpp:22-51 | The position where construction aborts: the prefix before it has no conflict, and the prefix through it has one. |
| Aggregation.FirstConflictAt | src/librender/scene.cpp:22-51 | If the prefix first acquires a conflict at position k, construction aborts at k. |
| Aggregation.ConflictIntroducedBy | src/librender/scene.cpp:39-48 | An object that brings a conflict-free prefix into conflict is an environment emitter or an integrator. The error it raises names which. |
| Aggregation.FirstConflictCulprit | src/librender/scene.cpp:39-48 | The object that aborts construction is a second environment emitter or a second integrator. The error is `DuplicateEnvironment` iff it is an environment emitter, and `DuplicateIntegrator` iff it is an integrator. |
| Aggregation.EmitterMembership | src/librender/scene.cpp:30-38 | A shape's embedded emitter is listed iff the object is a shape with `is_emitter()`. A standalone emitter is listed iff the object is not a shape and casts to `Emitter`. |
| Aggregation.EmittersInOrder | src/librender/scene.cpp:22-38 | Emitter entries refer to loaded objects in strictly increasing iteration order, so no object contributes twice. |
| Aggregation.SensorMembership | src/librender/scene.cpp:30-45 | A shape's embedded sensor is collected iff the object is a shape with `is_sensor()`. A standalone sensor is collected iff the object's role is sensor: not a shape, not an emitter, and casts to `Sensor`. The default sensor is never among the collected sensors. |
| Aggregation.SensorsInOrder | src/librender/scene.cpp:22-45 | Collected sensors refer to loaded objects in strictly increasing iteration order. |
| Aggregation.DefaultSensorIffNoneCollected | src/librender/scene.cpp:53-78 | After construction the sensor list is non-empty. It contains the default sensor exactly once if no sensor was collected, and not at all otherwise, in which case it is exactly the collected sensors. |
| Aggregation.EnvironmentIsListedEmitter | src/librender/scene.cpp:37-43 | The environment is set iff a standalone environment emitter was loaded. It is such an emitter, never a shape, and it is also in the emitter list. |
| Aggregation.EnvironmentUnique | src/librender/scene.cpp:37-43 | With at most one environment emitter loaded, that emitter is the environment. |
| Aggregation.IntegratorIsLoadedOrDefault | src/librender/scene.cpp:80-84 | The integrator is the default iff none was loaded. Otherwise it is a loaded object whose role is integrator. |
| Aggregation.IntegratorUnique | src/librender/scene.cpp:46-49 | With at most one integrator loaded, that integrator is the scene's. |
| Aggregation.OtherObjectsOnlyAffectChildren | src/librender/scene.cpp:30-50 | An object that is none of shape, emitter, sensor or integrator leaves emitters, sensors, environment, integrator and conflict status unchanged. |
| EmitterDistribution.UniformEntry | src/librender/scene.cpp:92-96 | Each of the n emitters is selected with probability 1/n. |
| EmitterDistribution.UniformSelection | src/librender/scene.cpp:92-96 | The distribution over n emitters has n entries, each equal to 1/n. If n > 0 they sum to 1. |
| EmitterSampling.SampleEmitterDirection | src/librender/scene.cpp:139-175 | One lane. With no emitters, radiance and pdf are 0. Otherwise every lane (an inactive one computed as if active) gets the chosen emitter's direction and distance, and pdf = emitter pdf × selection pdf. Radiance × selection pdf = the visible radiance, which is zero on an occluded active lane with nonzero emitter pdf. |
| EmitterSampling.OcclusionOnlyZeroesRadiance | src/librender/scene.cpp:162-167 | Against a scene where nothing blocks, occlusion leaves the direction sample (direction, distance, pdf) identical. The radiance is either identical or zero. |
| EmitterSampling.DegenerateLanesSkipVisibility | src/librender/scene.cpp:156-166 | An inactive lane, or one whose emitter pdf is 0, gets the same result whatever the occlusion oracle says. |
| EmitterSampling.UniformSelectionScaling | src/librender/scene.cpp:169-171 | Under the uniform distribution over n emitters, pdf = emitter pdf / n and radiance = visible radiance × n. |
| EmitterSampling.SelectionIsUnbiased | src/librender/scene.cpp:169-171 | Weighting each emitter's result by its selection probability and summing gives the sum of all emitters' visible radiance. The division by the selection pdf makes the estimator unbiased. |
| EmitterSampling.SampleBatch | src/librender/scene.cpp:148-171 | A batch of lanes with the batch-wide `any_or<true>(active)` guard on the shadow test yields one result per lane. What each lane's result is, is stated by `BatchIsLanewise`. |
| EmitterSampling.BatchIsLanewise | src/librender/scene.cpp:156-171 | In a batch, where the shadow test runs only if some lane is still active, each lane gets what it would get on its own. |

## Left out

- Acceleration structure dispatch is not modelled: `ray_intersect`, `ray_intersect_naive`, `ray_test`, `accel_init_*` and `accel_release_*`, including the destructor. Those functions only forward to kd-tree, Embree or OptiX code, which is not part of this model. The shadow-ray test is the `Occlusion` parameter, and it is assumed to report no hit on inactive lanes.
- The shadow ray's geometry is inside the `Occlusion` oracle. That covers the origin offset of `Epsilon * (1 + max|p|)` and the `ShadowEpsilon` shortening of the distance. Both are floating-point details.
- The bounding box is not modelled. Only shapes expand it, and it is used only to place the default camera.
- The default camera's geometry is not modelled: field of view, distance, clip planes, focus distance and transform. Only the fact that a default sensor is added is modelled.
- The internals of `DiscreteDistribution` are not modelled. `sample_reuse_pdf` is the `Selector` parameter, and the model requires its draw to be an index into the distribution with that entry's positive probability (`DrawsFrom`). `normalize` is modelled as dividing every weight by their sum.
- `rcp` of a zero selection pdf is excluded by `DrawsFrom`. This cannot occur with the uniform distribution.
- `Emitter::sample_direction` is the `DirectionSampler` parameter.
- `DirectionSample` holds only `d`, `dist` and `pdf`. The other fields of `DirectionSample3f` are filled by the emitter, and the scene passes them through untouched (lines 159, 170 and 174). The scene reads or writes nothing but those three.
- `Emitter::set_scene` (lines 98-100) is a call into emitter code that is not part of this model.
- The following are logging, global state or presentation, and are not modelled: the plugin factory (`PluginManager`), the warnings, `ScopedPhase` profiling, and `to_string`.
- Object names are not modelled. `props.objects()` is taken as the sequence in its iteration order.
- Vector hardware is not modelled. A lane is a scalar computation, and a batch is a sequence of lanes. `gather` is an unmasked index into the emitter list.
- Spectra are one real channel.
- EmitterSampling.SampleBatch: its own contract gives only the batch size. That each lane equals the single-lane result is stated by `BatchIsLanewise`.
- Scenes.NewScene: the model assumes that the plugin factory's `create_object` for the default sensor and integrator (lines 77 and 82-83), `accel_init_cpu` / `accel_init_gpu` (lines 86-89) and `Emitter::set_scene` (line 100) all succeed. In the source each of them can also abort construction, so "fails exactly when the objects conflict" covers only the two configuration errors.
- EmitterSampling.SampleEmitterDirection: with no emitter, the source returns a default-constructed `DirectionSample3f` whose fields it never sets (lines 147 and 174). The model returns zeros, so its `r.ds.pdf == 0.0` in that case is a modelling choice, and so is the same clause of `Scenes.Scene.SampleEmitterDirection`. The lane's `active` mask is also not passed to the selector (`sample_reuse_pdf`, line 155), to the `gather` of the emitter pointer (line 156) or to the emitter's `sample_direction` (line 159). A lane that is inactive on entry is therefore computed as if it were active, and it gets the chosen emitter's direction, distance and scaled pdf. In the source the masked gather gives such a lane no emitter, and its output is unspecified. The mask does reach the shadow-ray test, as the source does.
- `Float` is modelled as `real`, so floating-point behaviour is not modelled. Rounding in `normalize` (line 96) is lost, so `Sum(Uniform(n)) == 1.0` holds exactly only over reals. The identity radiance × selection pdf = visible radiance under `rcp` (line 171) is also exact only over reals. NaN pdfs are not modelled either; `neq(ds.pdf, 0.f)` (line 160) would keep such a lane active.
