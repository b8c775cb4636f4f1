/**
  * The objects a scene is assembled from, and the references the scene keeps to them.
  *
  * An object is known to the scene only through the casts the constructor performs on it
  * (is it a Shape, an Emitter, a Sensor, an Integrator?) and the few queries it makes on
  * the result of a successful cast. An object is identified by its position in the
  * iteration order of the loaded objects.
  */
module SceneObjects {

  /** A loaded object, described by the capabilities the scene probes. */
  datatype Obj = Obj(
    shape: bool,        // the cast to Shape succeeds
    shapeEmits: bool,   // Shape::is_emitter(): the shape carries an embedded emitter
    shapeSenses: bool,  // Shape::is_sensor(): the shape carries an embedded sensor
    emitter: bool,      // the cast to Emitter succeeds
    environment: bool,  // Emitter::is_environment()
    sensor: bool,       // the cast to Sensor succeeds
    integrator: bool    // the cast to Integrator succeeds
  )

  /** The single role under which the constructor registers an object. */
  datatype Role =
    | ShapeRole(emits: bool, senses: bool)
    | EmitterRole(isEnvironment: bool)
    | SensorRole
    | IntegratorRole
    | OtherRole

  /** Classification with the constructor's priority: shape, then emitter, then sensor, then integrator. */
  function RoleOf(o: Obj): Role {
    if o.shape then ShapeRole(o.shapeEmits, o.shapeSenses)
    else if o.emitter then EmitterRole(o.environment)
    else if o.sensor then SensorRole
    else if o.integrator then IntegratorRole
    else OtherRole
  }

  predicate IsEnvironmentEmitter(o: Obj) {
    RoleOf(o) == EmitterRole(true)
  }

  predicate IsIntegrator(o: Obj) {
    RoleOf(o) == IntegratorRole
  }

  /** An entry of the scene's emitter list: the emitter embedded in the shape at position
    * `at`, or the standalone emitter object at position `at`. */
  datatype EmitterRef = ShapeEmitter(at: nat) | StandaloneEmitter(at: nat)

  /** An entry of the scene's sensor list; `DefaultSensor` stands for the perspective
    * camera the constructor creates when no sensor was loaded. */
  datatype SensorRef = ShapeSensor(at: nat) | StandaloneSensor(at: nat) | DefaultSensor

  /** The scene's integrator; `DefaultIntegrator` stands for the path tracer the
    * constructor creates when none was loaded. */
  datatype IntegratorRef = SuppliedIntegrator(at: nat) | DefaultIntegrator

  /** The configuration errors that abort scene construction. */
  datatype ConfigError = DuplicateEnvironment | DuplicateIntegrator
}
