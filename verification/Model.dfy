/** The data the reconciler works on: the reconciled object with its status, the target cluster, and what the
    environment answers to the calls of one round. */
module Model {
  import opened Identity

  datatype Option<+T> = None | Some(value: T)

  // ---------------------------------------------------------------- the reconciled object

  /** `StateUnset` is the empty string that a new object starts with. */
  datatype State = StateUnset | StateProcessing | StateReady | StateError | StateDeleting

  datatype ConditionType = Resources | Installation | HelmCRDs

  /** A condition is absent, False or True. */
  type Conditions = map<ConditionType, bool>

  predicate IsTrue(c: Conditions, t: ConditionType) {
    t in c && c[t]
  }

  /** Adds a condition as False unless it is there already. */
  function Register(c: Conditions, t: ConditionType): Conditions {
    if t in c then c else c[t := false]
  }

  datatype Status = Status(state: State, conditions: Conditions, synced: seq<Resource>)

  const NewStatus := Status(StateUnset, map[], [])

  /** The finalizer of the reconciler, the one guarding the custom resource, and anybody else's. */
  datatype Finalizer = Own | OfCustomResource | Foreign(name: string)

  datatype Object = Object(
    status: Status,
    finalizers: set<Finalizer>,
    deleting: bool,               // the deletion timestamp is set
    resource: Option<ObjectKey>,  // the custom resource named by the spec, if any
    version: nat)                 // the resource version

  /** The custom resource of the spec, if there is one. */
  function ResourceOf(o: Object): set<ObjectKey> {
    if o.resource.None? then {} else {o.resource.value}
  }

  /** What the object tells the reconciler to look after. */
  function InCharge(o: Object): set<ObjectKey> {
    Keys(o.status.synced) + ResourceOf(o)
  }

  // ---------------------------------------------------------------- the target cluster

  datatype Phase = Live | Terminating

  type Cluster = map<ObjectKey, Phase>

  datatype World = World(stored: Option<Object>, cluster: Cluster)

  /** The reconciler's finalizer is on the object. */
  predicate Held(w: World) {
    w.stored.Some? && Own in w.stored.value.finalizers
  }

  // ---------------------------------------------------------------- configuration and answers

  datatype Config = Config(matcher: Matcher, deletePrerequisites: bool)

  datatype RenderMode = Helm | Kustomize | Raw

  datatype Verdict = Passed | NotReady | Failed

  datatype Chart = Unloadable | Unparsable | Chart(crds: set<ObjectKey>)

  /** The parsed, transformed and normalised target, or a failure. A Helm render that cannot load its chart
      also takes the `HelmCRDs` condition back. */
  datatype Rendering = Rendered(target: seq<Resource>) | RenderFailed(resetsCRDs: bool)

  /** Everything one round asks of its surroundings. Sets of faults name the keys whose call is answered with an
      error; `applyLanded` names those of them that took effect all the same. */
  datatype Env = Env(
    get: bool,
    skip: bool,
    spec: Option<RenderMode>,
    client: bool,
    chart: Chart,
    crdFaults: set<ObjectKey>,
    crdCheck: Verdict,
    rendering: Rendering,
    current: bool,
    customResource: bool,         // create or delete of the custom resource is not refused
    hookRead: bool,
    hookWrite: bool,
    deleteFaults: set<ObjectKey>,
    update: bool,
    applyFaults: set<ObjectKey>,
    applyLanded: set<ObjectKey>,
    check: Verdict,
    write: bool)

  /** The answers of a surrounding in which nothing goes wrong. */
  function CalmEnv(mode: RenderMode, crds: set<ObjectKey>, target: seq<Resource>): Env {
    Env(true, false, Some(mode), true, Chart(crds), {}, Passed, Rendered(target), true,
        true, true, true, {}, true, {}, {}, Passed, true)
  }

  // ---------------------------------------------------------------- what a round does, in order

  datatype DeleteOutcome = Accepted | NotFound | Refused

  /** The observable steps of a round. The calls of one fan-out are one event, since their order is not fixed. */
  datatype Event =
    | StatusWritten(state: State, synced: seq<Resource>)
    | OwnFinalizerAdded
    | PrerequisitesInstalled(created: set<ObjectKey>)
    | CustomResourceDeleted(key: ObjectKey, outcome: DeleteOutcome)
    | CustomResourceFinalizerDropped
    | Cleaned(outcomes: map<ObjectKey, DeleteOutcome>, removal: bool)
    | PrerequisitesCleaned(outcomes: map<ObjectKey, DeleteOutcome>)
    | OwnFinalizerDropped
    | Applied(target: seq<Resource>, landed: set<ObjectKey>, failed: set<ObjectKey>)
    | CustomResourceCreated(made: set<ObjectKey>)
    | CustomResourceFinalizerAdded
    | ReadyChecked(verdict: Verdict)

  /** How a round returns: nothing to do, requeue at once, the result of the final update, or success. */
  datatype Result = Ignored | Requeue | Updated | OnSuccess
}
