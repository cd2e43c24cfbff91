/**
  A bundle of platform contracts and what its validator requires of the references,
  lifecycles and workflows in it.
*/
module BundleModel {
  datatype Option<+T> = None | Some(value: T)

  datatype Lifecycle = Draft | Experimental | Validated | Approved | Deprecated
  datatype Version = V1 | V2 | OtherVersion

  datatype Step = Step(id: string, action: string, needs: seq<string>)

  datatype Product = Product(lifecycle: Lifecycle, paths: set<string>)
  datatype EntityClass = EntityClass(state: Lifecycle, allowedRealms: set<string>, requiredCapabilities: set<string>)
  datatype Realm = Realm(admittedPaths: set<string>, admittedStates: set<Lifecycle>)
  datatype Path = Path(
    version: Version,
    state: Lifecycle,
    product: string,
    deliveryProfile: Option<string>,
    entityClasses: seq<string>,
    supportedRealms: seq<string>,
    workflow: seq<Step>,
    policies: set<string>
  )
  // The runtime profile is read for version 2 only.
  datatype DeliveryProfile = DeliveryProfile(version: Version, path: string, state: Lifecycle, mechanism: string,
                                             repositoryPolicy: string, runtimeProfile: string)
  datatype ProbeProfile = ProbeProfile(state: Lifecycle, path: string, deliveryProfile: string, realm: string)

  datatype Document =
    | ProductDoc(id: string, product: Product)
    | EntityDoc(id: string, entity: EntityClass)
    | RealmDoc(id: string, realm: Realm)
    | DeliveryDoc(id: string, delivery: DeliveryProfile)
    | ProbeDoc(id: string, probe: ProbeProfile)
    | PathDoc(id: string, path: Path)
    | AttestorDoc(id: string)
    | UnsupportedDoc(id: string)

  datatype Bundle = Bundle(
    products: map<string, Product>,
    entities: map<string, EntityClass>,
    realms: map<string, Realm>,
    deliveries: map<string, DeliveryProfile>,
    probes: map<string, ProbeProfile>,
    paths: map<string, Path>,
    attestors: set<string>
  )

  const EMPTY := Bundle(map[], map[], map[], map[], map[], map[], {})

  // ---------------------------------------------------------------- collecting the documents

  // Adds a document to the dictionary of its kind; nothing for a duplicate or an unsupported kind.
  function Add(b: Bundle, doc: Document): Option<Bundle> {
    match doc
    case ProductDoc(id, x) => if id in b.products then None else Some(b.(products := b.products[id := x]))
    case EntityDoc(id, x) => if id in b.entities then None else Some(b.(entities := b.entities[id := x]))
    case RealmDoc(id, x) => if id in b.realms then None else Some(b.(realms := b.realms[id := x]))
    case DeliveryDoc(id, x) => if id in b.deliveries then None else Some(b.(deliveries := b.deliveries[id := x]))
    case ProbeDoc(id, x) => if id in b.probes then None else Some(b.(probes := b.probes[id := x]))
    case PathDoc(id, x) => if id in b.paths then None else Some(b.(paths := b.paths[id := x]))
    case AttestorDoc(id) => if id in b.attestors then None else Some(b.(attestors := b.attestors + {id}))
    case UnsupportedDoc(_) => None
  }

  function Collect(docs: seq<Document>): Option<Bundle> {
    if docs == [] then Some(EMPTY)
    else
      match Collect(docs[..|docs| - 1])
      case None => None
      case Some(b) => Add(b, docs[|docs| - 1])
  }

  // ---------------------------------------------------------------- workflows

  // {step.id: step}.get(id): the last step with the identifier.
  function Find(workflow: seq<Step>, id: string): Option<Step> {
    if workflow == [] then None
    else if workflow[|workflow| - 1].id == id then Some(workflow[|workflow| - 1])
    else Find(workflow[..|workflow| - 1], id)
  }

  predicate Does(workflow: seq<Step>, id: string, action: string) {
    Find(workflow, id).Some? && Find(workflow, id).value.action == action
  }

  predicate NeedsOnly(workflow: seq<Step>, id: string, need: string) {
    Find(workflow, id).Some? && Find(workflow, id).value.needs == [need]
  }

  // Identifiers are unique, and a step needs only steps before it.
  predicate WellOrdered(workflow: seq<Step>) {
    && (forall i, j :: 0 <= i < j < |workflow| ==> workflow[i].id != workflow[j].id)
    && (forall i :: 0 <= i < |workflow| ==>
          forall need :: need in workflow[i].needs ==> exists j :: 0 <= j < i && workflow[j].id == need)
  }

  // The identifier and the required action of each step of the observer chain, in the required order.
  const OBSERVER_CHAIN: seq<(string, string)> := [
    ("await-human-merge", "delivery.await-human-merge/v1"),
    ("register-observer-access-compensation", "execution.register-compensation/v1"),
    ("provision-observer-access", "delivery.provision-observer-access/v1"),
    ("attest-observer-access", "delivery.attest-observer-access/v1"),
    ("issue-observer-credential", "delivery.issue-observer-credential/v1"),
    ("observe-gitops", "delivery.observe-argocd-sync/v2"),
    ("store-observation-evidence", "evidence.store-delivery-observation/v1"),
    ("issue-http-probe-credential", "verification.issue-http-probe-credential/v1"),
    ("verify-runtime", "verification.run-http-probes/v1"),
    ("store-http-probe-result", "evidence.store-http-probe-result/v1"),
    ("revoke-observer-access", "delivery.revoke-observer-access/v1")
  ]

  predicate ObserverChained(workflow: seq<Step>) {
    && (forall k :: 0 <= k < |OBSERVER_CHAIN| ==> Does(workflow, OBSERVER_CHAIN[k].0, OBSERVER_CHAIN[k].1))
    && (forall k :: 0 < k < |OBSERVER_CHAIN| ==> NeedsOnly(workflow, OBSERVER_CHAIN[k].0, OBSERVER_CHAIN[k - 1].0))
  }

  predicate ConditionsFrozen(workflow: seq<Step>) {
    && Does(workflow, "freeze-http-conditions", "verification.freeze-http-conditions/v1")
    && NeedsOnly(workflow, "freeze-http-conditions", "inspect-source")
    && NeedsOnly(workflow, "author-change", "freeze-http-conditions")
  }

  // ---------------------------------------------------------------- one path

  // A missing profile and an empty name are the same to the source.
  predicate Names(profile: Option<string>) {
    profile.Some? && profile.value != ""
  }

  predicate ProfileBound(b: Bundle, id: string, p: Path) {
    match p.version
    case V1 => !Names(p.deliveryProfile)
    case V2 =>
      && Names(p.deliveryProfile)
      && p.deliveryProfile.value in b.deliveries
      && b.deliveries[p.deliveryProfile.value].path == id
      && b.deliveries[p.deliveryProfile.value].state == p.state
      && b.deliveries[p.deliveryProfile.value].repositoryPolicy in p.policies
    case OtherVersion => false
  }

  predicate EntityFits(b: Bundle, p: Path, entity: string) {
    && entity in b.entities
    && b.entities[entity].state == p.state
    && forall realm :: realm in p.supportedRealms ==> realm in b.entities[entity].allowedRealms
  }

  // What a delivery profile of either version requires of its path.
  predicate DeliveryFits(b: Bundle, p: Path, profile: DeliveryProfile) {
    && (exists k :: 0 <= k < |p.entityClasses| && p.entityClasses[k] in b.entities
                    && profile.mechanism in b.entities[p.entityClasses[k]].requiredCapabilities)
    && Does(p.workflow, "await-human-merge", "delivery.await-human-merge/v1")
    && Does(p.workflow, "validate-change", "verification.run-source-gates/v1")
  }

  // What version 2 requires besides.
  predicate ObserverFits(b: Bundle, id: string, p: Path, profileId: string, profile: DeliveryProfile) {
    && profile.runtimeProfile in b.probes
    && |p.supportedRealms| > 0
    && b.probes[profile.runtimeProfile] == ProbeProfile(p.state, id, profileId, p.supportedRealms[0])
    && ObserverChained(p.workflow)
    && ConditionsFrozen(p.workflow)
    && "delivery.platform-observer-access/v1" in p.policies
  }

  predicate RealmAdmits(b: Bundle, id: string, p: Path, realm: string) {
    && realm in b.realms
    && if p.state == Draft then id !in b.realms[realm].admittedPaths
       else id in b.realms[realm].admittedPaths && p.state in b.realms[realm].admittedStates
  }

  predicate PathOk(b: Bundle, id: string, p: Path) {
    && p.product in b.products && id in b.products[p.product].paths
    && b.products[p.product].lifecycle == p.state
    && ProfileBound(b, id, p)
    && (forall k :: 0 <= k < |p.entityClasses| ==> EntityFits(b, p, p.entityClasses[k]))
    && (p.version == V2 ==>
          var profileId := p.deliveryProfile.value;
          && DeliveryFits(b, p, b.deliveries[profileId])
          && (b.deliveries[profileId].version == V2 ==> ObserverFits(b, id, p, profileId, b.deliveries[profileId])))
    && (forall k :: 0 <= k < |p.supportedRealms| ==> RealmAdmits(b, id, p, p.supportedRealms[k]))
    && WellOrdered(p.workflow)
  }

  // ---------------------------------------------------------------- the bundle

  predicate Known(b: Bundle) {
    && (forall id :: id in b.entities ==> b.entities[id].allowedRealms <= b.realms.Keys)
    && (forall id :: id in b.products ==> b.products[id].paths <= b.paths.Keys)
    && (forall id :: id in b.realms ==> b.realms[id].admittedPaths <= b.paths.Keys)
  }

  function ReferencedProfiles(b: Bundle): set<string> {
    set id | id in b.paths && Names(b.paths[id].deliveryProfile) :: b.paths[id].deliveryProfile.value
  }

  function ReferencedProbes(b: Bundle): set<string> {
    set id | id in b.deliveries && b.deliveries[id].version == V2 :: b.deliveries[id].runtimeProfile
  }

  predicate Closed(b: Bundle) {
    && Known(b)
    && (forall id :: id in b.paths ==> PathOk(b, id, b.paths[id]))
    && b.deliveries.Keys <= ReferencedProfiles(b)
    && b.probes.Keys <= ReferencedProbes(b)
  }

  // ---------------------------------------------------------------- requests

  datatype Request = Request(product: string, path: string, realm: string)

  predicate RequestOk(b: Bundle, q: Request) {
    && q.product in b.products
    && q.path in b.paths && q.path in b.products[q.product].paths
    && b.paths[q.path].product == q.product
    && q.realm in b.realms && q.realm in b.paths[q.path].supportedRealms
    && q.path in b.realms[q.realm].admittedPaths
  }
}
