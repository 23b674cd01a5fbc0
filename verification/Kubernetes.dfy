/** The part of a Kubernetes object that the operator framework reads or writes. */
module Kubernetes {
  import opened Wrappers

  /** Unique identifiers issued by the API server. */
  type Uid = nat

  /** The kinds that can be cluster resources. */
  datatype Kind =
    | Service | StatefulSet | DaemonSet | Deployment | Job | ConfigMap | Secret
    | ServiceAccount | RoleBinding | PodDisruptionBudget | Listener

  const ALL_KINDS: set<Kind> :=
    {Service, StatefulSet, DaemonSet, Deployment, Job, ConfigMap, Secret,
     ServiceAccount, RoleBinding, PodDisruptionBudget, Listener}

  lemma AllKindsAreListed(kind: Kind)
    ensures kind in ALL_KINDS
  {
  }

  datatype TypeMeta = TypeMeta(apiVersion: string, kind: string)

  function TypeOf(kind: Kind): TypeMeta {
    match kind
    case Service => TypeMeta("v1", "Service")
    case StatefulSet => TypeMeta("apps/v1", "StatefulSet")
    case DaemonSet => TypeMeta("apps/v1", "DaemonSet")
    case Deployment => TypeMeta("apps/v1", "Deployment")
    case Job => TypeMeta("batch/v1", "Job")
    case ConfigMap => TypeMeta("v1", "ConfigMap")
    case Secret => TypeMeta("v1", "Secret")
    case ServiceAccount => TypeMeta("v1", "ServiceAccount")
    case RoleBinding => TypeMeta("rbac.authorization.k8s.io/v1", "RoleBinding")
    case PodDisruptionBudget => TypeMeta("policy/v1", "PodDisruptionBudget")
    case Listener => TypeMeta("listeners.stackable.tech/v1alpha1", "Listener")
  }

  lemma TypesIdentifyKinds(a: Kind, b: Kind)
    requires TypeOf(a) == TypeOf(b)
    ensures a == b
  {
  }

  datatype Metadata = Metadata(
    name: Option<string>,
    generateName: Option<string>,
    namespace: Option<string>,
    labels: map<string, string>,
    owners: set<Uid>,
    uid: Option<Uid>)
  {
    /** The name, else the generate-name prefix, else the empty string. */
    function NameAny(): string {
      name.Or(generateName).GetOr("")
    }
  }

  /**
   * The specification fields that stopping a cluster touches, and all other leaves by path.
   * An absent specification equals one without any set field.
   */
  datatype Spec = Spec(replicas: Option<int>, nodeSelector: map<string, string>, other: map<string, string>)

  datatype Object = Object(kind: Kind, meta: Metadata, spec: Spec)

  /** Objects are addressed by kind, namespace and name. */
  datatype Key = Key(kind: Kind, namespace: string, name: string)

  function KeyOf(o: Object): Key {
    Key(o.kind, o.meta.namespace.GetOr(""), o.meta.NameAny())
  }

  /** Field-wise deep merge: a set field of `other` wins, maps and owner lists are merged by key. */
  function MergeFrom(base: Object, other: Object): Object {
    Object(
      base.kind,
      Metadata(
        other.meta.name.Or(base.meta.name),
        other.meta.generateName.Or(base.meta.generateName),
        other.meta.namespace.Or(base.meta.namespace),
        base.meta.labels + other.meta.labels,
        base.meta.owners + other.meta.owners,
        other.meta.uid.Or(base.meta.uid)),
      Spec(
        other.spec.replicas.Or(base.spec.replicas),
        base.spec.nodeSelector + other.spec.nodeSelector,
        base.spec.other + other.spec.other))
  }

  /** In merged metadata, what `other` sets wins, and everything else is kept. */
  lemma MergedMetadata(base: Object, other: Object, l: string)
    ensures var m := MergeFrom(base, other).meta;
            && m.name == (if other.meta.name.Some? then other.meta.name else base.meta.name)
            && m.namespace == (if other.meta.namespace.Some? then other.meta.namespace else base.meta.namespace)
            && m.uid == (if other.meta.uid.Some? then other.meta.uid else base.meta.uid)
            && (l in m.labels <==> l in base.meta.labels || l in other.meta.labels)
            && (l in other.meta.labels ==> m.labels[l] == other.meta.labels[l])
            && (l in base.meta.labels && l !in other.meta.labels ==> m.labels[l] == base.meta.labels[l])
            && forall u :: u in m.owners <==> u in base.meta.owners || u in other.meta.owners
  {
  }
}
