/** Credential objects (Kubernetes secrets) and the replica that the webhook
    writes into a pod's namespace. */
module Secrets {

  type Bytes = seq<bv8>

  /** The secret type every replica is given, whatever the source's type. */
  const DockerConfigJsonType: string := "kubernetes.io/dockerconfigjson"

  /** The one data key whose value is copied into a replica. */
  const DockerConfigJsonKey: string := ".dockerconfigjson"

  /** The annotation that marks a replica as written by the webhook. */
  const CreatedByAnnotation: string := "created-by-webhook"

  datatype Secret = Secret(
    name: string,
    namespace: string,
    annotations: map<string, string>,
    secretType: string,
    data: map<string, Bytes>)

  /** Reading a data key the way a Go map index does: a missing key reads as
      the nil byte slice, which the model identifies with the empty sequence. */
  function DataValue(s: Secret, key: string): (v: Bytes)
  {
    if key in s.data then s.data[key] else []
  }

  /** The registry credential blob a secret carries. */
  function Payload(s: Secret): (v: Bytes)
  {
    DataValue(s, DockerConfigJsonKey)
  }

  /** The secret the webhook creates in `namespace` from `source`. */
  function ReplicaOf(source: Secret, namespace: string): (t: Secret)
    ensures t.name == source.name && t.namespace == namespace
    ensures t.annotations.Keys == {CreatedByAnnotation}
    ensures t.annotations[CreatedByAnnotation] == "true"
    ensures t.secretType == DockerConfigJsonType
    ensures t.data.Keys == {DockerConfigJsonKey}
    ensures Payload(t) == Payload(source)
  {
    Secret(
      source.name,
      namespace,
      map[CreatedByAnnotation := "true"],
      DockerConfigJsonType,
      map[DockerConfigJsonKey := Payload(source)])
  }

  /** A replica depends only on the source's name and payload: its type,
      annotations and every other data entry are not carried over. */
  lemma ReplicaIgnoresOtherFields(a: Secret, b: Secret, namespace: string)
    requires a.name == b.name
    requires Payload(a) == Payload(b)
    ensures ReplicaOf(a, namespace) == ReplicaOf(b, namespace)
  {
  }

  /** Replicating a replica gives back the replica placed in the new
      namespace: replication is idempotent up to the target namespace. */
  lemma ReplicaOfReplica(source: Secret, first: string, second: string)
    ensures ReplicaOf(ReplicaOf(source, first), second) == ReplicaOf(source, second)
  {
  }
}
