/** The webhook's mutator: the type guard, the display name, best-effort
    replication into the admission namespace, then the mutation decision. */
module Mutator {
  import opened Wrappers
  import opened Secrets
  import opened SecretStore
  import opened Replicator
  import opened PodMutation

  /** The namespace the local source secret is read from, unless overridden
      by the environment at start-up. */
  const DefaultOperatorNamespace: string := "k8s-webhooks"

  datatype Config = Config(imagePullSecretName: string)

  /** The object of an admission review: a pod, or anything else. */
  datatype Object = PodObject(pod: Pod) | OtherObject(kind: string)

  /** `MutatedObject` is `None` for "no change". */
  datatype MutatorResult = MutatorResult(mutatedObject: Option<Pod>)

  /** What one admission did: its verdict, and the replication side effects. */
  datatype Admission = Admission(result: MutatorResult, cluster: Cluster, calls: seq<Call>)

  /** At start-up the source secret is read from the operator namespace under
      the configured name; a failure leaves it absent. */
  function LoadLocalSecret(store: Store, fault: Option<string>, operatorNamespace: string, cfg: Config): (r: Option<Secret>)
    ensures r.Some? <==> fault.None? && Key(operatorNamespace, cfg.imagePullSecretName) in store
    ensures r.Some? ==> r.value == store[Key(operatorNamespace, cfg.imagePullSecretName)]
  {
    var got := GetSecret(store, fault, operatorNamespace, cfg.imagePullSecretName);
    if got.Success? then Some(got.value) else None
  }

  /** With default settings the source secret is `cluster-docker-creds`
      read from the `k8s-webhooks` namespace. */
  lemma LoadLocalSecretDefaults(store: Store)
    requires Key(DefaultOperatorNamespace, DefaultImagePullSecretName) in store
    ensures LoadLocalSecret(store, None, DefaultOperatorNamespace, Config(DefaultImagePullSecretName))
         == Some(store[Key("k8s-webhooks", "cluster-docker-creds")])
  {
  }

  /** In a well-keyed store the source secret carries the configured name,
      so the replica written into a namespace has exactly the name that the
      decision adds to the pod's pull-secret list. */
  lemma ReplicaMatchesInjectedReference(store: Store, operatorNamespace: string, cfg: Config,
                                        namespace: string, pod: Pod)
    requires WellKeyed(store)
    requires LoadLocalSecret(store, None, operatorNamespace, cfg).Some?
    ensures var source := LoadLocalSecret(store, None, operatorNamespace, cfg).value;
      && source.name == cfg.imagePullSecretName
      && source.namespace == operatorNamespace
      && KeyOf(ReplicaOf(source, namespace)) == Key(namespace, cfg.imagePullSecretName)
      && (Decide(pod, cfg.imagePullSecretName).Some? ==>
            PullSecrets(Decide(pod, cfg.imagePullSecretName).value)[|PullSecrets(pod)|].name
              == ReplicaOf(source, namespace).name)
  {
  }

  /** The pod's identifier in log lines: its name, or the generate-name
      prefix when the name is empty. */
  function PodIdentifier(pod: Pod): (id: string)
  {
    if pod.name != "" then pod.name else pod.generateName
  }

  /** The `namespace/identifier` string the mutator logs under. */
  function DisplayName(namespace: string, pod: Pod): (s: string)
  {
    namespace + "/" + PodIdentifier(pod)
  }

  /** Index of the first '/' in `s`, or `|s|` when there is none. */
  function FirstSlash(s: string): (k: nat)
    ensures k <= |s|
    ensures forall i :: 0 <= i < k ==> s[i] != '/'
    ensures k < |s| ==> s[k] == '/'
  {
    if |s| == 0 then 0
    else if s[0] == '/' then 0
    else 1 + FirstSlash(s[1..])
  }

  /** Splits a display name at its first '/'. */
  function SplitDisplayName(s: string): (parts: (string, string))
  {
    var k := FirstSlash(s);
    if k < |s| then (s[..k], s[k + 1..]) else (s, "")
  }

  /** Namespaces contain no '/', so the display name determines the
      namespace and the pod identifier it was built from. */
  lemma DisplayNameRoundTrip(namespace: string, pod: Pod)
    requires forall i :: 0 <= i < |namespace| ==> namespace[i] != '/'
    ensures SplitDisplayName(DisplayName(namespace, pod)) == (namespace, PodIdentifier(pod))
  {
    var s := DisplayName(namespace, pod);
    assert s[|namespace|] == '/';
    assert FirstSlash(s) == |namespace|;
    assert s[..|namespace|] == namespace;
    assert s[|namespace| + 1..] == PodIdentifier(pod);
  }

  /** The mutator closure for one admission review in `namespace`. */
  function Mutate(cfg: Config, localSecret: Secret, namespace: string, obj: Object, c: Cluster, faults: Faults): (r: Admission)
    ensures obj.OtherObject? ==> r == Admission(MutatorResult(None), c, [])
    ensures obj.PodObject? ==> r.result.mutatedObject == Decide(obj.pod, cfg.imagePullSecretName)
    ensures namespace == "" ==> r.cluster == c && r.calls == []
    ensures obj.PodObject? && namespace != "" ==>
      r.cluster == SaveSecret(c, faults, namespace, localSecret).cluster
      && r.calls == SaveSecret(c, faults, namespace, localSecret).calls
  {
    match obj
    case OtherObject(_) => Admission(MutatorResult(None), c, [])
    case PodObject(pod) =>
      var replicated :=
        if namespace != "" then
          var saved := SaveSecret(c, faults, namespace, localSecret);
          (saved.cluster, saved.calls)
        else (c, []);
      Admission(MutatorResult(Decide(pod, cfg.imagePullSecretName)), replicated.0, replicated.1)
  }

  /** The verdict does not depend on replication: whatever the store, the
      cache or the failures injected, the same review gets the same result. */
  lemma VerdictIgnoresReplication(cfg: Config, localSecret: Secret, namespace: string, obj: Object,
                                  c1: Cluster, faults1: Faults, c2: Cluster, faults2: Faults)
    ensures Mutate(cfg, localSecret, namespace, obj, c1, faults1).result
         == Mutate(cfg, localSecret, namespace, obj, c2, faults2).result
  {
  }

  /** A pod admitted a second time, as returned by the first admission, is
      left unchanged. */
  lemma MutateIdempotent(cfg: Config, localSecret: Secret, namespace: string, pod: Pod,
                         c1: Cluster, faults1: Faults, c2: Cluster, faults2: Faults)
    requires Mutate(cfg, localSecret, namespace, PodObject(pod), c1, faults1).result.mutatedObject.Some?
    ensures var mutated := Mutate(cfg, localSecret, namespace, PodObject(pod), c1, faults1).result.mutatedObject.value;
      Mutate(cfg, localSecret, namespace, PodObject(mutated), c2, faults2).result.mutatedObject.None?
  {
  }
}
