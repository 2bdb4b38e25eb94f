/** The mutation decision: whether a pod's image-pull-secret list already
    names the configured secret, and the list it gets when it does not. */
module PodMutation {
  import opened Wrappers

  /** The flag default for the configured image-pull-secret name. */
  const DefaultImagePullSecretName: string := "cluster-docker-creds"

  /** A reference from a pod to a secret in its namespace, by name. */
  datatype SecretRef = SecretRef(name: string)

  /** The parts of a pod the webhook touches. `imagePullSecrets` is `None`
      when the pod's list is nil; `containers` stands for the rest of the
      spec, which is never changed. */
  datatype Pod = Pod(
    name: string,
    generateName: string,
    containers: seq<string>,
    imagePullSecrets: Option<seq<SecretRef>>)

  /** The pod's pull-secret list, a nil list read as empty. */
  function PullSecrets(pod: Pod): (refs: seq<SecretRef>)
  {
    if pod.imagePullSecrets.Some? then pod.imagePullSecrets.value else []
  }

  /** Some entry of `refs` is named `name`. */
  predicate Mentions(refs: seq<SecretRef>, name: string)
  {
    exists i :: 0 <= i < |refs| && refs[i].name == name
  }

  /** How many entries of `refs` are named `name`. */
  function Occurrences(refs: seq<SecretRef>, name: string): (n: nat)
  {
    if |refs| == 0 then 0
    else (if refs[0].name == name then 1 else 0) + Occurrences(refs[1..], name)
  }

  lemma {:induction false} OccurrencesAppend(refs: seq<SecretRef>, ref: SecretRef, name: string)
    ensures Occurrences(refs + [ref], name) == Occurrences(refs, name) + (if ref.name == name then 1 else 0)
    decreases |refs|
  {
    if |refs| == 0 {
      assert (refs + [ref])[1..] == [];
    } else {
      assert (refs + [ref])[1..] == refs[1..] + [ref];
      OccurrencesAppend(refs[1..], ref, name);
    }
  }

  /** Counting and searching agree: no entry is named `name` exactly when
      there are zero of them. */
  lemma {:induction false} OccurrencesZeroIff(refs: seq<SecretRef>, name: string)
    ensures Occurrences(refs, name) == 0 <==> !Mentions(refs, name)
    decreases |refs|
  {
    if |refs| > 0 {
      OccurrencesZeroIff(refs[1..], name);
      if Mentions(refs[1..], name) {
        var i :| 0 <= i < |refs[1..]| && refs[1..][i].name == name;
        assert refs[i + 1].name == name;
      }
      if Mentions(refs, name) && refs[0].name != name {
        var i :| 0 <= i < |refs| && refs[i].name == name;
        assert refs[1..][i - 1].name == name;
      }
    }
  }

  /** The scan over the pull-secret list: every entry is visited, and any
      entry with the configured name clears the flag. */
  method ShouldMutate(refs: seq<SecretRef>, name: string) returns (shouldMutate: bool)
    ensures shouldMutate <==> forall i :: 0 <= i < |refs| ==> refs[i].name != name
    ensures shouldMutate <==> Occurrences(refs, name) == 0
  {
    shouldMutate := true;
    var i := 0;
    while i < |refs|
      invariant 0 <= i <= |refs|
      invariant shouldMutate <==> forall j :: 0 <= j < i ==> refs[j].name != name
    {
      if refs[i].name == name {
        shouldMutate := false;
      }
      i := i + 1;
    }
    OccurrencesZeroIff(refs, name);
  }

  /** The decision for a pod: `None` for "no change", or the mutated pod. */
  function Decide(pod: Pod, secretName: string): (r: Option<Pod>)
    ensures r.Some? ==> |PullSecrets(r.value)| == |PullSecrets(pod)| + 1
    ensures r.Some? ==> PullSecrets(r.value)[..|PullSecrets(pod)|] == PullSecrets(pod)
    ensures r.Some? ==> PullSecrets(r.value)[|PullSecrets(pod)|].name == secretName
    ensures r.Some? ==> r.value.imagePullSecrets.Some?
    ensures r.Some? ==> r.value.(imagePullSecrets := pod.imagePullSecrets) == pod
  {
    var refs := PullSecrets(pod);
    if Mentions(refs, secretName) then None
    else Some(pod.(imagePullSecrets := Some(refs + [SecretRef(secretName)])))
  }

  /** "No change" exactly when the configured name is already in the list. */
  lemma DecideNoChangeIff(pod: Pod, secretName: string)
    ensures Decide(pod, secretName).None? <==> Occurrences(PullSecrets(pod), secretName) > 0
  {
    OccurrencesZeroIff(PullSecrets(pod), secretName);
  }

  /** Without the configured name, the new list is the old one, entries and
      order kept, followed by exactly one entry with that name. */
  lemma DecideAppends(pod: Pod, secretName: string)
    requires forall i :: 0 <= i < |PullSecrets(pod)| ==> PullSecrets(pod)[i].name != secretName
    ensures Decide(pod, secretName) ==
      Some(pod.(imagePullSecrets := Some(PullSecrets(pod) + [SecretRef(secretName)])))
  {
  }

  /** A nil list is treated as empty: the mutated list is exactly the
      configured name. */
  lemma DecideNilList(pod: Pod, secretName: string)
    requires pod.imagePullSecrets.None?
    ensures Decide(pod, secretName) == Some(pod.(imagePullSecrets := Some([SecretRef(secretName)])))
  {
  }

  /** After a mutation the configured name occurs exactly once, and every
      other name occurs as often as before. */
  lemma {:induction false} DecideAddsExactlyOne(pod: Pod, secretName: string, other: string)
    requires Decide(pod, secretName).Some?
    ensures Occurrences(PullSecrets(Decide(pod, secretName).value), secretName) == 1
    ensures other != secretName ==>
      Occurrences(PullSecrets(Decide(pod, secretName).value), other) == Occurrences(PullSecrets(pod), other)
  {
    var refs := PullSecrets(pod);
    assert PullSecrets(Decide(pod, secretName).value) == refs + [SecretRef(secretName)];
    OccurrencesZeroIff(refs, secretName);
    OccurrencesAppend(refs, SecretRef(secretName), secretName);
    OccurrencesAppend(refs, SecretRef(secretName), other);
  }

  /** A fresh pod with an empty list gets the default secret name and
      nothing else. */
  lemma DecideDefaultScenario()
    ensures Decide(Pod("worker-1", "", [], Some([])), DefaultImagePullSecretName)
         == Some(Pod("worker-1", "", [], Some([SecretRef(DefaultImagePullSecretName)])))
    ensures Decide(Pod("worker-1", "", [], Some([SecretRef(DefaultImagePullSecretName)])), DefaultImagePullSecretName).None?
  {
  }

  /** Idempotence: the decision on an already mutated pod is "no change". */
  lemma DecideIdempotent(pod: Pod, secretName: string)
    requires Decide(pod, secretName).Some?
    ensures Decide(Decide(pod, secretName).value, secretName).None?
  {
  }
}
