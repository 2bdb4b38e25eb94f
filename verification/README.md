# pod-add-image-pull-secret, modelled in Dafny

A mutating admission webhook for Kubernetes pods. For every admitted pod it
does two things:

- it makes sure the configured image-pull secret (default
  `cluster-docker-creds`) is in the pod's `imagePullSecrets` list, appending
  it when missing;
- it copies a source secret, read once at start-up from the operator
  namespace, into the pod's namespace. A per-namespace existence cache avoids
  asking the cluster API again.

The model is sequential and functional. The cluster API is an abstract store
from `(namespace, name)` to secrets. `Get` and `Create` may fail: an injected
failure is passed in as a parameter. For `Get` it stands for a network or
authorisation failure. For `Create` it may also be a rejection by the API
server's validation. Each replication returns the requests it
issued as a trace, so contracts can count `Get` and `Create` calls. The
process-wide cache is a `map<string, bool>` threaded through the calls with the
store, in a `Cluster` record.

Files:

- `wrappers.dfy` (`Wrappers`): `Option` and `Result`.
- `secrets.dfy` (`Secrets`): the secret record and the replica construction.
- `store.dfy` (`SecretStore`): the abstract store, `Get`, `Create`, `getSecret`.
- `replicator.dfy` (`Replicator`): `secretExists`, `saveSecret` and the cache.
- `decision.dfy` (`PodMutation`): the pull-secret decision on a pod.
- `mutator.dfy` (`Mutator`): the mutator closure, which ties the two together.

A reader might expect replication to stop on a transient `Get` failure, to
treat AlreadyExists from `Create` as success, to mark the cache after a
creation, and to copy the source's type. The code does none of these, and the
model follows the code. Each difference is stated by a lemma:

- A `Get` that fails for any reason, transient or not, reads as "does not
  exist", so replication goes on to `Create` (`Replicator.TransientGetStillCreates`).
- `Create`'s AlreadyExists error is returned to the caller, not treated as
  success (`Replicator.RecreateAfterTransientGetFails`).
- The cache is marked only after a successful `Get`, never after `Create`.
  The save that follows a creation therefore still issues a `Get`
  (`Replicator.CreateLeavesCacheCold`).
- The cache is keyed by namespace alone. On a hit the secret name is ignored
  (`Replicator.CacheHitIgnoresName`, `Replicator.CacheHitCanVouchForMissingSecret`).
- The replica's type is always `kubernetes.io/dockerconfigjson`. It is not
  copied from the source (`Secrets.ReplicaOf`).

## Model

| member | source | states |
|---|---|---|
| Secrets.ReplicaOf | pod-add-image-pull-secret/secret.go:75-87 | the replica keeps the source's name and sits in the target namespace. Its only annotation is `created-by-webhook: "true"`. Its type is `kubernetes.io/dockerconfigjson`. Its data has only the `.dockerconfigjson` key, holding the source's value (nil when the source lacks it) |
| Secrets.ReplicaIgnoresOtherFields | pod-add-image-pull-secret/secret.go:75-87 | two sources with the same name and payload give the same replica: the source's type, annotations and other data are never propagated |
| Secrets.ReplicaOfReplica | pod-add-image-pull-secret/secret.go:75-87 | replicating a replica gives the replica of the original source in the new namespace |
| SecretStore.Get | pod-add-image-pull-secret/secret.go:58 | the assumed `Get` of the cluster API: it succeeds exactly when no failure is injected and the key is stored, and returns the stored secret. Without an injected failure, a failure is NotFound. An injected failure is returned as that failure. It never changes the store |
| SecretStore.Create | pod-add-image-pull-secret/secret.go:89 | the assumed `Create` of the cluster API: it succeeds exactly when no failure is injected and the key is free. On success it stores exactly the object sent under its own key and adds no other key. AlreadyExists occurs only when the key is stored. An injected failure is returned as that failure, and any failure leaves the store unchanged |
| SecretStore.CreateThenGet | pod-add-image-pull-secret/secret.go:58-89 | a `Get` after a successful `Create` of a secret returns that secret |
| SecretStore.CreateKeepsWellKeyed | pod-add-image-pull-secret/secret.go:89 | a `Create` keeps every stored secret under its own namespace and name |
| SecretStore.GetSecret | pod-add-image-pull-secret/secret.go:93-96 | one store lookup: it succeeds exactly when no failure is injected and the key is stored, and then returns the stored secret |
| Replicator.SecretExists | pod-add-image-pull-secret/secret.go:52-68 | on a cache hit for the namespace: true, no request, cache unchanged, whatever the name. Otherwise exactly one `Get`. True exactly when that `Get` succeeds, and then only that namespace is marked. On any failure: false, cache unchanged |
| Replicator.SaveSecret | pod-add-image-pull-secret/secret.go:70-91 | when `secretExists` is true: success, no `Create`, store unchanged, and the cache and requests are exactly those of `secretExists`. Otherwise exactly one `Create` of the replica follows `secretExists`' requests, and the cache is unchanged. Its error is returned as is: none when the key was free, AlreadyExists when it was taken, the injected failure when there is one. Cache and store only grow. At most one `Create` per call |
| Replicator.CacheHitIgnoresName | pod-add-image-pull-secret/secret.go:53-56 | with the namespace cached, saving any source returns success with no request and no state change |
| Replicator.CacheHitCanVouchForMissingSecret | pod-add-image-pull-secret/secret.go:53-56 | a cached namespace reports success for a secret name the store does not hold |
| Replicator.TransientGetStillCreates | pod-add-image-pull-secret/secret.go:58-90 | an uncached namespace whose `Get` fails transiently gets a `Get` then a `Create`, and its cache stays unmarked |
| Replicator.InitialCacheAllTrue | pod-add-image-pull-secret/main.go:60 | the cache the process starts with has no false entry |
| Replicator.SaveKeepsCacheAllTrue | pod-add-image-pull-secret/secret.go:53-63 | every save keeps the cache free of false entries, so with `InitialCacheAllTrue` no entry is ever false |
| Replicator.SaveKeepsCacheSound | pod-add-image-pull-secret/secret.go:52-91 | while one secret name is used, every cached namespace holds that secret in the store, and every save keeps this so |
| Replicator.SaveWithoutFaultsSucceeds | pod-add-image-pull-secret/secret.go:70-91 | without injected failures a save succeeds, and afterwards the namespace is cached or holds the secret |
| Replicator.SaveWhenSettledCreatesNothing | pod-add-image-pull-secret/secret.go:70-73 | when the namespace is cached or holds the secret, a fault-free save issues no `Create`, keeps the store and leaves the namespace cached |
| Replicator.SaveTwice | pod-add-image-pull-secret/secret_test.go:17-23 | two saves in a row of the same source into one namespace both succeed, issue at most one `Create` (none in the second) and leave the namespace cached |
| Replicator.CreateLeavesCacheCold | pod-add-image-pull-secret/secret.go:52-91 | a first save that creates issues `Get` then `Create` and leaves the cache cold; the next save issues one `Get` |
| Replicator.RecreateAfterTransientGetFails | pod-add-image-pull-secret/secret.go:89-90 | after a creation, a save whose `Get` fails transiently creates again and returns AlreadyExists, with the state unchanged |
| Replicator.RepeatedSavesCreateAtMostOnce | pod-add-image-pull-secret/secret.go:70-91 | any number of fault-free saves of one source into one namespace all succeed and issue at most one `Create`; none when the namespace is already settled |
| PodMutation.ShouldMutate | pod-add-image-pull-secret/main.go:110-115 | the scan's flag stays set exactly when no entry has the configured name, that is, when the name occurs zero times |
| PodMutation.Decide | pod-add-image-pull-secret/main.go:106-131 | a mutated pod's list is one longer than before, keeps the old entries in order as its prefix and ends with the configured name. It is never nil. Every other pod field is unchanged |
| PodMutation.DecideNoChangeIff | pod-add-image-pull-secret/main.go:110-122 | "no change" exactly when the configured name occurs in the list |
| PodMutation.DecideAppends | pod-add-image-pull-secret/main.go:124-131 | with the name absent, the result is the pod with its list followed by one entry naming the configured secret |
| PodMutation.DecideNilList | pod-add-image-pull-secret/main.go:106-108 | a nil list is treated as empty: the mutated list is exactly the configured name |
| PodMutation.DecideAddsExactlyOne | pod-add-image-pull-secret/main.go:110-125 | after a mutation the configured name occurs exactly once, and every other name as often as before |
| PodMutation.DecideDefaultScenario | pod-add-image-pull-secret/main.go:40 | with the default name `cluster-docker-creds`, a pod with an empty list gets exactly that entry, and a pod that has it is left unchanged |
| PodMutation.DecideIdempotent | pod-add-image-pull-secret/main.go:110-125 | deciding again on a mutated pod gives "no change" |
| Mutator.LoadLocalSecret | pod-add-image-pull-secret/main.go:75-78 | the source secret is the store's entry under the operator namespace and configured name. It is absent exactly when that read fails |
| Mutator.LoadLocalSecretDefaults | pod-add-image-pull-secret/main.go:31-40 | with the default settings, the source secret is the store's `cluster-docker-creds` in the `k8s-webhooks` namespace |
| Mutator.ReplicaMatchesInjectedReference | pod-add-image-pull-secret/main.go:75-131 | in a well-keyed store the source secret read at start-up has the configured name. So the replica written into a namespace sits under that name, which is the name the decision appends to the pod's list |
| Mutator.DisplayNameRoundTrip | pod-add-image-pull-secret/main.go:87-94 | `Mutator.DisplayName`, the logged identifier, is `namespace/name`, falling back to the generate-name when the name is empty. Splitting it at the first `/` gives back both parts |
| Mutator.Mutate | pod-add-image-pull-secret/main.go:81-132 | a non-pod object gets an empty result with no state change. A pod gets the decision's verdict. Replication runs only for a non-empty namespace, and its effects are exactly `saveSecret`'s |
| Mutator.VerdictIgnoresReplication | pod-add-image-pull-secret/main.go:98-104 | the verdict is the same whatever the store, cache or failures: a replication error is swallowed |
| Mutator.MutateIdempotent | pod-add-image-pull-secret/main.go:110-125 | admitting the mutated pod again, in any cluster state, gives "no change" |

## Left out

- HTTP/TLS serving, the metrics server, the goroutines and the error channel (main.go:134-188): I/O and concurrency plumbing.
- The admission-review envelope and the webhook framework: the model takes a pod record plus the admission namespace. The closure's error return is always nil, so it is not modelled.
- Flag parsing, the `POD_NAMESPACE` override, logger set-up, `initClient`, `getClusterConfig`, `fileExists` and `kubeConfigFromPath`: start-up, file system and environment I/O. Only the defaults appear, as `PodMutation.DefaultImagePullSecretName` and `Mutator.DefaultOperatorNamespace`.
- Logging. `Mutator.DisplayName` is only ever logged, so nothing in `Mutator.Mutate` reads it.
- Concurrency on the cache. The Go map is unsynchronised. The model is sequential and claims nothing about races.
- A failed start-up read of the source secret. `run` carries on after the read fails (main.go:75-78), but it has no usable source secret: what it holds is nil or empty, depending on the client. The model requires a present secret, so `Mutator.Mutate` takes a `Secrets.Secret`.
- The real client library. The store is abstract, and failed calls are parameters. Server-set fields such as UIDs and resource versions are not modelled, and nor are deletions made outside the webhook.
- SecretStore.Create: the API server's validation is not modelled. The server rejects a `kubernetes.io/dockerconfigjson` secret whose `.dockerconfigjson` value is missing or is not JSON, and a secret with an empty name, as Invalid. In the model such a rejection is one more value of the injected create fault. So the fault-free lemmas (`Replicator.SaveWithoutFaultsSucceeds`, `Replicator.SaveTwice`, `Replicator.RepeatedSavesCreateAtMostOnce`) hold only for a source the server accepts a replica of. For a source without the `.dockerconfigjson` key, such as a `kubernetes.io/dockercfg` secret, every save in a fresh namespace ends in a rejected `Create`, and the namespace is never cached.
- Secrets.ReplicaOf: a Go nil byte slice is identified with an empty one, so a source without the `.dockerconfigjson` key gives a replica whose value is empty.
