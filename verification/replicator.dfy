/** Secret replication with the per-namespace existence cache: the webhook's
    `secretExists` and `saveSecret`, run against the abstract store. */
module Replicator {
  import opened Wrappers
  import opened Secrets
  import opened SecretStore

  /** The process-wide cache: namespace to "a secret is known to exist". */
  type Cache = map<string, bool>

  /** Everything replication reads and writes: the remote store and the cache. */
  datatype Cluster = Cluster(store: Store, cache: Cache)

  /** The failures injected into one replication's `Get` and `Create`. */
  datatype Faults = Faults(getFault: Option<string>, createFault: Option<string>)

  const NoFaults: Faults := Faults(None, None)

  /** The cache starts empty when the process starts. */
  const InitialCache: Cache := map[]

  /** The cache starts with no false entry. */
  lemma InitialCacheAllTrue()
    ensures CacheAllTrue(InitialCache)
  {
  }

  /** Entries are only added: existing ones keep their value, new ones are true. */
  ghost predicate CacheGrows(before: Cache, after: Cache)
  {
    && (forall ns :: ns in before ==> ns in after && after[ns] == before[ns])
    && (forall ns :: ns in after && ns !in before ==> after[ns])
  }

  /** No cache entry is ever false. */
  ghost predicate CacheAllTrue(cache: Cache)
  {
    forall ns :: ns in cache ==> cache[ns]
  }

  /** Every cached namespace holds a secret called `name` in the store. */
  ghost predicate CacheSound(c: Cluster, name: string)
  {
    forall ns :: ns in c.cache ==> Key(ns, name) in c.store
  }

  /** What `secretExists` answered, the cache it left, the requests it made. */
  datatype Probe = Probe(found: bool, cache: Cache, calls: seq<Call>)

  /** `secretExists(namespace, name)`: a cache hit on the namespace alone
      answers true; otherwise one `Get`, whose success is cached and whose
      failure of any kind reads as "does not exist". */
  function SecretExists(c: Cluster, getFault: Option<string>, namespace: string, name: string): (r: Probe)
    ensures namespace in c.cache ==> r.found && r.cache == c.cache && r.calls == []
    ensures namespace !in c.cache ==> r.calls == [GetCall(Key(namespace, name))]
    ensures r.found <==> namespace in c.cache || (getFault.None? && Key(namespace, name) in c.store)
    ensures !r.found ==> r.cache == c.cache
    ensures namespace !in c.cache && r.found ==> r.cache == c.cache[namespace := true]
    ensures r.cache.Keys == c.cache.Keys + (if r.found then {namespace} else {})
    ensures CacheGrows(c.cache, r.cache)
  {
    if namespace in c.cache then Probe(true, c.cache, [])
    else
      var get := Get(c.store, getFault, Key(namespace, name));
      if get.Success? then Probe(true, c.cache[namespace := true], [GetCall(Key(namespace, name))])
      else Probe(false, c.cache, [GetCall(Key(namespace, name))])
  }

  /** What `saveSecret` returned, the state it left, the requests it made. */
  datatype Saved = Saved(err: Option<ApiError>, cluster: Cluster, calls: seq<Call>)

  /** `saveSecret(namespace, source)`: nothing to do when `secretExists`
      says so; otherwise create the replica and return Create's error as is. */
  function SaveSecret(c: Cluster, faults: Faults, namespace: string, source: Secret): (r: Saved)
    ensures var probe := SecretExists(c, faults.getFault, namespace, source.name);
      && (probe.found ==> r.err.None? && r.cluster.store == c.store && CreateCount(r.calls) == 0)
      && (probe.found ==> r.cluster.cache == probe.cache && r.calls == probe.calls)
      && (!probe.found ==> r.cluster.cache == c.cache)
      && (!probe.found ==> r.calls == probe.calls + [CreateCall(Key(namespace, source.name))])
      && (!probe.found ==>
            (r.err.None? <==> faults.createFault.None? && Key(namespace, source.name) !in c.store))
      && (!probe.found && r.err.None? ==>
            r.cluster.store == c.store[Key(namespace, source.name) := ReplicaOf(source, namespace)])
      && (!probe.found && r.err.Some? ==> r.cluster.store == c.store)
      && (!probe.found && faults.createFault.None? && r.err.Some? ==> r.err == Some(AlreadyExists))
      && (!probe.found && faults.createFault.Some? ==> r.err == Some(Failed(faults.createFault.value)))
    ensures CacheGrows(c.cache, r.cluster.cache)
    ensures StoreGrows(c.store, r.cluster.store)
    ensures CreateCount(r.calls) <= 1
    ensures r.err.None? ==> namespace in c.cache || Key(namespace, source.name) in r.cluster.store
  {
    var probe := SecretExists(c, faults.getFault, namespace, source.name);
    if probe.found then
      Saved(None, Cluster(c.store, probe.cache), probe.calls)
    else
      var target := ReplicaOf(source, namespace);
      var created := Create(c.store, faults.createFault, target);
      var err := if created.result.Success? then None else Some(created.result.error);
      CreateCountConcat(probe.calls, [CreateCall(KeyOf(target))]);
      Saved(err, Cluster(created.store, probe.cache), probe.calls + [CreateCall(KeyOf(target))])
  }

  /** On a cache hit the secret's name plays no part: any source is accepted
      with no request to the store and no change of state. */
  lemma CacheHitIgnoresName(c: Cluster, faults: Faults, namespace: string, source: Secret)
    requires namespace in c.cache
    ensures SaveSecret(c, faults, namespace, source) == Saved(None, c, [])
  {
  }

  /** Consequently a cache entry made for one secret name vouches for any
      other name, even one the store does not hold. */
  lemma CacheHitCanVouchForMissingSecret(c: Cluster, faults: Faults, namespace: string, source: Secret)
    requires namespace in c.cache
    requires Key(namespace, source.name) !in c.store
    ensures SaveSecret(c, faults, namespace, source).err.None?
    ensures Key(namespace, source.name) !in SaveSecret(c, faults, namespace, source).cluster.store
  {
  }

  /** A `Get` that fails for a transient reason is read as "does not exist",
      so replication goes on to `Create`, and the cache stays unmarked. */
  lemma TransientGetStillCreates(c: Cluster, reason: string, createFault: Option<string>, namespace: string, source: Secret)
    requires namespace !in c.cache
    ensures var r := SaveSecret(c, Faults(Some(reason), createFault), namespace, source);
      && r.calls == [GetCall(Key(namespace, source.name)), CreateCall(Key(namespace, source.name))]
      && r.cluster.cache == c.cache
  {
  }

  /** The cache is monotone and never holds false, from the empty cache on. */
  lemma SaveKeepsCacheAllTrue(c: Cluster, faults: Faults, namespace: string, source: Secret)
    requires CacheAllTrue(c.cache)
    ensures CacheAllTrue(SaveSecret(c, faults, namespace, source).cluster.cache)
  {
  }

  /** While replication always uses the same secret name, a cached namespace
      really holds that secret in the store (deletions outside the webhook are
      not modelled). */
  lemma SaveKeepsCacheSound(c: Cluster, faults: Faults, namespace: string, source: Secret)
    requires CacheSound(c, source.name)
    ensures CacheSound(SaveSecret(c, faults, namespace, source).cluster, source.name)
  {
  }

  /** Without injected failures replication always succeeds and leaves the
      namespace settled: cached, or holding the secret. */
  lemma SaveWithoutFaultsSucceeds(c: Cluster, namespace: string, source: Secret)
    ensures var r := SaveSecret(c, NoFaults, namespace, source);
      && r.err.None?
      && (namespace in r.cluster.cache || Key(namespace, source.name) in r.cluster.store)
  {
  }

  /** From a settled namespace, a fault-free replication issues no `Create`. */
  lemma SaveWhenSettledCreatesNothing(c: Cluster, namespace: string, source: Secret)
    requires namespace in c.cache || Key(namespace, source.name) in c.store
    ensures var r := SaveSecret(c, NoFaults, namespace, source);
      && r.err.None?
      && CreateCount(r.calls) == 0
      && r.cluster.store == c.store
      && namespace in r.cluster.cache
  {
  }

  /** Two saves in a row for the same namespace and source, as the package
      test does: both succeed, at most one `Create` is issued, and the
      namespace ends up cached. */
  lemma SaveTwice(c: Cluster, namespace: string, source: Secret)
    ensures var first := SaveSecret(c, NoFaults, namespace, source);
      var second := SaveSecret(first.cluster, NoFaults, namespace, source);
      && first.err.None? && second.err.None?
      && CreateCount(first.calls + second.calls) <= 1
      && CreateCount(second.calls) == 0
      && namespace in second.cluster.cache
  {
  }

  /** A `Create` does not mark the cache, so the save after a creation still
      asks the store with a `Get` before the namespace is cached. */
  lemma CreateLeavesCacheCold(c: Cluster, namespace: string, source: Secret)
    requires namespace !in c.cache
    requires Key(namespace, source.name) !in c.store
    ensures var first := SaveSecret(c, NoFaults, namespace, source);
      var second := SaveSecret(first.cluster, NoFaults, namespace, source);
      && first.calls == [GetCall(Key(namespace, source.name)), CreateCall(Key(namespace, source.name))]
      && namespace !in first.cluster.cache
      && second.calls == [GetCall(Key(namespace, source.name))]
  {
  }

  /** AlreadyExists from `Create` is returned as an error: after a replica was
      created, a save whose `Get` fails transiently creates again and fails. */
  lemma RecreateAfterTransientGetFails(c: Cluster, reason: string, namespace: string, source: Secret)
    requires namespace !in c.cache
    requires Key(namespace, source.name) !in c.store
    ensures var first := SaveSecret(c, NoFaults, namespace, source);
      var second := SaveSecret(first.cluster, Faults(Some(reason), None), namespace, source);
      && first.err.None?
      && second.err == Some(AlreadyExists)
      && second.cluster == first.cluster
  {
  }

  /** The outcome of `n` fault-free saves of the same source into one namespace. */
  datatype Run = Run(cluster: Cluster, calls: seq<Call>, failures: nat)

  function SaveRepeatedly(c: Cluster, namespace: string, source: Secret, n: nat): (run: Run)
    decreases n
  {
    if n == 0 then Run(c, [], 0)
    else
      var r := SaveSecret(c, NoFaults, namespace, source);
      var rest := SaveRepeatedly(r.cluster, namespace, source, n - 1);
      Run(rest.cluster, r.calls + rest.calls, (if r.err.Some? then 1 else 0) + rest.failures)
  }

  /** However often the same replication is repeated without injected
      failures, every call succeeds and at most one `Create` is issued; none
      at all once the namespace is settled. */
  lemma {:induction false} RepeatedSavesCreateAtMostOnce(c: Cluster, namespace: string, source: Secret, n: nat)
    ensures SaveRepeatedly(c, namespace, source, n).failures == 0
    ensures CreateCount(SaveRepeatedly(c, namespace, source, n).calls) <= 1
    ensures namespace in c.cache || Key(namespace, source.name) in c.store ==>
      CreateCount(SaveRepeatedly(c, namespace, source, n).calls) == 0
    decreases n
  {
    if n > 0 {
      var r := SaveSecret(c, NoFaults, namespace, source);
      SaveWithoutFaultsSucceeds(c, namespace, source);
      RepeatedSavesCreateAtMostOnce(r.cluster, namespace, source, n - 1);
      var rest := SaveRepeatedly(r.cluster, namespace, source, n - 1);
      CreateCountConcat(r.calls, rest.calls);
      if namespace in c.cache || Key(namespace, source.name) in c.store {
        SaveWhenSettledCreatesNothing(c, namespace, source);
      }
    }
  }
}
