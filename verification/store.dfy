/** The cluster API as the webhook sees it: a store of secrets addressed by
    (namespace, name) with `Get` and `Create`, either of which may fail.
    A failed call is injected by the caller as `Some(reason)`: a network or
    authorisation failure, or, for `Create`, a rejection by the API server's
    validation. `None` means the call reaches the store and succeeds unless
    the key decides otherwise. */
module SecretStore {
  import opened Wrappers
  import opened Secrets

  datatype Key = Key(namespace: string, name: string)

  /** Where a secret lives in the store. */
  function KeyOf(s: Secret): (k: Key)
  {
    Key(s.namespace, s.name)
  }

  /** `Failed` is any error other than the two the store's keys decide. */
  datatype ApiError = NotFound | AlreadyExists | Failed(reason: string)

  type Store = map<Key, Secret>

  /** One remote request, recorded so that contracts can say which calls an
      operation issued. */
  datatype Call = GetCall(key: Key) | CreateCall(key: Key)

  /** How many `Create` requests a call trace holds. */
  function CreateCount(calls: seq<Call>): (n: nat)
  {
    if |calls| == 0 then 0
    else (if calls[0].CreateCall? then 1 else 0) + CreateCount(calls[1..])
  }

  lemma {:induction false} CreateCountConcat(a: seq<Call>, b: seq<Call>)
    ensures CreateCount(a + b) == CreateCount(a) + CreateCount(b)
    decreases |a|
  {
    if |a| == 0 {
      assert a + b == b;
    } else {
      assert (a + b)[1..] == a[1..] + b;
      CreateCountConcat(a[1..], b);
    }
  }

  /** Every stored secret sits under its own namespace and name, as the
      cluster API files it. */
  ghost predicate WellKeyed(store: Store)
  {
    forall k :: k in store ==> KeyOf(store[k]) == k
  }

  /** `Create` files the secret under its own key, so it keeps the store
      well keyed. */
  lemma CreateKeepsWellKeyed(store: Store, fault: Option<string>, s: Secret)
    requires WellKeyed(store)
    ensures WellKeyed(Create(store, fault, s).store)
  {
  }

  /** Entries are only ever added: nothing already stored is changed. */
  ghost predicate StoreGrows(before: Store, after: Store)
  {
    forall k :: k in before ==> k in after && after[k] == before[k]
  }

  /** `Get(namespace, name)`: the stored secret, NotFound, or the injected
      injected failure. */
  function Get(store: Store, fault: Option<string>, key: Key): (r: Result<Secret, ApiError>)
    ensures r.Success? <==> fault.None? && key in store
    ensures r.Success? ==> r.value == store[key]
    ensures r.Failure? && fault.None? ==> r.error == NotFound
    ensures fault.Some? ==> r == Failure(Failed(fault.value))
  {
    if fault.Some? then Failure(Failed(fault.value))
    else if key in store then Success(store[key])
    else Failure(NotFound)
  }

  datatype Created = Created(result: Result<Secret, ApiError>, store: Store)

  /** `Create(secret)`: inserts under the secret's own key unless the key is
      taken (AlreadyExists) or the request fails. */
  function Create(store: Store, fault: Option<string>, s: Secret): (r: Created)
    ensures r.result.Success? <==> fault.None? && KeyOf(s) !in store
    ensures r.result.Success? ==> r.result.value == s
    ensures r.result.Success? ==> KeyOf(s) in r.store && r.store[KeyOf(s)] == s
    ensures r.result.Success? ==> r.store.Keys == store.Keys + {KeyOf(s)}
    ensures r.result.Failure? ==> r.store == store
    ensures fault.None? && KeyOf(s) in store ==> r.result == Failure(AlreadyExists)
    ensures fault.Some? ==> r.result == Failure(Failed(fault.value))
    ensures StoreGrows(store, r.store)
  {
    if fault.Some? then Created(Failure(Failed(fault.value)), store)
    else if KeyOf(s) in store then Created(Failure(AlreadyExists), store)
    else Created(Success(s), store[KeyOf(s) := s])
  }

  /** Reading back a secret just created returns it. */
  lemma CreateThenGet(store: Store, s: Secret)
    requires KeyOf(s) !in store
    ensures Get(Create(store, None, s).store, None, KeyOf(s)) == Success(s)
  {
  }

  /** `getSecret`: a thin wrapper that is exactly one store lookup. */
  function GetSecret(store: Store, fault: Option<string>, namespace: string, name: string): (r: Result<Secret, ApiError>)
    ensures r.Success? <==> fault.None? && Key(namespace, name) in store
    ensures r.Success? ==> r.value == store[Key(namespace, name)]
  {
    Get(store, fault, Key(namespace, name))
  }
}
