/** The in-memory snapshot of managed API keys (internal/authkeys/service.go): its indexes are
    updated one key at a time and must stay what a rebuild from the same keys would give. */
module AuthKeys {
  import opened Text
  import opened Sorting

  datatype AuthKey = AuthKey(
    id: string, name: string, description: string, userPath: string, redactedValue: string, secretHash: string,
    enabled: bool, expiresAt: Option<int>, deactivatedAt: Option<int>, createdAt: int, updatedAt: int)

  datatype Snapshot = Snapshot(
    order: seq<string>, byId: map<string, AuthKey>,
    bySecretHash: map<string, AuthKey>, activeByHash: map<string, AuthKey>)

  datatype AuthError = InvalidToken | Inactive | Expired

  datatype Authentication = Authenticated(id: string, userPath: string) | Rejected(error: AuthError)

  const TOKEN_PREFIX := "sk_gom_"

  predicate Active(k: AuthKey, now: int) {
    k.enabled && k.deactivatedAt.None? && (k.expiresAt.None? || k.expiresAt.value > now)
  }

  predicate Deactivated(k: AuthKey) { !k.enabled || k.deactivatedAt.Some? }

  // The listing order: newest first, then by name and id

  predicate ListedBefore(a: AuthKey, b: AuthKey) {
    if a.createdAt != b.createdAt then a.createdAt > b.createdAt
    else if a.name != b.name then Less(a.name, b.name)
    else Less(a.id, b.id)
  }

  predicate IdBefore(byId: map<string, AuthKey>, a: string, b: string) {
    a in byId && b in byId && ListedBefore(byId[a], byId[b])
  }

  function ById(byId: map<string, AuthKey>): (string, string) -> bool {
    (a: string, b: string) => IdBefore(byId, a, b)
  }

  ghost predicate OwnIds(byId: map<string, AuthKey>) {
    forall id :: id in byId ==> byId[id].id == id && id != "" && byId[id].secretHash != ""
  }

  /** The store's UNIQUE column. */
  ghost predicate UniqueHashes(byId: map<string, AuthKey>) {
    forall i, j :: i in byId && j in byId && byId[i].secretHash == byId[j].secretHash ==> i == j
  }

  lemma ByIdOrders(byId: map<string, AuthKey>)
    requires OwnIds(byId)
    ensures Ordering(ById(byId))
    ensures forall a, b :: a in byId && b in byId && a != b ==> ById(byId)(a, b) || ById(byId)(b, a)
  {
    forall a ensures !IdBefore(byId, a, a) {
      if a in byId {
        LessIrreflexive(byId[a].id);
      }
    }
    forall a, b, c | IdBefore(byId, a, b) && IdBefore(byId, b, c) ensures IdBefore(byId, a, c) {
      ListedBeforeTransitive(byId[a], byId[b], byId[c]);
    }
    forall a, b | a in byId && b in byId && a != b ensures IdBefore(byId, a, b) || IdBefore(byId, b, a) {
      assert byId[a].id != byId[b].id;
      LessTotal(byId[a].name, byId[b].name);
      LessTotal(byId[a].id, byId[b].id);
    }
  }

  lemma ListedBeforeTransitive(a: AuthKey, b: AuthKey, c: AuthKey)
    requires ListedBefore(a, b) && ListedBefore(b, c)
    ensures ListedBefore(a, c)
  {
    if a.createdAt == b.createdAt == c.createdAt {
      if a.name == b.name == c.name {
        LessTransitive(a.id, b.id, c.id);
      } else if a.name != b.name && b.name != c.name {
        LessTransitive(a.name, b.name, c.name);
        LessIrreflexive(a.name);
      }
    }
  }

  // What the snapshot must be

  /** The sorted permutation of the ids. */
  ghost predicate OrderGood(s: Snapshot) {
    SortedBy(ById(s.byId), s.order) && forall id :: id in s.order <==> id in s.byId
  }

  /** The secret index holds every key under its hash and nothing else. */
  ghost predicate HashesGood(s: Snapshot) {
    && (forall id :: id in s.byId ==>
        s.byId[id].secretHash in s.bySecretHash && s.bySecretHash[s.byId[id].secretHash] == s.byId[id])
    && (forall h :: h in s.bySecretHash ==>
          var k := s.bySecretHash[h]; k.secretHash == h && k.id in s.byId && s.byId[k.id] == k)
  }

  /** The active index agrees with the secret index and has lost no key but expired ones. */
  ghost predicate ActiveGood(s: Snapshot, now: int) {
    && (forall h :: h in s.activeByHash ==>
          h in s.bySecretHash && s.activeByHash[h] == s.bySecretHash[h] && !Deactivated(s.activeByHash[h]))
    && (forall h :: h in s.bySecretHash && Active(s.bySecretHash[h], now) ==> h in s.activeByHash)
  }

  ghost predicate Consistent(s: Snapshot, now: int) {
    OwnIds(s.byId) && UniqueHashes(s.byId) && OrderGood(s) && HashesGood(s) && ActiveGood(s, now)
  }

  /** Consistency is not lost by waiting. */
  lemma ConsistentLater(s: Snapshot, now: int, later: int)
    requires Consistent(s, now) && now <= later
    ensures Consistent(s, later)
  {
  }

  /** Two consistent snapshots of the same keys agree on the order and the secret index. */
  lemma IndexesDetermined(s: Snapshot, t: Snapshot, now: int, later: int)
    requires Consistent(s, now) && Consistent(t, later) && s.byId == t.byId
    ensures s.order == t.order && s.bySecretHash == t.bySecretHash
  {
    SameHashes(s, t);
    ByIdOrders(s.byId);
    hide HashesGood, ActiveGood, OwnIds, UniqueHashes;
    SortedUnique(ById(s.byId), s.order, t.order);
  }

  lemma SameHashes(s: Snapshot, t: Snapshot)
    requires HashesGood(s) && HashesGood(t) && s.byId == t.byId
    ensures s.bySecretHash == t.bySecretHash
  {
    assert forall h :: h in s.bySecretHash <==> h in t.bySecretHash;
  }

  /** The active index of an older snapshot differs from a rebuild's only by keys that have
      expired in the meantime. */
  lemma StaleActiveIndex(s: Snapshot, t: Snapshot, now: int, h: string)
    requires Consistent(s, now) && Consistent(t, now) && s.byId == t.byId
    requires forall g :: g in t.activeByHash ==> Active(t.activeByHash[g], now)
    ensures h in t.activeByHash ==> h in s.activeByHash && s.activeByHash[h] == t.activeByHash[h]
    ensures h in s.activeByHash && h !in t.activeByHash ==>
      s.activeByHash[h].expiresAt.Some? && s.activeByHash[h].expiresAt.value <= now
  {
    IndexesDetermined(s, t, now, now);
  }

  /** Keys are listed from the latest to the earliest creation, then by name, then by id. */
  lemma KeysInOrder(s: Snapshot, now: int, i: nat, j: nat)
    requires Consistent(s, now) && i < j < |s.order|
    ensures s.order[i] in s.byId && s.order[j] in s.byId
    ensures var a, b := s.byId[s.order[i]], s.byId[s.order[j]];
      && b.createdAt <= a.createdAt
      && (b.createdAt == a.createdAt ==> a.name == b.name || Less(a.name, b.name))
      && (b.createdAt == a.createdAt && a.name == b.name ==> Less(a.id, b.id))
  {
    assert s.order[i] in s.order && s.order[j] in s.order;
    assert ById(s.byId)(s.order[i], s.order[j]);
  }

  // Authentication

  function AuthenticateKey(k: AuthKey, now: int): Authentication {
    if Deactivated(k) then Rejected(Inactive)
    else if k.expiresAt.Some? && k.expiresAt.value <= now then Rejected(Expired)
    else if Trim(k.id) == "" then Rejected(InvalidToken)
    else Authenticated(k.id, Trim(k.userPath))
  }

  function ParseTokenSecret(token: string): Option<string> {
    var t := Trim(token);
    if TOKEN_PREFIX <= t && |t| > |TOKEN_PREFIX| then Some(t[|TOKEN_PREFIX|..]) else None
  }

  /** What a snapshot answers for a secret hash. */
  function AuthenticateHash(s: Snapshot, h: string, now: int): Authentication {
    if h in s.activeByHash then AuthenticateKey(s.activeByHash[h], now)
    else if h in s.bySecretHash then AuthenticateKey(s.bySecretHash[h], now)
    else Rejected(InvalidToken)
  }

  /** However old the indexes are, the answer is that of the one key with the hash, evaluated
      now; there is no such key exactly when the token is invalid for want of one. */
  lemma AnswerIsOfTheKey(s: Snapshot, built: int, h: string, now: int)
    requires Consistent(s, built)
    ensures forall id :: id in s.byId && s.byId[id].secretHash == h ==>
        AuthenticateHash(s, h, now) == AuthenticateKey(s.byId[id], now)
    ensures (forall id :: id in s.byId ==> s.byId[id].secretHash != h) ==>
        AuthenticateHash(s, h, now) == Rejected(InvalidToken)
  {
  }

  /** What a token is told, from its key alone: off keys are inactive, then keys whose time has
      come are expired, and any other is accepted with its own id and trimmed user path. */
  lemma AnswerFromKey(s: Snapshot, built: int, id: string, now: int)
    requires Consistent(s, built) && id in s.byId
    ensures var k := s.byId[id]; var r := AuthenticateHash(s, k.secretHash, now);
      && (!k.enabled || k.deactivatedAt.Some? ==> r == Rejected(Inactive))
      && (k.enabled && k.deactivatedAt.None? && k.expiresAt.Some? && k.expiresAt.value <= now ==>
            r == Rejected(Expired))
      && (k.enabled && k.deactivatedAt.None? && (k.expiresAt.None? || now < k.expiresAt.value) && Trim(id) != "" ==>
            r == Authenticated(id, Trim(k.userPath)))
  {
    hide Trim;
    assert s.byId[id].id == id;
    AnswerIsOfTheKey(s, built, s.byId[id].secretHash, now);
    hide AuthenticateHash, Consistent;
  }

  /** Issued tokens are read back, and nothing without their prefix is. */
  lemma TokensRead(token: string, secret: string)
    requires secret != "" && Trimmed(secret)
    ensures Trim(token) == "sk_gom_" + secret <==> ParseTokenSecret(token) == Some(secret)
    ensures ParseTokenSecret("sk_gom_" + secret) == Some(secret)
  {
    TrimFixed("sk_gom_" + secret);
    hide Trim;
    var t := Trim(token);
    if ParseTokenSecret(token) == Some(secret) {
      assert t == t[..|TOKEN_PREFIX|] + t[|TOKEN_PREFIX|..];
    }
  }

  /** In a snapshot just built, whose active index holds nothing but active keys, that index holds
      exactly the keys that are accepted, ids with visible characters supposed. */
  lemma ActiveIsAccepted(s: Snapshot, id: string, now: int)
    requires Consistent(s, now) && id in s.byId && Trim(id) != ""
    requires forall h :: h in s.activeByHash ==> Active(s.activeByHash[h], now)
    ensures var h := s.byId[id].secretHash;
      h in s.activeByHash <==> AuthenticateHash(s, h, now) == Authenticated(id, Trim(s.byId[id].userPath))
  {
    hide Trim;
    AnswerIsOfTheKey(s, now, s.byId[id].secretHash, now);
    assert s.byId[id].id == id;
  }

  // Building and updating

  function Empty(): Snapshot { Snapshot([], map[], map[], map[]) }

  function WithKey(s: Snapshot, key: AuthKey, now: int): Snapshot {
    var replaced := key.id in s.byId && s.byId[key.id].secretHash != "" && s.byId[key.id].secretHash != key.secretHash;
    var dropped := if replaced then {s.byId[key.id].secretHash} else {};
    var byId := s.byId[key.id := key];
    Snapshot(
      Sort(ById(byId), if key.id in s.byId then s.order else s.order + [key.id]),
      byId,
      (s.bySecretHash - dropped)[key.secretHash := key],
      if Active(key, now) then (s.activeByHash - dropped)[key.secretHash := key]
      else s.activeByHash - dropped - {key.secretHash})
  }

  function Switched(key: AuthKey, now: int): AuthKey {
    key.(enabled := false, updatedAt := now,
        deactivatedAt := if key.deactivatedAt.None? then Some(now) else key.deactivatedAt)
  }

  function WithoutKey(s: Snapshot, id: string, now: int): Snapshot {
    if id !in s.byId then s
    else
      var key := Switched(s.byId[id], now);
      s.(byId := s.byId[id := key],
         bySecretHash := s.bySecretHash[key.secretHash := key],
         activeByHash := s.activeByHash - {key.secretHash})
  }

  ghost predicate HashFree(byId: map<string, AuthKey>, key: AuthKey) {
    forall id :: id in byId && byId[id].secretHash == key.secretHash ==> id == key.id
  }

  lemma WithKeyOrder(s: Snapshot, key: AuthKey, now: int)
    requires OwnIds(s.byId) && OrderGood(s) && key.id != "" && key.secretHash != ""
    ensures OrderGood(WithKey(s, key, now))
  {
    var t := WithKey(s, key, now);
    var ids := if key.id in s.byId then s.order else s.order + [key.id];
    ByIdOrders(s.byId);
    ByIdOrders(t.byId);
    forall i, j | 0 <= i < j < |ids| ensures ById(t.byId)(ids[i], ids[j]) || ById(t.byId)(ids[j], ids[i]) {
      assert ids[i] in t.byId && ids[j] in t.byId;
      if j < |s.order| {
        assert ById(s.byId)(s.order[i], s.order[j]);
      }
      assert ids[i] != ids[j];
    }
    SortSorts(ById(t.byId), ids);
    SortKeeps(ById(t.byId), ids);
  }

  lemma WithKeyIds(s: Snapshot, key: AuthKey, now: int)
    requires OwnIds(s.byId) && UniqueHashes(s.byId)
    requires key.id != "" && key.secretHash != "" && HashFree(s.byId, key)
    ensures var t := WithKey(s, key, now); OwnIds(t.byId) && UniqueHashes(t.byId)
  {
    hide Sort, ById;
  }

  lemma WithKeyHashes(s: Snapshot, key: AuthKey, now: int)
    requires OwnIds(s.byId) && UniqueHashes(s.byId) && HashesGood(s)
    requires key.id != "" && key.secretHash != "" && HashFree(s.byId, key)
    ensures HashesGood(WithKey(s, key, now))
  {
    hide Sort, ById, Active;
    var t := WithKey(s, key, now);
    forall id | id in t.byId
      ensures t.byId[id].secretHash in t.bySecretHash && t.bySecretHash[t.byId[id].secretHash] == t.byId[id]
    {
      if id != key.id {
        assert s.byId[id].secretHash != key.secretHash;
      }
    }
    forall h | h in t.bySecretHash
      ensures var k := t.bySecretHash[h]; k.secretHash == h && k.id in t.byId && t.byId[k.id] == k
    {
      if h != key.secretHash {
        assert h in s.bySecretHash;
      }
    }
  }

  lemma WithKeyActive(s: Snapshot, key: AuthKey, at: int, now: int)
    requires OwnIds(s.byId) && UniqueHashes(s.byId) && HashesGood(s) && ActiveGood(s, now) && at <= now
    requires key.id != "" && key.secretHash != "" && HashFree(s.byId, key)
    ensures ActiveGood(WithKey(s, key, at), now)
  {
    hide Sort, ById;
  }

  lemma WithKeyConsistent(s: Snapshot, key: AuthKey, at: int, now: int)
    requires Consistent(s, now) && key.id != "" && key.secretHash != "" && HashFree(s.byId, key) && at <= now
    ensures Consistent(WithKey(s, key, at), now)
  {
    WithKeyOrder(s, key, at);
    WithKeyIds(s, key, at);
    WithKeyHashes(s, key, at);
    WithKeyActive(s, key, at, now);
  }

  lemma SameOrder(a: map<string, AuthKey>, b: map<string, AuthKey>, ids: seq<string>)
    requires forall x, y :: IdBefore(a, x, y) == IdBefore(b, x, y)
    ensures SortedBy(ById(a), ids) == SortedBy(ById(b), ids)
  {
    forall x, y ensures ById(a)(x, y) == ById(b)(x, y) {
      assert IdBefore(a, x, y) == IdBefore(b, x, y);
    }
  }

  lemma WithoutKeyOrder(s: Snapshot, id: string, now: int)
    requires OwnIds(s.byId) && OrderGood(s) && id in s.byId
    ensures OrderGood(WithoutKey(s, id, now))
  {
    var t := WithoutKey(s, id, now);
    forall a, b ensures IdBefore(s.byId, a, b) == IdBefore(t.byId, a, b) {
    }
    SameOrder(s.byId, t.byId, s.order);
  }

  lemma WithoutKeyHashes(s: Snapshot, id: string, now: int)
    requires OwnIds(s.byId) && UniqueHashes(s.byId) && HashesGood(s) && id in s.byId
    ensures var t := WithoutKey(s, id, now); OwnIds(t.byId) && UniqueHashes(t.byId) && HashesGood(t)
  {
    var t := WithoutKey(s, id, now);
    forall i | i in t.byId
      ensures t.byId[i].secretHash in t.bySecretHash && t.bySecretHash[t.byId[i].secretHash] == t.byId[i]
    {
      if i != id {
        assert s.byId[i].secretHash != s.byId[id].secretHash;
      }
    }
  }

  lemma WithoutKeyActive(s: Snapshot, id: string, at: int, now: int)
    requires OwnIds(s.byId) && HashesGood(s) && ActiveGood(s, now) && id in s.byId
    ensures ActiveGood(WithoutKey(s, id, at), now)
  {
  }

  lemma WithoutKeyConsistent(s: Snapshot, id: string, at: int, now: int)
    requires Consistent(s, now)
    ensures Consistent(WithoutKey(s, id, at), now)
  {
    if id in s.byId {
      WithoutKeyOrder(s, id, at);
      WithoutKeyHashes(s, id, at);
      WithoutKeyActive(s, id, at, now);
    }
  }

  /** A deactivation switches one key off as of now, or as of an earlier deactivation, and changes
      neither the other keys nor the listing. */
  lemma SwitchesOneOff(s: Snapshot, id: string, now: int)
    ensures var t := WithoutKey(s, id, now);
      && t.order == s.order && t.byId.Keys == s.byId.Keys
      && (forall other :: other in s.byId && other != id ==> t.byId[other] == s.byId[other])
      && (id in s.byId ==>
            var k := s.byId[id];
            t.byId[id] == AuthKey(k.id, k.name, k.description, k.userPath, k.redactedValue, k.secretHash,
              false, k.expiresAt, if k.deactivatedAt.Some? then k.deactivatedAt else Some(now), k.createdAt, now))
  {
  }

  /** An update puts the key in place of the one with its id, and changes no other; a secret it
      replaces is no longer known. */
  lemma PutsOneIn(s: Snapshot, key: AuthKey, at: int, now: int)
    requires Consistent(s, now) && key.id != "" && key.secretHash != "" && HashFree(s.byId, key) && at <= now
    ensures var t := WithKey(s, key, at);
      && t.byId.Keys == s.byId.Keys + {key.id} && t.byId[key.id] == key
      && (forall other :: other in s.byId && other != key.id ==> t.byId[other] == s.byId[other])
      && (key.id in s.byId && s.byId[key.id].secretHash != key.secretHash ==>
            AuthenticateHash(t, s.byId[key.id].secretHash, now) == Rejected(InvalidToken))
  {
    hide WithKey, Consistent, AuthenticateHash, HashFree;
    WithKeyConsistent(s, key, at, now);
    PutKeys(s, key, at);
    if key.id in s.byId && s.byId[key.id].secretHash != key.secretHash {
      ReplacedHash(s, key, now);
      AnswerIsOfTheKey(WithKey(s, key, at), now, s.byId[key.id].secretHash, now);
    }
  }

  lemma ReplacedHash(s: Snapshot, key: AuthKey, now: int)
    requires Consistent(s, now) && key.id in s.byId && s.byId[key.id].secretHash != key.secretHash
    ensures var t := s.byId[key.id := key]; forall id :: id in t ==> t[id].secretHash != s.byId[key.id].secretHash
  {
  }

  lemma PutKeys(s: Snapshot, key: AuthKey, at: int)
    ensures WithKey(s, key, at).byId == s.byId[key.id := key]
  {
  }

  lemma EmptyConsistent(now: int)
    ensures Consistent(Empty(), now)
  {
  }

  // The service

  /** A row list as the store returns it: ids are distinct after trimming, hashes are unique. */
  ghost predicate StoreRows(keys: seq<AuthKey>) {
    && (forall i, j :: 0 <= i < j < |keys| ==>
        Trim(keys[i].id) != Trim(keys[j].id) && keys[i].secretHash != keys[j].secretHash)
    && (forall i :: 0 <= i < |keys| ==> keys[i].secretHash != "")
  }

  function Loaded(k: AuthKey): AuthKey { k.(id := Trim(k.id)) }

  function LoadedAll(keys: seq<AuthKey>): map<string, AuthKey> {
    if keys == [] then map[] else LoadedAll(keys[..|keys| - 1])[Trim(keys[|keys| - 1].id) := Loaded(keys[|keys| - 1])]
  }

  lemma {:induction false} LoadedIds(keys: seq<AuthKey>)
    ensures forall id :: id in LoadedAll(keys) ==>
      exists i :: 0 <= i < |keys| && Trim(keys[i].id) == id && LoadedAll(keys)[id] == Loaded(keys[i])
  {
    if keys != [] {
      var front := keys[..|keys| - 1];
      LoadedIds(front);
      forall id | id in LoadedAll(keys)
        ensures exists i :: 0 <= i < |keys| && Trim(keys[i].id) == id && LoadedAll(keys)[id] == Loaded(keys[i])
      {
        if id == Trim(keys[|keys| - 1].id) {
          assert LoadedAll(keys)[id] == Loaded(keys[|keys| - 1]);
        } else {
          assert id in LoadedAll(front);
          var i :| 0 <= i < |front| && Trim(front[i].id) == id && LoadedAll(front)[id] == Loaded(front[i]);
          assert keys[i] == front[i];
        }
      }
    }
  }

  lemma LoadsLast(keys: seq<AuthKey>)
    requires keys != []
    ensures var last, front := keys[|keys| - 1], keys[..|keys| - 1];
      LoadedAll(keys) == LoadedAll(front)[Trim(last.id) := last.(id := Trim(last.id))]
  {
  }

  /** Every row is loaded under its trimmed id, otherwise as it is, and nothing else is. */
  lemma {:induction false} LoadsEveryRow(keys: seq<AuthKey>)
    requires StoreRows(keys)
    ensures forall i :: 0 <= i < |keys| ==>
      Trim(keys[i].id) in LoadedAll(keys) && LoadedAll(keys)[Trim(keys[i].id)] == keys[i].(id := Trim(keys[i].id))
    ensures forall id :: id in LoadedAll(keys) ==> exists i :: 0 <= i < |keys| && Trim(keys[i].id) == id
  {
    hide Trim;
    LoadedIds(keys);
    if keys != [] {
      var n := |keys| - 1;
      var front := keys[..n];
      LoadsEveryRow(front);
      hide LoadedAll, Loaded;
      LoadsLast(keys);
      forall i | 0 <= i < |keys|
        ensures Trim(keys[i].id) in LoadedAll(keys)
        ensures LoadedAll(keys)[Trim(keys[i].id)] == keys[i].(id := Trim(keys[i].id))
      {
        if i < n {
          assert front[i] == keys[i] && Trim(keys[i].id) != Trim(keys[n].id);
        }
      }
    }
  }

  /** The unsorted snapshot after loading some rows. */
  ghost predicate LoadedSoFar(s: Snapshot, keys: seq<AuthKey>, now: int) {
    && s.byId == LoadedAll(keys) && OwnIds(s.byId) && UniqueHashes(s.byId) && HashesGood(s) && ActiveGood(s, now)
    && (forall h :: h in s.activeByHash ==> Active(s.activeByHash[h], now))
    && (forall id :: id in s.order <==> id in s.byId)
    && (forall i, j :: 0 <= i < j < |s.order| ==> s.order[i] != s.order[j])
  }

  function LoadOne(s: Snapshot, k: AuthKey, now: int): Snapshot {
    Snapshot(s.order + [k.id], s.byId[k.id := k], s.bySecretHash[k.secretHash := k],
             if Active(k, now) then s.activeByHash[k.secretHash := k] else s.activeByHash)
  }

  lemma FreshRow(keys: seq<AuthKey>, i: nat)
    requires StoreRows(keys) && i < |keys|
    ensures Trim(keys[i].id) !in LoadedAll(keys[..i])
    ensures forall id :: id in LoadedAll(keys[..i]) ==> LoadedAll(keys[..i])[id].secretHash != keys[i].secretHash
  {
    LoadedIds(keys[..i]);
  }

  lemma LoadIds(byId: map<string, AuthKey>, k: AuthKey)
    requires OwnIds(byId) && UniqueHashes(byId)
    requires k.id != "" && k.id !in byId && k.secretHash != ""
    requires forall id :: id in byId ==> byId[id].secretHash != k.secretHash
    ensures OwnIds(byId[k.id := k]) && UniqueHashes(byId[k.id := k])
  {
  }

  lemma LoadHashes(s: Snapshot, k: AuthKey, now: int)
    requires OwnIds(s.byId) && UniqueHashes(s.byId) && HashesGood(s)
    requires k.id != "" && k.id !in s.byId && k.secretHash != ""
    requires forall id :: id in s.byId ==> s.byId[id].secretHash != k.secretHash
    ensures var t := LoadOne(s, k, now);
      OwnIds(t.byId) && UniqueHashes(t.byId) && HashesGood(t) && k.secretHash !in s.bySecretHash
  {
    LoadIds(s.byId, k);
    hide Active, OwnIds, UniqueHashes;
    NewHash(s, k);
    LoadIntoIndex(s, k, now);
  }

  lemma NewHash(s: Snapshot, k: AuthKey)
    requires HashesGood(s) && forall id :: id in s.byId ==> s.byId[id].secretHash != k.secretHash
    ensures k.secretHash !in s.bySecretHash
  {
    assert forall h :: h in s.bySecretHash ==> s.byId[s.bySecretHash[h].id].secretHash == h;
  }

  lemma LoadIntoIndex(s: Snapshot, k: AuthKey, now: int)
    requires HashesGood(s) && k.id !in s.byId && k.secretHash !in s.bySecretHash
    ensures HashesGood(LoadOne(s, k, now))
  {
    hide Active;
    var t := LoadOne(s, k, now);
    forall h | h in t.bySecretHash
      ensures var e := t.bySecretHash[h]; e.secretHash == h && e.id in t.byId && t.byId[e.id] == e
    {
      if h != k.secretHash {
        assert h in s.bySecretHash;
      }
    }
  }

  lemma LoadActive(s: Snapshot, k: AuthKey, now: int)
    requires ActiveGood(s, now) && k.secretHash !in s.bySecretHash
    ensures ActiveGood(LoadOne(s, k, now), now)
  {
  }

  lemma LoadStep(s: Snapshot, keys: seq<AuthKey>, i: nat, now: int)
    requires StoreRows(keys) && i < |keys| && LoadedSoFar(s, keys[..i], now) && Trim(keys[i].id) != ""
    ensures LoadedSoFar(LoadOne(s, Loaded(keys[i]), now), keys[..i + 1], now)
  {
    hide Trim, Active, HashesGood, ActiveGood, UniqueHashes;
    FreshRow(keys, i);
    LoadHashes(s, Loaded(keys[i]), now);
    LoadActive(s, Loaded(keys[i]), now);
    assert keys[..i + 1][..i] == keys[..i];
  }

  lemma LoadedConsistent(s: Snapshot, keys: seq<AuthKey>, now: int)
    requires LoadedSoFar(s, keys, now)
    ensures Consistent(s.(order := Sort(ById(s.byId), s.order)), now)
  {
    ByIdOrders(s.byId);
    forall i, j | 0 <= i < j < |s.order|
      ensures ById(s.byId)(s.order[i], s.order[j]) || ById(s.byId)(s.order[j], s.order[i])
    {
      assert s.order[i] in s.byId && s.order[j] in s.byId;
    }
    SortSorts(ById(s.byId), s.order);
    SortKeeps(ById(s.byId), s.order);
  }

  class Service {
    var snapshot: Snapshot
    const hashSecret: string -> string

    constructor (hashSecret: string -> string)
      ensures snapshot == Empty() && this.hashSecret == hashSecret
    {
      snapshot := Empty();
      this.hashSecret := hashSecret;
    }

    /** Loads the keys the store listed and swaps the snapshot; a row without an id fails the
        refresh and leaves the snapshot alone. */
    method Refresh(keys: seq<AuthKey>, now: int) returns (loaded: bool)
      requires StoreRows(keys)
      modifies this
      ensures loaded <==> forall i :: 0 <= i < |keys| ==> Trim(keys[i].id) != ""
      ensures !loaded ==> snapshot == old(snapshot)
      ensures loaded ==> Consistent(snapshot, now) && snapshot.byId == LoadedAll(keys)
      ensures loaded ==> forall h :: h in snapshot.activeByHash ==> Active(snapshot.activeByHash[h], now)
    {
      var next := Empty();
      assert keys[..0] == [];
      for i := 0 to |keys|
        invariant LoadedSoFar(next, keys[..i], now)
        invariant forall j :: 0 <= j < i ==> Trim(keys[j].id) != ""
        invariant snapshot == old(snapshot)
      {
        var key := keys[i].(id := Trim(keys[i].id));
        if key.id == "" {
          return false;
        }
        LoadStep(next, keys, i, now);
        next := Snapshot(next.order + [key.id], next.byId[key.id := key], next.bySecretHash[key.secretHash := key],
                         if Active(key, now) then next.activeByHash[key.secretHash := key] else next.activeByHash);
      }
      assert keys[..|keys|] == keys;
      LoadedConsistent(next, keys, now);
      snapshot := next.(order := Sort(ById(next.byId), next.order));
      return true;
    }

    method ApplyUpsert(key: AuthKey, now: int)
      modifies this
      ensures snapshot == WithKey(old(snapshot), key, now)
      ensures Consistent(old(snapshot), now) && key.id != "" && key.secretHash != "" &&
          HashFree(old(snapshot.byId), key)
        ==> Consistent(snapshot, now)
    {
      ghost var before := snapshot;
      var next := snapshot;
      if key.id in next.byId && next.byId[key.id].secretHash != "" && next.byId[key.id].secretHash != key.secretHash {
        var old_ := next.byId[key.id].secretHash;
        next := next.(bySecretHash := next.bySecretHash - {old_}, activeByHash := next.activeByHash - {old_});
      }
      if key.id !in next.byId {
        next := next.(order := next.order + [key.id]);
      }
      next := next.(byId := next.byId[key.id := key], bySecretHash := next.bySecretHash[key.secretHash := key]);
      if Active(key, now) {
        next := next.(activeByHash := next.activeByHash[key.secretHash := key]);
      } else {
        next := next.(activeByHash := next.activeByHash - {key.secretHash});
      }
      next := next.(order := Sort(ById(next.byId), next.order));
      snapshot := next;
      assert snapshot == WithKey(before, key, now);
      if Consistent(before, now) && key.id != "" && key.secretHash != "" && HashFree(before.byId, key) {
        WithKeyConsistent(before, key, now, now);
      }
    }

    method ApplyDeactivate(id: string, now: int)
      modifies this
      ensures snapshot == WithoutKey(old(snapshot), id, now)
      ensures Consistent(old(snapshot), now) ==> Consistent(snapshot, now)
    {
      if Consistent(snapshot, now) {
        WithoutKeyConsistent(snapshot, id, now, now);
      }
      if id !in snapshot.byId {
        return;
      }
      var key := snapshot.byId[id];
      key := key.(enabled := false, updatedAt := now);
      if key.deactivatedAt.None? {
        key := key.(deactivatedAt := Some(now));
      }
      snapshot := snapshot.(byId := snapshot.byId[id := key],
                            bySecretHash := snapshot.bySecretHash[key.secretHash := key],
                            activeByHash := snapshot.activeByHash - {key.secretHash});
    }

    /** The answer of the one key with the token's hash, however long ago the snapshot was built. */
    method Authenticate(token: string, now: int, ghost built: int) returns (r: Authentication)
      ensures ParseTokenSecret(token).None? ==> r == Rejected(InvalidToken)
      ensures ParseTokenSecret(token).Some? ==>
          r == AuthenticateHash(snapshot, hashSecret(ParseTokenSecret(token).value), now)
      ensures Consistent(snapshot, built) && ParseTokenSecret(token).Some? ==>
        var h := hashSecret(ParseTokenSecret(token).value);
        && (forall id :: id in snapshot.byId && snapshot.byId[id].secretHash == h ==>
            r == AuthenticateKey(snapshot.byId[id], now))
        && ((forall id :: id in snapshot.byId ==> snapshot.byId[id].secretHash != h) ==> r == Rejected(InvalidToken))
    {
      var secret := ParseTokenSecret(token);
      if secret.None? {
        return Rejected(InvalidToken);
      }
      var h := hashSecret(secret.value);
      if Consistent(snapshot, built) {
        AnswerIsOfTheKey(snapshot, built, h, now);
      }
      if h in snapshot.activeByHash {
        return AuthenticateKey(snapshot.activeByHash[h], now);
      }
      if h !in snapshot.bySecretHash {
        return Rejected(InvalidToken);
      }
      return AuthenticateKey(snapshot.bySecretHash[h], now);
    }
  }

  // Runs of one process against a store it shares with others.  Each access to the store and
  // each swap of the snapshot is a step of its own, so any number of creations, deactivations
  // and refreshes interleave.

  datatype World = World(
    store: map<string, AuthKey>,
    snapshot: Snapshot,
    now: int,
    listings: map<nat, map<string, AuthKey>>,   // what each refresh under way has listed
    creating: set<AuthKey>)                     // inserted by this process, not yet in its snapshot

  datatype Step =
    | Insert(key: AuthKey)                      // Create: the row
    | ApplyUpsert(key: AuthKey, at: int)        // Create: the snapshot
    | Switch(id: string)                        // Deactivate, here or elsewhere: the row
    | ApplyDeactivate(id: string, at: int)      // Deactivate: the snapshot
    | List(r: nat)                              // a refresh lists the store
    | Swap(r: nat, at: int)                     // it installs what it listed
    | Abandon(r: nat)                           // or fails
    | InsertElsewhere(key: AuthKey)
    | Pass(time: nat)

  /** What the store's constraints let in: a new id and an unused hash. */
  ghost predicate Insertable(store: map<string, AuthKey>, key: AuthKey) {
    && key.id != "" && key.id !in store && key.secretHash != ""
    && forall id :: id in store ==> store[id].secretHash != key.secretHash
  }

  /** The snapshot is one a refresh builds from this store content. */
  ghost predicate Rebuilt(s: Snapshot, store: map<string, AuthKey>, now: int) {
    Consistent(s, now) && s.byId == store
  }

  /** One step.  Steps the store refuses change nothing and are left out. */
  ghost predicate Next(w: World, step: Step, v: World) {
    match step
    case Insert(key) =>
      && Insertable(w.store, key) && !Deactivated(key)
      && v == w.(store := w.store[key.id := key], creating := w.creating + {key})
    case ApplyUpsert(key, at) =>
      && key in w.creating && at <= w.now
      && v == w.(snapshot := WithKey(w.snapshot, key, at), creating := w.creating - {key})
    case Switch(id) => id in w.store && v == w.(store := w.store[id := Switched(w.store[id], w.now)])
    case ApplyDeactivate(id, at) =>
      id in w.store && Deactivated(w.store[id]) && at <= w.now && v == w.(snapshot := WithoutKey(w.snapshot, id, at))
    case List(r) => r !in w.listings && v == w.(listings := w.listings[r := w.store])
    case Swap(r, at) =>
      && r in w.listings && at <= w.now && Rebuilt(v.snapshot, w.listings[r], at)
      && v == w.(snapshot := v.snapshot, listings := w.listings - {r})
    case Abandon(r) => r in w.listings && v == w.(listings := w.listings - {r})
    case InsertElsewhere(key) => Insertable(w.store, key) && v == w.(store := w.store[key.id := key])
    case Pass(time) => v == w.(now := w.now + time)
  }

  /** These keys are stored ones; only their deactivation may have been missed. */
  ghost predicate Linked(keys: map<string, AuthKey>, store: map<string, AuthKey>) {
    forall id :: id in keys ==>
      id in store && keys[id].secretHash == store[id].secretHash && keys[id].expiresAt == store[id].expiresAt
  }

  /** A key being created is stored under its id. */
  ghost predicate Pending(store: map<string, AuthKey>, key: AuthKey) {
    Linked(map[key.id := key], store) && key.id != "" && key.secretHash != "" && !Deactivated(key)
  }

  ghost predicate Good(w: World) {
    && OwnIds(w.store) && UniqueHashes(w.store) && Consistent(w.snapshot, w.now) && Linked(w.snapshot.byId, w.store)
    && (forall r :: r in w.listings ==> OwnIds(w.listings[r]) && Linked(w.listings[r], w.store))
    && (forall key :: key in w.creating ==> Pending(w.store, key))
  }

  /** A service that has just been made, over a store with any content. */
  ghost predicate NewService(w: World) {
    OwnIds(w.store) && UniqueHashes(w.store) && w.snapshot == Empty() && w.listings == map[] && w.creating == {}
  }

  lemma NewServiceIsGood(w: World)
    requires NewService(w)
    ensures Good(w)
  {
    EmptyConsistent(w.now);
  }

  lemma InsertKeepsStore(store: map<string, AuthKey>, key: AuthKey)
    requires OwnIds(store) && UniqueHashes(store) && Insertable(store, key)
    ensures OwnIds(store[key.id := key]) && UniqueHashes(store[key.id := key]) && Linked(store, store[key.id := key])
    ensures !Deactivated(key) ==> Pending(store[key.id := key], key)
  {
  }

  lemma SwitchKeepsStore(store: map<string, AuthKey>, id: string, now: int)
    requires OwnIds(store) && UniqueHashes(store) && id in store
    ensures var after := store[id := Switched(store[id], now)];
      OwnIds(after) && UniqueHashes(after) && Linked(store, after) && Deactivated(after[id])
  {
    var after := store[id := Switched(store[id], now)];
    assert forall i :: i in store ==> after[i].secretHash == store[i].secretHash;
  }

  /** The store's own constraints survive every step, and a key once off stays off. */
  lemma NextKeepsStore(w: World, step: Step, v: World)
    requires OwnIds(w.store) && UniqueHashes(w.store) && Next(w, step, v)
    ensures OwnIds(v.store) && UniqueHashes(v.store) && Linked(w.store, v.store)
    ensures forall id :: id in w.store && Deactivated(w.store[id]) ==> Deactivated(v.store[id])
    ensures step.Switch? ==> step.id in w.store && Deactivated(v.store[step.id])
    ensures step.Insert? ==> Pending(v.store, step.key)
  {
    match step
    case Insert(key) => InsertKeepsStore(w.store, key);
    case InsertElsewhere(key) => InsertKeepsStore(w.store, key);
    case Switch(id) => SwitchKeepsStore(w.store, id, w.now);
    case _ =>
    hide Consistent, Rebuilt, WithKey, WithoutKey, UniqueHashes, OwnIds;
  }

  lemma LinkedLater(keys: map<string, AuthKey>, store: map<string, AuthKey>, later: map<string, AuthKey>)
    requires Linked(keys, store) && Linked(store, later)
    ensures Linked(keys, later)
  {
  }

  lemma PendingIsFree(w: World, key: AuthKey)
    requires Good(w) && key in w.creating
    ensures HashFree(w.snapshot.byId, key)
  {
    hide Consistent, OwnIds;
    assert Pending(w.store, key) && key.id in map[key.id := key];
  }

  lemma NextKeepsConsistent(w: World, step: Step, v: World)
    requires Good(w) && Next(w, step, v)
    ensures Consistent(v.snapshot, v.now)
  {
    hide UniqueHashes, OrderGood, HashesGood, OwnIds, HashFree, WithKey, WithoutKey, Linked, Switched;
    match step
    case ApplyUpsert(key, at) =>
      PendingIsFree(w, key);
      WithKeyConsistent(w.snapshot, key, at, w.now);
    case ApplyDeactivate(id, at) => WithoutKeyConsistent(w.snapshot, id, at, w.now);
    case Swap(r, at) => ConsistentLater(v.snapshot, at, w.now);
    case Pass(time) => ConsistentLater(w.snapshot, w.now, v.now);
    case _ =>
  }

  lemma LinkedWith(keys: map<string, AuthKey>, store: map<string, AuthKey>, key: AuthKey)
    requires Linked(keys, store) && Pending(store, key)
    ensures Linked(keys[key.id := key], store)
  {
    assert key.id in map[key.id := key];
  }

  lemma LinkedWithout(s: Snapshot, store: map<string, AuthKey>, id: string, at: int)
    requires Linked(s.byId, store)
    ensures Linked(WithoutKey(s, id, at).byId, store)
  {
  }

  /** The snapshot's keys stay stored ones. */
  lemma NextKeepsLink(w: World, step: Step, v: World)
    requires Good(w) && Next(w, step, v)
    ensures Linked(v.snapshot.byId, v.store)
  {
    NextKeepsStore(w, step, v);
    LinkedLater(w.snapshot.byId, w.store, v.store);
    hide OwnIds, UniqueHashes, Consistent, Deactivated, Insertable, Linked, Sort, ById, WithoutKey;
    match step
    case ApplyUpsert(key, at) => LinkedWith(w.snapshot.byId, w.store, key);
    case ApplyDeactivate(id, at) => LinkedWithout(w.snapshot, w.store, id, at);
    case Swap(r, at) => LinkedLater(w.listings[r], w.store, v.store);
    case _ =>
  }

  /** So do the listings under way and the keys being created. */
  lemma NextKeepsPending(w: World, step: Step, v: World)
    requires Good(w) && Next(w, step, v)
    ensures forall r :: r in v.listings ==> OwnIds(v.listings[r]) && Linked(v.listings[r], v.store)
    ensures forall key :: key in v.creating ==> Pending(v.store, key)
  {
    NextKeepsStore(w, step, v);
    hide OwnIds, UniqueHashes, Consistent, WithKey, WithoutKey, Deactivated, Insertable, Linked, Switched, Rebuilt;
    forall r | r in v.listings ensures OwnIds(v.listings[r]) && Linked(v.listings[r], v.store) {
      if r in w.listings {
        LinkedLater(w.listings[r], w.store, v.store);
      }
      LinkedToItself(w.store);
    }
    forall key | key in v.creating ensures Pending(v.store, key) {
      if key in w.creating {
        assert Pending(w.store, key);
        LinkedLater(map[key.id := key], w.store, v.store);
      }
    }
  }

  lemma LinkedToItself(store: map<string, AuthKey>)
    ensures Linked(store, store)
  {
  }

  lemma NextKeepsGood(w: World, step: Step, v: World)
    requires Good(w) && Next(w, step, v)
    ensures Good(v)
  {
    NextKeepsConsistent(w, step, v);
    NextKeepsLink(w, step, v);
    NextKeepsPending(w, step, v);
    NextKeepsStore(w, step, v);
    hide Next, Consistent, UniqueHashes, OwnIds, Linked, Pending;
  }

  ghost predicate Run(worlds: seq<World>, steps: seq<Step>) {
    && |worlds| == |steps| + 1
    && forall i :: 0 <= i < |steps| ==> Next(worlds[i], steps[i], worlds[i + 1])
  }

  /** In every run the order and indexes are those a rebuild from the snapshot's keys gives. */
  lemma {:induction false} RunKeepsGood(worlds: seq<World>, steps: seq<Step>)
    requires Run(worlds, steps) && Good(worlds[0])
    ensures forall i :: 0 <= i < |worlds| ==> Good(worlds[i])
    decreases |steps|
  {
    if steps != [] {
      hide Good, Next;
      var n := |steps| - 1;
      RunKeepsGood(worlds[..n + 1], steps[..n]);
      assert worlds[n] == worlds[..n + 1][n];
      NextKeepsGood(worlds[n], steps[n], worlds[n + 1]);
      forall i | 0 <= i < |worlds| ensures Good(worlds[i]) {
        if i <= n {
          assert worlds[..n + 1][i] == worlds[i];
        }
      }
    }
  }

  /** At every point of every run the incrementally kept order and secret index are those of a
      snapshot rebuilt from the same keys, and the active index differs from the rebuilt one
      only by keys that have expired since. */
  lemma RunMatchesRebuild(worlds: seq<World>, steps: seq<Step>, i: nat, rebuilt: Snapshot)
    requires Run(worlds, steps) && Good(worlds[0]) && i < |worlds|
    requires Rebuilt(rebuilt, worlds[i].snapshot.byId, worlds[i].now)
    requires forall h :: h in rebuilt.activeByHash ==> Active(rebuilt.activeByHash[h], worlds[i].now)
    ensures var s := worlds[i].snapshot;
      && s.order == rebuilt.order && s.bySecretHash == rebuilt.bySecretHash
      && (forall h :: h in rebuilt.activeByHash ==> h in s.activeByHash && s.activeByHash[h] == rebuilt.activeByHash[h])
      && (forall h :: h in s.activeByHash && h !in rebuilt.activeByHash ==>
            s.activeByHash[h].expiresAt.Some? && s.activeByHash[h].expiresAt.value <= worlds[i].now)
  {
    RunKeepsGood(worlds, steps);
    var s := worlds[i].snapshot;
    assert Good(worlds[i]);
    hide Run, Consistent, Active;
    IndexesDetermined(s, rebuilt, worlds[i].now, worlds[i].now);
    forall h
      ensures h in rebuilt.activeByHash ==> h in s.activeByHash && s.activeByHash[h] == rebuilt.activeByHash[h]
      ensures h in s.activeByHash && h !in rebuilt.activeByHash ==>
        s.activeByHash[h].expiresAt.Some? && s.activeByHash[h].expiresAt.value <= worlds[i].now
    {
      StaleActiveIndex(s, rebuilt, worlds[i].now, h);
    }
  }

  // What becomes of a deactivated key

  predicate Alive(keys: map<string, AuthKey>, id: string) { id in keys && !Deactivated(keys[id]) }

  predicate Unexpired(k: AuthKey, now: int) { k.expiresAt.None? || k.expiresAt.value > now }

  /** The step decides what the snapshot holds under the id. */
  predicate Installs(step: Step, id: string) {
    step.Swap? || (step.ApplyUpsert? && step.key.id == id) || (step.ApplyDeactivate? && step.id == id)
  }

  function LastInstall(steps: seq<Step>, id: string): (i: int)
    ensures -1 <= i < |steps|
    ensures i >= 0 ==> Installs(steps[i], id)
    ensures forall j :: i < j < |steps| ==> !Installs(steps[j], id)
  {
    if steps == [] then -1
    else
      assert forall j :: 0 <= j < |steps| - 1 ==> steps[..|steps| - 1][j] == steps[j];
      if Installs(steps[|steps| - 1], id) then |steps| - 1 else LastInstall(steps[..|steps| - 1], id)
  }

  /** Refresh `r` does not list within the first `n` steps: what it then has was listed before. */
  ghost predicate ReadBefore(steps: seq<Step>, r: nat, n: nat)
    requires n <= |steps|
  {
    forall j :: 0 <= j < n ==> steps[j] != List(r)
  }

  /** What the last install of the key brings is from before the first step: a listing read
      then in which the key is alive, or a creation under way. */
  ghost predicate Survives(w: World, steps: seq<Step>, id: string) {
    var i := LastInstall(steps, id);
    if i == -1 then Alive(w.snapshot.byId, id)
    else
      match steps[i]
      case Swap(r, _) => ReadBefore(steps, r, i) && r in w.listings && Alive(w.listings[r], id)
      case ApplyUpsert(_, _) => true
      case _ => false
  }

  lemma SurvivesMore(w: World, steps: seq<Step>, step: Step, id: string)
    ensures Survives(w, steps + [step], id) <==> (
      match step
      case Swap(r, _) => ReadBefore(steps, r, |steps|) && r in w.listings && Alive(w.listings[r], id)
      case ApplyUpsert(key, _) => key.id == id || Survives(w, steps, id)
      case ApplyDeactivate(other, _) => other != id && Survives(w, steps, id)
      case _ => Survives(w, steps, id))
  {
    hide Alive;
    var more := steps + [step];
    assert more[..|more| - 1] == steps && more[|more| - 1] == step;
    assert forall j :: 0 <= j < |steps| ==> more[j] == steps[j];
    var i := LastInstall(more, id);
    assert i == if Installs(step, id) then |steps| else LastInstall(steps, id);
    if 0 <= i && more[i].Swap? {
      assert ReadBefore(more, more[i].r, i) <==> ReadBefore(steps, more[i].r, i);
    }
  }

  /** Where the listing of refresh `r` comes from: from before the first step, or from after it
      and then without the key. */
  ghost predicate ListingOrigin(w: World, steps: seq<Step>, r: nat, listing: map<string, AuthKey>, id: string) {
    if ReadBefore(steps, r, |steps|) then r in w.listings && listing == w.listings[r] else !Alive(listing, id)
  }

  lemma OriginMore(w: World, steps: seq<Step>, step: Step, r: nat, listing: map<string, AuthKey>, id: string)
    requires ListingOrigin(w, steps, r, listing, id) && step != List(r)
    ensures ListingOrigin(w, steps + [step], r, listing, id)
  {
    assert ReadBefore(steps + [step], r, |steps + [step]|) <==> ReadBefore(steps, r, |steps|) by {
      assert forall j :: 0 <= j < |steps| ==> (steps + [step])[j] == steps[j];
    }
  }

  lemma NextListings(start: World, steps: seq<Step>, w: World, step: Step, v: World, id: string)
    requires Next(w, step, v) && id in w.store && Deactivated(w.store[id])
    requires forall r :: r in w.listings ==> ListingOrigin(start, steps, r, w.listings[r], id)
    ensures forall r :: r in v.listings ==> ListingOrigin(start, steps + [step], r, v.listings[r], id)
  {
    hide ListingOrigin, Insertable, Rebuilt, WithKey, WithoutKey, Deactivated, Alive;
    forall r | r in v.listings ensures ListingOrigin(start, steps + [step], r, v.listings[r], id) {
      if step == List(r) {
        ListedOff(start, steps, r, w.store, id);
      } else {
        OriginMore(start, steps, step, r, w.listings[r], id);
      }
    }
  }

  lemma ListedOff(start: World, steps: seq<Step>, r: nat, store: map<string, AuthKey>, id: string)
    requires id in store && Deactivated(store[id])
    ensures ListingOrigin(start, steps + [List(r)], r, store, id)
  {
    var more := steps + [List(r)];
    assert more[|steps|] == List(r);
  }

  lemma NextAlive(w: World, step: Step, v: World, id: string)
    requires Good(w) && Next(w, step, v)
    ensures Alive(v.snapshot.byId, id) <==> (
      match step
      case Swap(r, _) => r in w.listings && Alive(w.listings[r], id)
      case ApplyUpsert(key, _) => key.id == id || Alive(w.snapshot.byId, id)
      case ApplyDeactivate(other, _) => other != id && Alive(w.snapshot.byId, id)
      case _ => Alive(w.snapshot.byId, id))
  {
    hide Consistent, OwnIds, UniqueHashes, Linked, Sort, ById, Active, Insertable;
    if step.ApplyUpsert? {
      assert Pending(w.store, step.key);
    }
  }

  /** After these steps, which begin with the deactivation of the row: the row is off, listings
      come from before or lack the key, and the snapshot holds the key alive exactly when what
      was last installed is from before. */
  ghost predicate Traced(start: World, steps: seq<Step>, w: World, id: string) {
    && id in start.store && id in w.store && Deactivated(w.store[id]) && Linked(start.store, w.store)
    && (forall r :: r in w.listings ==> ListingOrigin(start, steps, r, w.listings[r], id))
    && (Alive(w.snapshot.byId, id) <==> Survives(start, steps, id))
  }

  lemma TracedFirst(w: World, step: Step, v: World, id: string)
    requires Good(w) && Next(w, step, v) && step == Switch(id)
    ensures Traced(w, [step], v, id)
  {
    assert OwnIds(w.store) && UniqueHashes(w.store);
    hide Good, Next, Linked, Deactivated, OwnIds, UniqueHashes, ListingOrigin, Survives, Alive;
    NextKeepsStore(w, step, v);
    LinkedHas(w.store, v.store, id);
    NextAlive(w, step, v, id);
    FirstListings(w, step, v, id);
    FirstSurvives(w, step, id);
  }

  lemma FirstSurvives(w: World, step: Step, id: string)
    requires step.Switch?
    ensures Survives(w, [step], id) <==> Alive(w.snapshot.byId, id)
  {
    hide Alive;
    assert LastInstall([step], id) == -1;
  }

  lemma TracedNext(start: World, steps: seq<Step>, w: World, step: Step, v: World, id: string)
    requires Good(w) && Next(w, step, v) && Traced(start, steps, w, id)
    ensures Traced(start, steps + [step], v, id)
  {
    assert OwnIds(w.store) && UniqueHashes(w.store);
    hide Good, Next, Linked, Deactivated, OwnIds, UniqueHashes, ListingOrigin, Survives, Alive;
    NextKeepsStore(w, step, v);
    LinkedLater(start.store, w.store, v.store);
    assert id in v.store by {
      LinkedHas(w.store, v.store, id);
    }
    NextListings(start, steps, w, step, v, id);
    AliveNext(start, steps, w, step, v, id);
  }

  lemma LinkedHas(keys: map<string, AuthKey>, store: map<string, AuthKey>, id: string)
    requires Linked(keys, store) && id in keys
    ensures id in store
  {
  }

  lemma AliveNext(start: World, steps: seq<Step>, w: World, step: Step, v: World, id: string)
    requires Good(w) && Next(w, step, v) && Traced(start, steps, w, id)
    ensures Alive(v.snapshot.byId, id) <==> Survives(start, steps + [step], id)
  {
    NextAlive(w, step, v, id);
    SurvivesMore(start, steps, step, id);
    hide Good, Next, Linked, Deactivated, Survives;
    if step.Swap? && step.r in w.listings {
      assert ListingOrigin(start, steps, step.r, w.listings[step.r], id);
    }
    if step.Swap? {
      SwappedIn(w, step, v);
    }
  }

  lemma SwappedIn(w: World, step: Step, v: World)
    requires Next(w, step, v) && step.Swap?
    ensures step.r in w.listings
  {
  }

  lemma {:induction false} AfterSwitch(worlds: seq<World>, steps: seq<Step>, id: string)
    requires Run(worlds, steps) && Good(worlds[0]) && steps != [] && steps[0] == Switch(id)
    ensures Traced(worlds[0], steps, worlds[|steps|], id)
    decreases |steps|
  {
    var n := |steps| - 1;
    var w, v := worlds[n], worlds[n + 1];
    RunKeepsGood(worlds, steps);
    assert Next(w, steps[n], v) && Good(w);
    RunPrefix(worlds, steps, n);
    hide Good, Next, Traced, Run;
    if n == 0 {
      TracedFirst(w, steps[0], v, id);
      assert steps == [steps[0]];
    } else {
      AfterSwitch(worlds[..n + 1], steps[..n], id);
      TracedNext(worlds[0], steps[..n], w, steps[n], v, id);
      assert steps == steps[..n] + [steps[n]];
    }
  }

  lemma RunPrefix(worlds: seq<World>, steps: seq<Step>, n: nat)
    requires Run(worlds, steps) && n <= |steps|
    ensures Run(worlds[..n + 1], steps[..n])
  {
    hide Next;
    var front := worlds[..n + 1];
    forall i | 0 <= i < n ensures Next(front[i], steps[..n][i], front[i + 1]) {
      assert Next(worlds[i], steps[i], worlds[i + 1]);
    }
  }

  lemma FirstListings(w: World, step: Step, v: World, id: string)
    requires step == Switch(id) && Next(w, step, v)
    ensures forall r :: r in v.listings ==> ListingOrigin(w, [step], r, v.listings[r], id)
  {
    hide Alive;
  }

  /** An authenticated answer is that of a key alive in the snapshot, unexpired. */
  lemma AliveIsAccepted(w: World, id: string, later: int)
    requires Good(w) && id in w.store
    ensures AuthenticateHash(w.snapshot, w.store[id].secretHash, later).Authenticated?
      <==> Alive(w.snapshot.byId, id) && Unexpired(w.store[id], later) && Trim(id) != ""
  {
    hide AuthenticateHash, Trim;
    var h := w.store[id].secretHash;
    AnswerIsOfTheKey(w.snapshot, w.now, h, later);
    if id in w.snapshot.byId {
      assert w.snapshot.byId[id].id == id;
      assert AuthenticateHash(w.snapshot, h, later) == AuthenticateKey(w.snapshot.byId[id], later);
    } else {
      assert forall i :: i in w.snapshot.byId ==> w.snapshot.byId[i].secretHash != h;
    }
  }

  /** After `Deactivate` has changed the row, and however creations, deactivations and refreshes
      interleave, the key's token is accepted exactly when it has not expired and what the
      process last installed for it was read before the change. */
  lemma TokenAfterDeactivation(worlds: seq<World>, steps: seq<Step>, id: string, later: int)
    requires Run(worlds, steps) && Good(worlds[0]) && steps != [] && steps[0] == Switch(id)
    ensures id in worlds[0].store
    ensures var key := worlds[0].store[id];
      AuthenticateHash(worlds[|steps|].snapshot, key.secretHash, later).Authenticated?
      <==> Survives(worlds[0], steps, id) && Unexpired(key, later) && Trim(id) != ""
  {
    hide Trim, AuthenticateHash, Survives, Alive;
    AfterSwitch(worlds, steps, id);
    RunKeepsGood(worlds, steps);
    AliveIsAccepted(worlds[|steps|], id, later);
    assert Unexpired(worlds[0].store[id], later) <==> Unexpired(worlds[|steps|].store[id], later);
  }

  /** So the token is refused as long as, after `Deactivate` has returned, nothing read before
      it is installed. */
  lemma DeactivationHolds(worlds: seq<World>, steps: seq<Step>, n: nat, id: string, later: int)
    requires Run(worlds, steps) && Good(worlds[0]) && steps != [] && steps[0] == Switch(id)
    requires n < |steps| && steps[n].ApplyDeactivate? && steps[n].id == id
    requires forall i :: n < i < |steps| && steps[i].Swap? ==> !ReadBefore(steps, steps[i].r, i)
    requires forall i :: n < i < |steps| && steps[i].ApplyUpsert? ==> steps[i].key.id != id
    ensures id in worlds[0].store
    ensures AuthenticateHash(worlds[|steps|].snapshot, worlds[0].store[id].secretHash, later).Rejected?
  {
    hide Trim, AuthenticateHash, Run, Good;
    TokenAfterDeactivation(worlds, steps, id, later);
    assert Installs(steps[n], id);
    assert LastInstall(steps, id) >= n;
  }

  /** Nothing the process holds has the key alive: not its snapshot, no refresh under way, no
      creation under way. */
  ghost predicate Quiet(w: World, id: string) {
    && !Alive(w.snapshot.byId, id)
    && (forall r :: r in w.listings ==> !Alive(w.listings[r], id))
    && (forall key :: key in w.creating ==> key.id != id)
  }

  lemma QuietStays(w: World, step: Step, v: World, id: string)
    requires Good(w) && Next(w, step, v) && Quiet(w, id) && id in w.store && Deactivated(w.store[id])
    ensures Quiet(v, id) && id in v.store && Deactivated(v.store[id]) &&
        v.store[id].secretHash == w.store[id].secretHash
  {
    NextAlive(w, step, v, id);
    assert OwnIds(w.store) && UniqueHashes(w.store);
    NextKeepsStore(w, step, v);
    hide Good, OwnIds, UniqueHashes, Deactivated, Rebuilt, WithKey, WithoutKey;
  }

  lemma {:induction false} QuietForever(worlds: seq<World>, steps: seq<Step>, id: string, later: int)
    requires Run(worlds, steps) && Good(worlds[0]) && Quiet(worlds[0], id)
    requires id in worlds[0].store && Deactivated(worlds[0].store[id])
    ensures var w := worlds[|steps|];
      && Quiet(w, id) && id in w.store && Deactivated(w.store[id]) &&
          w.store[id].secretHash == worlds[0].store[id].secretHash
      && AuthenticateHash(w.snapshot, w.store[id].secretHash, later).Rejected?
    decreases |steps|
  {
    hide AuthenticateHash, Next, Good, Deactivated, Quiet;
    var n := |steps|;
    RunKeepsGood(worlds, steps);
    if n > 0 {
      RunPrefix(worlds, steps, n - 1);
      QuietForever(worlds[..n], steps[..n - 1], id, later);
      assert Next(worlds[n - 1], steps[n - 1], worlds[n]);
      QuietStays(worlds[n - 1], steps[n - 1], worlds[n], id);
    }
    AliveIsAccepted(worlds[n], id, later);
    QuietIsDead(worlds[n], id);
  }

  lemma QuietIsDead(w: World, id: string)
    requires Quiet(w, id)
    ensures !Alive(w.snapshot.byId, id)
  {
  }

  lemma {:induction false} Enumerated(ids: set<string>)
    ensures exists s: seq<string> ::
      (forall id :: id in s <==> id in ids) && forall i, j :: 0 <= i < j < |s| ==> s[i] != s[j]
    decreases |ids|
  {
    if ids == {} {
      var s: seq<string> := [];
      assert forall id :: id in s <==> id in ids;
    } else {
      var id :| id in ids;
      Enumerated(ids - {id});
      var s: seq<string> :|
        (forall i :: i in s <==> i in ids - {id}) && forall i, j :: 0 <= i < j < |s| ==> s[i] != s[j];
      var t := s + [id];
      assert forall i :: i in t <==> i in ids;
    }
  }

  ghost function Hashes(keys: map<string, AuthKey>): set<string> {
    set id | id in keys :: keys[id].secretHash
  }

  ghost function WithHash(keys: map<string, AuthKey>, h: string): (k: AuthKey)
    requires h in Hashes(keys)
    ensures k.secretHash == h && exists id :: id in keys && keys[id] == k
  {
    var id :| id in keys && keys[id].secretHash == h;
    keys[id]
  }

  lemma UniqueWithHash(keys: map<string, AuthKey>, id: string)
    requires UniqueHashes(keys) && id in keys
    ensures keys[id].secretHash in Hashes(keys) && WithHash(keys, keys[id].secretHash) == keys[id]
  {
    assert keys[id].secretHash in Hashes(keys);
    var k := WithHash(keys, keys[id].secretHash);
    var other :| other in keys && keys[other] == k;
  }

  ghost function Indexed(keys: map<string, AuthKey>, order: seq<string>, now: int): Snapshot {
    Snapshot(order, keys, map h | h in Hashes(keys) :: WithHash(keys, h),
             map h | h in Hashes(keys) && Active(WithHash(keys, h), now) :: WithHash(keys, h))
  }

  lemma IndexedIsGood(keys: map<string, AuthKey>, order: seq<string>, now: int)
    requires OwnIds(keys) && UniqueHashes(keys)
    ensures HashesGood(Indexed(keys, order, now)) && ActiveGood(Indexed(keys, order, now), now)
  {
    hide Hashes, WithHash;
    forall id | id in keys
      ensures keys[id].secretHash in Hashes(keys) && WithHash(keys, keys[id].secretHash) == keys[id]
    {
      UniqueWithHash(keys, id);
    }
  }

  /** A refresh that has listed these keys can install them. */
  lemma Rebuildable(keys: map<string, AuthKey>, now: int)
    requires OwnIds(keys) && UniqueHashes(keys)
    ensures exists s :: Rebuilt(s, keys, now)
  {
    Enumerated(keys.Keys);
    var ids: seq<string> :|
      (forall id :: id in ids <==> id in keys.Keys) && forall i, j :: 0 <= i < j < |ids| ==> ids[i] != ids[j];
    SortedIds(keys, ids);
    hide Sort, ById, HashesGood, ActiveGood, SortedBy, Active, Hashes, WithHash;
    var order := Sort(ById(keys), ids);
    IndexedIsGood(keys, order, now);
    hide OwnIds, UniqueHashes;
    assert Rebuilt(Indexed(keys, order, now), keys, now);
  }

  lemma SortedIds(keys: map<string, AuthKey>, ids: seq<string>)
    requires OwnIds(keys) && forall id :: id in ids <==> id in keys
    requires forall i, j :: 0 <= i < j < |ids| ==> ids[i] != ids[j]
    ensures var order := Sort(ById(keys), ids); SortedBy(ById(keys), order) && forall id :: id in order <==> id in keys
  {
    ByIdOrders(keys);
    forall i, j | 0 <= i < j < |ids| ensures ById(keys)(ids[i], ids[j]) || ById(keys)(ids[j], ids[i]) {
      assert ids[i] in keys && ids[j] in keys;
    }
    SortSorts(ById(keys), ids);
    SortKeeps(ById(keys), ids);
  }

  lemma CreationRevives(w: World, key: AuthKey)
    requires Good(w) && key in w.creating
    ensures var v := w.(snapshot := WithKey(w.snapshot, key, w.now), creating := w.creating - {key});
      Next(w, ApplyUpsert(key, w.now), v) && Alive(v.snapshot.byId, key.id)
  {
    hide Consistent, OwnIds, UniqueHashes, Linked, Sort, ById, Active;
    assert Pending(w.store, key);
  }

  lemma SwapIsPossible(w: World, r: nat, s: Snapshot, id: string)
    requires r in w.listings && Rebuilt(s, w.listings[r], w.now) && Alive(w.listings[r], id)
    ensures var v := w.(snapshot := s, listings := w.listings - {r});
      Next(w, Swap(r, w.now), v) && Alive(v.snapshot.byId, id)
  {
    hide Consistent, Deactivated;
  }

  lemma GoodListing(w: World, r: nat)
    requires Good(w) && r in w.listings
    ensures OwnIds(w.listings[r]) && UniqueHashes(w.listings[r])
  {
    hide Consistent, Pending;
    ListingIsUnique(w.listings[r], w.store);
  }

  lemma ListingRevives(w: World, r: nat, id: string) returns (v: World)
    requires Good(w) && r in w.listings && Alive(w.listings[r], id)
    ensures Next(w, Swap(r, w.now), v) && Alive(v.snapshot.byId, id)
  {
    hide Good, Rebuilt, Alive, OwnIds, UniqueHashes, Next;
    GoodListing(w, r);
    Rebuildable(w.listings[r], w.now);
    var s :| Rebuilt(s, w.listings[r], w.now);
    v := w.(snapshot := s, listings := w.listings - {r});
    SwapIsPossible(w, r, s, id);
  }

  /** Whatever has the key alive can still be installed. */
  lemma RevivedByOneStep(w: World, id: string) returns (step: Step, v: World)
    requires Good(w) && !Quiet(w, id)
    ensures Next(w, step, v) && Alive(v.snapshot.byId, id)
  {
    hide Good, Alive;
    if Alive(w.snapshot.byId, id) {
      step, v := Pass(0), w;
    } else if key :| key in w.creating && key.id == id {
      step := ApplyUpsert(key, w.now);
      v := w.(snapshot := WithKey(w.snapshot, key, w.now), creating := w.creating - {key});
      hide Next, WithKey;
      CreationRevives(w, key);
    } else {
      hide Next;
      var r :| r in w.listings && Alive(w.listings[r], id);
      step := Swap(r, w.now);
      v := ListingRevives(w, r, id);
    }
  }

  lemma ListingIsUnique(keys: map<string, AuthKey>, store: map<string, AuthKey>)
    requires Linked(keys, store) && UniqueHashes(store)
    ensures UniqueHashes(keys)
  {
  }

  /** A deactivation is final, so that no continuation whatever lets the unexpired token in
      again, exactly when nothing the process holds at that moment has the key alive. */
  lemma DeactivationIsFinal(w: World, id: string, later: int)
    requires Good(w) && id in w.store && Deactivated(w.store[id]) && Unexpired(w.store[id], later) && Trim(id) != ""
    ensures Quiet(w, id) <==> forall worlds: seq<World>, steps: seq<Step> :: Run(worlds, steps) && worlds[0] == w ==>
      AuthenticateHash(worlds[|steps|].snapshot, w.store[id].secretHash, later).Rejected?
  {
    hide AuthenticateHash, Next, Good, Deactivated, Trim, Quiet, Alive;
    if Quiet(w, id) {
      forall worlds: seq<World>, steps: seq<Step> | Run(worlds, steps) && worlds[0] == w
        ensures AuthenticateHash(worlds[|steps|].snapshot, w.store[id].secretHash, later).Rejected?
      {
        QuietForever(worlds, steps, id, later);
      }
    } else {
      var step, v := RevivedByOneStep(w, id);
      var worlds, steps := [w, v], [step];
      assert Run(worlds, steps);
      RunKeepsGood(worlds, steps);
      assert worlds[1] == v;
      StoredStays(w, step, v, id);
      AliveIsAccepted(v, id, later);
    }
  }

  lemma StoredStays(w: World, step: Step, v: World, id: string)
    requires Good(w) && Next(w, step, v) && id in w.store
    ensures id in v.store && v.store[id].secretHash == w.store[id].secretHash &&
        v.store[id].expiresAt == w.store[id].expiresAt
  {
    NextKeepsStore(w, step, v);
  }

  // A refresh that is overtaken by a deactivation

  const KEY := AuthKey("k", "name", "", "", "", "h", true, None, None, 0, 0)

  function OneKey(key: AuthKey): Snapshot {
    Snapshot([key.id], map[key.id := key], map[key.secretHash := key],
             if Active(key, 0) then map[key.secretHash := key] else map[])
  }

  /** One refresh lists the key; the key is deactivated and the deactivation's own refresh runs
      to its end; then the first refresh installs what it had listed. */
  const OVERTAKEN := [List(0), Switch("k"), ApplyDeactivate("k", 0), List(1), Swap(1, 0), Swap(0, 0)]

  function OvertakenWorlds(): seq<World> {
    var on, off := map["k" := KEY], map["k" := Switched(KEY, 0)];
    [World(on, Empty(), 0, map[], {}),
     World(on, Empty(), 0, map[0 := on], {}),
     World(off, Empty(), 0, map[0 := on], {}),
     World(off, Empty(), 0, map[0 := on], {}),
     World(off, Empty(), 0, map[0 := on, 1 := off], {}),
     World(off, OneKey(Switched(KEY, 0)), 0, map[0 := on], {}),
     World(off, OneKey(KEY), 0, map[], {})]
  }

  lemma OneKeyRebuilt(key: AuthKey)
    requires key.id != "" && key.secretHash != ""
    ensures Rebuilt(OneKey(key), map[key.id := key], 0)
  {
  }

  /** In that run of a new service the token is refused after `Deactivate` has returned and
      accepted at the end. */
  lemma StaleRefreshRevives()
    ensures NewService(OvertakenWorlds()[0]) && Run(OvertakenWorlds(), OVERTAKEN)
    ensures AuthenticateHash(OvertakenWorlds()[5].snapshot, "h", 0) == Rejected(Inactive)
    ensures AuthenticateHash(OvertakenWorlds()[6].snapshot, "h", 0) == Authenticated("k", "")
  {
    OvertakenIsRun();
    OvertakenAnswers();
    assert NewService(OvertakenWorlds()[0]);
  }

  lemma OvertakenIsRun()
    ensures Run(OvertakenWorlds(), OVERTAKEN)
  {
    OvertakenStart();
    OvertakenEnd();
    var worlds := OvertakenWorlds();
    assert |worlds| == 7;
    hide Next, OvertakenWorlds, Switched;
    forall i | 0 <= i < 6 ensures Next(worlds[i], OVERTAKEN[i], worlds[i + 1]) {
      assert i in {0, 1, 2, 3, 4, 5};
    }
  }

  lemma OvertakenAnswers()
    ensures AuthenticateHash(OvertakenWorlds()[5].snapshot, "h", 0) == Rejected(Inactive)
    ensures AuthenticateHash(OvertakenWorlds()[6].snapshot, "h", 0) == Authenticated("k", "")
  {
    OneKeyAnswers(KEY);
    OneKeyAnswers(Switched(KEY, 0));
    assert AuthenticateKey(Switched(KEY, 0), 0) == Rejected(Inactive);
    assert AuthenticateKey(KEY, 0) == Authenticated("k", "") by {
      TrimFixed("k");
      TrimFixed("");
    }
    hide Trim, AuthenticateHash, OneKey, AuthenticateKey;
  }

  lemma OvertakenStart()
    ensures var worlds := OvertakenWorlds();
      Next(worlds[0], List(0), worlds[1]) && Next(worlds[1], Switch("k"), worlds[2])
      && Next(worlds[2], ApplyDeactivate("k", 0), worlds[3]) && Next(worlds[3], List(1), worlds[4])
  {
  }

  lemma TwoSwaps(store: map<string, AuthKey>, listed: map<string, AuthKey>, before: Snapshot, a: Snapshot, b: Snapshot)
    requires Rebuilt(a, store, 0) && Rebuilt(b, listed, 0)
    ensures
      var x := World(store, before, 0, map[0 := listed, 1 := store], {});
      var y := World(store, a, 0, map[0 := listed], {});
      Next(x, Swap(1, 0), y) && Next(y, Swap(0, 0), World(store, b, 0, map[], {}))
  {
    hide Consistent;
    var under: map<nat, map<string, AuthKey>> := map[0 := listed, 1 := store];
    assert under - {1} == map[0 := listed];
    var last: map<nat, map<string, AuthKey>> := map[0 := listed];
    assert last - {0} == map[];
  }

  lemma OvertakenEnd()
    ensures var worlds := OvertakenWorlds();
      Next(worlds[4], Swap(1, 0), worlds[5]) && Next(worlds[5], Swap(0, 0), worlds[6])
  {
    OneKeyRebuilt(KEY);
    OneKeyRebuilt(Switched(KEY, 0));
    hide Rebuilt, OneKey, Switched, Next, Empty;
    TwoSwaps(map["k" := Switched(KEY, 0)], map["k" := KEY], Empty(), OneKey(Switched(KEY, 0)), OneKey(KEY));
  }

  lemma OneKeyAnswers(key: AuthKey)
    ensures AuthenticateHash(OneKey(key), key.secretHash, 0) == AuthenticateKey(key, 0)
  {
    hide AuthenticateKey, Active;
  }
}
