/**
 * The access-token resource AccessToken__1_0: its single route and the find / expire / delete /
 * create sequence of getOrCreateToken over the token entity storage.
 */
module AccessToken {
  import opened Common

  /** The bundle every access token entity carries. */
  const AccessTokenBundle: string := "access_token"

  /** A stored token entity; an expiry of 0 means the token never expires. */
  datatype Token = Token(bundle: string, uid: nat, expire: int, value: string)

  /** The token entities of the resource's entity type, by id. */
  type Tokens = map<nat, Token>

  /** The entity query's conditions: bundle `access_token` and the caller's uid. */
  predicate OwnedBy(t: Token, uid: nat) {
    t.bundle == AccessTokenBundle && t.uid == uid
  }

  predicate HasToken(tokens: Tokens, uid: nat) {
    exists id :: id in tokens && OwnedBy(tokens[id], uid)
  }

  /** What the query limited to one row may return: nothing only when no token matches. */
  predicate QueryResult(tokens: Tokens, uid: nat, found: Option<nat>) {
    match found
    case None => !HasToken(tokens, uid)
    case Some(id) => id in tokens && OwnedBy(tokens[id], uid)
  }

  /** A token is expired when its expiry is set and lies strictly before the request time. */
  predicate Expired(t: Token, now: int) {
    t.expire != 0 && t.expire < now
  }

  /** At most one access token per uid: the invariant the lifecycle is meant to keep. */
  predicate OnePerUid(tokens: Tokens) {
    forall i, j ::
      (i in tokens && j in tokens && tokens[i].bundle == AccessTokenBundle &&
       tokens[j].bundle == AccessTokenBundle && tokens[i].uid == tokens[j].uid) ==> i == j
  }

  /** Every stored id is below the next id the storage hands out. */
  predicate IdsBelow(tokens: Tokens, nextId: nat) {
    forall id :: id in tokens ==> id < nextId
  }

  /** The store after a call, the next free id, and the id whose view is returned. */
  datatype Effect = Effect(tokens: Tokens, nextId: nat, id: nat)

  /**
   * One call of getOrCreateToken given the query's answer `found`: a live token is reused; an
   * expired one is deleted when `deleteExpired` holds and then replaced, as is a missing one, by a
   * new token for the uid under the next id.
   */
  function Lifecycle(tokens: Tokens, nextId: nat, found: Option<nat>, uid: nat, now: int,
                     deleteExpired: bool, value: string, expire: int): (e: Effect)
    requires found.Some? ==> found.value in tokens
    ensures e.id in e.tokens
    ensures (found.None? || Expired(tokens[found.value], now)) ==>
              e.tokens[e.id] == Token(AccessTokenBundle, uid, expire, value) && e.nextId == nextId + 1
    ensures found.Some? && !Expired(tokens[found.value], now) ==> e.tokens == tokens && e.nextId == nextId
  {
    var created := Token(AccessTokenBundle, uid, expire, value);
    match found
    case Some(f) =>
      if !Expired(tokens[f], now) then Effect(tokens, nextId, f)
      else
        var kept := if deleteExpired then tokens - {f} else tokens;
        Effect(kept[nextId := created], nextId + 1, nextId)
    case None => Effect(tokens[nextId := created], nextId + 1, nextId)
  }

  /** With no token for the uid, exactly one token owned by the uid is created and its id returned. */
  lemma CreatesWhenAbsent(tokens: Tokens, nextId: nat, uid: nat, now: int, deleteExpired: bool, value: string, expire: int)
    requires IdsBelow(tokens, nextId)
    ensures var e := Lifecycle(tokens, nextId, None, uid, now, deleteExpired, value, expire);
            && e.id !in tokens
            && e.tokens == tokens[e.id := Token(AccessTokenBundle, uid, expire, value)]
            && OwnedBy(e.tokens[e.id], uid)
            && IdsBelow(e.tokens, e.nextId)
  {
  }

  /**
   * A found token that is not expired, including one whose expiry equals the request time, is
   * reused: nothing is created or deleted and its id is returned.
   */
  lemma ReusesLiveToken(tokens: Tokens, nextId: nat, f: nat, uid: nat, now: int, deleteExpired: bool, value: string, expire: int)
    requires f in tokens && (tokens[f].expire == 0 || tokens[f].expire >= now)
    ensures Lifecycle(tokens, nextId, Some(f), uid, now, deleteExpired, value, expire) == Effect(tokens, nextId, f)
  {
  }

  /**
   * An expired token is removed when the delete flag is on and kept otherwise; in both cases a new
   * token for the uid is created and returned.
   */
  lemma ReplacesExpiredToken(tokens: Tokens, nextId: nat, f: nat, uid: nat, now: int, deleteExpired: bool, value: string, expire: int)
    requires IdsBelow(tokens, nextId)
    requires f in tokens && tokens[f].expire != 0 && tokens[f].expire < now
    ensures var e := Lifecycle(tokens, nextId, Some(f), uid, now, deleteExpired, value, expire);
            && e.id !in tokens && e.id != f
            && e.id in e.tokens && OwnedBy(e.tokens[e.id], uid)
            && (deleteExpired <==> f !in e.tokens)
            && (!deleteExpired ==> e.tokens[f] == tokens[f])
  {
  }

  /**
   * Frame: each call deletes at most the found token, creates at most the returned one, and leaves
   * every other token as it was.
   */
  lemma LifecycleFrame(tokens: Tokens, nextId: nat, found: Option<nat>, uid: nat, now: int,
                       deleteExpired: bool, value: string, expire: int)
    requires IdsBelow(tokens, nextId)
    requires found.Some? ==> found.value in tokens
    ensures var e := Lifecycle(tokens, nextId, found, uid, now, deleteExpired, value, expire);
            && tokens.Keys - e.tokens.Keys <= (if found.Some? then {found.value} else {})
            && e.tokens.Keys - tokens.Keys <= {e.id}
            && (forall k :: k in tokens && k in e.tokens ==> e.tokens[k] == tokens[k])
            && IdsBelow(e.tokens, e.nextId)
  {
  }

  /** With the delete flag on, a store holding at most one token per uid still does after the call. */
  lemma KeepsOnePerUid(tokens: Tokens, nextId: nat, found: Option<nat>, uid: nat, now: int,
                       value: string, expire: int)
    requires IdsBelow(tokens, nextId) && OnePerUid(tokens)
    requires QueryResult(tokens, uid, found)
    ensures OnePerUid(Lifecycle(tokens, nextId, found, uid, now, true, value, expire).tokens)
  {
  }

  /**
   * With the delete flag off, an expired token stays beside its replacement: the uid then owns two
   * tokens, so the one-token-per-uid invariant is lost.
   */
  lemma OrphanWhenNotDeleting(tokens: Tokens, nextId: nat, f: nat, uid: nat, now: int, value: string, expire: int)
    requires IdsBelow(tokens, nextId)
    requires QueryResult(tokens, uid, Some(f)) && Expired(tokens[f], now)
    ensures !OnePerUid(Lifecycle(tokens, nextId, Some(f), uid, now, false, value, expire).tokens)
  {
    var e := Lifecycle(tokens, nextId, Some(f), uid, now, false, value, expire);
    assert f in e.tokens && e.id in e.tokens && f != e.id;
    assert e.tokens[f].uid == e.tokens[e.id].uid;
  }

  /**
   * Repeated calls return the same token: with the delete flag on, a call made while the token the
   * previous call returned is still live finds it again, reuses it and changes nothing.
   */
  lemma RepeatReturnsSameToken(tokens: Tokens, nextId: nat, found: Option<nat>, uid: nat, now: int,
                               value: string, expire: int,
                               found2: Option<nat>, later: int, value2: string, expire2: int)
    requires IdsBelow(tokens, nextId) && OnePerUid(tokens)
    requires QueryResult(tokens, uid, found)
    requires var e := Lifecycle(tokens, nextId, found, uid, now, true, value, expire);
             QueryResult(e.tokens, uid, found2) && e.id in e.tokens && !Expired(e.tokens[e.id], later)
    ensures var e := Lifecycle(tokens, nextId, found, uid, now, true, value, expire);
            Lifecycle(e.tokens, e.nextId, found2, uid, later, true, value2, expire2) == Effect(e.tokens, e.nextId, e.id)
  {
  }

  /**
   * A uid without a token gets token A; a call ten seconds later returns A unchanged; a call after
   * A's expiry deletes A and returns a new token B.
   */
  lemma Scenario(t0: int)
    requires t0 > 0
    ensures Lifecycle(map[], 1, None, 5, t0, true, "a", t0 + 3600) ==
              Effect(map[1 := Token(AccessTokenBundle, 5, t0 + 3600, "a")], 2, 1)
    ensures Lifecycle(map[1 := Token(AccessTokenBundle, 5, t0 + 3600, "a")], 2, Some(1), 5, t0 + 10, true, "b", t0 + 3610) ==
              Effect(map[1 := Token(AccessTokenBundle, 5, t0 + 3600, "a")], 2, 1)
    ensures Lifecycle(map[1 := Token(AccessTokenBundle, 5, t0 + 3600, "a")], 2, Some(1), 5, t0 + 4000, true, "c", t0 + 7600) ==
              Effect(map[2 := Token(AccessTokenBundle, 5, t0 + 7600, "c")], 3, 2)
  {
  }

  /** A route of `controllersInfo`: a path pattern and its verb-to-handler map. */
  datatype VerbRoute = VerbRoute(pattern: string, handlers: map<string, string>)

  /** controllersInfo: the resource's only route. */
  function ControllersInfo(): (routes: seq<VerbRoute>)
    ensures |routes| == 1 && routes[0].pattern == ""
    ensures routes[0].handlers.Keys == {"GET"} && routes[0].handlers["GET"] == "getOrCreateToken"
  {
    [VerbRoute("", map["GET" := "getOrCreateToken"])]
  }

  /** The only handler the resource routes to is getOrCreateToken, for GET on the empty path. */
  lemma OnlyGetOrCreateRoute()
    ensures |ControllersInfo()| == 1
    ensures forall r, verb :: r in ControllersInfo() && verb in r.handlers ==>
              r.pattern == "" && verb == "GET" && r.handlers[verb] == "getOrCreateToken"
  {
  }

  /** The token entities of the resource's type, and the next id the storage will assign. */
  class TokenStore {
    var tokens: Tokens
    var nextId: nat

    ghost predicate Valid()
      reads this
    {
      IdsBelow(tokens, nextId)
    }

    constructor ()
      ensures Valid() && tokens == map[]
    {
      tokens := map[];
      nextId := 1;
    }

    /** The entity query for the uid's access token, limited to one row of unspecified order. */
    method Query(uid: nat) returns (found: Option<nat>)
      ensures QueryResult(tokens, uid, found)
    {
      if exists id :: id in tokens && OwnedBy(tokens[id], uid) {
        var id :| id in tokens && OwnedBy(tokens[id], uid);
        found := Some(id);
      } else {
        found := None;
      }
    }

    /** Deletes one token entity from the storage. */
    method Delete(id: nat)
      requires Valid()
      modifies this
      ensures Valid()
      ensures tokens == old(tokens) - {id} && nextId == old(nextId)
    {
      tokens := tokens - {id};
    }

    /** generateAccessToken: stores a new token for the uid under a fresh id and returns the id. */
    method GenerateAccessToken(uid: nat, value: string, expire: int) returns (id: nat)
      requires Valid()
      modifies this
      ensures Valid()
      ensures id !in old(tokens) && id == old(nextId)
      ensures tokens == old(tokens)[id := Token(AccessTokenBundle, uid, expire, value)]
      ensures nextId == old(nextId) + 1
    {
      id := nextId;
      tokens := tokens[id := Token(AccessTokenBundle, uid, expire, value)];
      nextId := nextId + 1;
    }
  }

  /**
   * getOrCreateToken: finds one token of the caller; an expired one is deleted when `deleteExpired`
   * holds and treated as absent either way; with no live token left a new one is generated for the
   * caller. The id of the token whose view is returned comes back, together with the query's answer.
   */
  method GetOrCreateToken(store: TokenStore, account: Account, now: int, deleteExpired: bool,
                          freshValue: string, freshExpire: int)
    returns (id: nat, ghost found: Option<nat>)
    requires store.Valid()
    modifies store
    ensures store.Valid()
    ensures QueryResult(old(store.tokens), account.uid, found)
    ensures Effect(store.tokens, store.nextId, id) ==
              Lifecycle(old(store.tokens), old(store.nextId), found, account.uid, now, deleteExpired, freshValue, freshExpire)
    ensures forall k :: k in old(store.tokens) && found != Some(k) ==> k in store.tokens && store.tokens[k] == old(store.tokens)[k]
    ensures forall k :: k in store.tokens && k !in old(store.tokens) ==> k == id
  {
    var result := store.Query(account.uid);
    found := result;
    var tokenExists := false;
    id := 0;
    if result.Some? {
      id := result.value;
      var accessToken := store.tokens[id];
      tokenExists := true;
      if accessToken.expire != 0 && accessToken.expire < now {
        if deleteExpired {
          store.Delete(id);
        }
        tokenExists := false;
      }
    }
    if !tokenExists {
      id := store.GenerateAccessToken(account.uid, freshValue, freshExpire);
    }
  }
}
