/**
 * The in-memory token store, the in-memory blacklist and the token manager over them. Times are whole
 * seconds; a token string is modelled by what decoding and the signature check make of it.
 */
module TokenManager {
  import opened Prelude

  datatype User = User(id: string, profile: string)

  datatype Claims = Claims(user: User, tokenId: string, expiresAt: int)

  /** A token string: not decodable, or its claims and whether its signature verifies. */
  datatype Access = Garbled | Encoded(claims: Claims, signed: bool)

  datatype TokenData = TokenData(id: string, refresh: string, userId: string, expiresAt: int, revoked: bool)

  datatype TokenInfo = TokenInfo(access: Access, refresh: string, expiresAt: int)

  datatype Error = InvalidToken | TokenExpired | TokenRevoked | TokenNotFound | UserNotFound | RandomFailure

  datatype Result<+T> = Ok(value: T) | Err(error: Error)

  /** The two random strings of a new token; None when the random source fails. */
  type Random = Option<(string, string)>

  datatype Store = Store(tokens: map<string, TokenData>, refresh: map<string, string>, users: map<string, User>)

  datatype Manager = Manager(store: Store, blacklist: Option<map<string, int>>)

  // The store.

  function Stored(s: Store, t: TokenData): Store {
    s.(tokens := s.tokens[t.id := t], refresh := if t.refresh != "" then s.refresh[t.refresh := t.id] else s.refresh)
  }

  function ByRefresh(s: Store, refresh: string): Result<TokenData> {
    if refresh in s.refresh && s.refresh[refresh] in s.tokens then Ok(s.tokens[s.refresh[refresh]])
    else Err(TokenNotFound)
  }

  function Revoked(s: Store, id: string): Store {
    if id !in s.tokens then s
    else
      var t := s.tokens[id];
      s.(tokens := s.tokens[id := t.(revoked := true)],
         refresh := if t.refresh != "" then s.refresh - {t.refresh} else s.refresh)
  }

  predicate Valid(s: Store, id: string, now: int) {
    id in s.tokens && !s.tokens[id].revoked && s.tokens[id].expiresAt >= now
  }

  predicate Stale(t: TokenData, now: int) {
    t.expiresAt < now || t.revoked
  }

  function Gone(tokens: map<string, TokenData>, now: int): set<string> {
    set id | id in tokens && Stale(tokens[id], now)
  }

  /** The refresh strings of the given tokens. */
  function RefreshOf(tokens: map<string, TokenData>, ids: set<string>): set<string> {
    set id | id in ids && id in tokens && tokens[id].refresh != "" :: tokens[id].refresh
  }

  function Dropped(s: Store, ids: set<string>): Store {
    s.(tokens := s.tokens - ids, refresh := s.refresh - RefreshOf(s.tokens, ids))
  }

  function CleanedStore(s: Store, now: int): Store {
    Dropped(s, Gone(s.tokens, now))
  }

  function DroppedOne(s: Store, id: string, r: string): Store {
    s.(tokens := s.tokens - {id}, refresh := if r != "" then s.refresh - {r} else s.refresh)
  }

  lemma {:induction false} DropNone(s: Store)
    ensures Dropped(s, {}) == s
  {
    assert RefreshOf(s.tokens, {}) == {};
    assert s.tokens - {} == s.tokens && s.refresh - {} == s.refresh;
  }

  /** Dropping one more token. */
  lemma {:induction false} DropNext(s: Store, ids: set<string>, id: string)
    requires id in s.tokens
    ensures Dropped(s, ids + {id}) == DroppedOne(Dropped(s, ids), id, s.tokens[id].refresh)
  {
    var r := s.tokens[id].refresh;
    RemoveNext(s.tokens, ids, {id});
    RemoveNext(s.refresh, RefreshOf(s.tokens, ids), {r});
    if r != "" {
      assert id in ids + {id} && r in RefreshOf(s.tokens, ids + {id});
      assert RefreshOf(s.tokens, ids + {id}) == RefreshOf(s.tokens, ids) + {r};
    } else {
      assert RefreshOf(s.tokens, ids + {id}) == RefreshOf(s.tokens, ids);
    }
  }

  /** A cleanup has dropped the keys of `gone` that are not left to do. */
  predicate Visiting(keys: set<string>, gone: set<string>, todo: set<string>, dropped: set<string>) {
    todo <= keys && todo !! dropped && dropped <= gone && gone <= todo + dropped && (todo == {} ==> dropped == gone)
  }

  lemma {:induction false} VisitOne(
      keys: set<string>, gone: set<string>, todo: set<string>, dropped: set<string>, id: string)
    requires Visiting(keys, gone, todo, dropped) && id in todo
    ensures id in keys && id !in dropped
    ensures Visiting(keys, gone, todo - {id}, if id in gone then dropped + {id} else dropped)
  {}

  class TokenStore {
    var tokens: map<string, TokenData>
    var refreshTokens: map<string, string>
    var users: map<string, User>

    ghost function View(): Store
      reads this
    {
      Store(tokens, refreshTokens, users)
    }

    constructor ()
      ensures View() == Store(map[], map[], map[])
    {
      tokens, refreshTokens, users := map[], map[], map[];
    }

    method StoreToken(token: TokenData)
      modifies this
      ensures View() == Stored(old(View()), token)
    {
      tokens := tokens[token.id := token];
      if token.refresh != "" {
        refreshTokens := refreshTokens[token.refresh := token.id];
      }
    }

    method GetTokenByRefresh(refresh: string) returns (r: Result<TokenData>)
      ensures r == ByRefresh(View(), refresh)
    {
      if refresh !in refreshTokens {
        return Err(TokenNotFound);
      }
      var id := refreshTokens[refresh];
      if id !in tokens {
        return Err(TokenNotFound);
      }
      return Ok(tokens[id]);
    }

    method RevokeToken(id: string) returns (ok: bool)
      modifies this
      ensures ok <==> id in old(View()).tokens
      ensures View() == Revoked(old(View()), id)
    {
      if id !in tokens {
        return false;
      }
      var token := tokens[id];
      tokens := tokens[id := token.(revoked := true)];
      if token.refresh != "" {
        refreshTokens := refreshTokens - {token.refresh};
      }
      return true;
    }

    method IsTokenValid(id: string, now: int) returns (valid: bool)
      ensures valid <==> Valid(View(), id, now)
    {
      if id !in tokens {
        return false;
      }
      var token := tokens[id];
      if token.revoked {
        return false;
      }
      if token.expiresAt < now {
        return false;
      }
      return true;
    }

    /** One turn of the cleanup loop. */
    method DropIfStale(id: string, now: int) returns (dropped: bool)
      requires id in tokens
      modifies this
      ensures dropped <==> Stale(old(tokens)[id], now)
      ensures View() == if dropped then DroppedOne(old(View()), id, old(tokens)[id].refresh) else old(View())
    {
      var token := tokens[id];
      dropped := token.expiresAt < now || token.revoked;
      if dropped {
        if token.refresh != "" {
          refreshTokens := refreshTokens - {token.refresh};
        }
        tokens := tokens - {id};
      }
    }

    method CleanupExpiredTokens(now: int)
      modifies this
      ensures View() == CleanedStore(old(View()), now)
    {
      ghost var was := View();
      ghost var keys, gone := tokens.Keys, Gone(tokens, now);
      ghost var dropped: set<string> := {};
      DropNone(was);
      var todo := tokens.Keys;
      while todo != {}
        invariant View() == Dropped(was, dropped)
        invariant Visiting(keys, gone, todo, dropped)
        decreases |todo|
      {
        var id :| id in todo;
        VisitOne(keys, gone, todo, dropped, id);
        DropNext(was, dropped, id);
        todo := todo - {id};
        assert id in was.tokens && tokens[id] == was.tokens[id];
        var stale := DropIfStale(id, now);
        assert stale == (id in gone);
        dropped := if stale then dropped + {id} else dropped;
      }
    }

    method GetUserByID(id: string) returns (user: Option<User>)
      ensures user == if id in View().users then Some(View().users[id]) else None
    {
      if id !in users {
        return None;
      }
      return Some(users[id]);
    }

    method StoreUser(user: User)
      modifies this
      ensures View() == old(View()).(users := old(View()).users[user.id := user])
    {
      users := users[user.id := user];
    }
  }

  // The blacklist.

  predicate Listed(b: map<string, int>, id: string, now: int) {
    id in b && b[id] >= now
  }

  /** Looking up an entry that has expired removes it. */
  function LookedUp(b: map<string, int>, id: string, now: int): map<string, int> {
    if id in b && b[id] < now then b - {id} else b
  }

  function CleanedList(b: map<string, int>, now: int): map<string, int> {
    b - set id | id in b && b[id] < now
  }

  class Blacklist {
    var entries: map<string, int>

    constructor ()
      ensures entries == map[]
    {
      entries := map[];
    }

    method AddToBlacklist(id: string, now: int, expiration: int)
      modifies this
      ensures entries == old(entries)[id := now + expiration]
    {
      var expiryTime := now + expiration;
      entries := entries[id := expiryTime];
    }

    method IsBlacklisted(id: string, now: int) returns (listed: bool)
      modifies this
      ensures listed <==> Listed(old(entries), id, now)
      ensures entries == LookedUp(old(entries), id, now)
    {
      if id !in entries {
        return false;
      }
      if entries[id] < now {
        entries := entries - {id};
        return false;
      }
      return true;
    }

    method CleanupExpired(now: int)
      modifies this
      ensures entries == CleanedList(old(entries), now)
    {
      ghost var was := entries;
      ghost var gone := set id | id in was && was[id] < now;
      var todo := entries.Keys;
      while todo != {}
        invariant todo <= was.Keys
        invariant entries == was - (gone - todo)
        decreases |todo|
      {
        var id :| id in todo;
        ghost var before := gone - todo;
        todo := todo - {id};
        if entries[id] < now {
          assert gone - todo == before + {id};
          entries := entries - {id};
        } else {
          assert gone - todo == before;
        }
      }
      assert gone - todo == gone;
    }
  }

  // The manager.

  const DAY: int := 24 * 60 * 60

  function NewToken(user: User, random: (string, string), expiresAt: int): TokenData {
    TokenData(random.0, random.1, user.id, expiresAt, false)
  }

  function Info(user: User, random: (string, string), expiresAt: int): TokenInfo {
    TokenInfo(Encoded(Claims(user, random.0, expiresAt), true), random.1, expiresAt)
  }

  function Generated(m: Manager, user: User, lifetime: int, now: int, random: Random): (Manager, Result<TokenInfo>) {
    match random
    case None => (m, Err(RandomFailure))
    case Some(f) =>
      (m.(store := Stored(m.store, NewToken(user, f, now + lifetime))), Ok(Info(user, f, now + lifetime)))
  }

  /** The blacklist's verdict on a token, and the blacklist once asked. */
  function AskBlacklist(m: Manager, id: string, now: int): (Manager, bool) {
    match m.blacklist
    case None => (m, false)
    case Some(b) => (m.(blacklist := Some(LookedUp(b, id, now))), Listed(b, id, now))
  }

  function Listing(m: Manager, id: string, until: int): Manager {
    match m.blacklist
    case None => m
    case Some(b) => m.(blacklist := Some(b[id := until]))
  }

  function Validated(m: Manager, access: Access, now: int): (Manager, Result<User>) {
    match access
    case Garbled => (m, Err(InvalidToken))
    case Encoded(claims, signed) =>
      if !signed then (m, Err(InvalidToken))
      else if claims.expiresAt < now then (m, Err(TokenExpired))
      else
        var (n, listed) := AskBlacklist(m, claims.tokenId, now);
        if listed || !Valid(n.store, claims.tokenId, now) then (n, Err(TokenRevoked)) else (n, Ok(claims.user))
  }

  function Refreshed(
      m: Manager, lifetime: int, refresh: string, now: int, random: Random): (Manager, Result<TokenInfo>) {
    if refresh == "" then (m, Err(InvalidToken))
    else match ByRefresh(m.store, refresh)
      case Err(e) => (m, Err(e))
      case Ok(t) =>
        if t.expiresAt < now then (m, Err(TokenExpired))
        else
          var (n, listed) := AskBlacklist(m, t.id, now);
          if listed then (n, Err(TokenRevoked))
          else if t.id !in n.store.tokens then (n, Err(TokenNotFound))
          else
            var p := Listing(n.(store := Revoked(n.store, t.id)), t.id, t.expiresAt);
            if t.userId !in p.store.users then (p, Err(UserNotFound))
            else Generated(p, p.store.users[t.userId], lifetime, now, random)
  }

  function Withdrawn(m: Manager, access: Access, now: int): (Manager, Option<Error>) {
    match access
    case Garbled => (m, Some(InvalidToken))
    case Encoded(claims, _) =>
      if claims.tokenId !in m.store.tokens then (m, Some(TokenNotFound))
      else
        var until := if claims.expiresAt <= now then now + DAY else claims.expiresAt;
        (Listing(m.(store := Revoked(m.store, claims.tokenId)), claims.tokenId, until), None)
  }

  function Cleaned(m: Manager, now: int): Manager {
    Manager(CleanedStore(m.store, now), if m.blacklist.None? then None else Some(CleanedList(m.blacklist.value, now)))
  }

  class TokenManager {
    const defaultDuration: int
    const tokenStore: TokenStore
    const blacklist: Blacklist?

    ghost function View(): Manager
      reads tokenStore, blacklist
    {
      Manager(tokenStore.View(), if blacklist == null then None else Some(blacklist.entries))
    }

    ghost function Frame(): set<object> {
      {tokenStore} + if blacklist == null then {} else {blacklist}
    }

    constructor (duration: int, tokenStore: TokenStore, blacklist: Blacklist?)
      ensures this.tokenStore == tokenStore && this.blacklist == blacklist
      ensures defaultDuration == if duration <= 0 then 3600 else duration
    {
      this.tokenStore, this.blacklist := tokenStore, blacklist;
      this.defaultDuration := if duration <= 0 then 3600 else duration;
    }

    method GenerateToken(user: User, duration: int, now: int, random: Random) returns (r: Result<TokenInfo>)
      modifies tokenStore
      ensures (View(), r) ==
        Generated(old(View()), user, if duration <= 0 then defaultDuration else duration, now, random)
    {
      var lifetime := duration;
      if lifetime <= 0 {
        lifetime := defaultDuration;
      }
      if random.None? {
        return Err(RandomFailure);
      }
      var (tokenId, refreshTokenId) := random.value;
      var expiresAt := now + lifetime;
      var claims := Claims(user, tokenId, expiresAt);
      tokenStore.StoreToken(TokenData(tokenId, refreshTokenId, user.id, expiresAt, false));
      return Ok(TokenInfo(Encoded(claims, true), refreshTokenId, expiresAt));
    }

    method ValidateToken(access: Access, now: int) returns (r: Result<User>)
      modifies Frame()
      ensures (View(), r) == Validated(old(View()), access, now)
    {
      if access.Garbled? || !access.signed {
        return Err(InvalidToken);
      }
      var claims := access.claims;
      if claims.expiresAt < now {
        return Err(TokenExpired);
      }
      if blacklist != null {
        var isBlacklisted := blacklist.IsBlacklisted(claims.tokenId, now);
        if isBlacklisted {
          return Err(TokenRevoked);
        }
      }
      var valid := tokenStore.IsTokenValid(claims.tokenId, now);
      if !valid {
        return Err(TokenRevoked);
      }
      return Ok(claims.user);
    }

    method RefreshToken(refresh: string, now: int, random: Random) returns (r: Result<TokenInfo>)
      modifies Frame()
      ensures (View(), r) == Refreshed(old(View()), defaultDuration, refresh, now, random)
    {
      if refresh == "" {
        return Err(InvalidToken);
      }
      var found := tokenStore.GetTokenByRefresh(refresh);
      if found.Err? {
        return Err(found.error);
      }
      var tokenData := found.value;
      if tokenData.expiresAt < now {
        return Err(TokenExpired);
      }
      if blacklist != null {
        var isBlacklisted := blacklist.IsBlacklisted(tokenData.id, now);
        if isBlacklisted {
          return Err(TokenRevoked);
        }
      }
      var ok := tokenStore.RevokeToken(tokenData.id);
      if !ok {
        return Err(TokenNotFound);
      }
      if blacklist != null {
        var timeUntilExpiry := tokenData.expiresAt - now;
        blacklist.AddToBlacklist(tokenData.id, now, timeUntilExpiry);
      }
      var user := tokenStore.GetUserByID(tokenData.userId);
      if user.None? {
        return Err(UserNotFound);
      }
      r := GenerateToken(user.value, defaultDuration, now, random);
    }

    method RevokeToken(access: Access, now: int) returns (error: Option<Error>)
      modifies Frame()
      ensures (View(), error) == Withdrawn(old(View()), access, now)
    {
      if access.Garbled? {
        return Some(InvalidToken);
      }
      var claims := access.claims;
      var ok := tokenStore.RevokeToken(claims.tokenId);
      if !ok {
        return Some(TokenNotFound);
      }
      if blacklist != null {
        var timeUntilExpiry := claims.expiresAt - now;
        if timeUntilExpiry <= 0 {
          timeUntilExpiry := 24 * 60 * 60;
        }
        blacklist.AddToBlacklist(claims.tokenId, now, timeUntilExpiry);
      }
      return None;
    }

    method CleanupExpired(now: int)
      modifies Frame()
      ensures View() == Cleaned(old(View()), now)
    {
      tokenStore.CleanupExpiredTokens(now);
      if blacklist != null {
        blacklist.CleanupExpired(now);
      }
    }
  }
}
