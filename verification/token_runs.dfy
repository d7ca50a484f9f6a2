/** Safety of the token lifecycle over whole runs of manager calls, each taken as one step. */
module TokenRuns {
  import opened Prelude
  import opened TokenManager

  datatype Op =
    | Login(user: User, lifetime: int, random: Random)
    | Validate(access: Access)
    | Refresh(refresh: string, random: Random)
    | Revoke(access: Access)
    | Cleanup
    | AddUser(user: User)

  datatype Event = Event(op: Op, now: int)

  /** The random strings a call is given. */
  function Strings(op: Op): Random {
    match op
    case Login(_, _, random) => random
    case Refresh(_, random) => random
    case _ => None
  }

  /**
   * The manager; which login each token descends from, and how many logins there were; the claims
   * each token was issued with; the refresh strings redeemed, in order; those used up, by a refresh that
   * succeeded or failed only after the old token was given up; and the identities whose revocation succeeded.
   */
  datatype World = World(
    m: Manager, login: map<string, nat>, logins: nat, granted: map<string, TokenInfo>,
    redeemed: seq<string>, consumed: set<string>, revoked: set<string>)

  function Start(users: map<string, User>, blacklist: bool): World {
    World(Manager(Store(map[], map[], users), if blacklist then Some(map[]) else None), map[], 0, map[], [], {}, {})
  }

  function IdsAfter(ids: set<string>, r: Random): set<string> {
    if r.Some? then ids + {r.value.0} else ids
  }

  function StringsAfter(strings: set<string>, r: Random): set<string> {
    if r.Some? then strings + {r.value.1} else strings
  }

  predicate NewStrings(ids: set<string>, strings: set<string>, r: Random) {
    r.Some? ==> r.value.0 !in ids && r.value.1 !in strings && r.value.1 != ""
  }

  /** The clock does not go back, and random strings differ from the `ids` and `strings` drawn before. */
  predicate Legal(clock: int, ids: set<string>, strings: set<string>, events: seq<Event>)
    decreases |events|
  {
    events == [] ||
    var r := Strings(events[0].op);
    && events[0].now >= clock
    && NewStrings(ids, strings, r)
    && Legal(events[0].now, IdsAfter(ids, r), StringsAfter(strings, r), events[1..])
  }

  /** The manager after a call; `lifetime` is the default duration. */
  function Step(lifetime: int, m: Manager, e: Event): Manager {
    match e.op
    case Login(user, d, random) => Generated(m, user, if d <= 0 then lifetime else d, e.now, random).0
    case Validate(access) => Validated(m, access, e.now).0
    case Refresh(refresh, random) => Refreshed(m, lifetime, refresh, e.now, random).0
    case Revoke(access) => Withdrawn(m, access, e.now).0
    case Cleanup => Cleaned(m, e.now)
    case AddUser(user) => m.(store := m.store.(users := m.store.users[user.id := user]))
  }

  datatype Answer = Accepted(user: User) | Issued(info: TokenInfo)

  /** What a login, validation or refresh gives when it succeeds. */
  function Reply(lifetime: int, m: Manager, e: Event): Option<Answer> {
    match e.op
    case Login(user, d, random) =>
      var r := Generated(m, user, if d <= 0 then lifetime else d, e.now, random).1;
      if r.Ok? then Some(Issued(r.value)) else None
    case Validate(access) =>
      var r := Validated(m, access, e.now).1;
      if r.Ok? then Some(Accepted(r.value)) else None
    case Refresh(refresh, random) =>
      var r := Refreshed(m, lifetime, refresh, e.now, random).1;
      if r.Ok? then Some(Issued(r.value)) else None
    case _ => None
  }

  /** The answers a refresh gives once the old token has been given up. */
  predicate UsesUp(answer: Result<TokenInfo>) {
    answer.Ok? || answer.error == UserNotFound || answer.error == RandomFailure
  }

  function Apply(lifetime: int, w: World, e: Event): World {
    var r := Reply(lifetime, w.m, e);
    var granted :=
      if r.Some? && r.value.Issued? && r.value.info.access.Encoded? then
        w.granted[r.value.info.access.claims.tokenId := r.value.info]
      else w.granted;
    var v := w.(m := Step(lifetime, w.m, e), granted := granted);
    match e.op
    case Login(_, _, random) =>
      if random.Some? then v.(login := w.login[random.value.0 := w.logins], logins := w.logins + 1) else v
    case Refresh(refresh, random) =>
      var parent := ByRefresh(w.m.store, refresh);
      var answer := Refreshed(w.m, lifetime, refresh, e.now, random).1;
      var u := if UsesUp(answer) then v.(consumed := w.consumed + {refresh}) else v;
      if Reply(lifetime, w.m, e).Some? && parent.Ok? && random.Some? then
        u.(redeemed := w.redeemed + [refresh],
           login := w.login[random.value.0 :=
             if parent.value.id in w.login then w.login[parent.value.id] else w.logins])
      else u
    case Revoke(access) =>
      if Withdrawn(w.m, access, e.now).1.None? && access.Encoded? then
        v.(revoked := w.revoked + {access.claims.tokenId})
      else v
    case _ => v
  }

  function Play(lifetime: int, w: World, events: seq<Event>): World
    decreases |events|
  {
    if events == [] then w else Play(lifetime, Apply(lifetime, w, events[0]), events[1..])
  }

  // Invariants of the store and the blacklist.

  /** Stored tokens carry their own identity and distinct refresh strings drawn before. */
  ghost predicate TokensKept(s: Store, ids: set<string>, strings: set<string>) {
    && (forall id <- s.tokens :: s.tokens[id].id == id && id in ids)
    && (forall id <- s.tokens :: s.tokens[id].refresh in strings && s.tokens[id].refresh != "")
    && (forall i <- s.tokens, j <- s.tokens :: s.tokens[i].refresh == s.tokens[j].refresh ==> i == j)
  }

  /** The index holds exactly the refresh strings of the unrevoked stored tokens. */
  ghost predicate IndexKept(s: Store) {
    && (forall r <- s.refresh ::
      s.refresh[r] in s.tokens && !s.tokens[s.refresh[r]].revoked && s.tokens[s.refresh[r]].refresh == r)
    && (forall id <- s.tokens :: !s.tokens[id].revoked ==>
      s.tokens[id].refresh in s.refresh && s.refresh[s.tokens[id].refresh] == id)
  }

  /** Dead: never to be accepted again. */
  predicate Dead(s: Store, ids: set<string>, id: string) {
    id in ids && (id in s.tokens ==> s.tokens[id].revoked)
  }

  ghost predicate ListKept(m: Manager, ids: set<string>) {
    m.blacklist.Some? ==> forall id <- m.blacklist.value :: Dead(m.store, ids, id)
  }

  ghost predicate ManagerKept(m: Manager, ids: set<string>, strings: set<string>) {
    TokensKept(m.store, ids, strings) && IndexKept(m.store) && ListKept(m, ids)
  }

  // Each elementary change keeps them.

  lemma {:induction false} StoredKeeps(m: Manager, ids: set<string>, strings: set<string>, t: TokenData)
    requires ManagerKept(m, ids, strings) && t.id !in ids && t.refresh !in strings && t.refresh != "" && !t.revoked
    ensures ManagerKept(m.(store := Stored(m.store, t)), ids + {t.id}, strings + {t.refresh})
  {}

  lemma {:induction false} RevokedKeeps(m: Manager, ids: set<string>, strings: set<string>, id: string)
    requires ManagerKept(m, ids, strings)
    ensures ManagerKept(m.(store := Revoked(m.store, id)), ids, strings)
    ensures id in m.store.tokens ==> Dead(Revoked(m.store, id), ids, id)
  {}

  lemma {:induction false} ListingKeeps(m: Manager, ids: set<string>, strings: set<string>, id: string, until: int)
    requires ManagerKept(m, ids, strings) && Dead(m.store, ids, id)
    ensures ManagerKept(Listing(m, id, until), ids, strings)
  {}

  lemma {:induction false} AskKeeps(m: Manager, ids: set<string>, strings: set<string>, id: string, now: int)
    requires ManagerKept(m, ids, strings)
    ensures ManagerKept(AskBlacklist(m, id, now).0, ids, strings)
    ensures AskBlacklist(m, id, now).0.store == m.store
    ensures AskBlacklist(m, id, now).1 ==> Dead(m.store, ids, id)
  {}

  lemma {:induction false} CleanedKeeps(m: Manager, ids: set<string>, strings: set<string>, now: int)
    requires ManagerKept(m, ids, strings)
    ensures ManagerKept(Cleaned(m, now), ids, strings)
  {
    var s, gone := m.store, Gone(m.store.tokens, now);
    var c := CleanedStore(s, now);
    forall id <- c.tokens | !c.tokens[id].revoked
      ensures c.tokens[id].refresh in c.refresh && c.refresh[c.tokens[id].refresh] == id
    {
      assert s.tokens[id].refresh !in RefreshOf(s.tokens, gone);
    }
    forall r <- c.refresh ensures c.refresh[r] in c.tokens {
      var id := s.refresh[r];
      assert id in s.tokens && s.tokens[id].refresh == r;
      assert id in gone ==> r in RefreshOf(s.tokens, gone);
    }
  }

  lemma {:induction false} MoreStrings(
      m: Manager, ids: set<string>, strings: set<string>, ids': set<string>, strings': set<string>)
    requires ManagerKept(m, ids, strings) && ids <= ids' && strings <= strings'
    ensures ManagerKept(m, ids', strings')
  {}

  lemma {:induction false} GeneratedKeeps(
      m: Manager, ids: set<string>, strings: set<string>, user: User, lifetime: int, now: int, random: Random)
    requires ManagerKept(m, ids, strings) && NewStrings(ids, strings, random)
    ensures ManagerKept(
      Generated(m, user, lifetime, now, random).0, IdsAfter(ids, random), StringsAfter(strings, random))
  {
    if random.Some? {
      StoredKeeps(m, ids, strings, NewToken(user, random.value, now + lifetime));
    }
  }

  lemma {:induction false} ValidatedKeeps(m: Manager, ids: set<string>, strings: set<string>, access: Access, now: int)
    requires ManagerKept(m, ids, strings)
    ensures ManagerKept(Validated(m, access, now).0, ids, strings)
    ensures Validated(m, access, now).0.store == m.store
  {
    if access.Encoded? {
      AskKeeps(m, ids, strings, access.claims.tokenId, now);
    }
  }

  lemma {:induction false} RefreshedKeeps(
      m: Manager, ids: set<string>, strings: set<string>, lifetime: int, refresh: string, now: int, random: Random)
    requires ManagerKept(m, ids, strings) && NewStrings(ids, strings, random)
    ensures ManagerKept(
      Refreshed(m, lifetime, refresh, now, random).0, IdsAfter(ids, random), StringsAfter(strings, random))
  {
    MoreStrings(m, ids, strings, IdsAfter(ids, random), StringsAfter(strings, random));
    var found := ByRefresh(m.store, refresh);
    if refresh != "" && found.Ok? && found.value.expiresAt >= now {
      var t := found.value;
      AskKeeps(m, ids, strings, t.id, now);
      var (n, listed) := AskBlacklist(m, t.id, now);
      MoreStrings(n, ids, strings, IdsAfter(ids, random), StringsAfter(strings, random));
      if !listed {
        RevokedKeeps(n, ids, strings, t.id);
        var q := n.(store := Revoked(n.store, t.id));
        ListingKeeps(q, ids, strings, t.id, t.expiresAt);
        var p := Listing(q, t.id, t.expiresAt);
        MoreStrings(p, ids, strings, IdsAfter(ids, random), StringsAfter(strings, random));
        if t.userId in p.store.users && random.Some? {
          StoredKeeps(p, ids, strings, NewToken(p.store.users[t.userId], random.value, now + lifetime));
        }
      }
    }
  }

  lemma {:induction false} WithdrawnKeeps(m: Manager, ids: set<string>, strings: set<string>, access: Access, now: int)
    requires ManagerKept(m, ids, strings)
    ensures ManagerKept(Withdrawn(m, access, now).0, ids, strings)
  {
    if access.Encoded? && access.claims.tokenId in m.store.tokens {
      var id := access.claims.tokenId;
      RevokedKeeps(m, ids, strings, id);
      ListingKeeps(m.(store := Revoked(m.store, id)), ids, strings, id,
        if access.claims.expiresAt <= now then now + DAY else access.claims.expiresAt);
    }
  }

  lemma {:induction false} StepKeepsManager(lifetime: int, m: Manager, ids: set<string>, strings: set<string>, e: Event)
    requires ManagerKept(m, ids, strings) && NewStrings(ids, strings, Strings(e.op))
    ensures ManagerKept(Step(lifetime, m, e), IdsAfter(ids, Strings(e.op)), StringsAfter(strings, Strings(e.op)))
  {
    match e.op
    case Login(user, d, random) => GeneratedKeeps(m, ids, strings, user, if d <= 0 then lifetime else d, e.now, random);
    case Validate(access) => ValidatedKeeps(m, ids, strings, access, e.now);
    case Refresh(refresh, random) => RefreshedKeeps(m, ids, strings, lifetime, refresh, e.now, random);
    case Revoke(access) =>
      WithdrawnKeeps(m, ids, strings, access, e.now);
    case Cleanup => CleanedKeeps(m, ids, strings, e.now);
    case AddUser(_) =>
  }

  // The blacklist never changes an outcome.

  function Bare(m: Manager): Manager {
    Manager(m.store, None)
  }

  /** A call leaves the same store, and gives the same reply, as it would with no blacklist. */
  lemma {:induction false} BlacklistIsInvisible(
      lifetime: int, m: Manager, ids: set<string>, strings: set<string>, e: Event)
    requires ManagerKept(m, ids, strings)
    ensures Bare(Step(lifetime, m, e)) == Step(lifetime, Bare(m), e)
    ensures Reply(lifetime, m, e) == Reply(lifetime, Bare(m), e)
  {
    match e.op
    case Validate(access) =>
      if access.Encoded? {
        AskKeeps(m, ids, strings, access.claims.tokenId, e.now);
      }
    case Refresh(refresh, _) =>
      var found := ByRefresh(m.store, refresh);
      if found.Ok? {
        AskKeeps(m, ids, strings, found.value.id, e.now);
      }
    case _ =>
  }

  // Who is alive, and what a call changes in that.

  predicate Alive(s: Store, id: string) {
    id in s.tokens && !s.tokens[id].revoked
  }

  /** The token a refresh string would redeem. */
  function Target(s: Store, refresh: string, now: int): Option<TokenData> {
    var found := ByRefresh(s, refresh);
    if found.Ok? && found.value.expiresAt >= now then Some(found.value) else None
  }

  /** A refresh revokes its target and stores a successor, or does nothing. */
  lemma {:induction false} RefreshMeans(
      m: Manager, ids: set<string>, strings: set<string>, lifetime: int, refresh: string, now: int, random: Random)
    requires ManagerKept(m, ids, strings)
    ensures
      var (n, r) := Refreshed(m, lifetime, refresh, now, random);
      match Target(m.store, refresh, now)
      case None => n.store == m.store && r.Err? && !UsesUp(r)
      case Some(t) =>
        var base, user := Revoked(m.store, t.id), t.userId;
        && Alive(m.store, t.id) && UsesUp(r)
        && (r.Ok? <==> user in base.users && random.Some?)
        && n.store == (if r.Ok? then Stored(base, NewToken(base.users[user], random.value, now + lifetime)) else base)
        && (r.Ok? ==> r.value == Info(base.users[user], random.value, now + lifetime))
  {
    var found := ByRefresh(m.store, refresh);
    if found.Ok? {
      AskKeeps(m, ids, strings, found.value.id, now);
    }
  }

  /** Only the token a call creates comes alive, and only its refresh string enters the index. */
  ghost predicate OnlyNew(s: Store, s': Store, r: Random) {
    && (forall id <- s'.tokens :: Alive(s', id) ==> Alive(s, id) || (r.Some? && id == r.value.0))
    && (forall x <- s'.refresh :: x in s.refresh || (r.Some? && x == r.value.1))
  }

  lemma {:induction false} RevokedAddsNothing(s: Store, id: string, r: Random)
    ensures OnlyNew(s, Revoked(s, id), r)
  {}

  lemma {:induction false} StoredAddsOnlyNew(s: Store, s': Store, t: TokenData, r: Random)
    requires OnlyNew(s, s', r) && r == Some((t.id, t.refresh))
    ensures OnlyNew(s, Stored(s', t), r)
  {}

  lemma {:induction false} StepAddsOnlyNew(lifetime: int, m: Manager, ids: set<string>, strings: set<string>, e: Event)
    requires ManagerKept(m, ids, strings)
    ensures OnlyNew(m.store, Step(lifetime, m, e).store, Strings(e.op))
  {
    match e.op
    case Login(user, d, random) =>
      if random.Some? {
        StoredAddsOnlyNew(m.store, m.store, NewToken(user, random.value, e.now + if d <= 0 then lifetime else d),
          random);
      }
    case Validate(access) => ValidatedKeeps(m, ids, strings, access, e.now);
    case Refresh(refresh, random) =>
      RefreshMeans(m, ids, strings, lifetime, refresh, e.now, random);
      var target := Target(m.store, refresh, e.now);
      if target.Some? {
        var base, user := Revoked(m.store, target.value.id), target.value.userId;
        RevokedAddsNothing(m.store, target.value.id, random);
        if user in base.users && random.Some? {
          StoredAddsOnlyNew(m.store, base, NewToken(base.users[user], random.value, e.now + lifetime), random);
        }
      }
    case Revoke(access) =>
      if access.Encoded? {
        RevokedAddsNothing(m.store, access.claims.tokenId, Strings(e.op));
      }
    case _ =>
  }

  // What holds of every run.

  ghost predicate ChainsKept(w: World) {
    && (forall id <- w.m.store.tokens :: id in w.login && w.login[id] < w.logins && id in w.granted)
    && (forall i <- w.m.store.tokens, j <- w.m.store.tokens ::
          Alive(w.m.store, i) && Alive(w.m.store, j) && w.login[i] == w.login[j] ==> i == j)
  }

  ghost predicate SpentKept(w: World, ids: set<string>, strings: set<string>) {
    && (forall k | 0 <= k < |w.redeemed| :: w.redeemed[k] in strings && w.redeemed[k] !in w.m.store.refresh)
    && (forall j, k | 0 <= j < k < |w.redeemed| :: w.redeemed[j] != w.redeemed[k])
    && (forall id <- w.revoked :: Dead(w.m.store, ids, id))
  }

  ghost predicate Kept(w: World, ids: set<string>, strings: set<string>) {
    ManagerKept(w.m, ids, strings) && ChainsKept(w) && SpentKept(w, ids, strings)
  }

  /** Nothing alive is added. */
  lemma {:induction false} ChainsShrink(w: World, v: World)
    requires ChainsKept(w) && OnlyNew(w.m.store, v.m.store, None) && v.m.store.tokens.Keys <= w.m.store.tokens.Keys
    requires v.login == w.login && v.logins == w.logins && w.granted.Keys <= v.granted.Keys
    ensures ChainsKept(v)
  {}

  /** The token `id` is added, on a login which nobody else alive descends from. */
  lemma {:induction false} ChainsGrow(w: World, v: World, id: string, l: nat)
    requires ChainsKept(w) && id !in w.m.store.tokens && v.m.store.tokens.Keys <= w.m.store.tokens.Keys + {id}
    requires forall i <- v.m.store.tokens :: Alive(v.m.store, i) ==> Alive(w.m.store, i) || i == id
    requires w.granted.Keys + {id} <= v.granted.Keys
    requires v.login == w.login[id := l] && l < v.logins && w.logins <= v.logins
    requires forall i <- v.m.store.tokens :: Alive(v.m.store, i) && i != id ==> v.login[i] != l
    ensures ChainsKept(v)
  {}

  lemma {:induction false} RefreshKeepsChains(lifetime: int, w: World, ids: set<string>, strings: set<string>, e: Event)
    requires Kept(w, ids, strings) && NewStrings(ids, strings, Strings(e.op)) && e.op.Refresh?
    ensures ChainsKept(Apply(lifetime, w, e))
  {
    var (refresh, random) := (e.op.refresh, e.op.random);
    var v := Apply(lifetime, w, e);
    RefreshMeans(w.m, ids, strings, lifetime, refresh, e.now, random);
    StepAddsOnlyNew(lifetime, w.m, ids, strings, e);
    if Reply(lifetime, w.m, e).Some? {
      var t := Target(w.m.store, refresh, e.now).value;
      assert !Alive(v.m.store, t.id) && t.id in w.login;
      ChainsGrow(w, v, random.value.0, w.login[t.id]);
    } else {
      ChainsShrink(w, v);
    }
  }

  lemma {:induction false} LoginKeepsChains(
      lifetime: int, w: World, ids: set<string>, strings: set<string>, e: Event)
    requires Kept(w, ids, strings) && NewStrings(ids, strings, Strings(e.op)) && e.op.Login?
    ensures ChainsKept(Apply(lifetime, w, e))
  {
    var v := Apply(lifetime, w, e);
    StepAddsOnlyNew(lifetime, w.m, ids, strings, e);
    if e.op.random.Some? {
      ChainsGrow(w, v, e.op.random.value.0, w.logins);
    } else {
      ChainsShrink(w, v);
    }
  }

  lemma {:induction false} StepKeepsChains(
      lifetime: int, w: World, ids: set<string>, strings: set<string>, e: Event)
    requires Kept(w, ids, strings) && NewStrings(ids, strings, Strings(e.op))
    ensures ChainsKept(Apply(lifetime, w, e))
  {
    match e.op
    case Login(_, _, _) => LoginKeepsChains(lifetime, w, ids, strings, e);
    case Refresh(_, _) => RefreshKeepsChains(lifetime, w, ids, strings, e);
    case _ =>
      StepAddsOnlyNew(lifetime, w.m, ids, strings, e);
      ChainsShrink(w, Apply(lifetime, w, e));
  }

  /** Dead tokens and spent refresh strings stay so. */
  lemma {:induction false} SpentStays(s: Store, s': Store, ids: set<string>, strings: set<string>, r: Random)
    requires OnlyNew(s, s', r) && NewStrings(ids, strings, r)
    ensures forall id :: Dead(s, ids, id) ==> Dead(s', IdsAfter(ids, r), id)
    ensures forall x <- strings :: x !in s.refresh ==> x !in s'.refresh
  {}

  lemma {:induction false} RefreshKeepsSpent(lifetime: int, w: World, ids: set<string>, strings: set<string>, e: Event)
    requires Kept(w, ids, strings) && NewStrings(ids, strings, Strings(e.op)) && e.op.Refresh?
    ensures SpentKept(Apply(lifetime, w, e), IdsAfter(ids, Strings(e.op)), StringsAfter(strings, Strings(e.op)))
  {
    RefreshMeans(w.m, ids, strings, lifetime, e.op.refresh, e.now, e.op.random);
    StepAddsOnlyNew(lifetime, w.m, ids, strings, e);
    SpentStays(w.m.store, Step(lifetime, w.m, e).store, ids, strings, e.op.random);
  }

  lemma {:induction false} StepKeepsSpent(lifetime: int, w: World, ids: set<string>, strings: set<string>, e: Event)
    requires Kept(w, ids, strings) && NewStrings(ids, strings, Strings(e.op))
    ensures SpentKept(Apply(lifetime, w, e), IdsAfter(ids, Strings(e.op)), StringsAfter(strings, Strings(e.op)))
  {
    if e.op.Refresh? {
      RefreshKeepsSpent(lifetime, w, ids, strings, e);
    } else {
      StepAddsOnlyNew(lifetime, w.m, ids, strings, e);
      SpentStays(w.m.store, Step(lifetime, w.m, e).store, ids, strings, Strings(e.op));
    }
  }

  lemma {:induction false} StepKeeps(lifetime: int, w: World, ids: set<string>, strings: set<string>, e: Event)
    requires Kept(w, ids, strings) && NewStrings(ids, strings, Strings(e.op))
    ensures Kept(Apply(lifetime, w, e), IdsAfter(ids, Strings(e.op)), StringsAfter(strings, Strings(e.op)))
  {
    StepKeepsManager(lifetime, w.m, ids, strings, e);
    StepKeepsChains(lifetime, w, ids, strings, e);
    StepKeepsSpent(lifetime, w, ids, strings, e);
  }

  lemma {:induction false} EveryRunKeeps(
      lifetime: int, w: World, clock: int, ids: set<string>, strings: set<string>, events: seq<Event>)
      returns (ids': set<string>, strings': set<string>)
    requires Kept(w, ids, strings) && Legal(clock, ids, strings, events)
    ensures Kept(Play(lifetime, w, events), ids', strings')
    decreases |events|
  {
    if events == [] {
      return ids, strings;
    }
    var r := Strings(events[0].op);
    StepKeeps(lifetime, w, ids, strings, events[0]);
    ids', strings' := EveryRunKeeps(
      lifetime, Apply(lifetime, w, events[0]), events[0].now, IdsAfter(ids, r), StringsAfter(strings, r), events[1..]);
  }

  lemma {:induction false} AcceptedIsAlive(m: Manager, access: Access, now: int)
    requires Validated(m, access, now).1.Ok?
    ensures access.Encoded? && access.signed && Alive(m.store, access.claims.tokenId)
  {}

  lemma {:induction false} RedeemableIsAlive(
      m: Manager, ids: set<string>, strings: set<string>, lifetime: int, refresh: string, now: int, random: Random)
    requires ManagerKept(m, ids, strings) && Refreshed(m, lifetime, refresh, now, random).1.Ok?
    ensures refresh in m.store.refresh && Alive(m.store, m.store.refresh[refresh])
  {}

  /** Every index entry leads to a stored, unrevoked token carrying that refresh string. */
  lemma {:induction false} IndexPointsToLiveTokens(
      lifetime: int, users: map<string, User>, blacklist: bool, clock: int, events: seq<Event>, refresh: string)
    requires Legal(clock, {}, {}, events)
    requires refresh in Play(lifetime, Start(users, blacklist), events).m.store.refresh
    ensures
      var s := Play(lifetime, Start(users, blacklist), events).m.store;
      var id := s.refresh[refresh];
      id in s.tokens && !s.tokens[id].revoked && s.tokens[id].refresh == refresh && s.tokens[id].id == id
  {
    var _, _ := EveryRunKeeps(lifetime, Start(users, blacklist), clock, {}, {}, events);
  }

  /** No refresh string is redeemed twice, and none that has been redeemed would be again. */
  lemma {:induction false} RedeemedAtMostOnce(
      lifetime: int, users: map<string, User>, blacklist: bool, clock: int, events: seq<Event>)
    requires Legal(clock, {}, {}, events)
    ensures
      var w := Play(lifetime, Start(users, blacklist), events);
      && (forall j, k | 0 <= j < k < |w.redeemed| :: w.redeemed[j] != w.redeemed[k])
      && (forall k, d, now, random | 0 <= k < |w.redeemed| :: Refreshed(w.m, d, w.redeemed[k], now, random).1.Err?)
  {
    var _, _ := EveryRunKeeps(lifetime, Start(users, blacklist), clock, {}, {}, events);
  }

  /** A signature that verifies is on a token that was issued: it cannot be forged. */
  predicate Genuine(w: World, a: Access) {
    a.Encoded? && a.signed ==> a.claims.tokenId in w.granted && w.granted[a.claims.tokenId].access == a
  }

  /**
   * Two access tokens of one login that are both accepted have the same identity; and as signatures cannot be
   * forged, they are the same token.
   */
  lemma {:induction false} OneAcceptedTokenPerLogin(
      lifetime: int, users: map<string, User>, blacklist: bool, clock: int, events: seq<Event>, a: Access, b: Access,
      now: int)
    requires Legal(clock, {}, {}, events)
    ensures
      var w := Play(lifetime, Start(users, blacklist), events);
      Validated(w.m, a, now).1.Ok? && Validated(w.m, b, now).1.Ok? ==>
        && a.claims.tokenId in w.login && b.claims.tokenId in w.login
        && (w.login[a.claims.tokenId] == w.login[b.claims.tokenId] ==>
             a.claims.tokenId == b.claims.tokenId && (Genuine(w, a) && Genuine(w, b) ==> a == b))
  {
    var ids, strings := EveryRunKeeps(lifetime, Start(users, blacklist), clock, {}, {}, events);
    AcceptedOfOneLogin(Play(lifetime, Start(users, blacklist), events), a, b, now);
  }

  lemma {:induction false} AcceptedOfOneLogin(w: World, a: Access, b: Access, now: int)
    requires ChainsKept(w)
    ensures
      Validated(w.m, a, now).1.Ok? && Validated(w.m, b, now).1.Ok? ==>
        && a.claims.tokenId in w.login && b.claims.tokenId in w.login
        && (w.login[a.claims.tokenId] == w.login[b.claims.tokenId] ==>
             a.claims.tokenId == b.claims.tokenId && (Genuine(w, a) && Genuine(w, b) ==> a == b))
  {
    if Validated(w.m, a, now).1.Ok? && Validated(w.m, b, now).1.Ok? {
      AcceptedIsAlive(w.m, a, now);
      AcceptedIsAlive(w.m, b, now);
    }
  }

  lemma {:induction false} RevokedIsRejected(w: World, ids: set<string>, strings: set<string>, access: Access, now: int)
    requires SpentKept(w, ids, strings)
    ensures access.Encoded? && access.claims.tokenId in w.revoked ==> Validated(w.m, access, now).1.Err?
  {
    if Validated(w.m, access, now).1.Ok? {
      AcceptedIsAlive(w.m, access, now);
    }
  }

  lemma {:induction false} RevokedIsNotRefreshed(
      w: World, ids: set<string>, strings: set<string>, lifetime: int, refresh: string, now: int, random: Random)
    requires Kept(w, ids, strings)
    ensures Refreshed(w.m, lifetime, refresh, now, random).1.Ok? ==> w.m.store.refresh[refresh] !in w.revoked
  {
    if Refreshed(w.m, lifetime, refresh, now, random).1.Ok? {
      RedeemableIsAlive(w.m, ids, strings, lifetime, refresh, now, random);
    }
  }

  /**
   * Once revoked, a token is never accepted and never refreshed, whatever cleanups ran since and whether
   * or not its blacklist entry is still there.
   */
  lemma {:induction false} RevokedForever(
      lifetime: int, users: map<string, User>, blacklist: bool, clock: int, events: seq<Event>, access: Access,
      refresh: string,
      now: int, random: Random)
    requires Legal(clock, {}, {}, events)
    ensures
      var w := Play(lifetime, Start(users, blacklist), events);
      && (access.Encoded? && access.claims.tokenId in w.revoked ==> Validated(w.m, access, now).1.Err?)
      && (Refreshed(w.m, lifetime, refresh, now, random).1.Ok? ==> w.m.store.refresh[refresh] !in w.revoked)
  {
    var ids, strings := EveryRunKeeps(lifetime, Start(users, blacklist), clock, {}, {}, events);
    var w := Play(lifetime, Start(users, blacklist), events);
    RevokedIsRejected(w, ids, strings, access, now);
    RevokedIsNotRefreshed(w, ids, strings, lifetime, refresh, now, random);
  }

  // Cleanup and the blacklist never change a reply.

  /** The tokens that would be accepted. */
  function Live(s: Store, now: int): map<string, TokenData> {
    map id | id in s.tokens && Valid(s, id, now) :: s.tokens[id]
  }

  ghost predicate Same(s: Store, t: Store, now: int) {
    Live(s, now) == Live(t, now) && s.users == t.users
  }

  lemma {:induction false} SameLater(s: Store, t: Store, now: int, later: int)
    requires Same(s, t, now) && now <= later
    ensures Same(s, t, later)
  {
    forall id ensures id in Live(s, later) <==> id in Live(t, later) {
      assert id in Live(s, now) <==> id in Live(t, now);
      assert id in Live(s, now) ==> Live(s, now)[id] == Live(t, now)[id];
    }
    forall id <- Live(s, later) ensures Live(s, later)[id] == Live(t, later)[id] {
      assert Live(s, now)[id] == Live(t, now)[id];
    }
  }

  lemma {:induction false} LiveRevoked(s: Store, id: string, now: int)
    ensures Live(Revoked(s, id), now) == Live(s, now) - {id}
  {}

  lemma {:induction false} LiveStored(s: Store, t: TokenData, now: int)
    requires t.id !in s.tokens && !t.revoked
    ensures Live(Stored(s, t), now) == if t.expiresAt >= now then Live(s, now)[t.id := t] else Live(s, now)
  {}

  lemma {:induction false} LiveCleaned(s: Store, at: int, now: int)
    requires at <= now
    ensures Live(CleanedStore(s, at), now) == Live(s, now)
  {}

  lemma {:induction false} SameRevoked(s: Store, t: Store, id: string, now: int)
    requires Same(s, t, now)
    ensures Same(Revoked(s, id), Revoked(t, id), now)
  {
    LiveRevoked(s, id, now);
    LiveRevoked(t, id, now);
  }

  lemma {:induction false} SameStored(s: Store, t: Store, token: TokenData, now: int)
    requires Same(s, t, now) && token.id !in s.tokens && token.id !in t.tokens && !token.revoked
    ensures Same(Stored(s, token), Stored(t, token), now)
  {
    LiveStored(s, token, now);
    LiveStored(t, token, now);
  }

  lemma {:induction false} SameUsers(s: Store, t: Store, users: map<string, User>, now: int)
    requires Same(s, t, now)
    ensures Same(s.(users := users), t.(users := users), now)
  {
    assert Live(s.(users := users), now) == Live(s, now);
    assert Live(t.(users := users), now) == Live(t, now);
  }

  lemma {:induction false} TargetIsLive(
      m: Manager, n: Manager, ids: set<string>, strings: set<string>, refresh: string, now: int)
    requires ManagerKept(m, ids, strings) && ManagerKept(n, ids, strings) && Same(m.store, n.store, now)
    ensures Target(m.store, refresh, now).Some? ==> Target(n.store, refresh, now) == Target(m.store, refresh, now)
  {
    var t := Target(m.store, refresh, now);
    if t.Some? {
      assert Live(m.store, now)[t.value.id] == Live(n.store, now)[t.value.id];
    }
  }

  lemma {:induction false} SameRefresh(
      lifetime: int, m: Manager, n: Manager, ids: set<string>, strings: set<string>, refresh: string, now: int,
      random: Random)
    requires ManagerKept(m, ids, strings) && ManagerKept(n, ids, strings) && Same(m.store, n.store, now)
    requires NewStrings(ids, strings, random)
    ensures Same(Refreshed(m, lifetime, refresh, now, random).0.store,
      Refreshed(n, lifetime, refresh, now, random).0.store, now)
    ensures Reply(lifetime, m, Event(Refresh(refresh, random), now)) ==
      Reply(lifetime, n, Event(Refresh(refresh, random), now))
  {
    RefreshMeans(m, ids, strings, lifetime, refresh, now, random);
    RefreshMeans(n, ids, strings, lifetime, refresh, now, random);
    TargetIsLive(m, n, ids, strings, refresh, now);
    TargetIsLive(n, m, ids, strings, refresh, now);
    var target := Target(m.store, refresh, now);
    if target.Some? {
      var t := target.value;
      var s, u := Revoked(m.store, t.id), Revoked(n.store, t.id);
      SameRevoked(m.store, n.store, t.id, now);
      if t.userId in s.users && random.Some? {
        SameStored(s, u, NewToken(s.users[t.userId], random.value, now + lifetime), now);
      }
    }
  }

  lemma {:induction false} SameValidate(
      m: Manager, n: Manager, ids: set<string>, strings: set<string>, access: Access, now: int)
    requires ManagerKept(m, ids, strings) && ManagerKept(n, ids, strings) && Same(m.store, n.store, now)
    ensures Same(Validated(m, access, now).0.store, Validated(n, access, now).0.store, now)
    ensures Validated(m, access, now).1.Ok? <==> Validated(n, access, now).1.Ok?
  {
    if access.Encoded? {
      AskKeeps(m, ids, strings, access.claims.tokenId, now);
      AskKeeps(n, ids, strings, access.claims.tokenId, now);
      assert access.claims.tokenId in Live(m.store, now) <==> access.claims.tokenId in Live(n.store, now);
    }
  }

  lemma {:induction false} SameLogin(
      m: Manager, n: Manager, ids: set<string>, strings: set<string>, user: User, lifetime: int, now: int,
      random: Random)
    requires ManagerKept(m, ids, strings) && ManagerKept(n, ids, strings) && Same(m.store, n.store, now)
    requires NewStrings(ids, strings, random)
    ensures Same(
      Generated(m, user, lifetime, now, random).0.store, Generated(n, user, lifetime, now, random).0.store, now)
  {
    if random.Some? {
      SameStored(m.store, n.store, NewToken(user, random.value, now + lifetime), now);
    }
  }

  lemma {:induction false} SameWithdrawn(m: Manager, n: Manager, access: Access, now: int)
    requires Same(m.store, n.store, now)
    ensures Same(Withdrawn(m, access, now).0.store, Withdrawn(n, access, now).0.store, now)
  {
    if access.Encoded? {
      SameRevoked(m.store, n.store, access.claims.tokenId, now);
    }
  }

  /** The same call on two managers whose live tokens agree gets the same reply and keeps the agreement. */
  lemma {:induction false} SameStep(
      lifetime: int, m: Manager, n: Manager, ids: set<string>, strings: set<string>, e: Event)
    requires ManagerKept(m, ids, strings) && ManagerKept(n, ids, strings) && Same(m.store, n.store, e.now)
    requires NewStrings(ids, strings, Strings(e.op)) && !e.op.Cleanup?
    ensures Same(Step(lifetime, m, e).store, Step(lifetime, n, e).store, e.now)
    ensures Reply(lifetime, m, e) == Reply(lifetime, n, e)
  {
    match e.op
    case Login(user, d, random) =>
      SameLogin(m, n, ids, strings, user, if d <= 0 then lifetime else d, e.now, random);
    case Validate(access) => SameValidate(m, n, ids, strings, access, e.now);
    case Refresh(refresh, random) => SameRefresh(lifetime, m, n, ids, strings, refresh, e.now, random);
    case Revoke(access) => SameWithdrawn(m, n, access, e.now);
    case AddUser(user) =>
      SameUsers(m.store, n.store, m.store.users[user.id := user], e.now);
  }

  /** A run without its cleanups. */
  function Strip(events: seq<Event>): seq<Event>
    decreases |events|
  {
    if events == [] then []
    else if events[0].op.Cleanup? then Strip(events[1..])
    else [events[0]] + Strip(events[1..])
  }

  /** The replies to the calls of a run, cleanups aside. */
  function Replies(lifetime: int, m: Manager, events: seq<Event>): seq<Option<Answer>>
    decreases |events|
  {
    if events == [] then []
    else
      (if events[0].op.Cleanup? then [] else [Reply(lifetime, m, events[0])])
      + Replies(lifetime, Step(lifetime, m, events[0]), events[1..])
  }

  lemma {:induction false} SameCleanup(m: Manager, n: Manager, at: int, now: int, later: int)
    requires Same(m.store, n.store, now) && now <= later && at <= later
    ensures Same(Cleaned(m, at).store, n.store, later) && Same(n.store, Cleaned(m, at).store, later)
  {
    SameLater(m.store, n.store, now, later);
    LiveCleaned(m.store, at, later);
  }

  function Max(a: int, b: int): int {
    if a <= b then b else a
  }

  lemma {:induction false} SameReplies(
      lifetime: int, m: Manager, n: Manager, c: int, d: int, ids: set<string>, strings: set<string>,
      es: seq<Event>, fs: seq<Event>)
    requires ManagerKept(m, ids, strings) && ManagerKept(n, ids, strings) && Same(m.store, n.store, Max(c, d))
    requires Legal(c, ids, strings, es) && Legal(d, ids, strings, fs) && Strip(es) == Strip(fs)
    ensures Replies(lifetime, m, es) == Replies(lifetime, n, fs)
    decreases |es| + |fs|
  {
    if es != [] && es[0].op.Cleanup? {
      var at := es[0].now;
      StepKeepsManager(lifetime, m, ids, strings, es[0]);
      SameCleanup(m, n, at, Max(c, d), Max(at, d));
      SameReplies(lifetime, Cleaned(m, at), n, at, d, ids, strings, es[1..], fs);
      assert [] + Replies(lifetime, Cleaned(m, at), es[1..]) == Replies(lifetime, Cleaned(m, at), es[1..]);
    } else if fs != [] && fs[0].op.Cleanup? {
      var at := fs[0].now;
      StepKeepsManager(lifetime, n, ids, strings, fs[0]);
      SameCleanup(n, m, at, Max(c, d), Max(c, at));
      SameReplies(lifetime, m, Cleaned(n, at), c, at, ids, strings, es, fs[1..]);
      assert [] + Replies(lifetime, Cleaned(n, at), fs[1..]) == Replies(lifetime, Cleaned(n, at), fs[1..]);
    } else if es != [] {
      var e := es[0];
      assert Strip(es)[0] == e && Strip(fs)[0] == fs[0];
      assert Strip(es)[1..] == Strip(es[1..]) && Strip(fs)[1..] == Strip(fs[1..]);
      SameLater(m.store, n.store, Max(c, d), e.now);
      SameStep(lifetime, m, n, ids, strings, e);
      StepKeepsManager(lifetime, m, ids, strings, e);
      StepKeepsManager(lifetime, n, ids, strings, e);
      SameReplies(lifetime, Step(lifetime, m, e), Step(lifetime, n, e), e.now, e.now,
        IdsAfter(ids, Strings(e.op)), StringsAfter(strings, Strings(e.op)), es[1..], fs[1..]);
    }
  }

  /**
   * Two runs of the same calls with cleanups inserted anywhere in either, each with or without a
   * blacklist, get the same replies: what is issued, what is accepted and what is refused.
   */
  lemma {:induction false} CleanupAndBlacklistAreInvisible(
      lifetime: int, users: map<string, User>, a: bool, b: bool, clock: int, es: seq<Event>, fs: seq<Event>)
    requires Legal(clock, {}, {}, es) && Legal(clock, {}, {}, fs) && Strip(es) == Strip(fs)
    ensures Replies(lifetime, Start(users, a).m, es) == Replies(lifetime, Start(users, b).m, fs)
  {
    SameReplies(lifetime, Start(users, a).m, Start(users, b).m, clock, clock, {}, {}, es, fs);
  }
}
