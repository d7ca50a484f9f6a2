/** What the token manager accepts after any run, from what was issued, used up and revoked in it. */
module TokenAcceptance {
  import opened Prelude
  import opened TokenManager
  import opened TokenRuns

  /** A token issued in the run was revoked, or its refresh string used up. */
  predicate Ended(w: World, id: string)
    requires id in w.granted
  {
    id in w.revoked || w.granted[id].refresh in w.consumed
  }

  /** A token as it was issued: genuine, for its identity, with one expiry. */
  predicate WellIssued(g: TokenInfo, id: string) {
    g.access.Encoded? && g.access.signed && g.access.claims.tokenId == id && g.access.claims.expiresAt == g.expiresAt
  }

  /** What the store holds of a token issued in the run; it is forgotten only once expired or ended. */
  predicate GrantKept(w: World, clock: int, id: string)
    requires id in w.granted
  {
    var g := w.granted[id];
    if id in w.m.store.tokens then
      var t := w.m.store.tokens[id];
      t.expiresAt == g.expiresAt && t.refresh == g.refresh && (t.revoked <==> Ended(w, id))
    else g.expiresAt < clock || Ended(w, id)
  }

  ghost predicate GrantsKept(w: World, ids: set<string>, strings: set<string>, clock: int) {
    && (forall id <- w.granted ::
          id in ids && w.granted[id].refresh in strings && WellIssued(w.granted[id], id) && GrantKept(w, clock, id))
    && (forall i <- w.granted, j <- w.granted :: w.granted[i].refresh == w.granted[j].refresh ==> i == j)
    && w.consumed <= strings && w.revoked <= ids && w.m.store.tokens.Keys <= w.granted.Keys
  }

  // Each kind of call keeps what is known of every token.

  /** A token issued to fresh strings, and everything else as it was. */
  lemma {:induction false} GrantAdded(
      w: World, v: World, ids: set<string>, strings: set<string>, clock: int, now: int, user: User,
      f: (string, string), until: int)
    requires GrantsKept(w, ids, strings, clock) && clock <= now
    requires f.0 !in ids && f.1 !in strings && f.1 != ""
    requires v.m.store == Stored(w.m.store, NewToken(user, f, until))
    requires v.revoked == w.revoked && v.consumed == w.consumed
    requires v.granted == w.granted[f.0 := Info(user, f, until)]
    ensures GrantsKept(v, ids + {f.0}, strings + {f.1}, now)
  {
    forall id <- v.granted ensures GrantKept(v, now, id) {
      if id != f.0 {
        assert GrantKept(w, clock, id);
      }
    }
  }

  /** The store forgets a token's revocation never, and a call that changes nothing here keeps everything. */
  lemma {:induction false} GrantsLater(
      w: World, v: World, ids: set<string>, strings: set<string>, clock: int, now: int)
    requires GrantsKept(w, ids, strings, clock) && clock <= now
    requires v.m.store.tokens == w.m.store.tokens && v.granted == w.granted
    requires v.revoked == w.revoked && v.consumed == w.consumed
    ensures GrantsKept(v, ids, strings, now)
  {
    forall id <- v.granted ensures GrantKept(v, now, id) {
      assert GrantKept(w, clock, id);
    }
  }

  lemma {:induction false} MoreIds(
      w: World, ids: set<string>, strings: set<string>, ids': set<string>, strings': set<string>, clock: int)
    requires GrantsKept(w, ids, strings, clock) && ids <= ids' && strings <= strings'
    ensures GrantsKept(w, ids', strings', clock)
  {}

  /** A stored token is given up, by its revocation or by the use of its refresh string. */
  lemma {:induction false} GrantEnded(
      w: World, v: World, ids: set<string>, strings: set<string>, clock: int, now: int, id: string)
    requires GrantsKept(w, ids, strings, clock) && clock <= now
    requires id in w.m.store.tokens && v.m.store.tokens == Revoked(w.m.store, id).tokens && v.granted == w.granted
    requires
      || (v.revoked == w.revoked + {id} && v.consumed == w.consumed)
      || (v.revoked == w.revoked && v.consumed == w.consumed + {w.m.store.tokens[id].refresh})
    ensures GrantsKept(v, ids, strings, now)
  {
    assert id in w.granted && GrantKept(w, clock, id);
    forall i <- v.granted ensures GrantKept(v, now, i) {
      assert GrantKept(w, clock, i);
    }
  }

  lemma {:induction false} GrantsCleaned(
      w: World, v: World, ids: set<string>, strings: set<string>, clock: int, now: int)
    requires GrantsKept(w, ids, strings, clock) && clock <= now
    requires v.m.store == CleanedStore(w.m.store, now) && v.granted == w.granted
    requires v.revoked == w.revoked && v.consumed == w.consumed
    ensures GrantsKept(v, ids, strings, now)
  {
    forall id <- v.granted ensures GrantKept(v, now, id) {
      assert GrantKept(w, clock, id);
    }
  }

  lemma {:induction false} LoginKeepsGrants(
      lifetime: int, w: World, ids: set<string>, strings: set<string>, clock: int, e: Event)
    requires Kept(w, ids, strings) && GrantsKept(w, ids, strings, clock) && clock <= e.now && e.op.Login?
    requires NewStrings(ids, strings, e.op.random)
    ensures GrantsKept(Apply(lifetime, w, e), IdsAfter(ids, e.op.random), StringsAfter(strings, e.op.random), e.now)
  {
    var v := Apply(lifetime, w, e);
    if e.op.random.Some? {
      var until := e.now + if e.op.lifetime <= 0 then lifetime else e.op.lifetime;
      GrantAdded(w, v, ids, strings, clock, e.now, e.op.user, e.op.random.value, until);
    } else {
      GrantsLater(w, v, ids, strings, clock, e.now);
    }
  }

  /** The old token is given up, and on success a new one issued. */
  lemma {:induction false} RotationKeepsGrants(
      w: World, v: World, ids: set<string>, strings: set<string>, clock: int, now: int, id: string, refresh: string,
      user: User, random: Random, until: int, ok: bool)
    requires GrantsKept(w, ids, strings, clock) && clock <= now && NewStrings(ids, strings, random)
    requires id in w.m.store.tokens && w.m.store.tokens[id].refresh == refresh && (ok ==> random.Some?)
    requires v.revoked == w.revoked && v.consumed == w.consumed + {refresh}
    requires
      var base := Revoked(w.m.store, id);
      v.m.store == if ok then Stored(base, NewToken(user, random.value, until)) else base
    requires v.granted == if ok then w.granted[random.value.0 := Info(user, random.value, until)] else w.granted
    ensures GrantsKept(v, IdsAfter(ids, random), StringsAfter(strings, random), now)
  {
    var u := w.(m := w.m.(store := Revoked(w.m.store, id)), consumed := w.consumed + {refresh});
    GrantEnded(w, u, ids, strings, clock, now, id);
    if ok {
      GrantAdded(u, v, ids, strings, now, now, user, random.value, until);
    } else {
      GrantsLater(u, v, ids, strings, now, now);
      MoreIds(v, ids, strings, IdsAfter(ids, random), StringsAfter(strings, random), now);
    }
  }

  /** What a refresh changes in the bookkeeping: its answer says what was used up and what was issued. */
  ghost predicate Rotated(w: World, v: World, n: Manager, refresh: string, answer: Result<TokenInfo>) {
    && v.m == n && v.revoked == w.revoked
    && v.consumed == (if UsesUp(answer) then w.consumed + {refresh} else w.consumed)
    && (answer.Ok? ==> answer.value.access.Encoded?)
    && v.granted ==
         if answer.Ok? then w.granted[answer.value.access.claims.tokenId := answer.value] else w.granted
  }

  lemma {:induction false} RefreshRotates(lifetime: int, w: World, e: Event)
    requires e.op.Refresh?
    ensures
      var (n, answer) := Refreshed(w.m, lifetime, e.op.refresh, e.now, e.op.random);
      Rotated(w, Apply(lifetime, w, e), n, e.op.refresh, answer)
  {}

  lemma {:induction false} RotatedKeepsGrants(
      lifetime: int, w: World, v: World, ids: set<string>, strings: set<string>, clock: int, refresh: string,
      now: int, random: Random)
    requires Kept(w, ids, strings) && GrantsKept(w, ids, strings, clock) && clock <= now
    requires NewStrings(ids, strings, random)
    requires
      var (n, answer) := Refreshed(w.m, lifetime, refresh, now, random);
      Rotated(w, v, n, refresh, answer)
    ensures GrantsKept(v, IdsAfter(ids, random), StringsAfter(strings, random), now)
  {
    RefreshMeans(w.m, ids, strings, lifetime, refresh, now, random);
    var target := Target(w.m.store, refresh, now);
    if target.None? {
      GrantsLater(w, v, ids, strings, clock, now);
      MoreIds(v, ids, strings, IdsAfter(ids, random), StringsAfter(strings, random), now);
    } else {
      var t, ok := target.value, Refreshed(w.m, lifetime, refresh, now, random).1.Ok?;
      var user := if t.userId in w.m.store.users then w.m.store.users[t.userId] else User("", "");
      RotationKeepsGrants(w, v, ids, strings, clock, now, t.id, refresh, user, random, now + lifetime, ok);
    }
  }

  lemma {:induction false} RefreshKeepsGrants(
      lifetime: int, w: World, ids: set<string>, strings: set<string>, clock: int, e: Event)
    requires Kept(w, ids, strings) && GrantsKept(w, ids, strings, clock) && clock <= e.now && e.op.Refresh?
    requires NewStrings(ids, strings, e.op.random)
    ensures GrantsKept(Apply(lifetime, w, e), IdsAfter(ids, e.op.random), StringsAfter(strings, e.op.random), e.now)
  {
    var v := Apply(lifetime, w, e);
    RefreshRotates(lifetime, w, e);
    RotatedKeepsGrants(lifetime, w, v, ids, strings, clock, e.op.refresh, e.now, e.op.random);
  }

  lemma {:induction false} RevokeKeepsGrants(
      lifetime: int, w: World, ids: set<string>, strings: set<string>, clock: int, e: Event)
    requires GrantsKept(w, ids, strings, clock) && clock <= e.now && e.op.Revoke?
    ensures GrantsKept(Apply(lifetime, w, e), ids, strings, e.now)
  {
    var v := Apply(lifetime, w, e);
    var access := e.op.access;
    if access.Encoded? && access.claims.tokenId in w.m.store.tokens {
      GrantEnded(w, v, ids, strings, clock, e.now, access.claims.tokenId);
    } else {
      GrantsLater(w, v, ids, strings, clock, e.now);
    }
  }

  lemma {:induction false} StepKeepsGrants(
      lifetime: int, w: World, ids: set<string>, strings: set<string>, clock: int, e: Event)
    requires Kept(w, ids, strings) && GrantsKept(w, ids, strings, clock) && clock <= e.now
    requires NewStrings(ids, strings, Strings(e.op))
    ensures GrantsKept(
      Apply(lifetime, w, e), IdsAfter(ids, Strings(e.op)), StringsAfter(strings, Strings(e.op)), e.now)
  {
    var v := Apply(lifetime, w, e);
    match e.op
    case Login(_, _, _) => LoginKeepsGrants(lifetime, w, ids, strings, clock, e);
    case Refresh(_, _) => RefreshKeepsGrants(lifetime, w, ids, strings, clock, e);
    case Revoke(_) => RevokeKeepsGrants(lifetime, w, ids, strings, clock, e);
    case Cleanup => GrantsCleaned(w, v, ids, strings, clock, e.now);
    case Validate(access) =>
      ValidatedKeeps(w.m, ids, strings, access, e.now);
      GrantsLater(w, v, ids, strings, clock, e.now);
    case AddUser(_) => GrantsLater(w, v, ids, strings, clock, e.now);
  }

  /** The time of the last call. */
  function End(clock: int, events: seq<Event>): int {
    if events == [] then clock else events[|events| - 1].now
  }

  lemma {:induction false} RunKeepsGrants(
      lifetime: int, w: World, clock: int, ids: set<string>, strings: set<string>, events: seq<Event>,
      more: seq<Event>)
      returns (ids': set<string>, strings': set<string>)
    requires Kept(w, ids, strings) && GrantsKept(w, ids, strings, clock)
    requires Legal(clock, ids, strings, events + more)
    ensures Kept(Play(lifetime, w, events), ids', strings')
    ensures GrantsKept(Play(lifetime, w, events), ids', strings', End(clock, events))
    ensures Legal(End(clock, events), ids', strings', more)
    decreases |events|
  {
    if events == [] {
      assert events + more == more;
      return ids, strings;
    }
    var e, r := events[0], Strings(events[0].op);
    assert (events + more)[1..] == events[1..] + more;
    StepKeeps(lifetime, w, ids, strings, e);
    StepKeepsGrants(lifetime, w, ids, strings, clock, e);
    ids', strings' := RunKeepsGrants(
      lifetime, Apply(lifetime, w, e), e.now, IdsAfter(ids, r), StringsAfter(strings, r), events[1..], more);
    assert |events| > 1 ==> events[|events| - 1] == events[1..][|events| - 2];
  }

  // What is accepted.

  /** A token issued in the run that has neither expired nor been given up. */
  predicate Good(w: World, id: string, now: int)
    requires id in w.granted
  {
    now <= w.granted[id].expiresAt && !Ended(w, id)
  }

  lemma {:induction false} GoodIffValid(
      w: World, ids: set<string>, strings: set<string>, clock: int, id: string, now: int)
    requires Kept(w, ids, strings) && GrantsKept(w, ids, strings, clock) && clock <= now && id in w.granted
    ensures Good(w, id, now) <==>
      id in w.m.store.tokens && !w.m.store.tokens[id].revoked && now <= w.m.store.tokens[id].expiresAt
  {
    assert GrantKept(w, clock, id);
  }

  lemma {:induction false} AcceptedInState(
      w: World, ids: set<string>, strings: set<string>, clock: int, id: string, now: int)
    requires Kept(w, ids, strings) && GrantsKept(w, ids, strings, clock) && clock <= now && id in w.granted
    ensures w.granted[id].access.Encoded? && w.granted[id].access.signed
    ensures
      var (g, answer) := (w.granted[id], Validated(w.m, w.granted[id].access, now).1);
      && (Good(w, id, now) ==> answer == Ok(g.access.claims.user))
      && (!Good(w, id, now) ==> answer == Err(if now > g.expiresAt then TokenExpired else TokenRevoked))
  {
    GoodIffValid(w, ids, strings, clock, id, now);
    AskKeeps(w.m, ids, strings, id, now);
  }

  /**
   * After any run a token issued in it is accepted, as its user, at any later time up to its expiry, if and only
   * if it was neither revoked nor its refresh string used up; past its expiry it is answered as expired, and
   * otherwise as revoked.
   */
  lemma {:induction false} AcceptedIff(
      lifetime: int, users: map<string, User>, blacklist: bool, clock: int, events: seq<Event>, id: string, now: int)
    requires Legal(clock, {}, {}, events) && End(clock, events) <= now
    requires id in Play(lifetime, Start(users, blacklist), events).granted
    ensures
      var w := Play(lifetime, Start(users, blacklist), events);
      var (g, answer) := (w.granted[id], Validated(w.m, w.granted[id].access, now).1);
      && g.access.Encoded? && g.access.signed && g.access.claims.tokenId == id
      && g.access.claims.expiresAt == g.expiresAt
      && (answer == Ok(g.access.claims.user) <==>
            now <= g.expiresAt && id !in w.revoked && g.refresh !in w.consumed)
      && (answer == Err(TokenExpired) <==> now > g.expiresAt)
      && (answer == Err(TokenRevoked) <==> now <= g.expiresAt && (id in w.revoked || g.refresh in w.consumed))
  {
    var w := Play(lifetime, Start(users, blacklist), events);
    assert events + [] == events;
    var ids, strings := RunKeepsGrants(lifetime, Start(users, blacklist), clock, {}, {}, events, []);
    assert WellIssued(w.granted[id], id);
    AcceptedInState(w, ids, strings, End(clock, events), id, now);
  }

  lemma {:induction false} RefreshInState(
      lifetime: int, w: World, ids: set<string>, strings: set<string>, clock: int, id: string, now: int, random: Random)
    requires Kept(w, ids, strings) && GrantsKept(w, ids, strings, clock) && clock <= now && id in w.granted
    ensures UsesUp(Refreshed(w.m, lifetime, w.granted[id].refresh, now, random).1) <==> Good(w, id, now)
    ensures Withdrawn(w.m, w.granted[id].access, now).1.None? <==> id in w.m.store.tokens
    ensures Good(w, id, now) ==> id in w.m.store.tokens
  {
    var refresh := w.granted[id].refresh;
    GoodIffValid(w, ids, strings, clock, id, now);
    assert GrantKept(w, clock, id);
    RefreshMeans(w.m, ids, strings, lifetime, refresh, now, random);
    var target := Target(w.m.store, refresh, now);
    if target.Some? {
      assert GrantKept(w, clock, target.value.id);
    }
  }

  /**
   * The refresh string of a token is honoured exactly as long as the token itself, and until then a revocation
   * of it succeeds.
   */
  lemma {:induction false} RefreshableIff(
      lifetime: int, users: map<string, User>, blacklist: bool, clock: int, events: seq<Event>, id: string, now: int,
      random: Random)
    requires Legal(clock, {}, {}, events) && End(clock, events) <= now
    requires id in Play(lifetime, Start(users, blacklist), events).granted
    ensures
      var w := Play(lifetime, Start(users, blacklist), events);
      var g := w.granted[id];
      && (UsesUp(Refreshed(w.m, lifetime, g.refresh, now, random).1) <==>
            now <= g.expiresAt && id !in w.revoked && g.refresh !in w.consumed)
      && (now <= g.expiresAt && id !in w.revoked && g.refresh !in w.consumed ==>
            Withdrawn(w.m, g.access, now).1.None?)
  {
    var w := Play(lifetime, Start(users, blacklist), events);
    assert events + [] == events;
    var ids, strings := RunKeepsGrants(lifetime, Start(users, blacklist), clock, {}, {}, events, []);
    RefreshInState(lifetime, w, ids, strings, End(clock, events), id, now, random);
  }

  lemma {:induction false} PlayOneMore(lifetime: int, w: World, events: seq<Event>, e: Event)
    ensures Play(lifetime, w, events + [e]) == Apply(lifetime, Play(lifetime, w, events), e)
    decreases |events|
  {
    if events == [] {
      assert events + [e] == [e] && [e][1..] == [];
      assert Play(lifetime, Apply(lifetime, w, e), []) == Apply(lifetime, w, e);
    } else {
      assert (events + [e])[1..] == events[1..] + [e];
      PlayOneMore(lifetime, Apply(lifetime, w, events[0]), events[1..], e);
    }
  }

  /** What a login or a refresh has just issued is new, and not given up. */
  lemma {:induction false} IssuedIsNew(
      lifetime: int, w: World, ids: set<string>, strings: set<string>, clock: int, e: Event)
    requires Kept(w, ids, strings) && GrantsKept(w, ids, strings, clock) && NewStrings(ids, strings, Strings(e.op))
    requires Reply(lifetime, w.m, e).Some? && Reply(lifetime, w.m, e).value.Issued?
    ensures
      var (v, info, r) := (Apply(lifetime, w, e), Reply(lifetime, w.m, e).value.info, Strings(e.op));
      && r.Some? && info.access.Encoded? && info.access.claims.tokenId == r.value.0 && info.refresh == r.value.1
      && r.value.0 in v.granted && v.granted[r.value.0] == info && !Ended(v, r.value.0)
    ensures
      var info := Reply(lifetime, w.m, e).value.info;
      match e.op
      case Login(user, d, _) =>
        info.access.claims.user == user && info.expiresAt == e.now + if d <= 0 then lifetime else d
      case Refresh(refresh, _) =>
        info.expiresAt == e.now + lifetime && refresh in Apply(lifetime, w, e).consumed
      case _ => true
  {
    if e.op.Refresh? {
      RefreshMeans(w.m, ids, strings, lifetime, e.op.refresh, e.now, e.op.random);
    }
  }

  /**
   * What a login or a refresh issues is accepted from then on until its expiry, and answered as expired
   * afterwards; a login's token belongs to its user and lasts as long as was asked for.
   */
  lemma {:induction false} IssuedIsAccepted(
      lifetime: int, users: map<string, User>, blacklist: bool, clock: int, events: seq<Event>, e: Event, now: int)
    requires Legal(clock, {}, {}, events + [e]) && e.now <= now
    requires
      var r := Reply(lifetime, Play(lifetime, Start(users, blacklist), events).m, e);
      r.Some? && r.value.Issued?
    ensures
      var s := Start(users, blacklist);
      var info := Reply(lifetime, Play(lifetime, s, events).m, e).value.info;
      && info.access.Encoded?
      && Validated(Play(lifetime, s, events + [e]).m, info.access, now).1 ==
           (if now <= info.expiresAt then Ok(info.access.claims.user) else Err(TokenExpired))
      && (e.op.Login? ==>
            && info.access.claims.user == e.op.user
            && info.expiresAt == e.now + if e.op.lifetime <= 0 then lifetime else e.op.lifetime)
      && (e.op.Refresh? ==> info.expiresAt == e.now + lifetime)
  {
    var s := Start(users, blacklist);
    PlayOneMore(lifetime, s, events, e);
    var w := Play(lifetime, s, events);
    var ids, strings := RunKeepsGrants(lifetime, s, clock, {}, {}, events, [e]);
    IssuedIsNew(lifetime, w, ids, strings, End(clock, events), e);
    StepKeeps(lifetime, w, ids, strings, e);
    StepKeepsGrants(lifetime, w, ids, strings, End(clock, events), e);
    var r := Strings(e.op);
    AcceptedInState(
      Apply(lifetime, w, e), IdsAfter(ids, r), StringsAfter(strings, r), e.now, r.value.0, now);
  }

  // What is kept.

  /**
   * After a cleanup the store holds exactly the tokens that are still good, each with its refresh string in the
   * index, and the blacklist only entries that still count.
   */
  lemma {:induction false} CleanupLeavesTheGood(
      lifetime: int, users: map<string, User>, blacklist: bool, clock: int, events: seq<Event>, now: int, id: string)
    requires Legal(clock, {}, {}, events) && End(clock, events) <= now
    requires id in Play(lifetime, Start(users, blacklist), events).granted
    ensures
      var w := Play(lifetime, Start(users, blacklist), events);
      var v := Apply(lifetime, w, Event(Cleanup, now));
      && (id in v.m.store.tokens <==>
            now <= w.granted[id].expiresAt && id !in w.revoked && w.granted[id].refresh !in w.consumed)
      && (w.granted[id].refresh in v.m.store.refresh <==> id in v.m.store.tokens)
      && (v.m.blacklist.Some? ==> forall x <- v.m.blacklist.value :: v.m.blacklist.value[x] >= now)
  {
    var w := Play(lifetime, Start(users, blacklist), events);
    assert events + [] == events;
    var ids, strings := RunKeepsGrants(lifetime, Start(users, blacklist), clock, {}, {}, events, []);
    CleanedState(lifetime, w, ids, strings, End(clock, events), now, id);
  }

  lemma {:induction false} CleanedState(
      lifetime: int, w: World, ids: set<string>, strings: set<string>, clock: int, now: int, id: string)
    requires Kept(w, ids, strings) && GrantsKept(w, ids, strings, clock) && clock <= now && id in w.granted
    ensures
      var v := Apply(lifetime, w, Event(Cleanup, now));
      && (id in v.m.store.tokens <==> Good(w, id, now))
      && (w.granted[id].refresh in v.m.store.refresh <==> id in v.m.store.tokens)
      && (v.m.blacklist.Some? ==> forall x <- v.m.blacklist.value :: v.m.blacklist.value[x] >= now)
  {
    var v := Apply(lifetime, w, Event(Cleanup, now));
    GoodIffValid(w, ids, strings, clock, id, now);
    CleanedKeeps(w.m, ids, strings, now);
    assert GrantKept(w, clock, id);
    var r := w.granted[id].refresh;
    if r in v.m.store.refresh {
      var other := v.m.store.refresh[r];
      assert other in w.granted && GrantKept(w, clock, other) && w.granted[other].refresh == r;
    }
  }

  // The blacklist covers what was given up.

  /** A revocation presents the claims that were issued. */
  predicate Faithful(w: World, e: Event) {
    e.op.Revoke? && e.op.access.Encoded? && e.op.access.claims.tokenId in w.granted ==>
      e.op.access.claims.expiresAt == w.granted[e.op.access.claims.tokenId].expiresAt
  }

  predicate FaithfulRun(lifetime: int, w: World, events: seq<Event>)
    decreases |events|
  {
    events == [] || (Faithful(w, events[0]) && FaithfulRun(lifetime, Apply(lifetime, w, events[0]), events[1..]))
  }

  /** A token given up before its expiry is listed until then. */
  predicate CoveredAt(w: World, clock: int, id: string)
    requires id in w.granted && w.m.blacklist.Some?
  {
    var b := w.m.blacklist.value;
    Ended(w, id) ==> w.granted[id].expiresAt < clock || (id in b && b[id] >= w.granted[id].expiresAt)
  }

  ghost predicate Covered(w: World, clock: int) {
    w.m.blacklist.Some? && forall id <- w.granted :: CoveredAt(w, clock, id)
  }

  /** A call that gives up no token, and takes only expired entries off the list. */
  lemma {:induction false} CoverStays(w: World, v: World, ids: set<string>, strings: set<string>, clock: int, now: int)
    requires Covered(w, clock) && GrantsKept(w, ids, strings, clock) && clock <= now && v.m.blacklist.Some?
    requires v.revoked == w.revoked && v.consumed == w.consumed && w.granted.Keys <= v.granted.Keys
    requires forall id <- v.granted :: id !in w.granted ==> !Ended(v, id)
    requires forall id <- w.granted :: v.granted[id] == w.granted[id]
    requires forall id <- w.m.blacklist.value :: w.m.blacklist.value[id] >= now ==>
      id in v.m.blacklist.value && v.m.blacklist.value[id] == w.m.blacklist.value[id]
    ensures Covered(v, now)
  {
    forall id <- v.granted ensures CoveredAt(v, now, id) {
      if id in w.granted {
        assert CoveredAt(w, clock, id);
      }
    }
  }

  /** One token is given up and listed until its expiry or longer. */
  lemma {:induction false} CoverAdded(
      w: World, v: World, ids: set<string>, strings: set<string>, clock: int, now: int, id: string, until: int)
    requires Covered(w, clock) && GrantsKept(w, ids, strings, clock) && clock <= now
    requires id in w.granted && w.granted[id].expiresAt <= until && v.granted == w.granted
    requires v.m.blacklist.Some? && id in v.m.blacklist.value && v.m.blacklist.value[id] == until
    requires forall x <- w.m.blacklist.value :: x != id && w.m.blacklist.value[x] >= now ==>
      x in v.m.blacklist.value && v.m.blacklist.value[x] == w.m.blacklist.value[x]
    requires
      || (v.revoked == w.revoked + {id} && v.consumed == w.consumed)
      || (v.revoked == w.revoked && v.consumed == w.consumed + {w.granted[id].refresh})
    ensures Covered(v, now)
  {
    forall i <- v.granted ensures CoveredAt(v, now, i) {
      assert CoveredAt(w, clock, i);
    }
  }

  /** What a refresh does to the blacklist. */
  lemma {:induction false} RefreshLists(
      m: Manager, ids: set<string>, strings: set<string>, lifetime: int, refresh: string, now: int, random: Random)
    requires ManagerKept(m, ids, strings) && m.blacklist.Some?
    ensures Refreshed(m, lifetime, refresh, now, random).0.blacklist.Some?
    ensures
      var (b, c) := (m.blacklist.value, Refreshed(m, lifetime, refresh, now, random).0.blacklist.value);
      var target := Target(m.store, refresh, now);
      && (target.Some? ==> target.value.id in c && c[target.value.id] == target.value.expiresAt)
      && forall x <- b :: (target.None? || x != target.value.id) && b[x] >= now ==> x in c && c[x] == b[x]
  {
    var found := ByRefresh(m.store, refresh);
    if found.Ok? {
      AskKeeps(m, ids, strings, found.value.id, now);
    }
  }

  lemma {:induction false} RotatedStaysCovered(
      lifetime: int, w: World, v: World, ids: set<string>, strings: set<string>, clock: int, refresh: string,
      now: int, random: Random)
    requires Kept(w, ids, strings) && GrantsKept(w, ids, strings, clock) && Covered(w, clock) && clock <= now
    requires NewStrings(ids, strings, random)
    requires
      var (n, answer) := Refreshed(w.m, lifetime, refresh, now, random);
      Rotated(w, v, n, refresh, answer)
    ensures Covered(v, now)
  {
    RefreshMeans(w.m, ids, strings, lifetime, refresh, now, random);
    RefreshLists(w.m, ids, strings, lifetime, refresh, now, random);
    var target := Target(w.m.store, refresh, now);
    if target.None? {
      CoverStays(w, v, ids, strings, clock, now);
    } else {
      var id, u := target.value.id, v.(granted := w.granted);
      assert GrantKept(w, clock, id);
      CoverAdded(w, u, ids, strings, clock, now, id, target.value.expiresAt);
      forall i <- v.granted ensures CoveredAt(v, now, i) {
        if i in w.granted {
          assert CoveredAt(u, now, i);
        }
      }
    }
  }

  lemma {:induction false} RefreshStaysCovered(
      lifetime: int, w: World, ids: set<string>, strings: set<string>, clock: int, e: Event)
    requires Kept(w, ids, strings) && GrantsKept(w, ids, strings, clock) && Covered(w, clock) && clock <= e.now
    requires e.op.Refresh? && NewStrings(ids, strings, e.op.random)
    ensures Covered(Apply(lifetime, w, e), e.now)
  {
    RefreshRotates(lifetime, w, e);
    RotatedStaysCovered(
      lifetime, w, Apply(lifetime, w, e), ids, strings, clock, e.op.refresh, e.now, e.op.random);
  }

  lemma {:induction false} RevokeStaysCovered(
      lifetime: int, w: World, ids: set<string>, strings: set<string>, clock: int, e: Event)
    requires GrantsKept(w, ids, strings, clock) && Covered(w, clock) && clock <= e.now
    requires e.op.Revoke? && Faithful(w, e)
    ensures Covered(Apply(lifetime, w, e), e.now)
  {
    var v, access := Apply(lifetime, w, e), e.op.access;
    if access.Encoded? && access.claims.tokenId in w.m.store.tokens {
      var exp := access.claims.expiresAt;
      CoverAdded(
        w, v, ids, strings, clock, e.now, access.claims.tokenId, if exp <= e.now then e.now + DAY else exp);
    } else {
      CoverStays(w, v, ids, strings, clock, e.now);
    }
  }

  lemma {:induction false} StepStaysCovered(
      lifetime: int, w: World, ids: set<string>, strings: set<string>, clock: int, e: Event)
    requires Kept(w, ids, strings) && GrantsKept(w, ids, strings, clock) && Covered(w, clock) && clock <= e.now
    requires NewStrings(ids, strings, Strings(e.op)) && Faithful(w, e)
    ensures Covered(Apply(lifetime, w, e), e.now)
  {
    match e.op
    case Refresh(_, _) => RefreshStaysCovered(lifetime, w, ids, strings, clock, e);
    case Revoke(_) => RevokeStaysCovered(lifetime, w, ids, strings, clock, e);
    case _ => CoverStays(w, Apply(lifetime, w, e), ids, strings, clock, e.now);
  }

  lemma {:induction false} RunStaysCovered(
      lifetime: int, w: World, clock: int, ids: set<string>, strings: set<string>, events: seq<Event>)
    requires Kept(w, ids, strings) && GrantsKept(w, ids, strings, clock) && Covered(w, clock)
    requires Legal(clock, ids, strings, events) && FaithfulRun(lifetime, w, events)
    ensures Covered(Play(lifetime, w, events), End(clock, events))
    decreases |events|
  {
    if events != [] {
      var e, r := events[0], Strings(events[0].op);
      StepKeeps(lifetime, w, ids, strings, e);
      StepKeepsGrants(lifetime, w, ids, strings, clock, e);
      StepStaysCovered(lifetime, w, ids, strings, clock, e);
      RunStaysCovered(
        lifetime, Apply(lifetime, w, e), e.now, IdsAfter(ids, r), StringsAfter(strings, r), events[1..]);
      assert |events| > 1 ==> events[|events| - 1] == events[1..][|events| - 2];
    }
  }

  /**
   * With a blacklist, and revocations that present the claims as issued, every token given up before its expiry is
   * listed until then: the blacklist alone would refuse it.
   */
  lemma {:induction false} BlacklistCovers(
      lifetime: int, users: map<string, User>, clock: int, events: seq<Event>, id: string, now: int)
    requires Legal(clock, {}, {}, events) && End(clock, events) <= now
    requires FaithfulRun(lifetime, Start(users, true), events)
    requires id in Play(lifetime, Start(users, true), events).granted
    ensures
      var w := Play(lifetime, Start(users, true), events);
      && w.m.blacklist.Some?
      && ((id in w.revoked || w.granted[id].refresh in w.consumed) && now <= w.granted[id].expiresAt ==>
            Listed(w.m.blacklist.value, id, now))
  {
    RunStaysCovered(lifetime, Start(users, true), clock, {}, {}, events);
    var w := Play(lifetime, Start(users, true), events);
    assert CoveredAt(w, End(clock, events), id);
  }

  /** A validation that gets as far as the blacklist forgets an entry of its token that has expired, and no other. */
  lemma {:induction false} AskingForgets(m: Manager, access: Access, now: int, x: string)
    requires m.blacklist.Some? && access.Encoded? && access.signed && now <= access.claims.expiresAt
    ensures
      var (b, after) := (m.blacklist.value, Validated(m, access, now).0.blacklist);
      && after.Some?
      && (x in after.value <==> x in b && (x == access.claims.tokenId ==> b[x] >= now))
      && (x in after.value ==> after.value[x] == b[x])
  {}
}
