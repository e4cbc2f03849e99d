/**
 Issuing, revoking and parsing tokens against a moving clock: backend/pkg/jwtx/jwt.go and store.go over
 the in-process cache. Times are nanoseconds since the epoch; the instants at which one call reads the
 clock are parameters, in the order in which it reads them.
 */
module TokenRevocation {
  import opened Options

  const SECOND := 1_000_000_000
  const MAX_DURATION := 0x7fff_ffff_ffff_ffff
  const MIN_DURATION := -0x8000_0000_0000_0000

  /** What a token signed with our key says; times in whole seconds (sections 4.1.4 to 4.1.6 of RFC 7519). */
  datatype Claims = Claims(user: string, subjectExp: int, exp: Option<int>, nbf: Option<int>, iat: Option<int>)

  datatype UserInfo = UserInfo(user: string, exp: int)

  /** The claims behind each string whose signature verifies. */
  type Signed = map<string, Claims>

  /** The deny list: an entry expires after an instant, or never. */
  type Items = map<string, Option<int>>

  // ---- time --------------------------------------------------------------------------------

  function Floor(t: int): int {
    t / SECOND
  }

  /** `time.Until(time.Unix(exp, 0))`, which saturates. */
  function Until(exp: int, now: int): int {
    var d := exp * SECOND - now;
    if d > MAX_DURATION then MAX_DURATION else if d < MIN_DURATION then MIN_DURATION else d
  }

  predicate InForce(c: Claims, now: int) {
    && (c.exp.Some? ==> now < c.exp.value * SECOND)
    && (c.nbf.Some? ==> c.nbf.value * SECOND <= now)
    && (c.iat.Some? ==> c.iat.value * SECOND <= now)
  }

  /** `parseToken`: the user, with the expiry of the claims if they have one. */
  function ParseToken(signed: Signed, token: string, now: int): Option<UserInfo> {
    if token in signed && InForce(signed[token], now) then
      var c := signed[token];
      Some(UserInfo(c.user, if c.exp.Some? then c.exp.value else c.subjectExp))
    else None
  }

  /** `GenerateToken` up to the signature; `expired` is the configured life time in seconds. */
  function Issued(user: string, subjectExp: int, now: int, expired: int): Claims {
    Claims(user, subjectExp, Some(Floor(now + expired * SECOND)), Some(Floor(now)), Some(Floor(now)))
  }

  // ---- the store ---------------------------------------------------------------------------

  predicate Expired(e: Option<int>, now: int) {
    e.Some? && now > e.value
  }

  /** Entries with a life time that is not positive are kept for ever. */
  function Put(items: Items, token: string, ttl: int, now: int): Items {
    items[token := if ttl > 0 then Some(now + ttl) else None]
  }

  function Sweep(items: Items, now: int): Items {
    map k | k in items && !Expired(items[k], now) :: items[k]
  }

  class DenyStore {
    var items: Items

    constructor ()
      ensures items == map[]
    {
      items := map[];
    }

    method Set(token: string, ttl: int, now: int)
      modifies this
      ensures items == Put(old(items), token, ttl, now)
    {
      if ttl > 0 {
        items := items[token := Some(now + ttl)];
      } else {
        items := items[token := None];
      }
    }

    /** What `Exists` reads under the read lock. */
    method Peek(token: string) returns (entry: Option<Option<int>>)
      ensures entry == if token in items then Some(items[token]) else None
    {
      if token in items {
        return Some(items[token]);
      }
      return None;
    }

    /** The deletion under the write lock, which does not look again. */
    method Delete(token: string)
      modifies this
      ensures items == old(items) - {token}
    {
      items := items - {token};
    }

    /** `Exists`, when nothing comes between its two critical sections: it drops the entry if it has expired. */
    method Check(token: string, now: int) returns (found: bool)
      modifies this
      ensures found <==> token in old(items) && !Expired(old(items)[token], now)
      ensures items == if token in old(items) && !found then old(items) - {token} else old(items)
    {
      var entry := Peek(token);
      found := entry.Some? && !Expired(entry.value, now);
      if entry.Some? && !found {
        Delete(token);
      }
    }

    /** The background sweep: expired entries are deleted one by one. */
    method EvictExpired(now: int)
      modifies this
      ensures items == Sweep(old(items), now)
    {
      var todo := items.Keys;
      while todo != {}
        invariant todo <= old(items).Keys
        invariant items.Keys == todo + Sweep(old(items), now).Keys
        invariant forall k | k in items :: items[k] == old(items)[k]
        decreases |todo|
      {
        var k :| k in todo;
        if Expired(items[k], now) {
          items := items - {k};
        }
        todo := todo - {k};
      }
    }
  }

  // ---- the service -------------------------------------------------------------------------

  datatype Outcome = Returned(user: UserInfo) | InvalidToken | StoreError

  class Auth {
    const signed: Signed
    const store: DenyStore?

    constructor (signed: Signed, store: DenyStore?)
      ensures this.signed == signed && this.store == store
    {
      this.signed := signed;
      this.store := store;
    }

    /**
     `DestroyToken`: parses at `parsed`, computes the life time of the entry at `computed`, and the store
     takes it at `stored` unless it is down.
     */
    method DestroyToken(token: string, parsed: int, computed: int, stored: int, down: bool) returns (ok: bool)
      modifies store
      ensures ok <==> token in signed && InForce(signed[token], parsed) && !(store != null && down)
      ensures store != null && !ok ==> store.items == old(store.items)
      ensures store != null && ok ==>
                var c := signed[token];
                var ttl := Until(if c.exp.Some? then c.exp.value else c.subjectExp, computed);
                store.items == old(store.items)[token := if ttl > 0 then Some(stored + ttl) else None]
    {
      var u := ParseToken(signed, token, parsed);
      if u.None? {
        return false;
      }
      ok := true;
      if store != null {
        var ttl := Until(u.value.exp, computed);
        if down { ok := false; } else { store.Set(token, ttl, stored); }
      }
    }

    /** `ParseSubject`: parses at `parsed`, looks the token up at `checked`; a store that is down is ignored. */
    method ParseSubject(token: string, parsed: int, checked: int, down: bool) returns (r: Outcome)
      modifies store
      ensures r.Returned? <==>
              && token != "" && token in signed && InForce(signed[token], parsed)
              && !(store != null && !down && token in old(store.items) && !Expired(old(store.items)[token], checked))
      ensures r.Returned? ==>
                var c := signed[token]; r.user == UserInfo(c.user, if c.exp.Some? then c.exp.value else c.subjectExp)
      ensures !r.Returned? ==> r == InvalidToken
      ensures store != null ==> store.items == old(store.items) || store.items == old(store.items) - {token}
      ensures store != null && store.items != old(store.items) ==>
              token in old(store.items) && Expired(old(store.items)[token], checked)
    {
      if |token| == 0 {
        return InvalidToken;
      }
      var u := ParseToken(signed, token, parsed);
      if u.None? {
        return InvalidToken;
      }
      if store != null && !down {
        var found := store.Check(token, checked);
        if found {
          return InvalidToken;
        }
      }
      return Returned(u.value);
    }
  }

  // ---- whole runs --------------------------------------------------------------------------

  /** The deny list, and the entries that look-ups under way have read and not yet judged. */
  datatype Store = Store(items: Items, reading: multiset<(string, Option<int>)>)

  const EMPTY := Store(map[], multiset{})

  /**
   What happens to the deny list, calls overlapping as they like. An entry is made with the life time computed at
   `stored` and put into the list at `at`. A look-up reads an entry and judges it later; if it has expired by then,
   it deletes whatever the list has under that token at that time.
   */
  datatype Event =
    | Destroyed(token: string, parsed: int, computed: int, stored: int, at: int)
    | Looked(token: string, now: int)
    | Kept(token: string, end: Option<int>, now: int)
    | Dropped(token: string, end: Option<int>, now: int)
    | Swept(now: int)

  function Ends(e: Event): int {
    if e.Destroyed? then e.at else e.now
  }

  /** The instants of an event are in order, and it takes effect not before `now`. */
  predicate Timely(e: Event, now: int) {
    now <= Ends(e) && (e.Destroyed? ==> e.parsed <= e.computed <= e.stored <= e.at)
  }

  function After(signed: Signed, s: Store, e: Event): Store {
    match e
    case Destroyed(token, parsed, computed, stored, _) =>
      var u := ParseToken(signed, token, parsed);
      if u.Some? then s.(items := Put(s.items, token, Until(u.value.exp, computed), stored)) else s
    case Looked(token, _) =>
      if token in s.items then s.(reading := s.reading + multiset{(token, s.items[token])}) else s
    case Kept(token, end, now) =>
      if (token, end) in s.reading && !Expired(end, now) then s.(reading := s.reading - multiset{(token, end)}) else s
    case Dropped(token, end, now) =>
      if (token, end) in s.reading && Expired(end, now)
      then Store(s.items - {token}, s.reading - multiset{(token, end)}) else s
    case Swept(now) => s.(items := Sweep(s.items, now))
  }

  function Run(signed: Signed, s: Store, events: seq<Event>): Store {
    if events == [] then s else After(signed, Run(signed, s, events[..|events| - 1]), events[|events| - 1])
  }

  predicate TimelyRun(now: int, events: seq<Event>) {
    events == [] ||
    (TimelyRun(now, events[..|events| - 1]) && Timely(events[|events| - 1], Clock(now, events[..|events| - 1])))
  }

  /** The clock after a run. */
  function Clock(now: int, events: seq<Event>): int {
    if events == [] then now else Ends(events[|events| - 1])
  }

  /** An entry that does not end before the token expires. */
  predicate Lasts(end: Option<int>, exp: int) {
    end.Some? ==> end.value >= exp * SECOND
  }

  ghost predicate LastingReads(s: Store, token: string, exp: int) {
    forall end | (token, end) in s.reading :: Lasts(end, exp)
  }

  ghost predicate Lasting(s: Store, token: string, exp: int) {
    (token in s.items ==> Lasts(s.items[token], exp)) && LastingReads(s, token, exp)
  }

  /** Whether every entry for the token was made less than 292 years before the token expires. */
  predicate WithinReach(events: seq<Event>, token: string, exp: int) {
    forall i | 0 <= i < |events| && events[i].Destroyed? && events[i].token == token ::
      exp * SECOND - events[i].computed <= MAX_DURATION
  }

  /** The life time of an entry, computed before it is stored, reaches at least to the expiry of the token. */
  lemma EventKeepsLasting(signed: Signed, s: Store, e: Event, token: string, now: int)
    requires token in signed && signed[token].exp.Some? && Timely(e, now) && Lasting(s, token, signed[token].exp.value)
    requires e.Destroyed? && e.token == token ==> signed[token].exp.value * SECOND - e.computed <= MAX_DURATION
    ensures Lasting(After(signed, s, e), token, signed[token].exp.value)
  {
  }

  lemma EventKeepsEntry(signed: Signed, s: Store, e: Event, token: string, now: int)
    requires token in signed && signed[token].exp.Some? && Timely(e, now) && Lasting(s, token, signed[token].exp.value)
    requires now > signed[token].exp.value * SECOND || token in s.items
    ensures Ends(e) > signed[token].exp.value * SECOND || token in After(signed, s, e).items
  {
  }

  lemma {:induction false} RunKeepsLasting(signed: Signed, s: Store, events: seq<Event>, token: string, now: int)
    requires token in signed && signed[token].exp.Some? && TimelyRun(now, events)
    requires Lasting(s, token, signed[token].exp.value) && WithinReach(events, token, signed[token].exp.value)
    ensures Lasting(Run(signed, s, events), token, signed[token].exp.value)
    ensures token in s.items ==>
              Clock(now, events) > signed[token].exp.value * SECOND || token in Run(signed, s, events).items
  {
    if events != [] {
      var front, last := events[..|events| - 1], events[|events| - 1];
      assert forall i | 0 <= i < |front| :: front[i] == events[i];
      RunKeepsLasting(signed, s, front, token, now);
      EventKeepsLasting(signed, Run(signed, s, front), last, token, Clock(now, front));
      if token in s.items { EventKeepsEntry(signed, Run(signed, s, front), last, token, Clock(now, front)); }
    }
  }

  /** After any run of the service, entries and look-ups under way last until the token expires. */
  lemma ServiceLasting(signed: Signed, events: seq<Event>, token: string, now: int)
    requires token in signed && signed[token].exp.Some? && TimelyRun(now, events)
    requires WithinReach(events, token, signed[token].exp.value)
    ensures Lasting(Run(signed, EMPTY, events), token, signed[token].exp.value)
  {
    RunKeepsLasting(signed, EMPTY, events, token, now);
  }

  predicate Accepted(signed: Signed, items: Items, token: string, parsed: int, checked: int) {
    ParseToken(signed, token, parsed).Some? && !(token in items && !Expired(items[token], checked))
  }

  /**
   Revocation is permanent: after a successful `DestroyToken` of a token that carries `exp`, whatever else
   happens, no `ParseSubject` that judges the token before it expires returns a user, whenever it parsed it.
   */
  lemma RevocationIsPermanent(
      signed: Signed, s: Store, token: string, parsed: int, computed: int, stored: int, at: int, events: seq<Event>,
      p: int, c: int)
    requires ParseToken(signed, token, parsed).Some? && signed[token].exp.Some? && parsed <= computed <= stored <= at
    requires signed[token].exp.value * SECOND - computed <= MAX_DURATION
    requires LastingReads(s, token, signed[token].exp.value)
    requires TimelyRun(at, events) && WithinReach(events, token, signed[token].exp.value)
    requires Clock(at, events) <= c <= signed[token].exp.value * SECOND
    ensures var revoked := After(signed, s, Destroyed(token, parsed, computed, stored, at));
            !Accepted(signed, Run(signed, revoked, events).items, token, p, c)
  {
    RunKeepsLasting(signed, After(signed, s, Destroyed(token, parsed, computed, stored, at)), events, token, at);
  }

  /** The same over the whole life of the service, with nothing asked of the store. */
  lemma RevokedInEveryRun(
      signed: Signed, before: seq<Event>, token: string, parsed: int, computed: int, stored: int, at: int,
      events: seq<Event>, start: int, p: int, c: int)
    requires TimelyRun(start, before) && Clock(start, before) <= at && parsed <= computed <= stored <= at
    requires ParseToken(signed, token, parsed).Some? && signed[token].exp.Some?
    requires signed[token].exp.value * SECOND - computed <= MAX_DURATION
    requires WithinReach(before, token, signed[token].exp.value) && WithinReach(events, token, signed[token].exp.value)
    requires TimelyRun(at, events) && Clock(at, events) <= c <= signed[token].exp.value * SECOND
    ensures var revoked := After(signed, Run(signed, EMPTY, before), Destroyed(token, parsed, computed, stored, at));
            !Accepted(signed, Run(signed, revoked, events).items, token, p, c)
  {
    ServiceLasting(signed, before, token, start);
    RevocationIsPermanent(signed, Run(signed, EMPTY, before), token, parsed, computed, stored, at, events, p, c);
  }

  // ---- where it ends -----------------------------------------------------------------------

  /** No event revokes the token once more. */
  predicate NotRevokedAgain(signed: Signed, events: seq<Event>, token: string) {
    forall i | 0 <= i < |events| && events[i].Destroyed? && events[i].token == token ::
      ParseToken(signed, token, events[i].parsed).None?
  }

  /** The end of the entry that a revocation makes. */
  function EndOf(exp: int, computed: int, stored: int): Option<int> {
    if Until(exp, computed) > 0 then Some(stored + Until(exp, computed)) else None
  }

  predicate NotBefore(x: Option<int>, end: Option<int>) {
    x.Some? ==> end.Some? && end.value <= x.value
  }

  /** No look-up under way has read an entry for the token that ends before `end`. */
  ghost predicate Undisturbed(s: Store, token: string, end: Option<int>) {
    forall x | (token, x) in s.reading :: NotBefore(x, end)
  }

  /** The entry made at first is still there, or the clock has passed its end. */
  predicate EntryAsMade(items: Items, token: string, end: Option<int>, now: int) {
    if token in items then items[token] == end else end.Some? && now > end.value
  }

  lemma EventKeepsMade(signed: Signed, s: Store, e: Event, token: string, end: Option<int>, now: int)
    requires Timely(e, now) && EntryAsMade(s.items, token, end, now) && Undisturbed(s, token, end)
    requires e.Destroyed? && e.token == token ==> ParseToken(signed, token, e.parsed).None?
    ensures EntryAsMade(After(signed, s, e).items, token, end, Ends(e))
  {
    if e.Dropped? && e.token == token && (token, e.end) in s.reading { assert NotBefore(e.end, end); }
  }

  lemma EventKeepsUndisturbed(signed: Signed, s: Store, e: Event, token: string, end: Option<int>, now: int)
    requires EntryAsMade(s.items, token, end, now) && Undisturbed(s, token, end)
    ensures Undisturbed(After(signed, s, e), token, end)
  {
    forall x | (token, x) in After(signed, s, e).reading ensures NotBefore(x, end) {
      assert (token, x) in s.reading || x == end;
    }
  }

  lemma {:induction false} RunKeepsEntry(
      signed: Signed, s: Store, events: seq<Event>, token: string, end: Option<int>, now: int)
    requires TimelyRun(now, events) && NotRevokedAgain(signed, events, token)
    requires EntryAsMade(s.items, token, end, now) && Undisturbed(s, token, end)
    ensures EntryAsMade(Run(signed, s, events).items, token, end, Clock(now, events))
    ensures Undisturbed(Run(signed, s, events), token, end)
  {
    if events != [] {
      var front, last := events[..|events| - 1], events[|events| - 1];
      assert forall i | 0 <= i < |front| :: front[i] == events[i];
      RunKeepsEntry(signed, s, front, token, end, now);
      EventKeepsMade(signed, Run(signed, s, front), last, token, end, Clock(now, front));
      EventKeepsUndisturbed(signed, Run(signed, s, front), last, token, end, Clock(now, front));
    }
  }

  /**
   The exact life of a revocation, whatever else happens until the token is revoked once more: a later call
   gets a user only if it parsed the token while it was in force and judged it after the entry's end.
   */
  lemma AcceptedAgainIff(
      signed: Signed, s: Store, token: string, parsed: int, computed: int, stored: int, at: int, events: seq<Event>,
      p: int, c: int)
    requires ParseToken(signed, token, parsed).Some?
    requires Undisturbed(s, token, EndOf(ParseToken(signed, token, parsed).value.exp, computed, stored))
    requires TimelyRun(at, events) && NotRevokedAgain(signed, events, token) && Clock(at, events) <= c
    ensures var end := EndOf(ParseToken(signed, token, parsed).value.exp, computed, stored);
            var revoked := After(signed, s, Destroyed(token, parsed, computed, stored, at));
            Accepted(signed, Run(signed, revoked, events).items, token, p, c) <==>
            InForce(signed[token], p) && end.Some? && c > end.value
  {
    var revoked := After(signed, s, Destroyed(token, parsed, computed, stored, at));
    RunKeepsEntry(signed, revoked, events, token, revoked.items[token], at);
  }

  lemma OneEvent(signed: Signed, s: Store, e: Event, now: int)
    ensures TimelyRun(now, [e]) == Timely(e, now) && Run(signed, s, [e]) == After(signed, s, e)
  {
    var events: seq<Event> := [e];
    assert events[..|events| - 1] == [];
    assert TimelyRun(now, []) && Clock(now, []) == now && Run(signed, s, []) == s;
  }

  /**
   That condition on the look-ups under way is needed: one that has read an entry with an earlier end may delete
   the new entry, and then the token is accepted although the new entry has not ended.
   */
  lemma StaleDeletionAccepts(
      signed: Signed, s: Store, token: string, parsed: int, computed: int, stored: int, at: int, p: int)
      returns (e: Event)
    requires ParseToken(signed, token, parsed).Some? && InForce(signed[token], p)
    requires !Undisturbed(s, token, EndOf(ParseToken(signed, token, parsed).value.exp, computed, stored))
    ensures TimelyRun(at, [e]) && NotRevokedAgain(signed, [e], token)
    ensures var end := EndOf(ParseToken(signed, token, parsed).value.exp, computed, stored);
            var revoked := After(signed, s, Destroyed(token, parsed, computed, stored, at));
            && Accepted(signed, Run(signed, revoked, [e]).items, token, p, Ends(e))
            && (end.Some? && at <= end.value ==> Ends(e) <= end.value)
  {
    var end := EndOf(ParseToken(signed, token, parsed).value.exp, computed, stored);
    var x :| (token, x) in s.reading && !NotBefore(x, end);
    e := Dropped(token, x, if x.value < at then at else x.value + 1);
    var revoked := After(signed, s, Destroyed(token, parsed, computed, stored, at));
    OneEvent(signed, revoked, e, at);
  }

  /** Parsing and looking up at the same instant, a revoked token with `exp` is never accepted. */
  lemma NeverAcceptedAtOnce(
      signed: Signed, s: Store, token: string, parsed: int, computed: int, stored: int, at: int, events: seq<Event>,
      p: int)
    requires ParseToken(signed, token, parsed).Some? && signed[token].exp.Some? && parsed <= computed <= stored <= at
    requires signed[token].exp.value * SECOND - computed <= MAX_DURATION
    requires LastingReads(s, token, signed[token].exp.value) && Clock(at, events) <= p
    requires TimelyRun(at, events) && WithinReach(events, token, signed[token].exp.value)
    ensures var revoked := After(signed, s, Destroyed(token, parsed, computed, stored, at));
            !Accepted(signed, Run(signed, revoked, events).items, token, p, p)
  {
    if p <= signed[token].exp.value * SECOND {
      RevocationIsPermanent(signed, s, token, parsed, computed, stored, at, events, p, p);
    }
  }

  /** A token parsed just before it expires and judged long after: the entry is gone, the user comes back. */
  lemma SlowLookupAccepts(user: string, token: string, s: Store)
    ensures var signed := map[token := Claims(user, 0, Some(10), None, None)];
            var revoked := After(signed, s, Destroyed(token, 0, 0, 0, 0));
            Accepted(signed, revoked.items, token, 10 * SECOND - 1, 10 * SECOND + 1)
  {
  }

  /**
   A token without `exp` is revoked for good exactly when the `exp` inside its subject is not ahead, whatever
   else happens until it is revoked once more.
   */
  lemma UnboundedTokenRevokedIff(
      signed: Signed, s: Store, token: string, parsed: int, computed: int, stored: int, at: int, events: seq<Event>)
    requires ParseToken(signed, token, parsed).Some? && signed[token].exp.None? && parsed <= computed <= stored <= at
    requires Undisturbed(s, token, EndOf(signed[token].subjectExp, computed, stored))
    requires TimelyRun(at, events) && NotRevokedAgain(signed, events, token)
    ensures var revoked := After(signed, s, Destroyed(token, parsed, computed, stored, at));
            (forall p, c | p <= c && Clock(at, events) <= c ::
               !Accepted(signed, Run(signed, revoked, events).items, token, p, c)) <==>
            signed[token].subjectExp * SECOND <= computed
  {
    var after := Run(signed, After(signed, s, Destroyed(token, parsed, computed, stored, at)), events).items;
    if signed[token].subjectExp * SECOND > computed {
      ClockGoesOn(at, events);
      var late := Clock(at, events) + Until(signed[token].subjectExp, computed) + 1;
      AcceptedAgainIff(signed, s, token, parsed, computed, stored, at, events, late, late);
      assert Accepted(signed, after, token, late, late);
    } else {
      forall p, c | p <= c && Clock(at, events) <= c ensures !Accepted(signed, after, token, p, c) {
        AcceptedAgainIff(signed, s, token, parsed, computed, stored, at, events, p, c);
      }
    }
  }

  lemma {:induction false} ClockGoesOn(now: int, events: seq<Event>)
    requires TimelyRun(now, events)
    ensures now <= Clock(now, events)
  {
    if events != [] { ClockGoesOn(now, events[..|events| - 1]); }
  }

  /**
   A token that was issued to a user is in force from the whole second of its issue until the whole second in which
   its life time ends, refused before and after, and names that user and that end all the while.
   */
  lemma IssuedTokenLife(user: string, subjectExp: int, now: int, expired: int, signed: Signed, token: string, t: int)
    requires token in signed && signed[token] == Issued(user, subjectExp, now, expired)
    ensures signed[token].user == user && signed[token].exp == Some(now / SECOND + expired)
    ensures InForce(signed[token], t) <==> ParseToken(signed, token, t).Some?
    ensures ParseToken(signed, token, t).Some? <==> now / SECOND * SECOND <= t < (now / SECOND + expired) * SECOND
    ensures ParseToken(signed, token, t).Some? ==>
              ParseToken(signed, token, t).value == UserInfo(user, now / SECOND + expired)
    ensures now - SECOND < now / SECOND * SECOND <= now
    ensures now + (expired - 1) * SECOND < (now / SECOND + expired) * SECOND <= now + expired * SECOND
  {
    FloorBounds(now);
    WholeSeconds(now, expired);
  }

  /** Adding whole seconds moves the whole second by as many. */
  lemma WholeSeconds(t: int, n: int)
    ensures Floor(t + n * SECOND) == Floor(t) + n
  {
    FloorBounds(t);
    FloorBounds(t + n * SECOND);
  }

  /** A token is refused before the instants it names, and from its expiry on. */
  lemma RefusedOutside(signed: Signed, token: string, t: int)
    requires token in signed
    requires var c := signed[token];
             || (c.nbf.Some? && t < c.nbf.value * SECOND)
             || (c.iat.Some? && t < c.iat.value * SECOND)
             || (c.exp.Some? && t >= c.exp.value * SECOND)
    ensures ParseToken(signed, token, t) == None
  {
  }

  /**
   When a revocation's entry ends: as long after it was stored as the token had before it, at most 2^63 - 1 nanoseconds,
   and never for a token whose expiry had passed.
   */
  lemma EntryEnd(exp: int, computed: int, stored: int)
    ensures EndOf(exp, computed, stored) ==
            if exp * 1_000_000_000 <= computed then None
            else if exp * 1_000_000_000 - computed <= 9_223_372_036_854_775_807
            then Some(stored + exp * 1_000_000_000 - computed)
            else Some(stored + 9_223_372_036_854_775_807)
  {
  }

  lemma FloorBounds(t: int)
    ensures Floor(t) * SECOND <= t < (Floor(t) + 1) * SECOND
  {
  }
}
