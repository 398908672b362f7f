/** Refresh-token rotation: each token is good once, logout ends them all, and rotation conserves their number. */
module RefreshTokens {
  import opened Store

  datatype Token = Token(user: Id, expiresAt: int, revoked: bool)

  /** The token table, keyed by the unique hash column. */
  type Tokens = map<string, Token>

  /** A login or registration that issues a token, a refresh, or a logout. The raw tokens are the random strings
      drawn by the call. */
  datatype Event =
    | Issue(user: Id, raw: string, expiresAt: int)
    | Refresh(raw: string, now: int, newRaw: string, newExpiresAt: int)
    | Logout(user: Id)

  type Hash = string -> string

  ghost predicate Injective(h: Hash) {
    forall a, b :: h(a) == h(b) ==> a == b
  }

  /** Inserting a row: the hash column is unique. */
  function Create(ts: Tokens, key: string, user: Id, expiresAt: int): Tokens {
    if key in ts then ts else ts[key := Token(user, expiresAt, false)]
  }

  function Revoke(ts: Tokens, key: string): Tokens
    requires key in ts
  {
    ts[key := ts[key].(revoked := true)]
  }

  function RevokeAll(ts: Tokens, user: Id): Tokens {
    map k | k in ts :: if ts[k].user == user then ts[k].(revoked := true) else ts[k]
  }

  /** A refresh that gets past the three checks. */
  predicate Accepts(h: Hash, ts: Tokens, e: Event) {
    e.Refresh? && h(e.raw) in ts && !ts[h(e.raw)].revoked && e.now <= ts[h(e.raw)].expiresAt
  }

  function Step(h: Hash, ts: Tokens, e: Event): Tokens {
    match e
    case Issue(u, raw, exp) => Create(ts, h(raw), u, exp)
    case Refresh(raw, now, newRaw, exp) =>
      if Accepts(h, ts, e) then Create(Revoke(ts, h(raw)), h(newRaw), ts[h(raw)].user, exp) else ts
    case Logout(u) => RevokeAll(ts, u)
  }

  function Run(h: Hash, ts: Tokens, es: seq<Event>): Tokens
    decreases |es|
  {
    if es == [] then ts else Run(h, Step(h, ts, es[0]), es[1..])
  }

  /** How often a raw token is accepted in a run. */
  function Acceptances(h: Hash, ts: Tokens, es: seq<Event>, raw: string): nat
    decreases |es|
  {
    if es == [] then 0 else
      (if Accepts(h, ts, es[0]) && es[0].raw == raw then 1 else 0) + Acceptances(h, Step(h, ts, es[0]), es[1..], raw)
  }

  // ------------------------------------------------------------------ revocation is final

  lemma RevokedStaysRevoked(h: Hash, ts: Tokens, e: Event, key: string)
    requires key in ts && ts[key].revoked
    ensures key in Step(h, ts, e) && Step(h, ts, e)[key].revoked
  {
  }

  lemma {:induction false} RevokedIsNeverAccepted(h: Hash, ts: Tokens, es: seq<Event>, raw: string)
    requires h(raw) in ts && ts[h(raw)].revoked
    ensures Acceptances(h, ts, es, raw) == 0
    decreases |es|
  {
    if es != [] {
      RevokedStaysRevoked(h, ts, es[0], h(raw));
      RevokedIsNeverAccepted(h, Step(h, ts, es[0]), es[1..], raw);
    }
  }

  /** Main result. In any sequential run, from any table, a token is accepted at most once. */
  lemma {:induction false} AcceptedAtMostOnce(h: Hash, ts: Tokens, es: seq<Event>, raw: string)
    ensures Acceptances(h, ts, es, raw) <= 1
    decreases |es|
  {
    if es != [] {
      if Accepts(h, ts, es[0]) && es[0].raw == raw {
        RevokedIsNeverAccepted(h, Step(h, ts, es[0]), es[1..], raw);
      } else {
        AcceptedAtMostOnce(h, Step(h, ts, es[0]), es[1..], raw);
      }
    }
  }

  /** No token of a user that exists at logout, rotated ones included, is accepted afterwards. */
  lemma LogoutEndsAllTokens(h: Hash, ts: Tokens, user: Id, es: seq<Event>, raw: string)
    requires h(raw) in ts && ts[h(raw)].user == user
    ensures Acceptances(h, Step(h, ts, Logout(user)), es, raw) == 0
  {
    RevokedIsNeverAccepted(h, Step(h, ts, Logout(user)), es, raw);
  }

  /** Rows are never removed and never change hands. */
  lemma {:induction false} TokensAreKept(h: Hash, ts: Tokens, es: seq<Event>, key: string)
    requires key in ts
    ensures key in Run(h, ts, es) && Run(h, ts, es)[key].user == ts[key].user
    decreases |es|
  {
    if es != [] {
      TokensAreKept(h, Step(h, ts, es[0]), es[1..], key);
    }
  }

  /** Whatever happens between, a token issued before its user's logout is not accepted after it. */
  lemma IssuedTokenEndsWithLogout(h: Hash, ts: Tokens, raw: string, user: Id, expiresAt: int, between: seq<Event>,
                                  after: seq<Event>)
    requires h(raw) !in ts
    ensures var atLogout := Run(h, Step(h, ts, Issue(user, raw, expiresAt)), between);
            Acceptances(h, Step(h, atLogout, Logout(user)), after, raw) == 0
  {
    var issued := Step(h, ts, Issue(user, raw, expiresAt));
    TokensAreKept(h, issued, between, h(raw));
    LogoutEndsAllTokens(h, Run(h, issued, between), user, after, raw);
  }

  /** The raw tokens a run draws. */
  function Drawn(es: seq<Event>): set<string> {
    if es == [] then {} else
      (match es[0] case Issue(_, raw, _) => {raw} case Refresh(_, _, newRaw, _) => {newRaw} case Logout(_) => {})
      + Drawn(es[1..])
  }

  /** Only a token that the table already knew or the run drew is ever accepted: the hash is injective. */
  lemma {:induction false} OnlyIssuedTokensAreAccepted(h: Hash, ts: Tokens, es: seq<Event>, raw: string)
    requires Injective(h) && h(raw) !in ts && raw !in Drawn(es)
    ensures Acceptances(h, ts, es, raw) == 0
    decreases |es|
  {
    if es != [] {
      OnlyIssuedTokensAreAccepted(h, Step(h, ts, es[0]), es[1..], raw);
    }
  }

  // ------------------------------------------------------------------ how long a token is good

  /** A row that is live for its user until `expiresAt`. */
  predicate IsGood(h: Hash, ts: Tokens, raw: string, user: Id, expiresAt: int) {
    h(raw) in ts && ts[h(raw)] == Token(user, expiresAt, false)
  }

  /** Nothing in the run ends the token: its user does not log out, and nobody refreshes with it while it is good. */
  ghost predicate LeftAlone(es: seq<Event>, raw: string, user: Id, expiresAt: int) {
    forall e :: e in es ==> e != Logout(user) && (e.Refresh? && e.raw == raw ==> expiresAt < e.now)
  }

  lemma {:induction false} GoodStaysGood(h: Hash, ts: Tokens, es: seq<Event>, raw: string, user: Id, expiresAt: int)
    requires Injective(h) && IsGood(h, ts, raw, user, expiresAt) && LeftAlone(es, raw, user, expiresAt)
    ensures IsGood(h, Run(h, ts, es), raw, user, expiresAt)
    decreases |es|
  {
    if es != [] {
      assert es[0] in es && forall e :: e in es[1..] ==> e in es;
      GoodStaysGood(h, Step(h, ts, es[0]), es[1..], raw, user, expiresAt);
    }
  }

  /** The next refresh with the token: accepted, and the token revoked by it, up to its expiry and not after. */
  ghost predicate GoodUntil(h: Hash, ts: Tokens, raw: string, expiresAt: int) {
    forall e: Event :: e.Refresh? && e.raw == raw ==>
      && (Accepts(h, ts, e) <==> e.now <= expiresAt)
      && h(raw) in Step(h, ts, e) && (Step(h, ts, e)[h(raw)].revoked <==> e.now <= expiresAt)
  }

  /** Main result. A token issued with a fresh draw and left alone since is good until the expiry it was issued with, to
      the instant, whatever else the run between does. */
  lemma IssuedIsGoodUntilExpiry(h: Hash, ts: Tokens, user: Id, raw: string, expiresAt: int, between: seq<Event>)
    requires Injective(h) && h(raw) !in ts && LeftAlone(between, raw, user, expiresAt)
    ensures GoodUntil(h, Run(h, Step(h, ts, Issue(user, raw, expiresAt)), between), raw, expiresAt)
  {
    GoodStaysGood(h, Step(h, ts, Issue(user, raw, expiresAt)), between, raw, user, expiresAt);
  }

  /** And so is a token drawn by a refresh: it has its own expiry, not that of the token it replaces, and the same
      user. */
  lemma RotatedIsGoodUntilExpiry(h: Hash, ts: Tokens, old': string, now: int, raw: string, expiresAt: int,
                                 between: seq<Event>)
    requires Injective(h) && h(raw) !in ts && Accepts(h, ts, Refresh(old', now, raw, expiresAt))
    requires LeftAlone(between, raw, ts[h(old')].user, expiresAt)
    ensures var s := Run(h, Step(h, ts, Refresh(old', now, raw, expiresAt)), between);
            GoodUntil(h, s, raw, expiresAt) && h(raw) in s && s[h(raw)].user == ts[h(old')].user
  {
    GoodStaysGood(h, Step(h, ts, Refresh(old', now, raw, expiresAt)), between, raw, ts[h(old')].user, expiresAt);
  }

  // ------------------------------------------------------------------ how many tokens live

  function Live(ts: Tokens, user: Id): set<string> {
    set k | k in ts && ts[k].user == user && !ts[k].revoked
  }

  /** The random strings of a call are new to the table. */
  predicate Fresh(h: Hash, ts: Tokens, e: Event) {
    match e
    case Issue(_, raw, _) => h(raw) !in ts
    case Refresh(_, _, newRaw, _) => h(newRaw) !in ts
    case Logout(_) => true
  }

  predicate AllFresh(h: Hash, ts: Tokens, es: seq<Event>)
    decreases |es|
  {
    es != [] ==> Fresh(h, ts, es[0]) && AllFresh(h, Step(h, ts, es[0]), es[1..])
  }

  /** How one call changes the number of a user's live tokens, as its caller counts them. */
  function Counted(before: nat, e: Event, user: Id): nat {
    match e
    case Issue(u, _, _) => if u == user then before + 1 else before
    case Refresh(_, _, _, _) => before
    case Logout(u) => if u == user then 0 else before
  }

  /** The issuing calls for a user since the last logout, on top of `before`. */
  function IssuedSinceLogout(before: nat, es: seq<Event>, user: Id): nat
    decreases |es|
  {
    if es == [] then before else IssuedSinceLogout(Counted(before, es[0], user), es[1..], user)
  }

  lemma LiveAfterCreate(ts: Tokens, key: string, owner: Id, expiresAt: int, user: Id)
    requires key !in ts
    ensures Live(Create(ts, key, owner, expiresAt), user) == Live(ts, user) + if owner == user then {key} else {}
    ensures |Live(Create(ts, key, owner, expiresAt), user)| == |Live(ts, user)| + if owner == user then 1 else 0
  {
    var after := Create(ts, key, owner, expiresAt);
    forall k ensures k in Live(after, user) <==> k in Live(ts, user) || (k == key && owner == user) {}
    assert Live(after, user) == Live(ts, user) + if owner == user then {key} else {};
  }

  lemma LiveAfterRevoke(ts: Tokens, key: string, user: Id)
    requires key in ts && !ts[key].revoked
    ensures |Live(Revoke(ts, key), user)| == |Live(ts, user)| - if ts[key].user == user then 1 else 0
  {
    var after := Revoke(ts, key);
    if ts[key].user == user {
      assert key in Live(ts, user) && Live(after, user) == Live(ts, user) - {key};
    } else {
      assert Live(after, user) == Live(ts, user);
    }
  }

  lemma IssueCounts(h: Hash, ts: Tokens, e: Event, user: Id)
    requires e.Issue? && Fresh(h, ts, e)
    ensures |Live(Step(h, ts, e), user)| == Counted(|Live(ts, user)|, e, user)
  {
    LiveAfterCreate(ts, h(e.raw), e.user, e.expiresAt, user);
  }

  lemma RefreshCounts(h: Hash, ts: Tokens, e: Event, user: Id)
    requires e.Refresh? && Fresh(h, ts, e)
    ensures |Live(Step(h, ts, e), user)| == |Live(ts, user)|
  {
    if Accepts(h, ts, e) {
      LiveAfterRevoke(ts, h(e.raw), user);
      LiveAfterCreate(Revoke(ts, h(e.raw)), h(e.newRaw), ts[h(e.raw)].user, e.newExpiresAt, user);
    }
  }

  lemma LogoutCounts(h: Hash, ts: Tokens, e: Event, user: Id)
    requires e.Logout?
    ensures |Live(Step(h, ts, e), user)| == Counted(|Live(ts, user)|, e, user)
  {
    assert Live(Step(h, ts, e), user) == if e.user == user then {} else Live(ts, user);
  }

  /** Main result. A user's unrevoked tokens number the logins and registrations since the last logout:
      a refresh conserves the count. */
  lemma {:induction false} LiveTokensAreLoginsSinceLogout(h: Hash, ts: Tokens, es: seq<Event>, user: Id)
    requires AllFresh(h, ts, es)
    ensures |Live(Run(h, ts, es), user)| == IssuedSinceLogout(|Live(ts, user)|, es, user)
    decreases |es|
  {
    if es != [] {
      match es[0] {
        case Issue(_, _, _) => IssueCounts(h, ts, es[0], user);
        case Refresh(_, _, _, _) => RefreshCounts(h, ts, es[0], user);
        case Logout(_) => LogoutCounts(h, ts, es[0], user);
      }
      LiveTokensAreLoginsSinceLogout(h, Step(h, ts, es[0]), es[1..], user);
    }
  }

  /** Not a transaction: when the new token collides, the old one is revoked all the same and the user has one less. */
  lemma CollisionLosesAToken(h: Hash, ts: Tokens, e: Event)
    requires Accepts(h, ts, e) && h(e.newRaw) in ts
    ensures var user := ts[h(e.raw)].user; |Live(Step(h, ts, e), user)| == |Live(ts, user)| - 1
  {
    var user := ts[h(e.raw)].user;
    assert Live(Step(h, ts, e), user) == Live(ts, user) - {h(e.raw)};
  }

  // ------------------------------------------------------------------ the table, as the service updates it

  datatype Refusal = InvalidToken | RevokedToken | ExpiredToken | UniqueHash

  class TokenStore {
    const hash: Hash
    var rows: Tokens

    constructor (hash: Hash)
      ensures this.hash == hash && rows == map[]
    {
      this.hash, rows := hash, map[];
    }

    method CreateRow(raw: string, user: Id, expiresAt: int) returns (ok: bool)
      modifies this
      ensures rows == Create(old(rows), hash(raw), user, expiresAt) && ok == (hash(raw) !in old(rows))
    {
      ok := hash(raw) !in rows;
      if ok {
        rows := rows[hash(raw) := Token(user, expiresAt, false)];
      }
    }

    method RefreshAccessToken(raw: string, now: int, newRaw: string, newExpiresAt: int)
            returns (refusal: Option<Refusal>)
      modifies this
      ensures rows == Step(hash, old(rows), Refresh(raw, now, newRaw, newExpiresAt))
      ensures refusal == Some(InvalidToken) <==> hash(raw) !in old(rows)
      ensures refusal == Some(RevokedToken) <==> hash(raw) in old(rows) && old(rows)[hash(raw)].revoked
      ensures refusal == Some(ExpiredToken) <==>
                hash(raw) in old(rows) && !old(rows)[hash(raw)].revoked && old(rows)[hash(raw)].expiresAt < now
      ensures refusal == Some(UniqueHash) <==>
                && hash(raw) in old(rows) && !old(rows)[hash(raw)].revoked && now <= old(rows)[hash(raw)].expiresAt
                && hash(newRaw) in old(rows)
      ensures refusal == None || refusal == Some(UniqueHash) ==> hash(raw) in old(rows)
      ensures refusal == None ==>
                rows == old(rows)[hash(raw) := old(rows)[hash(raw)].(revoked := true)]
                                 [hash(newRaw) := Token(old(rows)[hash(raw)].user, newExpiresAt, false)]
      ensures refusal == Some(UniqueHash) ==> rows == old(rows)[hash(raw) := old(rows)[hash(raw)].(revoked := true)]
      ensures refusal.Some? && refusal.value != UniqueHash ==> rows == old(rows)
    {
      var key := hash(raw);
      if key !in rows {
        return Some(InvalidToken);
      }
      var stored := rows[key];
      if stored.revoked {
        return Some(RevokedToken);
      }
      if stored.expiresAt < now {
        return Some(ExpiredToken);
      }
      rows := rows[key := stored.(revoked := true)];
      var ok := CreateRow(newRaw, stored.user, newExpiresAt);
      return if ok then None else Some(UniqueHash);
    }

    method LogoutUser(user: Id)
      modifies this
      ensures rows == Step(hash, old(rows), Logout(user))
      ensures rows.Keys == old(rows).Keys
      ensures forall k :: k in rows ==>
                rows[k] == old(rows)[k].(revoked := old(rows)[k].revoked || old(rows)[k].user == user)
    {
      rows := map k | k in rows :: if rows[k].user == user && !rows[k].revoked then rows[k].(revoked := true)
          else rows[k];
    }
  }
}
