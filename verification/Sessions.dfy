/**
 The session authority: who a browser token stands for.

 Sessions live in the coordinator's key-value store under `sess:<kind>:<digest of token>`.
 The digest is a function this model only assumes to be injective, and a session is stored
 as the value its JSON text stands for. Each operation is one atomic step.
 */
module Sessions {
  import opened Wrappers
  import opened Kv

  datatype Principal =
    | Admin
    | Viewer
    | Client(apiKeyId: string)
    | Machine(tokenId: string, pluginId: string)

  function KindOf(p: Principal): string {
    match p
    case Admin => "admin"
    case Viewer => "viewer"
    case Client(_) => "client"
    case Machine(_, _) => "machine"
  }

  predicate IsKind(kind: string) {
    kind == "admin" || kind == "viewer" || kind == "client" || kind == "machine"
  }

  /** The kinds a session can be found under, in the order they are tried. */
  const LOOKUP_KINDS: seq<string> := ["admin", "viewer", "client"]

  datatype Session = Session(expiresAt: int, principal: Principal)

  type Table = map<string, Entry<Session>>

  const PREFIX := "sess:"

  function KindPrefix(kind: string): string {
    PREFIX + kind + ":"
  }

  function SessionKey(digest: string -> string, kind: string, token: string): string {
    KindPrefix(kind) + digest(token)
  }

  datatype ApiKey = ApiKey(id: string, revokedAt: Option<int>, expiresAt: Option<int>)

  predicate KeyUsable(key: ApiKey, now: int) {
    key.revokedAt.None? && (key.expiresAt.None? || key.expiresAt.value > now)
  }

  // ---------------------------------------------------------------- steps on the table

  function Issue(t: Table, digest: string -> string, ttl: int, p: Principal, token: string, now: int): Table {
    t[SessionKey(digest, KindOf(p), token) := Entry(Session(now + ttl, p), now + ttl)]
  }

  /** The first of `kinds` that has a live session for the token, and the table after looking. */
  function Lookup(t: Table, digest: string -> string, kinds: seq<string>, token: string, now: int)
    : (Table, Option<(string, Session)>)
  {
    if kinds == [] then (t, None)
    else
      var key := SessionKey(digest, kinds[0], token);
      var answer := Served(t, key, now);
      if answer.Some? then (t, Some((key, answer.value)))
      else Lookup(AfterGet(t, key, now), digest, kinds[1..], token, now)
  }

  function Verify(t: Table, digest: string -> string, token: string, now: int, usable: set<string>)
    : (Table, Option<Principal>)
  {
    var (t', found) := Lookup(t, digest, LOOKUP_KINDS, token, now);
    match found
    case None => (t', None)
    case Some((key, session)) =>
      if session.expiresAt <= now then (t' - {key}, None)
      else if session.principal.Client? && session.principal.apiKeyId !in usable then (t' - {key}, None)
      else (t', Some(session.principal))
  }

  function Logout(t: Table, digest: string -> string, token: string, now: int): Table {
    var (t', found) := Lookup(t, digest, LOOKUP_KINDS, token, now);
    if found.Some? then t' - {found.value.0} else t'
  }

  // ---------------------------------------------------------------- the authority

  const MIN_PASSWORD_LENGTH := 12

  datatype Refusal = PasswordTooShort

  class AdminAuth {
    const kv: Store<Session>
    const digest: string -> string
    /** Whether a password is the one behind a stored hash. */
    const matches: (string, string) -> bool
    const sessionTtl: int
    var adminHash: Option<string>
    var viewerHash: Option<string>

    constructor (kv: Store<Session>, digest: string -> string, matches: (string, string) -> bool, sessionTtl: int)
      ensures this.kv == kv && this.digest == digest && this.matches == matches && this.sessionTtl == sessionTtl
      ensures adminHash == None && viewerHash == None
    {
      this.kv, this.digest, this.matches, this.sessionTtl := kv, digest, matches, sessionTtl;
      adminHash, viewerHash := None, None;
    }

    predicate Opens(stored: Option<string>, password: string) {
      stored.Some? && matches(password, stored.value)
    }

    /** `token` is the fresh random value drawn for this session. */
    method IssueSession(p: Principal, token: string, now: int)
      modifies kv
      ensures kv.values == Issue(old(kv.values), digest, sessionTtl, p, token, now)
      ensures var key := "sess:" + KindOf(p) + ":" + digest(token);
              kv.values == old(kv.values)[key := Entry(Session(now + sessionTtl, p), now + sessionTtl)]
    {
      kv.Set(SessionKey(digest, KindOf(p), token), Session(now + sessionTtl, p), sessionTtl, now);
    }

    method LookupSession(token: string, now: int) returns (found: Option<(string, Session)>)
      modifies kv
      ensures (kv.values, found) == Lookup(old(kv.values), digest, LOOKUP_KINDS, token, now)
    {
      ghost var goal := Lookup(kv.values, digest, LOOKUP_KINDS, token, now);
      for i := 0 to |LOOKUP_KINDS|
        invariant Lookup(kv.values, digest, LOOKUP_KINDS[i..], token, now) == goal
      {
        var key := SessionKey(digest, LOOKUP_KINDS[i], token);
        assert LOOKUP_KINDS[i..][1..] == LOOKUP_KINDS[i + 1..];
        var answer := kv.Get(key, now);
        if answer.Some? {
          return Some((key, answer.value));
        }
      }
      found := None;
    }

    /** `hashed` is what the password hasher produced. */
    method SetPassword(password: string, hashed: string) returns (outcome: Result<(), Refusal>)
      modifies this, kv
      ensures outcome.Err? <==> |password| < 12
      ensures outcome.Err? ==> adminHash == old(adminHash) && kv.values == old(kv.values)
      ensures outcome.Ok? ==> adminHash == Some(hashed) && kv.values == WithoutPrefix(old(kv.values), PREFIX)
      ensures viewerHash == old(viewerHash)
    {
      if |password| < MIN_PASSWORD_LENGTH {
        return Err(PasswordTooShort);
      }
      adminHash := Some(hashed);
      kv.DelPrefix(PREFIX);
      outcome := Ok(());
    }

    /** A too-short new password is refused before the current one is looked at. */
    method ChangePassword(current: string, next: string, hashed: string) returns (outcome: Result<bool, Refusal>)
      modifies this, kv
      ensures outcome.Err? <==> |next| < 12
      ensures outcome.Ok? ==>
        outcome.value == (old(adminHash).Some? && matches(current, old(adminHash).value))
      ensures outcome == Ok(true) ==>
        adminHash == Some(hashed) && kv.values == WithoutPrefix(old(kv.values), PREFIX)
      ensures outcome != Ok(true) ==> adminHash == old(adminHash) && kv.values == old(kv.values)
      ensures viewerHash == old(viewerHash)
    {
      if |next| < MIN_PASSWORD_LENGTH {
        return Err(PasswordTooShort);
      }
      if !Opens(adminHash, current) {
        return Ok(false);
      }
      var applied := SetPassword(next, hashed);
      outcome := Ok(true);
    }

    method Login(password: string, token: string, now: int) returns (issued: Option<string>)
      modifies kv
      ensures issued == if adminHash.Some? && matches(password, adminHash.value) then Some(token) else None
      ensures kv.values ==
        if issued.Some? then Issue(old(kv.values), digest, sessionTtl, Admin, token, now) else old(kv.values)
    {
      if !Opens(adminHash, password) {
        return None;
      }
      IssueSession(Admin, token, now);
      issued := Some(token);
    }

    /** `password` is `None` to withdraw read-only access. */
    method SetViewerPassword(password: Option<string>, hashed: string) returns (outcome: Result<(), Refusal>)
      modifies this, kv
      ensures outcome.Err? <==> password.Some? && |password.value| < 12
      ensures outcome.Err? ==> viewerHash == old(viewerHash) && kv.values == old(kv.values)
      ensures outcome.Ok? ==>
        viewerHash == (if password.None? then None else Some(hashed))
        && kv.values == WithoutPrefix(old(kv.values), KindPrefix("viewer"))
      ensures adminHash == old(adminHash)
    {
      if password.Some? && |password.value| < MIN_PASSWORD_LENGTH {
        return Err(PasswordTooShort);
      }
      viewerHash := if password.None? then None else Some(hashed);
      kv.DelPrefix(KindPrefix("viewer"));
      outcome := Ok(());
    }

    method LoginViewer(password: string, token: string, now: int) returns (issued: Option<string>)
      modifies kv
      ensures issued == if viewerHash.Some? && matches(password, viewerHash.value) then Some(token) else None
      ensures kv.values ==
        if issued.Some? then Issue(old(kv.values), digest, sessionTtl, Viewer, token, now) else old(kv.values)
    {
      if !Opens(viewerHash, password) {
        return None;
      }
      IssueSession(Viewer, token, now);
      issued := Some(token);
    }

    /** `found` is the key the store holds under the digest of what was presented. */
    method LoginClient(found: Option<ApiKey>, token: string, now: int) returns (issued: Option<string>)
      modifies kv
      ensures issued == if found.Some? && found.value.revokedAt.None?
                           && (found.value.expiresAt.Some? ==> now < found.value.expiresAt.value)
                        then Some(token) else None
      ensures issued.Some? ==>
        kv.values == Issue(old(kv.values), digest, sessionTtl, Client(found.value.id), token, now)
      ensures issued.None? ==> kv.values == old(kv.values)
    {
      if found.None? || !KeyUsable(found.value, now) {
        return None;
      }
      IssueSession(Client(found.value.id), token, now);
      issued := Some(token);
    }

    method VerifyToken(token: string, now: int, keys: map<string, ApiKey>) returns (principal: Option<Principal>)
      modifies kv
      ensures var usable := set id | id in keys && keys[id].revokedAt.None?
                                     && (keys[id].expiresAt.Some? ==> now < keys[id].expiresAt.value);
              (kv.values, principal) == Verify(old(kv.values), digest, token, now, usable)
    {
      var found := LookupSession(token, now);
      if found.None? {
        return None;
      }
      var (key, session) := found.value;
      if session.expiresAt <= now {
        kv.Del(key);
        return None;
      }
      if session.principal.Client? {
        var id := session.principal.apiKeyId;
        if id !in keys || !KeyUsable(keys[id], now) {
          kv.Del(key);
          return None;
        }
      }
      principal := Some(session.principal);
    }

    method LogoutToken(token: string, now: int)
      modifies kv
      ensures kv.values == Logout(old(kv.values), digest, token, now)
    {
      var found := LookupSession(token, now);
      if found.Some? {
        kv.Del(found.value.0);
      }
    }

    method InvalidateSessions()
      modifies kv
      ensures kv.values == WithoutPrefix(old(kv.values), PREFIX)
    {
      kv.DelPrefix(PREFIX);
    }

    method InvalidateKind(kind: string)
      modifies kv
      ensures kv.values == WithoutPrefix(old(kv.values), KindPrefix(kind))
    {
      kv.DelPrefix(KindPrefix(kind));
    }
  }

  // ---------------------------------------------------------------- histories

  /** What happened to the authority, in order. `usable` is what the key store said at a verify. */
  datatype Event =
    | Issued(token: string, principal: Principal, at: int)
    | LoggedOut(token: string, at: int)
    | PasswordSet(at: int)
    | ViewerPasswordSet(at: int)
    | AllInvalidated(at: int)
    | KindInvalidated(kind: string, at: int)
    | Verified(token: string, usable: set<string>, at: int)

  function Apply(t: Table, digest: string -> string, ttl: int, e: Event): Table {
    match e
    case Issued(token, p, at) => Issue(t, digest, ttl, p, token, at)
    case LoggedOut(token, at) => Logout(t, digest, token, at)
    case PasswordSet(_) => WithoutPrefix(t, PREFIX)
    case ViewerPasswordSet(_) => WithoutPrefix(t, KindPrefix("viewer"))
    case AllInvalidated(_) => WithoutPrefix(t, PREFIX)
    case KindInvalidated(kind, _) => WithoutPrefix(t, KindPrefix(kind))
    case Verified(token, usable, at) => Verify(t, digest, token, at, usable).0
  }

  function Replay(digest: string -> string, ttl: int, h: seq<Event>): Table {
    if h == [] then map[] else Apply(Replay(digest, ttl, h[..|h| - 1]), digest, ttl, h[|h| - 1])
  }

  ghost predicate Injective(digest: string -> string) {
    forall a, b :: digest(a) == digest(b) ==> a == b
  }

  /** A clock that does not go back, tokens never drawn twice, and only the issuable kinds issued. */
  ghost predicate WellFormed(h: seq<Event>, now: int) {
    && (forall i :: 0 <= i < |h| ==> h[i].at <= now)
    && (forall i, j :: 0 <= i < j < |h| ==> h[i].at <= h[j].at)
    && (forall i, j :: 0 <= i < j < |h| && h[i].Issued? && h[j].Issued? ==> h[i].token != h[j].token)
    && (forall i :: 0 <= i < |h| && h[i].Issued? ==> !h[i].principal.Machine?)
    && (forall i :: 0 <= i < |h| && h[i].KindInvalidated? ==> IsKind(h[i].kind))
  }

  /** The events that end the session of one token and principal. */
  predicate Ends(e: Event, token: string, p: Principal) {
    match e
    case Issued(_, _, _) => false
    case LoggedOut(t, _) => t == token
    case PasswordSet(_) => true
    case ViewerPasswordSet(_) => p.Viewer?
    case AllInvalidated(_) => true
    case KindInvalidated(kind, _) => kind == KindOf(p)
    case Verified(t, usable, _) => t == token && p.Client? && p.apiKeyId !in usable
  }

  /** The token was issued for `p` at position `i` and nothing since has ended that session. */
  ghost predicate Stands(h: seq<Event>, i: nat, token: string, p: Principal) {
    && i < |h| && h[i].Issued? && h[i].token == token && h[i].principal == p
    && forall j :: i < j < |h| ==> !Ends(h[j], token, p)
  }

  /** The same, read off the end of the history: the standing principal and when it was issued. */
  ghost function Standing(h: seq<Event>, token: string): Option<(Principal, int)> {
    if h == [] then None
    else
      var e := h[|h| - 1];
      var earlier := Standing(h[..|h| - 1], token);
      if e.Issued? && e.token == token then Some((e.principal, e.at))
      else if earlier.Some? && Ends(e, token, earlier.value.0) then None
      else earlier
  }

  lemma {:induction false} StandingStands(h: seq<Event>, token: string) returns (i: nat)
    requires Standing(h, token).Some?
    ensures Stands(h, i, token, Standing(h, token).value.0)
    ensures h[i].at == Standing(h, token).value.1
  {
    var e := h[|h| - 1];
    if e.Issued? && e.token == token {
      i := |h| - 1;
    } else {
      i := StandingStands(h[..|h| - 1], token);
    }
  }

  lemma {:induction false} StandsStanding(h: seq<Event>, i: nat, token: string, p: Principal, now: int)
    requires WellFormed(h, now) && Stands(h, i, token, p)
    ensures Standing(h, token) == Some((p, h[i].at))
  {
    if i < |h| - 1 {
      var before := h[..|h| - 1];
      assert forall j :: 0 <= j < |before| ==> before[j] == h[j];
      StandsStanding(before, i, token, p, now);
    }
  }

  lemma {:induction false} UnissuedStandsNowhere(h: seq<Event>, token: string)
    requires forall i :: 0 <= i < |h| && h[i].Issued? ==> h[i].token != token
    ensures Standing(h, token) == None
  {
    if h != [] {
      UnissuedStandsNowhere(h[..|h| - 1], token);
    }
  }

  // ---------------------------------------------------------------- keys

  lemma {:induction false} KindsApart(kind: string, other: string, rest: string)
    requires IsKind(kind) && IsKind(other)
    ensures KindPrefix(kind) <= KindPrefix(other) + rest <==> kind == other
    ensures PREFIX <= KindPrefix(other) + rest
  {
    assert KindPrefix(kind)[5] == kind[0];
    assert (KindPrefix(other) + rest)[5] == other[0];
  }

  lemma {:induction false} KeysApart(digest: string -> string, kind: string, token: string, other: string,
                                     token': string)
    requires Injective(digest) && IsKind(kind) && IsKind(other)
    requires SessionKey(digest, kind, token) == SessionKey(digest, other, token')
    ensures kind == other && token == token'
  {
    KindsApart(kind, other, digest(token'));
    assert SessionKey(digest, kind, token)[|KindPrefix(kind)|..] == digest(token);
    assert SessionKey(digest, other, token')[|KindPrefix(other)|..] == digest(token');
  }

  // ---------------------------------------------------------------- refinement

  /** What the table serves for a token under one kind is what the history says. */
  ghost predicate Agrees(t: Table, digest: string -> string, ttl: int, h: seq<Event>, kind: string, token: string,
                         now: int) {
    var standing := Standing(h, token);
    Served(t, SessionKey(digest, kind, token), now) ==
    if standing.Some? && KindOf(standing.value.0) == kind && standing.value.1 + ttl > now
    then Some(Session(standing.value.1 + ttl, standing.value.0)) else None
  }

  /** An entry's lifetime is the one its session records. */
  ghost predicate Consistent(t: Table, digest: string -> string) {
    forall kind, token :: IsKind(kind) && SessionKey(digest, kind, token) in t ==>
      var entry := t[SessionKey(digest, kind, token)];
      entry.expiresAt == entry.value.expiresAt
  }

  ghost predicate Refines(t: Table, digest: string -> string, ttl: int, h: seq<Event>, now: int) {
    && Consistent(t, digest)
    && forall kind, token :: IsKind(kind) ==> Agrees(t, digest, ttl, h, kind, token, now)
  }

  lemma {:induction false} RefinesLater(t: Table, digest: string -> string, ttl: int, h: seq<Event>, now: int,
                                        later: int)
    requires Refines(t, digest, ttl, h, now) && now <= later
    ensures Refines(t, digest, ttl, h, later)
  {
    forall kind, token | IsKind(kind)
      ensures Agrees(t, digest, ttl, h, kind, token, later)
    {
      assert Agrees(t, digest, ttl, h, kind, token, now);
    }
  }

  /** Looking a token up only forgets what no later read would have served. */
  lemma {:induction false} LookupForgetsNothingLive(t: Table, digest: string -> string, kinds: seq<string>,
                                                    token: string, now: int)
    ensures var t' := Lookup(t, digest, kinds, token, now).0;
            && (forall k :: k in t' ==> k in t && t'[k] == t[k])
            && (forall k :: Served(t', k, now) == Served(t, k, now))
    decreases |kinds|
  {
    if kinds != [] {
      LookupForgetsNothingLive(AfterGet(t, SessionKey(digest, kinds[0], token), now), digest, kinds[1..], token, now);
    }
  }

  /** A token with a live session under one kind only is found there; one with none is not found. */
  lemma {:induction false} LookupFinds(t: Table, digest: string -> string, kinds: seq<string>, token: string,
                                       now: int, kind: string)
    requires forall other ::
               other in kinds && other != kind ==> Served(t, SessionKey(digest, other, token), now) == None
    ensures var answer := Served(t, SessionKey(digest, kind, token), now);
            Lookup(t, digest, kinds, token, now).1 ==
            if kind in kinds && answer.Some? then Some((SessionKey(digest, kind, token), answer.value)) else None
    decreases |kinds|
  {
    if kinds != [] {
      var key := SessionKey(digest, kinds[0], token);
      assert kinds == [kinds[0]] + kinds[1..];
      if Served(t, key, now).None? {
        var t' := AfterGet(t, key, now);
        assert forall k :: Served(t', k, now) == Served(t, k, now);
        LookupFinds(t', digest, kinds[1..], token, now, kind);
      }
    }
  }

  /** Under refinement, a lookup finds exactly the standing, unexpired session. */
  lemma {:induction false} LookupRefined(t: Table, digest: string -> string, ttl: int, h: seq<Event>, token: string,
                                         now: int)
    requires Refines(t, digest, ttl, h, now) && WellFormed(h, now)
    ensures var standing := Standing(h, token);
            Lookup(t, digest, LOOKUP_KINDS, token, now).1 ==
            if standing.Some? && standing.value.1 + ttl > now
            then Some((SessionKey(digest, KindOf(standing.value.0), token),
                       Session(standing.value.1 + ttl, standing.value.0)))
            else None
  {
    var standing := Standing(h, token);
    var kind := "admin";
    if standing.Some? {
      var i := StandingStands(h, token);
      kind := KindOf(standing.value.0);
    }
    assert kind in LOOKUP_KINDS;
    forall other | other in LOOKUP_KINDS
      ensures Agrees(t, digest, ttl, h, other, token, now)
    {
      assert IsKind(other);
    }
    LookupFinds(t, digest, LOOKUP_KINDS, token, now, kind);
  }

  lemma {:induction false} IssueRefines(t: Table, digest: string -> string, ttl: int, h: seq<Event>, now: int)
    requires Injective(digest) && h != [] && h[|h| - 1].Issued? && WellFormed(h, now)
    requires Refines(t, digest, ttl, h[..|h| - 1], h[|h| - 1].at)
    ensures Refines(Apply(t, digest, ttl, h[|h| - 1]), digest, ttl, h, h[|h| - 1].at)
  {
    var before, e := h[..|h| - 1], h[|h| - 1];
    var t' := Apply(t, digest, ttl, e);
    UnissuedStandsNowhere(before, e.token);
    forall kind, token | IsKind(kind)
      ensures Agrees(t', digest, ttl, h, kind, token, e.at)
      ensures SessionKey(digest, kind, token) in t' ==>
        t'[SessionKey(digest, kind, token)].expiresAt == t'[SessionKey(digest, kind, token)].value.expiresAt
    {
      assert Agrees(t, digest, ttl, before, kind, token, e.at);
      if SessionKey(digest, kind, token) == SessionKey(digest, KindOf(e.principal), e.token) {
        KeysApart(digest, kind, token, KindOf(e.principal), e.token);
      }
    }
  }

  ghost predicate EndsExactly(e: Event, kinds: set<string>) {
    forall token, p :: Ends(e, token, p) <==> KindOf(p) in kinds
  }

  /** Deleting under a prefix that covers exactly the kinds whose sessions the event ends. */
  lemma {:induction false} SweepRefines(t: Table, digest: string -> string, ttl: int, h: seq<Event>, now: int,
                                        prefix: string, swept: set<string>)
    requires h != [] && WellFormed(h, now) && !h[|h| - 1].Issued?
    requires Refines(t, digest, ttl, h[..|h| - 1], h[|h| - 1].at)
    requires EndsExactly(h[|h| - 1], swept)
    requires forall kind, rest :: IsKind(kind) ==> (prefix <= KindPrefix(kind) + rest <==> kind in swept)
    ensures Refines(WithoutPrefix(t, prefix), digest, ttl, h, h[|h| - 1].at)
  {
    var before, e := h[..|h| - 1], h[|h| - 1];
    var t' := WithoutPrefix(t, prefix);
    forall kind, token | IsKind(kind)
      ensures Agrees(t', digest, ttl, h, kind, token, e.at)
    {
      assert Agrees(t, digest, ttl, before, kind, token, e.at);
      assert prefix <= KindPrefix(kind) + digest(token) <==> kind in swept;
      if Standing(before, token).Some? {
        assert Ends(e, token, Standing(before, token).value.0) <==> KindOf(Standing(before, token).value.0) in swept;
      }
    }
  }

  lemma {:induction false} KindSweepRefines(t: Table, digest: string -> string, ttl: int, h: seq<Event>, now: int,
                                            kind: string)
    requires h != [] && WellFormed(h, now) && IsKind(kind)
    requires Refines(t, digest, ttl, h[..|h| - 1], h[|h| - 1].at)
    requires h[|h| - 1] == KindInvalidated(kind, h[|h| - 1].at) || (kind == "viewer" && h[|h| - 1].ViewerPasswordSet?)
    ensures Refines(WithoutPrefix(t, KindPrefix(kind)), digest, ttl, h, h[|h| - 1].at)
  {
    forall other, rest | IsKind(other)
      ensures KindPrefix(kind) <= KindPrefix(other) + rest <==> other in {kind}
    {
      KindsApart(kind, other, rest);
    }
    FirstLetters();
    assert EndsExactly(h[|h| - 1], {kind});
    SweepRefines(t, digest, ttl, h, now, KindPrefix(kind), {kind});
  }

  lemma {:induction false} FirstLetters()
    ensures "admin" != "viewer" && "client" != "viewer" && "machine" != "viewer"
  {
    assert "admin"[0] == 'a' && "client"[0] == 'c' && "machine"[0] == 'm' && "viewer"[0] == 'v';
  }

  lemma {:induction false} FullSweepRefines(t: Table, digest: string -> string, ttl: int, h: seq<Event>, now: int)
    requires h != [] && WellFormed(h, now)
    requires Refines(t, digest, ttl, h[..|h| - 1], h[|h| - 1].at)
    requires h[|h| - 1].PasswordSet? || h[|h| - 1].AllInvalidated?
    ensures Refines(WithoutPrefix(t, PREFIX), digest, ttl, h, h[|h| - 1].at)
  {
    var kinds := {"admin", "viewer", "client", "machine"};
    forall other, rest | IsKind(other)
      ensures PREFIX <= KindPrefix(other) + rest
    {
      KindsApart(other, other, rest);
    }
    assert EndsExactly(h[|h| - 1], kinds);
    SweepRefines(t, digest, ttl, h, now, PREFIX, kinds);
  }

  /** Looking a token up and, when `drop` says so, deleting what was found. */
  lemma {:induction false} DropRefines(t: Table, digest: string -> string, ttl: int, h: seq<Event>, now: int, t': Table)
    requires Injective(digest) && h != [] && WellFormed(h, now)
    requires h[|h| - 1].LoggedOut? || h[|h| - 1].Verified?
    requires Refines(t, digest, ttl, h[..|h| - 1], h[|h| - 1].at)
    requires var e := h[|h| - 1];
             var standing := Standing(h[..|h| - 1], e.token);
             var looked := Lookup(t, digest, LOOKUP_KINDS, e.token, e.at).0;
             t' == if standing.Some? && standing.value.1 + ttl > e.at && Ends(e, e.token, standing.value.0)
                   then looked - {SessionKey(digest, KindOf(standing.value.0), e.token)} else looked
    ensures Refines(t', digest, ttl, h, h[|h| - 1].at)
  {
    var before, e := h[..|h| - 1], h[|h| - 1];
    var standing := Standing(before, e.token);
    LookupForgetsNothingLive(t, digest, LOOKUP_KINDS, e.token, e.at);
    forall kind, token | IsKind(kind)
      ensures Agrees(t', digest, ttl, h, kind, token, e.at)
    {
      assert Agrees(t, digest, ttl, before, kind, token, e.at);
      if standing.Some? && SessionKey(digest, kind, token) == SessionKey(digest, KindOf(standing.value.0), e.token) {
        KeysApart(digest, kind, token, KindOf(standing.value.0), e.token);
      }
    }
  }

  lemma {:induction false} StepRefines(t: Table, digest: string -> string, ttl: int, h: seq<Event>, now: int)
    requires Injective(digest) && h != [] && WellFormed(h, now)
    requires Refines(t, digest, ttl, h[..|h| - 1], h[|h| - 1].at)
    ensures Refines(Apply(t, digest, ttl, h[|h| - 1]), digest, ttl, h, h[|h| - 1].at)
  {
    var before, e := h[..|h| - 1], h[|h| - 1];
    match e
    case Issued(_, _, _) => IssueRefines(t, digest, ttl, h, now);
    case PasswordSet(_) => FullSweepRefines(t, digest, ttl, h, now);
    case AllInvalidated(_) => FullSweepRefines(t, digest, ttl, h, now);
    case ViewerPasswordSet(_) => KindSweepRefines(t, digest, ttl, h, now, "viewer");
    case KindInvalidated(kind, _) => KindSweepRefines(t, digest, ttl, h, now, kind);
    case LoggedOut(token, at) =>
      LookupRefined(t, digest, ttl, before, token, at);
      DropRefines(t, digest, ttl, h, now, Apply(t, digest, ttl, e));
    case Verified(token, usable, at) =>
      LookupRefined(t, digest, ttl, before, token, at);
      DropRefines(t, digest, ttl, h, now, Apply(t, digest, ttl, e));
  }

  lemma {:induction false} ReplayRefines(digest: string -> string, ttl: int, h: seq<Event>, now: int)
    requires Injective(digest) && WellFormed(h, now)
    ensures Refines(Replay(digest, ttl, h), digest, ttl, h, now)
  {
    if h != [] {
      var before, e := h[..|h| - 1], h[|h| - 1];
      ReplayRefines(digest, ttl, before, e.at);
      StepRefines(Replay(digest, ttl, before), digest, ttl, h, now);
      RefinesLater(Replay(digest, ttl, h), digest, ttl, h, e.at, now);
    }
  }

  /** That session, less than one TTL old. */
  ghost predicate Current(h: seq<Event>, i: nat, token: string, p: Principal, ttl: int, now: int) {
    Stands(h, i, token, p) && now < h[i].at + ttl
  }

  /**
   The session authority, over every history: a verify answers `p` if and only if the token
   was issued for `p` less than one TTL ago, nothing since has ended that session, and a
   client's key is usable now.
   */
  lemma {:induction false} SessionAuthority(digest: string -> string, ttl: int, h: seq<Event>, token: string,
                                            now: int, usable: set<string>, p: Principal)
    requires Injective(digest) && WellFormed(h, now)
    ensures Verify(Replay(digest, ttl, h), digest, token, now, usable).1 == Some(p) <==>
            (p.Client? ==> p.apiKeyId in usable) && exists i: nat :: Current(h, i, token, p, ttl, now)
  {
    ReplayRefines(digest, ttl, h, now);
    LookupRefined(Replay(digest, ttl, h), digest, ttl, h, token, now);
    if Standing(h, token).Some? {
      var i := StandingStands(h, token);
      assert now < h[i].at + ttl ==> Current(h, i, token, Standing(h, token).value.0, ttl, now);
    }
    forall i: nat, q | Stands(h, i, token, q)
      ensures Standing(h, token) == Some((q, h[i].at))
    {
      StandsStanding(h, i, token, q, now);
    }
  }

  /** Where a position of a history lies once an event is inserted at `k`. */
  function Shifted(k: nat, i: nat): nat {
    if i < k then i else i + 1
  }

  /** A history, and the same one with an event inserted at `k`. */
  ghost predicate Inserted(less: seq<Event>, full: seq<Event>, k: nat) {
    k <= |less| && |full| == |less| + 1 && forall i: nat :: i < |less| ==> less[i] == full[Shifted(k, i)]
  }

  lemma {:induction false} WellFormedWithout(less: seq<Event>, full: seq<Event>, k: nat, now: int)
    requires Inserted(less, full, k) && WellFormed(full, now)
    ensures WellFormed(less, now)
  {
    forall i: nat, j: nat | i < j < |less|
      ensures less[i].at <= less[j].at
      ensures less[i].Issued? && less[j].Issued? ==> less[i].token != less[j].token
    {
      assert less[i] == full[Shifted(k, i)] && less[j] == full[Shifted(k, j)] && Shifted(k, i) < Shifted(k, j);
    }
  }

  /** An event that issues nothing and does not end a session leaves it standing where it stood. */
  lemma {:induction false} StandsEitherWay(less: seq<Event>, full: seq<Event>, k: nat, i: nat, token: string,
                                           p: Principal)
    requires Inserted(less, full, k) && !Ends(full[k], token, p) && i < |less|
    ensures Stands(less, i, token, p) <==> Stands(full, Shifted(k, i), token, p)
  {
    if Stands(less, i, token, p) {
      forall j | Shifted(k, i) < j < |full|
        ensures !Ends(full[j], token, p)
      {
        if j != k {
          var j': nat := if j < k then j else j - 1;
          assert less[j'] == full[j] && i < j';
        }
      }
    }
    if Stands(full, Shifted(k, i), token, p) {
      forall j | i < j < |less|
        ensures !Ends(less[j], token, p)
      {
        assert less[j] == full[Shifted(k, j)] && Shifted(k, i) < Shifted(k, j);
      }
    }
  }

  lemma {:induction false} CurrentEitherWay(less: seq<Event>, full: seq<Event>, k: nat, token: string, p: Principal,
                                            ttl: int, now: int)
    requires Inserted(less, full, k) && !Ends(full[k], token, p) && !full[k].Issued?
    ensures (exists i: nat :: Current(less, i, token, p, ttl, now)) <==>
            exists i: nat :: Current(full, i, token, p, ttl, now)
  {
    if i: nat :| Current(less, i, token, p, ttl, now) {
      StandsEitherWay(less, full, k, i, token, p);
      assert Current(full, Shifted(k, i), token, p, ttl, now);
    }
    if i: nat :| Current(full, i, token, p, ttl, now) {
      var i': nat := if i < k then i else i - 1;
      assert i != k && Shifted(k, i') == i;
      StandsEitherWay(less, full, k, i', token, p);
      assert Current(less, i', token, p, ttl, now);
    }
  }

  /**
   Changing the viewer password, at any moment of any history, ends no admin or client session: at every
   later moment they verify just as they would without the change.
   */
  lemma {:induction false} ViewerPasswordSparesOthers(digest: string -> string, ttl: int, h: seq<Event>, at: int,
                                                      rest: seq<Event>, token: string, now: int,
                                                      usable: set<string>, p: Principal)
    requires Injective(digest) && WellFormed(h + [ViewerPasswordSet(at)] + rest, now) && !p.Viewer?
    ensures Verify(Replay(digest, ttl, h + [ViewerPasswordSet(at)] + rest), digest, token, now, usable).1 == Some(p)
            <==> Verify(Replay(digest, ttl, h + rest), digest, token, now, usable).1 == Some(p)
  {
    var less, full := h + rest, h + [ViewerPasswordSet(at)] + rest;
    assert Inserted(less, full, |h|) && full[|h|] == ViewerPasswordSet(at);
    WellFormedWithout(less, full, |h|, now);
    SessionAuthority(digest, ttl, less, token, now, usable, p);
    SessionAuthority(digest, ttl, full, token, now, usable, p);
    CurrentEitherWay(less, full, |h|, token, p, ttl, now);
  }
}
