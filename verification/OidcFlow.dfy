/**
 The login code flow: /authorize, /authorize/complete, /token and /userinfo. Each step below is one
 stretch of a handler between two awaits; completing an authorization is two such stretches.
 */
module OidcFlow {
  import opened Wrappers
  import opened TransientStore

  // A digest text: the digest of some text, or a text that is no digest.
  datatype Digest = Sha256(of: string) | NotADigest(text: string)

  // What the server is configured with, with the identities allowed to sign in.
  datatype Config = Config(clientId: string, redirectUri: string, allowed: seq<string>)

  // What a signer is known as to the client.
  datatype Actor = Actor(subject: string, username: string)

  // What the account tables say about a signer at the moment: an account id, if there is one, and a name.
  datatype Account = Account(id: Option<string>, name: string)

  datatype Request = Request(
    clientId: string, redirectUri: string, state: string, scope: seq<string>, nonce: Option<string>,
    codeChallenge: Option<Digest>, expiresAt: int)

  datatype Grant = Grant(request: Request, actor: Actor, authTime: int)

  datatype Access = Access(actor: Actor, clientId: string, scope: seq<string>)

  datatype Query = Query(
    clientId: string, redirectUri: string, responseType: string, state: string, scope: seq<string>,
    nonce: Option<string>, codeChallenge: Option<Digest>, challengeMethod: string)

  // A signed proof: whether its signature, kind, address, method and payload are right, and its tags.
  datatype Proof = Proof(
    genuine: bool, nonce: string, audience: string, createdAt: int, expiration: int, signer: string)

  datatype Form = Form(authenticated: bool, grantType: string, code: string, redirectUri: string, verifier: string)

  datatype Server = Server(
    config: Config, challenges: Slots<Digest, Request>, codes: Slots<Digest, Grant>, tokens: Slots<Digest, Access>,
    identities: map<string, Actor>)

  // A completion whose proof was accepted at some moment, and whose signer is being looked up.
  datatype Pending = Pending(request: Request, proof: Proof, at: int)

  datatype Denial = InvalidRequest | AccessDenied | InvalidClient | InvalidGrant | InvalidToken

  const CHALLENGE_LIFETIME := 60_000
  const TOKEN_LIFETIME := 600_000

  function Seconds(ms: int): int { ms / 1000 }

  function Distance(a: int, b: int): int { if a < b then b - a else a - b }

  predicate QueryOk(config: Config, q: Query) {
    && q.clientId == config.clientId && q.redirectUri == config.redirectUri && q.responseType == "code"
    && q.state != "" && "openid" in q.scope && (q.codeChallenge.Some? ==> q.challengeMethod == "S256")
  }

  function RequestOf(q: Query, now: int): Request {
    Request(q.clientId, q.redirectUri, q.state, q.scope, q.nonce, q.codeChallenge, now + CHALLENGE_LIFETIME)
  }

  function Authorize(s: Server, q: Query, requestId: string, now: int): (Server, Result<Request, Denial>) {
    if !QueryOk(s.config, q) then (s, Err(InvalidRequest))
    else
      var r := RequestOf(q, now);
      (s.(challenges := Stored(s.challenges, Slot(Sha256(requestId), r, r.expiresAt), now)), Ok(r))
  }

  predicate ProofOk(p: Proof, requestId: string, r: Request, now: int) {
    && p.genuine && p.nonce == requestId && p.audience == r.clientId
    && Distance(Seconds(now), p.createdAt) <= 60
    && p.expiration == Seconds(r.expiresAt) && p.expiration > Seconds(now)
  }

  /** The first stretch of a completion uses the challenge up, whatever becomes of it. */
  function Begin(s: Server, requestId: string, p: Proof, now: int): (Server, Result<Pending, Denial>) {
    var found, after := Get(s.challenges, Sha256(requestId)), s.(challenges := Delete(s.challenges, Sha256(requestId)));
    if found.None? || found.value.expiresAt <= now || !ProofOk(p, requestId, found.value.value, now)
    then (after, Err(AccessDenied))
    else (after, Ok(Pending(found.value.value, p, now)))
  }

  /** The lookup in between: an allowed signer keeps the identity first recorded for it. */
  function Resolve(s: Server, signer: string, account: Account): (Server, Option<Actor>) {
    if signer == "" || signer !in s.config.allowed then (s, None)
    else if signer in s.identities then (s, Some(s.identities[signer]))
    else
      var actor := Actor(if account.id.Some? then account.id.value else signer, account.name);
      (s.(identities := s.identities[signer := actor]), Some(actor))
  }

  /** The second stretch, once the signer's identity has been resolved. */
  function Finish(s: Server, p: Pending, actor: Option<Actor>, code: string, now: int)
    : (Server, Result<Grant, Denial>)
  {
    if actor.None? then (s, Err(AccessDenied))
    else
      var g := Grant(p.request, actor.value, Seconds(p.at));
      (s.(codes := Stored(s.codes, Slot(Sha256(code), g, p.request.expiresAt), now)), Ok(g))
  }

  predicate GrantUsable(f: Form, g: Slot<Digest, Grant>, now: int) {
    && f.grantType == "authorization_code" && g.expiresAt > now && f.redirectUri == g.value.request.redirectUri
    && (g.value.request.codeChallenge.Some? ==> Sha256(f.verifier) == g.value.request.codeChallenge.value)
  }

  /** An authenticated exchange uses the code up, whatever becomes of it. */
  function Exchange(s: Server, f: Form, token: string, now: int): (Server, Result<Access, Denial>) {
    if !f.authenticated then (s, Err(InvalidClient))
    else
      var found, after := Get(s.codes, Sha256(f.code)), s.(codes := Delete(s.codes, Sha256(f.code)));
      if found.None? || !GrantUsable(f, found.value, now) then (after, Err(InvalidGrant))
      else
        var g := found.value.value;
        var a := Access(g.actor, g.request.clientId, g.request.scope);
        (after.(tokens := Stored(after.tokens, Slot(Sha256(token), a, now + TOKEN_LIFETIME), now)), Ok(a))
  }

  function UserInfo(s: Server, token: string, now: int): (Server, Result<Actor, Denial>) {
    var found := if token == "" then None else Get(s.tokens, Sha256(token));
    if found.None? || found.value.expiresAt <= now then
      (if token == "" then s else s.(tokens := Delete(s.tokens, Sha256(token))), Err(InvalidToken))
    else (s, Ok(found.value.value.actor))
  }

  class OidcServer {
    const config: Config
    const challenges: Store<Digest, Request>
    const codes: Store<Digest, Grant>
    const tokens: Store<Digest, Access>
    var identities: map<string, Actor>

    ghost function State(): Server
      reads this, challenges, codes, tokens
    {
      Server(config, challenges.slots, codes.slots, tokens.slots, identities)
    }

    constructor (config: Config, known: map<string, Actor>)
      ensures this.config == config && fresh(challenges) && fresh(codes) && fresh(tokens)
      ensures State() == Server(config, [], [], [], known)
    {
      this.config := config;
      challenges := new Store();
      codes := new Store();
      tokens := new Store();
      identities := known;
    }

    method HandleAuthorize(q: Query, requestId: string, now: int) returns (r: Result<Request, Denial>)
      modifies challenges
      ensures (State(), r) == Authorize(old(State()), q, requestId, now)
    {
      if q.clientId != config.clientId || q.redirectUri != config.redirectUri || q.responseType != "code"
         || q.state == "" || "openid" !in q.scope {
        return Err(InvalidRequest);
      }
      if q.codeChallenge.Some? && q.challengeMethod != "S256" { return Err(InvalidRequest); }
      var request := RequestOf(q, now);
      challenges.StoreTransient(Sha256(requestId), request, request.expiresAt, now);
      return Ok(request);
    }

    method BeginCompletion(requestId: string, p: Proof, now: int) returns (r: Result<Pending, Denial>)
      modifies challenges
      ensures (State(), r) == Begin(old(State()), requestId, p, now)
    {
      var found := Get(challenges.slots, Sha256(requestId));
      challenges.slots := Delete(challenges.slots, Sha256(requestId));
      if found.None? || found.value.expiresAt <= now { return Err(AccessDenied); }
      if !ProofOk(p, requestId, found.value.value, now) { return Err(AccessDenied); }
      return Ok(Pending(found.value.value, p, now));
    }

    method ResolveIdentity(signer: string, account: Account) returns (actor: Option<Actor>)
      modifies this`identities
      ensures (State(), actor) == Resolve(old(State()), signer, account)
    {
      if signer == "" || signer !in config.allowed { return None; }
      if signer !in identities {
        identities := identities[signer := Actor(if account.id.Some? then account.id.value else signer, account.name)];
      }
      return Some(identities[signer]);
    }

    method FinishCompletion(p: Pending, actor: Option<Actor>, code: string, now: int) returns (r: Result<Grant, Denial>)
      modifies codes
      ensures (State(), r) == Finish(old(State()), p, actor, code, now)
    {
      if actor.None? { return Err(AccessDenied); }
      var grant := Grant(p.request, actor.value, Seconds(p.at));
      codes.StoreTransient(Sha256(code), grant, p.request.expiresAt, now);
      return Ok(grant);
    }

    method HandleToken(f: Form, token: string, now: int) returns (r: Result<Access, Denial>)
      modifies codes, tokens
      ensures (State(), r) == Exchange(old(State()), f, token, now)
    {
      if !f.authenticated { return Err(InvalidClient); }
      var found := Get(codes.slots, Sha256(f.code));
      codes.slots := Delete(codes.slots, Sha256(f.code));
      if found.None? || !GrantUsable(f, found.value, now) { return Err(InvalidGrant); }
      var grant := found.value.value;
      var access := Access(grant.actor, grant.request.clientId, grant.request.scope);
      tokens.StoreTransient(Sha256(token), access, now + TOKEN_LIFETIME, now);
      return Ok(access);
    }

    method HandleUserInfo(token: string, now: int) returns (r: Result<Actor, Denial>)
      modifies tokens
      ensures (State(), r) == UserInfo(old(State()), token, now)
    {
      var found := if token == "" then None else Get(tokens.slots, Sha256(token));
      if found.None? || found.value.expiresAt <= now {
        if token != "" {
          tokens.slots := Delete(tokens.slots, Sha256(token));
        }
        return Err(InvalidToken);
      }
      return Ok(found.value.value.actor);
    }
  }
}
