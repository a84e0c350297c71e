/** The login flow under any interleaving of its handlers, with every random token new. */
module OidcRuns {
  import opened Wrappers
  import opened TransientStore
  import opened OidcFlow

  datatype Authorized = Authorized(requestId: string, query: Query, request: Request, at: int)

  // A code, with the proof it was issued for and the moment that proof was accepted.
  datatype Issued = Issued(requestId: string, code: string, grant: Grant, proof: Proof, provenAt: int)

  datatype Exchanged = Exchanged(form: Form, token: string, access: Access, at: int)

  // The server, completions under way and the lookups made for them, the random texts drawn so far, and what was
  // handed out.
  datatype World = World(
    server: Server, pending: map<string, Pending>, found: map<string, Option<Actor>>, drawn: set<string>,
    requests: seq<Authorized>, codes: seq<Issued>, tokens: seq<Exchanged>)

  datatype Step =
    | AuthorizeStep(q: Query, requestId: string, now: int)
    | BeginStep(requestId: string, proof: Proof, now: int)
    | LookupStep(requestId: string, account: Account)
    | FinishStep(requestId: string, code: string, now: int)
    | ExchangeStep(form: Form, token: string, now: int)
    | UserInfoStep(token: string, now: int)

  // The identities known from before are kept; everything else starts empty.
  function Start(config: Config, known: map<string, Actor>): World {
    World(Server(config, [], [], [], known), map[], map[], {}, [], [], [])
  }

  function Next(w: World, s: Step): World {
    match s
    case AuthorizeStep(q, requestId, now) =>
      var (server, r) := Authorize(w.server, q, requestId, now);
      if requestId in w.drawn || r.Err? then w
      else
        w.(server := server, drawn := w.drawn + {requestId},
           requests := w.requests + [Authorized(requestId, q, r.value, now)])
    case BeginStep(requestId, proof, now) =>
      var (server, r) := Begin(w.server, requestId, proof, now);
      w.(server := server, pending := if r.Ok? then w.pending[requestId := r.value] else w.pending)
    case LookupStep(requestId, account) =>
      if requestId !in w.pending || requestId in w.found then w
      else
        var (server, actor) := Resolve(w.server, w.pending[requestId].proof.signer, account);
        w.(server := server, found := w.found[requestId := actor])
    case FinishStep(requestId, code, now) =>
      if requestId !in w.pending || requestId !in w.found || code in w.drawn then w
      else
        var begun := w.pending[requestId];
        var (server, r) := Finish(w.server, begun, w.found[requestId], code, now);
        var rest := Closed(w, requestId);
        if r.Err? then rest
        else
          rest.(server := server, drawn := w.drawn + {code},
                codes := w.codes + [Issued(requestId, code, r.value, begun.proof, begun.at)])
    case ExchangeStep(form, token, now) =>
      var (server, r) := Exchange(w.server, form, token, now);
      if token in w.drawn then w
      else if r.Err? then w.(server := server)
      else w.(server := server, drawn := w.drawn + {token}, tokens := w.tokens + [Exchanged(form, token, r.value, now)])
    case UserInfoStep(token, now) => w.(server := UserInfo(w.server, token, now).0)
  }

  /** The world without a completion under way. */
  function Closed(w: World, requestId: string): World {
    w.(pending := w.pending - {requestId}, found := w.found - {requestId})
  }

  function Run(w: World, steps: seq<Step>): World {
    if steps == [] then w else Next(Run(w, steps[..|steps| - 1]), steps[|steps| - 1])
  }

  // ------------------------------------------------------------------ the invariant

  /** An accepted authorize request, valid for a minute. */
  ghost predicate WasAuthorized(w: World, requestId: string, r: Request) {
    exists a ::
      a in w.requests && a.requestId == requestId && a.request == r && r.expiresAt == a.at + CHALLENGE_LIFETIME
  }

  ghost predicate WasIssued(w: World, code: string, g: Grant) {
    exists i :: i in w.codes && i.code == code && i.grant == g
  }

  ghost predicate WasExchanged(w: World, token: string, a: Access, expiresAt: int) {
    exists t :: t in w.tokens && t.token == token && t.access == a && expiresAt == t.at + TOKEN_LIFETIME
  }

  ghost predicate HasCode(w: World, requestId: string) { exists i :: i in w.codes && i.requestId == requestId }

  ghost predicate HasToken(w: World, code: string) { exists t :: t in w.tokens && t.form.code == code }

  ghost predicate ChallengeOk(w: World, s: Slot<Digest, Request>) {
    && s.key.Sha256? && s.expiresAt == s.value.expiresAt && WasAuthorized(w, s.key.of, s.value)
    && s.key.of !in w.pending && !HasCode(w, s.key.of)
  }

  ghost predicate CodeOk(w: World, s: Slot<Digest, Grant>) {
    && s.key.Sha256? && s.expiresAt == s.value.request.expiresAt && WasIssued(w, s.key.of, s.value)
    && !HasToken(w, s.key.of)
  }

  ghost predicate TokenOk(w: World, s: Slot<Digest, Access>) {
    s.key.Sha256? && WasExchanged(w, s.key.of, s.value, s.expiresAt)
  }

  /** What an accepted authorize request asked for. */
  predicate RequestOk(config: Config, a: Authorized) {
    && a.request.clientId == config.clientId && a.request.redirectUri == config.redirectUri
    && "openid" in a.request.scope && a.request.state != "" && a.query.responseType == "code"
    && (a.request.codeChallenge.Some? ==> a.query.challengeMethod == "S256")
    && a.request.codeChallenge == a.query.codeChallenge && a.request.scope == a.query.scope
  }

  /** A genuine signed proof made for this very request, recently, and accepted before the request expired. */
  predicate Proven(p: Proof, requestId: string, r: Request, at: int) {
    && p.genuine && p.nonce == requestId && p.audience == r.clientId && p.expiration == Seconds(r.expiresAt)
    && Seconds(at) - 60 <= p.createdAt <= Seconds(at) + 60 && at < r.expiresAt
  }

  /** The identity on record for an allowed signer. */
  predicate SignsAs(s: Server, signer: string, actor: Actor) {
    signer in s.config.allowed && signer in s.identities && s.identities[signer] == actor
  }

  ghost predicate PendingOk(w: World, requestId: string)
    requires requestId in w.pending
  {
    && WasAuthorized(w, requestId, w.pending[requestId].request) && !HasCode(w, requestId)
    && Proven(w.pending[requestId].proof, requestId, w.pending[requestId].request, w.pending[requestId].at)
  }

  /** A lookup was made for a completion under way, and found what its signer signs as. */
  predicate FoundOk(w: World, requestId: string)
    requires requestId in w.found
  {
    && requestId in w.pending
    && (w.found[requestId].Some? ==> SignsAs(w.server, w.pending[requestId].proof.signer, w.found[requestId].value))
  }

  /** A code belongs to one authorize request and one proof for it, and stands for what the signer signs as. */
  ghost predicate IssuedOk(w: World, i: Issued) {
    && WasAuthorized(w, i.requestId, i.grant.request)
    && Proven(i.proof, i.requestId, i.grant.request, i.provenAt) && i.grant.authTime == Seconds(i.provenAt)
    && SignsAs(w.server, i.proof.signer, i.grant.actor)
  }

  /**
   A token goes back to one code and through it to one authorize request: same client, redirect address and
   scope, the actor resolved at completion, a verifier matching the challenge, all before the request expired.
   */
  ghost predicate TracedTo(w: World, t: Exchanged, i: Issued) {
    && i in w.codes && i.code == t.form.code
    && t.access == Access(i.grant.actor, i.grant.request.clientId, i.grant.request.scope)
    && t.form.authenticated && t.form.redirectUri == i.grant.request.redirectUri
    && (i.grant.request.codeChallenge.Some? ==> i.grant.request.codeChallenge.value == Sha256(t.form.verifier))
    && t.at < i.grant.request.expiresAt
  }

  ghost predicate Traced(w: World, t: Exchanged) { exists i :: TracedTo(w, t, i) }

  ghost predicate StoresOk(w: World) {
    && (forall s {:trigger ChallengeOk(w, s)} :: s in w.server.challenges ==> ChallengeOk(w, s))
    && (forall s {:trigger CodeOk(w, s)} :: s in w.server.codes ==> CodeOk(w, s))
    && (forall s {:trigger TokenOk(w, s)} :: s in w.server.tokens ==> TokenOk(w, s))
  }

  ghost predicate Bounded(w: World) {
    && UniqueKeys(w.server.challenges) && |w.server.challenges| <= MAX_TRANSIENT_GRANTS
    && UniqueKeys(w.server.codes) && |w.server.codes| <= MAX_TRANSIENT_GRANTS
    && UniqueKeys(w.server.tokens) && |w.server.tokens| <= MAX_TRANSIENT_GRANTS
  }

  ghost predicate LogsOk(w: World) {
    && (forall a :: a in w.requests ==> RequestOk(w.server.config, a))
    && (forall id {:trigger PendingOk(w, id)} :: id in w.pending ==> PendingOk(w, id))
    && (forall id {:trigger FoundOk(w, id)} :: id in w.found ==> FoundOk(w, id))
    && (forall i {:trigger IssuedOk(w, i)} :: i in w.codes ==> IssuedOk(w, i))
    && (forall t {:trigger Traced(w, t)} :: t in w.tokens ==> Traced(w, t))
  }

  /** Everything handed out was drawn, and nothing was handed out twice. */
  ghost predicate OnceEach(w: World) {
    && (forall a :: a in w.requests ==> a.requestId in w.drawn)
    && (forall i :: i in w.codes ==> i.code in w.drawn)
    && (forall t :: t in w.tokens ==> t.token in w.drawn)
    && (forall i, j :: 0 <= i < j < |w.requests| ==> w.requests[i].requestId != w.requests[j].requestId)
    && (forall i, j :: 0 <= i < j < |w.codes| ==>
          w.codes[i].requestId != w.codes[j].requestId && w.codes[i].code != w.codes[j].code)
    && (forall i, j :: 0 <= i < j < |w.tokens| ==>
          w.tokens[i].form.code != w.tokens[j].form.code && w.tokens[i].token != w.tokens[j].token)
  }

  ghost predicate Sound(w: World) { StoresOk(w) && Bounded(w) && LogsOk(w) && OnceEach(w) }

  // ------------------------------------------------------------------ growing the history

  /** The facts that only ask for entries survive longer histories. */
  ghost predicate Extends(w: World, v: World) {
    && (forall a :: a in w.requests ==> a in v.requests)
    && (forall i :: i in w.codes ==> i in v.codes)
    && (forall t :: t in w.tokens ==> t in v.tokens)
  }

  /** Configuration is fixed, and identities once recorded stay as they are. */
  ghost predicate Keeps(w: World, v: World) {
    && v.server.config == w.server.config
    && (forall signer :: signer in w.server.identities ==>
          signer in v.server.identities && v.server.identities[signer] == w.server.identities[signer])
  }

  lemma IssuedStays(w: World, v: World, i: Issued)
    requires Extends(w, v) && Keeps(w, v) && IssuedOk(w, i)
    ensures IssuedOk(v, i)
  {
    AuthorizedStays(w, v, i.requestId, i.grant.request);
  }

  lemma AuthorizedStays(w: World, v: World, requestId: string, r: Request)
    requires Extends(w, v) && WasAuthorized(w, requestId, r)
    ensures WasAuthorized(v, requestId, r)
  {
    var a :| a in w.requests && a.requestId == requestId && a.request == r && r.expiresAt == a.at + CHALLENGE_LIFETIME;
    assert a in v.requests;
  }

  lemma TracedStays(w: World, v: World, t: Exchanged)
    requires Extends(w, v) && Traced(w, t)
    ensures Traced(v, t)
  {
    var i :| TracedTo(w, t, i);
    assert TracedTo(v, t, i);
  }

  /** A slot keeps its meaning when no code or token of its own is handed out meanwhile. */
  lemma SlotsStayOk(w: World, v: World)
    requires StoresOk(w) && Extends(w, v)
    requires forall s :: s in w.server.challenges && s in v.server.challenges ==>
               s.key.Sha256? && s.key.of !in v.pending && (HasCode(v, s.key.of) ==> HasCode(w, s.key.of))
    requires forall s :: s in w.server.codes && s in v.server.codes ==>
               s.key.Sha256? && (HasToken(v, s.key.of) ==> HasToken(w, s.key.of))
    ensures forall s :: s in w.server.challenges && s in v.server.challenges ==> ChallengeOk(v, s)
    ensures forall s :: s in w.server.codes && s in v.server.codes ==> CodeOk(v, s)
    ensures forall s :: s in w.server.tokens ==> TokenOk(v, s)
  {
    forall s | s in w.server.challenges && s in v.server.challenges ensures ChallengeOk(v, s) {
      assert ChallengeOk(w, s);
      AuthorizedStays(w, v, s.key.of, s.value);
    }
    forall s | s in w.server.codes && s in v.server.codes ensures CodeOk(v, s) {
      assert CodeOk(w, s);
      var i :| i in w.codes && i.code == s.key.of && i.grant == s.value;
      assert i in v.codes;
    }
    forall s | s in w.server.tokens ensures TokenOk(v, s) {
      assert TokenOk(w, s);
      var t :| t in w.tokens && t.token == s.key.of && t.access == s.value && s.expiresAt == t.at + TOKEN_LIFETIME;
      assert t in v.tokens;
    }
  }

  lemma LogsStayOk(w: World, v: World)
    requires LogsOk(w) && Extends(w, v) && Keeps(w, v) && v.codes == w.codes && v.tokens == w.tokens
    requires forall a :: a in v.requests ==> a in w.requests || RequestOk(v.server.config, a)
    requires forall id :: id in v.pending ==> id in w.pending && v.pending[id] == w.pending[id]
    requires forall id :: id in v.found ==> FoundOk(v, id)
    ensures LogsOk(v)
  {
    forall id | id in v.pending ensures PendingOk(v, id) {
      assert PendingOk(w, id);
      AuthorizedStays(w, v, id, w.pending[id].request);
    }
    forall i | i in v.codes ensures IssuedOk(v, i) {
      assert IssuedOk(w, i);
      IssuedStays(w, v, i);
    }
    forall t | t in v.tokens ensures Traced(v, t) {
      assert Traced(w, t);
      TracedStays(w, v, t);
    }
  }

  lemma FoundStays(w: World, v: World)
    requires LogsOk(w) && v.server.config == w.server.config && v.server.identities == w.server.identities
    requires forall id :: id in v.found ==> id in w.found && v.found[id] == w.found[id]
    requires forall id :: id in v.found && id in w.pending ==> id in v.pending && v.pending[id] == w.pending[id]
    ensures forall id :: id in v.found ==> FoundOk(v, id)
  {
    forall id | id in v.found ensures FoundOk(v, id) { assert FoundOk(w, id); }
  }

  lemma AuthorizedIsDrawn(w: World, requestId: string, r: Request)
    requires OnceEach(w) && WasAuthorized(w, requestId, r)
    ensures requestId in w.drawn
  {
  }

  /** A text not drawn yet is not in use anywhere. */
  lemma NewTextIsUnused(w: World, text: string)
    requires Sound(w) && text !in w.drawn
    ensures text !in w.pending && !HasCode(w, text) && !HasToken(w, text)
    ensures forall s :: s in w.server.challenges ==> s.key != Sha256(text)
    ensures forall s :: s in w.server.codes ==> s.key != Sha256(text)
    ensures forall s :: s in w.server.tokens ==> s.key != Sha256(text)
  {
    if text in w.pending {
      assert PendingOk(w, text);
      AuthorizedIsDrawn(w, text, w.pending[text].request);
    }
    forall i | i in w.codes ensures i.requestId != text {
      assert IssuedOk(w, i);
      AuthorizedIsDrawn(w, i.requestId, i.grant.request);
    }
    forall t | t in w.tokens ensures t.form.code != text {
      assert Traced(w, t);
      var i :| TracedTo(w, t, i);
      assert i in w.codes;
    }
    forall s | s in w.server.challenges ensures s.key != Sha256(text) {
      assert ChallengeOk(w, s);
      AuthorizedIsDrawn(w, s.key.of, s.value);
    }
    forall s | s in w.server.codes ensures s.key != Sha256(text) { assert CodeOk(w, s); }
    forall s | s in w.server.tokens ensures s.key != Sha256(text) { assert TokenOk(w, s); }
  }

  // ------------------------------------------------------------------ one step at a time

  lemma AuthorizeKeepsSound(w: World, q: Query, requestId: string, now: int)
    requires Sound(w) && requestId !in w.drawn && QueryOk(w.server.config, q)
    ensures Sound(Next(w, AuthorizeStep(q, requestId, now)))
  {
    var r := RequestOf(q, now);
    var slot, entry := Slot(Sha256(requestId), r, r.expiresAt), Authorized(requestId, q, r, now);
    var v := w.(server := w.server.(challenges := Stored(w.server.challenges, slot, now)),
                drawn := w.drawn + {requestId}, requests := w.requests + [entry]);
    assert Next(w, AuthorizeStep(q, requestId, now)) == v;
    NewTextIsUnused(w, requestId);
    StoringStaysWithinCapacity(w.server.challenges, slot, now);
    assert entry in v.requests;
    assert ChallengeOk(v, slot);
    AuthorizeKeepsSlots(w, v);
    FoundStays(w, v);
    LogsStayOk(w, v);
    RequestIsOnce(w, v, entry);
  }

  lemma RequestIsOnce(w: World, v: World, entry: Authorized)
    requires OnceEach(w) && entry.requestId !in w.drawn && v.requests == w.requests + [entry]
    requires v.codes == w.codes && v.tokens == w.tokens && v.drawn == w.drawn + {entry.requestId}
    ensures OnceEach(v)
  {
    assert forall i :: 0 <= i < |w.requests| ==> w.requests[i] in w.requests && v.requests[i] == w.requests[i];
  }

  lemma SameLogsAreOnce(w: World, v: World)
    requires OnceEach(w) && v.requests == w.requests && v.codes == w.codes && v.tokens == w.tokens && v.drawn == w.drawn
    ensures OnceEach(v)
  {
  }

  lemma AuthorizeKeepsSlots(w: World, v: World)
    requires Sound(w) && Extends(w, v) && v.pending == w.pending && v.codes == w.codes && v.tokens == w.tokens
    requires v.server.codes == w.server.codes && v.server.tokens == w.server.tokens
    requires forall s :: s in v.server.challenges ==> s in w.server.challenges || ChallengeOk(v, s)
    ensures StoresOk(v)
  {
    forall s | s in w.server.challenges ensures s.key.Sha256? && s.key.of !in v.pending { assert ChallengeOk(w, s); }
    forall s | s in w.server.codes ensures s.key.Sha256? { assert CodeOk(w, s); }
    SlotsStayOk(w, v);
  }

  lemma BeginKeepsSound(w: World, requestId: string, proof: Proof, now: int)
    requires Sound(w)
    ensures Sound(Next(w, BeginStep(requestId, proof, now)))
  {
    var v := Next(w, BeginStep(requestId, proof, now));
    BeginIsProven(w, requestId, proof, now);
    DeleteDropsOneKey(w.server.challenges, Sha256(requestId));
    DeleteStaysUnique(w.server.challenges, Sha256(requestId));
    BeginKeepsStores(w, v, requestId);
    BeginKeepsLogs(w, v, requestId);
    SameLogsAreOnce(w, v);
  }

  /** A completion only begins with a proof for a request that was authorized and has no code yet. */
  lemma BeginIsProven(w: World, requestId: string, proof: Proof, now: int)
    requires Sound(w)
    ensures var r := Begin(w.server, requestId, proof, now).1;
            r.Ok? ==>
              && requestId !in w.pending && requestId !in w.found
              && WasAuthorized(w, requestId, r.value.request) && !HasCode(w, requestId)
              && Proven(r.value.proof, requestId, r.value.request, r.value.at)
  {
    var found := Get(w.server.challenges, Sha256(requestId));
    if found.Some? {
      assert ChallengeOk(w, found.value);
      NewChallengeIsNotPending(w, requestId);
    }
  }

  lemma BeginKeepsLogs(w: World, v: World, requestId: string)
    requires LogsOk(w) && v.requests == w.requests && v.codes == w.codes && v.tokens == w.tokens && v.found == w.found
    requires v.server == w.server.(challenges := v.server.challenges)
    requires v.pending == w.pending
             || (requestId !in w.found && requestId in v.pending && PendingOk(v, requestId)
                 && v.pending == w.pending[requestId := v.pending[requestId]])
    ensures LogsOk(v)
  {
    FoundStays(w, v);
    forall id | id in v.pending ensures PendingOk(v, id) {
      if id in w.pending { assert PendingOk(w, id); }
    }
    forall i | i in v.codes ensures IssuedOk(v, i) {
      assert IssuedOk(w, i);
      IssuedStays(w, v, i);
    }
    forall t | t in v.tokens ensures Traced(v, t) {
      assert Traced(w, t);
      TracedStays(w, v, t);
    }
  }

  lemma NewChallengeIsNotPending(w: World, requestId: string)
    requires Sound(w) && Get(w.server.challenges, Sha256(requestId)).Some?
    ensures requestId !in w.pending && requestId !in w.found
  {
    assert ChallengeOk(w, Get(w.server.challenges, Sha256(requestId)).value);
    assert requestId in w.found ==> FoundOk(w, requestId);
  }

  lemma BeginKeepsStores(w: World, v: World, requestId: string)
    requires Sound(w) && v.requests == w.requests && v.codes == w.codes && v.tokens == w.tokens
    requires v.server == w.server.(challenges := Delete(w.server.challenges, Sha256(requestId)))
    requires v.pending.Keys <= w.pending.Keys + {requestId}
    ensures StoresOk(v)
  {
    DeleteDropsOneKey(w.server.challenges, Sha256(requestId));
    forall s | s in v.server.challenges ensures s.key.Sha256? && s.key.of !in v.pending { assert ChallengeOk(w, s); }
    forall s | s in w.server.codes ensures s.key.Sha256? { assert CodeOk(w, s); }
    SlotsStayOk(w, v);
  }

  lemma LookupKeepsSound(w: World, requestId: string, account: Account)
    requires Sound(w)
    ensures Sound(Next(w, LookupStep(requestId, account)))
  {
    var v := Next(w, LookupStep(requestId, account));
    BeginLikeSlots(w, v);
    forall id | id in v.found ensures FoundOk(v, id) {
      if id in w.found { assert FoundOk(w, id); }
    }
    LogsStayOk(w, v);
    SameLogsAreOnce(w, v);
  }

  lemma FinishKeepsSound(w: World, requestId: string, code: string, now: int)
    requires Sound(w)
    ensures Sound(Next(w, FinishStep(requestId, code, now)))
  {
    if requestId in w.pending && requestId in w.found && code !in w.drawn {
      if w.found[requestId].None? {
        AbandonKeepsSound(w, requestId);
      } else {
        IssueKeepsSound(w, requestId, code, now);
      }
    }
  }

  lemma AbandonKeepsSound(w: World, requestId: string)
    requires Sound(w)
    ensures Sound(Closed(w, requestId))
  {
    var v := Closed(w, requestId);
    BeginLikeSlots(w, v);
    FoundStays(w, v);
    LogsStayOk(w, v);
    SameLogsAreOnce(w, v);
  }

  lemma BeginLikeSlots(w: World, v: World)
    requires Sound(w) && v.requests == w.requests && v.codes == w.codes && v.tokens == w.tokens
    requires v.server == w.server.(identities := v.server.identities) && v.pending.Keys <= w.pending.Keys
    ensures StoresOk(v)
  {
    forall s | s in v.server.challenges ensures s.key.Sha256? && s.key.of !in v.pending { assert ChallengeOk(w, s); }
    forall s | s in w.server.codes ensures s.key.Sha256? { assert CodeOk(w, s); }
    SlotsStayOk(w, v);
  }

  /** The code issued at the end of a completion that found an identity. */
  function IssuedFor(w: World, requestId: string, code: string): Issued
    requires requestId in w.pending && requestId in w.found && w.found[requestId].Some?
  {
    var begun := w.pending[requestId];
    Issued(requestId, code, Grant(begun.request, w.found[requestId].value, Seconds(begun.at)), begun.proof, begun.at)
  }

  /** The world after a code is issued. */
  function AfterIssue(w: World, entry: Issued, now: int): World {
    var slot := Slot(Sha256(entry.code), entry.grant, entry.grant.request.expiresAt);
    Closed(w, entry.requestId)
    .(server := w.server.(codes := Stored(w.server.codes, slot, now)),
      drawn := w.drawn + {entry.code}, codes := w.codes + [entry])
  }

  lemma IssueKeepsSound(w: World, requestId: string, code: string, now: int)
    requires Sound(w) && requestId in w.pending && requestId in w.found && w.found[requestId].Some? && code !in w.drawn
    ensures Sound(AfterIssue(w, IssuedFor(w, requestId, code), now))
  {
    var entry := IssuedFor(w, requestId, code);
    var v, g := AfterIssue(w, entry, now), entry.grant;
    assert PendingOk(w, requestId) && FoundOk(w, requestId);
    NewTextIsUnused(w, code);
    StoringStaysWithinCapacity(w.server.codes, Slot(Sha256(code), g, g.request.expiresAt), now);
    assert entry in v.codes && forall i :: i in v.codes <==> i in w.codes || i == entry;
    IssueKeepsStores(w, v, entry, now);
    FoundStays(w, v);
    IssueKeepsLogs(w, v, entry);
    IssueIsOnce(w, v, entry);
  }

  lemma IssueIsOnce(w: World, v: World, entry: Issued)
    requires OnceEach(w) && !HasCode(w, entry.requestId) && entry.code !in w.drawn && v.codes == w.codes + [entry]
    requires v.requests == w.requests && v.tokens == w.tokens && v.drawn == w.drawn + {entry.code}
    ensures OnceEach(v)
  {
    assert forall i :: 0 <= i < |w.codes| ==> w.codes[i] in w.codes && v.codes[i] == w.codes[i];
  }

  lemma IssueKeepsStores(w: World, v: World, entry: Issued, now: int)
    requires Sound(w) && entry.requestId in w.pending && entry.code !in w.drawn && v == AfterIssue(w, entry, now)
    requires forall i :: i in v.codes <==> i in w.codes || i == entry
    ensures StoresOk(v)
  {
    var slot := Slot(Sha256(entry.code), entry.grant, entry.grant.request.expiresAt);
    NewTextIsUnused(w, entry.code);
    StoringStaysWithinCapacity(w.server.codes, slot, now);
    assert CodeOk(v, slot) by { assert entry in v.codes; }
    forall s | s in w.server.challenges ensures s.key.Sha256? && s.key.of !in w.pending { assert ChallengeOk(w, s); }
    forall s | s in w.server.codes ensures s.key.Sha256? { assert CodeOk(w, s); }
    SlotsStayOk(w, v);
  }

  lemma IssueKeepsLogs(w: World, v: World, entry: Issued)
    requires LogsOk(w) && Keeps(w, v) && IssuedOk(w, entry) && v.requests == w.requests && v.tokens == w.tokens
    requires v.pending == w.pending - {entry.requestId} && forall id :: id in v.found ==> FoundOk(v, id)
    requires forall i :: i in v.codes <==> i in w.codes || i == entry
    ensures LogsOk(v)
  {
    forall id | id in v.pending ensures PendingOk(v, id) { assert PendingOk(w, id); }
    forall i | i in v.codes ensures IssuedOk(v, i) {
      assert IssuedOk(w, i);
      IssuedStays(w, v, i);
    }
    forall t | t in v.tokens ensures Traced(v, t) {
      assert Traced(w, t);
      TracedStays(w, v, t);
    }
  }

  lemma ExchangeKeepsSound(w: World, form: Form, token: string, now: int)
    requires Sound(w)
    ensures Sound(Next(w, ExchangeStep(form, token, now)))
  {
    var found, rest := Get(w.server.codes, Sha256(form.code)), Delete(w.server.codes, Sha256(form.code));
    if token !in w.drawn && form.authenticated {
      DropCodeKeepsSound(w, form.code);
      if found.Some? && GrantUsable(form, found.value, now) {
        GrantKeepsSound(w, form, token, now, found.value);
      }
    }
  }

  function WithoutCode(w: World, code: string): World {
    w.(server := w.server.(codes := Delete(w.server.codes, Sha256(code))))
  }

  lemma DropCodeKeepsSound(w: World, code: string)
    requires Sound(w)
    ensures Sound(WithoutCode(w, code))
  {
    var v := WithoutCode(w, code);
    DeleteDropsOneKey(w.server.codes, Sha256(code));
    DeleteStaysUnique(w.server.codes, Sha256(code));
    forall s | s in w.server.challenges ensures s.key.Sha256? && s.key.of !in v.pending { assert ChallengeOk(w, s); }
    forall s | s in w.server.codes ensures s.key.Sha256? { assert CodeOk(w, s); }
    SlotsStayOk(w, v);
    FoundStays(w, v);
    LogsStayOk(w, v);
    SameLogsAreOnce(w, v);
  }

  /** The world after a grant is exchanged for a token. */
  function AfterGrant(w: World, form: Form, token: string, now: int, g: Grant): World {
    var a := Access(g.actor, g.request.clientId, g.request.scope);
    var v := WithoutCode(w, form.code);
    v.(server := v.server.(tokens := Stored(v.server.tokens, Slot(Sha256(token), a, now + TOKEN_LIFETIME), now)),
       drawn := v.drawn + {token}, tokens := v.tokens + [Exchanged(form, token, a, now)])
  }

  lemma GrantKeepsSound(w: World, form: Form, token: string, now: int, found: Slot<Digest, Grant>)
    requires Sound(w) && token !in w.drawn && form.authenticated
    requires found in w.server.codes && found.key == Sha256(form.code) && GrantUsable(form, found, now)
    ensures Sound(AfterGrant(w, form, token, now, found.value))
  {
    var g := found.value;
    var v, a := AfterGrant(w, form, token, now, g), Access(g.actor, g.request.clientId, g.request.scope);
    var entry := Exchanged(form, token, a, now);
    NewTextIsUnused(w, token);
    DropCodeKeepsSound(w, form.code);
    StoringStaysWithinCapacity(w.server.tokens, Slot(Sha256(token), a, now + TOKEN_LIFETIME), now);
    assert entry in v.tokens && forall t :: t in v.tokens <==> t in w.tokens || t == entry;
    assert CodeOk(w, found);
    var i :| i in w.codes && i.code == form.code && i.grant == g;
    assert TracedTo(v, entry, i);
    GrantKeepsStores(w, v, entry);
    FoundStays(w, v);
    GrantKeepsLogs(w, v, entry);
    GrantIsOnce(w, v, entry);
  }

  lemma GrantIsOnce(w: World, v: World, entry: Exchanged)
    requires OnceEach(w) && !HasToken(w, entry.form.code) && entry.token !in w.drawn
    requires v.requests == w.requests && v.codes == w.codes
    requires v.drawn == w.drawn + {entry.token} && v.tokens == w.tokens + [entry]
    ensures OnceEach(v)
  {
    assert forall i :: 0 <= i < |w.tokens| ==> w.tokens[i] in w.tokens && v.tokens[i] == w.tokens[i];
  }

  lemma GrantKeepsStores(w: World, v: World, entry: Exchanged)
    requires Sound(w) && entry.token !in w.drawn
    requires v.requests == w.requests && v.codes == w.codes && v.pending == w.pending
    requires forall t :: t in v.tokens <==> t in w.tokens || t == entry
    requires v.server.challenges == w.server.challenges
    requires v.server.codes == Delete(w.server.codes, Sha256(entry.form.code))
    requires v.server.tokens
          == Stored(w.server.tokens, Slot(Sha256(entry.token), entry.access, entry.at + TOKEN_LIFETIME), entry.at)
    ensures StoresOk(v)
  {
    var slot := Slot(Sha256(entry.token), entry.access, entry.at + TOKEN_LIFETIME);
    NewTextIsUnused(w, entry.token);
    DeleteDropsOneKey(w.server.codes, Sha256(entry.form.code));
    StoringStaysWithinCapacity(w.server.tokens, slot, entry.at);
    assert TokenOk(v, slot) by { assert entry in v.tokens; }
    forall s | s in w.server.challenges ensures s.key.Sha256? && s.key.of !in v.pending { assert ChallengeOk(w, s); }
    forall s | s in w.server.codes ensures s.key.Sha256? { assert CodeOk(w, s); }
    SlotsStayOk(w, v);
  }

  lemma GrantKeepsLogs(w: World, v: World, entry: Exchanged)
    requires LogsOk(w) && Keeps(w, v) && v.requests == w.requests && v.codes == w.codes && v.pending == w.pending
    requires forall id :: id in v.found ==> FoundOk(v, id)
    requires (forall t :: t in v.tokens <==> t in w.tokens || t == entry) && Traced(v, entry)
    ensures LogsOk(v)
  {
    forall id | id in v.pending ensures PendingOk(v, id) { assert PendingOk(w, id); }
    forall i | i in v.codes ensures IssuedOk(v, i) {
      assert IssuedOk(w, i);
      IssuedStays(w, v, i);
    }
    forall t | t in v.tokens ensures Traced(v, t) {
      if t != entry {
        assert Traced(w, t);
        TracedStays(w, v, t);
      }
    }
  }

  lemma UserInfoKeepsSound(w: World, token: string, now: int)
    requires Sound(w)
    ensures Sound(Next(w, UserInfoStep(token, now)))
  {
    var v := Next(w, UserInfoStep(token, now));
    if v != w {
      DropTokenKeepsSound(w, token);
      assert v == WithoutToken(w, token);
    }
  }

  function WithoutToken(w: World, token: string): World {
    w.(server := w.server.(tokens := Delete(w.server.tokens, Sha256(token))))
  }

  lemma DropTokenKeepsSound(w: World, token: string)
    requires Sound(w)
    ensures Sound(WithoutToken(w, token))
  {
    var v := WithoutToken(w, token);
    DeleteDropsOneKey(w.server.tokens, Sha256(token));
    DeleteStaysUnique(w.server.tokens, Sha256(token));
    forall s | s in w.server.challenges ensures s.key.Sha256? && s.key.of !in v.pending { assert ChallengeOk(w, s); }
    forall s | s in w.server.codes ensures s.key.Sha256? { assert CodeOk(w, s); }
    SlotsStayOk(w, v);
    FoundStays(w, v);
    LogsStayOk(w, v);
    SameLogsAreOnce(w, v);
  }

  lemma NextKeepsSound(w: World, s: Step)
    requires Sound(w)
    ensures Sound(Next(w, s))
  {
    match s
    case AuthorizeStep(q, requestId, now) =>
      if requestId !in w.drawn && QueryOk(w.server.config, q) { AuthorizeKeepsSound(w, q, requestId, now); }
    case BeginStep(requestId, proof, now) => BeginKeepsSound(w, requestId, proof, now);
    case LookupStep(requestId, account) => LookupKeepsSound(w, requestId, account);
    case FinishStep(requestId, code, now) => FinishKeepsSound(w, requestId, code, now);
    case ExchangeStep(form, token, now) => ExchangeKeepsSound(w, form, token, now);
    case UserInfoStep(token, now) => UserInfoKeepsSound(w, token, now);
  }

  lemma StartIsSound(config: Config, known: map<string, Actor>)
    ensures Sound(Start(config, known))
  {
  }

  lemma {:induction false} EveryRunIsSound(config: Config, known: map<string, Actor>, steps: seq<Step>)
    ensures Sound(Run(Start(config, known), steps)) && Run(Start(config, known), steps).server.config == config
  {
    if steps == [] {
      StartIsSound(config, known);
    } else {
      NextKeeps(Run(Start(config, known), steps[..|steps| - 1]), steps[|steps| - 1]);
      EveryRunIsSound(config, known, steps[..|steps| - 1]);
      NextKeepsSound(Run(Start(config, known), steps[..|steps| - 1]), steps[|steps| - 1]);
    }
  }

  // ------------------------------------------------------------------ what the flow guarantees

  lemma IssuedOnce(w: World, i: Issued, j: Issued)
    requires OnceEach(w) && i in w.codes && j in w.codes
    ensures i.requestId == j.requestId || i.code == j.code ==> i == j
  {
    var a :| 0 <= a < |w.codes| && w.codes[a] == i;
    var b :| 0 <= b < |w.codes| && w.codes[b] == j;
  }

  lemma ExchangedOnce(w: World, t: Exchanged, u: Exchanged)
    requires OnceEach(w) && t in w.tokens && u in w.tokens
    ensures t.form.code == u.form.code || t.token == u.token ==> t == u
  {
    var a :| 0 <= a < |w.tokens| && w.tokens[a] == t;
    var b :| 0 <= b < |w.tokens| && w.tokens[b] == u;
  }

  /** Each challenge yields at most one code, and each code at most one access token. */
  lemma SingleUse(
    config: Config, known: map<string, Actor>, steps: seq<Step>, i: Issued, j: Issued, t: Exchanged, u: Exchanged)
    requires var w := Run(Start(config, known), steps); i in w.codes && j in w.codes && t in w.tokens && u in w.tokens
    ensures i.requestId == j.requestId || i.code == j.code ==> i == j
    ensures t.form.code == u.form.code || t.token == u.token ==> t == u
  {
    EveryRunIsSound(config, known, steps);
    IssuedOnce(Run(Start(config, known), steps), i, j);
    ExchangedOnce(Run(Start(config, known), steps), t, u);
  }

  /**
   Everything behind a token: the authorize request `a`, which the configuration allows, the code `i`, issued for a
   genuine proof made for that request and accepted in its minute, for the identity of the proof's signer, and the
   exchange `t` of that code by the same client, with the same redirect address and a matching verifier, in the same
   minute.
   */
  ghost predicate Authentic(config: Config, w: World, t: Exchanged, i: Issued, a: Authorized) {
    && a in w.requests && a.request.expiresAt == a.at + CHALLENGE_LIFETIME
    && a.request.clientId == config.clientId && a.request.redirectUri == config.redirectUri
    && "openid" in a.request.scope && a.request.state != ""
    && TracedTo(w, t, i) && i.requestId == a.requestId && i.grant.request == a.request
    && i.proof.genuine && i.proof.nonce == a.requestId && i.proof.audience == a.request.clientId
    && i.proof.expiration == Seconds(a.request.expiresAt)
    && Seconds(i.provenAt) - 60 <= i.proof.createdAt <= Seconds(i.provenAt) + 60
    && i.provenAt < a.at + CHALLENGE_LIFETIME && t.at < a.at + CHALLENGE_LIFETIME
    && i.grant.authTime == Seconds(i.provenAt)
    && i.proof.signer in config.allowed
    && i.proof.signer in w.server.identities && w.server.identities[i.proof.signer] == t.access.actor
  }

  /** Every token is authentic. */
  lemma TokensAreTraced(config: Config, known: map<string, Actor>, steps: seq<Step>, t: Exchanged)
    requires t in Run(Start(config, known), steps).tokens
    ensures exists i, a :: Authentic(config, Run(Start(config, known), steps), t, i, a)
  {
    EveryRunIsSound(config, known, steps);
    TokenIsAuthentic(config, Run(Start(config, known), steps), t);
  }

  lemma TokenIsAuthentic(config: Config, w: World, t: Exchanged)
    requires LogsOk(w) && w.server.config == config && t in w.tokens
    ensures exists i, a :: Authentic(config, w, t, i, a)
  {
    assert Traced(w, t);
    var i :| TracedTo(w, t, i);
    assert IssuedOk(w, i);
    var a :| a in w.requests && a.requestId == i.requestId && a.request == i.grant.request
             && i.grant.request.expiresAt == a.at + CHALLENGE_LIFETIME;
    assert RequestOk(config, a);
    assert Authentic(config, w, t, i, a);
  }

  /** The identity a bearer token is answered with is that of the signer of an authentic token still in its lifetime. */
  lemma UserInfoIsTraced(config: Config, known: map<string, Actor>, steps: seq<Step>, token: string, now: int)
    requires UserInfo(Run(Start(config, known), steps).server, token, now).1.Ok?
    ensures exists t, i, a ::
              && Authentic(config, Run(Start(config, known), steps), t, i, a)
              && t.token == token && now < t.at + TOKEN_LIFETIME
              && UserInfo(Run(Start(config, known), steps).server, token, now).1
                 == Ok(Run(Start(config, known), steps).server.identities[i.proof.signer])
  {
    var w := Run(Start(config, known), steps);
    EveryRunIsSound(config, known, steps);
    var s := Get(w.server.tokens, Sha256(token)).value;
    assert TokenOk(w, s);
    var t :| t in w.tokens && t.token == token && t.access == s.value && s.expiresAt == t.at + TOKEN_LIFETIME;
    TokenIsAuthentic(config, w, t);
    var i, a :| Authentic(config, w, t, i, a);
  }

  lemma NextKeeps(w: World, s: Step)
    ensures Keeps(w, Next(w, s))
  {
  }

  lemma {:induction false} IdentitiesStay(w: World, steps: seq<Step>)
    ensures Keeps(w, Run(w, steps))
  {
    if steps != [] {
      IdentitiesStay(w, steps[..|steps| - 1]);
      NextKeeps(Run(w, steps[..|steps| - 1]), steps[|steps| - 1]);
    }
  }

  /** One signer is one actor for good: whatever happens in between, a later token of the same signer speaks for it. */
  lemma OneActorPerSigner(
    config: Config, w: World, t: Exchanged, i: Issued, a: Authorized, steps: seq<Step>, u: Exchanged, j: Issued,
    b: Authorized)
    requires Authentic(config, w, t, i, a) && Authentic(config, Run(w, steps), u, j, b)
    requires i.proof.signer == j.proof.signer
    ensures t.access.actor == u.access.actor
  {
    IdentitiesStay(w, steps);
  }

  /** No store ever exceeds its capacity. */
  lemma StoresStayBounded(config: Config, known: map<string, Actor>, steps: seq<Step>)
    ensures var s := Run(Start(config, known), steps).server;
            && |s.challenges| <= MAX_TRANSIENT_GRANTS && |s.codes| <= MAX_TRANSIENT_GRANTS
            && |s.tokens| <= MAX_TRANSIENT_GRANTS
  {
    EveryRunIsSound(config, known, steps);
  }
}
