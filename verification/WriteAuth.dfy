/**
Write tokens and the gate in front of every write: internal/runtime/auth.go, requireWriteAuth in
internal/api/router.go, and the token service calls of internal/runtime/service.go.
*/
module WriteAuth {
  import opened Text
  import opened Throttle

  /** hashToken (taken as injective, printing as a non-blank word) and ResolveActor (any function). */
  datatype Identity = Identity(hash: string -> string, resolve: string -> string) {
    ghost predicate Valid() {
      && (forall a, b {:trigger hash(a), hash(b)} :: hash(a) == hash(b) ==> a == b)
      && (forall a {:trigger hash(a)} :: hash(a) != "" && TrimSpace(hash(a)) == hash(a))
    }
  }

  const FOUNDER := "founder"
  const BEARER := "Bearer "

  datatype AuthConfig = AuthConfig(writeTokenHash: string, scoped: map<string, string>)

  predicate Enabled(c: AuthConfig) {
    TrimSpace(c.writeTokenHash) != "" || exists actor :: actor in c.scoped && TrimSpace(c.scoped[actor]) != ""
  }

  function WithToken(id: Identity, c: AuthConfig, token: string, actor: string): AuthConfig {
    if id.resolve(actor) == FOUNDER then c.(writeTokenHash := id.hash(TrimSpace(token)))
    else c.(scoped := c.scoped[id.resolve(actor) := id.hash(TrimSpace(token))])
  }

  function WithoutToken(id: Identity, c: AuthConfig, actor: string): AuthConfig {
    if id.resolve(actor) == FOUNDER then c.(writeTokenHash := "")
    else c.(scoped := c.scoped - {id.resolve(actor)})
  }

  predicate Authorizes(id: Identity, c: AuthConfig, token: string, actor: string) {
    var sum := id.hash(TrimSpace(token));
    var scoped := if id.resolve(actor) in c.scoped then TrimSpace(c.scoped[id.resolve(actor)]) else "";
    !Enabled(c) || (scoped != "" && sum == scoped) || (TrimSpace(c.writeTokenHash) != "" && sum == c.writeTokenHash)
  }

  /** The map of scoped hashes is a Go map: a shared, mutable object that a copied config still points to. */
  class TokenTable {
    var hashes: map<string, string>
    constructor () ensures hashes == map[] { hashes := map[]; }
  }

  datatype Saved = Saved(writeTokenHash: string, scoped: TokenTable?, updatedAt: Option<Time>)

  class AuthStore {
    const id: Identity
    var writeTokenHash: string
    var scoped: TokenTable?
    var updatedAt: Option<Time>

    constructor (id: Identity)
      ensures this.id == id && scoped == null && updatedAt == None
      ensures Config() == AuthConfig("", map[])
    {
      this.id := id;
      writeTokenHash, scoped, updatedAt := "", null, None;
    }

    ghost function Config(): AuthConfig
      reads this, scoped
    {
      AuthConfig(writeTokenHash, if scoped == null then map[] else scoped.hashes)
    }

    method Current() returns (saved: Saved)
      ensures saved == Saved(writeTokenHash, scoped, updatedAt)
    {
      saved := Saved(writeTokenHash, scoped, updatedAt);
    }

    method Restore(saved: Saved)
      modifies this
      ensures writeTokenHash == saved.writeTokenHash && scoped == saved.scoped && updatedAt == saved.updatedAt
    {
      writeTokenHash, scoped, updatedAt := saved.writeTokenHash, saved.scoped, saved.updatedAt;
    }

    method Status() returns (enabled: bool, at: Option<Time>)
      ensures enabled == Enabled(Config()) && at == updatedAt
    {
      enabled := TrimSpace(writeTokenHash) != "";
      if !enabled && scoped != null {
        var unseen := scoped.hashes.Keys;
        while unseen != {}
          invariant unseen <= scoped.hashes.Keys
          invariant enabled <==> exists a :: a in scoped.hashes && a !in unseen && TrimSpace(scoped.hashes[a]) != ""
          decreases unseen
        {
          var actor :| actor in unseen;
          unseen := unseen - {actor};
          if TrimSpace(scoped.hashes[actor]) != "" { enabled := true; }
        }
      }
      at := updatedAt;
    }

    method SetToken(token: string, actor: string, at: Time) returns (ok: bool)
      modifies this, scoped
      ensures ok <==> TrimSpace(token) != ""
      ensures Config() == if ok then WithToken(id, old(Config()), token, actor) else old(Config())
      ensures updatedAt == if ok then Some(at) else old(updatedAt)
      ensures scoped == old(scoped) || (old(scoped) == null && scoped != null && fresh(scoped))
      ensures scoped != old(scoped) ==> ok && id.resolve(actor) != FOUNDER
      ensures ok && id.resolve(actor) != FOUNDER ==> scoped != null
    {
      var trimmed := TrimSpace(token);
      if trimmed == "" { return false; }
      var owner := id.resolve(actor);
      if owner == FOUNDER {
        writeTokenHash := id.hash(trimmed);
      } else {
        if scoped == null { scoped := new TokenTable(); }
        scoped.hashes := scoped.hashes[owner := id.hash(trimmed)];
      }
      updatedAt := Some(at);
      ok := true;
    }

    method Clear(actor: string, at: Time)
      modifies this, scoped
      ensures Config() == WithoutToken(id, old(Config()), actor) && updatedAt == Some(at)
      ensures scoped == old(scoped) || scoped == null
      ensures id.resolve(actor) == FOUNDER ==> scoped == old(scoped)
      ensures old(scoped) != null && id.resolve(actor) != FOUNDER ==>
        old(scoped).hashes == old(scoped.hashes) - {id.resolve(actor)}
    {
      var owner := id.resolve(actor);
      if owner == FOUNDER {
        writeTokenHash := "";
      } else if scoped != null {
        scoped.hashes := scoped.hashes - {owner};
        if |scoped.hashes| == 0 { scoped := null; }
      }
      updatedAt := Some(at);
    }

    method Authorize(token: string, actor: string) returns (ok: bool)
      ensures ok == Authorizes(id, Config(), token, actor)
    {
      var enabled, _ := Status();
      if !enabled { return true; }
      var sum := id.hash(TrimSpace(token));
      var owner := id.resolve(actor);
      var own := if scoped != null && owner in scoped.hashes then TrimSpace(scoped.hashes[owner]) else "";
      if own != "" && sum == own { return true; }
      if TrimSpace(writeTokenHash) == "" { return false; }
      return sum == writeTokenHash;
    }

    /**
    Service.SetWriteToken: when the event or the save fails, the copied config is put back. The copy shares
    its table, so the old config comes back only when the change was not made in a table that the copy holds too.
    */
    method SetWriteToken(token: string, actor: string, at: Time, saves: bool) returns (ok: bool)
      modifies this, scoped
      ensures ok <==> TrimSpace(token) != "" && saves
      ensures ok ==> Config() == WithToken(id, old(Config()), token, actor) && updatedAt == Some(at)
      ensures !ok ==> updatedAt == old(updatedAt) && scoped == old(scoped)
      ensures scoped == old(scoped) || (scoped != null && fresh(scoped))
      ensures !ok && (TrimSpace(token) == "" || id.resolve(actor) == FOUNDER || old(scoped) == null) ==>
        Config() == old(Config())
      ensures !ok && TrimSpace(token) != "" && id.resolve(actor) != FOUNDER && old(scoped) != null ==>
        Config() == WithToken(id, old(Config()), token, actor)
    {
      var saved := Current();
      var accepted := SetToken(token, actor, at);
      if !accepted { return false; }
      if !saves {
        Restore(saved);
        return false;
      }
      ok := true;
    }

    /** Service.ClearWriteToken, with the same copy and so the same effect of a failure. */
    method ClearWriteToken(actor: string, at: Time, saves: bool)
      modifies this, scoped
      ensures saves ==> Config() == WithoutToken(id, old(Config()), actor) && updatedAt == Some(at)
      ensures !saves ==> updatedAt == old(updatedAt) && scoped == old(scoped)
      ensures !saves && id.resolve(actor) == FOUNDER ==> Config() == old(Config())
      ensures !saves && id.resolve(actor) != FOUNDER ==> Config() == WithoutToken(id, old(Config()), actor)
    {
      var saved := Current();
      Clear(actor, at);
      if !saves { Restore(saved); }
    }
  }

  /** A failed replacement of a scoped token is not undone: the table it was written into is the saved one too. */
  method SharedTableSurvivesRestore(id: Identity) returns (store: AuthStore)
    requires id.resolve("codex") == "codex" && id.hash("one") != id.hash("two")
    ensures fresh(store) && store.Config() == AuthConfig("", map["codex" := id.hash("two")])
  {
    store := new AuthStore(id);
    var ok := store.SetWriteToken("one", "codex", 1, true);
    assert store.Config() == AuthConfig("", map["codex" := id.hash("one")]) by {
      TrimOfTrimmed("one");
    }
    ok := store.SetWriteToken("two", "codex", 2, false);
  }

  // ----- the gate ---------------------------------------------------------------------------

  /** A write request: its origin check, actor, throttle subject and header, and the guard's two clock readings. */
  datatype Request = Request(sameOrigin: bool, actor: string, subject: string, authorization: string,
                             askedAt: Time, recordedAt: Time)

  datatype Verdict = Granted | CrossOrigin | Throttled(retryAfter: nat) | MissingToken | InvalidToken

  predicate HasBearer(r: Request) { BEARER <= TrimSpace(r.authorization) }

  function BearerToken(r: Request): string
    requires HasBearer(r)
  {
    TrimSpace(TrimSpace(r.authorization)[|BEARER|..])
  }

  function AuthKey(subject: string): Key { Key("write_auth", subject) }

  /** What requireWriteAuth does to the table of counters, and what it answers. */
  function Decide(id: Identity, c: AuthConfig, m: Table, r: Request): (Verdict, Table) {
    if !r.sameOrigin then
      (CrossOrigin, Step(m, Fail(Key("cross_origin_write", r.subject), WRITE_PROBE, r.recordedAt)))
    else if !Enabled(c) then (Granted, m)
    else
      var answer := ReplyTo(m, Ask(AuthKey(r.subject), r.askedAt));
      if answer.blocked then (Throttled(answer.retryAfter), m)
      else if HasBearer(r) && Authorizes(id, c, BearerToken(r), r.actor) then
        (Granted, Step(m, Clear(AuthKey(r.subject), r.recordedAt)))
      else
        var failure := Fail(AuthKey(r.subject), WRITE_AUTH, r.recordedAt);
        var until := ReplyTo(m, failure).blockedUntil;
        (if until != 0 && r.recordedAt < until then Throttled(until - r.recordedAt)
         else if HasBearer(r) then InvalidToken else MissingToken,
         Step(m, failure))
  }

  class WriteGate {
    const auth: AuthStore
    const guard: WriteSecurityGuard

    constructor (auth: AuthStore, guard: WriteSecurityGuard)
      ensures this.auth == auth && this.guard == guard
    {
      this.auth, this.guard := auth, guard;
    }

    method RecordAuthFailure(subject: string, now: Time) returns (blocked: bool, retryAfter: nat)
      modifies guard
      ensures var failure := Fail(AuthKey(subject), WRITE_AUTH, now);
              var until := ReplyTo(old(guard.counters), failure).blockedUntil;
              && guard.counters == Step(old(guard.counters), failure)
              && blocked == (until != 0 && now < until)
              && retryAfter == if blocked then until - now else 0
    {
      var _, until, _, _ := guard.ObserveFailure(AuthKey(subject), WRITE_AUTH, now);
      if until != 0 && now < until { return true, until - now; }
      return false, 0;
    }

    method RequireWriteAuth(r: Request) returns (verdict: Verdict)
      modifies guard
      ensures (verdict, guard.counters) == Decide(auth.id, auth.Config(), old(guard.counters), r)
    {
      if !r.sameOrigin {
        var _, _, _, _ := guard.ObserveFailure(Key("cross_origin_write", r.subject), WRITE_PROBE, r.recordedAt);
        return CrossOrigin;
      }
      var enabled, _ := auth.Status();
      if !enabled { return Granted; }
      var blocked, retryAfter := guard.Blocked(AuthKey(r.subject), r.askedAt);
      if blocked { return Throttled(retryAfter); }
      if !HasBearer(r) {
        blocked, retryAfter := RecordAuthFailure(r.subject, r.recordedAt);
        return if blocked then Throttled(retryAfter) else MissingToken;
      }
      var ok := auth.Authorize(BearerToken(r), r.actor);
      if !ok {
        blocked, retryAfter := RecordAuthFailure(r.subject, r.recordedAt);
        return if blocked then Throttled(retryAfter) else InvalidToken;
      }
      guard.Clear(AuthKey(r.subject), r.recordedAt);
      return Granted;
    }
  }
}
