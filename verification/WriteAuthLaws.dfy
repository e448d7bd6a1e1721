/** The gate against a specification that knows only the history of calls. */
module WriteAuthLaws {
  import opened Text
  import opened Throttle
  import opened ThrottleLaws
  import opened WriteAuth

  datatype Call =
    | Try(r: Request)
    | SetToken(token: string, actor: string, at: Time)
    | ClearToken(actor: string, at: Time)

  function Start(c: Call): Time { if c.Try? then c.r.askedAt else c.at }
  function End(c: Call): Time { if c.Try? then c.r.recordedAt else c.at }

  ghost predicate Sequential(calls: seq<Call>) {
    && (forall i :: 0 <= i < |calls| ==> 0 < Start(calls[i]) <= End(calls[i]))
    && (forall i, j :: 0 <= i < j < |calls| ==> End(calls[i]) <= Start(calls[j]))
  }

  // ----- the program ------------------------------------------------------------------------

  function ConfigAfter(id: Identity, calls: seq<Call>): AuthConfig {
    if calls == [] then AuthConfig("", map[]) else
      var c := ConfigAfter(id, calls[..|calls|-1]);
      match calls[|calls|-1]
      case Try(_) => c
      case SetToken(token, actor, _) => if TrimSpace(token) == "" then c else WithToken(id, c, token, actor)
      case ClearToken(actor, _) => WithoutToken(id, c, actor)
  }

  function TableAfter(id: Identity, calls: seq<Call>): Table {
    if calls == [] then map[] else
      var before := calls[..|calls|-1];
      match calls[|calls|-1]
      case Try(r) => Decide(id, ConfigAfter(id, before), TableAfter(id, before), r).1
      case SetToken(_, _, _) => TableAfter(id, before)
      case ClearToken(_, _) => TableAfter(id, before)
  }

  // ----- the specification: nothing but the calls -----------------------------------------

  /** The token an actor last set and has not cleared. */
  function LiveToken(id: Identity, calls: seq<Call>, owner: string): Option<string> {
    if calls == [] then None else
      var before := LiveToken(id, calls[..|calls|-1], owner);
      match calls[|calls|-1]
      case Try(_) => before
      case SetToken(token, actor, _) =>
        if id.resolve(actor) == owner && TrimSpace(token) != "" then Some(TrimSpace(token)) else before
      case ClearToken(actor, _) => if id.resolve(actor) == owner then None else before
  }

  ghost predicate AnyLive(id: Identity, calls: seq<Call>) {
    exists owner :: LiveToken(id, calls, owner).Some?
  }

  /** The header, without the space around it, is the scheme word followed by this text. */
  ghost predicate Presents(r: Request, x: string) { TrimSpace(r.authorization) == "Bearer " + x }

  ghost predicate Bears(id: Identity, calls: seq<Call>, r: Request) {
    exists x :: Presents(r, x) && (LiveToken(id, calls, id.resolve(r.actor)) == Some(TrimSpace(x))
                                   || LiveToken(id, calls, FOUNDER) == Some(TrimSpace(x)))
  }

  /** The gate reads the header in that way. */
  lemma HeaderIsRead(r: Request, x: string)
    ensures Presents(r, x) ==> HasBearer(r) && BearerToken(r) == TrimSpace(x)
    ensures HasBearer(r) ==> Presents(r, TrimSpace(r.authorization)[7..])
  {
    assert Presents(r, x) ==> TrimSpace(r.authorization)[7..] == x;
  }

  /** The rejected tries of a subject since its last success or quiet gap. */
  ghost function Failures(id: Identity, calls: seq<Call>, subject: string): seq<Time> {
    if calls == [] then [] else
      var before := calls[..|calls|-1];
      var epoch := Failures(id, before, subject);
      if calls[|calls|-1].Try? then NextFailures(id, before, epoch, subject, calls[|calls|-1].r) else epoch
  }

  ghost function NextFailures(id: Identity, calls: seq<Call>, epoch: seq<Time>, subject: string, r: Request): seq<Time> {
    if r.subject != subject || !r.sameOrigin || !AnyLive(id, calls) || r.askedAt < BlockEnd(epoch, WRITE_AUTH) then epoch
    else if Bears(id, calls, r) then []
    else if StartsAnew(epoch, WRITE_AUTH, r.recordedAt) then [r.recordedAt]
    else epoch + [r.recordedAt]
  }

  ghost function Expected(id: Identity, calls: seq<Call>, r: Request): Verdict {
    var until := BlockEnd(Failures(id, calls, r.subject), WRITE_AUTH);
    if !r.sameOrigin then CrossOrigin
    else if !AnyLive(id, calls) then Granted
    else if r.askedAt < until then Throttled(until - r.askedAt)
    else if Bears(id, calls, r) then Granted
    else
      var next := BlockEnd(NextFailures(id, calls, Failures(id, calls, r.subject), r.subject, r), WRITE_AUTH);
      if r.recordedAt < next then Throttled(next - r.recordedAt)
      else if exists x :: Presents(r, x) then InvalidToken else MissingToken
  }

  /** The numbers of the gate: the fifth failure without a quiet two minutes blocks the subject for ninety seconds. */
  lemma FifthFailureBlocks(epoch: seq<Time>, now: Time)
    ensures BlockEnd(epoch, WRITE_AUTH) == if |epoch| < 5 then 0 else epoch[4] + 90 * 1_000_000_000
    ensures epoch != [] ==> (StartsAnew(epoch, WRITE_AUTH, now) <==>
              now >= BlockEnd(epoch, WRITE_AUTH) && now - epoch[|epoch|-1] > 120 * 1_000_000_000)
  {
  }

  // ----- the config holds exactly the live tokens -------------------------------------------

  ghost predicate Holds(id: Identity, c: AuthConfig, calls: seq<Call>) {
    && (forall owner {:trigger LiveToken(id, calls, owner)} :: owner != FOUNDER ==>
          (owner in c.scoped <==> LiveToken(id, calls, owner).Some?)
          && (owner in c.scoped ==> c.scoped[owner] == id.hash(LiveToken(id, calls, owner).value)))
    && FOUNDER !in c.scoped
    && c.writeTokenHash == match LiveToken(id, calls, FOUNDER) case None => "" case Some(t) => id.hash(t)
  }

  lemma {:induction false} LiveTokenTrimmed(id: Identity, calls: seq<Call>, owner: string)
    ensures LiveToken(id, calls, owner).Some? ==>
      var t := LiveToken(id, calls, owner).value; t != "" && TrimSpace(t) == t
  {
    if calls != [] {
      LiveTokenTrimmed(id, calls[..|calls|-1], owner);
      if calls[|calls|-1].SetToken? { TrimIsTrimmed(calls[|calls|-1].token); }
    }
  }

  lemma {:induction false} ConfigHoldsLiveTokens(id: Identity, calls: seq<Call>)
    requires id.Valid()
    ensures Holds(id, ConfigAfter(id, calls), calls)
  {
    if calls != [] {
      var n := |calls| - 1;
      ConfigHoldsLiveTokens(id, calls[..n]);
      assert Holds(id, ConfigAfter(id, calls[..n]), calls[..n]);
      assert LiveToken(id, calls, FOUNDER) ==
        match calls[n]
        case Try(_) => LiveToken(id, calls[..n], FOUNDER)
        case SetToken(token, actor, _) =>
          if id.resolve(actor) == FOUNDER && TrimSpace(token) != "" then Some(TrimSpace(token))
          else LiveToken(id, calls[..n], FOUNDER)
        case ClearToken(actor, _) =>
          if id.resolve(actor) == FOUNDER then None else LiveToken(id, calls[..n], FOUNDER);
    }
  }

  lemma EnabledIffLive(id: Identity, calls: seq<Call>)
    requires id.Valid()
    ensures Enabled(ConfigAfter(id, calls)) <==> AnyLive(id, calls)
  {
    var c := ConfigAfter(id, calls);
    ConfigHoldsLiveTokens(id, calls);
    if AnyLive(id, calls) {
      var owner :| LiveToken(id, calls, owner).Some?;
      var t := LiveToken(id, calls, owner).value;
      assert id.hash(t) != "";
      if owner != FOUNDER { assert owner in c.scoped && TrimSpace(c.scoped[owner]) != ""; }
    }
    if Enabled(c) {
      if TrimSpace(c.writeTokenHash) != "" {
        assert LiveToken(id, calls, FOUNDER).Some?;
      } else {
        var owner :| owner in c.scoped && TrimSpace(c.scoped[owner]) != "";
        assert LiveToken(id, calls, owner).Some?;
      }
    }
  }

  lemma AuthorizesIffBears(id: Identity, calls: seq<Call>, r: Request)
    requires id.Valid() && AnyLive(id, calls)
    ensures (HasBearer(r) && Authorizes(id, ConfigAfter(id, calls), BearerToken(r), r.actor)) <==> Bears(id, calls, r)
  {
    EnabledIffLive(id, calls);
    ConfigHoldsLiveTokens(id, calls);
    var owner := id.resolve(r.actor);
    LiveTokenTrimmed(id, calls, owner);
    LiveTokenTrimmed(id, calls, FOUNDER);
    HeaderIsRead(r, "");
    forall x | Presents(r, x) ensures HasBearer(r) && BearerToken(r) == TrimSpace(x) { HeaderIsRead(r, x); }
    if HasBearer(r) {
      TrimIsTrimmed(TrimSpace(r.authorization)[|BEARER|..]);
      assert TrimSpace(BearerToken(r)) == BearerToken(r);
      var own := LiveToken(id, calls, owner);
      assert own.Some? ==> id.hash(own.value) != "" && TrimSpace(id.hash(own.value)) == id.hash(own.value);
    }
  }

  // ----- the table tracks the rejected tries --------------------------------------------------

  lemma SaysBearer(r: Request)
    ensures HasBearer(r) <==> exists x :: Presents(r, x)
  {
    HeaderIsRead(r, "");
    forall x | Presents(r, x) ensures HasBearer(r) { HeaderIsRead(r, x); }
  }

  /** The table knows the failures of the subject, none of which was at Go's zero time. */
  ghost predicate Knows(m: Table, subject: string, epoch: seq<Time>, at: Time) {
    Tracks(m, AuthKey(subject), epoch, WRITE_AUTH, at) && (epoch != [] ==> 0 < epoch[|epoch| - 1])
  }

  ghost predicate TryFollows(id: Identity, calls: seq<Call>, r: Request, subject: string) {
    var (verdict, m) := Decide(id, ConfigAfter(id, calls), TableAfter(id, calls), r);
    && Knows(m, subject, NextFailures(id, calls, Failures(id, calls, subject), subject, r), r.recordedAt)
    && (r.subject == subject ==> verdict == Expected(id, calls, r))
  }

  lemma TryTracks(id: Identity, calls: seq<Call>, r: Request, subject: string, before: Time)
    requires id.Valid() && 0 < before <= r.askedAt <= r.recordedAt
    requires Knows(TableAfter(id, calls), subject, Failures(id, calls, subject), before)
    ensures TryFollows(id, calls, r, subject)
  {
    var (m, key, epoch) := (TableAfter(id, calls), AuthKey(subject), Failures(id, calls, subject));
    EnabledIffLive(id, calls);
    if !r.sameOrigin {
      TrackingStep(m, Fail(Key("cross_origin_write", r.subject), WRITE_PROBE, r.recordedAt), key, epoch, WRITE_AUTH, before);
    } else if AnyLive(id, calls) {
      GuardedTryTracks(id, calls, r, subject, before);
    } else {
      TrackingStep(m, Ask(AuthKey(r.subject), r.recordedAt), key, epoch, WRITE_AUTH, before);
    }
  }

  lemma GuardedTryTracks(id: Identity, calls: seq<Call>, r: Request, subject: string, before: Time)
    requires id.Valid() && 0 < before <= r.askedAt <= r.recordedAt && r.sameOrigin && AnyLive(id, calls)
    requires Knows(TableAfter(id, calls), subject, Failures(id, calls, subject), before)
    ensures TryFollows(id, calls, r, subject)
  {
    var (m, key, epoch) := (TableAfter(id, calls), AuthKey(subject), Failures(id, calls, subject));
    EnabledIffLive(id, calls);
    AuthorizesIffBears(id, calls, r);
    SaysBearer(r);
    TrackingStep(m, Ask(AuthKey(r.subject), r.askedAt), key, epoch, WRITE_AUTH, before);
    if ReplyTo(m, Ask(AuthKey(r.subject), r.askedAt)).blocked {
      TrackingStep(m, Ask(AuthKey(r.subject), r.recordedAt), key, epoch, WRITE_AUTH, before);
    } else if Bears(id, calls, r) {
      TrackingStep(m, Op.Clear(AuthKey(r.subject), r.recordedAt), key, epoch, WRITE_AUTH, before);
    } else {
      TrackingStep(m, Fail(AuthKey(r.subject), WRITE_AUTH, r.recordedAt), key, epoch, WRITE_AUTH, before);
    }
  }

  lemma {:induction false} TableTracksFailures(id: Identity, calls: seq<Call>, subject: string, last: Time)
    requires id.Valid() && Sequential(calls) && last > 0
    requires forall i :: 0 <= i < |calls| ==> End(calls[i]) <= last
    ensures Knows(TableAfter(id, calls), subject, Failures(id, calls, subject), last)
  {
    if calls != [] {
      var n := |calls| - 1;
      TableTracksFailures(id, calls[..n], subject, Start(calls[n]));
      if calls[n].Try? { TryTracks(id, calls[..n], calls[n].r, subject, Start(calls[n])); }
    }
  }

  lemma TryIsLater(calls: seq<Call>, r: Request)
    requires Sequential(calls + [Try(r)])
    ensures Sequential(calls) && 0 < r.askedAt <= r.recordedAt
    ensures forall i :: 0 <= i < |calls| ==> End(calls[i]) <= r.askedAt
  {
    var all := calls + [Try(r)];
    assert all[|calls|] == Try(r) && forall i :: 0 <= i < |calls| ==> all[i] == calls[i];
    forall i | 0 <= i < |calls| ensures End(calls[i]) <= r.askedAt {
      assert End(all[i]) <= Start(all[|calls|]);
    }
  }

  lemma TryComesLast(id: Identity, calls: seq<Call>, r: Request)
    ensures TableAfter(id, calls + [Try(r)]) == Decide(id, ConfigAfter(id, calls), TableAfter(id, calls), r).1
    ensures forall s :: Failures(id, calls + [Try(r)], s) == NextFailures(id, calls, Failures(id, calls, s), s, r)
  {
    assert (calls + [Try(r)])[..|calls|] == calls;
  }

  /**
  The gate decides every request as the history of calls says, for any sequence of tries, token settings and
  clearings starting from the empty config; in particular it grants exactly the same-origin requests that
  come while no token is live, or from outside the block interval with a live token of the actor or founder.
  */
  lemma GateFollowsHistory(id: Identity, calls: seq<Call>, r: Request)
    requires id.Valid() && Sequential(calls + [Try(r)])
    ensures var verdict := Decide(id, ConfigAfter(id, calls), TableAfter(id, calls), r).0;
            var until := BlockEnd(Failures(id, calls, r.subject), WRITE_AUTH);
            && verdict == Expected(id, calls, r)
            && (verdict == Granted <==>
                  r.sameOrigin && (!AnyLive(id, calls) || (r.askedAt >= until && Bears(id, calls, r))))
  {
    TryIsLater(calls, r);
    TableTracksFailures(id, calls, r.subject, r.askedAt);
    TryTracks(id, calls, r, r.subject, r.askedAt);
  }

  /** Inside the block interval nothing is counted: neither a right token nor a wrong one changes the table. */
  lemma BlockedTriesLeaveNoTrace(id: Identity, calls: seq<Call>, r: Request)
    requires id.Valid() && Sequential(calls + [Try(r)]) && r.sameOrigin && AnyLive(id, calls)
    requires r.askedAt < BlockEnd(Failures(id, calls, r.subject), WRITE_AUTH)
    ensures TableAfter(id, calls + [Try(r)]) == TableAfter(id, calls)
    ensures forall s :: Failures(id, calls + [Try(r)], s) == Failures(id, calls, s)
  {
    TryIsLater(calls, r);
    TryComesLast(id, calls, r);
    EnabledIffLive(id, calls);
    TableTracksFailures(id, calls, r.subject, r.askedAt);
    TrackingStep(TableAfter(id, calls), Ask(AuthKey(r.subject), r.askedAt), AuthKey(r.subject),
                 Failures(id, calls, r.subject), WRITE_AUTH, r.askedAt);
  }
}
