/** The windowed deduplication of internal/runtime/corpus.go. */
module Corpus {
  import opened Text

  type Time = nat

  const CLEANUP_SIZE := 1000

  datatype Entry = Entry(sourceKind: string, actor: string, situation: string, decision: string, result: string, id: string)

  /** One acceptance, or one call, of the entry with this hash. */
  datatype Stamp = Stamp(hash: string, at: Time)

  /** The part of an entry that its hash is taken of. */
  function Signature(e: Entry): string {
    Join([e.sourceKind, e.actor, e.situation, e.decision], '|')
  }

  class SimpleCorpus {
    var entries: seq<Entry>
    var recentHashes: map<string, Time>
    const window: int
    const hash: string -> string
    ghost var accepted: seq<Stamp>  // every acceptance so far, oldest first

    /** The cache agrees with the acceptances on every hash that could still be a duplicate. */
    ghost predicate Valid(now: Time)
      reads this
    {
      && Ordered(accepted, now)
      && Agrees(recentHashes, accepted, window, now)
      && |entries| == |accepted|
      && (forall i :: 0 <= i < |entries| ==> hash(Signature(entries[i])) == accepted[i].hash)
    }

    constructor (hash: string -> string, window: int)
      ensures this.hash == hash && this.window == window
      ensures entries == [] && accepted == [] && Valid(0)
    {
      this.hash, this.window := hash, window;
      entries, recentHashes, accepted := [], map[], [];
    }

    /** NewSimpleCorpus: the saved entries are added again, at the time of the reload. */
    constructor Reload(hash: string -> string, window: int, saved: seq<Entry>, clock: nat -> Time)
      requires Rises(clock)
      ensures this.hash == hash && this.window == window
      ensures Replayed(entries, accepted) == Replay(hash, window, saved, |saved|, clock)
      ensures Valid(if saved == [] then 0 else clock(|saved| - 1))
    {
      this.hash, this.window := hash, window;
      entries, recentHashes, accepted := [], map[], [];
      new;
      AddAllAgain(saved, clock);
    }

    method AddAllAgain(saved: seq<Entry>, clock: nat -> Time)
      requires Rises(clock) && Valid(0) && entries == [] && accepted == []
      modifies this
      ensures Replayed(entries, accepted) == Replay(hash, window, saved, |saved|, clock)
      ensures Valid(LastMet(clock, |saved|))
    {
      for i := 0 to |saved|
        invariant Valid(LastMet(clock, i))
        invariant Replayed(entries, accepted) == Replay(hash, window, saved, i, clock)
      {
        AddAgain(saved, i, clock);
      }
    }

    method AddAgain(saved: seq<Entry>, i: nat, clock: nat -> Time)
      requires i < |saved| && Rises(clock) && Valid(LastMet(clock, i))
      requires Replayed(entries, accepted) == Replay(hash, window, saved, i, clock)
      modifies this
      ensures Valid(LastMet(clock, i + 1))
      ensures Replayed(entries, accepted) == Replay(hash, window, saved, i + 1, clock)
    {
      var added := AddEntry(saved[i], LastMet(clock, i), clock(i));
      if !added { assert old(accepted) + [] == old(accepted) && old(entries) + [] == old(entries); }
    }

    /** Accepts exactly the entries that are no duplicate within the window, whatever the clean-up removed before. */
    method AddEntry(entry: Entry, ghost last: Time, now: Time) returns (added: bool)
      requires Valid(last) && last <= now
      modifies this
      ensures Valid(now)
      ensures added <==> !Duplicate(old(accepted), hash(Signature(entry)), window, now)
      ensures accepted == old(accepted) + if added then [Stamp(hash(Signature(entry)), now)] else []
      ensures entries == old(entries) + if added then [entry] else []
    {
      var h := hash(Signature(entry));
      CacheTestIsRule(recentHashes, accepted, h, window, last, now);
      if h in recentHashes {
        if now - recentHashes[h] < window { return false; }
      }
      AcceptKeepsAgreement(recentHashes, accepted, h, window, last, now);
      if |recentHashes| > CLEANUP_SIZE {
        CleanUp(now);
      }
      recentHashes := recentHashes[h := now];
      entries := entries + [entry];
      accepted := accepted + [Stamp(h, now)];
      added := true;
    }

    method CleanUp(now: Time)
      modifies this`recentHashes
      ensures recentHashes == map h | h in old(recentHashes) && now - old(recentHashes)[h] <= window :: old(recentHashes)[h]
    {
      var unseen := recentHashes.Keys;
      while unseen != {}
        invariant unseen <= recentHashes.Keys <= old(recentHashes).Keys
        invariant forall h :: h in recentHashes ==> recentHashes[h] == old(recentHashes)[h]
        invariant forall h :: h in old(recentHashes) ==>
          (h in recentHashes <==> h in unseen || now - old(recentHashes)[h] <= window)
        decreases unseen
      {
        var h :| h in unseen;
        unseen := unseen - {h};
        if now - recentHashes[h] > window {
          recentHashes := recentHashes - {h};
        }
      }
    }

    /** Retrieve: the first matching entries, at most `limit` of them if it is positive. */
    method Retrieve(matches: Entry -> bool, limit: int) returns (results: seq<Entry>)
      ensures results == FirstMatches(entries, matches, limit)
    {
      results := [];
      for i := 0 to |entries|
        invariant results == Matching(entries[..i], matches)
        invariant limit > 0 ==> |results| < limit
      {
        assert entries[..i+1] == entries[..i] + [entries[i]];
        if matches(entries[i]) {
          results := results + [entries[i]];
          if limit > 0 && |results| >= limit {
            MatchingPrefix(entries, matches, i + 1);
            return;
          }
        }
      }
      assert entries[..|entries|] == entries;
    }
  }

  function Matching(entries: seq<Entry>, matches: Entry -> bool): seq<Entry> {
    if entries == [] then [] else
      Matching(entries[..|entries|-1], matches) + if matches(entries[|entries|-1]) then [entries[|entries|-1]] else []
  }

  function FirstMatches(entries: seq<Entry>, matches: Entry -> bool, limit: int): seq<Entry> {
    var all := Matching(entries, matches);
    if 0 < limit <= |all| then all[..limit] else all
  }

  lemma {:induction false} MatchingPrefix(entries: seq<Entry>, matches: Entry -> bool, n: nat)
    requires n <= |entries|
    ensures Matching(entries[..n], matches) <= Matching(entries, matches)
  {
    if n < |entries| {
      assert entries[..|entries|-1][..n] == entries[..n];
      MatchingPrefix(entries[..|entries|-1], matches, n);
    } else {
      assert entries[..n] == entries;
    }
  }

  lemma MatchingSnoc(entries: seq<Entry>, matches: Entry -> bool)
    requires entries != []
    ensures var (front, last) := (Matching(entries[..|entries|-1], matches), entries[|entries|-1]);
            Matching(entries, matches) == if matches(last) then front + [last] else front
  {
    var front := Matching(entries[..|entries|-1], matches);
    assert front + [] == front;
  }

  /** Which entries those are: exactly the matching ones, where they stand. */
  lemma {:induction false} MatchingAt(entries: seq<Entry>, matches: Entry -> bool) returns (at: seq<nat>)
    ensures |at| == |Matching(entries, matches)|
    ensures forall k :: 0 <= k < |at| ==> at[k] < |entries| && Matching(entries, matches)[k] == entries[at[k]]
    ensures forall k, l :: 0 <= k < l < |at| ==> at[k] < at[l]
    ensures forall i :: 0 <= i < |entries| ==> (i in at <==> matches(entries[i]))
  {
    at := [];
    if entries != [] {
      var n := |entries| - 1;
      at := MatchingAt(entries[..n], matches);
      MatchingSnoc(entries, matches);
      assert forall i :: 0 <= i < n ==> entries[..n][i] == entries[i];
      if matches(entries[n]) { at := at + [n]; }
    }
  }

  lemma FirstMatchesAre(entries: seq<Entry>, matches: Entry -> bool, limit: int)
    ensures var (some, all) := (FirstMatches(entries, matches, limit), Matching(entries, matches));
            some <= all && |some| == if limit > 0 && |all| > limit then limit else |all|
  {
  }

  /** Entries without the separator share a signature exactly when they agree on source, actor, situation and decision. */
  lemma SignatureTells(a: Entry, b: Entry)
    requires Free([a.sourceKind, a.actor, a.situation, a.decision], '|') && Free([b.sourceKind, b.actor, b.situation, b.decision], '|')
    ensures Signature(a) == Signature(b) <==>
              a.sourceKind == b.sourceKind && a.actor == b.actor && a.situation == b.situation && a.decision == b.decision
  {
    var (x, y) := ([a.sourceKind, a.actor, a.situation, a.decision], [b.sourceKind, b.actor, b.situation, b.decision]);
    SplitOfJoin(x, '|');
    SplitOfJoin(y, '|');
    assert x == y <==> x[0] == y[0] && x[1] == y[1] && x[2] == y[2] && x[3] == y[3];
  }

  // ----- the plain rule -----------------------------------------------------------------------

  /** Some entry with this hash was accepted less than one window ago. */
  ghost predicate Duplicate(accepted: seq<Stamp>, h: string, window: int, now: Time) {
    exists i :: 0 <= i < |accepted| && accepted[i].hash == h && now - accepted[i].at < window
  }

  ghost predicate Ordered(accepted: seq<Stamp>, now: Time) {
    && (forall i :: 0 <= i < |accepted| ==> accepted[i].at <= now)
    && (forall i, j :: 0 <= i < j < |accepted| ==> accepted[i].at <= accepted[j].at)
  }

  function Latest(accepted: seq<Stamp>, h: string): Option<Time> {
    if accepted == [] then None
    else if accepted[|accepted|-1].hash == h then Some(accepted[|accepted|-1].at)
    else Latest(accepted[..|accepted|-1], h)
  }

  /** The cache never holds anything but the latest acceptance, and holds it while it is within the window. */
  ghost predicate Agrees(recent: map<string, Time>, accepted: seq<Stamp>, window: int, now: Time) {
    && (forall h :: h in recent ==> Latest(accepted, h) == Some(recent[h]))
    && (forall h :: h !in recent && Latest(accepted, h).Some? ==> now - Latest(accepted, h).value > window)
  }

  lemma {:induction false} DuplicateIsLatest(accepted: seq<Stamp>, h: string, window: int, now: Time)
    requires Ordered(accepted, now)
    ensures Latest(accepted, h).Some? ==> exists i :: 0 <= i < |accepted| && accepted[i] == Stamp(h, Latest(accepted, h).value)
    ensures Duplicate(accepted, h, window, now) <==>
            Latest(accepted, h).Some? && now - Latest(accepted, h).value < window
  {
    if accepted != [] {
      var n := |accepted| - 1;
      var before := accepted[..n];
      DuplicateIsLatest(before, h, window, now);
      if Duplicate(accepted, h, window, now) && accepted[n].hash != h {
        var i :| 0 <= i < |accepted| && accepted[i].hash == h && now - accepted[i].at < window;
        assert before[i] == accepted[i];
      }
      if accepted[n].hash == h {
        assert accepted[n] == Stamp(h, accepted[n].at);
      } else if Latest(before, h).Some? {
        var i :| 0 <= i < |before| && before[i] == Stamp(h, Latest(before, h).value);
        assert accepted[i] == before[i];
      }
    }
  }

  /** The test on the cache is the plain rule. */
  lemma CacheTestIsRule(recent: map<string, Time>, accepted: seq<Stamp>, h: string, window: int, last: Time, now: Time)
    requires Ordered(accepted, last) && Agrees(recent, accepted, window, last) && last <= now
    ensures Duplicate(accepted, h, window, now) <==> h in recent && now - recent[h] < window
  {
    assert Ordered(accepted, now);
    DuplicateIsLatest(accepted, h, window, now);
  }

  function Swept(recent: map<string, Time>, window: int, now: Time): map<string, Time> {
    if |recent| > CLEANUP_SIZE then map h | h in recent && now - recent[h] <= window :: recent[h] else recent
  }

  lemma AcceptKeepsAgreement(recent: map<string, Time>, accepted: seq<Stamp>, h: string, window: int, last: Time, now: Time)
    requires Ordered(accepted, last) && Agrees(recent, accepted, window, last) && last <= now
    ensures Ordered(accepted + [Stamp(h, now)], now)
    ensures Agrees(Swept(recent, window, now)[h := now], accepted + [Stamp(h, now)], window, now)
  {
    var more := accepted + [Stamp(h, now)];
    assert more[..|more|-1] == accepted;
    assert forall g :: Latest(more, g) == if g == h then Some(now) else Latest(accepted, g);
  }

  // ----- whole runs: a specification without any cache -------------------------------------

  /** The acceptances of a run, by the plain rule alone. */
  ghost function Accepted(calls: seq<Stamp>, window: int): seq<Stamp> {
    if calls == [] then [] else
      var before := Accepted(calls[..|calls|-1], window);
      var call := calls[|calls|-1];
      if Duplicate(before, call.hash, window, call.at) then before else before + [call]
  }

  /** The cached decision, with a clean-up wherever the cache has outgrown its bound. */
  function Cache(calls: seq<Stamp>, window: int): map<string, Time> {
    if calls == [] then map[] else
      var recent := Cache(calls[..|calls|-1], window);
      var call := calls[|calls|-1];
      if call.hash in recent && call.at - recent[call.hash] < window then recent
      else Swept(recent, window, call.at)[call.hash := call.at]
  }

  ghost predicate Timed(calls: seq<Stamp>) {
    forall i, j :: 0 <= i < j < |calls| ==> calls[i].at <= calls[j].at
  }

  /** Over every run with a clock that does not go back, the cache decides as the plain rule does. */
  lemma {:induction false} CacheRefinesRule(calls: seq<Stamp>, window: int, now: Time)
    requires Timed(calls) && forall i :: 0 <= i < |calls| ==> calls[i].at <= now
    ensures var (recent, accepted) := (Cache(calls, window), Accepted(calls, window));
            && Ordered(accepted, now) && Agrees(recent, accepted, window, now)
            && (forall h :: Duplicate(accepted, h, window, now) <==> h in recent && now - recent[h] < window)
  {
    var (recent, accepted) := (Cache(calls, window), Accepted(calls, window));
    if calls != [] {
      var n := |calls| - 1;
      var call := calls[n];
      CacheRefinesRule(calls[..n], window, call.at);
      AcceptKeepsAgreement(Cache(calls[..n], window), Accepted(calls[..n], window), call.hash, window, call.at, call.at);
    }
    forall h ensures Duplicate(accepted, h, window, now) <==> h in recent && now - recent[h] < window {
      CacheTestIsRule(recent, accepted, h, window, now, now);
    }
  }

  ghost predicate Apart(accepted: seq<Stamp>, window: int) {
    forall i, j :: 0 <= i < j < |accepted| && accepted[i].hash == accepted[j].hash ==>
      accepted[j].at - accepted[i].at >= window
  }

  /** So two acceptances of one hash are always at least one window apart. */
  lemma {:induction false} AcceptancesApart(calls: seq<Stamp>, window: int)
    ensures Apart(Accepted(calls, window), window)
  {
    if calls != [] {
      AcceptancesApart(calls[..|calls|-1], window);
      var (before, call) := (Accepted(calls[..|calls|-1], window), calls[|calls|-1]);
      if !Duplicate(before, call.hash, window, call.at) {
        var a := before + [call];
        forall i, j | 0 <= i < j < |a| && a[i].hash == a[j].hash ensures a[j].at - a[i].at >= window {
          assert a[i] == before[i] && (j < |before| ==> a[j] == before[j]);
        }
      }
    }
  }

  // ----- what a reload keeps ------------------------------------------------------------------

  ghost predicate Rises(clock: nat -> Time) { forall i: nat, j: nat :: i <= j ==> clock(i) <= clock(j) }

  /** When the last of the first n was met. */
  function LastMet(clock: nat -> Time, n: nat): Time { if n == 0 then 0 else clock(n - 1) }

  datatype Replayed = Replayed(entries: seq<Entry>, accepted: seq<Stamp>)

  function Key(hash: string -> string, e: Entry): string { hash(Signature(e)) }

  /** What adding the first n saved entries again leaves, by the plain rule. */
  ghost function Replay(hash: string -> string, window: int, saved: seq<Entry>, n: nat, clock: nat -> Time): Replayed
    requires n <= |saved|
  {
    if n == 0 then Replayed([], []) else
      var (before, e) := (Replay(hash, window, saved, n - 1, clock), saved[n-1]);
      if Duplicate(before.accepted, Key(hash, e), window, clock(n - 1)) then before
      else Replayed(before.entries + [e], before.accepted + [Stamp(Key(hash, e), clock(n - 1))])
  }

  /** The first of the first n saved entries for every hash. */
  function Firsts(hash: string -> string, saved: seq<Entry>, n: nat): seq<Entry>
    requires n <= |saved|
  {
    if n == 0 then []
    else if Earlier(hash, saved, n - 1, Key(hash, saved[n-1])) then Firsts(hash, saved, n - 1)
    else Firsts(hash, saved, n - 1) + [saved[n-1]]
  }

  predicate Earlier(hash: string -> string, saved: seq<Entry>, n: nat, h: string)
    requires n <= |saved|
  {
    exists i :: 0 <= i < n && Key(hash, saved[i]) == h
  }

  /** Entries of one hash are met a window apart. */
  ghost predicate MetApart(hash: string -> string, window: int, saved: seq<Entry>, n: nat, clock: nat -> Time)
    requires n <= |saved|
  {
    forall i, j :: 0 <= i < j < n && Key(hash, saved[i]) == Key(hash, saved[j]) ==> clock(j) - clock(i) >= window
  }

  /** Nothing was dropped so far. */
  ghost predicate AllAgain(hash: string -> string, saved: seq<Entry>, n: nat, clock: nat -> Time, r: Replayed)
    requires n <= |saved|
  {
    r.entries == saved[..n] && |r.accepted| == n && forall i :: 0 <= i < n ==> r.accepted[i] == Stamp(Key(hash, saved[i]), clock(i))
  }

  /** All were kept exactly when they met apart. */
  ghost predicate KeptAll(hash: string -> string, window: int, saved: seq<Entry>, n: nat, clock: nat -> Time, r: Replayed)
    requires n <= |saved|
  {
    && |r.entries| <= n
    && (|r.entries| == n <==> MetApart(hash, window, saved, n, clock))
    && (|r.entries| == n ==> AllAgain(hash, saved, n, clock, r))
  }

  lemma MetApartStep(hash: string -> string, window: int, saved: seq<Entry>, n: nat, clock: nat -> Time, r: Replayed)
    requires n < |saved| && AllAgain(hash, saved, n, clock, r)
    ensures MetApart(hash, window, saved, n + 1, clock) <==>
            MetApart(hash, window, saved, n, clock) && !Duplicate(r.accepted, Key(hash, saved[n]), window, clock(n))
    ensures AllAgain(hash, saved, n + 1, clock,
                     Replayed(r.entries + [saved[n]], r.accepted + [Stamp(Key(hash, saved[n]), clock(n))]))
  {
    forall i | 0 <= i < n ensures r.accepted[i] == Stamp(Key(hash, saved[i]), clock(i)) { }
  }

  lemma ReplayAllStep(hash: string -> string, window: int, saved: seq<Entry>, n: nat, clock: nat -> Time)
    requires 0 < n <= |saved|
    requires KeptAll(hash, window, saved, n - 1, clock, Replay(hash, window, saved, n - 1, clock))
    ensures KeptAll(hash, window, saved, n, clock, Replay(hash, window, saved, n, clock))
  {
    var before := Replay(hash, window, saved, n - 1, clock);
    if |before.entries| == n - 1 {
      MetApartStep(hash, window, saved, n - 1, clock, before);
    } else {
    }
  }

  lemma {:induction false} ReplayAllIff(hash: string -> string, window: int, saved: seq<Entry>, n: nat, clock: nat -> Time)
    requires n <= |saved|
    ensures KeptAll(hash, window, saved, n, clock, Replay(hash, window, saved, n, clock))
  {
    if n > 0 {
      ReplayAllIff(hash, window, saved, n - 1, clock);
      ReplayAllStep(hash, window, saved, n, clock);
    }
  }

  /** A reload keeps every entry exactly when it meets entries of one hash a window apart. */
  lemma ReloadKeepsAllIff(hash: string -> string, window: int, saved: seq<Entry>, clock: nat -> Time)
    ensures Replay(hash, window, saved, |saved|, clock).entries == saved <==> MetApart(hash, window, saved, |saved|, clock)
  {
    ReplayAllIff(hash, window, saved, |saved|, clock);
    assert saved[..|saved|] == saved;
  }

  lemma {:induction false} ReplayMembers(hash: string -> string, window: int, saved: seq<Entry>, n: nat, clock: nat -> Time, i: nat)
    requires n <= |saved| && Rises(clock) && i < |Replay(hash, window, saved, n, clock).accepted|
    ensures clock(0) <= Replay(hash, window, saved, n, clock).accepted[i].at
    ensures Earlier(hash, saved, n, Replay(hash, window, saved, n, clock).accepted[i].hash)
  {
    if i < |Replay(hash, window, saved, n - 1, clock).accepted| { ReplayMembers(hash, window, saved, n - 1, clock, i); }
  }

  lemma {:induction false} ReplayHas(hash: string -> string, window: int, saved: seq<Entry>, n: nat, clock: nat -> Time, i: nat)
    returns (at: nat)
    requires i < n <= |saved|
    ensures var accepted := Replay(hash, window, saved, n, clock).accepted;
            at < |accepted| && accepted[at].hash == Key(hash, saved[i])
  {
    var before := Replay(hash, window, saved, n - 1, clock).accepted;
    if i < n - 1 {
      at := ReplayHas(hash, window, saved, n - 1, clock, i);
    } else if Duplicate(before, Key(hash, saved[i]), window, clock(i)) {
      at :| at < |before| && before[at].hash == Key(hash, saved[i]);
    } else {
      at := |before|;
    }
  }

  /** While less than a window has passed, a hash is a duplicate exactly when an entry of the reload had it. */
  lemma QuickIsEarlier(hash: string -> string, window: int, saved: seq<Entry>, n: nat, clock: nat -> Time, h: string)
    requires n <= |saved| && Rises(clock) && clock(n) - clock(0) < window
    ensures Duplicate(Replay(hash, window, saved, n, clock).accepted, h, window, clock(n)) <==> Earlier(hash, saved, n, h)
  {
    var accepted := Replay(hash, window, saved, n, clock).accepted;
    if i :| 0 <= i < |accepted| && accepted[i].hash == h { ReplayMembers(hash, window, saved, n, clock, i); }
    if i :| 0 <= i < n && Key(hash, saved[i]) == h {
      var at := ReplayHas(hash, window, saved, n, clock, i);
      ReplayMembers(hash, window, saved, n, clock, at);
    }
  }

  /** A reload that takes less than a window keeps the first entry of every hash, however far apart they were accepted. */
  lemma {:induction false} QuickReloadKeepsFirsts(hash: string -> string, window: int, saved: seq<Entry>, n: nat, clock: nat -> Time)
    requires n <= |saved| && Rises(clock) && (n > 0 ==> clock(n - 1) - clock(0) < window)
    ensures Replay(hash, window, saved, n, clock).entries == Firsts(hash, saved, n)
  {
    if n > 0 {
      assert n > 1 ==> clock(n - 2) <= clock(n - 1);
      QuickReloadKeepsFirsts(hash, window, saved, n - 1, clock);
      QuickIsEarlier(hash, window, saved, n - 1, clock, Key(hash, saved[n-1]));
    }
  }
}
