/** The store, its archive and its saved tail together are one append-only log. */
module EventLogLaws {
  import opened Text
  import opened EventLog

  /**
  `archive` is what reading events_archive.json gives and `saved` what events.json holds; `persisted` is the tail
  that the service takes to be there (its signature, which tells tails apart).
  */
  datatype World = World(store: Store, archive: seq<Event>, saved: seq<Event>, persisted: seq<Event>, envLimit: int)

  /** How far a save came before it failed: persistLocked saves many domains, events in the middle. */
  datatype Reached = NothingOfEvents | ArchiveAppended | EventsSaved

  datatype Op =
    | Append(e: Event)
    | Persist
    | Fails(es: seq<Event>, reached: Reached)  // snapshot, append, save in vain, restore the snapshot
    | Abandons(reached: Reached)               // save in vain and leave the events as they are
    | Restart(limit: int)

  /** The test by which a save skips the event files. */
  predicate EventsDirty(s: Store, persisted: seq<Event>) { s.pending != [] || s.items != persisted }

  /** The files after a save of the store that came so far. */
  function Written(w: World, s: Store, reached: Reached): World {
    if reached.NothingOfEvents? || !EventsDirty(s, w.persisted) then w
    else w.(archive := w.archive + s.pending, saved := if reached.EventsSaved? then s.items else w.saved)
  }

  function MarkedIf(s: Store, written: bool): Store { if written then Marked(s) else s }

  function Saved(w: World): World {
    Written(w, w.store, EventsSaved).(store := MarkedIf(w.store, EventsDirty(w.store, w.persisted)), persisted := w.store.items)
  }

  function Failed(w: World, es: seq<Event>, reached: Reached): World {
    Written(w, AppendedAll(w.store, es), reached).(store := Restored(w.store, w.envLimit))
  }

  function Abandoned(w: World, reached: Reached): World {
    Written(w, w.store, reached).(store := MarkedIf(w.store, reached.EventsSaved? && EventsDirty(w.store, w.persisted)))
  }

  function Restarted(w: World, limit: int): World {
    World(Store(SplitRetained(Dedupe(w.saved), limit).0, [], |w.archive|, limit), w.archive, w.saved, w.saved, limit)
  }

  function After(w: World, op: Op): World {
    match op
    case Append(e) => w.(store := Appended(w.store, e))
    case Persist => Saved(w)
    case Fails(es, reached) => Failed(w, es, reached)
    case Abandons(reached) => Abandoned(w, reached)
    case Restart(limit) => Restarted(w, limit)
  }

  /** The logical history: what was appended and not taken back. */
  function History(before: seq<Event>, op: Op): seq<Event> {
    if op.Append? && Validates(op.e) then before + [op.e] else before
  }

  ghost predicate Conserved(w: World, history: seq<Event>) {
    && w.archive + w.store.pending + w.store.items == history
    && w.store.archived == |w.archive|
    && w.store.limit == w.envLimit
    && (w.store.limit > 0 ==> |w.store.items| <= w.store.limit)
  }

  /** Everything is on disk: nothing waits and the tail was saved as it is. */
  ghost predicate Quiescent(w: World) {
    w.store.pending == [] && w.saved == w.store.items
  }

  /** The tail on disk is the one the service takes to be there. */
  ghost predicate Synced(w: World) { w.saved == w.persisted }

  /** When an operation keeps the log, said about the state before it. */
  ghost predicate Keeps(w: World, op: Op) {
    match op
    case Append(_) => true
    case Persist => true
    case Fails(es, reached) => reached.NothingOfEvents? || AppendedAll(w.store, es).pending == []
    case Abandons(reached) => !reached.ArchiveAppended? || w.store.pending == []
    case Restart(limit) => DistinctIds(w.saved) && (limit <= 0 || |w.saved| <= limit)
  }

  /** When it leaves no tail on disk that the service does not know of. */
  ghost predicate LeavesTail(w: World, op: Op) {
    match op
    case Fails(es, reached) => !reached.EventsSaved? || AppendedAll(w.store, es).items == w.persisted
    case Abandons(reached) => !reached.EventsSaved? || w.store.items == w.persisted
    case _ => true
  }

  /** Count follows the history, and the history can be read back from archive, queue and tail. */
  lemma CountIsLength(w: World, history: seq<Event>)
    requires Conserved(w, history)
    ensures Count(w.store) == |history|
    ensures w.archive + Listed(w.store) == history
  {
    assert w.archive + Listed(w.store) == w.archive + w.store.pending + w.store.items;
  }

  lemma Regrouped<T>(a: seq<T>, p: seq<T>, i: seq<T>, q: seq<T>, j: seq<T>, x: T)
    requires q + j == p + (i + [x])
    ensures a + q + j == a + p + i + [x]
  {
    assert a + q + j == a + (q + j);
  }

  lemma AppendConserves(w: World, history: seq<Event>, e: Event)
    requires Conserved(w, history)
    ensures Conserved(After(w, Append(e)), History(history, Append(e)))
  {
    var (s, t) := (w.store, Appended(w.store, e));
    AppendedIs(s, e);
    if Validates(e) {
      Regrouped(w.archive, s.pending, s.items, t.pending, t.items, e);
    }
  }

  lemma PersistConserves(w: World, history: seq<Event>)
    requires Conserved(w, history)
    ensures Conserved(Saved(w), history)
  {
    var (a, p, i) := (w.archive, w.store.pending, w.store.items);
    assert a + p + [] + i == a + p + i;
  }

  /**
  A successful save puts everything on disk exactly when it finds something to write or the tail is there already.
  Otherwise a tail that a failed save left behind stays: the service compares with what it last knew it had saved.
  */
  lemma PersistQuiescentIff(w: World)
    ensures Quiescent(Saved(w)) <==> EventsDirty(w.store, w.persisted) || w.saved == w.store.items
  {
    assert w.archive + [] == w.archive;
  }

  /** And a save that is given up keeps the log exactly when the archive was not extended without the store's knowing. */
  lemma AbandonConservesIff(w: World, history: seq<Event>, reached: Reached)
    requires Conserved(w, history)
    ensures Conserved(Abandoned(w, reached), history) <==> Keeps(w, Abandons(reached))
  {
    var (a, p, i) := (w.archive, w.store.pending, w.store.items);
    assert a + p + [] + i == a + p + i;
    assert a + [] == a;
    if !Keeps(w, Abandons(reached)) {
      assert |a + p + p + i| > |history|;
    }
  }

  /** From a world in which the service knows its files, only such operations lead to one in which it does. */
  lemma SyncedIff(w: World, op: Op)
    requires Synced(w)
    ensures Synced(After(w, op)) <==> LeavesTail(w, op)
  {
  }

  lemma {:induction false} PendingOnlyGrows(s: Store, es: seq<Event>)
    ensures s.pending <= AppendedAll(s, es).pending
  {
    if es != [] { PendingOnlyGrows(s, es[..|es|-1]); }
  }

  /**
  A failed save followed by the rollback keeps the log exactly when no queued event had reached the archive
  before the failure: the restored queue would otherwise be archived a second time.
  */
  lemma FailureConservesIff(w: World, history: seq<Event>, es: seq<Event>, reached: Reached)
    requires Conserved(w, history)
    ensures Conserved(Failed(w, es, reached), history) <==> Keeps(w, Fails(es, reached))
  {
    var dirty := AppendedAll(w.store, es);
    var after := Failed(w, es, reached);
    if Keeps(w, Fails(es, reached)) {
      PendingOnlyGrows(w.store, es);
      assert w.archive + [] == w.archive;
      assert after.archive == w.archive;
    } else {
      assert |after.archive + after.store.pending + after.store.items| > |history|;
    }
  }

  /** A restart of a saved world keeps the log exactly when ids are distinct and the limit covers the saved tail. */
  lemma RestartConservesIff(w: World, history: seq<Event>, limit: int)
    requires Conserved(w, history) && Quiescent(w)
    ensures Conserved(Restarted(w, limit), history) <==> Keeps(w, Restart(limit))
  {
    DedupeKeepsAllIff(w.saved);
    DedupeShrinks(w.saved);
    var kept := SplitRetained(Dedupe(w.saved), limit).0;
    assert w.archive + [] + kept == w.archive + kept;
    if Conserved(Restarted(w, limit), history) {
      assert (w.archive + kept)[|w.archive|..] == kept;
      assert history[|w.archive|..] == w.saved;
    }
  }

  /** After a successful save, such a restart keeps the log exactly when the save had put everything on disk. */
  lemma RestartAfterPersistIff(w: World, history: seq<Event>, limit: int)
    requires Conserved(w, history) && Keeps(Saved(w), Restart(limit))
    ensures Conserved(Restarted(Saved(w), limit), history) <==> EventsDirty(w.store, w.persisted) || w.saved == w.store.items
  {
    var s := Saved(w);
    PersistConserves(w, history);
    PersistQuiescentIff(w);
    DedupeKeepsAllIff(s.saved);
    SameTail(s.archive, s.saved, s.store.items);
    assert s.archive + [] + s.saved == s.archive + s.saved;
    assert s.archive + [] + s.store.items == s.archive + s.store.items;
    assert limit > 0 ==> |s.saved| <= limit;
  }

  lemma SameTail(a: seq<Event>, b: seq<Event>, c: seq<Event>)
    ensures a + b == a + c <==> b == c
  {
    assert (a + b)[|a|..] == b && (a + c)[|a|..] == c;
  }

  // ----- whole runs -----------------------------------------------------------------------

  function Run(w: World, ops: seq<Op>): World {
    if ops == [] then w else After(Run(w, ops[..|ops|-1]), ops[|ops|-1])
  }

  function RunHistory(ops: seq<Op>): seq<Event> {
    if ops == [] then [] else History(RunHistory(ops[..|ops|-1]), ops[|ops|-1])
  }

  function Boot(limit: int): World { World(Store([], [], 0, limit), [], [], [], limit) }

  /** Every operation keeps the log where it stands in the run, and every restart finds everything on disk. */
  ghost predicate AllKeep(w: World, ops: seq<Op>) {
    ops != [] ==>
      var (front, last) := (ops[..|ops|-1], ops[|ops|-1]);
      AllKeep(w, front) && Keeps(Run(w, front), last) && (last.Restart? ==> Quiescent(Run(w, front)))
  }

  lemma StepConserves(w: World, history: seq<Event>, op: Op)
    requires Conserved(w, history) && Keeps(w, op) && (op.Restart? ==> Quiescent(w))
    ensures Conserved(After(w, op), History(history, op))
  {
    match op
    case Append(e) => AppendConserves(w, history, e);
    case Persist => PersistConserves(w, history);
    case Fails(es, reached) => FailureConservesIff(w, history, es, reached);
    case Abandons(reached) => AbandonConservesIff(w, history, reached);
    case Restart(l) => RestartConservesIff(w, history, l);
  }

  /**
  Conservation over every run of appends, saves, rolled-back failures and restarts: archive, queue and tail
  are the history in order, the count is its length and the tail never exceeds a positive limit.
  */
  lemma {:induction false} LogConserved(limit: int, ops: seq<Op>)
    requires AllKeep(Boot(limit), ops)
    ensures var w := Run(Boot(limit), ops);
            Conserved(w, RunHistory(ops)) && Count(w.store) == |RunHistory(ops)|
  {
    if ops != [] {
      var n := |ops| - 1;
      LogConserved(limit, ops[..n]);
      StepConserves(Run(Boot(limit), ops[..n]), RunHistory(ops[..n]), ops[n]);
    }
    CountIsLength(Run(Boot(limit), ops), RunHistory(ops));
  }

  /** Runs in which a restart follows a save and no failed save leaves a tail behind. */
  ghost predicate Guarded(w: World, ops: seq<Op>) {
    ops != [] ==>
      var (front, last) := (ops[..|ops|-1], ops[|ops|-1]);
      && Guarded(w, front) && Keeps(Run(w, front), last) && LeavesTail(Run(w, front), last)
      && (last.Restart? ==> front != [] && front[|front|-1].Persist?)
  }

  /** In such a run the service knows its files throughout, so every restart finds everything on disk. */
  lemma {:induction false} GuardedRunsKeep(limit: int, ops: seq<Op>)
    requires Guarded(Boot(limit), ops)
    ensures AllKeep(Boot(limit), ops) && Synced(Run(Boot(limit), ops))
    ensures ops != [] && ops[|ops|-1].Persist? ==> Quiescent(Run(Boot(limit), ops))
  {
    if ops != [] {
      var (front, last) := (ops[..|ops|-1], ops[|ops|-1]);
      GuardedRunsKeep(limit, front);
      SyncedIff(Run(Boot(limit), front), last);
      if last.Persist? { SavedWhileSynced(Run(Boot(limit), front)); }
    }
  }

  lemma SavedWhileSynced(w: World)
    requires Synced(w)
    ensures Quiescent(Saved(w))
  {
    PersistQuiescentIff(w);
  }

  /** Events wait for the archive only beside a full tail. */
  ghost predicate QueueMeansFull(s: Store) { s.pending != [] ==> s.limit > 0 && |s.items| == s.limit }

  /** An append that queues something found a tail already full; whatever happens, what is queued leaves it full. */
  lemma AppendQueuesIff(s: Store, e: Event)
    requires s.limit > 0 ==> |s.items| <= s.limit
    ensures Appended(s, e).pending != s.pending <==> Validates(e) && s.limit > 0 && |s.items| == s.limit
    ensures Appended(s, e).pending != s.pending ==> |Appended(s, e).items| == s.limit
    ensures s.limit > 0 && |s.items| == s.limit && Validates(e) ==>
              Appended(s, e).pending == s.pending + [s.items[0]] && Appended(s, e).items == s.items[1..] + [e]
  {
    var all := s.items + [e];
    AppendedIs(s, e);
    if s.limit > 0 && |s.items| == s.limit { assert all[..1] == [s.items[0]] && all[1..] == s.items[1..] + [e]; }
    if |Appended(s, e).pending| == |s.pending| { assert s.pending + [] == s.pending; }
  }

  lemma {:induction false} RunQueuesBesideFull(limit: int, ops: seq<Op>)
    ensures QueueMeansFull(Run(Boot(limit), ops).store)
    ensures var s := Run(Boot(limit), ops).store; s.limit > 0 ==> |s.items| <= s.limit
    ensures Run(Boot(limit), ops).store.limit == Run(Boot(limit), ops).envLimit
  {
    if ops != [] {
      var (front, last) := (ops[..|ops|-1], ops[|ops|-1]);
      RunQueuesBesideFull(limit, front);
      if last.Append? { AppendQueuesIff(Run(Boot(limit), front).store, last.e); }
      if last.Append? { AppendedIs(Run(Boot(limit), front).store, last.e); }
    }
  }

  lemma RunSnoc(w: World, ops: seq<Op>, op: Op)
    ensures Run(w, ops + [op]) == After(Run(w, ops), op) && RunHistory(ops + [op]) == History(RunHistory(ops), op)
  {
    assert (ops + [op])[..|ops|] == ops;
  }

  lemma AppendToFull(first: Event, second: Event)
    requires Validates(second)
    ensures Appended(Store([first], [], 0, 1), second) == Store([second], [first], 0, 1)
    ensures AppendedAll(Store([first], [], 0, 1), [second]) == Store([second], [first], 0, 1)
  {
    assert ([first] + [second])[..1] == [first] && ([first] + [second])[1..] == [second];
    assert [second][..0] == [];
  }

  /** The rollback does duplicate: a tail of one, a second event, and a save that fails after the event files. */
  lemma DuplicatedArchive(first: Event, second: Event)
    requires Validates(first) && Validates(second)
    ensures var ops := [] + [Append(first)] + [Fails([second], EventsSaved)] + [Append(second)] + [Persist];
            var w := Run(Boot(1), ops);
            RunHistory(ops) == [first, second] && w.archive == [first, first] && w.store.items == [second]
  {
    AppendToFull(first, second);
    var a: seq<Op> := [] + [Append(first)];
    var b := a + [Fails([second], EventsSaved)];
    var c := b + [Append(second)];
    RunSnoc(Boot(1), [], Append(first));
    RunSnoc(Boot(1), a, Fails([second], EventsSaved));
    RunSnoc(Boot(1), b, Append(second));
    RunSnoc(Boot(1), c, Persist);
    assert [] + [first] == [first];
    assert Run(Boot(1), a).store == Store([first], [], 0, 1);
    assert Run(Boot(1), b).archive == [first] && Run(Boot(1), b).store == Store([first], [], 0, 1);
  }

  lemma ReturnSteps(a: Event, b: Event)
    requires Validates(a) && Validates(b)
    ensures var s := Store([a], [], 0, 10);
            && Appended(Store([], [], 0, 10), a) == s && AppendedAll(s, [b]) == Store([a, b], [], 0, 10)
  {
    assert [] + [a] == [a] && [a] + [b] == [a, b] && [b][..0] == [];
  }

  /**
  And an event that was rolled back does return: a save fails after the event files, the next one finds nothing new
  and skips them, and a restart reads the tail that the first had left. The log before the restart has one event.
  */
  lemma RolledBackEventReturns(a: Event, b: Event) returns (ops: seq<Op>)
    requires Validates(a) && Validates(b) && TrimSpace(a.eventId) != TrimSpace(b.eventId)
    ensures var w := Run(Boot(10), ops);
            && Conserved(w, [a]) && RunHistory(ops) == [a] && w.store.items == [a] && Keeps(w, Restart(10))
            && Restarted(w, 10).store.items == [a, b] && !Conserved(Restarted(w, 10), [a])
  {
    ReturnSteps(a, b);
    var one: seq<Op> := [] + [Append(a)];
    var two := one + [Persist];
    var three := two + [Fails([b], EventsSaved)];
    RunSnoc(Boot(10), [], Append(a));
    RunSnoc(Boot(10), one, Persist);
    RunSnoc(Boot(10), two, Fails([b], EventsSaved));
    RunSnoc(Boot(10), three, Persist);
    ops := three + [Persist];
    assert Run(Boot(10), one) == World(Store([a], [], 0, 10), [], [], [], 10);
    assert Run(Boot(10), two) == World(Store([a], [], 0, 10), [], [a], [a], 10);
    assert Run(Boot(10), three) == World(Store([a], [], 0, 10), [], [a, b], [a], 10);
    assert DistinctIds([a, b]);
    DedupeKeepsAllIff([a, b]);
    assert [] + [a] == [a];
  }
}
