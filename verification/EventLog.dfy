/**
The event store of internal/runtime/event.go: a bounded tail in memory, a queue waiting for the
archive, and the count of what the archive holds; and its saving and rollback in internal/runtime/service.go.
*/
module EventLog {
  import opened Text

  /** An event; `wellTyped` stands for the checks on surface, stage and the JSON data. */
  datatype Event = Event(eventId: string, kind: string, actor: string, workItemId: string, timestamp: nat, wellTyped: bool)

  predicate Validates(e: Event) {
    && TrimSpace(e.eventId) != "" && TrimSpace(e.kind) != "" && TrimSpace(e.actor) != ""
    && TrimSpace(e.workItemId) != "" && e.timestamp != 0 && e.wellTyped
  }

  datatype Store = Store(items: seq<Event>, pending: seq<Event>, archived: int, limit: int)

  /** What the store still has in memory, oldest first. */
  function Listed(s: Store): seq<Event> { s.pending + s.items }

  function Count(s: Store): int { s.archived + |s.pending| + |s.items| }

  function Appended(s: Store, e: Event): Store {
    var all := s.items + [e];
    if !Validates(e) then s
    else if s.limit > 0 && |all| > s.limit then
      s.(pending := s.pending + all[..|all|-s.limit], items := all[|all|-s.limit..])
    else s.(items := all)
  }

  /** An append loses nothing, and moves events to the queue only as far as the limit asks. */
  lemma AppendedIs(s: Store, e: Event)
    ensures var t := Appended(s, e);
            && t.archived == s.archived && t.limit == s.limit
            && (!Validates(e) ==> t == s)
            && (Validates(e) ==> t.pending + t.items == s.pending + (s.items + [e]))
            && (Validates(e) && s.limit <= 0 ==> t.pending == s.pending)
            && (Validates(e) && s.limit > 0 ==> |t.items| == if |s.items| < s.limit then |s.items| + 1 else s.limit)
  {
    var all := s.items + [e];
    if s.limit > 0 && |all| > s.limit {
      assert all[..|all|-s.limit] + all[|all|-s.limit..] == all;
      assert s.pending + all[..|all|-s.limit] + all[|all|-s.limit..] == s.pending + all;
    }
  }

  function AppendedAll(s: Store, es: seq<Event>): Store {
    if es == [] then s else Appended(AppendedAll(s, es[..|es|-1]), es[|es|-1])
  }

  function Marked(s: Store): Store {
    s.(archived := s.archived + |s.pending|, pending := [])
  }

  /** newEventStoreFromState: a copied state, whose non-positive limit is read from the environment again. */
  function Restored(s: Store, envLimit: int): Store {
    if s.limit <= 0 then s.(limit := envLimit) else s
  }

  // ----- duplicate ids ----------------------------------------------------------------------

  function Ids(xs: seq<Event>): set<string> {
    set i | 0 <= i < |xs| && TrimSpace(xs[i].eventId) != "" :: TrimSpace(xs[i].eventId)
  }

  /** dedupeEvents: the first event of every id, and every event without one. */
  function Dedupe(xs: seq<Event>): seq<Event> {
    if xs == [] then [] else
      var before := xs[..|xs|-1];
      var last := xs[|xs|-1];
      if TrimSpace(last.eventId) in Ids(before) then Dedupe(before) else Dedupe(before) + [last]
  }

  ghost predicate DistinctIds(xs: seq<Event>) {
    forall i, j :: 0 <= i < j < |xs| && TrimSpace(xs[i].eventId) == TrimSpace(xs[j].eventId) ==> TrimSpace(xs[i].eventId) == ""
  }

  lemma {:induction false} DedupeShrinks(xs: seq<Event>)
    ensures |Dedupe(xs)| <= |xs|
  {
    if xs != [] { DedupeShrinks(xs[..|xs|-1]); }
  }

  lemma DistinctSnoc(xs: seq<Event>, e: Event)
    ensures DistinctIds(xs + [e]) <==> DistinctIds(xs) && TrimSpace(e.eventId) !in Ids(xs)
  {
    var all := xs + [e];
    if DistinctIds(all) {
      forall i, j | 0 <= i < j < |xs| && TrimSpace(xs[i].eventId) == TrimSpace(xs[j].eventId) ensures TrimSpace(xs[i].eventId) == "" {
        assert all[i] == xs[i] && all[j] == xs[j];
      }
      forall i | 0 <= i < |xs| ensures TrimSpace(xs[i].eventId) == "" || TrimSpace(xs[i].eventId) != TrimSpace(e.eventId) {
        assert all[i] == xs[i] && all[|xs|] == e;
      }
    }
    if DistinctIds(xs) && TrimSpace(e.eventId) !in Ids(xs) {
      forall i, j | 0 <= i < j < |all| && TrimSpace(all[i].eventId) == TrimSpace(all[j].eventId) ensures TrimSpace(all[i].eventId) == "" {
        assert TrimSpace(xs[i].eventId) == "" || TrimSpace(xs[i].eventId) in Ids(xs);
      }
    }
  }

  /** Nothing is dropped exactly when no non-blank id occurs twice. */
  lemma {:induction false} DedupeKeepsAllIff(xs: seq<Event>)
    ensures Dedupe(xs) == xs <==> DistinctIds(xs)
  {
    if xs != [] {
      var (front, last) := (xs[..|xs|-1], xs[|xs|-1]);
      assert xs == front + [last];
      DedupeKeepsAllIff(front);
      DedupeShrinks(front);
      DistinctSnoc(front, last);
      if TrimSpace(last.eventId) !in Ids(front) {
        assert Dedupe(xs) == Dedupe(front) + [last];
        if Dedupe(xs) == xs { assert Dedupe(front) == (Dedupe(front) + [last])[..|front|] == front; }
      }
    }
  }

  /** The result has one event for each id of the input, and no id twice. */
  lemma {:induction false} DedupeMeaning(xs: seq<Event>)
    ensures DistinctIds(Dedupe(xs)) && Ids(Dedupe(xs)) == Ids(xs)
  {
    if xs != [] {
      var n := |xs| - 1;
      DedupeMeaning(xs[..n]);
      var (d, last) := (Dedupe(xs[..n]), xs[n]);
      assert Ids(xs) == Ids(xs[..n]) + Ids([last]) by { IdsAppend(xs[..n], last); assert xs == xs[..n] + [last]; }
      IdsAppend(d, last);
      if TrimSpace(last.eventId) !in Ids(xs[..n]) {
        forall i | 0 <= i < |d| && TrimSpace(d[i].eventId) == TrimSpace(last.eventId) ensures TrimSpace(d[i].eventId) == "" {
          assert TrimSpace(d[i].eventId) in Ids(d) + {""};
        }
      }
    }
  }

  predicate IsFirst(xs: seq<Event>, i: nat)
    requires i < |xs|
  {
    TrimSpace(xs[i].eventId) == "" || forall j :: 0 <= j < i ==> TrimSpace(xs[j].eventId) != TrimSpace(xs[i].eventId)
  }

  lemma FirstsStay(xs: seq<Event>)
    requires xs != []
    ensures forall i :: 0 <= i < |xs| - 1 ==> (IsFirst(xs, i) <==> IsFirst(xs[..|xs|-1], i))
    ensures IsFirst(xs, |xs| - 1) <==> TrimSpace(xs[|xs|-1].eventId) !in Ids(xs[..|xs|-1])
  {
    var front := xs[..|xs|-1];
    assert forall j :: 0 <= j < |front| ==> front[j] == xs[j];
  }

  /** Which events those are: the first with each id and all without one, where they stand. */
  lemma {:induction false} DedupePicks(xs: seq<Event>) returns (at: seq<nat>)
    ensures |at| == |Dedupe(xs)|
    ensures forall k :: 0 <= k < |at| ==> at[k] < |xs| && Dedupe(xs)[k] == xs[at[k]]
    ensures forall k, l :: 0 <= k < l < |at| ==> at[k] < at[l]
    ensures forall i :: 0 <= i < |xs| ==> (i in at <==> IsFirst(xs, i))
  {
    at := [];
    if xs != [] {
      var n := |xs| - 1;
      at := DedupePicks(xs[..n]);
      FirstsStay(xs);
      if IsFirst(xs, n) { at := at + [n]; }
    }
  }

  lemma IdsAppend(xs: seq<Event>, e: Event)
    ensures Ids(xs + [e]) == Ids(xs) + Ids([e])
  {
    var all := xs + [e];
    forall id | id in Ids(xs) + Ids([e]) ensures id in Ids(all) {
      if id in Ids(xs) {
        var i :| 0 <= i < |xs| && TrimSpace(xs[i].eventId) == id && id != "";
        assert all[i] == xs[i];
      } else {
        assert all[|xs|] == e;
      }
    }
  }

  /** splitRetainedEvents: (recent, archive). */
  function SplitRetained(xs: seq<Event>, limit: int): (seq<Event>, seq<Event>) {
    if limit <= 0 || |xs| <= limit then (xs, []) else (xs[|xs|-limit..], xs[..|xs|-limit])
  }

  lemma DedupeStep(xs: seq<Event>, i: nat)
    requires i < |xs|
    ensures var (before, key) := (xs[..i], TrimSpace(xs[i].eventId));
            && Dedupe(xs[..i+1]) == (if key in Ids(before) then Dedupe(before) else Dedupe(before) + [xs[i]])
            && Ids(xs[..i+1]) == (if key == "" then Ids(before) else Ids(before) + {key})
  {
    assert xs[..i+1] == xs[..i] + [xs[i]];
    IdsAppend(xs[..i], xs[i]);
    assert Ids([xs[i]]) == if TrimSpace(xs[i].eventId) == "" then {} else {TrimSpace(xs[i].eventId)};
  }

  method DedupeEvents(evidence: seq<Event>) returns (out: seq<Event>)
    ensures out == Dedupe(evidence)
  {
    var seen: set<string> := {};
    out := [];
    for i := 0 to |evidence|
      invariant out == Dedupe(evidence[..i])
      invariant seen == Ids(evidence[..i])
    {
      DedupeStep(evidence, i);
      var key := TrimSpace(evidence[i].eventId);
      if key == "" {
        out := out + [evidence[i]];
        continue;
      }
      if key in seen { continue; }
      seen := seen + {key};
      out := out + [evidence[i]];
    }
    assert evidence[..|evidence|] == evidence;
  }

  class EventStore {
    var items: seq<Event>
    var pendingArchive: seq<Event>
    var archivedCount: int
    var limit: int

    ghost function State(): Store
      reads this
    {
      Store(items, pendingArchive, archivedCount, limit)
    }

    /** Restart from disk: whatever does not fit the limit is cut off here and never queued. */
    constructor WithArchiveCount(saved: seq<Event>, archived: int, envLimit: int)
      ensures State() == Store(SplitRetained(Dedupe(saved), envLimit).0, [], if archived < 0 then 0 else archived, envLimit)
    {
      var deduped := DedupeEvents(saved);
      items := SplitRetained(deduped, envLimit).0;
      pendingArchive := [];
      archivedCount := if archived < 0 then 0 else archived;
      limit := envLimit;
    }

    /** Import of a snapshot: nothing is lost, the overflow waits for the archive. */
    constructor FromEvidence(evidence: seq<Event>, envLimit: int)
      ensures Listed(State()) == Dedupe(evidence) && Count(State()) == |Dedupe(evidence)|
      ensures limit == envLimit && (limit > 0 ==> |items| <= limit)
      ensures pendingArchive != [] ==> |items| == limit
    {
      var deduped := DedupeEvents(evidence);
      var (recent, archive) := SplitRetained(deduped, envLimit);
      items, pendingArchive, archivedCount, limit := recent, archive, 0, envLimit;
    }

    constructor FromState(state: Store, envLimit: int)
      ensures State() == Restored(state, envLimit)
    {
      items, pendingArchive, archivedCount := state.items, state.pending, state.archived;
      limit := if state.limit <= 0 then envLimit else state.limit;
    }

    method Snapshot() returns (state: Store)
      ensures state == State()
    {
      state := Store(items, pendingArchive, archivedCount, limit);
    }

    method List() returns (out: seq<Event>)
      ensures out == Listed(State())
    {
      out := pendingArchive + items;
    }

    method TotalCount() returns (n: int)
      ensures n == Count(State())
    {
      n := archivedCount + |pendingArchive| + |items|;
    }

    method Append(item: Event) returns (ok: bool)
      modifies this
      ensures ok == Validates(item)
      ensures ok <==> TrimSpace(item.eventId) != "" && TrimSpace(item.kind) != "" && TrimSpace(item.actor) != ""
                      && TrimSpace(item.workItemId) != "" && item.timestamp != 0 && item.wellTyped
      ensures State() == Appended(old(State()), item)
      ensures archivedCount == old(archivedCount) && limit == old(limit)
      ensures !ok ==> items == old(items) && pendingArchive == old(pendingArchive)
      ensures ok ==> pendingArchive + items == old(pendingArchive) + (old(items) + [item])
      ensures ok && limit <= 0 ==> pendingArchive == old(pendingArchive)
      ensures ok && limit > 0 ==> |items| == if |old(items)| < limit then |old(items)| + 1 else limit
    {
      if !Validates(item) { return false; }
      AppendedIs(State(), item);
      items := items + [item];
      if limit > 0 && |items| > limit {
        var overflow := |items| - limit;
        pendingArchive := pendingArchive + items[..overflow];
        items := items[overflow..];
      }
      ok := true;
    }

    method MarkArchivePersisted()
      modifies this
      ensures State() == Marked(old(State()))
    {
      archivedCount := archivedCount + |pendingArchive|;
      pendingArchive := [];
    }
  }
}
