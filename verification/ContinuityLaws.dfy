/** Normalising a record again: what stays, and what only the last look decides. */
module ContinuityLaws {
  import opened Text
  import opened ContinuityRecords
  import opened ContinuityLists
  import Sorting

  /** A record with an id and a creation time, whose note texts the masking leaves as they are. */
  ghost predicate Masked(env: Env, r: Record) {
    && env.line(r.recordId) != "" && r.createdAt != 0
    && (forall i :: 0 <= i < |r.notes| ==> env.text(r.notes[i].text) == r.notes[i].text)
  }

  ghost predicate Fixed(env: Env, n: Note, now: Time) {
    NormalNote(env, n, now) == n && n.text != ""
  }

  lemma NoteSettles(env: Env, n: Note, now: Time)
    requires env.Valid() && now != 0 && env.text(n.text) == n.text
    ensures var m := NormalNote(env, n, now); m.text != "" ==> Fixed(env, m, now)
  {
    var m := NormalNote(env, n, now);
    assert env.line(env.line(n.noteId)) == env.line(n.noteId);
    assert env.kind(env.kind(n.kind)) == env.kind(n.kind);
    ListTwice(env, n.refs);
  }

  lemma ListTwice(env: Env, items: seq<string>)
    requires ListLaws(env.list)
    ensures env.list(env.list(items)) == env.list(items)
  {
    assert env.list(items) + [] == env.list(items) && items + [] == items;
    assert env.list(env.list(items) + []) == env.list(items + []);
  }

  lemma {:induction false} NotesSettle(env: Env, notes: seq<Note>, now: Time)
    requires env.Valid() && now != 0
    requires forall i :: 0 <= i < |notes| ==> env.text(notes[i].text) == notes[i].text
    ensures forall i :: 0 <= i < |NormalNotes(env, notes, now)| ==> Fixed(env, NormalNotes(env, notes, now)[i], now)
  {
    if notes != [] {
      NotesSettle(env, notes[..|notes|-1], now);
      NoteSettles(env, notes[|notes|-1], now);
    }
  }

  lemma {:induction false} FixedNotesStay(env: Env, notes: seq<Note>, now: Time)
    requires forall i :: 0 <= i < |notes| ==> Fixed(env, notes[i], now)
    ensures NormalNotes(env, notes, now) == notes
  {
    if notes != [] {
      FixedNotesStay(env, notes[..|notes|-1], now);
      assert Fixed(env, notes[|notes|-1], now);
      assert notes == notes[..|notes|-1] + [notes[|notes|-1]];
    }
  }

  // ----- references ---------------------------------------------------------------------------

  function NoteRefs(notes: seq<Note>): seq<string> {
    if notes == [] then [] else NoteRefs(notes[..|notes|-1]) + notes[|notes|-1].refs
  }

  lemma {:induction false} NoteRefsAppend(a: seq<Note>, b: seq<Note>)
    ensures NoteRefs(a + b) == NoteRefs(a) + NoteRefs(b)
  {
    if b == [] {
      assert a + b == a;
    } else {
      assert (a + b)[..|a + b|-1] == a + b[..|b|-1];
      NoteRefsAppend(a, b[..|b|-1]);
    }
  }

  lemma {:induction false} WithNoteRefsIs(env: Env, refs: seq<string>, notes: seq<Note>)
    requires ListLaws(env.list)
    ensures WithNoteRefs(env, env.list(refs), notes) == env.list(refs + NoteRefs(notes))
  {
    if notes == [] {
      assert refs + [] == refs;
    } else {
      var n := |notes| - 1;
      WithNoteRefsIs(env, refs, notes[..n]);
      var known := refs + NoteRefs(notes[..n]);
      assert env.list(env.list(known) + notes[n].refs) == env.list(known + notes[n].refs);
      assert known + notes[n].refs == refs + NoteRefs(notes);
    }
  }

  /** Collecting the references again, from fewer notes, finds nothing new. */
  lemma CollectedRefsStay(env: Env, refs: seq<string>, notes: seq<Note>, n: nat)
    requires ListLaws(env.list)
    ensures var all := WithNoteRefs(env, env.list(refs), notes);
            WithNoteRefs(env, env.list(all), LastOf(notes, n)) == all
  {
    var last := LastOf(notes, n);
    var (known, more) := (refs + NoteRefs(notes), NoteRefs(last));
    assert notes == notes[..|notes|-|last|] + last;
    NoteRefsAppend(notes[..|notes|-|last|], last);
    WithNoteRefsIs(env, refs, notes);
    WithNoteRefsIs(env, env.list(known), last);
    assert Absorbs(env.list, known, more);
    assert env.list(env.list(known) + more) == env.list(known + more) == env.list(known);
  }

  // ----- one record ---------------------------------------------------------------------------

  lemma LookAbsorbsNotes(env: Env, r: Record, t1: Time)
    requires env.Valid() && Masked(env, r)
    ensures var a := NormalAt(env, r, t1);
            && NormalNotes(env, a.notes, Updated(r, t1)) == a.notes
            && WithNoteRefs(env, env.list(a.refs), a.notes) == a.refs
  {
    var notes := NormalNotes(env, r.notes, Updated(r, t1));
    NotesSettle(env, r.notes, Updated(r, t1));
    FixedNotesStay(env, LastOf(notes, NOTE_LIMIT), Updated(r, t1));
    CollectedRefsStay(env, r.refs, notes, NOTE_LIMIT);
  }

  lemma LookAbsorbsFields(env: Env, r: Record)
    requires env.Valid()
    ensures env.line(env.line(r.focus)) == env.line(r.focus)
    ensures env.source(env.source(r.source)) == env.source(r.source)
    ensures env.actor(env.actor(r.actor)) == env.actor(r.actor)
    ensures NormalOption(env, NormalOption(env, r.goal)) == NormalOption(env, r.goal)
    ensures NormalOption(env, NormalOption(env, r.handoff)) == NormalOption(env, r.handoff)
    ensures env.list(env.list(r.nextSteps)) == env.list(r.nextSteps)
    ensures env.list(env.list(r.openRisks)) == env.list(r.openRisks)
  {
    ListTwice(env, r.nextSteps);
    ListTwice(env, r.openRisks);
  }

  /** Any earlier look at a record makes no difference to a later one. */
  lemma LookAbsorbs(env: Env, r: Record, t1: Time, t2: Time)
    requires env.Valid() && Masked(env, r)
    ensures NormalAt(env, NormalAt(env, r, t1), t2) == NormalAt(env, r, t2)
  {
    LookAbsorbsNotes(env, r, t1);
    LookAbsorbsFields(env, r);
  }

  // ----- what a look shows --------------------------------------------------------------------

  /** A text that may be missing is there exactly when it is not blank, and normalised. */
  ghost predicate Shown(env: Env, seen: Option<string>, raw: Option<string>) {
    && (seen.Some? <==> raw.Some? && env.line(raw.value) != "")
    && (seen.Some? ==> seen.value == env.line(raw.value))
  }

  lemma FieldsSeen(env: Env, r: Record, now: Time)
    ensures var a := NormalAt(env, r, now);
            && (env.line(r.recordId) != "" ==> a.recordId == env.line(r.recordId))
            && (env.line(r.recordId) == "" ==> a.recordId == env.recordIdAt(now))
            && a.source == env.source(r.source) && a.actor == env.actor(r.actor) && a.focus == env.line(r.focus)
            && Shown(env, a.goal, r.goal) && Shown(env, a.handoff, r.handoff)
            && a.nextSteps == env.list(r.nextSteps) && a.openRisks == env.list(r.openRisks)
    ensures var a := NormalAt(env, r, now);
            && (r.createdAt != 0 ==> a.createdAt == r.createdAt) && (r.createdAt == 0 ==> a.createdAt == now)
            && (r.updatedAt != 0 ==> a.updatedAt == r.updatedAt) && (r.updatedAt == 0 ==> a.updatedAt == a.createdAt)
  {
  }

  /** A record is stale a day after its last update unless it was resolved, and only a resolved one has a time of it. */
  lemma StatusSeen(env: Env, r: Record, now: Time)
    requires now > 0
    ensures var a := NormalAt(env, r, now);
            && (a.status == Resolved <==> r.status == Resolved)
            && (a.status == Stale <==> r.status != Resolved && now - a.updatedAt >= 24 * 60 * 60 * 1_000_000_000)
            && (a.status == Active <==> r.status != Resolved && now - a.updatedAt < 24 * 60 * 60 * 1_000_000_000)
    ensures var a := NormalAt(env, r, now);
            && (a.resolvedAt.Some? <==> r.status == Resolved)
            && (r.status == Resolved && r.resolvedAt.Some? && r.resolvedAt.value != 0 ==> a.resolvedAt == r.resolvedAt)
            && (r.status == Resolved && (r.resolvedAt.None? || r.resolvedAt.value == 0) ==> a.resolvedAt == Some(a.updatedAt))
  {
  }

  /** The note as it is seen: its own id or one made from the clock, and its fields normalised. */
  ghost predicate NoteShown(env: Env, m: Note, n: Note, now: Time) {
    && (env.line(n.noteId) != "" ==> m.noteId == env.line(n.noteId)) && (env.line(n.noteId) == "" ==> m.noteId == env.noteIdAt(now))
    && m.kind == env.kind(n.kind) && m.text == env.text(n.text) && m.refs == env.list(n.refs)
    && (n.createdAt != 0 ==> m.createdAt == n.createdAt) && (n.createdAt == 0 ==> m.createdAt == now)
  }

  lemma NormalNotesSnoc(env: Env, notes: seq<Note>, now: Time)
    requires notes != []
    ensures var (before, last) := (NormalNotes(env, notes[..|notes|-1], now), notes[|notes|-1]);
            if env.text(last.text) == "" then NormalNotes(env, notes, now) == before
            else exists m :: NoteShown(env, m, last, now) && NormalNotes(env, notes, now) == before + [m]
  {
    var (before, last) := (NormalNotes(env, notes[..|notes|-1], now), notes[|notes|-1]);
    assert before + [] == before;
    assert NoteShown(env, NormalNote(env, last, now), last, now);
  }

  /** The notes that are seen: those with a text, in order. */
  lemma {:induction false} NotesSeen(env: Env, notes: seq<Note>, now: Time) returns (at: seq<nat>)
    ensures |at| == |NormalNotes(env, notes, now)|
    ensures forall k :: 0 <= k < |at| ==> at[k] < |notes| && NoteShown(env, NormalNotes(env, notes, now)[k], notes[at[k]], now)
    ensures forall k, l :: 0 <= k < l < |at| ==> at[k] < at[l]
    ensures forall i :: 0 <= i < |notes| ==> (i in at <==> env.text(notes[i].text) != "")
  {
    at := [];
    if notes != [] {
      var n := |notes| - 1;
      at := NotesSeen(env, notes[..n], now);
      NormalNotesSnoc(env, notes, now);
      assert forall i :: 0 <= i < n ==> notes[..n][i] == notes[i];
      if env.text(notes[n].text) != "" { at := at + [n]; }
    }
  }

  /** And of those the last fifty stay. */
  lemma LastNotesSeen(env: Env, r: Record, now: Time)
    ensures NormalAt(env, r, now).notes == LastOf(NormalNotes(env, r.notes, NormalAt(env, r, now).updatedAt), 50)
  {
  }

  lemma LastOfIs<T>(s: seq<T>, n: nat)
    ensures |LastOf(s, n)| == if |s| < n then |s| else n
    ensures forall k :: 0 <= k < |LastOf(s, n)| ==> LastOf(s, n)[k] == s[|s| - |LastOf(s, n)| + k]
  {
  }

  // ----- the program's lists ------------------------------------------------------------------

  function Normalizer(env: Env): View {
    (r: Record, now: Time) => NormalAt(env, r, now)
  }

  lemma MaskedSettles(env: Env, r: Record)
    requires env.Valid() && Masked(env, r)
    ensures Settled(Normalizer(env), r) && IdOf(Normalizer(env), r) == env.line(r.recordId)
  {
    var norm := Normalizer(env);
    forall t1: Time, t2: Time ensures norm(norm(r, t1), t2) == norm(r, t2) {
      LookAbsorbs(env, r, t1, t2);
    }
  }

  ghost predicate AllMasked(env: Env, items: seq<Record>) {
    forall i :: 0 <= i < |items| ==> Masked(env, items[i])
  }

  lemma AllMaskedSettle(env: Env, items: seq<Record>)
    requires env.Valid() && AllMasked(env, items)
    ensures FillsIds(Normalizer(env)) && AllSettled(Normalizer(env), items)
    ensures DistinctTrimmed(env, items) <==> DistinctOnceSeen(Normalizer(env), items)
  {
    forall i | 0 <= i < |items| ensures Settled(Normalizer(env), items[i]) && IdOf(Normalizer(env), items[i]) == env.line(items[i].recordId) {
      MaskedSettles(env, items[i]);
    }
  }

  ghost predicate DistinctTrimmed(env: Env, items: seq<Record>) {
    forall i, j :: 0 <= i < j < |items| ==> env.line(items[i].recordId) != env.line(items[j].recordId)
  }

  /** The list the store keeps from t1 shows at t2 exactly what t2 alone would, whatever the input order was. */
  lemma StoreAbsorbs(env: Env, items: seq<Record>, shuffled: seq<Record>, t1: Time, t2: Time)
    requires env.Valid() && AllMasked(env, items) && DistinctTrimmed(env, items)
    requires multiset(shuffled) == multiset(items)
    ensures var norm := Normalizer(env);
            NormalizedAt(norm, NormalizedAt(norm, shuffled, t1), t2) == NormalizedAt(norm, items, t2)
  {
    AllMaskedSettle(env, items);
    RenormalisationAbsorbs(Normalizer(env), items, shuffled, t1, t2);
  }

  /**
  upsertContinuityRecord as a map update, for the program's normaliser, a list normalised at any earlier time, and
  any inner clock readings.
  */
  lemma UpsertUpdatesMap(env: Env, items: seq<Record>, t: Time, next: Record, clock: nat -> Time, now: Time, id: string)
    requires env.Valid() && AllMasked(env, items) && Masked(env, next) && DistinctTrimmed(env, items)
    ensures var norm := Normalizer(env);
            var out := NormalizedAt(norm, Upserted(norm, NormalizedAt(norm, items, t), next, clock), now);
            && DistinctIds(out) && Sorting.Sorted(Order(), out)
            && Lookup(out, id) == if id == env.line(next.recordId) then Some(NormalAt(env, next, now))
                                  else Lookup(NormalizedAt(norm, items, now), id)
  {
    var norm := Normalizer(env);
    var stored := NormalizedAt(norm, items, t);
    AllMaskedSettle(env, items);
    MaskedSettles(env, next);
    NormalizedKept(norm, items, t);
    NormalizedDistinct(norm, items, t);
    UpsertRefinesMap(norm, stored, next, clock, now, id);
    NormalizedLookup(norm, stored, now, id);
    RenormalisationAbsorbs(norm, items, items, t, now);
  }

  /** Time only ages an open record: with a clock that does not go back, a stale one never becomes active again. */
  lemma StaleStaysStale(env: Env, r: Record, t1: Time, t2: Time)
    requires t1 <= t2 && r.updatedAt != 0
    ensures NormalAt(env, r, t1).status == Stale ==> NormalAt(env, r, t2).status == Stale
    ensures NormalAt(env, r, t1).status == Resolved <==> NormalAt(env, r, t2).status == Resolved
  {
  }
}
