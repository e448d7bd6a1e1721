/**
Continuity records of internal/runtime/continuity.go: records whose status depends on the time they are
looked at, with a bounded note history and references that are never lost.
*/
module ContinuityRecords {
  import opened Text

  type Time = nat

  const SECOND: nat := 1_000_000_000
  const STALE_AFTER: nat := 24 * 60 * 60 * SECOND
  const NOTE_LIMIT := 50

  /** A status is the word it folds to (strings.TrimSpace of strings.ToLower); `Blank` is the empty word. */
  datatype Status = Active | Stale | Resolved | Blank | Other(word: string)

  datatype Note = Note(noteId: string, kind: string, text: string, refs: seq<string>, createdAt: Time)

  datatype Record = Record(
    recordId: string, source: string, actor: string, status: Status, focus: string, goal: Option<string>,
    nextSteps: seq<string>, openRisks: seq<string>, handoff: Option<string>, refs: seq<string>,
    notes: seq<Note>, createdAt: Time, updatedAt: Time, resolvedAt: Option<Time>)

  /**
  The normalisers of single fields: a line is trimmed, a list is trimmed and loses blanks and repetitions, a note
  text is masked and limited, source, actor and kind are folded words, and ids are made from a clock reading.
  Records are treated for any such normalisers with these laws; module ContinuityFields gives the program's own.
  */
  datatype Env = Env(line: string -> string, list: seq<string> -> seq<string>, text: string -> string,
                     source: string -> string, actor: string -> string, kind: string -> string,
                     noteIdAt: Time -> string, recordIdAt: Time -> string) {
    ghost predicate Valid() {
      && Settles(line) && Settles(source) && Settles(actor) && Settles(kind)
      && ListLaws(list)
      && (forall s {:trigger text(text(s))} :: text(s) != "" ==> text(text(s)) != "")
      && (forall t {:trigger noteIdAt(t)} :: noteIdAt(t) != "" && line(noteIdAt(t)) == noteIdAt(t))
      && (forall t {:trigger recordIdAt(t)} :: recordIdAt(t) != "" && line(recordIdAt(t)) == recordIdAt(t))
      && line("") == "" && text("") == ""
    }
  }

  /** Normalising twice is normalising once. */
  ghost predicate Settles(f: string -> string) {
    forall s {:trigger f(f(s))} :: f(f(s)) == f(s)
  }

  ghost predicate Within(b: seq<string>, a: seq<string>) {
    forall x :: x in b ==> x in a
  }

  ghost predicate Grows(list: seq<string> -> seq<string>, a: seq<string>, b: seq<string>) {
    list(a) <= list(a + b) && Within(list(b), list(a + b))
  }

  ghost predicate Absorbs(list: seq<string> -> seq<string>, a: seq<string>, b: seq<string>) {
    Within(b, a) ==> list(a + b) == list(a)
  }

  /** A list can be normalised step by step, only grows at its end, and entries it already has add nothing. */
  ghost predicate ListLaws(list: seq<string> -> seq<string>) {
    && (forall a, b {:trigger list(list(a) + b)} :: list(list(a) + b) == list(a + b))
    && (forall a, b {:trigger list(a + list(b))} :: list(a + list(b)) == list(a + b))
    && (forall a, b {:trigger Grows(list, a, b)} :: Grows(list, a, b))
    && (forall a, b {:trigger Absorbs(list, a, b)} :: Absorbs(list, a, b))
    && list([]) == []
  }

  // ----- fields -----------------------------------------------------------------------------

  function NormalOption(env: Env, value: Option<string>): Option<string> {
    if value.None? || env.line(value.value) == "" then None else Some(env.line(value.value))
  }

  function NormalNote(env: Env, note: Note, now: Time): Note {
    Note(if env.line(note.noteId) == "" then env.noteIdAt(now) else env.line(note.noteId),
         env.kind(note.kind), env.text(note.text), env.list(note.refs),
         if note.createdAt == 0 then now else note.createdAt)
  }

  function NormalNotes(env: Env, notes: seq<Note>, now: Time): seq<Note> {
    if notes == [] then [] else
      var last := NormalNote(env, notes[|notes|-1], now);
      NormalNotes(env, notes[..|notes|-1], now) + if last.text == "" then [] else [last]
  }

  function WithNoteRefs(env: Env, refs: seq<string>, notes: seq<Note>): seq<string> {
    if notes == [] then refs
    else env.list(WithNoteRefs(env, refs, notes[..|notes|-1]) + notes[|notes|-1].refs)
  }

  function LastOf<T>(s: seq<T>, n: nat): seq<T> {
    if |s| <= n then s else s[|s|-n..]
  }

  function StatusAt(status: Status, updatedAt: Time, now: Time): Status {
    if status == Resolved then Resolved
    else if updatedAt == 0 then (if status == Blank then Active else status)
    else if now - updatedAt >= STALE_AFTER then Stale
    else Active
  }

  // ----- one record ---------------------------------------------------------------------------

  function Created(r: Record, now: Time): Time { if r.createdAt == 0 then now else r.createdAt }

  function Updated(r: Record, now: Time): Time { if r.updatedAt == 0 then Created(r, now) else r.updatedAt }

  function NormalAt(env: Env, r: Record, now: Time): Record {
    var updated := Updated(r, now);
    var notes := NormalNotes(env, r.notes, updated);
    var status := StatusAt(r.status, updated, now);
    Record(if env.line(r.recordId) == "" then env.recordIdAt(now) else env.line(r.recordId),
           env.source(r.source), env.actor(r.actor), status, env.line(r.focus),
           NormalOption(env, r.goal), env.list(r.nextSteps), env.list(r.openRisks), NormalOption(env, r.handoff),
           WithNoteRefs(env, env.list(r.refs), notes), LastOf(notes, NOTE_LIMIT), Created(r, now), updated,
           if status != Resolved then None
           else if r.resolvedAt.None? || r.resolvedAt.value == 0 then Some(updated) else r.resolvedAt)
  }

  /** The loop over the notes: blank ones are dropped, and the references of the others are collected. */
  method NormalizeNotes(env: Env, items: seq<Note>, itemRefs: seq<string>, updated: Time)
    returns (notes: seq<Note>, refs: seq<string>)
    ensures notes == NormalNotes(env, items, updated)
    ensures refs == WithNoteRefs(env, env.list(itemRefs), notes)
  {
    refs := env.list(itemRefs);
    notes := [];
    for i := 0 to |items|
      invariant notes == NormalNotes(env, items[..i], updated)
      invariant refs == WithNoteRefs(env, env.list(itemRefs), notes)
    {
      assert items[..i+1][..i] == items[..i];
      var note := NormalNote(env, items[i], updated);
      if note.text == "" { continue; }
      refs := env.list(refs + note.refs);
      assert (notes + [note])[..|notes|] == notes;
      notes := notes + [note];
    }
    assert items[..|items|] == items;
  }

  /** normalizeContinuityRecordAt. */
  method NormalizeRecord(env: Env, item: Record, now: Time) returns (out: Record)
    ensures out == NormalAt(env, item, now)
  {
    var created := if item.createdAt == 0 then now else item.createdAt;
    var updated := if item.updatedAt == 0 then created else item.updatedAt;
    var notes, refs := NormalizeNotes(env, item.notes, item.refs, updated);
    var status := StatusAt(item.status, updated, now);
    var resolvedAt := item.resolvedAt;
    if status == Resolved {
      if resolvedAt.None? || resolvedAt.value == 0 { resolvedAt := Some(updated); }
    } else {
      resolvedAt := None;
    }
    out := Record(if env.line(item.recordId) == "" then env.recordIdAt(now) else env.line(item.recordId),
                  env.source(item.source), env.actor(item.actor), status, env.line(item.focus),
                  NormalOption(env, item.goal), env.list(item.nextSteps), env.list(item.openRisks),
                  NormalOption(env, item.handoff), refs, LastOf(notes, NOTE_LIMIT), created, updated, resolvedAt);
  }
}
