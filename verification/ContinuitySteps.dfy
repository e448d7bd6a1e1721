/** Checkpoints, notes and finishes of a session applied to its record, over any number of steps. */
module ContinuitySteps {
  import opened Text
  import opened ContinuityRecords
  import opened ContinuityLaws

  datatype Step =
    | Checkpoint(source: string, focus: string, goal: Option<string>, nextSteps: seq<string>, openRisks: seq<string>,
                 handoff: Option<string>, note: Option<string>, refs: seq<string>, at: Time)
    | AddNote(source: string, kind: string, text: string, refs: seq<string>, at: Time)
    | Finish(focus: string, goal: Option<string>, nextSteps: seq<string>, openRisks: seq<string>,
             handoff: Option<string>, note: Option<string>, at: Time)

  /** The note a step makes, before the record is normalised again. */
  function NewNote(env: Env, r: Record, s: Step): Option<Note> {
    match s
    case Checkpoint(_, _, _, _, _, _, note, refs, at) =>
      if note.None? then None else Some(NormalNote(env, Note("", "note", note.value, refs, at), at))
    case AddNote(_, kind, text, refs, at) => Some(NormalNote(env, Note("", kind, text, refs, at), at))
    case Finish(_, _, _, _, _, note, at) =>
      if note.None? then None else Some(NormalNote(env, Note("", "decision", note.value, r.refs, at), at))
  }

  function WithNote(notes: seq<Note>, note: Option<Note>): seq<Note> {
    if note.None? then notes else notes + [note.value]
  }

  /** The record with the step's fields, on the way to its last normalisation. */
  function Edited(env: Env, r: Record, s: Step): Record {
    var note := NewNote(env, r, s);
    match s
    case Checkpoint(source, focus, goal, nextSteps, openRisks, handoff, _, refs, at) =>
      r.(source := source, status := Active, focus := focus, goal := goal, nextSteps := nextSteps,
         openRisks := openRisks, handoff := handoff, refs := env.list(r.refs + refs), updatedAt := at,
         resolvedAt := None, notes := WithNote(r.notes, note))
    case AddNote(source, kind, text, refs, at) =>
      var kept := r.(source := source, status := Active, refs := env.list(r.refs + note.value.refs), updatedAt := at,
                     resolvedAt := None, notes := WithNote(r.notes, note));
      if note.value.kind == "todo" then kept.(nextSteps := env.list(r.nextSteps + [note.value.text]))
      else if note.value.kind == "risk" then kept.(openRisks := env.list(r.openRisks + [note.value.text]))
      else kept
    case Finish(focus, goal, nextSteps, openRisks, handoff, _, at) =>
      r.(status := Resolved, focus := env.line(focus), goal := NormalOption(env, goal),
         nextSteps := env.list(nextSteps), openRisks := env.list(openRisks), handoff := NormalOption(env, handoff),
         updatedAt := at, resolvedAt := Some(at), notes := WithNote(r.notes, note))
  }

  /** applySessionCheckpoint-, applySessionNote- and applySessionFinishToContinuityRecord. */
  function Applied(env: Env, r: Record, s: Step): Record {
    NormalAt(env, Edited(env, NormalAt(env, r, s.at), s), s.at)
  }

  function Run(env: Env, r: Record, steps: seq<Step>): Record {
    if steps == [] then r else Applied(env, Run(env, r, steps[..|steps|-1]), steps[|steps|-1])
  }

  // ----- the specification ----------------------------------------------------------------------

  function NoteIds(notes: seq<Note>): seq<string> {
    seq(|notes|, i requires 0 <= i < |notes| => notes[i].noteId)
  }

  /** The id of the note a step leaves behind: none if its text is blank once masked. */
  function StepIds(env: Env, s: Step): seq<string> {
    var text := if s.AddNote? then Some(s.text) else s.note;
    if text.None? || env.text(text.value) == "" then [] else [env.noteIdAt(s.at)]
  }

  function StepRefs(s: Step): seq<string> {
    if s.Finish? then [] else s.refs
  }

  function AllIds(env: Env, steps: seq<Step>): seq<string> {
    if steps == [] then [] else AllIds(env, steps[..|steps|-1]) + StepIds(env, steps[|steps|-1])
  }

  function AllRefs(steps: seq<Step>): seq<string> {
    if steps == [] then [] else AllRefs(steps[..|steps|-1]) + StepRefs(steps[|steps|-1])
  }

  // ----- what a normalised record has -------------------------------------------------------------

  ghost predicate Kept(env: Env, n: Note) {
    n.noteId != "" && env.line(n.noteId) == n.noteId && n.text != "" && env.text(n.text) != ""
    && env.list(n.refs) == n.refs
  }

  /** The notes have ids and texts and are within the bound; the references include those of every note. */
  ghost predicate Settled(env: Env, r: Record) {
    && |r.notes| <= NOTE_LIMIT
    && AllKept(env, r.notes) && Within(NoteRefs(r.notes), r.refs)
    && env.list(r.refs) == r.refs
  }

  lemma NoteKept(env: Env, n: Note, now: Time)
    requires env.Valid()
    ensures var m := NormalNote(env, n, now);
            && (m.text != "" ==> Kept(env, m))
            && (Kept(env, n) ==> m.text != "" && m.noteId == n.noteId && m.refs == n.refs)
  {
    assert env.line(env.line(n.noteId)) == env.line(n.noteId);
    assert env.noteIdAt(now) != "";
    ListTwice(env, n.refs);
  }

  ghost predicate AllKept(env: Env, notes: seq<Note>) {
    forall i :: 0 <= i < |notes| ==> Kept(env, notes[i])
  }

  lemma {:induction false} NotesKept(env: Env, notes: seq<Note>, now: Time)
    requires env.Valid()
    ensures AllKept(env, NormalNotes(env, notes, now))
  {
    if notes != [] {
      NotesKept(env, notes[..|notes|-1], now);
      NoteKept(env, notes[|notes|-1], now);
    }
  }

  lemma OneMoreNote(notes: seq<Note>, note: Note)
    ensures NoteIds(notes + [note]) == NoteIds(notes) + [note.noteId]
    ensures NoteRefs(notes + [note]) == NoteRefs(notes) + note.refs
  {
    assert (notes + [note])[..|notes|] == notes;
  }

  /** Normalising settled notes keeps every one of them, with its id and references. */
  lemma {:induction false} KeptNotesStay(env: Env, notes: seq<Note>, now: Time)
    requires env.Valid() && AllKept(env, notes)
    ensures var normal := NormalNotes(env, notes, now);
            NoteIds(normal) == NoteIds(notes) && NoteRefs(normal) == NoteRefs(notes)
  {
    if notes != [] {
      var (front, last) := (notes[..|notes|-1], notes[|notes|-1]);
      assert Kept(env, last);
      KeptNotesStay(env, front, now);
      NoteKept(env, last, now);
      OneMoreNote(NormalNotes(env, front, now), NormalNote(env, last, now));
      OneMoreNote(front, last);
      assert notes == front + [last];
    }
  }

  /** Looking at a settled record changes neither its references nor which notes it has. */
  lemma LookKeeps(env: Env, r: Record, now: Time)
    requires env.Valid() && Settled(env, r)
    ensures var a := NormalAt(env, r, now);
            Settled(env, a) && NoteIds(a.notes) == NoteIds(r.notes) && a.refs == r.refs
  {
    var notes := NormalNotes(env, r.notes, Updated(r, now));
    NotesKept(env, r.notes, Updated(r, now));
    KeptNotesStay(env, r.notes, Updated(r, now));
    assert |notes| == |NoteIds(notes)| == |NoteIds(r.notes)|;
    WithNoteRefsIs(env, r.refs, notes);
    assert Absorbs(env.list, r.refs, NoteRefs(notes));
  }

  /** What an edit may hand over: settled notes, perhaps a new one at the end, and references that cover them all. */
  ghost predicate Editable(env: Env, notes: seq<Note>, note: Option<Note>, refs: seq<string>) {
    && AllKept(env, notes) && Within(NoteRefs(notes), refs) && env.list(refs) == refs
    && (note.Some? ==> (note.value.text == "" || Kept(env, note.value)) && Within(note.value.refs, refs))
  }

  function NewIds(note: Option<Note>): seq<string> {
    if note.None? || note.value.text == "" then [] else [note.value.noteId]
  }

  lemma OneMoreKept(env: Env, notes: seq<Note>, n: Note, now: Time)
    requires env.Valid() && AllKept(env, notes) && Kept(env, n)
    ensures var all := NormalNotes(env, notes + [n], now);
            && AllKept(env, all) && NoteIds(all) == NoteIds(notes) + [n.noteId]
            && NoteRefs(all) == NoteRefs(notes) + n.refs
  {
    NotesKept(env, notes + [n], now);
    KeptNotesStay(env, notes, now);
    NoteKept(env, n, now);
    OneMoreNote(NormalNotes(env, notes, now), NormalNote(env, n, now));
  }

  lemma OneMoreBlank(env: Env, notes: seq<Note>, n: Note, now: Time)
    requires env.Valid() && AllKept(env, notes) && n.text == ""
    ensures var all := NormalNotes(env, notes + [n], now);
            AllKept(env, all) && NoteIds(all) == NoteIds(notes) && NoteRefs(all) == NoteRefs(notes)
  {
    KeptNotesStay(env, notes, now);
    NotesKept(env, notes, now);
    assert NormalNotes(env, notes, now) + [] == NormalNotes(env, notes, now);
  }

  lemma NotesPlusOne(env: Env, notes: seq<Note>, note: Option<Note>, refs: seq<string>, now: Time)
    requires env.Valid() && Editable(env, notes, note, refs)
    ensures var all := NormalNotes(env, WithNote(notes, note), now);
            AllKept(env, all) && NoteIds(all) == NoteIds(notes) + NewIds(note) && Within(NoteRefs(all), refs)
  {
    if note.None? {
      KeptNotesStay(env, notes, now);
      NotesKept(env, notes, now);
    } else if note.value.text == "" {
      OneMoreBlank(env, notes, note.value, now);
    } else {
      OneMoreKept(env, notes, note.value, now);
    }
  }

  lemma LastNotes(notes: seq<Note>, n: nat)
    ensures NoteIds(LastOf(notes, n)) == LastOf(NoteIds(notes), n)
    ensures Within(NoteRefs(LastOf(notes, n)), NoteRefs(notes))
  {
    var last := LastOf(notes, n);
    assert notes == notes[..|notes|-|last|] + last;
    NoteRefsAppend(notes[..|notes|-|last|], last);
  }

  /** The last normalisation of a step. */
  lemma EditSettles(env: Env, r: Record, notes: seq<Note>, note: Option<Note>, now: Time)
    requires env.Valid() && Editable(env, notes, note, r.refs)
    requires r.notes == WithNote(notes, note)
    ensures var a := NormalAt(env, r, now);
            && Settled(env, a) && a.refs == r.refs
            && NoteIds(a.notes) == LastOf(NoteIds(notes) + NewIds(note), NOTE_LIMIT)
  {
    var all := NormalNotes(env, r.notes, Updated(r, now));
    NotesPlusOne(env, notes, note, r.refs, Updated(r, now));
    LastNotes(all, NOTE_LIMIT);
    WithNoteRefsIs(env, r.refs, all);
    assert Absorbs(env.list, r.refs, NoteRefs(all));
  }

  lemma NewNoteIs(env: Env, r: Record, s: Step)
    requires env.Valid() && env.list(r.refs) == r.refs
    ensures var note := NewNote(env, r, s);
            && NewIds(note) == StepIds(env, s)
            && (note.Some? ==> (note.value.text == "" || Kept(env, note.value))
                               && note.value.refs == env.list(if s.Finish? then r.refs else s.refs))
  {
    var text := if s.AddNote? then Some(s.text) else s.note;
    if text.Some? {
      var raw := Note("", if s.AddNote? then s.kind else if s.Finish? then "decision" else "note", text.value,
                      if s.Finish? then r.refs else s.refs, s.at);
      assert NewNote(env, r, s) == Some(NormalNote(env, raw, s.at));
      NoteKept(env, raw, s.at);
    }
  }

  lemma EditedIs(env: Env, r: Record, s: Step)
    requires env.Valid() && Settled(env, r)
    ensures var e := Edited(env, r, s);
            && e.notes == WithNote(r.notes, NewNote(env, r, s)) && e.refs == env.list(r.refs + StepRefs(s))
            && Editable(env, r.notes, NewNote(env, r, s), e.refs)
  {
    NewNoteIs(env, r, s);
    var (e, more) := (Edited(env, r, s), StepRefs(s));
    assert env.list(r.refs + env.list(more)) == env.list(r.refs + more);
    ListTwice(env, r.refs + more);
    if s.Finish? {
      assert r.refs + more == r.refs;
    } else {
      ListKeeps(env, r.refs, more);
    }
  }

  /** Both parts of a list that was already in order are in the result. */
  lemma ListKeeps(env: Env, a: seq<string>, b: seq<string>)
    requires ListLaws(env.list) && env.list(a) == a
    ensures Within(a, env.list(a + b)) && Within(env.list(b), env.list(a + b))
  {
    assert Grows(env.list, a, b);
  }

  lemma StepLaw(env: Env, r: Record, s: Step)
    requires env.Valid() && Settled(env, r)
    ensures Settled(env, Applied(env, r, s))
    ensures Applied(env, r, s).refs == env.list(r.refs + StepRefs(s))
    ensures NoteIds(Applied(env, r, s).notes) == LastOf(NoteIds(r.notes) + StepIds(env, s), NOTE_LIMIT)
  {
    var looked := NormalAt(env, r, s.at);
    LookKeeps(env, r, s.at);
    EditedIs(env, looked, s);
    NewNoteIs(env, looked, s);
    EditSettles(env, Edited(env, looked, s), looked.notes, NewNote(env, looked, s), s.at);
  }

  /** The edit between the two looks of a step. */
  lemma EditedHas(env: Env, r: Record, s: Step)
    ensures var e := Edited(env, r, s);
            && e.status == (if s.Finish? then Resolved else Active) && e.updatedAt == s.at && e.createdAt == r.createdAt
            && e.resolvedAt == (if s.Finish? then Some(s.at) else None)
            && e.recordId == r.recordId && e.actor == r.actor && e.source == (if s.Finish? then r.source else s.source)
            && e.notes == WithNote(r.notes, NewNote(env, r, s))
  {
  }

  /** What a step says of the session: its state and its times. */
  lemma StepState(env: Env, r: Record, s: Step)
    requires env.Valid() && s.at > 0
    ensures var a := Applied(env, r, s);
            && (a.status == Resolved <==> s.Finish?) && (a.status == Active <==> !s.Finish?)
            && a.updatedAt == s.at && a.resolvedAt == (if s.Finish? then Some(s.at) else None)
            && (r.createdAt != 0 ==> a.createdAt == r.createdAt) && (r.createdAt == 0 ==> a.createdAt == s.at)
  {
    var seen := NormalAt(env, r, s.at);
    FieldsSeen(env, r, s.at);
    EditedHas(env, seen, s);
    FieldsSeen(env, Edited(env, seen, s), s.at);
    StatusSeen(env, Edited(env, seen, s), s.at);
  }

  /** And whose it is: only its source may change. */
  lemma StepOwner(env: Env, r: Record, s: Step)
    requires env.Valid()
    ensures var a := Applied(env, r, s);
            && a.source == env.source(if s.Finish? then r.source else s.source) && a.actor == env.actor(r.actor)
            && (env.line(r.recordId) != "" ==> a.recordId == env.line(r.recordId))
  {
    var seen := NormalAt(env, r, s.at);
    FieldsSeen(env, r, s.at);
    EditedHas(env, seen, s);
    FieldsSeen(env, Edited(env, seen, s), s.at);
    assert env.source(env.source(r.source)) == env.source(r.source) && env.actor(env.actor(r.actor)) == env.actor(r.actor);
    assert env.line(env.line(r.recordId)) == env.line(r.recordId);
  }

  /** A checkpoint and a finish set the plan; a note leaves it, but for the step or risk it may add. */
  lemma StepPlan(env: Env, r: Record, s: Step)
    requires env.Valid()
    ensures var a := Applied(env, r, s);
            if s.AddNote? then a.focus == env.line(r.focus) && Shown(env, a.goal, r.goal) && Shown(env, a.handoff, r.handoff)
            else a.focus == env.line(s.focus) && Shown(env, a.goal, s.goal) && Shown(env, a.handoff, s.handoff)
                 && a.nextSteps == env.list(s.nextSteps) && a.openRisks == env.list(s.openRisks)
    ensures s.AddNote? ==>
              var (a, text) := (Applied(env, r, s), env.text(s.text));
              && a.nextSteps == (if env.kind(s.kind) == "todo" then env.list(r.nextSteps + [text]) else env.list(r.nextSteps))
              && a.openRisks == (if env.kind(s.kind) == "risk" then env.list(r.openRisks + [text]) else env.list(r.openRisks))
  {
    var seen := NormalAt(env, r, s.at);
    FieldsSeen(env, r, s.at);
    FieldsSeen(env, Edited(env, seen, s), s.at);
    LinesTwice(env, r, s);
    if s.AddNote? {
      ListTwice(env, r.nextSteps);
      ListTwice(env, r.openRisks);
      var text := [env.text(s.text)];
      ListTwice(env, r.nextSteps + text);
      ListTwice(env, r.openRisks + text);
      assert env.list(env.list(r.nextSteps) + text) == env.list(r.nextSteps + text);
      assert env.list(env.list(r.openRisks) + text) == env.list(r.openRisks + text);
    } else {
      ListTwice(env, s.nextSteps);
      ListTwice(env, s.openRisks);
    }
  }

  lemma LinesTwice(env: Env, r: Record, s: Step)
    requires env.Valid()
    ensures env.line(env.line(r.focus)) == env.line(r.focus)
    ensures !s.AddNote? ==> env.line(env.line(s.focus)) == env.line(s.focus)
    ensures forall v :: Shown(env, NormalOption(env, NormalOption(env, v)), v)
    ensures forall v :: Shown(env, NormalOption(env, v), v)
  {
    forall v ensures Shown(env, NormalOption(env, NormalOption(env, v)), v) {
      if v.Some? { assert env.line(env.line(v.value)) == env.line(v.value); }
    }
  }

  ghost predicate NewestHas(env: Env, s: Step, known: seq<string>, m: Note) {
    && m.noteId == env.noteIdAt(s.at) && m.createdAt == s.at
    && m.kind == env.kind(if s.AddNote? then s.kind else if s.Checkpoint? then "note" else "decision")
    && ((s.AddNote? || s.note.Some?) ==> m.text == env.text(env.text(if s.AddNote? then s.text else s.note.value)))
    && m.refs == env.list(if s.Finish? then known else s.refs)
  }

  /** The note a step leaves behind: the newest, of the step's time, with the step's text, kind and references. */
  lemma NewestNote(env: Env, r: Record, s: Step)
    requires env.Valid() && Settled(env, r) && s.at > 0 && StepIds(env, s) != []
    ensures Applied(env, r, s).notes != []
    ensures var notes := Applied(env, r, s).notes; NewestHas(env, s, r.refs, notes[|notes|-1])
  {
    var seen := NormalAt(env, r, s.at);
    LookKeeps(env, r, s.at);
    NewestOfEdit(env, seen, s);
  }

  lemma NewestOfEdit(env: Env, r: Record, s: Step)
    requires env.Valid() && s.at > 0 && StepIds(env, s) != []
    ensures NewNote(env, r, s).Some?
    ensures var a := NormalAt(env, Edited(env, r, s), s.at).notes;
            a != [] && NewestHas(env, s, r.refs, a[|a|-1])
  {
    EditedHas(env, r, s);
    NewNoteTwice(env, r, s);
    NewestSeen(env, Edited(env, r, s), r.notes, NewNote(env, r, s).value, s.at);
  }

  lemma NewNoteTwice(env: Env, r: Record, s: Step)
    requires env.Valid() && s.at > 0 && NewNote(env, r, s).Some?
    ensures NewestHas(env, s, r.refs, NormalNote(env, NewNote(env, r, s).value, s.at))
  {
    var kind := if s.AddNote? then s.kind else if s.Checkpoint? then "note" else "decision";
    assert env.kind(env.kind(kind)) == env.kind(kind);
    ListTwice(env, if s.Finish? then r.refs else s.refs);
    assert env.line("") == "";
    assert env.line(env.noteIdAt(s.at)) == env.noteIdAt(s.at) && env.noteIdAt(s.at) != "";
  }

  lemma NewestSeen(env: Env, e: Record, before: seq<Note>, note: Note, now: Time)
    requires env.text(note.text) != "" && e.notes == before + [note] && e.updatedAt == now && now > 0
    ensures var a := NormalAt(env, e, now).notes; a != [] && a[|a|-1] == NormalNote(env, note, now)
  {
    assert (before + [note])[..|before|] == before;
    var all := NormalNotes(env, e.notes, now);
    assert all[|all|-1] == NormalNote(env, note, now);
  }

  /**
  Bounded notes, monotone references. After any steps from a settled record, the notes left are the last fifty of
  all that were ever there and not blank, in order; and the references are those there were and all that any step
  contributed, in order, including those of notes that have been trimmed away since.
  */
  lemma {:induction false} StepsLaw(env: Env, r: Record, steps: seq<Step>)
    requires env.Valid() && Settled(env, r)
    ensures var a := Run(env, r, steps);
            && Settled(env, a)
            && NoteIds(a.notes) == LastOf(NoteIds(r.notes) + AllIds(env, steps), NOTE_LIMIT)
            && a.refs == env.list(r.refs + AllRefs(steps))
  {
    if steps == [] {
      assert r.refs + [] == r.refs && NoteIds(r.notes) + [] == NoteIds(r.notes);
    } else {
      var (front, last) := (steps[..|steps|-1], steps[|steps|-1]);
      StepsLaw(env, r, front);
      StepLaw(env, Run(env, r, front), last);
      LastOfMore(NoteIds(r.notes), AllIds(env, front), StepIds(env, last), NOTE_LIMIT);
      ListOfMore(env, r.refs, AllRefs(front), StepRefs(last));
    }
  }

  lemma StepInList(list: seq<string> -> seq<string>, refs: seq<string>, before: seq<string>, own: seq<string>, after: seq<string>)
    requires ListLaws(list)
    ensures Within(list(own), list(refs + (before + own + after)))
  {
    assert Grows(list, refs + before, own);
    assert Grows(list, refs + before + own, after);
    assert refs + before + own + after == refs + (before + own + after);
  }

  lemma {:induction false} AllRefsAt(steps: seq<Step>, i: nat) returns (before: seq<string>, after: seq<string>)
    requires i < |steps|
    ensures AllRefs(steps) == before + StepRefs(steps[i]) + after
  {
    var front := steps[..|steps|-1];
    if i == |front| {
      before, after := AllRefs(front), [];
    } else {
      before, after := AllRefsAt(front, i);
      after := after + StepRefs(steps[|front|]);
    }
  }

  /** No reference is ever lost: neither the record's own nor those of any step, however many notes are dropped. */
  lemma RefsNeverLost(env: Env, r: Record, steps: seq<Step>, i: nat)
    requires env.Valid() && Settled(env, r) && i < |steps|
    ensures Within(r.refs, Run(env, r, steps).refs)
    ensures Within(env.list(StepRefs(steps[i])), Run(env, r, steps).refs)
  {
    StepsLaw(env, r, steps);
    ListKeeps(env, r.refs, AllRefs(steps));
    var before, after := AllRefsAt(steps, i);
    StepInList(env.list, r.refs, before, StepRefs(steps[i]), after);
  }

  lemma LastOfMore<T>(a: seq<T>, b: seq<T>, c: seq<T>, n: nat)
    ensures LastOf(LastOf(a + b, n) + c, n) == LastOf(a + (b + c), n)
  {
    LastOfAppend(a + b, c, n);
    assert a + b + c == a + (b + c);
  }

  lemma LastOfAppend<T>(s: seq<T>, c: seq<T>, n: nat)
    ensures LastOf(LastOf(s, n) + c, n) == LastOf(s + c, n)
  {
  }

  lemma ListOfMore(env: Env, a: seq<string>, b: seq<string>, c: seq<string>)
    requires ListLaws(env.list)
    ensures env.list(env.list(a + b) + c) == env.list(a + (b + c))
  {
    assert a + b + c == a + (b + c);
    assert env.list(env.list(a + b) + c) == env.list(a + b + c);
  }

  /** Every record that has been normalised once is a start for these runs. */
  lemma NormalisedIsSettled(env: Env, r: Record, now: Time)
    requires env.Valid()
    ensures Settled(env, NormalAt(env, r, now))
  {
    var notes := NormalNotes(env, r.notes, Updated(r, now));
    NotesKept(env, r.notes, Updated(r, now));
    LastNotes(notes, NOTE_LIMIT);
    WithNoteRefsIs(env, r.refs, notes);
    ListTwice(env, r.refs + NoteRefs(notes));
    NoteRefsListed(env, r.refs, notes);
  }

  lemma {:induction false} NoteRefsListed(env: Env, refs: seq<string>, notes: seq<Note>)
    requires ListLaws(env.list) && AllKept(env, notes)
    ensures Within(NoteRefs(notes), env.list(refs + NoteRefs(notes)))
  {
    if notes != [] {
      var (front, last) := (notes[..|notes|-1], notes[|notes|-1]);
      NoteRefsListed(env, refs, front);
      assert Kept(env, last);
      var known := refs + NoteRefs(front);
      assert Grows(env.list, known, last.refs);
      assert known + last.refs == refs + NoteRefs(notes);
    }
  }
}
