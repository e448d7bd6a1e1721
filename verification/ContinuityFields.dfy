/** The field normalisers that the program really uses, and proof that they have the laws of ContinuityRecords. */
module ContinuityFields {
  import opened Text
  import opened ContinuityRecords
  import ContinuityLaws

  const TEXT_LIMIT := 500

  /** strings.TrimSpace of strings.ToLower. */
  function Word(casing: Casing, value: string): string { TrimSpace(casing.Lower(value)) }

  /** normalizeContinuitySource and normalizeContinuityNoteKind: a blank word becomes a fixed one. */
  function WordOr(casing: Casing, blank: string, value: string): string {
    if Word(casing, value) == "" then blank else Word(casing, value)
  }

  /** normalizeActor. */
  function NormalActor(casing: Casing, value: string): string {
    var v := Word(casing, value);
    if v == "layer-osctl" || v == "layer-osd" then "" else v
  }

  function ResolveActor(casing: Casing, default: string, value: string): string {
    if NormalActor(casing, value) == "" then default else NormalActor(casing, value)
  }

  function LimitText(text: string, max: nat): string
    requires max > 0
  {
    var t := TrimSpace(text);
    if |t| <= max then t else TrimSpace(t[..max-1]) + ['\U{2026}']
  }

  /** maskConversationText, over an abstract set of masking patterns. */
  function Mask(redact: string -> string, text: string): string {
    if TrimSpace(text) == "" then "" else LimitText(redact(TrimSpace(text)), TEXT_LIMIT)
  }

  function NoteText(redact: string -> string, text: string): string {
    LimitText(TrimSpace(Mask(redact, text)), TEXT_LIMIT)
  }

  function Program(casing: Casing, redact: string -> string, default: string,
                   noteIdAt: Time -> string, recordIdAt: Time -> string): Env {
    Env((s: string) => TrimSpace(s), (items: seq<string>) => Clean(items), (s: string) => NoteText(redact, s),
        (s: string) => WordOr(casing, "terminal", s), (s: string) => ResolveActor(casing, default, s),
        (s: string) => WordOr(casing, "note", s), noteIdAt, recordIdAt)
  }

  /** Masking never blanks a text: every pattern is replaced by a visible marker. */
  ghost predicate Visible(redact: string -> string) {
    forall s {:trigger redact(s)} :: TrimSpace(s) != "" ==> TrimSpace(redact(s)) != ""
  }

  lemma WordTwice(casing: Casing, value: string)
    requires casing.Valid()
    ensures Word(casing, Word(casing, value)) == Word(casing, value)
  {
    casing.TrimCommutes(value);
    casing.TrimCommutes(casing.Lower(value));
    casing.TrimCommutes(TrimSpace(casing.Lower(value)));
    casing.LowerTwice(value);
    TrimIsTrimmed(casing.Lower(value));
  }

  lemma WordOrTwice(casing: Casing, blank: string, value: string)
    requires casing.Valid() && casing.PlainAscii(blank) && Trimmed(blank)
    ensures WordOr(casing, blank, WordOr(casing, blank, value)) == WordOr(casing, blank, value)
  {
    WordTwice(casing, value);
  }

  lemma ResolveActorTwice(casing: Casing, default: string, value: string)
    requires casing.Valid() && NormalActor(casing, default) == default
    ensures ResolveActor(casing, default, ResolveActor(casing, default, value)) == ResolveActor(casing, default, value)
  {
    WordTwice(casing, value);
  }

  /** The runtime's own two programs count as no actor, and no actor as the default one. */
  lemma ActorsSay(casing: Casing, default: string, value: string)
    ensures var word := Word(casing, value);
            if word in {"", "layer-osctl", "layer-osd"} then ResolveActor(casing, default, value) == default
            else ResolveActor(casing, default, value) == word
  {
  }

  lemma LimitTextIs(text: string, max: nat)
    requires max > 0
    ensures |LimitText(text, max)| <= max && TrimSpace(LimitText(text, max)) == LimitText(text, max)
    ensures LimitText(LimitText(text, max), max) == LimitText(text, max)
    ensures TrimSpace(text) != "" <==> LimitText(text, max) != ""
  {
    TrimIsTrimmed(text);
    var t := TrimSpace(text);
    if |t| > max {
      TrimIsTrimmed(t[..max-1]);
      var _, _ := TrimSpaceIs(t[..max-1]);
      TrimOfTrimmed(LimitText(text, max));
    }
  }

  /** A text that fits is only trimmed; of a longer one a beginning stays, with an ellipsis. */
  lemma LimitTextKeeps(text: string, max: nat)
    requires max > 0
    ensures |TrimSpace(text)| <= max ==> LimitText(text, max) == TrimSpace(text)
    ensures |TrimSpace(text)| > max ==>
              var (out, t) := (LimitText(text, max), TrimSpace(text));
              && out != [] && out[|out|-1] == '\U{2026}' && out[..|out|-1] == TrimSpace(t[..max-1])
  {
  }

  lemma NoteTextIs(redact: string -> string, text: string)
    ensures NoteText(redact, text) == Mask(redact, text)
    ensures Visible(redact) ==> (NoteText(redact, text) != "" <==> TrimSpace(text) != "")
  {
    TrimIsTrimmed(text);
    if TrimSpace(text) != "" { LimitTextIs(redact(TrimSpace(text)), TEXT_LIMIT); }
  }

  lemma CleanGrows(a: seq<string>, b: seq<string>)
    ensures Clean(a) <= Clean(a + b) && Within(Clean(b), Clean(a + b))
  {
    CleanAppend(a, b);
    CleanIsTidy(b);
    CleanIsTidy(a + b);
    forall v | v in Clean(b) ensures v in Clean(a + b) {
      var i :| 0 <= i < |b| && TrimSpace(b[i]) == v;
      assert TrimSpace((a + b)[|a| + i]) == v;
    }
  }

  lemma CleanKnows(a: seq<string>, b: seq<string>)
    requires Within(b, a)
    ensures Clean(a + b) == Clean(a)
  {
    CleanIsTidy(a);
    forall i | 0 <= i < |b| ensures TrimSpace(b[i]) == "" || TrimSpace(b[i]) in Clean(a) {
      assert b[i] in a;
      var j :| 0 <= j < |a| && a[j] == b[i];
      assert TrimSpace(a[j]) == TrimSpace(b[i]);
    }
    CleanAbsorbs(a, b);
  }

  lemma CleanHasListLaws()
    ensures ListLaws((items: seq<string>) => Clean(items))
  {
    var list := (items: seq<string>) => Clean(items);
    forall a, b ensures list(list(a) + b) == list(a + b) { CleanAppend(a, b); }
    forall a, b ensures list(a + list(b)) == list(a + b) { CleanTail(a, b); }
    forall a, b ensures Grows(list, a, b) { CleanGrows(a, b); }
    forall a, b ensures Absorbs(list, a, b) { if Within(b, a) { CleanKnows(a, b); } }
  }

  lemma NoteTextStays(redact: string -> string, s: string)
    requires Visible(redact)
    ensures NoteText(redact, s) != "" ==> NoteText(redact, NoteText(redact, s)) != ""
  {
    NoteTextIs(redact, s);
    NoteTextIs(redact, NoteText(redact, s));
    if TrimSpace(s) != "" { LimitTextIs(redact(TrimSpace(s)), TEXT_LIMIT); }
  }

  lemma WordsTwice(casing: Casing, default: string)
    requires casing.Valid() && NormalActor(casing, default) == default
    ensures forall s :: WordOr(casing, "terminal", WordOr(casing, "terminal", s)) == WordOr(casing, "terminal", s)
    ensures forall s :: WordOr(casing, "note", WordOr(casing, "note", s)) == WordOr(casing, "note", s)
    ensures forall s :: ResolveActor(casing, default, ResolveActor(casing, default, s)) == ResolveActor(casing, default, s)
  {
    forall s ensures WordOr(casing, "terminal", WordOr(casing, "terminal", s)) == WordOr(casing, "terminal", s) {
      WordOrTwice(casing, "terminal", s);
    }
    forall s ensures WordOr(casing, "note", WordOr(casing, "note", s)) == WordOr(casing, "note", s) {
      WordOrTwice(casing, "note", s);
    }
    forall s ensures ResolveActor(casing, default, ResolveActor(casing, default, s)) == ResolveActor(casing, default, s) {
      ResolveActorTwice(casing, default, s);
    }
  }

  /** The program's normalisers satisfy every law that the record and list results assume. */
  lemma ProgramIsValid(casing: Casing, redact: string -> string, default: string,
                       noteIdAt: Time -> string, recordIdAt: Time -> string)
    requires casing.Valid() && Visible(redact) && NormalActor(casing, default) == default
    requires forall t {:trigger noteIdAt(t)} :: noteIdAt(t) != "" && Trimmed(noteIdAt(t))
    requires forall t {:trigger recordIdAt(t)} :: recordIdAt(t) != "" && Trimmed(recordIdAt(t))
    ensures Program(casing, redact, default, noteIdAt, recordIdAt).Valid()
  {
    var env := Program(casing, redact, default, noteIdAt, recordIdAt);
    CleanHasListLaws();
    forall s ensures env.line(env.line(s)) == env.line(s) { TrimIsTrimmed(s); }
    WordsTwice(casing, default);
    forall s ensures env.text(s) != "" ==> env.text(env.text(s)) != "" { NoteTextStays(redact, s); }
    forall t: Time ensures env.line(noteIdAt(t)) == noteIdAt(t) { TrimOfTrimmed(noteIdAt(t)); }
    forall t: Time ensures env.line(recordIdAt(t)) == recordIdAt(t) { TrimOfTrimmed(recordIdAt(t)); }
  }

  /** The condition of the record results, said of the masking itself: it leaves the note texts unchanged. */
  lemma UnchangedByMasking(casing: Casing, redact: string -> string, default: string,
                           noteIdAt: Time -> string, recordIdAt: Time -> string, r: Record)
    ensures ContinuityLaws.Masked(Program(casing, redact, default, noteIdAt, recordIdAt), r) <==>
              && TrimSpace(r.recordId) != "" && r.createdAt != 0
              && forall i :: 0 <= i < |r.notes| ==> Mask(redact, r.notes[i].text) == r.notes[i].text
  {
    forall i | 0 <= i < |r.notes| ensures NoteText(redact, r.notes[i].text) == Mask(redact, r.notes[i].text) {
      NoteTextIs(redact, r.notes[i].text);
    }
  }
}
