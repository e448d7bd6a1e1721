/** Runs of notes: one proposal and one planner job for each dedupe key, and what rollback leaves. */
module ConversationLaws {
  import opened Text
  import opened Conversation
  import EventLog

  /** A failed note leaves all five stores as they were; the event store's limit must have been read before. */
  lemma RollBackIsExactIff(s: State, envLimit: int)
    ensures RolledBack(s, envLimit) == s <==> s.events.limit > 0 || s.events.limit == envLimit
  {
    assert s.(events := s.events) == s;
    assert RolledBack(s, envLimit).events.limit == if s.events.limit <= 0 then envLimit else s.events.limit;
  }

  // ----- dedupe notes tell the key --------------------------------------------------------------

  /** Keys as conversationDedupeKey prints them. */
  ghost predicate IsKey(key: string) { "conv_" <= key && Trimmed(key) }

  lemma TrimKeepsFirst(s: string)
    requires s != [] && !IsSpace(s[0])
    ensures TrimSpace(s) != [] && TrimSpace(s)[0] == s[0]
  {
    assert s[0] in s;
    TrimOfSpaces(s);
    var pad := TrimRightIs(s);
  }

  lemma MarkIsTrimmed(key: string)
    requires IsKey(key)
    ensures Trimmed(PREFIX + key) && TrimSpace(PREFIX + key) == PREFIX + key && PREFIX[0] == 'c'
  {
    assert (PREFIX + key)[|PREFIX + key| - 1] == key[|key|-1];
    TrimOfTrimmed(PREFIX + key);
  }

  /** Cleaned notes carry a key's mark exactly when some note trims to it. */
  lemma CleanedHas(notes: seq<string>, key: string)
    requires IsKey(key)
    ensures HasDedupe(Clean(notes), key) <==> HasDedupe(notes, key)
  {
    CleanIsTidy(notes);
    MarkIsTrimmed(key);
    if HasDedupe(notes, key) {
      assert PREFIX + key in Clean(notes);
      var i :| 0 <= i < |Clean(notes)| && Clean(notes)[i] == PREFIX + key;
      assert TrimSpace(Clean(notes)[i]) == PREFIX + key;
    }
    if i :| 0 <= i < |Clean(notes)| && TrimSpace(Clean(notes)[i]) == PREFIX + key {
      assert Clean(notes)[i] in Clean(notes);
    }
  }

  lemma OtherNote(s: string, key: string)
    requires IsKey(key) && s != [] && !IsSpace(s[0]) && s[0] != 'c'
    ensures TrimSpace(s) != PREFIX + key
  {
    TrimKeepsFirst(s);
    MarkIsTrimmed(key);
  }

  /** The notes of a generated proposal or job carry the mark of its own key and of no other. */
  lemma NotesTellKey(note: Note, key: string)
    requires IsKey(key) && IsKey(note.key)
    ensures HasDedupe(JobNotes(note), key) <==> key == note.key
    ensures HasDedupe(ProposalNotes(note), key) <==> key == note.key
  {
    var (auto, event, channel) := ("auto_generated:true", "source_event:" + note.event.eventId, "source_channel:" + note.channel);
    var four := [auto, PREFIX + note.key, event, channel];
    var all := four + RefNotes(note.refs);
    OtherNote(auto, key);
    OtherNote(event, key);
    OtherNote(channel, key);
    forall i | 4 <= i < |all| ensures TrimSpace(all[i]) != PREFIX + key {
      assert all[i] == "ref:" + note.refs[i - 4] && all[i][0] == 'r';
      OtherNote(all[i], key);
    }
    MarkIsTrimmed(note.key);
    SameMark(note.key, key);
    CleanedHas(four, key);
    CleanedHas(all, key);
    OneMark(four, [], note.key, key);
    OneMark(all, RefNotes(note.refs), note.key, key);
  }

  lemma SameMark(a: string, b: string)
    ensures PREFIX + a == PREFIX + b <==> a == b
  {
    assert (PREFIX + a)[|PREFIX|..] == a && (PREFIX + b)[|PREFIX|..] == b;
  }

  lemma OneMark(notes: seq<string>, rest: seq<string>, own: string, key: string)
    requires |notes| >= 4 && TrimSpace(notes[1]) == PREFIX + own
    requires forall i :: 0 <= i < |notes| && i != 1 ==> TrimSpace(notes[i]) != PREFIX + key
    ensures HasDedupe(notes, key) <==> key == own
  {
    SameMark(own, key);
    if key == own { assert TrimSpace(notes[1]) == PREFIX + key; }
  }

  lemma JobIdsTellKey(a: string, b: string)
    requires IsKey(a) && IsKey(b)
    ensures JobIdOf(a) == JobIdOf(b) <==> a == b
  {
    assert JobIdOf(a)[4..] == a[5..] && JobIdOf(b)[4..] == b[5..];
    assert a == a[..5] + a[5..] && b == b[..5] + b[5..];
  }

  // ----- runs -------------------------------------------------------------------------------------

  /** Notes, and what else changes proposals and jobs between them. */
  datatype Op =
    | Take(note: Note, saving: Saving, envLimit: int)
    | Promote(index: nat)
    | UpdateJob(jobId: string, status: string, notes: seq<string>)
    | AddProposal(proposal: Proposal)
    | AddJob(job: Job)

  function Promoted(proposals: seq<Proposal>, i: nat): seq<Proposal> {
    if i < |proposals| then proposals[i := proposals[i].(status := "promoted")] else proposals
  }

  /** agentJobStore.update replaces status and notes of the first job with the id. */
  function UpdatedJobs(jobs: seq<Job>, jobId: string, status: string, notes: seq<string>): seq<Job> {
    if jobs == [] then []
    else if jobs[0].jobId == jobId then [jobs[0].(status := status, notes := notes)] + jobs[1..]
    else [jobs[0]] + UpdatedJobs(jobs[1..], jobId, status, notes)
  }

  function After(s: State, op: Op): State {
    match op
    case Take(note, saving, envLimit) => AfterNote(s, note, saving, envLimit)
    case Promote(i) => s.(proposals := Promoted(s.proposals, i))
    case UpdateJob(id, status, notes) => s.(jobs := UpdatedJobs(s.jobs, id, status, notes))
    case AddProposal(p) => s.(proposals := s.proposals + [p])
    case AddJob(j) => if IdTaken(s.jobs, j.jobId) then s else s.(jobs := s.jobs + [j])
  }

  function Run(s: State, ops: seq<Op>): State {
    if ops == [] then s else After(Run(s, ops[..|ops|-1]), ops[|ops|-1])
  }

  /** Notes bear keys, and a proposal from elsewhere does not pose as one made from a note. */
  ghost predicate Honest(op: Op) {
    && (op.Take? ==> IsKey(op.note.key))
    && (op.AddProposal? ==> forall key :: IsKey(key) ==> !HasDedupe(op.proposal.notes, key))
  }

  ghost predicate OneProposal(proposals: seq<Proposal>, key: string) {
    forall i, j :: 0 <= i < j < |proposals| ==> !(HasDedupe(proposals[i].notes, key) && HasDedupe(proposals[j].notes, key))
  }

  ghost predicate DistinctJobs(jobs: seq<Job>) { forall i, j :: 0 <= i < j < |jobs| ==> jobs[i].jobId != jobs[j].jobId }

  ghost predicate Single(s: State) { DistinctJobs(s.jobs) && forall key :: IsKey(key) ==> OneProposal(s.proposals, key) }

  lemma ReviewKeeps(s: State, note: Note)
    requires Reviewed(s, note).Some?
    ensures Reviewed(s, note).value.proposals == s.proposals && Reviewed(s, note).value.jobs == s.jobs
  {
  }

  /** What a note does to proposals and jobs, if it goes through. */
  ghost predicate Changes(s: State, note: Note, t: State) {
    && t.proposals == (if note.plan.Some? && !ProposalKnown(s.proposals, note.key)
                       then s.proposals + [ProposalFor(note, note.plan.value)] else s.proposals)
    && t.jobs == (if note.plan.Some? && !JobKnown(s.jobs, note.key)
                  then s.jobs + [JobFor(note, note.plan.value, ChosenProposal(s, note, note.plan.value))] else s.jobs)
    && (note.plan.Some? && !JobKnown(s.jobs, note.key) ==> !IdTaken(s.jobs, JobIdOf(note.key)))
  }

  lemma NotedChanges(s: State, note: Note)
    requires Noted(s, note).Some?
    ensures Changes(s, note, Noted(s, note).value)
  {
    var started := WithEvent(s, note.event).(observations := s.observations + [note.observation]);
    assert started.proposals == s.proposals && started.jobs == s.jobs;
    ReviewKeeps(started, note);
    var reviewed := Reviewed(started, note).value;
    if note.plan.Some? {
      assert ChosenProposal(reviewed, note, note.plan.value) == ChosenProposal(s, note, note.plan.value);
    }
  }

  lemma OneMore(proposals: seq<Proposal>, note: Note, plan: Plan, key: string)
    requires IsKey(key) && IsKey(note.key) && OneProposal(proposals, key) && !ProposalKnown(proposals, note.key)
    ensures OneProposal(proposals + [ProposalFor(note, plan)], key)
  {
    NotesTellKey(note, key);
  }

  lemma NoteKeepsSingle(s: State, note: Note)
    requires Single(s) && IsKey(note.key) && Noted(s, note).Some?
    ensures Single(Noted(s, note).value)
  {
    NotedChanges(s, note);
    ChangesKeepSingle(s, note, Noted(s, note).value);
  }

  lemma ChangesKeepSingle(s: State, note: Note, t: State)
    requires Single(s) && IsKey(note.key) && Changes(s, note, t)
    ensures Single(t)
  {
    if note.plan.Some? && !ProposalKnown(s.proposals, note.key) {
      forall key | IsKey(key) ensures OneProposal(t.proposals, key) {
        assert OneProposal(s.proposals, key);
        OneMore(s.proposals, note, note.plan.value, key);
      }
    }
  }

  lemma {:induction false} UpdateKeepsIds(jobs: seq<Job>, jobId: string, status: string, notes: seq<string>)
    ensures var t := UpdatedJobs(jobs, jobId, status, notes);
            |t| == |jobs| && forall i :: 0 <= i < |jobs| ==> t[i].jobId == jobs[i].jobId
  {
    if jobs != [] && jobs[0].jobId != jobId { UpdateKeepsIds(jobs[1..], jobId, status, notes); }
  }

  lemma StepKeepsSingle(s: State, op: Op)
    requires Single(s) && Honest(op)
    ensures Single(After(s, op))
  {
    match op
    case Take(note, saving, _) =>
      if Noted(s, note).Some? && saving.Saved? { NoteKeepsSingle(s, note); }
    case Promote(i) =>
      forall key | IsKey(key) ensures OneProposal(Promoted(s.proposals, i), key) { assert OneProposal(s.proposals, key); }
    case UpdateJob(id, status, notes) =>
      UpdateKeepsIds(s.jobs, id, status, notes);
    case AddProposal(p) =>
      forall key | IsKey(key) ensures OneProposal(s.proposals + [p], key) { assert OneProposal(s.proposals, key); }
    case AddJob(j) =>
  }

  /** Over every run there is at most one proposal marked with a key, and at most one job with a key's id. */
  lemma {:induction false} RunKeepsSingle(s: State, ops: seq<Op>)
    requires Single(s) && forall i :: 0 <= i < |ops| ==> Honest(ops[i])
    ensures Single(Run(s, ops))
  {
    if ops != [] {
      RunKeepsSingle(s, ops[..|ops|-1]);
      StepKeepsSingle(Run(s, ops[..|ops|-1]), ops[|ops|-1]);
    }
  }

  // ----- what a note leaves -----------------------------------------------------------------------

  /** The log of the second store is that of the first and these events. */
  ghost predicate Grown(a: EventLog.Store, b: EventLog.Store, es: seq<EventLog.Event>) {
    b.pending + b.items == a.pending + a.items + es && b.archived == a.archived && b.limit == a.limit
  }

  lemma GrownTwice(a: EventLog.Store, b: EventLog.Store, c: EventLog.Store, x: seq<EventLog.Event>, y: seq<EventLog.Event>)
    requires Grown(a, b, x) && Grown(b, c, y)
    ensures Grown(a, c, x + y)
  {
    assert a.pending + a.items + x + y == a.pending + a.items + (x + y);
  }

  lemma GrownByOne(s: EventLog.Store, e: EventLog.Event)
    ensures EventLog.Validates(e) ==> Grown(s, EventLog.Appended(s, e), [e])
    ensures !EventLog.Validates(e) ==> Grown(s, EventLog.Appended(s, e), [])
  {
    EventLog.AppendedIs(s, e);
    assert s.pending + (s.items + [e]) == s.pending + s.items + [e];
    assert s.pending + s.items + [] == s.pending + s.items;
  }

  /** The room's answer to the note, if the note asks. */
  function Answer(s: State, note: Note): Review { if note.risk.None? then Present else note.risk.value(s.room) }

  function RoomAfter(s: State, note: Note): Room {
    match Answer(s, note)
    case Opened(room, _) => room
    case Updated(room, _) => room
    case _ => s.room
  }

  /** An event of an update that the store refuses is dropped, and the update stands. */
  function ReviewEvents(s: State, note: Note): seq<EventLog.Event> {
    match Answer(s, note)
    case Opened(_, e) => [e]
    case Updated(_, e) => if EventLog.Validates(e) then [e] else []
    case _ => []
  }

  function ProposalEvents(s: State, note: Note): seq<EventLog.Event> {
    if note.plan.Some? && !ProposalKnown(s.proposals, note.key) then [note.plan.value.proposalEvent] else []
  }

  function JobEvents(s: State, note: Note): seq<EventLog.Event> {
    if note.plan.Some? && !JobKnown(s.jobs, note.key) then [note.plan.value.jobEvent] else []
  }

  lemma ReviewLeaves(s: State, note: Note)
    requires Reviewed(s, note).Some?
    ensures var t := Reviewed(s, note).value;
            && t.observations == s.observations && t.room == RoomAfter(s, note) && Grown(s.events, t.events, ReviewEvents(s, note))
            && t.proposals == s.proposals && t.jobs == s.jobs
  {
    match Answer(s, note)
    case Opened(_, e) => GrownByOne(s.events, e);
    case Updated(_, e) => GrownByOne(s.events, e);
    case Present =>
    case Refused =>
  }

  lemma PlanLeaves(s: State, note: Note)
    requires note.plan.Some? && Planned(s, note, note.plan.value).Some?
    ensures var t := Planned(s, note, note.plan.value).value;
            && t.observations == s.observations && t.room == s.room
            && Grown(s.events, t.events, ProposalEvents(s, note) + JobEvents(s, note))
  {
    var plan := note.plan.value;
    var proposed := Proposed(s, note, plan).value;
    var done := Planned(s, note, plan).value;
    GrownByOne(s.events, plan.proposalEvent);
    GrownByOne(proposed.events, plan.jobEvent);
    assert Grown(s.events, proposed.events, ProposalEvents(s, note));
    assert Grown(proposed.events, done.events, JobEvents(s, note));
    GrownTwice(s.events, proposed.events, done.events, ProposalEvents(s, note), JobEvents(s, note));
  }

  function NoteEvents(s: State, note: Note): seq<EventLog.Event> {
    [note.event] + ReviewEvents(s, note) + (ProposalEvents(s, note) + JobEvents(s, note))
  }

  /** A note that goes through leaves its observation, the room's answer, and its events in order. */
  lemma NoteLeaves(s: State, note: Note)
    requires Noted(s, note).Some?
    ensures var t := Noted(s, note).value;
            && t.observations == s.observations + [note.observation]
            && t.room == RoomAfter(s, note)
            && Grown(s.events, t.events, NoteEvents(s, note))
  {
    var noted := WithEvent(s, note.event);
    var started := noted.(observations := s.observations + [note.observation]);
    GrownByOne(s.events, note.event);
    ReviewLeaves(started, note);
    var reviewed := Reviewed(started, note).value;
    GrownTwice(s.events, started.events, reviewed.events, [note.event], ReviewEvents(s, note));
    if note.plan.Some? {
      PlanLeaves(reviewed, note);
      var done := Planned(reviewed, note, note.plan.value).value;
      GrownTwice(s.events, reviewed.events, done.events, [note.event] + ReviewEvents(s, note), ProposalEvents(s, note) + JobEvents(s, note));
    } else {
      assert NoteEvents(s, note) == [note.event] + ReviewEvents(s, note);
    }
  }

  /** After its save nothing waits, and what the tail no longer holds is counted as archived. */
  lemma SavedNoteLeaves(s: State, note: Note, room: Room, envLimit: int)
    requires Noted(s, note).Some?
    ensures var u := AfterNote(s, note, Saved(room), envLimit);
            var all := s.events.pending + s.events.items + NoteEvents(s, note);
            && u.observations == s.observations + [note.observation] && u.room == room
            && u.events.pending == [] && |u.events.items| <= |all| && u.events.items == all[|all| - |u.events.items|..]
            && u.events.archived + |u.events.items| == s.events.archived + |all|
  {
    NoteLeaves(s, note);
    var t := Noted(s, note).value;
    assert (t.events.pending + t.events.items)[|t.events.pending|..] == t.events.items;
  }

  ghost predicate ReviewAccepts(s: State, note: Note) {
    match Answer(s, note)
    case Opened(_, e) => EventLog.Validates(e)
    case Updated(_, _) => true
    case Present => true
    case Refused => false
  }

  /** The note goes through exactly when every step of it can. */
  lemma GoesThroughIff(s: State, note: Note)
    ensures Noted(s, note).Some? <==>
              && note.valid && EventLog.Validates(note.event) && note.observation.sound && ReviewAccepts(s, note)
              && (note.plan.Some? ==>
                    var plan := note.plan.value;
                    && (ProposalKnown(s.proposals, note.key) || (plan.proposalSound && EventLog.Validates(plan.proposalEvent)))
                    && (JobKnown(s.jobs, note.key)
                        || (plan.jobSound && !IdTaken(s.jobs, JobIdOf(note.key)) && EventLog.Validates(plan.jobEvent))))
  {
    var started := WithEvent(s, note.event).(observations := s.observations + [note.observation]);
    if Reviewed(started, note).Some? {
      ReviewKeeps(started, note);
      if note.plan.Some? { PlannedIff(Reviewed(started, note).value, note, note.plan.value); }
    }
  }

  lemma PlannedIff(s: State, note: Note, plan: Plan)
    ensures Planned(s, note, plan).Some? <==>
              && (ProposalKnown(s.proposals, note.key) || (plan.proposalSound && EventLog.Validates(plan.proposalEvent)))
              && (JobKnown(s.jobs, note.key)
                  || (plan.jobSound && !IdTaken(s.jobs, JobIdOf(note.key)) && EventLog.Validates(plan.jobEvent)))
  {
  }

  /** What is made from a note: open, named by its key, and the job bound to the proposal. */
  lemma MadeFromNote(note: Note, plan: Plan, proposal: Proposal)
    requires IsKey(note.key)
    ensures var p := ProposalFor(note, plan);
            p.status == "proposed" && p.proposalId == "proposal_" + note.key && p.sound == plan.proposalSound && p.notes == ProposalNotes(note)
    ensures var j := JobFor(note, plan, proposal);
            && j.status == "queued" && "conv_" + j.jobId[4..] == note.key && j.jobId[..4] == "job_" && j.ref == proposal.proposalId
            && j.sound == plan.jobSound && j.notes == JobNotes(note)
  {
    TrimOfTrimmed(note.key);
    assert note.key == note.key[..5] + note.key[5..];
    assert note.key[0] == 'c';
  }

  /** The notes of a job name its origin; those of a proposal also the references. */
  lemma NotesName(note: Note, v: string)
    ensures v in JobNotes(note) <==> v != "" && NamesOrigin(note, v)
    ensures v in ProposalNotes(note) <==> v != "" && (NamesOrigin(note, v) || exists i :: 0 <= i < |note.refs| && v == TrimSpace("ref:" + note.refs[i]))
  {
    var four := ["auto_generated:true", PREFIX + note.key, "source_event:" + note.event.eventId, "source_channel:" + note.channel];
    var all := four + RefNotes(note.refs);
    CleanIsTidy(four);
    CleanIsTidy(all);
    assert forall i :: 0 <= i < 4 ==> all[i] == four[i];
    assert forall i :: 0 <= i < |note.refs| ==> all[i + 4] == "ref:" + note.refs[i];
    TrimOfTrimmed("auto_generated:true");
    NamesOriginIff(note, four, v);
    if i :| 0 <= i < |all| && TrimSpace(all[i]) == v && i >= 4 { assert v == TrimSpace("ref:" + note.refs[i - 4]); }
  }

  predicate NamesOrigin(note: Note, v: string) {
    || v == "auto_generated:true" || v == TrimSpace("conversation_dedupe:" + note.key)
    || v == TrimSpace("source_event:" + note.event.eventId) || v == TrimSpace("source_channel:" + note.channel)
  }

  lemma NamesOriginIff(note: Note, four: seq<string>, v: string)
    requires four == ["auto_generated:true", PREFIX + note.key, "source_event:" + note.event.eventId, "source_channel:" + note.channel]
    ensures NamesOrigin(note, v) <==> exists i :: 0 <= i < |four| && TrimSpace(four[i]) == v
  {
    TrimOfTrimmed("auto_generated:true");
    if NamesOrigin(note, v) {
      assert TrimSpace(four[0]) == v || TrimSpace(four[1]) == v || TrimSpace(four[2]) == v || TrimSpace(four[3]) == v;
    }
  }

  // ----- one job for a mark -----------------------------------------------------------------------

  ghost predicate OneJob(jobs: seq<Job>, key: string) {
    forall i, j :: 0 <= i < j < |jobs| ==> !(HasDedupe(jobs[i].notes, key) && HasDedupe(jobs[j].notes, key))
  }

  /** A job with the mark of a key has the id of the key. */
  ghost predicate OwnMarks(jobs: seq<Job>) {
    forall i, key :: 0 <= i < |jobs| && IsKey(key) && HasDedupe(jobs[i].notes, key) ==> jobs[i].jobId == JobIdOf(key)
  }

  /** Job updates and jobs from elsewhere bring the mark of no key but the job's own. */
  ghost predicate BringsOwnMark(op: Op) {
    && (op.UpdateJob? ==> forall key :: IsKey(key) && HasDedupe(op.notes, key) ==> op.jobId == JobIdOf(key))
    && (op.AddJob? ==> forall key :: IsKey(key) && HasDedupe(op.job.notes, key) ==> op.job.jobId == JobIdOf(key))
  }

  lemma {:induction false} UpdateKeepsOwn(jobs: seq<Job>, jobId: string, status: string, notes: seq<string>)
    requires OwnMarks(jobs) && forall key :: IsKey(key) && HasDedupe(notes, key) ==> jobId == JobIdOf(key)
    ensures OwnMarks(UpdatedJobs(jobs, jobId, status, notes))
  {
    if jobs != [] && jobs[0].jobId != jobId {
      forall i, key | 0 <= i < |jobs[1..]| && IsKey(key) && HasDedupe(jobs[1..][i].notes, key)
        ensures jobs[1..][i].jobId == JobIdOf(key)
      {
        assert jobs[1..][i] == jobs[i + 1];
      }
      UpdateKeepsOwn(jobs[1..], jobId, status, notes);
    }
  }

  lemma StepKeepsOwn(s: State, op: Op)
    requires OwnMarks(s.jobs) && Honest(op) && BringsOwnMark(op)
    ensures OwnMarks(After(s, op).jobs)
  {
    match op
    case Take(note, saving, _) =>
      if Noted(s, note).Some? && saving.Saved? {
        NotedChanges(s, note);
        forall key | IsKey(key) && HasDedupe(JobNotes(note), key) ensures JobIdOf(note.key) == JobIdOf(key) { NotesTellKey(note, key); }
      }
    case Promote(i) =>
    case UpdateJob(id, status, notes) => UpdateKeepsOwn(s.jobs, id, status, notes);
    case AddProposal(p) =>
    case AddJob(j) =>
  }

  lemma {:induction false} RunKeepsOwn(s: State, ops: seq<Op>)
    requires OwnMarks(s.jobs) && forall i :: 0 <= i < |ops| ==> Honest(ops[i]) && BringsOwnMark(ops[i])
    ensures OwnMarks(Run(s, ops).jobs)
  {
    if ops != [] {
      RunKeepsOwn(s, ops[..|ops|-1]);
      StepKeepsOwn(Run(s, ops[..|ops|-1]), ops[|ops|-1]);
    }
  }

  /** Over every run in which nobody else writes a key's mark, at most one job bears it: the search finds the only one. */
  lemma RunKeepsOneJob(s: State, ops: seq<Op>, key: string)
    requires Single(s) && OwnMarks(s.jobs) && IsKey(key)
    requires forall i :: 0 <= i < |ops| ==> Honest(ops[i]) && BringsOwnMark(ops[i])
    ensures OneJob(Run(s, ops).jobs, key)
  {
    RunKeepsSingle(s, ops);
    RunKeepsOwn(s, ops);
  }

  /** A job from elsewhere makes a second one exactly when it brings the mark of a key that has its job. */
  lemma SecondMarkIff(s: State, job: Job, key: string)
    requires IsKey(key) && OneJob(s.jobs, key) && JobKnown(s.jobs, key) && !IdTaken(s.jobs, job.jobId)
    ensures OneJob(After(s, AddJob(job)).jobs, key) <==> !HasDedupe(job.notes, key)
  {
    var i :| 0 <= i < |s.jobs| && HasDedupe(s.jobs[i].notes, key);
    var more := s.jobs + [job];
    assert more[i] == s.jobs[i] && more[|s.jobs|] == job;
  }

  // ----- repeated notes -------------------------------------------------------------------------

  /** Nothing but the stores decides whether the note goes through. */
  ghost predicate Sound(s: State, note: Note) {
    && note.valid && EventLog.Validates(note.event) && note.observation.sound
    && note.plan.Some? && note.plan.value.proposalSound && note.plan.value.jobSound
    && EventLog.Validates(note.plan.value.proposalEvent) && EventLog.Validates(note.plan.value.jobEvent)
    && Reviewed(WithEvent(s, note.event).(observations := s.observations + [note.observation]), note).Some?
  }

  /** A sound planning note is refused exactly when the job of its key is there but has lost its mark. */
  lemma RefusedIff(s: State, note: Note)
    requires Sound(s, note)
    ensures Noted(s, note).None? <==> IdTaken(s.jobs, JobIdOf(note.key)) && !JobKnown(s.jobs, note.key)
  {
    var started := WithEvent(s, note.event).(observations := s.observations + [note.observation]);
    ReviewKeeps(started, note);
  }

  /** A note given again finds the proposal and job of the first one. */
  lemma RepeatAddsNone(s: State, first: Note, again: Note)
    requires Noted(s, first).Some? && first.plan.Some? && IsKey(first.key) && again.key == first.key
    requires Sound(Noted(s, first).value, again)
    ensures var t := Noted(s, first).value;
            Noted(t, again).Some? && Noted(t, again).value.proposals == t.proposals && Noted(t, again).value.jobs == t.jobs
  {
    var t := Noted(s, first).value;
    NotedChanges(s, first);
    NotesTellKey(first, first.key);
    KnownAfter(s.proposals, t.proposals, s.jobs, t.jobs, first.key);
    RefusedIff(t, again);
    NotedChanges(t, again);
  }

  lemma KnownAfter(ps: seq<Proposal>, ps': seq<Proposal>, js: seq<Job>, js': seq<Job>, key: string)
    requires (ps' == ps && ProposalKnown(ps, key)) || (|ps'| > 0 && HasDedupe(ps'[|ps'|-1].notes, key))
    requires (js' == js && JobKnown(js, key)) || (|js'| > 0 && HasDedupe(js'[|js'|-1].notes, key))
    ensures ProposalKnown(ps', key) && JobKnown(js', key)
  {
  }

  /** Every job with the id of a key bears the key's mark. */
  ghost predicate Marked(jobs: seq<Job>) {
    forall i, key :: 0 <= i < |jobs| && IsKey(key) && jobs[i].jobId == JobIdOf(key) ==> HasDedupe(jobs[i].notes, key)
  }

  /** Updates as the dispatcher makes them: the job's notes stay, and more are added. */
  ghost predicate Gentle(s: State, op: Op) {
    && (op.UpdateJob? ==> forall i :: 0 <= i < |s.jobs| && s.jobs[i].jobId == op.jobId ==> s.jobs[i].notes <= op.notes)
    && (op.AddJob? ==> forall key :: IsKey(key) ==> op.job.jobId != JobIdOf(key))
  }

  lemma {:induction false} UpdateKeepsMarks(jobs: seq<Job>, jobId: string, status: string, notes: seq<string>)
    requires Marked(jobs) && forall i :: 0 <= i < |jobs| && jobs[i].jobId == jobId ==> jobs[i].notes <= notes
    ensures Marked(UpdatedJobs(jobs, jobId, status, notes))
  {
    if jobs != [] {
      if jobs[0].jobId == jobId {
        assert forall key :: IsKey(key) && jobId == JobIdOf(key) ==> HasDedupe(jobs[0].notes, key);
      } else {
        forall i, key | 0 <= i < |jobs[1..]| && IsKey(key) && jobs[1..][i].jobId == JobIdOf(key)
          ensures HasDedupe(jobs[1..][i].notes, key)
        {
          assert jobs[1..][i] == jobs[i + 1];
        }
        UpdateKeepsMarks(jobs[1..], jobId, status, notes);
      }
    }
  }

  lemma StepKeepsMarks(s: State, op: Op)
    requires Marked(s.jobs) && Honest(op) && Gentle(s, op)
    ensures Marked(After(s, op).jobs)
  {
    match op
    case Take(note, saving, _) =>
      if Noted(s, note).Some? && saving.Saved? {
        NotedChanges(s, note);
        forall key | IsKey(key) && JobIdOf(note.key) == JobIdOf(key) ensures HasDedupe(JobNotes(note), key) {
          JobIdsTellKey(note.key, key);
          NotesTellKey(note, key);
        }
      }
    case Promote(i) =>
    case UpdateJob(id, status, notes) => UpdateKeepsMarks(s.jobs, id, status, notes);
    case AddProposal(p) =>
    case AddJob(j) =>
  }

  ghost predicate GentleRun(s: State, ops: seq<Op>) {
    forall i :: 0 <= i < |ops| ==> Honest(ops[i]) && Gentle(Run(s, ops[..i]), ops[i])
  }

  lemma {:induction false} RunKeepsMarks(s: State, ops: seq<Op>)
    requires Marked(s.jobs) && GentleRun(s, ops)
    ensures Marked(Run(s, ops).jobs)
  {
    if ops != [] {
      var front := ops[..|ops|-1];
      forall i | 0 <= i < |front| ensures Honest(front[i]) && Gentle(Run(s, front[..i]), front[i]) {
        assert front[..i] == ops[..i] && front[i] == ops[i];
      }
      RunKeepsMarks(s, front);
      StepKeepsMarks(Run(s, front), ops[|ops|-1]);
    }
  }

  /** As long as no update throws a job's notes away, no sound note is ever refused. */
  lemma NeverRefused(s: State, ops: seq<Op>, note: Note)
    requires Marked(s.jobs) && GentleRun(s, ops) && IsKey(note.key) && Sound(Run(s, ops), note)
    ensures Noted(Run(s, ops), note).Some?
  {
    RunKeepsMarks(s, ops);
    RefusedIff(Run(s, ops), note);
  }

  /** But an update that replaces the notes of a note's job makes the next such note fail. */
  lemma ReplacedNotesRefuse(s: State, first: Note, status: string, notes: seq<string>, again: Note)
    requires Noted(s, first).Some? && first.plan.Some? && IsKey(first.key) && again.key == first.key
    requires !JobKnown(s.jobs, first.key) && !HasDedupe(notes, first.key)
    requires var t := After(Noted(s, first).value, UpdateJob(JobIdOf(first.key), status, notes)); Sound(t, again)
    ensures Noted(After(Noted(s, first).value, UpdateJob(JobIdOf(first.key), status, notes)), again).None?
  {
    var t := Noted(s, first).value;
    var u := After(t, UpdateJob(JobIdOf(first.key), status, notes));
    NotedChanges(s, first);
    var job := t.jobs[|s.jobs|];
    UpdateLast(s.jobs, job, status, notes);
    MarkLost(s.jobs, job.(status := status, notes := notes), first.key);
    RefusedIff(u, again);
  }

  lemma MarkLost(jobs: seq<Job>, last: Job, key: string)
    requires !JobKnown(jobs, key) && !HasDedupe(last.notes, key) && last.jobId == JobIdOf(key)
    ensures IdTaken(jobs + [last], JobIdOf(key)) && !JobKnown(jobs + [last], key)
  {
    assert (jobs + [last])[|jobs|] == last;
  }

  lemma {:induction false} UpdateLast(jobs: seq<Job>, last: Job, status: string, notes: seq<string>)
    requires !IdTaken(jobs, last.jobId)
    ensures UpdatedJobs(jobs + [last], last.jobId, status, notes) == jobs + [last.(status := status, notes := notes)]
  {
    if jobs == [] {
      assert jobs + [last] == [last];
    } else {
      assert (jobs + [last])[1..] == jobs[1..] + [last];
      UpdateLast(jobs[1..], last, status, notes);
      assert jobs == [jobs[0]] + jobs[1..];
    }
  }
}
