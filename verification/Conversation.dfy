/**
createConversationNoteLocked of internal/runtime/conversation.go: one note changes up to five stores, or none.
*/
module Conversation {
  import opened Text
  import EventLog

  const PREFIX := "conversation_dedupe:"

  /** `sound` stands for the remaining checks of each Validate method. */
  datatype Observation = Observation(id: string, refs: seq<string>, sound: bool)
  datatype Proposal = Proposal(proposalId: string, notes: seq<string>, status: string, sound: bool)
  datatype Job = Job(jobId: string, ref: string, notes: seq<string>, status: string, sound: bool)
  datatype Room = Room(open: seq<string>)

  /** What the review room answers to a risk note: an item opened, an item updated, nothing new, or an error. */
  datatype Review = Opened(room: Room, event: EventLog.Event) | Updated(room: Room, event: EventLog.Event) | Present | Refused

  /** The proposal and planner job a note asks for: whether they validate, and the events that report them. */
  datatype Plan = Plan(proposalSound: bool, proposalEvent: EventLog.Event, jobSound: bool, jobEvent: EventLog.Event)

  /** A normalised note: its dedupe key, and what it leads to. */
  datatype Note = Note(valid: bool, key: string, channel: string, refs: seq<string>, event: EventLog.Event,
                       observation: Observation, risk: Option<Room -> Review>, plan: Option<Plan>)

  datatype State = State(observations: seq<Observation>, proposals: seq<Proposal>, jobs: seq<Job>, room: Room,
                         events: EventLog.Store)

  /** The end of persistLocked: saved, or failed after the audit had changed the room and the archive may have been written. */
  datatype Saving = Saved(room: Room) | Failed(room: Room, archiveWritten: bool)

  // ----- dedupe notes and derived ids -----------------------------------------------------------

  predicate HasDedupe(notes: seq<string>, key: string) {
    exists i :: 0 <= i < |notes| && TrimSpace(notes[i]) == PREFIX + key
  }

  method SearchNotes(notes: seq<string>, key: string) returns (found: bool)
    ensures found == HasDedupe(notes, key)
  {
    for i := 0 to |notes|
      invariant forall j :: 0 <= j < i ==> TrimSpace(notes[j]) != PREFIX + key
    {
      if TrimSpace(notes[i]) == PREFIX + key { return true; }
    }
    return false;
  }

  function RefNotes(refs: seq<string>): seq<string> { seq(|refs|, i requires 0 <= i < |refs| => "ref:" + refs[i]) }

  function JobNotes(note: Note): seq<string> {
    Clean(["auto_generated:true", PREFIX + note.key, "source_event:" + note.event.eventId, "source_channel:" + note.channel])
  }

  function ProposalNotes(note: Note): seq<string> {
    Clean(["auto_generated:true", PREFIX + note.key, "source_event:" + note.event.eventId, "source_channel:" + note.channel]
          + RefNotes(note.refs))
  }

  function ProposalIdOf(key: string): string {
    var trimmed := TrimSpace(key);
    var rest := if "pcand_" <= trimmed then trimmed[6..] else trimmed;
    "proposal_" + if rest == "" then "draft" else rest
  }

  function JobIdOf(key: string): string { "job_" + if "conv_" <= key then key[5..] else key }

  function ProposalFor(note: Note, plan: Plan): Proposal {
    Proposal(ProposalIdOf(note.key), ProposalNotes(note), "proposed", plan.proposalSound)
  }

  function JobFor(note: Note, plan: Plan, proposal: Proposal): Job {
    Job(JobIdOf(note.key), proposal.proposalId, JobNotes(note), "queued", plan.jobSound)
  }

  predicate ProposalKnown(proposals: seq<Proposal>, key: string) {
    exists i :: 0 <= i < |proposals| && HasDedupe(proposals[i].notes, key)
  }

  predicate JobKnown(jobs: seq<Job>, key: string) { exists i :: 0 <= i < |jobs| && HasDedupe(jobs[i].notes, key) }

  predicate IdTaken(jobs: seq<Job>, jobId: string) { exists i :: 0 <= i < |jobs| && jobs[i].jobId == jobId }

  // ----- the steps, on values -------------------------------------------------------------------

  function WithEvent(s: State, e: EventLog.Event): State { s.(events := EventLog.Appended(s.events, e)) }

  function Reviewed(s: State, note: Note): Option<State> {
    if note.risk.None? then Some(s)
    else match note.risk.value(s.room)
      case Opened(room, e) => if EventLog.Validates(e) then Some(WithEvent(s, e).(room := room)) else None
      case Updated(room, e) => Some(WithEvent(s, e).(room := room))
      case Present => Some(s)
      case Refused => None
  }

  function Proposed(s: State, note: Note, plan: Plan): Option<State> {
    if ProposalKnown(s.proposals, note.key) then Some(s)
    else if !plan.proposalSound || !EventLog.Validates(plan.proposalEvent) then None
    else Some(WithEvent(s, plan.proposalEvent).(proposals := s.proposals + [ProposalFor(note, plan)]))
  }

  function FirstProposal(proposals: seq<Proposal>, key: string): Proposal
    requires ProposalKnown(proposals, key)
  {
    if HasDedupe(proposals[0].notes, key) then proposals[0] else FirstProposal(proposals[1..], key)
  }

  lemma {:induction false} FirstProposalAt(proposals: seq<Proposal>, key: string, i: nat)
    requires i < |proposals| && HasDedupe(proposals[i].notes, key)
    requires forall j :: 0 <= j < i ==> !HasDedupe(proposals[j].notes, key)
    ensures ProposalKnown(proposals, key) && FirstProposal(proposals, key) == proposals[i]
  {
    if i > 0 { FirstProposalAt(proposals[1..], key, i - 1); }
  }

  function Jobbed(s: State, note: Note, plan: Plan, proposal: Proposal): Option<State> {
    if JobKnown(s.jobs, note.key) then Some(s)
    else if !plan.jobSound || IdTaken(s.jobs, JobIdOf(note.key)) || !EventLog.Validates(plan.jobEvent) then None
    else Some(WithEvent(s, plan.jobEvent).(jobs := s.jobs + [JobFor(note, plan, proposal)]))
  }

  function FirstJob(jobs: seq<Job>, key: string): Job
    requires JobKnown(jobs, key)
  {
    if HasDedupe(jobs[0].notes, key) then jobs[0] else FirstJob(jobs[1..], key)
  }

  lemma {:induction false} FirstJobAt(jobs: seq<Job>, key: string, i: nat)
    requires i < |jobs| && HasDedupe(jobs[i].notes, key)
    requires forall j :: 0 <= j < i ==> !HasDedupe(jobs[j].notes, key)
    ensures JobKnown(jobs, key) && FirstJob(jobs, key) == jobs[i]
  {
    if i > 0 { FirstJobAt(jobs[1..], key, i - 1); }
  }

  function ChosenJob(s: State, note: Note, plan: Plan, proposal: Proposal): Job {
    if JobKnown(s.jobs, note.key) then FirstJob(s.jobs, note.key) else JobFor(note, plan, proposal)
  }

  /** The proposal of the key, found or made, and then its planner job. */
  function Planned(s: State, note: Note, plan: Plan): Option<State> {
    var proposed := Proposed(s, note, plan);
    if proposed.None? then None else Jobbed(proposed.value, note, plan, ChosenProposal(s, note, plan))
  }

  function ChosenProposal(s: State, note: Note, plan: Plan): Proposal {
    if ProposalKnown(s.proposals, note.key) then FirstProposal(s.proposals, note.key) else ProposalFor(note, plan)
  }

  /** The steps of a note between its event and the saving. */
  function Followed(s: State, note: Note): Option<State> {
    if !note.observation.sound then None
    else
      var reviewed := Reviewed(s.(observations := s.observations + [note.observation]), note);
      if reviewed.None? || note.plan.None? then reviewed else Planned(reviewed.value, note, note.plan.value)
  }

  function Noted(s: State, note: Note): Option<State> {
    if !note.valid || !EventLog.Validates(note.event) then None else Followed(WithEvent(s, note.event), note)
  }

  function RolledBack(s: State, envLimit: int): State { s.(events := EventLog.Restored(s.events, envLimit)) }

  function Settled(s: State, room: Room): State { s.(room := room, events := EventLog.Marked(s.events)) }

  /** A note as a whole: all of its steps and the saving, or none. */
  function AfterNote(s: State, note: Note, saving: Saving, envLimit: int): State {
    if Noted(s, note).Some? && saving.Saved? then Settled(Noted(s, note).value, saving.room)
    else if note.valid && EventLog.Validates(note.event) then RolledBack(s, envLimit)
    else s
  }

  /** The proposal and job given back are those of the key: the first already there, or else the new ones. */
  ghost predicate Answers(s: State, note: Note, proposal: Option<Proposal>, job: Option<Job>) {
    if note.plan.None? then proposal.None? && job.None?
    else
      var p := ChosenProposal(s, note, note.plan.value);
      proposal == Some(p) && job == Some(ChosenJob(s, note, note.plan.value, p))
  }

  // ----- the service ----------------------------------------------------------------------------

  class Service {
    var observations: seq<Observation>
    var proposals: seq<Proposal>
    var jobs: seq<Job>
    var room: Room
    var event: EventLog.EventStore

    ghost function Current(): State
      reads this, event
    {
      State(observations, proposals, jobs, room, event.State())
    }

    constructor (events: EventLog.EventStore)
      ensures Current() == State([], [], [], Room([]), events.State()) && event == events
    {
      observations, proposals, jobs, room, event := [], [], [], Room([]), events;
    }

    /** The five assignments of every error branch. */
    method RollBack(s: State, envLimit: int)
      modifies this
      ensures fresh(event)
      ensures Current() == s.(events := EventLog.Restored(s.events, envLimit))
    {
      observations := s.observations;
      proposals := s.proposals;
      jobs := s.jobs;
      room := s.room;
      event := new EventLog.EventStore.FromState(s.events, envLimit);
    }

    method UpsertRisk(note: Note) returns (ok: bool)
      requires note.risk.Some?
      modifies this`room, event
      ensures ok == Reviewed(old(Current()), note).Some?
      ensures ok ==> Current() == Reviewed(old(Current()), note).value
    {
      match note.risk.value(room)
      case Opened(updated, e) =>
        room := updated;
        ok := event.Append(e);
      case Updated(updated, e) =>
        room := updated;
        var _ := event.Append(e);
        ok := true;
      case Present => ok := true;
      case Refused => ok := false;
    }

    method UpsertProposal(note: Note, plan: Plan) returns (result: Option<Proposal>, created: bool)
      modifies this`proposals, event
      ensures result.Some? == Proposed(old(Current()), note, plan).Some?
      ensures result.Some? ==> Current() == Proposed(old(Current()), note, plan).value
      ensures result.Some? ==> created == !ProposalKnown(old(proposals), note.key)
      ensures result.Some? ==> result.value == ChosenProposal(old(Current()), note, plan)
    {
      for i := 0 to |proposals|
        invariant Current() == old(Current())
        invariant forall j :: 0 <= j < i ==> !HasDedupe(proposals[j].notes, note.key)
      {
        var found := SearchNotes(proposals[i].notes, note.key);
        if found {
          FirstProposalAt(proposals, note.key, i);
          return Some(proposals[i]), false;
        }
      }
      var proposal := ProposalFor(note, plan);
      if !proposal.sound { return None, false; }
      proposals := proposals + [proposal];
      var ok := event.Append(plan.proposalEvent);
      if !ok { return None, false; }
      return Some(proposal), true;
    }

    method UpsertJob(note: Note, plan: Plan, proposal: Proposal) returns (result: Option<Job>, created: bool)
      modifies this`jobs, event
      ensures result.Some? == Jobbed(old(Current()), note, plan, proposal).Some?
      ensures result.Some? ==> Current() == Jobbed(old(Current()), note, plan, proposal).value
      ensures result.Some? ==> created == !JobKnown(old(jobs), note.key)
      ensures result.Some? ==> result.value == ChosenJob(old(Current()), note, plan, proposal)
    {
      for i := 0 to |jobs|
        invariant Current() == old(Current())
        invariant forall j :: 0 <= j < i ==> !HasDedupe(jobs[j].notes, note.key)
      {
        var found := SearchNotes(jobs[i].notes, note.key);
        if found {
          FirstJobAt(jobs, note.key, i);
          return Some(jobs[i]), false;
        }
      }
      var job := JobFor(note, plan, proposal);
      var ok := CreateJob(job, plan.jobEvent);
      if !ok { return None, false; }
      return Some(job), true;
    }

    /** createAgentJobLocked: a job id is used once. */
    method CreateJob(job: Job, e: EventLog.Event) returns (ok: bool)
      modifies this`jobs, event
      ensures ok <==> job.sound && !IdTaken(old(jobs), job.jobId) && EventLog.Validates(e)
      ensures ok ==> Current() == WithEvent(old(Current()), e).(jobs := old(jobs) + [job])
    {
      if !job.sound { return false; }
      for i := 0 to |jobs|
        invariant Current() == old(Current())
        invariant forall j :: 0 <= j < i ==> jobs[j].jobId != job.jobId
      {
        if jobs[i].jobId == job.jobId { return false; }
      }
      jobs := jobs + [job];
      ok := event.Append(e);
    }

    method Persist(saving: Saving) returns (ok: bool)
      modifies this`room, event
      ensures ok == saving.Saved?
      ensures ok ==> Current() == Settled(old(Current()), saving.room)
    {
      room := saving.room;
      match saving
      case Saved(_) =>
        event.MarkArchivePersisted();
        ok := true;
      case Failed(_, archiveWritten) =>
        if archiveWritten { event.MarkArchivePersisted(); }
        ok := false;
    }

    method UpsertPlan(note: Note, plan: Plan) returns (proposal: Option<Proposal>, job: Option<Job>)
      requires note.plan == Some(plan)
      modifies this`proposals, this`jobs, event
      ensures job.Some? == Planned(old(Current()), note, plan).Some?
      ensures job.Some? ==> Current() == Planned(old(Current()), note, plan).value
      ensures job.Some? ==> Answers(old(Current()), note, proposal, job)
    {
      var created;
      proposal, created := UpsertProposal(note, plan);
      if proposal.None? { return None, None; }
      job, created := UpsertJob(note, plan, proposal.value);
    }

    /** Nothing of a note stays unless all of it does. */
    method CreateNote(note: Note, saving: Saving, envLimit: int)
      returns (ok: bool, proposal: Option<Proposal>, job: Option<Job>)
      modifies this, event
      ensures event == old(event) || fresh(event)
      ensures ok <==> Noted(old(Current()), note).Some? && saving.Saved?
      ensures Current() == AfterNote(old(Current()), note, saving, envLimit)
      ensures !ok ==> observations == old(observations) && proposals == old(proposals) && jobs == old(jobs) && room == old(room)
      ensures !ok ==> event.State().(limit := old(event.limit)) == old(event.State())
      ensures ok ==> Answers(old(Current()), note, proposal, job)
    {
      proposal, job := None, None;
      if !note.valid { return false, None, None; }
      var snapshot := event.Snapshot();
      var stores := State(observations, proposals, jobs, room, snapshot);
      ok := event.Append(note.event);
      if !ok { return false, None, None; }
      ok, proposal, job := Complete(note, saving);
      if !ok { RollBack(stores, envLimit); }
    }

    /** The steps after the event, none of which cleans up after itself. */
    method Complete(note: Note, saving: Saving) returns (ok: bool, proposal: Option<Proposal>, job: Option<Job>)
      requires note.valid && EventLog.Validates(note.event)
      modifies this`observations, this`proposals, this`jobs, this`room, event
      ensures ok <==> Followed(old(Current()), note).Some? && saving.Saved?
      ensures ok ==> Current() == Settled(Followed(old(Current()), note).value, saving.room)
      ensures ok ==> Answers(old(Current()), note, proposal, job)
    {
      proposal, job := None, None;
      if !note.observation.sound { return false, None, None; }
      observations := observations + [note.observation];
      if note.risk.Some? {
        ok := UpsertRisk(note);
        if !ok { return; }
      }
      if note.plan.Some? {
        proposal, job := UpsertPlan(note, note.plan.value);
        if job.None? { return false, None, None; }
      }
      ok := Persist(saving);
    }
  }
}
