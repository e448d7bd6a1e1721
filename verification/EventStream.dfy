/**
The server-sent event stream of internal/api/router_event_session.go, which resumes after Last-Event-ID
(section 9.2 of the WHATWG HTML Standard) from the bounded tail of the event store.
*/
module EventStream {
  import opened Text
  import opened EventLog

  function RawIds(xs: seq<Event>): set<string> {
    set i | 0 <= i < |xs| :: xs[i].eventId
  }

  /** What one pass over the tail writes: the events whose id was not written before. */
  function Unsent(view: seq<Event>, sent: set<string>): seq<Event> {
    if view == [] then [] else
      var before := view[..|view|-1];
      var last := view[|view|-1];
      if last.eventId in sent || last.eventId in RawIds(before) then Unsent(before, sent)
      else Unsent(before, sent) + [last]
  }

  function Marshalled(view: seq<Event>, marshals: Event -> bool): seq<Event> {
    if view == [] then [] else
      Marshalled(view[..|view|-1], marshals) + if marshals(view[|view|-1]) then [view[|view|-1]] else []
  }

  /** The position of the event named by the header, if the tail still has it. */
  function Find(view: seq<Event>, id: string): (at: Option<nat>)
    ensures at.Some? ==> at.value < |view| && view[at.value].eventId == id &&
                         forall i :: 0 <= i < at.value ==> view[i].eventId != id
    ensures at.None? ==> forall i :: 0 <= i < |view| ==> view[i].eventId != id
  {
    if view == [] then None
    else if view[0].eventId == id then Some(0)
    else
      var rest := Find(view[1..], id);
      if rest.None? then None else Some(rest.value + 1)
  }

  /** How many events of the tail a connection starts by treating as delivered. */
  function Skipped(view: seq<Event>, lastId: string): (n: nat)
    ensures n <= |view|
  {
    if TrimSpace(lastId) == "" then 0
    else match Find(view, lastId) case None => 0 case Some(i) => i + 1
  }

  class Connection {
    var sent: set<string>

    method SeedSeenEvents(items: seq<Event>, lastId: string) returns (seen: set<string>)
      ensures seen == RawIds(items[..Skipped(items, lastId)])
    {
      seen := {};
      if TrimSpace(lastId) == "" { return; }
      var matched := false;
      for i := 0 to |items|
        invariant !matched
        invariant seen == RawIds(items[..i])
        invariant forall j :: 0 <= j < i ==> items[j].eventId != lastId
      {
        seen := seen + {items[i].eventId};
        RawIdsAppend(items[..i], items[i]);
        assert items[..i+1] == items[..i] + [items[i]];
        if items[i].eventId == lastId {
          matched := true;
          assert Find(items, lastId) == Some(i);
          break;
        }
      }
      if matched { return; }
      seen := {};
    }

    constructor (view: seq<Event>, header: string)
      ensures sent == RawIds(view[..Skipped(view, TrimSpace(header))])
    {
      new;
      sent := SeedSeenEvents(view, TrimSpace(header));
    }

    /** One tick of the 750 ms ticker over the listed events; one that does not marshal is passed over and stays unsent. */
    method Poll(view: seq<Event>, marshals: Event -> bool) returns (written: seq<Event>)
      modifies this
      ensures written == Unsent(Marshalled(view, marshals), old(sent))
      ensures sent == old(sent) + RawIds(Marshalled(view, marshals))
    {
      written := [];
      ghost var seen: seq<Event> := [];
      for i := 0 to |view|
        invariant seen == Marshalled(view[..i], marshals)
        invariant written == Unsent(seen, old(sent)) && sent == old(sent) + RawIds(seen)
      {
        MarshalledStep(view, i, marshals);
        RawIdsAppend(seen, view[i]);
        UnsentSnoc(seen, view[i], old(sent));
        if marshals(view[i]) { seen := seen + [view[i]]; }
        if view[i].eventId in sent { continue; }
        if !marshals(view[i]) { continue; }
        written := written + [view[i]];
        sent := sent + {view[i].eventId};
      }
      assert view[..|view|] == view;
    }
  }

  lemma MarshalledStep(view: seq<Event>, i: nat, marshals: Event -> bool)
    requires i < |view|
    ensures Marshalled(view[..i+1], marshals) ==
            if marshals(view[i]) then Marshalled(view[..i], marshals) + [view[i]] else Marshalled(view[..i], marshals)
  {
    assert view[..i+1][..i] == view[..i];
    var before := Marshalled(view[..i], marshals);
    assert before + [] == before;
  }

  lemma UnsentSnoc(before: seq<Event>, e: Event, sent: set<string>)
    ensures Unsent(before + [e], sent) ==
            if e.eventId in sent || e.eventId in RawIds(before) then Unsent(before, sent) else Unsent(before, sent) + [e]
  {
    assert (before + [e])[..|before|] == before;
  }

  /** Which events are considered: those that marshal, where they stand. */
  lemma {:induction false} MarshalledAt(view: seq<Event>, marshals: Event -> bool) returns (at: seq<nat>)
    ensures |at| == |Marshalled(view, marshals)|
    ensures forall k :: 0 <= k < |at| ==> at[k] < |view| && Marshalled(view, marshals)[k] == view[at[k]]
    ensures forall k, l :: 0 <= k < l < |at| ==> at[k] < at[l]
    ensures forall i :: 0 <= i < |view| ==> (i in at <==> marshals(view[i]))
  {
    at := [];
    if view != [] {
      var n := |view| - 1;
      at := MarshalledAt(view[..n], marshals);
      MarshalledStep(view, n, marshals);
      assert view[..n+1] == view && forall i :: 0 <= i < n ==> view[..n][i] == view[i];
      if marshals(view[n]) { at := at + [n]; }
    }
  }

  /** Events that marshal are all considered: a poll is then the tick of the laws below. */
  lemma {:induction false} MarshalledAll(view: seq<Event>, marshals: Event -> bool)
    requires forall i :: 0 <= i < |view| ==> marshals(view[i])
    ensures Marshalled(view, marshals) == view
  {
    if view != [] {
      MarshalledAll(view[..|view|-1], marshals);
      assert view == view[..|view|-1] + [view[|view|-1]];
    }
  }

  lemma RawIdsAppend(xs: seq<Event>, e: Event)
    ensures RawIds(xs + [e]) == RawIds(xs) + {e.eventId}
  {
    var all := xs + [e];
    forall id | id in RawIds(xs) + {e.eventId} ensures id in RawIds(all) {
      if id in RawIds(xs) {
        var i :| 0 <= i < |xs| && xs[i].eventId == id;
        assert all[i].eventId == id;
      } else {
        assert all[|xs|].eventId == id;
      }
    }
  }
}
