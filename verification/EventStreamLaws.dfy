/** What a connection delivers, for every interleaving of appends, archivals and polls. */
module EventStreamLaws {
  import opened Text
  import opened EventLog
  import opened EventStream

  datatype Tick = Append(e: Event) | Archive | Poll

  /** The store, the ids this connection has sent, and everything it has written. */
  datatype Session = Session(store: Store, sent: set<string>, out: seq<Event>)

  function Opened(store: Store, header: string): Session {
    Session(store, RawIds(store.items[..Skipped(store.items, TrimSpace(header))]), [])
  }

  function After(s: Session, t: Tick): Session {
    match t
    case Append(e) => s.(store := Appended(s.store, e))
    case Archive => s.(store := Marked(s.store))
    case Poll => s.(sent := s.sent + RawIds(s.store.items), out := s.out + Unsent(s.store.items, s.sent))
  }

  function Run(s: Session, ticks: seq<Tick>): Session {
    if ticks == [] then s else After(Run(s, ticks[..|ticks|-1]), ticks[|ticks|-1])
  }

  /** The whole log: `h0` before the connection, then every valid append. */
  function Log(h0: seq<Event>, ticks: seq<Tick>): seq<Event> {
    if ticks == [] then h0 else
      var before := Log(h0, ticks[..|ticks|-1]);
      var t := ticks[|ticks|-1];
      if t.Append? && Validates(t.e) then before + [t.e] else before
  }

  /** Where the tail begins in the log. */
  function Floor(h0: seq<Event>, s: Session, ticks: seq<Tick>): int {
    |Log(h0, ticks)| - |Run(s, ticks).store.items|
  }

  function Max(a: int, b: int): int { if a < b then b else a }

  function Range(lo: int, hi: int): seq<int>
    decreases hi - lo
  {
    if lo < hi then Range(lo, hi - 1) + [hi - 1] else []
  }

  /**
  The specification, in log positions: a poll covers the log from the later of the tail's floor and the last
  poll's end up to the newest event.
  */
  function Cursor(h0: seq<Event>, s: Session, start: int, ticks: seq<Tick>): int {
    if ticks == [] then start
    else if ticks[|ticks|-1].Poll? then |Log(h0, ticks)|
    else Cursor(h0, s, start, ticks[..|ticks|-1])
  }

  function Covered(h0: seq<Event>, s: Session, start: int, ticks: seq<Tick>): seq<int> {
    if ticks == [] then [] else
      var before := ticks[..|ticks|-1];
      var covered := Covered(h0, s, start, before);
      if !ticks[|ticks|-1].Poll? then covered
      else covered + Range(Max(Floor(h0, s, before), Cursor(h0, s, start, before)), |Log(h0, before)|)
  }

  ghost predicate Distinct(xs: seq<Event>) {
    forall i, j :: 0 <= i < j < |xs| ==> xs[i].eventId != xs[j].eventId
  }

  ghost predicate IsTail(items: seq<Event>, log: seq<Event>) {
    |items| <= |log| && items == log[|log| - |items|..]
  }

  // ----- one poll ---------------------------------------------------------------------------

  lemma {:induction false} UnsentIsRest(view: seq<Event>, sent: set<string>, k: nat)
    requires k <= |view| && Distinct(view)
    requires forall i :: 0 <= i < k ==> view[i].eventId in sent
    requires forall i :: k <= i < |view| ==> view[i].eventId !in sent
    ensures Unsent(view, sent) == view[k..]
  {
    if |view| > k {
      var n := |view| - 1;
      UnsentIsRest(view[..n], sent, k);
      assert view[..n][k..] + [view[n]] == view[k..];
    } else if view != [] {
      UnsentIsRest(view[..|view|-1], sent, k - 1);
    }
  }

  lemma {:induction false} RangeIs(lo: int, hi: int)
    ensures |Range(lo, hi)| == Max(0, hi - lo)
    ensures forall i :: 0 <= i < |Range(lo, hi)| ==> Range(lo, hi)[i] == lo + i
    decreases hi - lo
  {
    if lo < hi { RangeIs(lo, hi - 1); }
  }

  lemma {:induction false} LogGrows(h0: seq<Event>, ticks: seq<Tick>, n: nat)
    requires n <= |ticks|
    ensures Log(h0, ticks[..n]) <= Log(h0, ticks)
  {
    if n < |ticks| {
      var m := |ticks| - 1;
      LogGrows(h0, ticks[..m], n);
      assert ticks[..m][..n] == ticks[..n];
    } else {
      assert ticks[..n] == ticks;
    }
  }

  lemma TailGrows(store: Store, log: seq<Event>, e: Event)
    requires IsTail(store.items, log)
    ensures IsTail(Appended(store, e).items, if Validates(e) then log + [e] else log)
  {
    var all := store.items + [e];
    assert all == (log + [e])[|log| - |store.items|..];
  }

  lemma {:induction false} TailStays(h0: seq<Event>, s: Session, ticks: seq<Tick>)
    requires IsTail(s.store.items, h0)
    ensures IsTail(Run(s, ticks).store.items, Log(h0, ticks))
  {
    if ticks != [] {
      var n := |ticks| - 1;
      TailStays(h0, s, ticks[..n]);
      var (log, items) := (Log(h0, ticks[..n]), Run(s, ticks[..n]).store.items);
      if ticks[n].Append? { TailGrows(Run(s, ticks[..n]).store, log, ticks[n].e); }
    }
  }

  lemma {:induction false} FloorRises(h0: seq<Event>, s: Session, ticks: seq<Tick>)
    requires ticks != []
    ensures Floor(h0, s, ticks[..|ticks|-1]) <= Floor(h0, s, ticks)
  {
  }

  /** The sent ids, seen from the log: everything before the cursor that the tail still shows, and no more. */
  ghost predicate Agrees(log: seq<Event>, sent: set<string>, floor: int, cursor: int) {
    && 0 <= floor && 0 <= cursor <= |log|
    && (forall i :: floor <= i < cursor ==> log[i].eventId in sent)
    && (forall id :: id in sent ==> exists i :: 0 <= i < cursor && log[i].eventId == id)
  }

  lemma PollWrites(log: seq<Event>, items: seq<Event>, sent: set<string>, cursor: int)
    requires IsTail(items, log) && Distinct(log)
    requires Agrees(log, sent, |log| - |items|, cursor)
    ensures Unsent(items, sent) == log[Max(|log| - |items|, cursor)..]
  {
    var floor := |log| - |items|;
    var k := Max(floor, cursor) - floor;
    forall i | 0 <= i < |items| ensures items[i].eventId in sent <==> i < k { }
    UnsentIsRest(items, sent, k);
    assert items[k..] == log[Max(floor, cursor)..];
  }

  lemma PollAgrees(log: seq<Event>, items: seq<Event>, sent: set<string>, cursor: int)
    requires IsTail(items, log) && Agrees(log, sent, |log| - |items|, cursor)
    ensures Agrees(log, sent + RawIds(items), |log| - |items|, |log|)
  {
    var floor := |log| - |items|;
    forall i | floor <= i < |log| ensures log[i].eventId in RawIds(items) { assert log[i] == items[i - floor]; }
    forall id | id in sent + RawIds(items) ensures exists i :: 0 <= i < |log| && log[i].eventId == id {
      if id in RawIds(items) {
        var i :| 0 <= i < |items| && items[i].eventId == id;
        assert log[floor + i].eventId == id;
      }
    }
  }

  lemma AgreesLater(log: seq<Event>, more: seq<Event>, sent: set<string>, floor: int, later: int, cursor: int)
    requires Agrees(log, sent, floor, cursor) && log <= more && floor <= later
    ensures Agrees(more, sent, later, cursor)
  {
    forall id | id in sent ensures exists i :: 0 <= i < cursor && more[i].eventId == id {
      var i :| 0 <= i < cursor && log[i].eventId == id;
      assert more[i] == log[i];
    }
  }

  // ----- all polls --------------------------------------------------------------------------

  ghost predicate Delivers(out: seq<Event>, log: seq<Event>, positions: seq<int>) {
    && |out| == |positions|
    && (forall i :: 0 <= i < |out| ==> 0 <= positions[i] < |log| && out[i] == log[positions[i]])
  }

  lemma DeliversMore(out: seq<Event>, log: seq<Event>, positions: seq<int>, from: int)
    requires Delivers(out, log, positions) && 0 <= from <= |log|
    ensures Delivers(out + log[from..], log, positions + Range(from, |log|))
  {
    RangeIs(from, |log|);
    var (more, all) := (out + log[from..], positions + Range(from, |log|));
    forall i | 0 <= i < |more| ensures 0 <= all[i] < |log| && more[i] == log[all[i]] {
      if i >= |out| { assert all[i] == Range(from, |log|)[i - |out|]; }
    }
  }

  lemma {:induction false} SessionFollowsLog(h0: seq<Event>, s: Session, start: nat, ticks: seq<Tick>)
    requires IsTail(s.store.items, h0) && Distinct(Log(h0, ticks)) && s.out == []
    requires Agrees(h0, s.sent, |h0| - |s.store.items|, start)
    ensures Agrees(Log(h0, ticks), Run(s, ticks).sent, Floor(h0, s, ticks), Cursor(h0, s, start, ticks))
    ensures Delivers(Run(s, ticks).out, Log(h0, ticks), Covered(h0, s, start, ticks))
  {
    if ticks != [] {
      var n := |ticks| - 1;
      var before := ticks[..n];
      LogGrows(h0, ticks, n);
      SessionFollowsLog(h0, s, start, before);
      TailStays(h0, s, before);
      var (log, now, floor, cursor) :=
        (Log(h0, before), Run(s, before), Floor(h0, s, before), Cursor(h0, s, start, before));
      if ticks[n].Poll? {
        PollWrites(log, now.store.items, now.sent, cursor);
        PollAgrees(log, now.store.items, now.sent, cursor);
        DeliversMore(now.out, log, Covered(h0, s, start, before), Max(floor, cursor));
      } else {
        FloorRises(h0, s, ticks);
        AgreesLater(log, Log(h0, ticks), now.sent, floor, Floor(h0, s, ticks), cursor);
      }
    }
  }

  ghost predicate Rising(c: seq<int>, lo: int, hi: int) {
    && (forall i :: 0 <= i < |c| ==> lo <= c[i] < hi)
    && (forall i, j :: 0 <= i < j < |c| ==> c[i] < c[j])
  }

  lemma RisingMore(c: seq<int>, lo: int, mid: int, from: int, hi: int)
    requires Rising(c, lo, mid) && lo <= mid <= from && mid <= hi
    ensures Rising(c + Range(from, hi), lo, hi)
  {
    RangeIs(from, hi);
    var all := c + Range(from, hi);
    forall i | |c| <= i < |all| ensures all[i] == from + (i - |c|) < hi { assert all[i] == Range(from, hi)[i - |c|]; }
  }

  lemma {:induction false} CoveredIncreases(h0: seq<Event>, s: Session, start: nat, ticks: seq<Tick>)
    requires start <= |h0|
    ensures start <= Cursor(h0, s, start, ticks) <= |Log(h0, ticks)|
    ensures Rising(Covered(h0, s, start, ticks), start, Cursor(h0, s, start, ticks))
  {
    if ticks != [] {
      var n := |ticks| - 1;
      CoveredIncreases(h0, s, start, ticks[..n]);
      LogGrows(h0, ticks, n);
      var (floor, cursor) := (Floor(h0, s, ticks[..n]), Cursor(h0, s, start, ticks[..n]));
      RisingMore(Covered(h0, s, start, ticks[..n]), start, cursor, Max(floor, cursor), |Log(h0, ticks[..n])|);
    }
  }

  /** Every poll comes before the tail has lost an event that no poll has shown yet. */
  ghost predicate NoGap(h0: seq<Event>, s: Session, start: int, ticks: seq<Tick>) {
    forall i :: 0 <= i < |ticks| && ticks[i].Poll? ==> Floor(h0, s, ticks[..i]) <= Cursor(h0, s, start, ticks[..i])
  }

  lemma NoGapStep(h0: seq<Event>, s: Session, start: nat, ticks: seq<Tick>)
    requires ticks != []
    ensures var before := ticks[..|ticks|-1];
            NoGap(h0, s, start, ticks) <==>
            NoGap(h0, s, start, before) && (ticks[|ticks|-1].Poll? ==> Floor(h0, s, before) <= Cursor(h0, s, start, before))
  {
    var n := |ticks| - 1;
    var before := ticks[..n];
    forall i | 0 <= i < n ensures ticks[..i] == before[..i] && ticks[i] == before[i] { }
  }

  lemma {:induction false} CoveredAllIff(h0: seq<Event>, s: Session, start: nat, ticks: seq<Tick>)
    requires start <= |h0|
    ensures |Covered(h0, s, start, ticks)| <= Cursor(h0, s, start, ticks) - start
    ensures Covered(h0, s, start, ticks) == Range(start, Cursor(h0, s, start, ticks)) <==> NoGap(h0, s, start, ticks)
    ensures NoGap(h0, s, start, ticks) <==> |Covered(h0, s, start, ticks)| == Cursor(h0, s, start, ticks) - start
  {
    CoveredIncreases(h0, s, start, ticks);
    RangeIs(start, Cursor(h0, s, start, ticks));
    if ticks != [] {
      var n := |ticks| - 1;
      var before := ticks[..n];
      CoveredAllIff(h0, s, start, before);
      CoveredIncreases(h0, s, start, before);
      RangeIs(Max(Floor(h0, s, before), Cursor(h0, s, start, before)), |Log(h0, before)|);
      RangeIs(start, Cursor(h0, s, start, before));
      NoGapStep(h0, s, start, ticks);
    }
  }

  lemma DeliversAllIff(out: seq<Event>, log: seq<Event>, positions: seq<int>, lo: int, hi: int)
    requires Delivers(out, log, positions) && 0 <= lo <= hi <= |log|
    requires positions == Range(lo, hi) <==> |positions| == hi - lo
    ensures out == log[lo..hi] <==> |positions| == hi - lo
  {
    RangeIs(lo, hi);
    if |positions| == hi - lo {
      forall i | 0 <= i < |out| ensures out[i] == log[lo..hi][i] { assert positions[i] == lo + i; }
    }
  }

  /** The position from which a connection owes events: after the named event, or from the tail's floor. */
  function Owed(h0: seq<Event>, store: Store, header: string): int {
    |h0| - |store.items| + Skipped(store.items, TrimSpace(header))
  }

  lemma OpenedAgrees(h0: seq<Event>, store: Store, header: string)
    requires IsTail(store.items, h0)
    ensures Agrees(h0, Opened(store, header).sent, |h0| - |store.items|, Owed(h0, store, header))
  {
    var (floor, k) := (|h0| - |store.items|, Skipped(store.items, TrimSpace(header)));
    var sent := Opened(store, header).sent;
    forall i | floor <= i < floor + k ensures h0[i].eventId in sent {
      assert h0[i] == store.items[..k][i - floor];
    }
    forall id | id in sent ensures exists i :: 0 <= i < floor + k && h0[i].eventId == id {
      var i :| 0 <= i < k && store.items[..k][i].eventId == id;
      assert h0[floor + i].eventId == id;
    }
  }

  /**
  Resumption. Whatever appends, archivals and polls come in between, a connection writes log events at
  strictly increasing positions (so each at most once, in log order), starting after the event named by
  Last-Event-ID or, if the name is blank or unknown, at the oldest event of the tail. It writes all of them
  up to its last poll exactly when no poll came too late.
  */
  lemma StreamResumes(h0: seq<Event>, store: Store, header: string, ticks: seq<Tick>)
    requires IsTail(store.items, h0) && Distinct(Log(h0, ticks))
    ensures var s := Opened(store, header);
            var (log, start) := (Log(h0, ticks), Owed(h0, store, header));
            var (out, positions) := (Run(s, ticks).out, Covered(h0, s, start, ticks));
            && Delivers(out, log, positions)
            && Rising(positions, start, Cursor(h0, s, start, ticks))
            && 0 <= start <= Cursor(h0, s, start, ticks) <= |log|
            && (out == log[start..Cursor(h0, s, start, ticks)] <==> NoGap(h0, s, start, ticks))
  {
    var s := Opened(store, header);
    var (log, start) := (Log(h0, ticks), Owed(h0, store, header));
    OpenedAgrees(h0, store, header);
    SessionFollowsLog(h0, s, start, ticks);
    CoveredIncreases(h0, s, start, ticks);
    CoveredAllIff(h0, s, start, ticks);
    DeliversAllIff(Run(s, ticks).out, log, Covered(h0, s, start, ticks), start, Cursor(h0, s, start, ticks));
  }

  /** The header picks the start: the suffix after a known id, and the whole tail otherwise. */
  lemma OwedMeaning(h0: seq<Event>, store: Store, header: string)
    requires IsTail(store.items, h0) && Distinct(h0)
    ensures var (start, floor) := (Owed(h0, store, header), |h0| - |store.items|);
            && (forall i :: floor <= i < |h0| && h0[i].eventId == TrimSpace(header) && TrimSpace(header) != "" ==> start == i + 1)
            && ((forall i :: floor <= i < |h0| ==> h0[i].eventId != TrimSpace(header)) || TrimSpace(header) == "" ==> start == floor)
  {
    TrimIsTrimmed(header);
    forall i | |h0| - |store.items| <= i < |h0| ensures h0[i] == store.items[i - (|h0| - |store.items|)] { }
    if Find(store.items, TrimSpace(header)).Some? {
      var j := Find(store.items, TrimSpace(header)).value;
      assert h0[|h0| - |store.items| + j] == store.items[j];
    }
  }
}
