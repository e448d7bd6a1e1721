/**
Lists of continuity records: normalising, sorting, upserting and searching. Everything here holds of any
record normaliser `norm`; ContinuityLaws supplies normalizeContinuityRecordAt.
*/
module ContinuityLists {
  import opened Text
  import opened ContinuityRecords
  import Sorting

  type View = (Record, Time) -> Record

  // ----- the order of the list ----------------------------------------------------------------

  function Rank(status: Status): int {
    match status case Active => 0 case Stale => 1 case Resolved => 2 case _ => 3
  }

  predicate Before(a: Record, b: Record) {
    if Rank(a.status) != Rank(b.status) then Rank(a.status) < Rank(b.status)
    else if a.updatedAt != b.updatedAt then a.updatedAt > b.updatedAt
    else if a.createdAt != b.createdAt then a.createdAt > b.createdAt
    else Less(b.recordId, a.recordId)
  }

  function Order(): (Record, Record) -> bool {
    (a: Record, b: Record) => Before(a, b)
  }

  lemma BeforeLaws(a: Record, b: Record, c: Record)
    ensures Before(a, b) ==> !Before(b, a)
    ensures !Before(b, a) && !Before(c, b) ==> !Before(c, a)
    ensures a.recordId != b.recordId ==> Before(a, b) || Before(b, a)
  {
    LessTotal(a.recordId, b.recordId);
    LessTotal(b.recordId, c.recordId);
    LessTotal(a.recordId, c.recordId);
    if Less(a.recordId, c.recordId) && Less(c.recordId, b.recordId) { LessTransitive(a.recordId, c.recordId, b.recordId); }
    if Less(b.recordId, a.recordId) && Less(a.recordId, c.recordId) { LessTransitive(b.recordId, a.recordId, c.recordId); }
  }

  lemma OrderIsWeak()
    ensures Sorting.WeakOrder(Order())
  {
    forall a, b ensures Order()(a, b) ==> !Order()(b, a) { BeforeLaws(a, b, b); }
    forall a, b, c ensures !Order()(b, a) && !Order()(c, b) ==> !Order()(c, a) { BeforeLaws(a, b, c); }
  }

  // ----- normalising a list -------------------------------------------------------------------

  function At(norm: View, now: Time): Record -> Record {
    (r: Record) => norm(r, now)
  }

  function Viewed(norm: View, items: seq<Record>, now: Time): seq<Record> {
    Sorting.Mapped(At(norm, now), items)
  }

  function NormalizedAt(norm: View, items: seq<Record>, now: Time): seq<Record> {
    Sorting.Sort(Order(), Viewed(norm, items, now))
  }

  /** The normaliser never leaves an id blank. */
  ghost predicate FillsIds(norm: View) {
    forall r, t :: norm(r, t).recordId != ""
  }

  /** A record that has one id at all times, and whose earlier normalisations make no difference to a later one. */
  ghost predicate Settled(norm: View, r: Record) {
    && (forall t: Time :: norm(r, t).recordId == IdOf(norm, r))
    && (forall t1: Time, t2: Time :: norm(norm(r, t1), t2) == norm(r, t2))
  }

  function IdOf(norm: View, r: Record): string { norm(r, 0).recordId }

  ghost predicate AllSettled(norm: View, items: seq<Record>) {
    forall i :: 0 <= i < |items| ==> Settled(norm, items[i])
  }

  /** The ids are distinct once normalised. */
  ghost predicate DistinctOnceSeen(norm: View, items: seq<Record>) {
    forall i, j :: 0 <= i < j < |items| ==> IdOf(norm, items[i]) != IdOf(norm, items[j])
  }

  /** A settled record that bears its normalised id already, as every record of a normalised list does. */
  ghost predicate Kept(norm: View, r: Record) { Settled(norm, r) && IdOf(norm, r) == r.recordId }

  ghost predicate AllKept(norm: View, items: seq<Record>) {
    forall i :: 0 <= i < |items| ==> Kept(norm, items[i])
  }

  ghost predicate DistinctIds(items: seq<Record>) {
    forall i, j :: 0 <= i < j < |items| ==> items[i].recordId != items[j].recordId
  }

  /** normalizeContinuityRecordsAt: the test for a blank id never drops a record. */
  method NormalizeRecords(norm: View, items: seq<Record>, now: Time) returns (out: seq<Record>)
    requires FillsIds(norm)
    ensures out == NormalizedAt(norm, items, now)
  {
    var normal: seq<Record> := [];
    for i := 0 to |items|
      invariant normal == Viewed(norm, items[..i], now)
    {
      var r := norm(items[i], now);
      if r.recordId == "" {
        assert false;
        continue;
      }
      normal := normal + [r];
    }
    assert items[..|items|] == items;
    out := Sorting.Sort(Order(), normal);
  }

  lemma NormalizedIs(norm: View, items: seq<Record>, now: Time)
    ensures Sorting.Sorted(Order(), NormalizedAt(norm, items, now))
    ensures multiset(NormalizedAt(norm, items, now)) == multiset(Viewed(norm, items, now))
    ensures |NormalizedAt(norm, items, now)| == |items|
  {
    OrderIsWeak();
    Sorting.SortSorts(Order(), Viewed(norm, items, now));
    var list := NormalizedAt(norm, items, now);
    assert |list| == |multiset(list)| == |multiset(Viewed(norm, items, now))| == |Viewed(norm, items, now)|;
  }

  /** The four keys: active before stale before resolved, then the latest update, the latest creation and the greatest id. */
  lemma NormalizedOrdered(norm: View, items: seq<Record>, now: Time, i: nat, j: nat)
    requires i < j < |items|
    ensures |NormalizedAt(norm, items, now)| == |items|
    ensures var (a, b) := (NormalizedAt(norm, items, now)[i], NormalizedAt(norm, items, now)[j]);
            && (a.status == Stale ==> b.status != Active)
            && (a.status == Resolved ==> b.status != Active && b.status != Stale)
            && (a.status == b.status ==> a.updatedAt >= b.updatedAt)
            && (a.status == b.status && a.updatedAt == b.updatedAt ==> a.createdAt >= b.createdAt)
            && (a.status == b.status && a.updatedAt == b.updatedAt && a.createdAt == b.createdAt ==>
                  a.recordId == b.recordId || Less(b.recordId, a.recordId))
  {
    NormalizedIs(norm, items, now);
    var (a, b) := (NormalizedAt(norm, items, now)[i], NormalizedAt(norm, items, now)[j]);
    assert !Order()(b, a);
    LessTotal(a.recordId, b.recordId);
  }

  lemma NormalizedHas(norm: View, items: seq<Record>, now: Time, r: Record)
    ensures r in NormalizedAt(norm, items, now) <==> exists i :: 0 <= i < |items| && norm(items[i], now) == r
  {
    NormalizedIs(norm, items, now);
    var viewed := Viewed(norm, items, now);
    assert r in NormalizedAt(norm, items, now) <==> r in multiset(viewed);
    assert r in viewed <==> r in multiset(viewed);
    if r in viewed {
      var i :| 0 <= i < |viewed| && viewed[i] == r;
      assert norm(items[i], now) == r;
    }
    if i :| 0 <= i < |items| && norm(items[i], now) == r { assert viewed[i] == r; }
  }

  // ----- re-normalisation ---------------------------------------------------------------------

  lemma DistinctIsStrict(items: seq<Record>)
    requires DistinctIds(items)
    ensures Sorting.Strict(Order(), items)
  {
    forall x, y | x in items && y in items && x != y ensures Order()(x, y) || Order()(y, x) {
      BeforeLaws(x, y, y);
    }
  }

  /** What was normalised at t1 and is normalised again at t2 is what t2 alone gives, in any input order. */
  lemma RenormalisationAbsorbs(norm: View, items: seq<Record>, shuffled: seq<Record>, t1: Time, t2: Time)
    requires AllSettled(norm, items) && DistinctOnceSeen(norm, items)
    requires multiset(shuffled) == multiset(items)
    ensures NormalizedAt(norm, NormalizedAt(norm, shuffled, t1), t2) == NormalizedAt(norm, items, t2)
  {
    var once := Viewed(norm, items, t1);
    var sorted := NormalizedAt(norm, shuffled, t1);
    NormalizedIs(norm, shuffled, t1);
    Sorting.MappedPermutes(At(norm, t1), shuffled, items);
    Sorting.MappedPermutes(At(norm, t2), sorted, once);
    forall i | 0 <= i < |items| ensures norm(once[i], t2) == norm(items[i], t2) {
      assert Settled(norm, items[i]);
    }
    assert Viewed(norm, once, t2) == Viewed(norm, items, t2);
    DistinctIsStrict(Viewed(norm, items, t2));
    OrderIsWeak();
    Sorting.SortForgetsOrder(Order(), Viewed(norm, items, t2), Viewed(norm, sorted, t2));
  }

  // ----- upsert ---------------------------------------------------------------------------------

  /**
  The list upsertContinuityRecord builds before the last normalisation. Go reads the clock again for every
  record: `clock(0)` is the reading for `next`, `clock(i + 1)` the one for record `i`.
  */
  function Upserted(norm: View, items: seq<Record>, next: Record, clock: nat -> Time): seq<Record> {
    var put := norm(next, clock(0));
    seq(|items|, i requires 0 <= i < |items| =>
      if items[i].recordId != put.recordId then norm(items[i], clock(i + 1)) else put)
    + if exists i :: 0 <= i < |items| && items[i].recordId == put.recordId then [] else [put]
  }

  method UpsertRecord(norm: View, items: seq<Record>, next: Record, clock: nat -> Time, now: Time)
    returns (out: seq<Record>)
    requires FillsIds(norm)
    ensures out == NormalizedAt(norm, Upserted(norm, items, next, clock), now)
  {
    var put := norm(next, clock(0));
    var updated := false;
    var list: seq<Record> := [];
    for i := 0 to |items|
      invariant |list| == i
      invariant forall j :: 0 <= j < i ==>
        list[j] == if items[j].recordId != put.recordId then norm(items[j], clock(j + 1)) else put
      invariant updated <==> exists j :: 0 <= j < i && items[j].recordId == put.recordId
    {
      if items[i].recordId != put.recordId {
        list := list + [norm(items[i], clock(i + 1))];
        continue;
      }
      list := list + [put];
      updated := true;
    }
    if !updated { list := list + [put]; }
    assert list == Upserted(norm, items, next, clock);
    out := NormalizeRecords(norm, list, now);
  }

  function Lookup(items: seq<Record>, id: string): Option<Record> {
    if items == [] then None
    else if items[0].recordId == id then Some(items[0])
    else Lookup(items[1..], id)
  }

  lemma {:induction false} LookupFinds(items: seq<Record>, id: string)
    ensures Lookup(items, id).None? <==> forall i :: 0 <= i < |items| ==> items[i].recordId != id
    ensures Lookup(items, id).Some? ==> Lookup(items, id).value in items && Lookup(items, id).value.recordId == id
    ensures DistinctIds(items) ==> forall r :: r in items && r.recordId == id ==> Lookup(items, id) == Some(r)
  {
    if items != [] {
      LookupFinds(items[1..], id);
      forall r | r in items && r.recordId == id && DistinctIds(items) ensures Lookup(items, id) == Some(r) {
        var i :| 0 <= i < |items| && items[i] == r;
        if i > 0 { assert items[1..][i-1] == r; }
      }
      assert forall i :: 1 <= i < |items| ==> items[i] == items[1..][i-1];
    }
  }

  /** The raw update: replace the record of this id where it stands, or add it at the end. */
  function Put(items: seq<Record>, next: Record): seq<Record> {
    seq(|items|, i requires 0 <= i < |items| => if items[i].recordId != next.recordId then items[i] else next)
    + if exists i :: 0 <= i < |items| && items[i].recordId == next.recordId then [] else [next]
  }

  /** The clock readings inside the upsert do not matter, only the last one does. */
  lemma UpsertIsPut(norm: View, items: seq<Record>, next: Record, clock: nat -> Time, now: Time)
    requires AllKept(norm, items)
    ensures Viewed(norm, Upserted(norm, items, next, clock), now) == Viewed(norm, Put(items, norm(next, clock(0))), now)
  {
    var (a, b) := (Upserted(norm, items, next, clock), Put(items, norm(next, clock(0))));
    forall i | 0 <= i < |a| ensures |a| == |b| && norm(a[i], now) == norm(b[i], now) {
      assert i < |items| ==> Kept(norm, items[i]);
    }
  }

  lemma NormalizedDistinct(norm: View, items: seq<Record>, now: Time)
    requires AllSettled(norm, items) && DistinctOnceSeen(norm, items)
    ensures DistinctIds(NormalizedAt(norm, items, now))
  {
    NormalizedIs(norm, items, now);
    PermutedDistinct(Viewed(norm, items, now), NormalizedAt(norm, items, now));
  }

  lemma PermutedDistinct(a: seq<Record>, b: seq<Record>)
    requires DistinctIds(a) && multiset(a) == multiset(b)
    ensures DistinctIds(b)
  {
    forall i, j | 0 <= i < j < |b| && b[i].recordId == b[j].recordId ensures false {
      assert b[i] in multiset(a) && b[j] in multiset(a);
      assert b[i] in a && b[j] in a;
      assert b[i] == b[j];
      TwiceInMultiset(b, i, j);
      OnceInDistinct(a, b[i]);
    }
  }

  lemma TwiceInMultiset(s: seq<Record>, i: nat, j: nat)
    requires i < j < |s| && s[i] == s[j]
    ensures multiset(s)[s[i]] >= 2
  {
    assert s == s[..j] + [s[j]] + s[j+1..];
    assert s[i] in s[..j];
  }

  lemma {:induction false} OnceInDistinct(s: seq<Record>, r: Record)
    requires DistinctIds(s)
    ensures multiset(s)[r] <= 1
  {
    if s != [] {
      var n := |s| - 1;
      assert s == s[..n] + [s[n]];
      OnceInDistinct(s[..n], r);
      if s[n] == r { assert r !in s[..n]; }
    }
  }

  /** Once normalised, a record bears its id. */
  lemma SeenIsKept(norm: View, r: Record, t: Time)
    requires Settled(norm, r)
    ensures Kept(norm, norm(r, t)) && IdOf(norm, norm(r, t)) == IdOf(norm, r)
  {
    var s := norm(r, t);
    forall t1: Time ensures norm(s, t1) == norm(r, t1) { }
  }

  /** So every list that was normalised qualifies for an upsert. */
  lemma NormalizedKept(norm: View, items: seq<Record>, t: Time)
    requires AllSettled(norm, items)
    ensures AllKept(norm, NormalizedAt(norm, items, t))
  {
    var out := NormalizedAt(norm, items, t);
    forall k | 0 <= k < |out| ensures Kept(norm, out[k]) {
      NormalizedHas(norm, items, t, out[k]);
      var i :| 0 <= i < |items| && norm(items[i], t) == out[k];
      assert Settled(norm, items[i]);
      SeenIsKept(norm, items[i], t);
    }
  }

  /** Normalising changes no id, so looking up and normalising commute. */
  lemma NormalizedLookup(norm: View, items: seq<Record>, now: Time, id: string)
    requires AllKept(norm, items) && DistinctIds(items)
    ensures Lookup(NormalizedAt(norm, items, now), id) ==
            match Lookup(items, id) case None => None case Some(r) => Some(norm(r, now))
  {
    var out := NormalizedAt(norm, items, now);
    NormalizedDistinct(norm, items, now);
    LookupFinds(items, id);
    LookupFinds(out, id);
    forall r | r in out ensures exists i :: 0 <= i < |items| && items[i].recordId == r.recordId {
      NormalizedHas(norm, items, now, r);
      var i :| 0 <= i < |items| && norm(items[i], now) == r;
      assert Kept(norm, items[i]);
    }
    if Lookup(items, id).Some? {
      var r := Lookup(items, id).value;
      var i :| 0 <= i < |items| && items[i] == r;
      assert Kept(norm, items[i]);
      NormalizedHas(norm, items, now, norm(r, now));
    }
  }

  /** Upsert is an update of the map from ids to records, and leaves ids distinct and the list sorted. */
  lemma UpsertRefinesMap(norm: View, items: seq<Record>, next: Record, clock: nat -> Time, now: Time, id: string)
    requires AllKept(norm, items) && DistinctIds(items) && Settled(norm, next)
    ensures var out := NormalizedAt(norm, Upserted(norm, items, next, clock), now);
            && DistinctIds(out) && Sorting.Sorted(Order(), out)
            && Lookup(out, id) == if id == IdOf(norm, next) then Some(norm(next, now))
                                  else match Lookup(items, id) case None => None case Some(r) => Some(norm(r, now))
  {
    var put := norm(next, clock(0));
    SeenIsKept(norm, next, clock(0));
    UpsertIsPut(norm, items, next, clock, now);
    PutRefinesMap(norm, items, put, now, id);
    assert norm(put, now) == norm(next, now);
  }

  lemma PutRefinesMap(norm: View, items: seq<Record>, put: Record, now: Time, id: string)
    requires AllKept(norm, items) && DistinctIds(items) && Kept(norm, put)
    ensures var out := NormalizedAt(norm, Put(items, put), now);
            && DistinctIds(out) && Sorting.Sorted(Order(), out)
            && Lookup(out, id) == if id == put.recordId then Some(norm(put, now))
                                  else match Lookup(items, id) case None => None case Some(r) => Some(norm(r, now))
  {
    var all := Put(items, put);
    assert AllKept(norm, all);
    NormalizedDistinct(norm, all, now);
    NormalizedIs(norm, all, now);
    NormalizedLookup(norm, all, now, id);
    PutHas(items, put, id);
    LookupFinds(all, id);
    LookupFinds(items, id);
    if Lookup(items, id).Some? { assert Lookup(all, id).Some?; }
    if id == put.recordId { assert put in all; }
  }

  lemma PutHas(items: seq<Record>, next: Record, id: string)
    requires DistinctIds(items)
    ensures forall r :: r in Put(items, next) && r.recordId == id <==>
              if id == next.recordId then r == next else Lookup(items, id) == Some(r)
  {
    LookupFinds(items, id);
    var all := Put(items, next);
    forall r ensures r in all && r.recordId == id <==> if id == next.recordId then r == next else Lookup(items, id) == Some(r) {
      if id == next.recordId {
        if i :| 0 <= i < |items| && items[i].recordId == id { assert all[i] == next; } else { assert all[|items|] == next; }
      } else if Lookup(items, id) == Some(r) {
        var i :| 0 <= i < |items| && items[i] == r;
        assert all[i] == r;
      }
    }
  }

  // ----- the latest open record -----------------------------------------------------------------

  predicate Matches(env: Env, r: Record, actor: string, source: string, status: Status) {
    var (a, s) := (env.actor(actor), env.source(source));
    (a == "" || a == "*" || r.actor == a) && (s == "" || s == "*" || r.source == s) && r.status == status
  }

  /** What a search asks: the status, and the actor and source unless they are blank or the wildcard. */
  lemma MatchesWhen(env: Env, r: Record, actor: string, source: string, status: Status)
    ensures Matches(env, r, actor, source, status) ==> r.status == status
    ensures Matches(env, r, actor, source, status) && env.actor(actor) != "" && env.actor(actor) != "*" ==> r.actor == env.actor(actor)
    ensures Matches(env, r, actor, source, status) && env.source(source) != "" && env.source(source) != "*" ==> r.source == env.source(source)
    ensures r.status == status && (env.actor(actor) in {"", "*", r.actor}) && (env.source(source) in {"", "*", r.source}) ==>
              Matches(env, r, actor, source, status)
  {
  }

  /** The first match in the normalised list, with its position there. */
  function FirstMatch(env: Env, list: seq<Record>, actor: string, source: string, status: Status): (at: Option<nat>)
    ensures at.None? ==> forall i :: 0 <= i < |list| ==> !Matches(env, list[i], actor, source, status)
    ensures at.Some? ==> at.value < |list| && Matches(env, list[at.value], actor, source, status)
                         && forall i :: 0 <= i < at.value ==> !Matches(env, list[i], actor, source, status)
  {
    if list == [] then None
    else if Matches(env, list[0], actor, source, status) then Some(0)
    else
      var rest := FirstMatch(env, list[1..], actor, source, status);
      if rest.None? then None else Some(rest.value + 1)
  }

  /** latestContinuityRecord for one status, which is how the open-record search calls it. */
  method LatestRecord(env: Env, norm: View, items: seq<Record>, actor: string, source: string, status: Status, now: Time)
    returns (found: Option<Record>, at: int)
    requires FillsIds(norm)
    ensures var list := NormalizedAt(norm, items, now);
            match FirstMatch(env, list, actor, source, status)
            case None => found == None && at == -1
            case Some(first) => at == first && found == Some(list[first])
  {
    var list := NormalizeRecords(norm, items, now);
    var (a, s) := (env.actor(actor), env.source(source));
    for i := 0 to |list|
      invariant forall j :: 0 <= j < i ==> !Matches(env, list[j], actor, source, status)
    {
      if a != "" && a != "*" && list[i].actor != a { continue; }
      if s != "" && s != "*" && list[i].source != s { continue; }
      if list[i].status != status { continue; }
      return Some(list[i]), i;
    }
    return None, -1;
  }

  /** latestOpenContinuityRecord: an active record, or else a stale one, at two successive clock readings. */
  method LatestOpenRecord(env: Env, norm: View, items: seq<Record>, actor: string, source: string, now: Time, later: Time)
    returns (found: Option<Record>, at: int)
    requires FillsIds(norm)
    ensures found.Some? ==>
              || IsLatest(env, norm, items, actor, source, Active, now, found.value)
              || (NoneHas(env, norm, items, actor, source, Active, now)
                  && IsLatest(env, norm, items, actor, source, Stale, later, found.value))
    ensures found.None? ==>
              NoneHas(env, norm, items, actor, source, Active, now) && NoneHas(env, norm, items, actor, source, Stale, later)
    ensures if found.Some? then 0 <= at < |items| else at == -1
  {
    found, at := LatestRecord(env, norm, items, actor, source, Active, now);
    FirstMatchMeaning(env, norm, items, actor, source, Active, now);
    if found.Some? { return; }
    found, at := LatestRecord(env, norm, items, actor, source, Stale, later);
    FirstMatchMeaning(env, norm, items, actor, source, Stale, later);
  }

  /** Seen at `now`, `r` is a record of the list that matches, and no match was updated later. */
  ghost predicate IsLatest(env: Env, norm: View, items: seq<Record>, actor: string, source: string, status: Status, now: Time, r: Record) {
    && Matches(env, r, actor, source, status)
    && (exists i :: 0 <= i < |items| && norm(items[i], now) == r)
    && (forall i :: 0 <= i < |items| && Matches(env, norm(items[i], now), actor, source, status) ==>
          norm(items[i], now).updatedAt <= r.updatedAt)
  }

  ghost predicate NoneHas(env: Env, norm: View, items: seq<Record>, actor: string, source: string, status: Status, now: Time) {
    forall i :: 0 <= i < |items| ==> !Matches(env, norm(items[i], now), actor, source, status)
  }

  lemma FirstMatchMeaning(env: Env, norm: View, items: seq<Record>, actor: string, source: string, status: Status, now: Time)
    ensures var list := NormalizedAt(norm, items, now);
            && |list| == |items|
            && match FirstMatch(env, list, actor, source, status)
               case None => NoneHas(env, norm, items, actor, source, status, now)
               case Some(at) => IsLatest(env, norm, items, actor, source, status, now, list[at])
  {
    var list := NormalizedAt(norm, items, now);
    NormalizedIs(norm, items, now);
    var first := FirstMatch(env, list, actor, source, status);
    forall i | 0 <= i < |items| && Matches(env, norm(items[i], now), actor, source, status)
      ensures first.Some? && norm(items[i], now).updatedAt <= list[first.value].updatedAt
    {
      NormalizedHas(norm, items, now, norm(items[i], now));
      var j :| 0 <= j < |list| && list[j] == norm(items[i], now);
      assert first.Some? && first.value <= j;
      if first.value < j { assert !Order()(list[j], list[first.value]); }
    }
    if first.Some? { NormalizedHas(norm, items, now, list[first.value]); }
  }

  // ----- continuityStore ------------------------------------------------------------------------

  predicate ValidKind(kind: string) { kind == "note" || kind == "todo" || kind == "decision" || kind == "risk" }

  /** ContinuityRecord.Validate on a normalised record: what normalising does not already ensure. */
  predicate Validates(r: Record) {
    && r.focus != "" && r.createdAt != 0 && r.updatedAt != 0
    && forall i :: 0 <= i < |r.notes| ==> ValidKind(r.notes[i].kind) && r.notes[i].createdAt != 0
  }

  class ContinuityStore {
    const norm: View
    var items: seq<Record>

    constructor (norm: View, items: seq<Record>, now: Time)
      requires FillsIds(norm)
      ensures this.norm == norm && this.items == NormalizedAt(norm, items, now)
    {
      this.norm := norm;
      new;
      this.items := NormalizeRecords(norm, items, now);
    }

    method List(now: Time) returns (out: seq<Record>)
      requires FillsIds(norm)
      ensures out == NormalizedAt(norm, items, now)
    {
      out := NormalizeRecords(norm, items, now);
    }

    method Replace(next: seq<Record>, now: Time) returns (ok: bool)
      requires FillsIds(norm)
      modifies this
      ensures ok <==> forall r :: r in NormalizedAt(norm, next, now) ==> Validates(r)
      ensures ok ==> forall r, n :: r in NormalizedAt(norm, next, now) && n in r.notes ==> n.kind in {"note", "todo", "decision", "risk"}
      ensures ok ==> forall r :: r in NormalizedAt(norm, next, now) ==> r.focus != ""
      ensures items == if ok then NormalizedAt(norm, next, now) else old(items)
    {
      var normal := NormalizeRecords(norm, next, now);
      for i := 0 to |normal|
        invariant forall j :: 0 <= j < i ==> Validates(normal[j])
      {
        if !Validates(normal[i]) {
          assert normal[i] in normal;
          return false;
        }
      }
      items := normal;
      ok := true;
    }
  }
}
