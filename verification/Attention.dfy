/** The ranking of source-intake items and the cascade that picks one, internal/api/source_intake_attention.go. */
module Attention {
  import opened Text
  import Sorting

  datatype Route = Route(source: string, decision: string)
  datatype Lane = Lane(channel: string, draftObservationId: string)
  datatype Item = Item(id: string, policyColor: string, prepLane: Option<Lane>, draftSeeds: seq<string>, disposition: string,
                       route: Option<Route>, priority: int, capturedAt: nat)

  /** The modes, each standing for the string of its name. */
  datatype Mode = DropSource | ReviewPolicy | MonitorPrepLane | OpenThreadsPrep | ReviewRoute | PrepCandidate

  datatype View = View(mode: Mode, ref: string, sourceId: string, draftId: string)

  predicate ByFeedSensor(i: Item) { i.route.Some? && i.route.value.source == "feed_sensor" }

  function Rank(i: Item): int {
    if i.policyColor == "red" then 900
    else if i.prepLane.Some? then 860
    else if |i.draftSeeds| > 0 then 820
    else if i.disposition == "review" then 780
    else if i.disposition == "prep" then 720
    else if ByFeedSensor(i) then 680
    else if i.route.Some? && TrimSpace(i.route.value.decision) != "" then 640
    else 600
  }

  predicate Before(a: Item, b: Item) {
    if Rank(a) != Rank(b) then Rank(a) > Rank(b)
    else if a.priority != b.priority then a.priority > b.priority
    else if a.capturedAt != b.capturedAt then a.capturedAt > b.capturedAt
    else Less(b.id, a.id)
  }

  function Order(): (Item, Item) -> bool { (a: Item, b: Item) => Before(a, b) }

  /** sortSourceIntakeViewItems. */
  function Sorted(items: seq<Item>): seq<Item> { Sorting.Sort(Order(), items) }

  // ----- the cascade ----------------------------------------------------------------------------

  function First(items: seq<Item>, p: Item -> bool): (r: Option<Item>)
    ensures r.None? <==> forall i :: 0 <= i < |items| ==> !p(items[i])
    ensures r.Some? ==> exists i :: 0 <= i < |items| && items[i] == r.value && p(r.value) && forall j :: 0 <= j < i ==> !p(items[j])
  {
    if items == [] then None else if p(items[0]) then Some(items[0]) else First(items[1..], p)
  }

  /** Which scan found the item; the scans are made in this order. */
  datatype Scan = Red | FeedLane | AnyLane | FeedDraft | AnyDraft | Review | Feed | Prep | Latest

  function Passes(s: Scan): Item -> bool {
    match s
    case Red => (i: Item) => i.policyColor == "red"
    case FeedLane => (i: Item) => i.prepLane.Some? && ByFeedSensor(i)
    case AnyLane => (i: Item) => i.prepLane.Some?
    case FeedDraft => (i: Item) => |i.draftSeeds| > 0 && ByFeedSensor(i)
    case AnyDraft => (i: Item) => |i.draftSeeds| > 0
    case Review => (i: Item) => i.disposition == "review"
    case Feed => (i: Item) => ByFeedSensor(i)
    case Prep => (i: Item) => i.disposition == "prep"
    case Latest => (i: Item) => true
  }

  const SCANS := [Red, FeedLane, AnyLane, FeedDraft, AnyDraft, Review, Feed, Prep, Latest]

  /** The first scan that finds an item, and the item it finds. */
  function Scanned(items: seq<Item>, scans: seq<Scan>): Option<(Scan, Item)> {
    if scans == [] then None
    else
      var found := First(items, Passes(scans[0]));
      if found.Some? then Some((scans[0], found.value)) else Scanned(items, scans[1..])
  }

  function ViewOf(scan: Scan, i: Item): View {
    match scan
    case Red => View(ReviewPolicy, "observation:" + i.id, i.id, "")
    case FeedLane => LaneView(i)
    case AnyLane => LaneView(i)
    case FeedDraft => DraftView(i)
    case AnyDraft => DraftView(i)
    case Review => View(ReviewPolicy, "observation:" + i.id, i.id, "")
    case Feed => View(ReviewRoute, "observation:" + i.id, i.id, "")
    case Prep => View(PrepCandidate, "observation:" + i.id, i.id, "")
    case Latest => View(ReviewRoute, "observation:" + i.id, i.id, "")
  }

  function LaneView(i: Item): View {
    if i.prepLane.None? then View(MonitorPrepLane, "", i.id, "")
    else View(MonitorPrepLane, "prep:" + i.prepLane.value.channel, i.id, i.prepLane.value.draftObservationId)
  }

  function DraftView(i: Item): View {
    if i.draftSeeds == [] then View(OpenThreadsPrep, "", i.id, "")
    else View(OpenThreadsPrep, "observation:" + i.draftSeeds[0], i.id, i.draftSeeds[0])
  }

  /** The last scan takes any item, so one is found. */
  lemma {:induction false} SomeScanFinds(items: seq<Item>, scans: seq<Scan>)
    requires items != [] && Latest in scans
    ensures Scanned(items, scans).Some?
  {
    if Passes(scans[0])(items[0]) {
    } else {
      assert scans[0] != Latest;
      SomeScanFinds(items, scans[1..]);
    }
  }

  function Found(items: seq<Item>): (Scan, Item)
    requires items != []
  {
    assert SCANS[8] == Latest;
    SomeScanFinds(items, SCANS);
    Scanned(items, SCANS).value
  }

  /** summarizeSourceIntakeViewAttention. */
  function Summarize(items: seq<Item>): View {
    if items == [] then View(DropSource, "", "", "") else ViewOf(Found(items).0, Found(items).1)
  }

  // ----- laws of the order ----------------------------------------------------------------------

  lemma BeforeLaws(a: Item, b: Item, c: Item)
    ensures Before(a, b) ==> !Before(b, a)
    ensures !Before(b, a) && !Before(c, b) ==> !Before(c, a)
    ensures a.id != b.id ==> Before(a, b) || Before(b, a)
  {
    LessTotal(a.id, b.id);
    LessTotal(b.id, c.id);
    LessTotal(a.id, c.id);
    if Less(a.id, c.id) && Less(b.id, a.id) { LessTransitive(b.id, a.id, c.id); }
  }

  lemma OrderIsWeak()
    ensures Sorting.WeakOrder(Order())
  {
    forall a, b ensures Order()(a, b) ==> !Order()(b, a) { BeforeLaws(a, b, b); }
    forall a, b, c ensures !Order()(b, a) && !Order()(c, b) ==> !Order()(c, a) { BeforeLaws(a, b, c); }
  }

  ghost predicate DistinctIds(items: seq<Item>) {
    forall a, b :: a in items && b in items && a != b ==> a.id != b.id
  }

  /** The list is a permutation by falling rank; ties keep their order. */
  lemma SortRanks(items: seq<Item>, x: Item)
    ensures multiset(Sorted(items)) == multiset(items) && |Sorted(items)| == |items|
    ensures forall i, j :: 0 <= i < j < |items| ==> Rank(Sorted(items)[i]) >= Rank(Sorted(items)[j])
    ensures Sorting.Ties(Order(), Sorted(items), x) == Sorting.Ties(Order(), items, x)
  {
    OrderIsWeak();
    Sorting.SortSorts(Order(), items);
    Sorting.SortStable(Order(), items, x);
    assert |Sorted(items)| == |multiset(Sorted(items))| == |multiset(items)|;
    forall i, j | 0 <= i < j < |items| ensures Rank(Sorted(items)[i]) >= Rank(Sorted(items)[j]) {
      assert !Order()(Sorted(items)[j], Sorted(items)[i]);
    }
  }

  /** The keys of the order: rank, priority and capture time fall, and then the id. */
  lemma SortOrders(items: seq<Item>, i: nat, j: nat)
    requires i < j < |items|
    ensures |Sorted(items)| == |items|
    ensures var (a, b) := (Sorted(items)[i], Sorted(items)[j]);
            && Rank(a) >= Rank(b)
            && (Rank(a) == Rank(b) ==> a.priority >= b.priority)
            && (Rank(a) == Rank(b) && a.priority == b.priority ==> a.capturedAt >= b.capturedAt)
            && (Rank(a) == Rank(b) && a.priority == b.priority && a.capturedAt == b.capturedAt ==> a.id == b.id || Less(b.id, a.id))
  {
    OrderIsWeak();
    Sorting.SortSorts(Order(), items);
    assert |Sorted(items)| == |multiset(Sorted(items))| == |multiset(items)|;
    var (a, b) := (Sorted(items)[i], Sorted(items)[j]);
    assert !Order()(b, a);
    LessTotal(a.id, b.id);
  }

  /** What is left for the two lowest ranks: a decision that is not blank, or nothing at all. */
  lemma LowRanks(i: Item)
    ensures Rank(i) in {900, 860, 820, 780, 720, 680, 640, 600}
    ensures Rank(i) < 680 <==>
              && i.policyColor != "red" && i.prepLane.None? && i.draftSeeds == [] && i.disposition != "review" && i.disposition != "prep"
              && (i.route.Some? ==> i.route.value.source != "feed_sensor")
    ensures Rank(i) < 680 ==> (Rank(i) == 640 <==> i.route.Some? && TrimSpace(i.route.value.decision) != "")
  {
  }

  /** With distinct ids the order of the input shows neither in the list nor in what is picked from it. */
  lemma InputOrderDoesNotShow(items: seq<Item>, others: seq<Item>)
    requires DistinctIds(items) && multiset(items) == multiset(others)
    ensures Sorted(items) == Sorted(others) && Summarize(Sorted(items)) == Summarize(Sorted(others))
  {
    OrderIsWeak();
    forall a, b | a in items && b in items && a != b ensures Order()(a, b) || Order()(b, a) { BeforeLaws(a, b, b); }
    Sorting.SortForgetsOrder(Order(), items, others);
  }

  // ----- the cascade and the rank ---------------------------------------------------------------

  ghost predicate ByRank(items: seq<Item>) {
    forall i, j :: 0 <= i < j < |items| ==> Rank(items[i]) >= Rank(items[j])
  }

  /** The sensor opened something, but nothing that is to be prepared. */
  ghost predicate FeedOvertakes(items: seq<Item>) {
    && (exists i :: 0 <= i < |items| && ByFeedSensor(items[i]))
    && (forall i :: 0 <= i < |items| && ByFeedSensor(items[i]) ==> items[i].disposition != "prep")
  }

  /** What the scans see, one after the other. */
  lemma FoundIs(items: seq<Item>)
    requires items != []
    ensures var (scan, item) := Found(items);
            First(items, Passes(scan)) == Some(item)
            && forall s :: s in SCANS && Earlier(s, scan) ==> First(items, Passes(s)).None?
  {
    ScannedIs(items, SCANS);
  }

  predicate Earlier(s: Scan, t: Scan) { Place(s) < Place(t) }

  function Place(s: Scan): nat {
    match s
    case Red => 0 case FeedLane => 1 case AnyLane => 2 case FeedDraft => 3 case AnyDraft => 4
    case Review => 5 case Feed => 6 case Prep => 7 case Latest => 8
  }

  lemma {:induction false} ScannedIs(items: seq<Item>, scans: seq<Scan>)
    requires items != [] && Latest in scans
    requires forall i, j :: 0 <= i < j < |scans| ==> Earlier(scans[i], scans[j])
    ensures Scanned(items, scans).Some?
    ensures var (scan, item) := Scanned(items, scans).value;
            scan in scans && First(items, Passes(scan)) == Some(item)
            && forall s :: s in scans && Earlier(s, scan) ==> First(items, Passes(s)).None?
  {
    SomeScanFinds(items, scans);
    if First(items, Passes(scans[0])).None? {
      assert !Passes(scans[0])(items[0]);
      ScannedIs(items, scans[1..]);
      assert forall s :: s in scans ==> s == scans[0] || s in scans[1..];
    } else {
      forall s | s in scans ensures !Earlier(s, scans[0]) { }
    }
  }

  /** A scan made before the one that found passes over every item. */
  lemma ScanPassed(items: seq<Item>, s: Scan, i: nat)
    requires items != [] && i < |items| && Earlier(s, Found(items).0)
    ensures !Passes(s)(items[i])
  {
    FoundIs(items);
    InScans();
  }

  /** What those scans say of every item, as far as its rank shows it. */
  ghost predicate Left(n: nat, i: Item) {
    && (n > 0 ==> Rank(i) < 900)
    && (n > 2 ==> Rank(i) < 860)
    && (n > 4 ==> Rank(i) < 820)
    && (n > 5 ==> Rank(i) < 780)
    && (n > 6 ==> !ByFeedSensor(i))
    && (n > 7 ==> Rank(i) < 680)
  }

  lemma ScansLeave(items: seq<Item>, i: nat)
    requires items != [] && i < |items|
    ensures Left(Place(Found(items).0), items[i])
  {
    var n := Place(Found(items).0);
    if n > 0 { ScanPassed(items, Red, i); }
    if n > 2 { ScanPassed(items, AnyLane, i); }
    if n > 4 { ScanPassed(items, AnyDraft, i); }
    if n > 5 { ScanPassed(items, Review, i); }
    if n > 6 { ScanPassed(items, Feed, i); }
    if n > 7 { ScanPassed(items, Prep, i); }
    RankLeft(n, items[i]);
  }

  lemma RankLeft(n: nat, i: Item)
    requires (n > 0 ==> !Passes(Red)(i)) && (n > 2 ==> !Passes(AnyLane)(i)) && (n > 4 ==> !Passes(AnyDraft)(i))
    requires (n > 5 ==> !Passes(Review)(i)) && (n > 6 ==> !Passes(Feed)(i)) && (n > 7 ==> !Passes(Prep)(i))
    ensures Left(n, i)
  {
  }

  lemma InScans()
    ensures forall s: Scan :: s in SCANS
  {
    forall s: Scan ensures s in SCANS { assert SCANS[Place(s)] == s; }
  }

  /** The rank that the scan itself shows, when the scans before it found nothing. */
  ghost predicate Shows(scan: Scan, i: Item) {
    match scan
    case Red => Rank(i) == 900
    case FeedLane => Rank(i) == 860
    case AnyLane => Rank(i) == 860
    case FeedDraft => Rank(i) == 820
    case AnyDraft => Rank(i) == 820
    case Review => Rank(i) == 780
    case Feed => ByFeedSensor(i) && Rank(i) == if i.disposition == "prep" then 720 else 680
    case Prep => Rank(i) == 720
    case Latest => Rank(i) < 680
  }

  lemma PassShows(scan: Scan, i: Item)
    requires Passes(scan)(i) && Left(Place(scan), i)
    ensures Shows(scan, i)
  {
  }

  lemma FoundRank(items: seq<Item>) returns (at: nat)
    requires items != []
    ensures at < |items| && items[at] == Found(items).1 && Shows(Found(items).0, items[at])
    ensures Passes(Found(items).0)(items[at]) && forall j :: 0 <= j < at ==> !Passes(Found(items).0)(items[j])
    ensures Found(items).0 == Latest ==> at == 0
  {
    FoundIs(items);
    var (scan, item) := Found(items);
    at :| 0 <= at < |items| && items[at] == item && Passes(scan)(item) && forall j :: 0 <= j < at ==> !Passes(scan)(items[j]);
    ScansLeave(items, at);
    PassShows(scan, item);
    assert Passes(Latest)(items[0]);
  }

  /**
  On a list by falling rank, the item picked has the highest rank, with exactly one exception: items to be
  prepared lead, the sensor opened others, and it opened none of the former.
  */
  lemma PickedRankIff(items: seq<Item>)
    requires items != [] && ByRank(items)
    ensures Rank(Found(items).1) == Rank(items[0]) <==> !(Rank(items[0]) == 720 && FeedOvertakes(items))
    ensures Rank(Found(items).1) != Rank(items[0]) ==> Rank(Found(items).1) == 680
  {
    var at := FoundRank(items);
    ScansLeave(items, 0);
    assert Rank(items[at]) <= Rank(items[0]);
    if Found(items).0 == Feed { FeedFirst(items, at); }
    if FeedOvertakes(items) {
      var j :| 0 <= j < |items| && ByFeedSensor(items[j]);
      ScansLeave(items, j);
    }
  }

  /** The exception occurs: an item to be prepared leads, and the sensor opened another. */
  lemma ExceptionOccurs()
    ensures var (first, second) := (Item("b", "", None, [], "prep", None, 0, 0),
                                    Item("a", "", None, [], "", Some(Route("feed_sensor", "")), 0, 0));
            ByRank([first, second]) && Rank(first) == 720 && Found([first, second]).1 == second && Rank(second) == 680
  {
    var (first, second) := (Item("b", "", None, [], "prep", None, 0, 0),
                            Item("a", "", None, [], "", Some(Route("feed_sensor", "")), 0, 0));
    var items := [first, second];
    PickedRankIff(items);
    assert ByFeedSensor(items[1]);
    assert FeedOvertakes(items);
    var at := FoundRank(items);
    assert items[0] == first && items[1] == second;
  }

  /** When the scan for sensor routes finds, it finds one to be prepared if any such is there. */
  lemma FeedFirst(items: seq<Item>, at: nat)
    requires items != [] && ByRank(items) && Found(items).0 == Feed
    requires at < |items| && Shows(Feed, items[at]) && forall j :: 0 <= j < at ==> !Passes(Feed)(items[j])
    ensures items[at].disposition == "prep" <==> !FeedOvertakes(items)
  {
    forall j | 0 <= j < |items| && ByFeedSensor(items[j]) && items[j].disposition == "prep" ensures items[at].disposition == "prep" {
      ScansLeave(items, j);
      assert Rank(items[j]) == 720;
      assert Passes(Feed)(items[j]);
      assert at <= j && Rank(items[at]) >= 720;
    }
  }

  /**
  Among items of the rank picked, one from a lane or draft that the sensor opened goes first, and else the first in
  the list.
  */
  lemma PickIsFirst(items: seq<Item>) returns (at: nat)
    requires items != []
    ensures at < |items| && items[at] == Found(items).1
    ensures forall j :: 0 <= j < at && Rank(items[j]) == Rank(items[at]) ==> ByFeedSensor(items[j]) != ByFeedSensor(items[at])
    ensures Rank(items[at]) in {860, 820} && (exists j :: 0 <= j < |items| && Rank(items[j]) == Rank(items[at]) && ByFeedSensor(items[j])) ==>
              ByFeedSensor(items[at])
  {
    at := FoundRank(items);
    var scan := Found(items).0;
    forall j | 0 <= j < |items| && Rank(items[j]) == Rank(items[at]) && ByFeedSensor(items[j]) && Rank(items[at]) in {860, 820}
      ensures ByFeedSensor(items[at])
    {
      if scan == AnyLane { ScanPassed(items, FeedLane, j); }
      if scan == AnyDraft { ScanPassed(items, FeedDraft, j); }
    }
  }

  /** What the view says of the item picked: whose it is, and by its mode in which band its rank lies. */
  lemma ViewTells(items: seq<Item>)
    requires items != []
    ensures var (item, view) := (Found(items).1, Summarize(items));
            && item in items && view.sourceId == item.id
            && (view.mode == ReviewPolicy <==> Rank(item) == 900 || Rank(item) == 780)
            && (view.mode == MonitorPrepLane <==> Rank(item) == 860)
            && (view.mode == OpenThreadsPrep <==> Rank(item) == 820)
            && (view.mode == PrepCandidate <==> Rank(item) == 720 && !ByFeedSensor(item))
            && (view.mode == ReviewRoute <==> Rank(item) < 720 || (Rank(item) == 720 && ByFeedSensor(item)))
    ensures var (item, view) := (Found(items).1, Summarize(items));
            && (view.mode == MonitorPrepLane ==> item.prepLane.Some? && view.ref == "prep:" + item.prepLane.value.channel
                                                 && view.draftId == item.prepLane.value.draftObservationId)
            && (view.mode == OpenThreadsPrep ==> item.draftSeeds != [] && view.ref == "observation:" + item.draftSeeds[0]
                                                 && view.draftId == item.draftSeeds[0])
            && (view.mode != MonitorPrepLane && view.mode != OpenThreadsPrep ==> view.ref == "observation:" + item.id && view.draftId == "")
  {
    var at := FoundRank(items);
    assert items[at] in items;
    ScansLeave(items, at);
  }
}
