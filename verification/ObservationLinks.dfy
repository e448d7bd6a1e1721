/**
Links between observations, internal/runtime/observation_link.go: observations are grouped by reference and by
semantic key through Go maps, and groups with the same members are merged into one link.
*/
module ObservationLinks {
  import opened Text
  import opened SortedSets
  import Sorting

  type Time = nat

  datatype Item = Item(id: string, channel: string, refs: seq<string>, capturedAt: Time, summary: string)

  datatype Kind = Ref | Semantic

  datatype GroupKey = GroupKey(kind: Kind, key: string)

  datatype Group = Group(observations: map<string, Item>, channels: set<string>, refs: set<string>,
                         latestSummary: string, latestAt: Time)

  datatype Link = Link(linkId: string, kind: Kind, summary: string, channels: seq<string>, refs: seq<string>,
                       count: nat, latestAt: Time)

  datatype Candidate = Candidate(fingerprint: string, link: Link)

  /** The parts of the derivation that the results do not depend on: which references link, the semantic key, and the printed id and summary. */
  datatype Rules = Rules(linkable: string -> bool, semanticKey: Item -> string,
                         linkId: (Kind, string, seq<string>) -> string, summary: (string, nat) -> string)

  /** What normalizeObservationRecord gives: trimmed, distinct references, a capture time and an id without the separator. */
  ghost predicate Normal(i: Item) {
    Tidy(i.refs) && i.capturedAt != 0 && i.id != "" && '|' !in i.id
  }

  // ----- groups ---------------------------------------------------------------------------------

  const EMPTY := Group(map[], {}, {}, "", 0)

  function Joined(g: Group, item: Item): Group {
    var later := item.capturedAt > g.latestAt || g.latestAt == 0;
    Group(g.observations[item.id := item], g.channels + {item.channel},
          g.refs + (set r | r in item.refs && TrimSpace(r) != "" :: TrimSpace(r)),
          if later then TrimSpace(item.summary) else g.latestSummary,
          if later then item.capturedAt else g.latestAt)
  }

  /** The group a list of members makes, joined one by one. */
  function GroupOf(members: seq<Item>): Group {
    if members == [] then EMPTY else Joined(GroupOf(members[..|members|-1]), members[|members|-1])
  }

  type Groups = map<GroupKey, Group>

  function Added(groups: Groups, k: GroupKey, item: Item): Groups {
    if k.key == "" then groups
    else groups[k := Joined(if k in groups then groups[k] else EMPTY, item)]
  }

  /** The groups an item is added to: one for every linkable reference, and the one of its semantic key. */
  function KeysOf(rules: Rules, item: Item): seq<GroupKey> {
    RefKeys(rules, item.refs) + [GroupKey(Semantic, TrimSpace(rules.semanticKey(item)))]
  }

  function RefKeys(rules: Rules, refs: seq<string>): seq<GroupKey> {
    if refs == [] then [] else
      var last := refs[|refs|-1];
      RefKeys(rules, refs[..|refs|-1]) + if rules.linkable(last) then [GroupKey(Ref, TrimSpace(last))] else []
  }

  function AddedAll(groups: Groups, keys: seq<GroupKey>, item: Item): Groups {
    if keys == [] then groups else Added(AddedAll(groups, keys[..|keys|-1], item), keys[|keys|-1], item)
  }

  lemma RefKeysSnoc(rules: Rules, refs: seq<string>, ref: string)
    ensures RefKeys(rules, refs + [ref]) == RefKeys(rules, refs) + if rules.linkable(ref) then [GroupKey(Ref, TrimSpace(ref))] else []
  {
    assert (refs + [ref])[..|refs|] == refs;
  }

  lemma AddedAllSnoc(groups: Groups, keys: seq<GroupKey>, key: GroupKey, item: Item)
    ensures AddedAll(groups, keys + [key], item) == Added(AddedAll(groups, keys, item), key, item)
  {
    assert (keys + [key])[..|keys|] == keys;
  }

  function Grouped(rules: Rules, items: seq<Item>): Groups {
    if items == [] then map[]
    else AddedAll(Grouped(rules, items[..|items|-1]), KeysOf(rules, items[|items|-1]), items[|items|-1])
  }

  // ----- candidates -----------------------------------------------------------------------------

  function Ids(g: Group): set<string> { g.observations.Keys }

  ghost function Fingerprint(ids: set<string>): string { Join(Listed(ids), '|') }

  function NonBlank(s: set<string>): set<string> { set x | x in s && TrimSpace(x) != "" }

  function BaseSummary(k: GroupKey, g: Group): string {
    if TrimSpace(g.latestSummary) == "" then k.key else TrimSpace(g.latestSummary)
  }

  ghost function CandidateOf(rules: Rules, k: GroupKey, g: Group): Candidate {
    Candidate(Fingerprint(Ids(g)),
              Link(rules.linkId(k.kind, k.key, Listed(Ids(g))), k.kind, rules.summary(BaseSummary(k, g), |Ids(g)|),
                   Listed(NonBlank(g.channels)), Listed(NonBlank(g.refs)), |Ids(g)|, g.latestAt))
  }

  /** preferObservationLinkCandidate. */
  predicate Prefers(next: Candidate, current: Candidate) {
    if next.link.kind != current.link.kind then next.link.kind == Ref
    else if next.link.count != current.link.count then next.link.count > current.link.count
    else if |next.link.channels| != |current.link.channels| then |next.link.channels| > |current.link.channels|
    else next.link.latestAt > current.link.latestAt
  }

  predicate LinkBefore(a: Link, b: Link) {
    if a.count != b.count then a.count > b.count
    else if |a.channels| != |b.channels| then |a.channels| > |b.channels|
    else if a.latestAt != b.latestAt then a.latestAt > b.latestAt
    else Less(a.linkId, b.linkId)
  }

  function ByLink(): (Candidate, Candidate) -> bool { (a: Candidate, b: Candidate) => LinkBefore(a.link, b.link) }

  type Candidates = map<GroupKey, Candidate>

  /** The candidates of the groups with two members or more. */
  ghost predicate CandidatesOf(rules: Rules, groups: Groups, cands: Candidates) {
    && (forall k :: k in cands <==> k in groups && |Ids(groups[k])| >= 2)
    && (forall k :: k in cands ==> cands[k] == CandidateOf(rules, k, groups[k]))
  }

  /** One candidate for each fingerprint among those walked, of a reference group if there is one. */
  ghost predicate Chosen(cands: Candidates, walked: set<GroupKey>, chosen: map<string, Candidate>) {
    && (forall f :: f in chosen ==> chosen[f].fingerprint == f && exists k :: k in cands && k in walked && cands[k] == chosen[f])
    && (forall k :: k in cands && k in walked ==>
          (cands[k].fingerprint in chosen && (cands[k].link.kind == Ref ==> chosen[cands[k].fingerprint].link.kind == Ref)))
  }

  /** The derivation, over the map of groups that it fills in place. */
  class LinkDeriver {
    const rules: Rules
    var groups: Groups

    constructor (rules: Rules)
      ensures this.rules == rules && groups == map[]
    {
      this.rules, groups := rules, map[];
    }

    method AddGroup(kind: Kind, rawKey: string, item: Item)
      modifies this
      ensures groups == Added(old(groups), GroupKey(kind, TrimSpace(rawKey)), item)
    {
      var key := TrimSpace(rawKey);
      if key == "" { return; }
      var k := GroupKey(kind, key);
      var g := if k in groups then groups[k] else EMPTY;
      var refs := g.refs;
      for i := 0 to |item.refs|
        invariant refs == g.refs + (set r | r in item.refs[..i] && TrimSpace(r) != "" :: TrimSpace(r))
      {
        assert item.refs[..i+1] == item.refs[..i] + [item.refs[i]];
        var ref := TrimSpace(item.refs[i]);
        if ref == "" { continue; }
        refs := refs + {ref};
      }
      assert item.refs[..|item.refs|] == item.refs;
      g := g.(observations := g.observations[item.id := item], channels := g.channels + {item.channel}, refs := refs);
      if item.capturedAt > g.latestAt || g.latestAt == 0 {
        g := g.(latestAt := item.capturedAt, latestSummary := TrimSpace(item.summary));
      }
      groups := groups[k := g];
    }

    method Collect(items: seq<Item>)
      requires groups == map[]
      modifies this
      ensures groups == Grouped(rules, items)
    {
      for n := 0 to |items|
        invariant groups == Grouped(rules, items[..n])
      {
        assert items[..n+1][..n] == items[..n];
        CollectOne(items[n]);
      }
      assert items[..|items|] == items;
    }

    method CollectOne(item: Item)
      modifies this
      ensures groups == AddedAll(old(groups), KeysOf(rules, item), item)
    {
      for i := 0 to |item.refs|
        invariant groups == AddedAll(old(groups), RefKeys(rules, item.refs[..i]), item)
      {
        assert item.refs[..i+1] == item.refs[..i] + [item.refs[i]];
        ghost var keys := RefKeys(rules, item.refs[..i]);
        RefKeysSnoc(rules, item.refs[..i], item.refs[i]);
        assert keys + [] == keys;
        if !rules.linkable(item.refs[i]) { continue; }
        AddedAllSnoc(old(groups), keys, GroupKey(Ref, TrimSpace(item.refs[i])), item);
        AddGroup(Ref, item.refs[i], item);
      }
      assert item.refs[..|item.refs|] == item.refs;
      AddedAllSnoc(old(groups), RefKeys(rules, item.refs), GroupKey(Semantic, TrimSpace(rules.semanticKey(item))), item);
      AddGroup(Semantic, rules.semanticKey(item), item);
    }

    method Candidacy(k: GroupKey) returns (c: Candidate)
      requires k in groups
      ensures c == CandidateOf(rules, k, groups[k])
    {
      var g := groups[k];
      var ids := ToSorted(g.observations.Keys);
      var channels := ToSorted(NonBlank(g.channels));
      var refs := ToSorted(NonBlank(g.refs));
      ListedIs(Ids(g));
      var base := if TrimSpace(g.latestSummary) == "" then k.key else TrimSpace(g.latestSummary);
      c := Candidate(Join(ids, '|'),
                     Link(rules.linkId(k.kind, k.key, ids), k.kind, rules.summary(base, |ids|), channels, refs, |ids|, g.latestAt));
    }

    method Candidacies() returns (cands: Candidates)
      ensures CandidatesOf(rules, groups, cands)
    {
      cands := map[];
      var unseen := groups.Keys;
      while unseen != {}
        invariant unseen <= groups.Keys
        invariant forall k :: k in cands <==> k in groups && k !in unseen && |Ids(groups[k])| >= 2
        invariant forall k :: k in cands ==> cands[k] == CandidateOf(rules, k, groups[k])
        decreases unseen
      {
        var k :| k in unseen;
        unseen := unseen - {k};
        if |groups[k].observations| < 2 { continue; }
        var c := Candidacy(k);
        cands := cands[k := c];
      }
    }
  }

  /** The merge by fingerprint, whatever order the groups come in. */
  method Merge(cands: Candidates) returns (chosen: map<string, Candidate>)
    ensures Chosen(cands, cands.Keys, chosen)
  {
    chosen := map[];
    var unseen := cands.Keys;
    while unseen != {}
      invariant unseen <= cands.Keys
      invariant Chosen(cands, cands.Keys - unseen, chosen)
      decreases unseen
    {
      var k :| k in unseen;
      var c := cands[k];
      assert cands.Keys - (unseen - {k}) == cands.Keys - unseen + {k};
      unseen := unseen - {k};
      if c.fingerprint in chosen {
        if Prefers(c, chosen[c.fingerprint]) {
          chosen := chosen[c.fingerprint := c];
        }
        continue;
      }
      chosen := chosen[c.fingerprint := c];
    }
    assert cands.Keys - {} == cands.Keys;
  }

  /** The values of the merged map, in any order, sorted for display. */
  method Arrange(chosen: map<string, Candidate>) returns (out: seq<Candidate>)
    requires forall f :: f in chosen ==> chosen[f].fingerprint == f
    ensures Sorting.Sorted(ByLink(), out)
    ensures Lists(chosen, out)
  {
    var walked: seq<Candidate> := [];
    var unseen := chosen.Keys;
    while unseen != {}
      invariant unseen <= chosen.Keys
      invariant forall c :: c in walked <==> exists f :: f in chosen && f !in unseen && chosen[f] == c
      invariant Distinct(walked)
      decreases unseen
    {
      var f :| f in unseen;
      forall i | 0 <= i < |walked| ensures walked[i] != chosen[f] {
        assert walked[i] in walked;
        assert walked[i].fingerprint !in unseen;
      }
      unseen := unseen - {f};
      walked := walked + [chosen[f]];
    }
    ByLinkIsWeak();
    Sorting.SortSorts(ByLink(), walked);
    out := Sorting.Sort(ByLink(), walked);
    DistinctPermutes(walked, out);
  }

  ghost predicate Distinct<T>(s: seq<T>) { forall i, j :: 0 <= i < j < |s| ==> s[i] != s[j] }

  /** Every value once. */
  ghost predicate Lists(chosen: map<string, Candidate>, out: seq<Candidate>) {
    Distinct(out) && forall c :: c in out <==> exists f :: f in chosen && chosen[f] == c
  }

  lemma {:induction false} DistinctOnce<T>(s: seq<T>, x: T)
    requires Distinct(s)
    ensures multiset(s)[x] <= 1
  {
    if s != [] {
      var n := |s| - 1;
      assert s == s[..n] + [s[n]];
      DistinctOnce(s[..n], x);
      assert x in multiset(s[..n]) <==> x in s[..n];
    }
  }

  lemma DistinctPermutes<T>(a: seq<T>, b: seq<T>)
    requires Distinct(a) && multiset(a) == multiset(b)
    ensures Distinct(b) && forall x :: x in b <==> x in a
  {
    forall i, j | 0 <= i < j < |b| ensures b[i] != b[j] {
      DistinctOnce(a, b[j]);
      assert b == b[..j] + [b[j]] + b[j+1..];
      assert b[i] in b[..j];
    }
    forall x ensures x in b <==> x in a { assert x in b <==> x in multiset(b); assert x in a <==> x in multiset(a); }
  }

  lemma LinkBeforeLaws(a: Link, b: Link, c: Link)
    ensures LinkBefore(a, b) ==> !LinkBefore(b, a)
    ensures !LinkBefore(b, a) && !LinkBefore(c, b) ==> !LinkBefore(c, a)
  {
    LessTotal(a.linkId, b.linkId);
    LessTotal(b.linkId, c.linkId);
    LessTotal(a.linkId, c.linkId);
    if Less(c.linkId, a.linkId) && Less(a.linkId, b.linkId) { LessTransitive(c.linkId, a.linkId, b.linkId); }
  }

  lemma ByLinkIsWeak()
    ensures Sorting.WeakOrder(ByLink())
  {
    forall a, b ensures ByLink()(a, b) ==> !ByLink()(b, a) { LinkBeforeLaws(a.link, b.link, b.link); }
    forall a, b, c ensures !ByLink()(b, a) && !ByLink()(c, b) ==> !ByLink()(c, a) { LinkBeforeLaws(a.link, b.link, c.link); }
  }
}
