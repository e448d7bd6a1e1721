/** What deriveObservationLinks gives for a list of observations, whatever order Go walks its maps in. */
module ObservationLinkLaws {
  import opened Text
  import opened SortedSets
  import opened ObservationLinks
  import Sorting

  ghost predicate DistinctIds(items: seq<Item>) {
    forall i, j :: 0 <= i < j < |items| ==> items[i].id != items[j].id
  }

  ghost predicate AllNormal(items: seq<Item>) { forall i :: 0 <= i < |items| ==> Normal(items[i]) }

  ghost predicate HasLinkable(rules: Rules, refs: seq<string>, v: string) {
    exists i :: 0 <= i < |refs| && rules.linkable(refs[i]) && TrimSpace(refs[i]) == v
  }

  /** An observation has the key: a linkable reference that trims to it, or it is its trimmed semantic key. */
  ghost predicate Shares(rules: Rules, item: Item, k: GroupKey) {
    k.key != "" && if k.kind.Ref? then HasLinkable(rules, item.refs, k.key) else TrimSpace(rules.semanticKey(item)) == k.key
  }

  lemma {:induction false} RefKeysAre(rules: Rules, refs: seq<string>, k: GroupKey)
    ensures k in RefKeys(rules, refs) <==> k.kind.Ref? && HasLinkable(rules, refs, k.key)
  {
    if refs != [] {
      var n := |refs| - 1;
      RefKeysAre(rules, refs[..n], k);
      if i :| 0 <= i < n && rules.linkable(refs[..n][i]) && TrimSpace(refs[..n][i]) == k.key { assert refs[i] == refs[..n][i]; }
      if i :| 0 <= i < |refs| && rules.linkable(refs[i]) && TrimSpace(refs[i]) == k.key { assert i < n ==> refs[..n][i] == refs[i]; }
    }
  }

  /** So the loop over an observation visits exactly the keys it shares. */
  lemma KeysAreShared(rules: Rules, item: Item, k: GroupKey)
    ensures k.key != "" && k in KeysOf(rules, item) <==> Shares(rules, item, k)
  {
    RefKeysAre(rules, item.refs, k);
    var semantic := GroupKey(Semantic, TrimSpace(rules.semanticKey(item)));
    assert k in KeysOf(rules, item) <==> k in RefKeys(rules, item.refs) || k == semantic;
  }

  /** The observations that share a reference or a semantic key, in the order given. */
  ghost function Members(rules: Rules, items: seq<Item>, k: GroupKey): seq<Item> {
    if items == [] then [] else
      var last := items[|items|-1];
      Members(rules, items[..|items|-1], k) + if Shares(rules, last, k) then [last] else []
  }

  /** The observations with these ids, in the order given. */
  function Picked(items: seq<Item>, ids: set<string>): seq<Item> {
    if items == [] then [] else
      var last := items[|items|-1];
      Picked(items[..|items|-1], ids) + if last.id in ids then [last] else []
  }

  ghost function IdsOf(members: seq<Item>): set<string> { set i | 0 <= i < |members| :: members[i].id }

  // ----- the map of groups ------------------------------------------------------------------------

  lemma JoinedTwice(g: Group, item: Item)
    requires item.capturedAt != 0
    ensures Joined(Joined(g, item), item) == Joined(g, item)
  {
  }

  lemma {:induction false} AddedAllAt(groups: Groups, keys: seq<GroupKey>, item: Item, k: GroupKey)
    requires item.capturedAt != 0
    ensures var added := AddedAll(groups, keys, item);
            if k.key != "" && k in keys then
              k in added && added[k] == Joined(if k in groups then groups[k] else EMPTY, item)
            else (k in added <==> k in groups) && (k in groups ==> added[k] == groups[k])
  {
    if keys != [] {
      var n := |keys| - 1;
      AddedAllAt(groups, keys[..n], item, k);
      assert keys == keys[..n] + [keys[n]];
      JoinedTwice(if k in groups then groups[k] else EMPTY, item);
    }
  }

  /** The map that the loop fills holds, under each shared key, the group of the observations that share it. */
  lemma {:induction false} GroupedIs(rules: Rules, items: seq<Item>, k: GroupKey)
    requires AllNormal(items)
    ensures k in Grouped(rules, items) <==> Members(rules, items, k) != []
    ensures k in Grouped(rules, items) ==> Grouped(rules, items)[k] == GroupOf(Members(rules, items, k))
  {
    if items != [] {
      var n := |items| - 1;
      GroupedIs(rules, items[..n], k);
      KeysAreShared(rules, items[n], k);
      AddedAllAt(Grouped(rules, items[..n]), KeysOf(rules, items[n]), items[n], k);
      var before := Members(rules, items[..n], k);
      assert (before + [items[n]])[..|before|] == before;
      assert before + [] == before;
    }
  }

  // ----- a group is decided by its ids ------------------------------------------------------------

  lemma {:induction false} IdsOfGroup(members: seq<Item>)
    ensures Ids(GroupOf(members)) == IdsOf(members)
  {
    if members != [] {
      var n := |members| - 1;
      IdsOfGroup(members[..n]);
      IdsOfSnoc(members[..n], members[n]);
      assert members == members[..n] + [members[n]];
    }
  }

  lemma IdsOfSnoc(members: seq<Item>, last: Item)
    ensures IdsOf(members + [last]) == IdsOf(members) + {last.id}
  {
    var all := members + [last];
    forall x ensures x in IdsOf(all) <==> x in IdsOf(members) + {last.id} {
      if x in IdsOf(members) {
        var i :| 0 <= i < |members| && members[i].id == x;
        assert all[i].id == x;
      }
      assert all[|members|].id == last.id;
    }
  }

  lemma {:induction false} IdsOfMembers(rules: Rules, items: seq<Item>, k: GroupKey)
    ensures forall i :: 0 <= i < |items| && Shares(rules, items[i], k) ==> items[i].id in IdsOf(Members(rules, items, k))
    ensures forall x :: x in IdsOf(Members(rules, items, k)) ==>
              exists i :: 0 <= i < |items| && items[i].id == x && Shares(rules, items[i], k)
  {
    if items != [] {
      var n := |items| - 1;
      IdsOfMembers(rules, items[..n], k);
      var before := Members(rules, items[..n], k);
      IdsOfSnoc(before, items[n]);
      assert before + [] == before;
      forall i | 0 <= i < n && Shares(rules, items[i], k) ensures items[i].id in IdsOf(before) {
        assert items[..n][i] == items[i];
      }
      forall x | x in IdsOf(before) ensures exists i :: 0 <= i < |items| && items[i].id == x && Shares(rules, items[i], k) {
        var i :| 0 <= i < n && items[..n][i].id == x && Shares(rules, items[..n][i], k);
        assert items[i] == items[..n][i];
      }
    }
  }

  lemma {:induction false} MembersPicked(rules: Rules, items: seq<Item>, k: GroupKey, ids: set<string>)
    requires forall i :: 0 <= i < |items| ==> (items[i].id in ids <==> Shares(rules, items[i], k))
    ensures Members(rules, items, k) == Picked(items, ids)
  {
    if items != [] { MembersPicked(rules, items[..|items|-1], k, ids); }
  }

  /** Which key the observations share cannot be seen in the group they make. */
  lemma GroupBySet(rules: Rules, items: seq<Item>, k: GroupKey)
    requires DistinctIds(items)
    ensures Members(rules, items, k) == Picked(items, IdsOf(Members(rules, items, k)))
  {
    var ids := IdsOf(Members(rules, items, k));
    IdsOfMembers(rules, items, k);
    forall i | 0 <= i < |items| ensures items[i].id in ids <==> Shares(rules, items[i], k) {
      if items[i].id in ids {
        var j :| 0 <= j < |items| && items[j].id == items[i].id && Shares(rules, items[j], k);
        assert i == j;
      }
    }
    MembersPicked(rules, items, k, ids);
  }

  // ----- what a group says ------------------------------------------------------------------------

  /** The latest capture among the members, and the summary of the first of them captured then. */
  ghost predicate LatestOf(members: seq<Item>, at: Time, summary: string) {
    exists i :: 0 <= i < |members| && IsLatest(members, i) && at == members[i].capturedAt && summary == TrimSpace(members[i].summary)
  }

  ghost predicate IsLatest(members: seq<Item>, i: nat)
    requires i < |members|
  {
    && (forall j :: 0 <= j < |members| ==> members[j].capturedAt <= members[i].capturedAt)
    && (forall j :: 0 <= j < i ==> members[j].capturedAt < members[i].capturedAt)
  }

  lemma {:induction false} ChannelsOf(members: seq<Item>, c: string)
    ensures c in GroupOf(members).channels <==> exists i :: 0 <= i < |members| && members[i].channel == c
  {
    if members != [] {
      var n := |members| - 1;
      ChannelsOf(members[..n], c);
      if c in GroupOf(members[..n]).channels {
        var i :| 0 <= i < n && members[..n][i].channel == c;
        assert members[i].channel == c;
      }
      forall i | 0 <= i < n && members[i].channel == c ensures c in GroupOf(members[..n]).channels {
        assert members[..n][i].channel == c;
      }
      assert members[n].channel == c ==> c in GroupOf(members).channels;
    }
  }

  lemma {:induction false} RefsOf(members: seq<Item>, r: string)
    requires AllNormal(members)
    ensures r in GroupOf(members).refs <==> exists i :: 0 <= i < |members| && r in members[i].refs
  {
    if members != [] {
      var n := |members| - 1;
      RefsOf(members[..n], r);
      if r in GroupOf(members[..n]).refs {
        var i :| 0 <= i < n && r in members[..n][i].refs;
        assert r in members[i].refs;
      }
      forall i | 0 <= i < n && r in members[i].refs ensures r in GroupOf(members[..n]).refs {
        assert r in members[..n][i].refs;
      }
      assert r in members[n].refs ==> r in GroupOf(members).refs;
    }
  }

  lemma {:induction false} LatestIn(members: seq<Item>)
    requires AllNormal(members)
    ensures members != [] ==> LatestOf(members, GroupOf(members).latestAt, GroupOf(members).latestSummary)
  {
    if members != [] {
      var n := |members| - 1;
      var before := members[..n];
      LatestIn(before);
      if before == [] {
        assert n == 0 && GroupOf(members) == Joined(EMPTY, members[0]) && IsLatest(members, 0);
      } else {
        var i :| 0 <= i < |before| && IsLatest(before, i) && GroupOf(before).latestAt == before[i].capturedAt
                   && GroupOf(before).latestSummary == TrimSpace(before[i].summary);
        LatestGrows(before, members[n], i);
        assert members == before + [members[n]];
      }
    }
  }

  lemma LatestGrows(before: seq<Item>, item: Item, i: nat)
    requires i < |before| && IsLatest(before, i)
    ensures IsLatest(before + [item], if item.capturedAt > before[i].capturedAt then |before| else i)
  {
  }

  // ----- links ------------------------------------------------------------------------------------

  /** Two observations or more share the key, and these are their ids. */
  ghost predicate GroupHas(rules: Rules, items: seq<Item>, k: GroupKey, ids: set<string>) {
    IdsOf(Members(rules, items, k)) == ids && |ids| >= 2
  }

  ghost predicate Linked(rules: Rules, items: seq<Item>, ids: set<string>) {
    exists k :: GroupHas(rules, items, k, ids)
  }

  ghost predicate LinkedByRef(rules: Rules, items: seq<Item>, ids: set<string>) {
    exists k :: GroupHas(rules, items, k, ids) && k.kind == Ref
  }

  /** All of a link but its printed id, and its summary when the latest one is blank, follows from the ids. */
  ghost predicate Explains(rules: Rules, items: seq<Item>, ids: set<string>, link: Link) {
    var g := GroupOf(Picked(items, ids));
    && link.count == |ids|
    && link.channels == Listed(NonBlank(g.channels))
    && link.refs == Listed(NonBlank(g.refs))
    && link.latestAt == g.latestAt
    && (link.kind == Ref <==> LinkedByRef(rules, items, ids))
    && (TrimSpace(g.latestSummary) != "" ==> link.summary == rules.summary(TrimSpace(g.latestSummary), |ids|))
    && exists k :: GroupHas(rules, items, k, ids) && link.kind == k.kind
                   && link.linkId == rules.linkId(k.kind, k.key, Listed(ids))
                   && link.summary == rules.summary(if TrimSpace(g.latestSummary) == "" then k.key else TrimSpace(g.latestSummary), |ids|)
  }

  /** One link for each set of ids that some group has, and no other. */
  ghost predicate Derivation(rules: Rules, items: seq<Item>, links: seq<Link>, sets: seq<set<string>>) {
    && |sets| == |links| && Distinct(sets)
    && (forall ids :: ids in sets <==> Linked(rules, items, ids))
    && (forall i :: 0 <= i < |links| ==> Explains(rules, items, sets[i], links[i]))
  }

  function IdsIn(fingerprint: string): set<string> { set x | x in Split(fingerprint, '|') }

  /** Ids without the separator can be read back from the fingerprint. */
  lemma FingerprintTells(ids: set<string>)
    requires ids != {} && forall x :: x in ids ==> '|' !in x
    ensures IdsIn(Fingerprint(ids)) == ids
  {
    ListedIs(ids);
    forall i | 0 <= i < |Listed(ids)| ensures '|' !in Listed(ids)[i] { assert Listed(ids)[i] in ids; }
    SplitOfJoin(Listed(ids), '|');
  }

  lemma IdsAreFree(rules: Rules, items: seq<Item>, k: GroupKey)
    requires AllNormal(items)
    ensures forall x :: x in IdsOf(Members(rules, items, k)) ==> '|' !in x
  {
    IdsOfMembers(rules, items, k);
  }

  /** What a candidate of the map is, in terms of the observations. */
  lemma CandidateIs(rules: Rules, items: seq<Item>, cands: Candidates, k: GroupKey)
    requires AllNormal(items) && DistinctIds(items) && CandidatesOf(rules, Grouped(rules, items), cands)
    ensures var ids := IdsOf(Members(rules, items, k));
            && (k in cands <==> GroupHas(rules, items, k, ids))
            && (k in cands ==> cands[k] == CandidateOf(rules, k, GroupOf(Picked(items, ids))) && Ids(GroupOf(Picked(items, ids))) == ids
                               && cands[k].fingerprint == Fingerprint(ids) && IdsIn(cands[k].fingerprint) == ids)
  {
    var members := Members(rules, items, k);
    GroupedIs(rules, items, k);
    IdsOfGroup(members);
    GroupBySet(rules, items, k);
    IdsAreFree(rules, items, k);
    if GroupHas(rules, items, k, IdsOf(members)) {
      assert members != [];
      FingerprintTells(IdsOf(members));
    }
  }

  /** A chosen candidate is explained by the ids in its fingerprint. */
  lemma ChosenExplained(rules: Rules, items: seq<Item>, cands: Candidates, chosen: map<string, Candidate>, c: Candidate)
    requires AllNormal(items) && DistinctIds(items) && CandidatesOf(rules, Grouped(rules, items), cands)
    requires Chosen(cands, cands.Keys, chosen) && c.fingerprint in chosen && chosen[c.fingerprint] == c
    ensures Explains(rules, items, IdsIn(c.fingerprint), c.link) && Linked(rules, items, IdsIn(c.fingerprint))
    ensures c.fingerprint == Fingerprint(IdsIn(c.fingerprint))
  {
    var ids := IdsIn(c.fingerprint);
    var k :| k in cands && k in cands.Keys && cands[k] == c;
    CandidateIs(rules, items, cands, k);
    assert GroupHas(rules, items, k, ids);
    if h :| GroupHas(rules, items, h, ids) && h.kind == Ref {
      CandidateIs(rules, items, cands, h);
      assert h in cands.Keys && cands[h].fingerprint == c.fingerprint;
    }
  }

  /** deriveObservationLinks, and for the reader the ids that each link stands for. */
  method Derive(rules: Rules, items: seq<Item>) returns (links: seq<Link>, ghost sets: seq<set<string>>)
    requires AllNormal(items) && DistinctIds(items)
    ensures Derivation(rules, items, links, sets)
    ensures forall i, j :: 0 <= i < j < |links| ==> !LinkBefore(links[j], links[i])
  {
    var deriver := new LinkDeriver(rules);
    deriver.Collect(items);
    var cands := deriver.Candidacies();
    var chosen := Merge(cands);
    var out := Arrange(chosen);
    links := seq(|out|, i requires 0 <= i < |out| => out[i].link);
    sets := seq(|out|, i requires 0 <= i < |out| => IdsIn(out[i].fingerprint));
    ChosenDerives(rules, items, cands, chosen, out);
    ToldDerives(rules, items, out, links, sets);
    forall i, j | 0 <= i < j < |links| ensures !LinkBefore(links[j], links[i]) { assert !ByLink()(out[j], out[i]); }
  }

  /** The candidate's fingerprint tells the ids of its link. */
  ghost predicate Tells(rules: Rules, items: seq<Item>, c: Candidate) {
    var ids := IdsIn(c.fingerprint);
    Explains(rules, items, ids, c.link) && Linked(rules, items, ids) && c.fingerprint == Fingerprint(ids)
  }

  ghost predicate HasIds(out: seq<Candidate>, ids: set<string>) { exists c :: c in out && IdsIn(c.fingerprint) == ids }

  lemma ListedTells(rules: Rules, items: seq<Item>, cands: Candidates, chosen: map<string, Candidate>, out: seq<Candidate>,
                    c: Candidate)
    requires AllNormal(items) && DistinctIds(items) && CandidatesOf(rules, Grouped(rules, items), cands)
    requires Chosen(cands, cands.Keys, chosen) && Lists(chosen, out) && c in out
    ensures Tells(rules, items, c)
  {
    ListedIsChosen(chosen, out, c);
    ChosenExplained(rules, items, cands, chosen, c);
  }

  lemma ChosenDerives(rules: Rules, items: seq<Item>, cands: Candidates, chosen: map<string, Candidate>, out: seq<Candidate>)
    requires AllNormal(items) && DistinctIds(items) && CandidatesOf(rules, Grouped(rules, items), cands)
    requires Chosen(cands, cands.Keys, chosen) && Lists(chosen, out)
    ensures forall c :: c in out ==> Tells(rules, items, c)
    ensures forall i, j :: 0 <= i < j < |out| ==> out[i].fingerprint != out[j].fingerprint
    ensures forall ids :: Linked(rules, items, ids) ==> HasIds(out, ids)
  {
    forall c | c in out ensures Tells(rules, items, c) { ListedTells(rules, items, cands, chosen, out, c); }
    forall i, j | 0 <= i < j < |out| ensures out[i].fingerprint != out[j].fingerprint {
      ListedIsChosen(chosen, out, out[i]);
      ListedIsChosen(chosen, out, out[j]);
    }
    forall ids | Linked(rules, items, ids) ensures HasIds(out, ids) {
      var c := LinkedIsChosen(rules, items, cands, chosen, ids);
      assert c in out;
    }
  }

  lemma ToldDerives(rules: Rules, items: seq<Item>, out: seq<Candidate>, links: seq<Link>, sets: seq<set<string>>)
    requires forall c :: c in out ==> Tells(rules, items, c)
    requires forall i, j :: 0 <= i < j < |out| ==> out[i].fingerprint != out[j].fingerprint
    requires forall ids :: Linked(rules, items, ids) ==> HasIds(out, ids)
    requires |links| == |sets| == |out|
    requires forall i :: 0 <= i < |out| ==> links[i] == out[i].link && sets[i] == IdsIn(out[i].fingerprint)
    ensures Derivation(rules, items, links, sets)
  {
    forall i | 0 <= i < |out| ensures Tells(rules, items, out[i]) { assert out[i] in out; }
    forall ids | Linked(rules, items, ids) ensures ids in sets {
      assert HasIds(out, ids);
      var c :| c in out && IdsIn(c.fingerprint) == ids;
      var i :| 0 <= i < |out| && out[i] == c;
      assert sets[i] == ids;
    }
  }

  lemma ListedIsChosen(chosen: map<string, Candidate>, out: seq<Candidate>, c: Candidate)
    requires Lists(chosen, out) && (forall f :: f in chosen ==> chosen[f].fingerprint == f) && c in out
    ensures c.fingerprint in chosen && chosen[c.fingerprint] == c
  {
  }

  lemma LinkedIsChosen(rules: Rules, items: seq<Item>, cands: Candidates, chosen: map<string, Candidate>, ids: set<string>)
    returns (c: Candidate)
    requires AllNormal(items) && DistinctIds(items) && CandidatesOf(rules, Grouped(rules, items), cands)
    requires Chosen(cands, cands.Keys, chosen) && Linked(rules, items, ids)
    ensures c.fingerprint in chosen && chosen[c.fingerprint] == c && IdsIn(c.fingerprint) == ids
  {
    var k :| GroupHas(rules, items, k, ids);
    CandidateIs(rules, items, cands, k);
    assert k in cands.Keys;
    c := chosen[cands[k].fingerprint];
  }

  /** The order of the links: most observations first, then most channels, then the latest, then by id. */
  lemma LinksAreOrdered(links: seq<Link>, i: nat, j: nat)
    requires i < j < |links| && !LinkBefore(links[j], links[i])
    ensures links[i].count >= links[j].count
    ensures links[i].count == links[j].count ==> |links[i].channels| >= |links[j].channels|
    ensures links[i].count == links[j].count && |links[i].channels| == |links[j].channels| ==> links[i].latestAt >= links[j].latestAt
    ensures links[i].count == links[j].count && |links[i].channels| == |links[j].channels| && links[i].latestAt == links[j].latestAt ==>
              links[i].linkId == links[j].linkId || Less(links[i].linkId, links[j].linkId)
  {
    LessTotal(links[i].linkId, links[j].linkId);
  }

  /** The same link, but for the printed id, and for the summary when the group's latest summary is blank. */
  ghost predicate SameLink(items: seq<Item>, ids: set<string>, a: Link, b: Link) {
    && a.kind == b.kind && a.count == b.count && a.channels == b.channels && a.refs == b.refs && a.latestAt == b.latestAt
    && (TrimSpace(GroupOf(Picked(items, ids)).latestSummary) != "" ==> a.summary == b.summary)
  }

  /** Two derivations from the same observations, with the maps walked in any order, give the same links. */
  lemma OrderDoesNotShow(rules: Rules, items: seq<Item>, links: seq<Link>, sets: seq<set<string>>,
                         others: seq<Link>, otherSets: seq<set<string>>)
    requires Derivation(rules, items, links, sets) && Derivation(rules, items, others, otherSets)
    ensures multiset(sets) == multiset(otherSets) && |links| == |others|
    ensures forall i, j :: 0 <= i < |links| && 0 <= j < |others| && sets[i] == otherSets[j] ==>
              SameLink(items, sets[i], links[i], others[j])
  {
    OnceEach(sets, otherSets);
    forall i, j | 0 <= i < |links| && 0 <= j < |others| && sets[i] == otherSets[j]
      ensures SameLink(items, sets[i], links[i], others[j])
    {
    }
  }

  lemma OnceEach<T>(a: seq<T>, b: seq<T>)
    requires Distinct(a) && Distinct(b) && forall x :: x in a <==> x in b
    ensures multiset(a) == multiset(b) && |a| == |b|
  {
    forall x ensures multiset(a)[x] == multiset(b)[x] {
      DistinctOnce(a, x);
      DistinctOnce(b, x);
      assert x in a <==> x in multiset(a);
      assert x in b <==> x in multiset(b);
    }
    assert multiset(a) == multiset(b);
    assert |a| == |multiset(a)| && |b| == |multiset(b)|;
  }

  lemma PickedChannels(items: seq<Item>, ids: set<string>, c: string)
    ensures c in GroupOf(Picked(items, ids)).channels <==> exists i :: 0 <= i < |items| && items[i].id in ids && items[i].channel == c
  {
    var members := Picked(items, ids);
    PickedHas(items, ids);
    ChannelsOf(members, c);
    if i :| 0 <= i < |members| && members[i].channel == c {
      assert members[i] in members;
      var j :| 0 <= j < |items| && items[j] == members[i];
    }
    if i :| 0 <= i < |items| && items[i].id in ids && items[i].channel == c {
      var j :| 0 <= j < |members| && members[j] == items[i];
    }
  }

  lemma PickedRefs(items: seq<Item>, ids: set<string>, r: string)
    requires AllNormal(items)
    ensures r in GroupOf(Picked(items, ids)).refs <==> exists i :: 0 <= i < |items| && items[i].id in ids && r in items[i].refs
    ensures r in GroupOf(Picked(items, ids)).refs ==> TrimSpace(r) != ""
  {
    var members := Picked(items, ids);
    PickedHas(items, ids);
    forall i | 0 <= i < |members| ensures Normal(members[i]) { assert members[i] in members; }
    RefsOf(members, r);
    if i :| 0 <= i < |members| && r in members[i].refs {
      assert members[i] in members;
      var j :| 0 <= j < |items| && items[j] == members[i];
      var m :| 0 <= m < |members[i].refs| && members[i].refs[m] == r;
    }
    if i :| 0 <= i < |items| && items[i].id in ids && r in items[i].refs {
      var j :| 0 <= j < |members| && members[j] == items[i];
    }
  }

  /** The lists a link shows: each non-blank channel and each reference of its observations, once and in order. */
  lemma LinkShows(rules: Rules, items: seq<Item>, ids: set<string>, link: Link, x: string)
    requires AllNormal(items) && Explains(rules, items, ids, link)
    ensures x in link.channels <==>
            TrimSpace(x) != "" && exists i :: 0 <= i < |items| && items[i].id in ids && items[i].channel == x
    ensures x in link.refs <==> exists i :: 0 <= i < |items| && items[i].id in ids && x in items[i].refs
    ensures Sorting.Sorted(ByText(), link.channels) && Sorting.Sorted(ByText(), link.refs)
    ensures Distinct(link.channels) && Distinct(link.refs)
  {
    var g := GroupOf(Picked(items, ids));
    PickedChannels(items, ids, x);
    PickedRefs(items, ids, x);
    ListedSorted(NonBlank(g.channels));
    ListedSorted(NonBlank(g.refs));
  }

  lemma {:induction false} PickedHas(items: seq<Item>, ids: set<string>)
    ensures forall i :: 0 <= i < |items| && items[i].id in ids ==> items[i] in Picked(items, ids)
    ensures forall x :: x in Picked(items, ids) ==> x in items && x.id in ids
  {
    if items != [] {
      var n := |items| - 1;
      PickedHas(items[..n], ids);
      forall i | 0 <= i < |items| && items[i].id in ids ensures items[i] in Picked(items, ids) {
        assert i < n ==> items[..n][i] == items[i];
      }
    }
  }

  lemma OnceIsDistinct<T>(out: seq<T>)
    requires forall x :: multiset(out)[x] <= 1
    ensures Distinct(out)
  {
    forall i, j | 0 <= i < j < |out| ensures out[i] != out[j] {
      assert out == out[..j] + [out[j]] + out[j+1..];
      assert out[i] in out[..j] && out[i] in multiset(out[..j]);
      assert multiset(out)[out[j]] == multiset(out[..j])[out[j]] + 1 + multiset(out[j+1..])[out[j]];
    }
  }

  lemma ListedSorted(s: set<string>)
    ensures Sorting.Sorted(ByText(), Listed(s)) && Distinct(Listed(s))
    ensures forall x :: x in Listed(s) <==> x in s
  {
    ListedIs(s);
    ByTextIsStrict(AnyOrder(s));
    Sorting.SortSorts(ByText(), AnyOrder(s));
    forall x ensures multiset(Listed(s))[x] <= 1 { assert multiset(Listed(s)) == multiset(s); }
    OnceIsDistinct(Listed(s));
  }
}
