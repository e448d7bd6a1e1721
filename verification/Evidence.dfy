/**
The evidence builders of internal/runtime/evidence_ingest.go and the metadata references of
internal/runtime/observation_taxonomy.go: the reference under which evidence is stored, and the one it is
looked up by to find duplicates.
*/
module Evidence {
  import opened Text
  import Sorting

  /** The heads of the references these builders make, and so the keys of their attribute maps. */
  datatype Head =
    | Source | SourceFamily | Topic | Tag
    | IngestAdapter | ContentKind | InteractionDirection | TelegramMessage | TelegramChat | TelegramUser
    | ContentHost | ContentAuthor | ContentDoc

  /**
  The string functions the builders call: token and trim, the clean-up of reference lists, the names of the
  heads, channel switches, the host of a URL, and the id made from a URL's hash. EvidenceTools gives the
  program's own and proves these laws of them.
  */
  datatype Tools = Tools(token: string -> string, trim: string -> string, list: seq<string> -> seq<string>,
                         name: Head -> string, channel: string -> string, family: string -> string,
                         host: string -> string, urlId: string -> string)
  {
    function Ref(h: Head, value: string): string { name(h) + ":" + value }

    ghost predicate Headed(s: string, h: Head) { name(h) + ":" <= s }

    ghost predicate Valid() {
      && (forall s {:trigger token(token(s))} :: token(token(s)) == token(s))
      && (forall s {:trigger token(trim(s))} :: token(trim(s)) == token(s))
      && (forall s {:trigger trim(trim(s))} :: trim(trim(s)) == trim(s))
      && (forall h {:trigger name(h)} :: token(name(h)) == name(h) && name(h) != "")
      && (forall u {:trigger urlId(u)} :: token(urlId(u)) == urlId(u) && urlId(u) != "")
      && (forall s, g, h {:trigger Headed(s, g), Headed(s, h)} :: Headed(s, g) && Headed(s, h) ==> g == h)
      && (forall h, v {:trigger trim(Ref(h, v))} :: Headed(trim(Ref(h, v)), h))
      && (forall h, v {:trigger Ref(h, token(v))} :: token(v) != "" ==> trim(Ref(h, token(v))) == Ref(h, token(v)))
      && (forall xs, v {:trigger v in list(xs)} :: v in list(xs) <==> v != "" && exists x :: x in xs && trim(x) == v)
    }
  }

  type Attrs = map<Head, string>

  datatype Observation = Observation(observationId: string, sourceChannel: string, topic: string, refs: seq<string>)

  datatype TelegramInput = TelegramInput(observationId: string, topic: string, sourceUrl: string, direction: string,
                                         kind: string, messageId: string, chatId: string, username: string,
                                         tags: seq<string>, refs: seq<string>)

  datatype ContentInput = ContentInput(observationId: string, sourceChannel: string, topic: string, sourceUrl: string,
                                       author: string, kind: string, docId: string,
                                       tags: seq<string>, refs: seq<string>)

  // ----- ObservationMetadataRefs ----------------------------------------------------------------

  function ByName(tools: Tools): (Head, Head) -> bool { (g: Head, h: Head) => Less(tools.name(g), tools.name(h)) }

  /** The references of attributes, in the order of the keys. */
  function AttrRefs(tools: Tools, refs: seq<string>, keys: seq<Head>, attrs: Attrs): seq<string>
    requires forall k :: k in keys ==> k in attrs
  {
    if keys == [] then refs else
      var last := keys[|keys|-1];
      var done := AttrRefs(tools, refs, keys[..|keys|-1], attrs);
      var (key, value) := (tools.token(tools.name(last)), tools.token(attrs[last]));
      if key == "" || value == "" then done else AppendUnique(done, key + ":" + value)
  }

  function ChannelRefs(tools: Tools, channel: string, topic: string): seq<string> {
    var ch := tools.channel(channel);
    var one := if ch == "" then [] else [tools.Ref(Source, ch)];
    var two := if ch == "" || tools.family(ch) == "" then one
               else AppendUnique(one, tools.Ref(SourceFamily, tools.family(ch)));
    if tools.token(topic) == "" then two else AppendUnique(two, tools.Ref(Topic, tools.token(topic)))
  }

  /** The keys of a Go map, in whatever order it yields them. */
  method Keys(attrs: Attrs) returns (keys: seq<Head>)
    ensures multiset(keys) == multiset(attrs.Keys)
  {
    keys := [];
    var unseen := attrs.Keys;
    while unseen != {}
      invariant unseen <= attrs.Keys
      invariant multiset(keys) + multiset(unseen) == multiset(attrs.Keys)
      decreases unseen
    {
      var key :| key in unseen;
      unseen := unseen - {key};
      keys := keys + [key];
    }
  }

  ghost predicate KeysInOrder(tools: Tools, keys: seq<Head>, attrs: Attrs) {
    && (forall k :: k in keys <==> k in attrs)
    && multiset(keys) == multiset(attrs.Keys)
    && Sorting.Sorted(ByName(tools), keys)
  }

  method MetadataRefs(tools: Tools, channel: string, topic: string, attrs: Attrs)
    returns (refs: seq<string>)
    ensures exists order :: KeysInOrder(tools, order, attrs) && refs == AttrRefs(tools, ChannelRefs(tools, channel, topic), order, attrs)
  {
    refs := [];
    var ch := tools.channel(channel);
    if ch != "" {
      refs := [tools.Ref(Source, ch)];
      if tools.family(ch) != "" { refs := AppendUnique(refs, tools.Ref(SourceFamily, tools.family(ch))); }
    }
    if tools.token(topic) != "" { refs := AppendUnique(refs, tools.Ref(Topic, tools.token(topic))); }
    var keys := Keys(attrs);
    SortedKeys(tools, keys, attrs);
    keys := Sorting.Sort(ByName(tools), keys);
    refs := AddAttrRefs(tools, refs, keys, attrs);
  }

  method AddAttrRefs(tools: Tools, base: seq<string>, keys: seq<Head>, attrs: Attrs) returns (refs: seq<string>)
    requires forall k :: k in keys ==> k in attrs
    ensures refs == AttrRefs(tools, base, keys, attrs)
  {
    refs := base;
    for i := 0 to |keys|
      invariant refs == AttrRefs(tools, base, keys[..i], attrs)
    {
      assert keys[..i+1][..i] == keys[..i];
      var (key, value) := (tools.token(tools.name(keys[i])), tools.token(attrs[keys[i]]));
      if key == "" || value == "" { continue; }
      refs := AppendUnique(refs, key + ":" + value);
    }
    assert keys[..|keys|] == keys;
  }

  lemma SortedKeys(tools: Tools, keys: seq<Head>, attrs: Attrs)
    requires multiset(keys) == multiset(attrs.Keys)
    ensures KeysInOrder(tools, Sorting.Sort(ByName(tools), keys), attrs)
  {
    ByNameIsWeak(tools);
    Sorting.SortSorts(ByName(tools), keys);
    var sorted := Sorting.Sort(ByName(tools), keys);
    forall k ensures k in sorted <==> k in attrs { assert k in sorted <==> k in multiset(sorted); }
  }

  lemma ByNameIsWeak(tools: Tools)
    ensures Sorting.WeakOrder(ByName(tools))
  {
    var less := ByName(tools);
    forall x, y ensures less(x, y) ==> !less(y, x) { LessTotal(tools.name(x), tools.name(y)); }
    forall x, y, z | !less(y, x) && !less(z, y) ensures !less(z, x) {
      var (a, b, c) := (tools.name(x), tools.name(y), tools.name(z));
      LessTotal(a, b);
      LessTotal(b, c);
      if Less(c, a) && Less(a, b) { LessTransitive(c, a, b); }
    }
  }

  // ----- the builders ---------------------------------------------------------------------------

  function WithTags(tools: Tools, refs: seq<string>, tags: seq<string>): seq<string> {
    if tags == [] then refs else
      var done := WithTags(tools, refs, tags[..|tags|-1]);
      var tag := tools.token(tags[|tags|-1]);
      if tag == "" then done else AppendUnique(done, tools.Ref(Tag, tag))
  }

  method AddTags(tools: Tools, refs: seq<string>, tags: seq<string>) returns (out: seq<string>)
    ensures out == WithTags(tools, refs, tags)
  {
    out := refs;
    for i := 0 to |tags|
      invariant out == WithTags(tools, refs, tags[..i])
    {
      assert tags[..i+1][..i] == tags[..i];
      var tag := tools.token(tags[i]);
      if tag != "" { out := AppendUnique(out, tools.Ref(Tag, tag)); }
    }
    assert tags[..|tags|] == tags;
  }

  function AllUnique(refs: seq<string>, more: seq<string>): seq<string> {
    if more == [] then refs else AppendUnique(AllUnique(refs, more[..|more|-1]), more[|more|-1])
  }

  /** The references of the stored record, for one order of the attribute keys. */
  function StoredRefs(tools: Tools, channel: string, topic: string, refs: seq<string>, keys: seq<Head>, attrs: Attrs): seq<string>
    requires forall k :: k in keys ==> k in attrs
  {
    tools.list(AllUnique(refs, AttrRefs(tools, ChannelRefs(tools, channel, topic), keys, attrs)))
  }

  /** The references are those of the caller and the tags, and those of the record's own channel, topic and attributes. */
  ghost predicate StoredWith(tools: Tools, o: Observation, refs: seq<string>, tags: seq<string>, attrs: Attrs) {
    StoredBeside(tools, o, WithTags(tools, refs, tags), attrs)
  }

  ghost predicate StoredBeside(tools: Tools, o: Observation, refs: seq<string>, attrs: Attrs) {
    exists keys :: KeysInOrder(tools, keys, attrs) && o.refs == StoredRefs(tools, o.sourceChannel, o.topic, refs, keys, attrs)
  }

  function TopicOr(tools: Tools, topic: string, default: string): string {
    if tools.trim(topic) == "" then default else tools.trim(topic)
  }

  /** BuildExternalObservation and normalizeObservationRecord, as far as the references go. */
  method BuildExternal(tools: Tools, id: string, channel: string, topic: string, refs: seq<string>, attrs: Attrs)
    returns (o: Observation)
    ensures o.observationId == tools.trim(id) && o.sourceChannel == tools.channel(channel)
    ensures o.topic == TopicOr(tools, topic, "external_capture")
    ensures StoredBeside(tools, o, refs, attrs)
  {
    var ch := tools.channel(channel);
    var top := if tools.trim(topic) == "" then "external_capture" else tools.trim(topic);
    var meta := MetadataRefs(tools, ch, top, attrs);
    var all := refs;
    for i := 0 to |meta|
      invariant all == AllUnique(refs, meta[..i])
    {
      assert meta[..i+1][..i] == meta[..i];
      all := AppendUnique(all, meta[i]);
    }
    assert meta[..|meta|] == meta;
    o := Observation(tools.trim(id), ch, top, tools.list(all));
  }

  /** What an attribute map says of a head: this value, or nothing if it is blank. */
  ghost predicate Says(attrs: Attrs, h: Head, value: string) {
    (h in attrs <==> value != "") && (h in attrs ==> attrs[h] == value)
  }

  const HEADS := {IngestAdapter, ContentKind, InteractionDirection, TelegramMessage, TelegramChat, TelegramUser,
                  ContentHost, ContentAuthor, ContentDoc}

  /** The attributes that are not blank. */
  function AttrsOf(value: Head -> string): Attrs { map h | h in HEADS && value(h) != "" :: value(h) }

  function KindOr(tools: Tools, kind: string, default: string): string {
    if tools.token(kind) == "" then default else tools.token(kind)
  }

  function TelegramValue(tools: Tools, t: TelegramInput, h: Head): string {
    match h
    case IngestAdapter => "telegram"
    case ContentKind => KindOr(tools, t.kind, "message")
    case InteractionDirection => tools.token(t.direction)
    case TelegramMessage => tools.token(t.messageId)
    case TelegramChat => tools.token(t.chatId)
    case TelegramUser => tools.token(t.username)
    case ContentHost => tools.token(tools.host(t.sourceUrl))
    case _ => ""
  }

  function TelegramAttrs(tools: Tools, t: TelegramInput): Attrs { AttrsOf(h => TelegramValue(tools, t, h)) }

  method BuildTelegramObservation(tools: Tools, t: TelegramInput) returns (o: Observation)
    ensures StoredWith(tools, o, t.refs, t.tags, TelegramAttrs(tools, t))
    ensures o.observationId == tools.trim(t.observationId) && o.sourceChannel == tools.channel("telegram")
    ensures o.topic == TopicOr(tools, TopicOr(tools, t.topic, KindOr(tools, t.kind, "message")), "external_capture")
  {
    var kind := KindOr(tools, t.kind, "message");
    var topic := if tools.trim(t.topic) == "" then kind else tools.trim(t.topic);
    var refs := AddTags(tools, t.refs, t.tags);
    o := BuildExternal(tools, t.observationId, "telegram", topic, refs, TelegramAttrs(tools, t));
  }

  function StableDocId(tools: Tools, docId: string, sourceUrl: string): string {
    if tools.token(docId) != "" then tools.token(docId)
    else if tools.trim(sourceUrl) == "" then ""
    else tools.urlId(tools.trim(sourceUrl))
  }

  function ContentValue(tools: Tools, c: ContentInput, h: Head): string {
    match h
    case IngestAdapter => "content"
    case ContentKind => KindOr(tools, c.kind, "content_capture")
    case ContentHost => tools.token(tools.host(c.sourceUrl))
    case ContentAuthor => tools.token(c.author)
    case ContentDoc => StableDocId(tools, tools.trim(c.docId), tools.trim(c.sourceUrl))
    case _ => ""
  }

  function ContentAttrs(tools: Tools, c: ContentInput): Attrs { AttrsOf(h => ContentValue(tools, c, h)) }

  method BuildContentObservation(tools: Tools, c: ContentInput) returns (o: Observation)
    ensures StoredWith(tools, o, c.refs, c.tags, ContentAttrs(tools, c))
    ensures o.observationId == tools.trim(c.observationId)
    ensures o.sourceChannel == tools.channel(if tools.channel(c.sourceChannel) == "" then "crawler" else tools.channel(c.sourceChannel))
    ensures o.topic == TopicOr(tools, TopicOr(tools, c.topic, KindOr(tools, c.kind, "content_capture")), "external_capture")
  {
    var channel := if tools.channel(c.sourceChannel) == "" then "crawler" else tools.channel(c.sourceChannel);
    var kind := KindOr(tools, c.kind, "content_capture");
    var topic := if tools.trim(c.topic) == "" then kind else tools.trim(c.topic);
    var refs := AddTags(tools, c.refs, c.tags);
    o := BuildExternal(tools, c.observationId, channel, topic, refs, ContentAttrs(tools, c));
  }

  // ----- what the attributes are --------------------------------------------------------------------

  /** Each attribute of a telegram record comes from its own field. */
  lemma TelegramAttrsSay(tools: Tools, t: TelegramInput)
    ensures var attrs := TelegramAttrs(tools, t);
            && Says(attrs, IngestAdapter, "telegram")
            && Says(attrs, ContentKind, if tools.token(t.kind) == "" then "message" else tools.token(t.kind))
            && Says(attrs, InteractionDirection, tools.token(t.direction)) && Says(attrs, TelegramMessage, tools.token(t.messageId))
            && Says(attrs, TelegramChat, tools.token(t.chatId)) && Says(attrs, TelegramUser, tools.token(t.username))
            && Says(attrs, ContentHost, tools.token(tools.host(t.sourceUrl)))
    ensures TelegramAttrs(tools, t).Keys <= {IngestAdapter, ContentKind, InteractionDirection, TelegramMessage, TelegramChat,
                                             TelegramUser, ContentHost}
  {
  }

  /** And each of captured content. */
  lemma ContentAttrsSay(tools: Tools, c: ContentInput)
    ensures var attrs := ContentAttrs(tools, c);
            && Says(attrs, IngestAdapter, "content")
            && Says(attrs, ContentKind, if tools.token(c.kind) == "" then "content_capture" else tools.token(c.kind))
            && Says(attrs, ContentHost, tools.token(tools.host(c.sourceUrl))) && Says(attrs, ContentAuthor, tools.token(c.author))
            && Says(attrs, ContentDoc, StableDocId(tools, tools.trim(c.docId), tools.trim(c.sourceUrl)))
    ensures ContentAttrs(tools, c).Keys <= {IngestAdapter, ContentKind, ContentHost, ContentAuthor, ContentDoc}
  {
  }

  /** A topic or kind that is given stands, trimmed or as a token; a blank one gives way to the default. */
  lemma FallbacksSay(tools: Tools, value: string, default: string)
    ensures TopicOr(tools, value, default) == default || TopicOr(tools, value, default) == tools.trim(value)
    ensures TopicOr(tools, value, default) == default <==> tools.trim(value) in {"", default}
    ensures KindOr(tools, value, default) == default || KindOr(tools, value, default) == tools.token(value)
    ensures KindOr(tools, value, default) == default <==> tools.token(value) in {"", default}
  {
  }

  /** A document is known by its own id, or else by its address. */
  lemma DocIdSays(tools: Tools, docId: string, sourceUrl: string)
    ensures var id := StableDocId(tools, docId, sourceUrl);
            && (tools.token(docId) != "" ==> id == tools.token(docId))
            && (tools.token(docId) == "" && tools.trim(sourceUrl) != "" ==> id == tools.urlId(tools.trim(sourceUrl)))
            && (tools.token(docId) == "" && tools.trim(sourceUrl) == "" ==> id == "")
  {
  }

  // ----- stored and looked-up keys ----------------------------------------------------------------

  function TelegramDedupeRef(tools: Tools, messageId: string): string {
    if tools.token(messageId) == "" then "" else tools.Ref(TelegramMessage, tools.token(messageId))
  }

  function ContentDedupeRef(tools: Tools, docId: string, sourceUrl: string): string {
    var id := StableDocId(tools, docId, sourceUrl);
    if id == "" then "" else tools.Ref(ContentDoc, id)
  }

  lemma {:induction false} AllUniqueHas(refs: seq<string>, more: seq<string>, x: string)
    ensures x in AllUnique(refs, more) <==> x in refs || x in more
  {
    if more != [] {
      AllUniqueHas(refs, more[..|more|-1], x);
      assert more == more[..|more|-1] + [more[|more|-1]];
    }
  }

  lemma {:induction false} WithTagsHas(tools: Tools, refs: seq<string>, tags: seq<string>, x: string)
    ensures x in refs ==> x in WithTags(tools, refs, tags)
    ensures x in WithTags(tools, refs, tags) ==> x in refs || exists v :: x == tools.Ref(Tag, v)
  {
    if tags != [] { WithTagsHas(tools, refs, tags[..|tags|-1], x); }
  }

  lemma ChannelRefsHave(tools: Tools, channel: string, topic: string, x: string)
    requires x in ChannelRefs(tools, channel, topic)
    ensures exists h, v :: h in {Source, SourceFamily, Topic} && x == tools.Ref(h, v)
  {
    var ch := tools.channel(channel);
    if x == tools.Ref(Source, ch) {
    } else if x == tools.Ref(SourceFamily, tools.family(ch)) {
    } else {
      assert x == tools.Ref(Topic, tools.token(topic));
    }
  }

  lemma {:induction false} AttrRefsHave(tools: Tools, refs: seq<string>, keys: seq<Head>, attrs: Attrs, x: string)
    requires tools.Valid() && forall k :: k in keys ==> k in attrs
    ensures x in AttrRefs(tools, refs, keys, attrs) <==>
            x in refs || exists k :: k in keys && tools.token(attrs[k]) != "" && x == tools.Ref(k, tools.token(attrs[k]))
  {
    if keys != [] {
      var last := keys[|keys|-1];
      AttrRefsHave(tools, refs, keys[..|keys|-1], attrs, x);
      assert keys == keys[..|keys|-1] + [last];
      assert tools.token(tools.name(last)) == tools.name(last);
      assert tools.name(last) + ":" + tools.token(attrs[last]) == tools.Ref(last, tools.token(attrs[last]));
    }
  }

  predicate IsFixedHead(h: Head) { h.Source? || h.SourceFamily? || h.Topic? || h.Tag? }

  /** The references before the last clean-up, whose key order is left open. */
  function Gathered(tools: Tools, refs: seq<string>, tags: seq<string>, channel: string, topic: string, keys: seq<Head>, attrs: Attrs): seq<string>
    requires forall k :: k in keys ==> k in attrs
  {
    AllUnique(WithTags(tools, refs, tags), AttrRefs(tools, ChannelRefs(tools, channel, topic), keys, attrs))
  }

  lemma GatheredHas(tools: Tools, refs: seq<string>, tags: seq<string>, channel: string, topic: string, keys: seq<Head>, attrs: Attrs, x: string)
    requires tools.Valid() && forall k :: k in keys <==> k in attrs
    ensures x in refs ==> x in Gathered(tools, refs, tags, channel, topic, keys, attrs)
    ensures (exists k :: k in attrs && tools.token(attrs[k]) != "" && x == tools.Ref(k, tools.token(attrs[k]))) ==>
              x in Gathered(tools, refs, tags, channel, topic, keys, attrs)
    ensures x in Gathered(tools, refs, tags, channel, topic, keys, attrs) ==>
              || x in refs
              || (exists h, v :: IsFixedHead(h) && x == tools.Ref(h, v))
              || (exists k :: k in attrs && tools.token(attrs[k]) != "" && x == tools.Ref(k, tools.token(attrs[k])))
  {
    var base := ChannelRefs(tools, channel, topic);
    AllUniqueHas(WithTags(tools, refs, tags), AttrRefs(tools, base, keys, attrs), x);
    WithTagsHas(tools, refs, tags, x);
    AttrRefsHave(tools, base, keys, attrs, x);
    if x in base { ChannelRefsHave(tools, channel, topic, x); }
  }

  /** A gathered reference that trims to the wanted one is the caller's own or the attribute's. */
  lemma WantedComesFrom(tools: Tools, refs: seq<string>, tags: seq<string>, channel: string, topic: string,
                        keys: seq<Head>, attrs: Attrs, h: Head, value: string, x: string)
    requires tools.Valid() && (forall k :: k in keys <==> k in attrs) && !IsFixedHead(h)
    requires x in Gathered(tools, refs, tags, channel, topic, keys, attrs)
    requires tools.Headed(tools.trim(x), h) && tools.trim(x) == tools.Ref(h, value)
    ensures x in refs || (h in attrs && tools.token(attrs[h]) == value && value != "")
  {
    GatheredHas(tools, refs, tags, channel, topic, keys, attrs, x);
    forall g, v ensures x == tools.Ref(g, v) ==> g == h {
      assert tools.Headed(tools.trim(tools.Ref(g, v)), g);
    }
    if k :| k in attrs && tools.token(attrs[k]) != "" && x == tools.Ref(k, tools.token(attrs[k])) {
      assert tools.trim(tools.Ref(k, tools.token(attrs[k]))) == tools.Ref(k, tools.token(attrs[k]));
      SameTail(tools, h, tools.token(attrs[h]), value);
    }
  }

  /** Only the attribute with this head can give a stored reference with this head, apart from the caller's own. */
  lemma StoredIff(tools: Tools, o: Observation, refs: seq<string>, tags: seq<string>, attrs: Attrs, h: Head, value: string)
    requires tools.Valid() && StoredWith(tools, o, refs, tags, attrs)
    requires !IsFixedHead(h) && tools.token(value) != ""
    ensures tools.Ref(h, tools.token(value)) in o.refs <==>
            || (h in attrs && tools.token(attrs[h]) == tools.token(value))
            || exists x :: x in refs && tools.trim(x) == tools.Ref(h, tools.token(value))
  {
    var wanted := tools.Ref(h, tools.token(value));
    var (channel, topic) := (o.sourceChannel, o.topic);
    var keys :| KeysInOrder(tools, keys, attrs) && o.refs == StoredRefs(tools, channel, topic, WithTags(tools, refs, tags), keys, attrs);
    var all := Gathered(tools, refs, tags, channel, topic, keys, attrs);
    assert o.refs == tools.list(all);
    assert tools.trim(wanted) == wanted && tools.Headed(wanted, h);
    if wanted in o.refs {
      var x :| x in all && tools.trim(x) == wanted;
      WantedComesFrom(tools, refs, tags, channel, topic, keys, attrs, h, tools.token(value), x);
    }
    if h in attrs && tools.token(attrs[h]) == tools.token(value) {
      GatheredHas(tools, refs, tags, channel, topic, keys, attrs, wanted);
    }
    if x :| x in refs && tools.trim(x) == wanted {
      GatheredHas(tools, refs, tags, channel, topic, keys, attrs, x);
    }
  }

  lemma SameTail(tools: Tools, h: Head, v: string, w: string)
    requires tools.Ref(h, v) == tools.Ref(h, w)
    ensures v == w
  {
    var n := |tools.name(h)| + 1;
    assert tools.Ref(h, v)[n..] == v && tools.Ref(h, w)[n..] == w;
  }

  lemma {:induction false} WithTagsAre(tools: Tools, refs: seq<string>, tags: seq<string>, x: string)
    ensures x in WithTags(tools, refs, tags) <==>
            x in refs || exists i :: 0 <= i < |tags| && tools.token(tags[i]) != "" && x == tools.Ref(Tag, tools.token(tags[i]))
  {
    if tags != [] {
      var n := |tags| - 1;
      WithTagsAre(tools, refs, tags[..n], x);
      assert forall i :: 0 <= i < n ==> tags[..n][i] == tags[i];
    }
  }

  ghost predicate FromChannel(tools: Tools, channel: string, topic: string, x: string) {
    || (tools.channel(channel) != "" && x == tools.Ref(Source, tools.channel(channel)))
    || (tools.channel(channel) != "" && tools.family(tools.channel(channel)) != "" && x == tools.Ref(SourceFamily, tools.family(tools.channel(channel))))
    || (tools.token(topic) != "" && x == tools.Ref(Topic, tools.token(topic)))
  }

  lemma ChannelRefsAre(tools: Tools, channel: string, topic: string, x: string)
    ensures x in ChannelRefs(tools, channel, topic) <==> FromChannel(tools, channel, topic, x)
  {
  }

  /** Where a reference that was gathered comes from. */
  ghost predicate ComesFrom(tools: Tools, o: Observation, refs: seq<string>, tags: seq<string>, attrs: Attrs, x: string) {
    || x in refs
    || (exists i :: 0 <= i < |tags| && tools.token(tags[i]) != "" && x == tools.Ref(Tag, tools.token(tags[i])))
    || FromChannel(tools, o.sourceChannel, o.topic, x)
    || (exists k :: k in attrs && tools.token(attrs[k]) != "" && x == tools.Ref(k, tools.token(attrs[k])))
  }

  /** The stored references are exactly these, trimmed: the caller's, the tags', the channel's, the topic's and the attributes'. */
  lemma StoredAre(tools: Tools, o: Observation, refs: seq<string>, tags: seq<string>, attrs: Attrs, v: string)
    requires tools.Valid() && StoredWith(tools, o, refs, tags, attrs)
    ensures v in o.refs <==> v != "" && exists x :: ComesFrom(tools, o, refs, tags, attrs, x) && tools.trim(x) == v
  {
    var keys :| KeysInOrder(tools, keys, attrs) && o.refs == StoredRefs(tools, o.sourceChannel, o.topic, WithTags(tools, refs, tags), keys, attrs);
    var all := Gathered(tools, refs, tags, o.sourceChannel, o.topic, keys, attrs);
    assert o.refs == tools.list(all);
    forall x ensures x in all <==> ComesFrom(tools, o, refs, tags, attrs, x) {
      AllUniqueHas(WithTags(tools, refs, tags), AttrRefs(tools, ChannelRefs(tools, o.sourceChannel, o.topic), keys, attrs), x);
      WithTagsAre(tools, refs, tags, x);
      AttrRefsHave(tools, ChannelRefs(tools, o.sourceChannel, o.topic), keys, attrs, x);
      ChannelRefsAre(tools, o.sourceChannel, o.topic, x);
    }
  }

  /**
  What is stored is found: a telegram record carries the reference TelegramDedupeRef computes for a message id
  exactly when the id has the same token as the record's own, unless the caller had put that reference in itself.
  */
  lemma TelegramStoredKeyIsLookupKey(tools: Tools, t: TelegramInput, o: Observation, messageId: string)
    requires tools.Valid() && StoredWith(tools, o, t.refs, t.tags, TelegramAttrs(tools, t))
    requires TelegramDedupeRef(tools, messageId) != ""
    ensures TelegramDedupeRef(tools, messageId) in o.refs <==>
            || tools.token(messageId) == tools.token(t.messageId)
            || exists x :: x in t.refs && tools.trim(x) == TelegramDedupeRef(tools, messageId)
  {
    StoredIff(tools, o, t.refs, t.tags, TelegramAttrs(tools, t), TelegramMessage, messageId);
    assert tools.token(tools.token(t.messageId)) == tools.token(t.messageId);
  }

  lemma DocIdIsToken(tools: Tools, docId: string, sourceUrl: string)
    requires tools.Valid()
    ensures var id := StableDocId(tools, docId, sourceUrl);
            (id != "" ==> tools.token(id) == id) && StableDocId(tools, tools.trim(docId), tools.trim(sourceUrl)) == id
  {
    assert tools.token(tools.trim(docId)) == tools.token(docId);
    assert tools.token(tools.token(docId)) == tools.token(docId);
    assert tools.trim(tools.trim(sourceUrl)) == tools.trim(sourceUrl);
  }

  /** The same for captured content, whose id is the token of its document id or else the hash of its URL. */
  lemma ContentStoredKeyIsLookupKey(tools: Tools, c: ContentInput, o: Observation, docId: string, sourceUrl: string)
    requires tools.Valid() && StoredWith(tools, o, c.refs, c.tags, ContentAttrs(tools, c))
    requires ContentDedupeRef(tools, docId, sourceUrl) != ""
    ensures ContentDedupeRef(tools, docId, sourceUrl) in o.refs <==>
            || StableDocId(tools, docId, sourceUrl) == StableDocId(tools, c.docId, c.sourceUrl)
            || exists x :: x in c.refs && tools.trim(x) == ContentDedupeRef(tools, docId, sourceUrl)
  {
    var id := StableDocId(tools, docId, sourceUrl);
    DocIdIsToken(tools, docId, sourceUrl);
    DocIdIsToken(tools, c.docId, c.sourceUrl);
    StoredIff(tools, o, c.refs, c.tags, ContentAttrs(tools, c), ContentDoc, id);
  }

  /** And by every order in which the map of attributes may be walked, the references come out the same. */
  lemma MapOrderDoesNotShow(tools: Tools, keys: seq<Head>, others: seq<Head>, attrs: Attrs)
    requires tools.Valid() && KeysInOrder(tools, keys, attrs) && KeysInOrder(tools, others, attrs)
    ensures keys == others
  {
    forall x, y | x in keys && y in keys && x != y ensures ByName(tools)(x, y) || ByName(tools)(y, x) {
      LessTotal(tools.name(x), tools.name(y));
      NamesDiffer(tools, x, y);
    }
    Sorting.SortedUnique(ByName(tools), keys, others);
  }

  lemma NamesDiffer(tools: Tools, g: Head, h: Head)
    requires tools.Valid() && g != h
    ensures tools.name(g) != tools.name(h)
  {
    if tools.name(g) == tools.name(h) {
      assert tools.Headed(tools.Ref(g, ""), g) && tools.Headed(tools.Ref(g, ""), h);
    }
  }
}
