/** The string functions the evidence builders really use, and proof of the laws Evidence assumes of them. */
module EvidenceTools {
  import opened Text
  import opened Tokens
  import opened Evidence

  function HeadName(h: Head): string {
    match h
    case Source => "source"
    case SourceFamily => "source_family"
    case Topic => "topic"
    case Tag => "tag"
    case IngestAdapter => "ingest_adapter"
    case ContentKind => "content_kind"
    case InteractionDirection => "interaction_direction"
    case TelegramMessage => "telegram_message"
    case TelegramChat => "telegram_chat"
    case TelegramUser => "telegram_user"
    case ContentHost => "content_host"
    case ContentAuthor => "content_author"
    case ContentDoc => "content_doc"
  }

  /** Lower-case ASCII words joined by single underscores. */
  predicate Plain(s: string) {
    && s != "" && s[0] != '_' && s[|s|-1] != '_'
    && (forall i :: 0 <= i < |s| ==> 'a' <= s[i] <= 'z' || '0' <= s[i] <= '9' || s[i] == '_')
    && (forall i :: 0 <= i < |s| - 1 ==> !(s[i] == '_' && s[i+1] == '_'))
  }

  lemma TelegramNamesPlain()
    ensures Plain("telegram_message") && Plain("telegram_chat") && Plain("telegram_user")
  {
  }

  lemma ContentNamesPlain()
    ensures Plain("content_kind") && Plain("content_host") && Plain("content_author") && Plain("content_doc")
  {
  }

  lemma OtherNamesPlain()
    ensures Plain("ingest_adapter") && Plain("interaction_direction")
  {
  }

  lemma NamesPlain(h: Head)
    ensures Plain(HeadName(h))
  {
    TelegramNamesPlain();
    ContentNamesPlain();
    OtherNamesPlain();
  }

  lemma PlainStays(a: Alphabet, s: string)
    requires a.Valid() && Plain(s)
    ensures Token(a, s) == s
  {
    forall i | 0 <= i < |s| ensures s[i] == '_' || (a.alnum(s[i]) && a.casing.lower(s[i]) == s[i]) { }
    TokensStay(a, s);
  }

  function Program(a: Alphabet, channel: string -> string, family: string -> string, host: string -> string,
                   hash: string -> string): Tools
  {
    Tools((s: string) => Token(a, s), (s: string) => TrimSpace(s), (items: seq<string>) => Clean(items),
          (h: Head) => HeadName(h), channel, family, host, (u: string) => "url_" + hash(u))
  }

  /** externalEvidenceHash prints lower-case hexadecimal digits, at least one. */
  ghost predicate Hex(hash: string -> string) {
    forall u {:trigger hash(u)} :: hash(u) != "" && forall i :: 0 <= i < |hash(u)| ==> '0' <= hash(u)[i] <= '9' || 'a' <= hash(u)[i] <= 'f'
  }

  lemma HeadUnique(s: string, g: Head, h: Head)
    requires HeadName(g) + ":" <= s && HeadName(h) + ":" <= s
    ensures g == h
  {
    NamesPlain(g);
    NamesPlain(h);
    ColonFirst(s, HeadName(g), HeadName(h));
  }

  lemma ColonFirst(s: string, a: string, b: string)
    requires a + ":" <= s && b + ":" <= s && ':' !in a && ':' !in b
    ensures a == b
  {
    assert s[|a|] == ':' && s[|b|] == ':' && s[..|a|] == a && s[..|b|] == b;
  }

  lemma TrimKeepsHead(head: string, value: string)
    requires Plain(head)
    ensures head + ":" <= TrimSpace(head + ":" + value)
  {
    var s := head + ":" + value;
    var right := TrimRightIs(s);
    var core := TrimSpace(s);
    assert !IsSpace(s[0]) && core == TrimRight(s);
    assert s[|head|] == ':';
    assert forall i :: |core| <= i < |s| ==> s[i] == right[i - |core|] && right[i - |core|] in right;
    assert |core| > |head|;
    assert core == s[..|core|];
  }

  lemma TrimKeepsRef(a: Alphabet, head: string, value: string)
    requires a.Valid() && Plain(head) && Token(a, value) != ""
    ensures TrimSpace(head + ":" + Token(a, value)) == head + ":" + Token(a, value)
  {
    TokenIsToken(a, value);
    var t := Token(a, value);
    assert a.alnum(t[|t|-1]) ==> !IsSeparator(t[|t|-1]);
    TrimOfTrimmed(head + ":" + t);
  }

  /** Everything the builders call has the laws from which stored keys and lookup keys agree. */
  lemma ProgramIsValid(a: Alphabet, channel: string -> string, family: string -> string, host: string -> string,
                       hash: string -> string)
    requires a.Valid() && Hex(hash)
    ensures Program(a, channel, family, host, hash).Valid()
  {
    var tools := Program(a, channel, family, host, hash);
    forall s ensures tools.token(tools.token(s)) == tools.token(s) { FixedIffToken(a, s); }
    forall s ensures tools.token(tools.trim(s)) == tools.token(s) { TokenOfTrimmed(a, s); }
    forall s ensures tools.trim(tools.trim(s)) == tools.trim(s) { TrimIsTrimmed(s); }
    forall h ensures tools.token(tools.name(h)) == tools.name(h) && tools.name(h) != "" {
      NamesPlain(h);
      PlainStays(a, HeadName(h));
    }
    forall u ensures tools.token(tools.urlId(u)) == tools.urlId(u) && tools.urlId(u) != "" {
      PlainStays(a, "url_" + hash(u));
    }
    forall s, g, h | tools.Headed(s, g) && tools.Headed(s, h) ensures g == h { HeadUnique(s, g, h); }
    forall h, v ensures tools.Headed(tools.trim(tools.Ref(h, v)), h) {
      NamesPlain(h);
      TrimKeepsHead(HeadName(h), v);
    }
    forall h, v | tools.token(v) != "" ensures tools.trim(tools.Ref(h, tools.token(v))) == tools.Ref(h, tools.token(v)) {
      NamesPlain(h);
      TrimKeepsRef(a, HeadName(h), v);
    }
    forall xs, v ensures v in tools.list(xs) <==> v != "" && exists x :: x in xs && tools.trim(x) == v {
      CleanMembers(xs, v);
    }
  }

  lemma CleanMembers(xs: seq<string>, v: string)
    ensures v in Clean(xs) <==> v != "" && exists x :: x in xs && TrimSpace(x) == v
  {
    CleanIsTidy(xs);
    if x :| x in xs && TrimSpace(x) == v {
      var i :| 0 <= i < |xs| && xs[i] == x;
      assert TrimSpace(xs[i]) == v;
    }
    if i :| 0 <= i < |xs| && TrimSpace(xs[i]) == v { assert xs[i] in xs; }
  }
}
