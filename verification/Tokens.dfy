/** normalizeObservationMetaToken of internal/runtime/observation_taxonomy.go. */
module Tokens {
  import opened Text

  /** Letter case and the classes unicode.IsLetter and unicode.IsNumber (together), with the laws relied on. */
  datatype Alphabet = Alphabet(casing: Casing, alnum: char -> bool) {
    ghost predicate Valid() {
      && casing.Valid()
      && (forall c {:trigger alnum(c)} :: alnum(c) ==> !IsSeparator(c))
      && (forall c {:trigger alnum(c)} :: 'a' <= c <= 'z' || '0' <= c <= '9' ==> alnum(c))
    }
  }

  predicate IsSeparator(c: char) {
    c == '.' || c == '-' || c == '_' || IsSpace(c) || c == '/' || c == ':'
  }

  /** The builder loop: letters and numbers stay, a run of separators becomes one underscore, the rest goes. */
  function Squeeze(a: Alphabet, s: string): string {
    if s == [] then [] else
      var (done, c) := (Squeeze(a, s[..|s|-1]), s[|s|-1]);
      if a.alnum(c) then done + [c]
      else if IsSeparator(c) && !(done != [] && done[|done|-1] == '_') then done + ['_']
      else done
  }

  function TrimBarsLeft(s: string): string { if s != [] && s[0] == '_' then TrimBarsLeft(s[1..]) else s }

  function TrimBarsRight(s: string): string { if s != [] && s[|s|-1] == '_' then TrimBarsRight(s[..|s|-1]) else s }

  function Token(a: Alphabet, value: string): string {
    TrimBarsRight(TrimBarsLeft(Squeeze(a, TrimSpace(a.casing.Lower(value)))))
  }

  method NormalizeMetaToken(a: Alphabet, value: string) returns (token: string)
    requires a.Valid()
    ensures token == Token(a, value)
  {
    var v := TrimSpace(a.casing.Lower(value));
    if v == "" { return ""; }
    var builder: string := [];
    var lastUnderscore := false;
    for i := 0 to |v|
      invariant builder == Squeeze(a, v[..i])
      invariant lastUnderscore <==> builder != [] && builder[|builder|-1] == '_'
    {
      assert v[..i+1][..i] == v[..i];
      var r := v[i];
      if a.alnum(r) {
        builder := builder + [r];
        lastUnderscore := false;
      } else if r == '.' || r == '-' || r == '_' || IsSpace(r) || r == '/' || r == ':' {
        if !lastUnderscore {
          builder := builder + ['_'];
          lastUnderscore := true;
        }
      }
    }
    assert v[..|v|] == v;
    token := TrimBarsRight(TrimBarsLeft(builder));
  }

  // ----- what a token is made of ------------------------------------------------------------------

  /**
  A value read as words, which are its letters and numbers between separators; any other character is passed over.
  `led` says that a separator came first, and `open` that the last word may go on.
  */
  datatype Reading = Reading(led: bool, words: seq<string>, open: bool)

  function Read(a: Alphabet, s: string): (r: Reading)
    ensures r.open ==> r.words != []
  {
    if s == [] then Reading(false, [], false) else Next(a, Read(a, s[..|s|-1]), s[|s|-1])
  }

  function Next(a: Alphabet, r: Reading, c: char): (n: Reading)
    requires r.open ==> r.words != []
    ensures n.open ==> n.words != []
  {
    if a.alnum(c) then
      if r.open then r.(words := r.words[..|r.words|-1] + [r.words[|r.words|-1] + [c]])
      else r.(words := r.words + [[c]], open := true)
    else if !IsSeparator(c) then r
    else if r.words == [] then r.(led := true)
    else r.(open := false)
  }

  function Bar(there: bool): string { if there then "_" else "" }

  function Written(r: Reading): string { Bar(r.led) + Join(r.words, '_') + Bar(r.words != [] && !r.open) }

  ghost predicate Solid(a: Alphabet, w: seq<string>) {
    forall i :: 0 <= i < |w| ==> w[i] != "" && forall j :: 0 <= j < |w[i]| ==> a.alnum(w[i][j])
  }

  lemma {:induction false} JoinGrowsLast(w: seq<string>, c: char)
    requires w != []
    ensures var n := |w| - 1; Join(w[..n] + [w[n] + [c]], '_') == Join(w, '_') + [c]
  {
    var n := |w| - 1;
    if n > 0 {
      assert (w[..n] + [w[n] + [c]])[1..] == w[1..][..n-1] + [w[1..][n-1] + [c]];
      JoinGrowsLast(w[1..], c);
      assert Join(w[..n] + [w[n] + [c]], '_') == w[0] + ['_'] + (Join(w[1..], '_') + [c]);
    }
  }

  lemma JoinOneMore(w: seq<string>, c: char)
    ensures Join(w + [[c]], '_') == Join(w, '_') + Bar(w != []) + [c]
  {
    if w == [] {
      assert w + [[c]] == [[c]];
    } else {
      JoinAppend(w, [[c]], '_');
    }
  }

  lemma {:induction false} SolidEnds(a: Alphabet, w: seq<string>)
    requires a.Valid() && Solid(a, w) && w != []
    ensures var t := Join(w, '_'); t != [] && t[0] != '_' && t[|t|-1] != '_'
  {
    assert a.alnum(w[0][0]) && !IsSeparator(w[0][0]);
    if |w| == 1 {
      assert a.alnum(w[0][|w[0]|-1]) && !IsSeparator(w[0][|w[0]|-1]);
    } else {
      assert forall i :: 0 <= i < |w[1..]| ==> w[1..][i] == w[i + 1];
      SolidEnds(a, w[1..]);
    }
  }

  lemma WordGoesOn(r: Reading, c: char)
    requires r.open && r.words != []
    ensures Written(r.(words := r.words[..|r.words|-1] + [r.words[|r.words|-1] + [c]])) == Written(r) + [c]
  {
    JoinGrowsLast(r.words, c);
    var t := Bar(r.led) + Join(r.words, '_');
    assert t + "" == t && t + [c] == Bar(r.led) + (Join(r.words, '_') + [c]);
  }

  lemma WordBegins(r: Reading, c: char)
    requires !r.open
    ensures Written(r.(words := r.words + [[c]], open := true)) == Written(r) + [c]
  {
    JoinOneMore(r.words, c);
    var (lead, core, bar) := (Bar(r.led), Join(r.words, '_'), Bar(r.words != []));
    assert lead + (core + bar + [c]) + "" == lead + core + bar + [c];
  }

  lemma BarFollows(a: Alphabet, r: Reading)
    requires a.Valid() && Solid(a, r.words) && (r.open ==> r.words != [])
    ensures var (t, next) := (Written(r), if r.words == [] then r.(led := true) else r.(open := false));
            Written(next) == if t != [] && t[|t|-1] == '_' then t else t + ['_']
  {
    var t := Bar(r.led) + Join(r.words, '_');
    if r.words != [] { SolidEnds(a, r.words); }
    assert t + "" == t && t + "_" == t + ['_'];
  }

  /** The builder's step keeps its text what the reading writes. */
  lemma NextIsWritten(a: Alphabet, r: Reading, c: char)
    requires a.Valid() && Solid(a, r.words) && (r.open ==> r.words != [])
    ensures var (t, next) := (Written(r), Written(Next(a, r, c)));
            if a.alnum(c) then next == t + [c]
            else if IsSeparator(c) && !(t != [] && t[|t|-1] == '_') then next == t + ['_']
            else next == t
  {
    if a.alnum(c) {
      if r.open { WordGoesOn(r, c); } else { WordBegins(r, c); }
    } else if IsSeparator(c) {
      BarFollows(a, r);
    }
  }

  lemma NextIsSolid(a: Alphabet, r: Reading, c: char)
    requires Solid(a, r.words) && (r.open ==> r.words != [])
    ensures Solid(a, Next(a, r, c).words)
  {
  }

  lemma {:induction false} SqueezeIsWritten(a: Alphabet, s: string)
    requires a.Valid()
    ensures Squeeze(a, s) == Written(Read(a, s)) && Solid(a, Read(a, s).words)
  {
    if s != [] {
      var (r, c) := (Read(a, s[..|s|-1]), s[|s|-1]);
      SqueezeIsWritten(a, s[..|s|-1]);
      NextIsWritten(a, r, c);
      NextIsSolid(a, r, c);
    }
  }

  lemma BarsGo(left: bool, core: string, right: bool)
    requires core != [] && core[0] != '_' && core[|core|-1] != '_'
    ensures TrimBarsRight(TrimBarsLeft(Bar(left) + core + Bar(right))) == core
  {
    var t := core + Bar(right);
    assert Bar(left) + core + Bar(right) == Bar(left) + t && t[0] == core[0];
    LeftBarGoes(left, t);
    RightBarGoes(core, right);
  }

  lemma RightBarGoes(core: string, right: bool)
    requires core != [] && core[|core|-1] != '_'
    ensures TrimBarsRight(core + Bar(right)) == core
  {
    if right { assert (core + "_")[..|core|] == core; } else { assert core + "" == core; }
  }

  lemma LeftBarGoes(left: bool, t: string)
    requires t != [] && t[0] != '_'
    ensures TrimBarsLeft(Bar(left) + t) == t
  {
    if left { assert ("_" + t)[1..] == t; } else { assert "" + t == t; }
  }

  /** A token is the lower-case words of the value, joined by underscores. */
  lemma TokenJoinsWords(a: Alphabet, value: string)
    requires a.Valid()
    ensures Token(a, value) == Join(Read(a, TrimSpace(a.casing.Lower(value))).words, '_')
  {
    var r := Read(a, TrimSpace(a.casing.Lower(value)));
    SqueezeIsWritten(a, TrimSpace(a.casing.Lower(value)));
    if r.words == [] {
      assert "_"[1..] == "" && Bar(r.led) + "" + "" == Bar(r.led);
    } else {
      SolidEnds(a, r.words);
      BarsGo(r.led, Join(r.words, '_'), !r.open);
    }
  }

  // ----- what a token is ------------------------------------------------------------------------

  /** Lower-case letters and numbers, with single underscores between them. */
  ghost predicate IsBody(a: Alphabet, s: string) {
    && (forall i :: 0 <= i < |s| ==> s[i] == '_' || (a.alnum(s[i]) && a.casing.lower(s[i]) == s[i]))
    && (forall i :: 0 <= i < |s| - 1 ==> !(s[i] == '_' && s[i+1] == '_'))
  }

  ghost predicate IsToken(a: Alphabet, s: string) {
    IsBody(a, s) && (s != [] ==> s[0] != '_' && s[|s|-1] != '_')
  }

  lemma {:induction false} SqueezeIsBody(a: Alphabet, s: string)
    requires a.Valid() && forall i :: 0 <= i < |s| ==> a.casing.lower(s[i]) == s[i]
    ensures IsBody(a, Squeeze(a, s))
  {
    if s != [] { SqueezeIsBody(a, s[..|s|-1]); }
  }

  lemma {:induction false} TrimLeftKeepsBody(a: Alphabet, s: string)
    requires IsBody(a, s)
    ensures IsBody(a, TrimBarsLeft(s))
    ensures TrimBarsLeft(s) != [] ==> TrimBarsLeft(s)[0] != '_'
  {
    if s != [] && s[0] == '_' { TrimLeftKeepsBody(a, s[1..]); }
  }

  lemma {:induction false} TrimRightKeepsBody(a: Alphabet, s: string)
    requires IsBody(a, s) && (s != [] ==> s[0] != '_')
    ensures IsToken(a, TrimBarsRight(s))
  {
    if s != [] && s[|s|-1] == '_' { TrimRightKeepsBody(a, s[..|s|-1]); }
  }

  lemma TokenIsToken(a: Alphabet, value: string)
    requires a.Valid()
    ensures IsToken(a, Token(a, value))
  {
    var low := a.casing.Lower(value);
    a.casing.TrimCommutes(value);
    a.casing.LowerTwice(TrimSpace(value));
    var v := TrimSpace(low);
    assert v == a.casing.Lower(TrimSpace(value));
    forall i | 0 <= i < |v| ensures a.casing.lower(v[i]) == v[i] {
      assert v[i] == a.casing.Lower(TrimSpace(value))[i] && v[i] == a.casing.lower(TrimSpace(value)[i]);
      assert a.casing.lower(a.casing.lower(TrimSpace(value)[i])) == a.casing.lower(TrimSpace(value)[i]);
    }
    SqueezeIsBody(a, v);
    TrimLeftKeepsBody(a, Squeeze(a, v));
    TrimRightKeepsBody(a, TrimBarsLeft(Squeeze(a, v)));
  }

  lemma {:induction false} SqueezeOfBody(a: Alphabet, s: string)
    requires a.Valid() && IsBody(a, s)
    ensures Squeeze(a, s) == s
  {
    if s != [] {
      SqueezeOfBody(a, s[..|s|-1]);
      assert s == s[..|s|-1] + [s[|s|-1]];
      assert a.alnum('_') ==> !IsSeparator('_');
    }
  }

  /** Exactly the tokens are left as they are: so the normaliser is idempotent and reaches every token. */
  lemma FixedIffToken(a: Alphabet, value: string)
    requires a.Valid()
    ensures Token(a, value) == value <==> IsToken(a, value)
    ensures Token(a, Token(a, value)) == Token(a, value)
  {
    TokenIsToken(a, value);
    TokensStay(a, Token(a, value));
    if IsToken(a, value) { TokensStay(a, value); }
  }

  lemma TokensStay(a: Alphabet, s: string)
    requires a.Valid() && IsToken(a, s)
    ensures Token(a, s) == s
  {
    forall i | 0 <= i < |s| ensures a.casing.lower(s[i]) == s[i] && !IsSpace(s[i]) {
      assert a.alnum(s[i]) ==> !IsSeparator(s[i]);
    }
    assert a.casing.Lower(s) == s;
    TrimOfTrimmed(s);
    SqueezeOfBody(a, s);
  }

  /** Padding around a value does not show in its token. */
  lemma TokenOfTrimmed(a: Alphabet, value: string)
    requires a.Valid()
    ensures Token(a, TrimSpace(value)) == Token(a, value)
  {
    a.casing.TrimCommutes(value);
    a.casing.TrimCommutes(TrimSpace(value));
    TrimIsTrimmed(value);
  }
}
