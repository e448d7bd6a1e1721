/**
The parts of Go's strings and unicode packages that the modelled code relies on. A string is a
sequence of code points.
*/
module Text {

  datatype Option<+T> = None | Some(value: T)

  // ----- white space (unicode.IsSpace) ----------------------------------------------------

  predicate IsSpace(c: char) {
    var n := c as int;
    || 9 <= n <= 13 || n == 32 || n == 0x85 || n == 0xA0 || n == 0x1680
    || 0x2000 <= n <= 0x200A || n == 0x2028 || n == 0x2029 || n == 0x202F || n == 0x205F || n == 0x3000
  }

  function TrimLeft(s: string): string {
    if s != [] && IsSpace(s[0]) then TrimLeft(s[1..]) else s
  }

  function TrimRight(s: string): string {
    if s != [] && IsSpace(s[|s|-1]) then TrimRight(s[..|s|-1]) else s
  }

  function TrimSpace(s: string): string { TrimRight(TrimLeft(s)) }

  predicate Trimmed(s: string) {
    s != [] ==> !IsSpace(s[0]) && !IsSpace(s[|s|-1])
  }

  predicate AllSpace(s: string) {
    forall c :: c in s ==> IsSpace(c)
  }

  lemma {:induction false} TrimLeftIs(s: string) returns (pad: string)
    ensures s == pad + TrimLeft(s) && AllSpace(pad)
    ensures TrimLeft(s) != [] ==> !IsSpace(TrimLeft(s)[0])
  {
    if s != [] && IsSpace(s[0]) {
      var rest := TrimLeftIs(s[1..]);
      pad := [s[0]] + rest;
    } else {
      pad := [];
    }
  }

  lemma {:induction false} TrimRightIs(s: string) returns (pad: string)
    ensures s == TrimRight(s) + pad && AllSpace(pad)
    ensures TrimRight(s) != [] ==> !IsSpace(TrimRight(s)[|TrimRight(s)| - 1])
  {
    if s != [] && IsSpace(s[|s|-1]) {
      var rest := TrimRightIs(s[..|s|-1]);
      pad := rest + [s[|s|-1]];
      assert s == s[..|s|-1] + [s[|s|-1]];
    } else {
      pad := [];
    }
  }

  /** What trimming does: it removes white space at both ends and nothing else. */
  lemma TrimSpaceIs(s: string) returns (left: string, right: string)
    ensures s == left + TrimSpace(s) + right && AllSpace(left) && AllSpace(right)
    ensures Trimmed(TrimSpace(s))
  {
    left := TrimLeftIs(s);
    right := TrimRightIs(TrimLeft(s));
    if TrimSpace(s) != [] {
      assert TrimLeft(s)[0] == TrimSpace(s)[0];
    }
  }

  lemma TrimOfTrimmed(s: string)
    requires Trimmed(s)
    ensures TrimSpace(s) == s
  {
  }

  lemma TrimIsTrimmed(s: string)
    ensures Trimmed(TrimSpace(s)) && TrimSpace(TrimSpace(s)) == TrimSpace(s)
  {
    var _, _ := TrimSpaceIs(s);
    TrimOfTrimmed(TrimSpace(s));
  }

  lemma {:induction false} TrimLeftAfter(pad: string, s: string)
    requires AllSpace(pad)
    ensures TrimLeft(pad + s) == TrimLeft(s)
  {
    if pad == [] {
      assert pad + s == s;
    } else {
      assert pad[0] in pad;
      assert (pad + s)[1..] == pad[1..] + s;
      TrimLeftAfter(pad[1..], s);
    }
  }

  lemma {:induction false} TrimRightBefore(s: string, pad: string)
    requires AllSpace(pad)
    ensures TrimRight(s + pad) == TrimRight(s)
  {
    if pad == [] {
      assert s + pad == s;
    } else {
      var n := |pad| - 1;
      assert pad[n] in pad;
      assert (s + pad)[..|s + pad| - 1] == s + pad[..n];
      TrimRightBefore(s, pad[..n]);
    }
  }

  /** Trimming is decided by the trimmed core: any padding around it is the same string. */
  lemma TrimOfPadded(left: string, core: string, right: string)
    requires AllSpace(left) && AllSpace(right) && Trimmed(core)
    ensures TrimSpace(left + core + right) == core
  {
    assert left + core + right == left + (core + right);
    TrimLeftAfter(left, core + right);
    if core == [] {
      assert core + right == right + [];
      TrimLeftAfter(right, []);
    } else {
      assert TrimLeft(core + right) == core + right;
      TrimRightBefore(core, right);
    }
  }

  lemma TrimOfSpaces(s: string)
    ensures AllSpace(s) <==> TrimSpace(s) == []
  {
    if AllSpace(s) {
      TrimOfPadded(s, [], []);
      assert s + [] + [] == s;
    } else {
      var left, right := TrimSpaceIs(s);
    }
  }

  // ----- letter case ------------------------------------------------------------------------

  /** unicode.ToLower, with the laws of the Unicode tables that the code depends on. */
  datatype Casing = Casing(lower: char -> char) {
    ghost predicate Valid() {
      && (forall c {:trigger lower(lower(c))} :: lower(lower(c)) == lower(c))
      && (forall c :: IsSpace(lower(c)) <==> IsSpace(c))
      && (forall c :: 'A' <= c <= 'Z' ==> lower(c) == ((c as int) + 32) as char)
      && (forall c :: (c as int) < 128 && !('A' <= c <= 'Z') ==> lower(c) == c)
    }

    function Lower(s: string): (r: string)
      ensures |r| == |s| && forall i :: 0 <= i < |s| ==> r[i] == lower(s[i])
    {
      seq(|s|, i requires 0 <= i < |s| => lower(s[i]))
    }

    lemma LowerTwice(s: string)
      requires Valid()
      ensures Lower(Lower(s)) == Lower(s)
    {
    }

    lemma {:induction false} TrimCommutes(s: string)
      requires Valid()
      ensures TrimSpace(Lower(s)) == Lower(TrimSpace(s))
    {
      var left, right := TrimSpaceIs(s);
      var core := TrimSpace(s);
      assert Lower(s) == Lower(left) + Lower(core) + Lower(right);
      TrimOfPadded(Lower(left), Lower(core), Lower(right));
    }

    /** A literal that is already lower-case ASCII. */
    predicate PlainAscii(s: string) {
      forall i :: 0 <= i < |s| ==> (s[i] as int) < 128 && !('A' <= s[i] <= 'Z')
    }
  }

  // ----- order of strings -------------------------------------------------------------------

  /** Go's `<` on strings: code-point order and UTF-8 byte order agree. */
  predicate Less(a: string, b: string) {
    if b == [] then false
    else if a == [] then true
    else if a[0] != b[0] then a[0] < b[0]
    else Less(a[1..], b[1..])
  }

  lemma {:induction false} LessTotal(a: string, b: string)
    ensures a == b || Less(a, b) || Less(b, a)
    ensures !(Less(a, b) && Less(b, a)) && !Less(a, a)
  {
    if a != [] && b != [] && a[0] == b[0] {
      LessTotal(a[1..], b[1..]);
      assert a == [a[0]] + a[1..] && b == [b[0]] + b[1..];
      if a[1..] == b[1..] { assert a == b; }
    }
    if a != [] { LessTotal(a[1..], a[1..]); }
  }

  /** It goes by the first character that differs, and a beginning comes before what it begins. */
  lemma {:induction false} LessIs(a: string, b: string, i: nat)
    requires i <= |a| && i <= |b| && a[..i] == b[..i]
    ensures i < |a| && i < |b| && a[i] != b[i] ==> (Less(a, b) <==> a[i] < b[i])
    ensures i == |a| ==> (Less(a, b) <==> |a| < |b|)
    decreases i
  {
    if i > 0 {
      assert a[0] == a[..i][0] && b[0] == b[..i][0];
      assert a[1..][..i-1] == a[..i][1..] && b[1..][..i-1] == b[..i][1..];
      LessIs(a[1..], b[1..], i - 1);
    }
  }

  lemma {:induction false} LessTransitive(a: string, b: string, c: string)
    requires Less(a, b) && Less(b, c)
    ensures Less(a, c)
  {
    if a != [] && b != [] && c != [] && a[0] == b[0] && b[0] == c[0] {
      LessTransitive(a[1..], b[1..], c[1..]);
    }
  }

  // ----- strings.Split and strings.Join ---------------------------------------------------

  function Split(s: string, sep: char): (parts: seq<string>)
    ensures |parts| > 0
  {
    if s == [] then [[]]
    else
      var rest := Split(s[1..], sep);
      if s[0] == sep then [[]] + rest else [[s[0]] + rest[0]] + rest[1..]
  }

  function Join(parts: seq<string>, sep: char): string {
    if |parts| == 0 then []
    else if |parts| == 1 then parts[0]
    else parts[0] + [sep] + Join(parts[1..], sep)
  }

  predicate Free(parts: seq<string>, sep: char) {
    forall i :: 0 <= i < |parts| ==> sep !in parts[i]
  }

  lemma {:induction false} SplitFree(s: string, sep: char)
    ensures Free(Split(s, sep), sep)
  {
    if s != [] { SplitFree(s[1..], sep); }
  }

  lemma {:induction false} SplitWithout(s: string, sep: char)
    requires sep !in s
    ensures Split(s, sep) == [s]
  {
    if s != [] {
      SplitWithout(s[1..], sep);
      assert [s[0]] + s[1..] == s;
    }
  }

  lemma {:induction false} SplitAfter(a: string, sep: char, b: string)
    requires sep !in a
    ensures Split(a + [sep] + b, sep) == [a] + Split(b, sep)
  {
    var s := a + [sep] + b;
    if a == [] {
      assert s[1..] == b;
    } else {
      assert s[1..] == a[1..] + [sep] + b;
      SplitAfter(a[1..], sep, b);
      assert [a[0]] + a[1..] == a;
    }
  }

  /** Splitting undoes joining, for pieces that do not contain the separator. */
  lemma {:induction false} SplitOfJoin(parts: seq<string>, sep: char)
    requires |parts| > 0 && Free(parts, sep)
    ensures Split(Join(parts, sep), sep) == parts
  {
    if |parts| == 1 {
      SplitWithout(parts[0], sep);
    } else {
      SplitOfJoin(parts[1..], sep);
      SplitAfter(parts[0], sep, Join(parts[1..], sep));
    }
  }

  lemma {:induction false} JoinAppend(a: seq<string>, b: seq<string>, sep: char)
    requires a != [] && b != []
    ensures Join(a + b, sep) == Join(a, sep) + [sep] + Join(b, sep)
  {
    if |a| == 1 {
      assert (a + b)[1..] == b;
    } else {
      assert (a + b)[1..] == a[1..] + b;
      JoinAppend(a[1..], b, sep);
      assert Join(a + b, sep) == a[0] + [sep] + (Join(a[1..], sep) + [sep] + Join(b, sep));
    }
  }

  // ----- trimmed lists without repetition -------------------------------------------------

  /**
  normalizeObservationRefs and normalizeSessionCheckpointList: trim every entry, drop blanks,
  keep the first of equal entries.
  */
  function Clean(items: seq<string>): seq<string> {
    if items == [] then [] else
      var kept := Clean(items[..|items|-1]);
      var value := TrimSpace(items[|items|-1]);
      if value == "" || value in kept then kept else kept + [value]
  }

  method CleanList(items: seq<string>) returns (out: seq<string>)
    ensures out == Clean(items)
  {
    var seen: set<string> := {};
    out := [];
    for i := 0 to |items|
      invariant out == Clean(items[..i])
      invariant forall v :: v in seen <==> v in out
    {
      assert items[..i+1][..i] == items[..i];
      var value := TrimSpace(items[i]);
      if value == "" || value in seen { continue; }
      seen := seen + {value};
      out := out + [value];
    }
    assert items[..|items|] == items;
  }

  ghost predicate Tidy(items: seq<string>) {
    && (forall i :: 0 <= i < |items| ==> items[i] != "" && TrimSpace(items[i]) == items[i])
    && (forall i, j :: 0 <= i < j < |items| ==> items[i] != items[j])
  }

  lemma {:induction false} CleanIsTidy(items: seq<string>)
    ensures Tidy(Clean(items))
    ensures forall v :: v in Clean(items) <==> v != "" && exists i :: 0 <= i < |items| && TrimSpace(items[i]) == v
  {
    if items != [] {
      var n := |items| - 1;
      CleanIsTidy(items[..n]);
      TrimIsTrimmed(items[n]);
      assert forall i :: 0 <= i < n ==> items[..n][i] == items[i];
      assert TrimSpace(items[n]) == TrimSpace(items[n]);
      forall v | v in Clean(items) ensures v != "" && exists i :: 0 <= i < |items| && TrimSpace(items[i]) == v {
        if v in Clean(items[..n]) {
          var i :| 0 <= i < |items[..n]| && TrimSpace(items[..n][i]) == v;
          assert TrimSpace(items[i]) == v;
        }
      }
      forall v, i | v != "" && 0 <= i < |items| && TrimSpace(items[i]) == v ensures v in Clean(items) {
        if i < n { assert TrimSpace(items[..n][i]) == v; }
      }
    }
  }

  lemma {:induction false} CleanOfTidy(items: seq<string>)
    requires Tidy(items)
    ensures Clean(items) == items
  {
    if items != [] {
      var n := |items| - 1;
      CleanOfTidy(items[..n]);
      assert items == items[..n] + [items[n]];
    }
  }

  lemma CleanTwice(items: seq<string>)
    ensures Clean(Clean(items)) == Clean(items)
  {
    CleanIsTidy(items);
    CleanOfTidy(Clean(items));
  }

  /** Cleaning a prefix first changes nothing: the list can be grown and cleaned step by step. */
  lemma {:induction false} CleanAppend(a: seq<string>, b: seq<string>)
    ensures Clean(Clean(a) + b) == Clean(a + b)
    ensures Clean(a) <= Clean(a + b)
  {
    if b == [] {
      assert a + b == a && Clean(a) + b == Clean(a);
      CleanTwice(a);
    } else {
      var n := |b| - 1;
      CleanAppend(a, b[..n]);
      assert (a + b)[..|a + b| - 1] == a + b[..n];
      assert (Clean(a) + b)[..|Clean(a) + b| - 1] == Clean(a) + b[..n];
    }
  }

  /** Entries that are already there add nothing. */
  lemma {:induction false} CleanAbsorbs(a: seq<string>, b: seq<string>)
    requires forall i :: 0 <= i < |b| ==> TrimSpace(b[i]) == "" || TrimSpace(b[i]) in Clean(a)
    ensures Clean(a + b) == Clean(a)
  {
    if b == [] {
      assert a + b == a;
    } else {
      var n := |b| - 1;
      CleanAbsorbs(a, b[..n]);
      assert (a + b)[..|a + b| - 1] == a + b[..n];
    }
  }

  lemma CleanHasPart(a: seq<string>, b: seq<string>, v: string)
    requires v in Clean(b)
    ensures v in Clean(a + b)
  {
    CleanIsTidy(b);
    CleanIsTidy(a + b);
    var i :| 0 <= i < |b| && TrimSpace(b[i]) == v;
    assert TrimSpace((a + b)[|a| + i]) == v;
  }

  lemma {:induction false} CleanTail(a: seq<string>, b: seq<string>)
    ensures Clean(a + Clean(b)) == Clean(a + b)
  {
    if b != [] {
      var (front, x) := (b[..|b|-1], b[|b|-1]);
      var value := TrimSpace(x);
      CleanTail(a, front);
      TrimIsTrimmed(x);
      assert b == front + [x] && a + b == (a + front) + [x];
      if value != "" && value in Clean(front) {
        CleanHasPart(a, front, value);
      } else if value != "" {
        assert a + Clean(b) == (a + Clean(front)) + [value];
      }
    }
  }

  /** appendUniqueString. */
  function AppendUnique(items: seq<string>, value: string): seq<string> {
    if value in items then items else items + [value]
  }
}
