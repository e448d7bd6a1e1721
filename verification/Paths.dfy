/** path/filepath on a Unix system, as the lexical functions they are: a clean path is a list of segments. */
module Paths {
  import opened Text

  datatype Path = Path(rooted: bool, segs: seq<string>)

  predicate Rooted(s: string) { s != [] && s[0] == '/' }

  /** One more element of a path: empty and dot elements vanish, a dot-dot takes the element before it away. */
  function Push(rooted: bool, done: seq<string>, part: string): seq<string> {
    if part == "" || part == "." then done
    else if part == ".." then
      if done != [] && done[|done|-1] != ".." then done[..|done|-1] else if rooted then done else done + [part]
    else done + [part]
  }

  function Reduce(rooted: bool, done: seq<string>, parts: seq<string>): seq<string> {
    if parts == [] then done else Push(rooted, Reduce(rooted, done, parts[..|parts|-1]), parts[|parts|-1])
  }

  function Parse(s: string): Path { Path(Rooted(s), Reduce(Rooted(s), [], Split(s, '/'))) }

  function Render(p: Path): string {
    if p.rooted then "/" + Join(p.segs, '/') else if p.segs == [] then "." else Join(p.segs, '/')
  }

  /** filepath.Clean. */
  function CleanPath(s: string): string { Render(Parse(s)) }

  /** filepath.Join of two non-empty elements. */
  function JoinPaths(a: string, b: string): string { CleanPath(a + "/" + b) }

  /** filepath.Abs, with the working directory unless the system does not give one. */
  function Abs(cwd: Option<string>, s: string): Option<string> {
    if Rooted(s) then Some(CleanPath(s)) else if cwd.None? then None else Some(JoinPaths(cwd.value, s))
  }

  function Ups(n: nat): seq<string> { seq(n, _ => "..") }

  /** The segments that lead from one directory to another: up to the first they share, and down again. */
  function RelSegs(base: seq<string>, targ: seq<string>): seq<string> {
    if base != [] && targ != [] && base[0] == targ[0] then RelSegs(base[1..], targ[1..]) else Ups(|base|) + targ
  }

  /** filepath.Rel of two absolute clean paths. */
  function Rel(base: string, targ: string): string {
    if base == targ then "." else Join(RelSegs(Parse(base).segs, Parse(targ).segs), '/')
  }

  // ----- clean paths and segment lists --------------------------------------------------------

  ghost predicate IsSegment(s: string) { s != "" && s != "." && '/' !in s }

  /** Segments as Clean leaves them: dot-dots only in front, and none below the root. */
  ghost predicate Normal(p: Path) {
    && (forall i :: 0 <= i < |p.segs| ==> IsSegment(p.segs[i]))
    && (forall i :: 0 <= i < |p.segs| && p.segs[i] == ".." ==> !p.rooted)
    && (forall i, j :: 0 <= j < i < |p.segs| && p.segs[i] == ".." ==> p.segs[j] == "..")
  }

  lemma {:induction false} ReduceIsNormal(rooted: bool, done: seq<string>, parts: seq<string>)
    requires Normal(Path(rooted, done)) && Free(parts, '/')
    ensures Normal(Path(rooted, Reduce(rooted, done, parts)))
  {
    if parts != [] { ReduceIsNormal(rooted, done, parts[..|parts|-1]); }
  }

  lemma ParseIsNormal(s: string)
    ensures Normal(Parse(s))
  {
    SplitFree(s, '/');
    ReduceIsNormal(Rooted(s), [], Split(s, '/'));
  }

  lemma {:induction false} ReduceInTwo(rooted: bool, done: seq<string>, a: seq<string>, b: seq<string>)
    ensures Reduce(rooted, done, a + b) == Reduce(rooted, Reduce(rooted, done, a), b)
  {
    if b == [] {
      assert a + b == a;
    } else {
      ReduceInTwo(rooted, done, a, b[..|b|-1]);
      assert (a + b)[..|a + b|-1] == a + b[..|b|-1];
    }
  }

  lemma {:induction false} ReduceOfNormal(rooted: bool, done: seq<string>, segs: seq<string>)
    requires Normal(Path(rooted, done + segs))
    ensures Reduce(rooted, done, segs) == done + segs
  {
    if segs == [] {
      assert done + segs == done;
    } else {
      var n := |segs| - 1;
      var front := done + segs[..n];
      assert done + segs == front + [segs[n]];
      assert forall i :: 0 <= i < |front| ==> front[i] == (done + segs)[i];
      ReduceOfNormal(rooted, done, segs[..n]);
      assert (done + segs)[|front|] == segs[n];
    }
  }

  lemma ReduceOne(rooted: bool, done: seq<string>, part: string)
    ensures Reduce(rooted, done, [part]) == Push(rooted, done, part)
  {
    assert [part][..0] == [];
  }

  lemma SplitSegs(segs: seq<string>)
    requires Normal(Path(false, segs)) && segs != []
    ensures Split(Join(segs, '/'), '/') == segs && !Rooted(Join(segs, '/'))
  {
    SplitOfJoin(segs, '/');
    assert segs[0][0] in segs[0];
  }

  lemma ParseOfRenderRooted(segs: seq<string>)
    requires Normal(Path(true, segs))
    ensures Parse("/" + Join(segs, '/')) == Path(true, segs)
  {
    var rest := Join(segs, '/');
    assert "/" + rest == [] + ['/'] + rest;
    SplitAfter([], '/', rest);
    ReduceInTwo(true, [], [""], Split(rest, '/'));
    ReduceOne(true, [], "");
    if segs == [] {
    } else {
      SplitOfJoin(segs, '/');
      assert [] + segs == segs;
      ReduceOfNormal(true, [], segs);
    }
  }

  /** Reading a clean path gives back the segments it was written from. */
  lemma ParseOfRender(p: Path)
    requires Normal(p)
    ensures Parse(Render(p)) == p
  {
    if p.rooted {
      ParseOfRenderRooted(p.segs);
    } else if p.segs == [] {
      SplitWithout(".", '/');
      ReduceOne(false, [], ".");
    } else {
      SplitSegs(p.segs);
      assert [] + p.segs == p.segs;
      ReduceOfNormal(false, [], p.segs);
    }
  }

  lemma CleanPathTwice(s: string)
    ensures Parse(CleanPath(s)) == Parse(s) && CleanPath(CleanPath(s)) == CleanPath(s)
  {
    ParseIsNormal(s);
    ParseOfRender(Parse(s));
  }

  lemma RenderInjective(p: Path, q: Path)
    requires Normal(p) && Normal(q) && Render(p) == Render(q)
    ensures p == q
  {
    ParseOfRender(p);
    ParseOfRender(q);
  }

  /** What the end of a path does to its clean form: a name goes below, a dot or a slash nothing, a dot-dot up. */
  lemma CleanExtends(s: string, name: string)
    requires s != [] && IsSegment(name) && name != ".."
    ensures var (p, n) := (Parse(s), |Parse(s).segs| - 1);
            && Parse(s + "/" + name) == Path(p.rooted, p.segs + [name])
            && Parse(s + "/" + ".") == p && Parse(s + "/") == p
            && Parse(s + "/" + "..") == Path(p.rooted, if n >= 0 && p.segs[n] != ".." then p.segs[..n]
                                                       else if p.rooted then p.segs else p.segs + [".."])
  {
    EndsIn(s, name);
    EndsIn(s, ".");
    EndsIn(s, "..");
    EndsIn(s, "");
    assert s + "/" + "" == s + "/";
  }

  lemma EndsIn(s: string, last: string)
    requires s != [] && '/' !in last
    ensures Parse(s + "/" + last) == Path(Parse(s).rooted, Push(Parse(s).rooted, Parse(s).segs, last))
  {
    assert s + "/" + last == s + ['/'] + last && (s + "/" + last)[0] == s[0];
    SplitConcat(s, '/', last);
    SplitWithout(last, '/');
    ReduceInTwo(Rooted(s), [], Split(s, '/'), [last]);
    ReduceOne(Rooted(s), Parse(s).segs, last);
  }

  // ----- one path below another ---------------------------------------------------------------

  /** The directory's segments come first in the path's. */
  predicate Under(p: Path, dir: Path) { p.rooted == dir.rooted && dir.segs <= p.segs }

  lemma {:induction false} SplitConcat(a: string, sep: char, b: string)
    ensures Split(a + [sep] + b, sep) == Split(a, sep) + Split(b, sep)
  {
    var s := a + [sep] + b;
    if a == [] {
      assert s[1..] == b;
    } else {
      assert s[1..] == a[1..] + [sep] + b;
      SplitConcat(a[1..], sep, b);
    }
  }

  /** A string prefix up to a separator is a prefix of segments. */
  lemma PrefixOfJoin(a: seq<string>, b: seq<string>)
    requires a != [] && b != [] && Free(a, '/') && Free(b, '/')
    ensures Join(a, '/') + "/" <= Join(b, '/') <==> a < b
  {
    var (x, y) := (Join(a, '/'), Join(b, '/'));
    if x + "/" <= y {
      var rest := y[|x| + 1..];
      assert y == x + ['/'] + rest;
      SplitConcat(x, '/', rest);
      SplitOfJoin(a, '/');
      SplitOfJoin(b, '/');
    }
    if a < b {
      JoinAppend(a, b[|a|..], '/');
      assert b == a + b[|a|..];
    }
  }

  lemma FirstChar(p: Path)
    requires Normal(p)
    ensures Render(p) != [] && (Render(p)[0] == '/' <==> p.rooted)
  {
    if !p.rooted && p.segs != [] {
      assert Render(p)[0] == p.segs[0][0] && p.segs[0][0] in p.segs[0];
    }
  }

  lemma BelowIff(p: Path, dir: Path)
    requires Normal(p) && Normal(dir) && dir.segs != []
    ensures Render(dir) + "/" <= Render(p) <==> p.rooted == dir.rooted && dir.segs < p.segs
  {
    FirstChar(p);
    FirstChar(dir);
    if p.segs != [] { PrefixOfJoin(dir.segs, p.segs); }
    if p.rooted && dir.rooted {
      assert Render(dir) + "/" == ['/'] + (Join(dir.segs, '/') + "/");
      assert Render(p)[1..] == Join(p.segs, '/') && (Render(dir) + "/")[1..] == Join(dir.segs, '/') + "/";
    } else if p.rooted != dir.rooted {
      assert (Render(dir) + "/")[0] == Render(dir)[0];
    }
  }

  /** Joining reads on where the directory's segments end. */
  lemma JoinParts(a: string, b: string)
    requires Rooted(a)
    ensures Parse(a + "/" + b) == Path(true, Reduce(true, Parse(a).segs, Split(b, '/')))
  {
    assert a + "/" + b == a + ['/'] + b;
    SplitConcat(a, '/', b);
    ReduceInTwo(true, [], Split(a, '/'), Split(b, '/'));
  }

  lemma SplitOfRelative(p: Path, done: seq<string>)
    requires Normal(p) && !p.rooted && Normal(Path(true, done + p.segs))
    ensures Reduce(true, done, Split(Render(p), '/')) == done + p.segs
  {
    if p.segs == [] {
      SplitWithout(".", '/');
      ReduceOne(true, done, ".");
      assert done + [] == done;
    } else {
      SplitOfJoin(p.segs, '/');
      ReduceOfNormal(true, done, p.segs);
    }
  }

  lemma NormalBelow(dir: Path, p: Path)
    requires Normal(dir) && dir.rooted && Normal(p) && ".." !in p.segs
    ensures Normal(Path(true, dir.segs + p.segs))
  {
    forall i | 0 <= i < |p.segs| ensures p.segs[i] != ".." { assert p.segs[i] in p.segs; }
  }

  /** Joining a directory and a path without dot-dots puts the segments after one another. */
  lemma JoinIs(a: string, p: Path)
    requires Rooted(a) && Normal(p) && !p.rooted && ".." !in p.segs
    ensures var q := Path(true, Parse(a).segs + p.segs);
            Normal(q) && JoinPaths(a, Render(p)) == Render(q) && Parse(JoinPaths(a, Render(p))) == q
  {
    ParseIsNormal(a);
    NormalBelow(Parse(a), p);
    JoinParts(a, Render(p));
    SplitOfRelative(p, Parse(a).segs);
    ParseOfRender(Path(true, Parse(a).segs + p.segs));
  }
}
