/**
The three containment checks (internal/api/path.go, internal/runtime/disk_auth.go, cmd/layer-osctl/job_work.go)
and the sanitizer built on the first.
*/
module PathChecks {
  import opened Text
  import opened Paths
  import opened SortedSets

  // ----- internal/api/path.go -----------------------------------------------------------------

  predicate HasDirPrefix(path: string, prefix: string) {
    var (p, dir) := (CleanPath(path), CleanPath(prefix));
    if p == dir then true
    else if dir == "/" then dir <= p
    else dir + "/" <= p
  }

  predicate ContainsTraversalSegment(raw: string) { ".." in Split(TrimSpace(raw), '/') }

  datatype PathError = Traversal | OutsideBase | NoWorkingDir

  datatype Sanitized = Clean(path: string) | Refused(error: PathError)

  function SanitizeRepoPath(cwd: Option<string>, raw: string, baseDir: string): Sanitized {
    var value := TrimSpace(raw);
    if value == "" then Clean("")
    else if ContainsTraversalSegment(value) then Refused(Traversal)
    else
      var abs := Abs(cwd, baseDir);
      if abs.None? then Refused(NoWorkingDir)
      else
        var base := CleanPath(abs.value);
        var clean := CleanPath(value);
        var full := CleanPath(if Rooted(clean) then clean else JoinPaths(base, clean));
        if HasDirPrefix(full, base) then Clean(full) else Refused(OutsideBase)
  }

  datatype Target = Target(name: string, workdir: Option<string>)

  function TargetAfter(t: Target, s: Sanitized): Target
    requires s.Clean?
  {
    t.(workdir := if s.path == "" then None else Some(s.path))
  }

  /** A target whose directory is acceptable, or that names none. */
  predicate Accepted(cwd: Option<string>, base: string, t: Target) {
    t.workdir.Some? ==> SanitizeRepoPath(cwd, t.workdir.value, base).Clean?
  }

  function Settled(cwd: Option<string>, base: string, t: Target): Target
    requires Accepted(cwd, base, t)
  {
    if t.workdir.None? then t else TargetAfter(t, SanitizeRepoPath(cwd, t.workdir.value, base))
  }

  /** A settled target has the sanitized directory, or none if that was blank, and keeps its name. */
  lemma SettledIs(cwd: Option<string>, base: string, t: Target)
    requires Accepted(cwd, base, t)
    ensures var a := Settled(cwd, base, t);
            && a.name == t.name
            && (a.workdir.Some? <==> t.workdir.Some? && TrimSpace(t.workdir.value) != "")
            && (a.workdir.Some? ==> Sanitized.Clean(a.workdir.value) == SanitizeRepoPath(cwd, t.workdir.value, base))
  {
    if t.workdir.Some? && TrimSpace(t.workdir.value) != "" { NeverBlank(cwd, t.workdir.value, base); }
  }

  lemma NeverBlank(cwd: Option<string>, raw: string, base: string)
    requires TrimSpace(raw) != "" && SanitizeRepoPath(cwd, raw, base).Clean?
    ensures SanitizeRepoPath(cwd, raw, base).path != ""
  {
    var path := SanitizeRepoPath(cwd, raw, base).path;
    var clean := CleanPath(TrimSpace(raw));
    var full := if Rooted(clean) then clean else JoinPaths(CleanPath(Abs(cwd, base).value), clean);
    ParseIsNormal(full);
    FirstChar(Parse(full));
  }

  /** Everything before the refused target is settled, and nothing from it on is touched. */
  predicate StoppedAt(cwd: Option<string>, base: string, before: seq<Target>, after: seq<Target>, k: nat, error: PathError)
    requires k < |before| == |after|
  {
    && !Accepted(cwd, base, before[k]) && error == SanitizeRepoPath(cwd, before[k].workdir.value, base).error
    && (forall i :: 0 <= i < k ==> Accepted(cwd, base, before[i]) && after[i] == Settled(cwd, base, before[i]))
    && (forall i :: k <= i < |before| ==> after[i] == before[i])
  }

  method SanitizeDeployTargetPaths(cwd: Option<string>, t: Target, base: string) returns (err: Option<PathError>, after: Target)
    ensures err.None? <==> Accepted(cwd, base, t)
    ensures err.None? ==> after == Settled(cwd, base, t)
    ensures err.Some? ==> err.value == SanitizeRepoPath(cwd, t.workdir.value, base).error
  {
    if t.workdir.None? { return None, t; }
    var s := SanitizeRepoPath(cwd, t.workdir.value, base);
    if s.Refused? { return Some(s.error), t; }
    return None, TargetAfter(t, s);
  }

  /** sanitizeSnapshotPaths: in place, up to the first target that is refused. */
  method SanitizeSnapshotPaths(cwd: Option<string>, targets: array<Target>, base: string) returns (err: Option<PathError>)
    modifies targets
    ensures err.None? <==> forall i :: 0 <= i < targets.Length ==> Accepted(cwd, base, old(targets[i]))
    ensures err.None? ==> forall i :: 0 <= i < targets.Length ==>
              Accepted(cwd, base, old(targets[i])) && targets[i] == Settled(cwd, base, old(targets[i]))
    ensures err.Some? ==> exists k :: 0 <= k < targets.Length && StoppedAt(cwd, base, old(targets[..]), targets[..], k, err.value)
  {
    for k := 0 to targets.Length
      invariant forall i :: 0 <= i < k ==> Accepted(cwd, base, old(targets[i])) && targets[i] == Settled(cwd, base, old(targets[i]))
      invariant forall i :: k <= i < targets.Length ==> targets[i] == old(targets[i])
    {
      var t;
      err, t := SanitizeDeployTargetPaths(cwd, targets[k], base);
      if err.Some? {
        assert StoppedAt(cwd, base, old(targets[..]), targets[..], k, err.value);
        return;
      }
      targets[k] := t;
    }
    return None;
  }

  // ----- internal/runtime/disk_auth.go --------------------------------------------------------

  predicate PathWithinDir(cwd: Option<string>, path: string, dir: string) {
    if TrimSpace(path) == "" || TrimSpace(dir) == "" then false
    else
      var (p, d) := (Abs(cwd, CleanPath(path)), Abs(cwd, CleanPath(dir)));
      if p.None? || d.None? then false
      else
        var rel := Rel(d.value, p.value);
        if rel == "." then true else rel != ".." && !("../" <= rel)
  }

  // ----- cmd/layer-osctl/job_work.go ----------------------------------------------------------

  function NormalizeAllowedPrefix(value: string): string {
    var clean := CleanPath(TrimSpace(value));
    if clean == "." || clean == "" then ""
    else if clean[|clean|-1] != '/' then clean + "/"
    else clean
  }

  function TrimSlash(s: string): string { if s != [] && s[|s|-1] == '/' then s[..|s|-1] else s }

  predicate AllowedBy(p: string, prefix: string) {
    var allowed := NormalizeAllowedPrefix(prefix);
    allowed != "" && (p == TrimSlash(allowed) || allowed <= p)
  }

  method PathWithinAllowedPrefixes(path: string, prefixes: seq<string>) returns (within: bool)
    ensures within <==> Within(path, prefixes)
  {
    var p := CleanPath(path);
    for i := 0 to |prefixes|
      invariant forall j :: 0 <= j < i ==> !Allows(path, prefixes[j])
    {
      AllowedIff(path, prefixes[i]);
      var allowed := NormalizeAllowedPrefix(prefixes[i]);
      if allowed == "" { continue; }
      if p == TrimSlash(allowed) || allowed <= p { return true; }
    }
    return false;
  }

  /** The directory a prefix names is one the path lies under; the current directory counts for nothing. */
  predicate Allows(path: string, prefix: string) {
    var dir := Parse(TrimSpace(prefix));
    dir != Path(false, []) && Under(Parse(path), dir)
  }

  predicate Within(path: string, prefixes: seq<string>) { exists i :: 0 <= i < |prefixes| && Allows(path, prefixes[i]) }

  function Violations(before: map<string, bool>, after: map<string, bool>, allowed: seq<string>): set<string> {
    set path | path in after && !(path in before && before[path]) && !Within(path, allowed)
  }

  /** The changed paths outside the allowed prefixes, in order, however the map is walked. */
  method WorkerScopeViolations(before: map<string, bool>, after: map<string, bool>, allowed: seq<string>)
    returns (violations: seq<string>)
    ensures violations == Listed(Violations(before, after, allowed))
    ensures forall path :: path in violations <==>
              path in after && (path in before ==> !before[path]) && forall i :: 0 <= i < |allowed| ==> !AllowedBy(CleanPath(path), allowed[i])
  {
    var found: set<string> := {};
    var unseen := after.Keys;
    while unseen != {}
      invariant unseen <= after.Keys
      invariant forall path :: path in found <==> path in Violations(before, after, allowed) && path !in unseen
      decreases unseen
    {
      var path :| path in unseen;
      unseen := unseen - {path};
      if path in before && before[path] { continue; }
      var within := PathWithinAllowedPrefixes(path, allowed);
      if within { continue; }
      found := found + {path};
    }
    assert found == Violations(before, after, allowed);
    violations := ToSorted(found);
    ListedIs(found);
    forall path ensures Within(path, allowed) <==> exists i :: 0 <= i < |allowed| && AllowedBy(CleanPath(path), allowed[i]) {
      forall i | 0 <= i < |allowed| ensures AllowedBy(CleanPath(path), allowed[i]) <==> Allows(path, allowed[i]) {
        AllowedIff(path, allowed[i]);
      }
    }
  }

  // ----- what the checks mean -----------------------------------------------------------------

  lemma CleanIsRoot(s: string)
    ensures CleanPath(s) == "/" <==> Parse(s) == Path(true, [])
    ensures CleanPath(s) == "." <==> Parse(s) == Path(false, [])
  {
    ParseIsNormal(s);
    assert Normal(Path(true, [])) && Render(Path(true, [])) == "/";
    assert Normal(Path(false, [])) && Render(Path(false, [])) == ".";
    if CleanPath(s) == "/" { RenderInjective(Parse(s), Path(true, [])); }
    if CleanPath(s) == "." { RenderInjective(Parse(s), Path(false, [])); }
  }

  lemma RootIsUnder(p: Path)
    requires Normal(p)
    ensures "/" <= Render(p) <==> p.rooted
  {
    FirstChar(p);
    assert "/" <= Render(p) <==> Render(p)[0] == '/';
  }

  /**
  hasDirPrefix holds exactly when the directory's segments come first, with one exception: the current
  directory holds no relative path but itself.
  */
  lemma HasDirPrefixIff(path: string, prefix: string)
    ensures HasDirPrefix(path, prefix) <==>
            Under(Parse(path), Parse(prefix)) && (Parse(prefix) == Path(false, []) ==> Parse(path) == Parse(prefix))
  {
    var (p, dir) := (Parse(path), Parse(prefix));
    ParseIsNormal(path);
    ParseIsNormal(prefix);
    CleanIsRoot(prefix);
    RootIsUnder(p);
    FirstChar(p);
    if Render(p) == Render(dir) {
      RenderInjective(p, dir);
    } else if dir == Path(false, []) {
      assert Render(dir) + "/" == "./";
      DotSlash(p);
    } else if dir.segs != [] {
      BelowIff(p, dir);
      PrefixCases(dir.segs, p.segs);
    }
  }

  lemma PrefixCases<T>(a: seq<T>, b: seq<T>)
    ensures a <= b <==> a == b || a < b
  {
  }

  /** No clean path starts with a dot segment. */
  lemma DotSlash(p: Path)
    requires Normal(p)
    ensures !("./" <= Render(p))
  {
    FirstChar(p);
    if p.segs != [] { PrefixOfJoin(["."], p.segs); }
  }

  lemma PrefixForm(prefix: string)
    ensures var dir := Parse(TrimSpace(prefix));
            NormalizeAllowedPrefix(prefix) == if dir.segs != [] then Render(dir) + "/" else if dir.rooted then "/" else ""
  {
    var dir := Parse(TrimSpace(prefix));
    ParseIsNormal(TrimSpace(prefix));
    FirstChar(dir);
    if dir.segs != [] {
      LastOfRender(dir);
      CleanIsRoot(TrimSpace(prefix));
    }
  }

  /** A clean path equals a directory or continues it after a slash exactly when the segments come first. */
  lemma SlashedIff(p: Path, dir: Path)
    requires Normal(p) && Normal(dir) && dir.segs != []
    ensures Render(p) == Render(dir) || Render(dir) + "/" <= Render(p) <==> Under(p, dir)
  {
    BelowIff(p, dir);
    PrefixCases(dir.segs, p.segs);
    if Render(p) == Render(dir) { RenderInjective(p, dir); }
  }

  /** pathWithinAllowedPrefixes, for each prefix. */
  lemma AllowedIff(path: string, prefix: string)
    ensures AllowedBy(CleanPath(path), prefix) <==> Allows(path, prefix)
  {
    var (p, dir) := (Parse(path), Parse(TrimSpace(prefix)));
    ParseIsNormal(path);
    ParseIsNormal(TrimSpace(prefix));
    PrefixForm(prefix);
    if dir.segs != [] {
      SlashedIff(p, dir);
    } else {
      RootIsUnder(p);
      FirstChar(p);
    }
  }

  function LastSeg(segs: seq<string>): string { if segs == [] then "" else segs[|segs|-1] }

  predicate EndsInSpace(s: string) { s != "" && IsSpace(s[|s|-1]) }

  lemma LastOfRender(p: Path)
    requires Normal(p) && p.segs != []
    ensures Render(p) != [] && LastSeg(p.segs) != "" && Render(p)[|Render(p)|-1] == LastSeg(p.segs)[|LastSeg(p.segs)|-1]
    ensures Render(p)[|Render(p)|-1] != '/'
  {
    LastOfJoin(p.segs);
    assert LastSeg(p.segs)[|LastSeg(p.segs)|-1] in LastSeg(p.segs);
  }

  lemma {:induction false} LastOfJoin(segs: seq<string>)
    requires segs != [] && forall i :: 0 <= i < |segs| ==> IsSegment(segs[i])
    ensures LastSeg(segs) != "" && Join(segs, '/') != [] && Join(segs, '/')[|Join(segs, '/')|-1] == LastSeg(segs)[|LastSeg(segs)|-1]
  {
    if |segs| > 1 {
      LastOfJoin(segs[1..]);
      assert LastSeg(segs[1..]) == LastSeg(segs);
    }
  }

  // ----- pathWithinDir ------------------------------------------------------------------------

  /** The working directory is an absolute path. */
  ghost predicate ValidCwd(cwd: Option<string>) { cwd.Some? ==> Rooted(cwd.value) }

  lemma AbsIsClean(cwd: Option<string>, s: string)
    requires ValidCwd(cwd) && Abs(cwd, s).Some?
    ensures var abs := Abs(cwd, s).value; Parse(abs).rooted && Normal(Parse(abs)) && Render(Parse(abs)) == abs
  {
    var raw := if Rooted(s) then s else cwd.value + "/" + s;
    assert Rooted(raw);
    CleanPathTwice(raw);
    ParseIsNormal(raw);
  }

  lemma {:induction false} RelIsUp(base: seq<string>, targ: seq<string>)
    requires Normal(Path(true, base)) && Normal(Path(true, targ))
    ensures if base <= targ then RelSegs(base, targ) == targ[|base|..]
            else RelSegs(base, targ) != [] && RelSegs(base, targ)[0] == ".."
    ensures Free(RelSegs(base, targ), '/')
  {
    if base != [] && targ != [] && base[0] == targ[0] {
      assert Normal(Path(true, base[1..])) && Normal(Path(true, targ[1..]));
      RelIsUp(base[1..], targ[1..]);
    }
  }

  lemma FirstSegment(segs: seq<string>)
    requires segs != [] && Free(segs, '/')
    ensures Join(segs, '/') == ".." || "../" <= Join(segs, '/') <==> segs[0] == ".."
  {
    if |segs| == 1 {
      assert |segs[0]| > 2 ==> segs[0][2] in segs[0];
    } else {
      PrefixOfJoin([".."], segs);
      SplitOfJoin(segs, '/');
      SplitWithout("..", '/');
      assert [".."] < segs <==> segs[0] == "..";
    }
  }

  lemma NotDot(segs: seq<string>)
    requires segs != [] && Free(segs, '/') && segs[0] != "."
    ensures Join(segs, '/') != "."
  {
    SplitOfJoin(segs, '/');
    if Join(segs, '/') == "." { SplitWithout(".", '/'); }
  }

  /** pathWithinDir holds exactly when both are given and the directory's segments come first. */
  lemma PathWithinDirIff(cwd: Option<string>, path: string, dir: string)
    requires ValidCwd(cwd)
    ensures PathWithinDir(cwd, path, dir) <==>
            && TrimSpace(path) != "" && TrimSpace(dir) != ""
            && Abs(cwd, CleanPath(path)).Some? && Abs(cwd, CleanPath(dir)).Some?
            && Under(Parse(Abs(cwd, CleanPath(path)).value), Parse(Abs(cwd, CleanPath(dir)).value))
  {
    var (p, d) := (Abs(cwd, CleanPath(path)), Abs(cwd, CleanPath(dir)));
    if p.Some? && d.Some? {
      AbsIsClean(cwd, CleanPath(path));
      AbsIsClean(cwd, CleanPath(dir));
      RelIff(Parse(d.value), Parse(p.value));
    }
  }

  /** Rel leads upwards exactly when the directory's segments do not come first. */
  lemma RelIff(dir: Path, p: Path)
    requires Normal(dir) && Normal(p) && dir.rooted && p.rooted
    ensures var rel := Rel(Render(dir), Render(p));
            rel == "." || (rel != ".." && !("../" <= rel)) <==> dir.segs <= p.segs
  {
    ParseOfRender(dir);
    ParseOfRender(p);
    RelIsUp(dir.segs, p.segs);
    if p.segs != dir.segs {
      var segs := RelSegs(dir.segs, p.segs);
      assert segs != [] && segs[0] != ".";
      FirstSegment(segs);
      NotDot(segs);
    }
  }

  // ----- the three together -------------------------------------------------------------------

  /** On absolute paths the three checks are one. */
  lemma ChecksAgree(cwd: Option<string>, path: string, dir: string)
    requires ValidCwd(cwd) && Rooted(path) && Rooted(dir) && TrimSpace(dir) == dir
    ensures HasDirPrefix(path, dir) <==> Under(Parse(path), Parse(dir))
    ensures PathWithinDir(cwd, path, dir) <==> Under(Parse(path), Parse(dir))
    ensures Within(path, [dir]) <==> Under(Parse(path), Parse(dir))
  {
    HasDirPrefixIff(path, dir);
    PathWithinDirIff(cwd, path, dir);
    NotBlank(path);
    NotBlank(dir);
    ParseIsNormal(path);
    ParseIsNormal(dir);
    FirstChar(Parse(path));
    FirstChar(Parse(dir));
    CleanPathTwice(path);
    CleanPathTwice(dir);
    assert Within(path, [dir]) <==> Allows(path, [dir][0]);
  }

  lemma NotBlank(s: string)
    requires Rooted(s)
    ensures TrimSpace(s) != ""
  {
    TrimOfSpaces(s);
    assert s[0] in s;
  }

  /** From the working directory, relative paths without dot-dots lie as their segments do. */
  lemma RelativeWithinDirIff(cwd: string, path: string, dir: string)
    requires Rooted(cwd) && !Rooted(path) && !Rooted(dir) && ".." !in Parse(path).segs && ".." !in Parse(dir).segs
    ensures PathWithinDir(Some(cwd), path, dir) <==>
            TrimSpace(path) != "" && TrimSpace(dir) != "" && Under(Parse(path), Parse(dir))
  {
    PathWithinDirIff(Some(cwd), path, dir);
    AbsOfRelative(cwd, path);
    AbsOfRelative(cwd, dir);
    PrefixAfter(Parse(cwd).segs, Parse(dir).segs, Parse(path).segs);
  }

  lemma AbsOfRelative(cwd: string, s: string)
    requires Rooted(cwd) && !Rooted(s) && ".." !in Parse(s).segs
    ensures Abs(Some(cwd), CleanPath(s)).Some?
    ensures Parse(Abs(Some(cwd), CleanPath(s)).value) == Path(true, Parse(cwd).segs + Parse(s).segs)
  {
    ParseIsNormal(s);
    FirstChar(Parse(s));
    JoinIs(cwd, Parse(s));
  }

  lemma PrefixAfter<T>(a: seq<T>, b: seq<T>, c: seq<T>)
    ensures a + b <= a + c <==> b <= c
  {
    assert (a + b)[|a|..] == b && (a + c)[|a|..] == c;
    if a + b <= a + c { assert (a + c)[|a|..][..|b|] == (a + b)[|a|..]; }
    if b <= c { assert c == b + c[|b|..] && a + c == a + b + c[|b|..]; }
  }

  /**
  On relative paths the two that compare them agree, unless the directory is the current one; the third, which goes
  by the working directory, agrees with the segments when there are no dot-dots.
  */
  lemma RelativeChecksAgree(cwd: string, path: string, dir: string)
    requires Rooted(cwd) && !Rooted(path) && !Rooted(dir) && TrimSpace(dir) == dir && dir != "" && TrimSpace(path) != ""
    ensures if Parse(dir) == Path(false, []) then !Within(path, [dir]) && (HasDirPrefix(path, dir) <==> Parse(path) == Parse(dir))
            else HasDirPrefix(path, dir) == Within(path, [dir]) == Under(Parse(path), Parse(dir))
    ensures ".." !in Parse(path).segs && ".." !in Parse(dir).segs ==>
              (PathWithinDir(Some(cwd), path, dir) <==> Under(Parse(path), Parse(dir)))
  {
    HasDirPrefixIff(path, dir);
    assert Within(path, [dir]) <==> Allows(path, [dir][0]);
    if ".." !in Parse(path).segs && ".." !in Parse(dir).segs { RelativeWithinDirIff(cwd, path, dir); }
  }

  lemma DotDotParses(name: string)
    requires IsSegment(name) && name != ".."
    ensures Parse("..") == Path(false, [".."]) && Parse(name) == Path(false, [name])
    ensures Parse("/" + name) == Path(true, [name]) && Parse("/" + name + "/" + "..") == Path(true, [])
  {
    ParseOfRender(Path(false, [".."]));
    ParseOfRender(Path(false, [name]));
    ParseOfRender(Path(true, [name]));
    assert Render(Path(true, [name])) == "/" + name;
    JoinParts("/" + name, "..");
    SplitWithout("..", '/');
    ReduceOne(true, [name], "..");
  }

  /** With a dot-dot it departs: the parent directory holds a name in the working directory, and no segment says so. */
  lemma ParentHoldsAll(name: string)
    requires IsSegment(name) && name != ".." && TrimSpace(name) != ""
    ensures PathWithinDir(Some("/" + name), name, "..") && !HasDirPrefix(name, "..") && !Within(name, [".."])
  {
    var cwd := "/" + name;
    DotDotParses(name);
    TrimOfTrimmed("..");
    PathWithinDirIff(Some(cwd), name, "..");
    AbsOfRelative(cwd, name);
    ParseOfRender(Path(true, []));
    HasDirPrefixIff(name, "..");
    assert Within(name, [".."]) <==> Allows(name, [".."][0]);
  }

  // ----- sanitizeRepoPath ---------------------------------------------------------------------

  lemma {:induction false} NoDotDots(rooted: bool, done: seq<string>, parts: seq<string>)
    requires ".." !in done && ".." !in parts
    ensures ".." !in Reduce(rooted, done, parts)
  {
    if parts != [] {
      var n := |parts| - 1;
      assert parts == parts[..n] + [parts[n]];
      NoDotDots(rooted, done, parts[..n]);
    }
  }

  /**
  What the sanitizer answers. A relative path without a dot-dot is never refused as outside the base, and is
  placed below it; an absolute one is accepted exactly when it is below the base already.
  */
  lemma SanitizeIs(cwd: Option<string>, raw: string, baseDir: string)
    requires ValidCwd(cwd)
    ensures var (value, result) := (TrimSpace(raw), SanitizeRepoPath(cwd, raw, baseDir));
            if value == "" then result == Clean("")
            else if ".." in Split(value, '/') then result == Refused(Traversal)
            else if Abs(cwd, baseDir).None? then result == Refused(NoWorkingDir)
            else
              var (p, base) := (Parse(value), Parse(Abs(cwd, baseDir).value));
              if p.rooted then result == (if base.segs <= p.segs then Clean(Render(p)) else Refused(OutsideBase))
              else result == Clean(Render(Path(true, base.segs + p.segs)))
  {
    var value := TrimSpace(raw);
    TrimIsTrimmed(raw);
    if value != "" && ".." !in Split(value, '/') && Abs(cwd, baseDir).Some? {
      var base := Abs(cwd, baseDir).value;
      AbsIsClean(cwd, baseDir);
      NoDotDots(Rooted(value), [], Split(value, '/'));
      PlacedAt(value, base);
    }
  }

  lemma PlacedAt(value: string, base: string)
    requires Parse(base).rooted && Normal(Parse(base)) && Render(Parse(base)) == base && ".." !in Parse(value).segs
    ensures var (p, clean) := (Parse(value), CleanPath(value));
            var full := CleanPath(if Rooted(clean) then clean else JoinPaths(base, clean));
            var q := if p.rooted then p else Path(true, Parse(base).segs + p.segs);
            full == Render(q) && (HasDirPrefix(full, base) <==> Parse(base).segs <= q.segs)
  {
    var (p, clean) := (Parse(value), CleanPath(value));
    ParseIsNormal(value);
    FirstChar(p);
    CleanPathTwice(value);
    FirstChar(Parse(base));
    if !p.rooted { JoinIs(base, p); }
    var q := if p.rooted then p else Path(true, Parse(base).segs + p.segs);
    ParseOfRender(q);
    HasDirPrefixIff(Render(q), base);
  }

  /** So every accepted path, unless blank, is an absolute clean path below the base. */
  lemma AcceptedIsInside(cwd: Option<string>, raw: string, baseDir: string)
    requires ValidCwd(cwd) && SanitizeRepoPath(cwd, raw, baseDir).Clean? && SanitizeRepoPath(cwd, raw, baseDir).path != ""
    ensures var path := SanitizeRepoPath(cwd, raw, baseDir).path;
            && Abs(cwd, baseDir).Some? && Under(Parse(path), Parse(Abs(cwd, baseDir).value))
            && Parse(path).rooted && ".." !in Parse(path).segs && Render(Parse(path)) == path
  {
    SanitizeIs(cwd, raw, baseDir);
    AbsIsClean(cwd, baseDir);
    var (p, base) := (Parse(TrimSpace(raw)), Parse(Abs(cwd, baseDir).value));
    ParseIsNormal(TrimSpace(raw));
    NoDotDots(Rooted(TrimSpace(raw)), [], Split(TrimSpace(raw), '/'));
    NormalBelow(base, p);
    var q := if p.rooted then p else Path(true, base.segs + p.segs);
    ParseOfRender(q);
  }

  /** The segment that the accepted path ends in: the input's own last one, or the base's if it names the base. */
  function EndOf(cwd: Option<string>, raw: string, baseDir: string): string {
    var (p, abs) := (Parse(TrimSpace(raw)), Abs(cwd, baseDir));
    if TrimSpace(raw) == "" then ""
    else if p.rooted || p.segs != [] then LastSeg(p.segs)
    else if abs.None? then ""
    else LastSeg(Parse(abs.value).segs)
  }

  /**
  Sanitizing an accepted path again leaves it alone exactly when that segment does not end in white space. It can,
  because only the whole input is trimmed, and a slash after it is cleaned away later.
  */
  lemma SanitizeTwiceIff(cwd: Option<string>, raw: string, baseDir: string)
    requires ValidCwd(cwd) && SanitizeRepoPath(cwd, raw, baseDir).Clean?
    ensures var path := SanitizeRepoPath(cwd, raw, baseDir).path;
            SanitizeRepoPath(cwd, path, baseDir) == Clean(path) <==> !EndsInSpace(EndOf(cwd, raw, baseDir))
  {
    var path := SanitizeRepoPath(cwd, raw, baseDir).path;
    TwiceIffTrimmed(cwd, raw, baseDir);
    SanitizeIs(cwd, raw, baseDir);
    if TrimSpace(raw) != "" {
      AcceptedEnds(cwd, raw, baseDir);
      AcceptedIsInside(cwd, raw, baseDir);
      ParseIsNormal(path);
      TrimmedIff(path);
    }
  }

  lemma AcceptedEnds(cwd: Option<string>, raw: string, baseDir: string)
    requires ValidCwd(cwd) && SanitizeRepoPath(cwd, raw, baseDir).Clean? && TrimSpace(raw) != ""
    ensures SanitizeRepoPath(cwd, raw, baseDir).path != ""
    ensures LastSeg(Parse(SanitizeRepoPath(cwd, raw, baseDir).path).segs) == EndOf(cwd, raw, baseDir)
  {
    SanitizeIs(cwd, raw, baseDir);
    AbsIsClean(cwd, baseDir);
    var (p, base) := (Parse(TrimSpace(raw)), Parse(Abs(cwd, baseDir).value));
    ParseIsNormal(TrimSpace(raw));
    NoDotDots(Rooted(TrimSpace(raw)), [], Split(TrimSpace(raw), '/'));
    NormalBelow(base, p);
    var q := if p.rooted then p else Path(true, base.segs + p.segs);
    ParseOfRender(q);
    FirstChar(q);
    if p.segs == [] { assert base.segs + p.segs == base.segs; }
  }

  lemma TrimmedIff(path: string)
    requires Normal(Parse(path)) && Parse(path).rooted && Render(Parse(path)) == path
    ensures TrimSpace(path) == path <==> !EndsInSpace(LastSeg(Parse(path).segs))
  {
    FirstChar(Parse(path));
    if Parse(path).segs != [] { LastOfRender(Parse(path)); }
    TrimIsTrimmed(path);
    if Trimmed(path) { TrimOfTrimmed(path); }
  }

  lemma TwiceIffTrimmed(cwd: Option<string>, raw: string, baseDir: string)
    requires ValidCwd(cwd) && SanitizeRepoPath(cwd, raw, baseDir).Clean?
    ensures var path := SanitizeRepoPath(cwd, raw, baseDir).path;
            SanitizeRepoPath(cwd, path, baseDir) == Clean(path) <==> TrimSpace(path) == path
  {
    var path := SanitizeRepoPath(cwd, raw, baseDir).path;
    if path != "" {
      AcceptedIsInside(cwd, raw, baseDir);
      ParseIsNormal(path);
      SanitizeIs(cwd, path, baseDir);
      SplitOfClean(path);
      FirstChar(Parse(path));
      NotBlank(path);
      if TrimSpace(path) != path { TrimmingShows(path); }
    }
  }

  lemma NameSlash(name: string)
    requires IsSegment(name) && name != ".."
    ensures Parse(name + "/") == Path(false, [name]) && ".." !in Split(name + "/", '/')
  {
    SplitAfter(name, '/', "");
    assert name + ['/'] + "" == name + "/";
    assert Split(name + "/", '/') == [name] + [""];
    ReduceInTwo(false, [], [name], [""]);
    ReduceOne(false, [], name);
    ReduceOne(false, [name], "");
    assert name[0] in name;
  }

  lemma RootName(name: string)
    requires IsSegment(name) && name != ".."
    ensures Parse("/") == Path(true, []) && Parse("/" + name) == Path(true, [name]) && ".." !in Split("/" + name, '/')
  {
    ParseOfRender(Path(true, []));
    ParseOfRender(Path(true, [name]));
    SplitOfClean("/" + name);
  }

  lemma SlashedName(name: string)
    requires IsSegment(name) && name != ".." && Trimmed(name)
    ensures Parse(name + " /") == Path(false, [name + " "]) && ".." !in Split(name + " /", '/')
    ensures TrimSpace(name + " /") == name + " /" && TrimSpace("/" + name + " ") == "/" + name
  {
    assert name + " /" == (name + " ") + "/";
    assert (name + " ")[|name|] == ' ';
    NameSlash(name + " ");
    TrimOfTrimmed(name + " /");
    assert "" + ("/" + name) + " " == "/" + name + " ";
    TrimOfPadded("", "/" + name, " ");
  }

  /** Such an input: any directory name that ends in a space, given with a slash. */
  lemma SanitizeTwiceDiffers(name: string)
    requires IsSegment(name) && name != ".." && Trimmed(name)
    ensures SanitizeRepoPath(None, name + " /", "/") == Clean("/" + name + " ")
    ensures SanitizeRepoPath(None, "/" + name + " ", "/") == Clean("/" + name)
  {
    SlashedName(name);
    RootName(name);
    SanitizeIs(None, name + " /", "/");
    assert [] + [name + " "] == [name + " "];
    assert Render(Path(true, [name + " "])) == "/" + name + " ";
    SanitizeIs(None, "/" + name + " ", "/");
  }

  lemma SplitOfClean(path: string)
    requires Normal(Parse(path)) && Parse(path).rooted && Render(Parse(path)) == path
    ensures Split(path, '/') == [""] + if Parse(path).segs == [] then [""] else Parse(path).segs
  {
    var rest := Join(Parse(path).segs, '/');
    assert path == [] + ['/'] + rest;
    SplitAfter([], '/', rest);
    if Parse(path).segs != [] { SplitOfJoin(Parse(path).segs, '/'); }
  }

  lemma {:induction false} SplitEnd(s: string, tail: string)
    requires '/' !in tail
    ensures var parts := Split(s, '/');
            var n := |parts| - 1;
            Split(s + tail, '/') == parts[..n] + [parts[n] + tail]
  {
    if s == [] {
      assert s + tail == tail;
      SplitWithout(tail, '/');
      assert [] + tail == tail;
    } else {
      assert (s + tail)[1..] == s[1..] + tail;
      SplitEnd(s[1..], tail);
      if s[0] == '/' { PutFront(Split(s[1..], '/'), tail); } else { PutInFirst(s[0], Split(s[1..], '/'), tail); }
    }
  }

  lemma PutFront(rest: seq<string>, tail: string)
    requires rest != []
    ensures var (m, parts) := (|rest| - 1, [[]] + rest);
            [[]] + (rest[..m] + [rest[m] + tail]) == parts[..m+1] + [parts[m+1] + tail]
  {
  }

  lemma PutInFirst(c: char, rest: seq<string>, tail: string)
    requires rest != []
    ensures var (m, parts) := (|rest| - 1, [[c] + rest[0]] + rest[1..]);
            var more := rest[..m] + [rest[m] + tail];
            [[c] + more[0]] + more[1..] == parts[..m] + [parts[m] + tail]
  {
    var m := |rest| - 1;
    if m == 0 {
      assert [c] + (rest[0] + tail) == [c] + rest[0] + tail;
    } else {
      var more := rest[..m] + [rest[m] + tail];
      assert more[0] == rest[0] && more[1..] == rest[1..m] + [rest[m] + tail];
    }
  }

  lemma TrimCutsRight(path: string) returns (right: string)
    requires Rooted(path)
    ensures path == TrimSpace(path) + right && AllSpace(right) && Rooted(TrimSpace(path))
  {
    NotBlank(path);
    assert TrimLeft(path) == path;
    right := TrimRightIs(path);
  }

  /** Cleaning what is left when the end of a clean path is cut off inside its last segment does not give it back. */
  lemma CuttingShows(path: string, v: string, right: string)
    requires Normal(Parse(path)) && Parse(path).rooted && Render(Parse(path)) == path
    requires path == v + right && right != [] && '/' !in right && Rooted(v) && ".." !in Split(v, '/')
    ensures Parse(v) != Parse(path)
  {
    SplitEnd(v, right);
    SplitOfClean(path);
    var (parts, segs) := (Split(v, '/'), Parse(path).segs);
    var n := |parts| - 1;
    assert Split(path, '/')[n] == parts[n] + right;
    assert n > 0;
    assert parts[..n] == Split(path, '/')[..n];
    assert parts[n] in parts;
    LastPart(segs, n - 1, parts, right);
  }

  /** A clean path that ends in white space is not what cleaning the trimmed path gives. */
  lemma TrimmingShows(path: string)
    requires Normal(Parse(path)) && Parse(path).rooted && Render(Parse(path)) == path && TrimSpace(path) != path
    ensures Rooted(TrimSpace(path))
    ensures ".." !in Split(TrimSpace(path), '/') ==> CleanPath(TrimSpace(path)) != path
  {
    FirstChar(Parse(path));
    var right := TrimCutsRight(path);
    CleanPathTwice(TrimSpace(path));
    if ".." !in Split(TrimSpace(path), '/') { CuttingShows(path, TrimSpace(path), right); }
  }

  lemma LastPart(segs: seq<string>, m: nat, parts: seq<string>, right: string)
    requires Normal(Path(true, segs)) && |segs| == m + 1 && |parts| == m + 2 && right != []
    requires parts[..m+1] == [""] + segs[..m] && segs[m] == parts[m+1] + right && parts[m+1] != ".."
    ensures Reduce(true, [], parts) != segs
  {
    var (front, last) := ([""] + segs[..m], parts[m+1]);
    FrontStays(segs[..m]);
    assert parts == parts[..m+1] + [last] && segs == segs[..m] + [last + right];
    PushDiffers(segs[..m], last, right);
  }

  lemma FrontStays(segs: seq<string>)
    requires Normal(Path(true, segs))
    ensures Reduce(true, [], [""] + segs) == segs
  {
    ReduceInTwo(true, [], [""], segs);
    ReduceOne(true, [], "");
    assert [] + segs == segs;
    ReduceOfNormal(true, [], segs);
  }

  lemma PushDiffers(done: seq<string>, part: string, right: string)
    requires part != ".." && right != []
    ensures Push(true, done, part) != done + [part + right]
  {
    assert (done + [part])[|done|] == part && (done + [part + right])[|done|] == part + right;
  }
}
