/** `_resolve_tileset_paths` and the `parse_tilemap_file` wrapper.

    `pathlib` is replaced by a lexical model of POSIX paths: a path is
    absolute when it starts with `/`, and `Path.resolve()` anchors a relative
    path at the current directory (a parameter) and then collapses it
    segment by segment: empty and `.` segments vanish, `..` removes the
    segment before it and stays at the root. Symbolic links are not followed.
 */
module PathResolution {
  import opened Results
  import opened JsonValue
  import opened Numerals
  import opened TilemapModel
  import opened TilemapLoader

  // ------------------------------------------------------------- segments

  predicate IsAbsolute(p: string) {
    |p| > 0 && p[0] == '/'
  }

  /** A segment that survives normalisation: not empty, not `.` or `..`,
      and without a separator. */
  predicate Regular(s: string) {
    s != "" && s != "." && s != ".." && '/' !in s
  }

  predicate AllRegular(segs: seq<string>) {
    forall i :: 0 <= i < |segs| ==> Regular(segs[i])
  }

  /** The pieces between separators, with the empty and `.` ones dropped. */
  function Keep(parts: seq<string>): (segs: seq<string>)
    ensures forall i :: 0 <= i < |segs| ==> segs[i] != "" && segs[i] != "."
    ensures forall i :: 0 <= i < |segs| ==> segs[i] in parts
  {
    if parts == [] then []
    else if parts[0] == "" || parts[0] == "." then Keep(parts[1..])
    else [parts[0]] + Keep(parts[1..])
  }

  function Segments(p: string): (segs: seq<string>)
    ensures forall i :: 0 <= i < |segs| ==> segs[i] != "" && segs[i] != "." && '/' !in segs[i]
  {
    Keep(Split(p, '/'))
  }

  /** Walking the segments from a directory stack: `..` pops (and stays at
      the root), anything else is pushed. */
  function Collapse(stack: seq<string>, segs: seq<string>): (r: seq<string>)
    requires AllRegular(stack)
    requires forall i :: 0 <= i < |segs| ==> segs[i] != "" && segs[i] != "." && '/' !in segs[i]
    ensures AllRegular(r)
    decreases |segs|
  {
    if segs == [] then stack
    else if segs[0] == ".." then Collapse(if stack == [] then [] else stack[..|stack| - 1], segs[1..])
    else Collapse(stack + [segs[0]], segs[1..])
  }

  /** `/s1/s2/.../sn`, and `/` for no segments. */
  function Render(segs: seq<string>): (p: string)
    ensures IsAbsolute(p)
  {
    if segs == [] then "/" else RootedJoin(segs)
  }

  function RootedJoin(segs: seq<string>): (p: string)
    ensures segs != [] ==> IsAbsolute(p)
  {
    if segs == [] then "" else "/" + segs[0] + RootedJoin(segs[1..])
  }

  /** The canonical absolute form of a path. */
  function Normalize(p: string): string {
    Render(Collapse([], Segments(p)))
  }

  /** `Path.resolve()` without symbolic links: a relative path is taken
      from the current directory `cwd`. */
  function ResolveFrom(p: string, cwd: string): string {
    Normalize(if IsAbsolute(p) then p else cwd + "/" + p)
  }

  /** `base / path`: an absolute `path` replaces the base, and an empty base
      is the current directory. */
  function JoinPath(base: string, path: string): string {
    if IsAbsolute(path) || base == "" then path else base + "/" + path
  }

  /** `str((base_dir / path).resolve())`. */
  function JoinResolve(baseDir: string, path: string, cwd: string): string {
    ResolveFrom(JoinPath(baseDir, path), cwd)
  }

  // ------------------------------------------------ properties of paths

  /** One step of `Split`, on a string written as its first character and the rest. */
  lemma SplitCons(c: char, t: string, sep: char)
    ensures Split([c] + t, sep) ==
      var rest := Split(t, sep);
      if c == sep then [""] + rest else [[c] + rest[0]] + rest[1..]
  {
    assert ([c] + t)[0] == c && ([c] + t)[1..] == t;
  }

  /** The step of `SplitCons` keeps a common tail. */
  lemma ConsStep(c: char, sep: char, head: seq<string>, tail: seq<string>)
    requires |head| >= 1
    ensures var whole := head + tail;
      (if c == sep then [""] + whole else [[c] + whole[0]] + whole[1..]) ==
      (if c == sep then [""] + head else [[c] + head[0]] + head[1..]) + tail
  {
    var whole := head + tail;
    assert whole[0] == head[0] && whole[1..] == head[1..] + tail;
  }

  lemma {:induction false} SplitAround(a: string, b: string, sep: char)
    ensures Split(a + [sep] + b, sep) == Split(a, sep) + Split(b, sep)
  {
    if a == [] {
      assert a + [sep] + b == [sep] + b;
      SplitCons(sep, b, sep);
      assert Split(a, sep) == [""];
    } else {
      var t := a[1..];
      SplitAround(t, b, sep);
      SplitConsAppend(a[0], t, t + [sep] + b, Split(b, sep), sep);
      assert a == [a[0]] + t;
      assert a + [sep] + b == [a[0]] + (t + [sep] + b);
    }
  }

  /** Prefixing a character keeps a common tail of two splits. */
  lemma SplitConsAppend(c: char, t: string, u: string, tail: seq<string>, sep: char)
    requires Split(u, sep) == Split(t, sep) + tail
    ensures Split([c] + u, sep) == Split([c] + t, sep) + tail
  {
    SplitCons(c, t, sep);
    SplitCons(c, u, sep);
    ConsStep(c, sep, Split(t, sep), tail);
  }

  /** Splitting distributes over a separator between two strings. */
  lemma SplitAppend(a: string, b: string)
    ensures Split(a + "/" + b, '/') == Split(a, '/') + Split(b, '/')
  {
    SplitAround(a, b, '/');
    assert a + "/" + b == a + ['/'] + b;
  }

  lemma {:induction false} KeepAppend(xs: seq<string>, ys: seq<string>)
    ensures Keep(xs + ys) == Keep(xs) + Keep(ys)
  {
    if xs != [] {
      KeepAppend(xs[1..], ys);
      assert (xs + ys)[1..] == xs[1..] + ys;
    } else {
      assert xs + ys == ys;
    }
  }

  /** The segments of `a/b` are those of `a`, then those of `b`. */
  lemma SegmentsAppend(a: string, b: string)
    ensures Segments(a + "/" + b) == Segments(a) + Segments(b)
  {
    SplitAppend(a, b);
    KeepAppend(Split(a, '/'), Split(b, '/'));
  }

  lemma {:induction false} KeepRegular(segs: seq<string>)
    requires AllRegular(segs)
    ensures Keep(segs) == segs
  {
    if segs != [] {
      KeepRegular(segs[1..]);
      assert [segs[0]] + segs[1..] == segs;
    }
  }

  lemma {:induction false} SplitRootedJoin(segs: seq<string>)
    requires segs != [] && AllRegular(segs)
    ensures Split(segs[0] + RootedJoin(segs[1..]), '/') == segs
  {
    var rest := segs[1..];
    if rest == [] {
      assert segs[0] + RootedJoin(rest) == segs[0];
      SplitNoSeparator(segs[0], '/');
      assert segs == [segs[0]];
    } else {
      SplitRootedJoin(rest);
      assert RootedJoin(rest) == "/" + (rest[0] + RootedJoin(rest[1..]));
      SplitPrefix(segs[0], rest[0] + RootedJoin(rest[1..]), '/');
      assert segs[0] + RootedJoin(rest) == segs[0] + ['/'] + (rest[0] + RootedJoin(rest[1..]));
      assert [segs[0]] + rest == segs;
    }
  }

  /** A rendered path reads back as its segments. */
  lemma SegmentsRender(segs: seq<string>)
    requires AllRegular(segs)
    ensures Segments(Render(segs)) == segs
  {
    if segs == [] {
      assert Split("/", '/') == ["", ""];
    } else {
      SplitRootedJoin(segs);
      SplitPrefix("", segs[0] + RootedJoin(segs[1..]), '/');
      assert Render(segs) == "" + ['/'] + (segs[0] + RootedJoin(segs[1..]));
      KeepRegular(segs);
    }
  }

  lemma {:induction false} CollapseRegular(stack: seq<string>, segs: seq<string>)
    requires AllRegular(stack) && AllRegular(segs)
    ensures Collapse(stack, segs) == stack + segs
    decreases |segs|
  {
    if segs != [] {
      CollapseRegular(stack + [segs[0]], segs[1..]);
      assert stack + [segs[0]] + segs[1..] == stack + segs;
    }
  }

  lemma {:induction false} CollapseAppend(stack: seq<string>, xs: seq<string>, ys: seq<string>)
    requires AllRegular(stack)
    requires forall i :: 0 <= i < |xs| ==> xs[i] != "" && xs[i] != "." && '/' !in xs[i]
    requires forall i :: 0 <= i < |ys| ==> ys[i] != "" && ys[i] != "." && '/' !in ys[i]
    ensures Collapse(stack, xs + ys) == Collapse(Collapse(stack, xs), ys)
    decreases |xs|
  {
    if xs == [] {
      assert xs + ys == ys;
    } else {
      assert (xs + ys)[0] == xs[0] && (xs + ys)[1..] == xs[1..] + ys;
      var next := if xs[0] != ".." then stack + [xs[0]] else if stack == [] then [] else stack[..|stack| - 1];
      CollapseAppend(next, xs[1..], ys);
    }
  }

  /** A normalised path is absolute and made of regular segments only. */
  lemma NormalizeCanonical(p: string)
    ensures IsAbsolute(Normalize(p))
    ensures AllRegular(Segments(Normalize(p)))
    ensures Normalize(p) == Render(Segments(Normalize(p)))
  {
    SegmentsRender(Collapse([], Segments(p)));
  }

  /** Normalising twice is normalising once. */
  lemma NormalizeIdempotent(p: string)
    ensures Normalize(Normalize(p)) == Normalize(p)
  {
    var segs := Collapse([], Segments(p));
    SegmentsRender(segs);
    CollapseRegular([], segs);
    assert [] + segs == segs;
    assert Normalize(Normalize(p)) == Render(Collapse([], segs));
  }

  /** Collapsing the base directory first does not change the result:
      `Normalize(a/b) == Normalize(Normalize(a)/b)`. */
  lemma NormalizeJoin(a: string, b: string)
    ensures Normalize(a + "/" + b) == Normalize(Normalize(a) + "/" + b)
  {
    var sa := Segments(a);
    var sb := Segments(b);
    var ca := Collapse([], sa);
    SegmentsAppend(a, b);
    CollapseAppend([], sa, sb);
    SegmentsRender(ca);
    SegmentsAppend(Normalize(a), b);
    CollapseAppend([], ca, sb);
    CollapseRegular([], ca);
    assert [] + ca == ca;
    assert Normalize(a + "/" + b) == Render(Collapse(ca, sb));
    assert Segments(Normalize(a) + "/" + b) == ca + sb;
  }

  /** `Path("")` is the current directory, so an empty path resolves to the
      base directory itself. */
  lemma EmptyPathIsBase(baseDir: string, cwd: string)
    ensures JoinResolve(baseDir, "", cwd) == ResolveFrom(baseDir, cwd)
  {
    if baseDir != "" {
      var joined := baseDir + "/" + "";
      assert IsAbsolute(joined) == IsAbsolute(baseDir);
      SegmentsAppend(baseDir, "");
      assert Split("", '/') == [""];
      assert Segments("") == [];
      if IsAbsolute(baseDir) {
        assert Segments(joined) == Segments(baseDir);
      } else {
        assert cwd + "/" + joined == (cwd + "/" + baseDir) + "/" + "";
        SegmentsAppend(cwd + "/" + baseDir, "");
        assert Segments(cwd + "/" + joined) == Segments(cwd + "/" + baseDir);
      }
    }
  }

  // ------------------------------------------------------ the path pass

  /** A tileset's `path` is resolved unless it is absolute; there is no
      guard for the empty path. */
  function ResolveTileset(ts: TilesetResource, baseDir: string, cwd: string): (r: TilesetResource)
    ensures IsAbsolute(r.path)
    ensures IsAbsolute(ts.path) ==> r == ts
    ensures !IsAbsolute(ts.path) ==> r.path == JoinResolve(baseDir, ts.path, cwd)
    ensures r.(path := ts.path) == ts
  {
    if IsAbsolute(ts.path) then ts
    else
      NormalizeCanonical(JoinPath(baseDir, ts.path));
      ts.(path := JoinResolve(baseDir, ts.path, cwd))
  }

  /** A rule's `tileset_path` is resolved unless it is empty or absolute. */
  function ResolveRule(rule: AutotileRule, baseDir: string, cwd: string): (r: AutotileRule)
    ensures r.tilesetPath == "" <==> rule.tilesetPath == ""
    ensures r.tilesetPath != "" ==> IsAbsolute(r.tilesetPath)
    ensures (rule.tilesetPath == "" || IsAbsolute(rule.tilesetPath)) ==> r == rule
    ensures rule.tilesetPath != "" && !IsAbsolute(rule.tilesetPath) ==>
      r.tilesetPath == JoinResolve(baseDir, rule.tilesetPath, cwd)
    ensures r.(tilesetPath := rule.tilesetPath) == rule
  {
    if rule.tilesetPath == "" || IsAbsolute(rule.tilesetPath) then rule
    else
      NormalizeCanonical(JoinPath(baseDir, rule.tilesetPath));
      rule.(tilesetPath := JoinResolve(baseDir, rule.tilesetPath, cwd))
  }

  function ResolveTilesets(tilesets: seq<TilesetResource>, baseDir: string, cwd: string): seq<TilesetResource> {
    seq(|tilesets|, k requires 0 <= k < |tilesets| => ResolveTileset(tilesets[k], baseDir, cwd))
  }

  function ResolveRules(rules: seq<AutotileRule>, baseDir: string, cwd: string): seq<AutotileRule> {
    seq(|rules|, k requires 0 <= k < |rules| => ResolveRule(rules[k], baseDir, cwd))
  }

  /** Rules nested in a group are treated exactly like top-level rules. */
  function ResolveGroup(group: AutotileGroup, baseDir: string, cwd: string): AutotileGroup {
    group.(rules := ResolveRules(group.rules, baseDir, cwd))
  }

  function ResolveGroups(groups: seq<AutotileGroup>, baseDir: string, cwd: string): seq<AutotileGroup> {
    seq(|groups|, k requires 0 <= k < |groups| => ResolveGroup(groups[k], baseDir, cwd))
  }

  /** The tilemap after `_resolve_tileset_paths(tilemap, base_dir)`.

      Every tileset is resolved with `ResolveTileset` and every rule, top-level
      or in a group, with `ResolveRule`. Only those path fields change: the
      metadata, layers and raw document stay, every list keeps its length,
      and each element is equal to its original but for the path. After the
      pass every tileset path is absolute, and every rule path, top-level or
      in a group, is absolute or was and stays empty; paths that were
      absolute are kept as they were. */
  function ResolvedTilemap(t: Tilemap, baseDir: string, cwd: string): (r: Tilemap)
    ensures r.meta == t.meta && r.data == t.data && r.raw == t.raw
    ensures |r.resources.tilesets| == |t.resources.tilesets|
    ensures forall k :: 0 <= k < |t.resources.tilesets| ==>
      r.resources.tilesets[k].(path := t.resources.tilesets[k].path) == t.resources.tilesets[k]
    ensures |r.projectState.rules| == |t.projectState.rules|
    ensures forall k :: 0 <= k < |t.projectState.rules| ==>
      r.projectState.rules[k].(tilesetPath := t.projectState.rules[k].tilesetPath) == t.projectState.rules[k]
    ensures |r.projectState.groups| == |t.projectState.groups|
    ensures forall k :: 0 <= k < |t.projectState.groups| ==>
      && r.projectState.groups[k].name == t.projectState.groups[k].name
      && |r.projectState.groups[k].rules| == |t.projectState.groups[k].rules|
      && (forall j :: 0 <= j < |t.projectState.groups[k].rules| ==>
            r.projectState.groups[k].rules[j].(tilesetPath := t.projectState.groups[k].rules[j].tilesetPath)
            == t.projectState.groups[k].rules[j])
    ensures forall k :: 0 <= k < |t.resources.tilesets| ==>
      r.resources.tilesets[k] == ResolveTileset(t.resources.tilesets[k], baseDir, cwd)
    ensures forall k :: 0 <= k < |t.projectState.rules| ==>
      r.projectState.rules[k] == ResolveRule(t.projectState.rules[k], baseDir, cwd)
    ensures forall k, j :: 0 <= k < |t.projectState.groups| && 0 <= j < |t.projectState.groups[k].rules| ==>
      r.projectState.groups[k].rules[j] == ResolveRule(t.projectState.groups[k].rules[j], baseDir, cwd)
    ensures forall k :: 0 <= k < |r.resources.tilesets| ==> IsAbsolute(r.resources.tilesets[k].path)
    ensures forall k :: 0 <= k < |t.resources.tilesets| && IsAbsolute(t.resources.tilesets[k].path) ==>
      r.resources.tilesets[k] == t.resources.tilesets[k]
    ensures forall k :: 0 <= k < |r.projectState.rules| ==>
      && (r.projectState.rules[k].tilesetPath == "" <==> t.projectState.rules[k].tilesetPath == "")
      && (r.projectState.rules[k].tilesetPath != "" ==> IsAbsolute(r.projectState.rules[k].tilesetPath))
    ensures forall k, j :: 0 <= k < |r.projectState.groups| && 0 <= j < |r.projectState.groups[k].rules| ==>
      && (r.projectState.groups[k].rules[j].tilesetPath == "" <==>
          t.projectState.groups[k].rules[j].tilesetPath == "")
      && (r.projectState.groups[k].rules[j].tilesetPath != "" ==>
          IsAbsolute(r.projectState.groups[k].rules[j].tilesetPath))
  {
    t.(resources := TilemapResources(ResolveTilesets(t.resources.tilesets, baseDir, cwd)),
       projectState := TilemapProjectState(ResolveRules(t.projectState.rules, baseDir, cwd),
                                           ResolveGroups(t.projectState.groups, baseDir, cwd)))
  }

  /** The loop over one list of rules, rewriting `tileset_path` in place. */
  method ResolveRulePaths(rules: seq<AutotileRule>, baseDir: string, cwd: string) returns (out: seq<AutotileRule>)
    ensures out == ResolveRules(rules, baseDir, cwd)
  {
    out := rules;
    var i := 0;
    while i < |out|
      invariant 0 <= i <= |out| == |rules|
      invariant forall k :: 0 <= k < i ==> out[k] == ResolveRule(rules[k], baseDir, cwd)
      invariant forall k :: i <= k < |out| ==> out[k] == rules[k]
    {
      var rule := out[i];
      if rule.tilesetPath != "" {
        if !IsAbsolute(rule.tilesetPath) {
          out := out[i := rule.(tilesetPath := JoinResolve(baseDir, rule.tilesetPath, cwd))];
        }
      }
      i := i + 1;
    }
  }

  /** `_resolve_tileset_paths`: the tilesets, then the top-level rules, then
      the rules of every group. */
  method ResolveTilesetPaths(t: Tilemap, baseDir: string, cwd: string) returns (r: Tilemap)
    ensures r == ResolvedTilemap(t, baseDir, cwd)
  {
    var tilesets := t.resources.tilesets;
    var i := 0;
    while i < |tilesets|
      invariant 0 <= i <= |tilesets| == |t.resources.tilesets|
      invariant forall k :: 0 <= k < i ==> tilesets[k] == ResolveTileset(t.resources.tilesets[k], baseDir, cwd)
      invariant forall k :: i <= k < |tilesets| ==> tilesets[k] == t.resources.tilesets[k]
    {
      var ts := tilesets[i];
      if !IsAbsolute(ts.path) {
        tilesets := tilesets[i := ts.(path := JoinResolve(baseDir, ts.path, cwd))];
      }
      i := i + 1;
    }

    var rules := ResolveRulePaths(t.projectState.rules, baseDir, cwd);

    var groups := t.projectState.groups;
    i := 0;
    while i < |groups|
      invariant 0 <= i <= |groups| == |t.projectState.groups|
      invariant forall k :: 0 <= k < i ==> groups[k] == ResolveGroup(t.projectState.groups[k], baseDir, cwd)
      invariant forall k :: i <= k < |groups| ==> groups[k] == t.projectState.groups[k]
    {
      var groupRules := ResolveRulePaths(groups[i].rules, baseDir, cwd);
      groups := groups[i := groups[i].(rules := groupRules)];
      i := i + 1;
    }

    r := t.(resources := TilemapResources(tilesets), projectState := TilemapProjectState(rules, groups));
  }

  /** A relative tileset path becomes the normalised join of the base
      directory and the path; an empty one becomes the base directory. */
  lemma RelativeTilesetResolved(ts: TilesetResource, baseDir: string, cwd: string)
    requires !IsAbsolute(ts.path)
    ensures ResolveTileset(ts, baseDir, cwd).path == ResolveFrom(JoinPath(baseDir, ts.path), cwd)
    ensures ts.path == "" ==> ResolveTileset(ts, baseDir, cwd).path == ResolveFrom(baseDir, cwd)
  {
    if ts.path == "" {
      EmptyPathIsBase(baseDir, cwd);
    }
  }

  /** Running the pass twice is running it once. */
  lemma PassIdempotent(t: Tilemap, baseDir: string, cwd: string)
    ensures ResolvedTilemap(ResolvedTilemap(t, baseDir, cwd), baseDir, cwd) == ResolvedTilemap(t, baseDir, cwd)
  {
    var r := ResolvedTilemap(t, baseDir, cwd);
    var rr := ResolvedTilemap(r, baseDir, cwd);
    assert rr.resources.tilesets == r.resources.tilesets;
    assert rr.projectState.rules == r.projectState.rules;
    forall k | 0 <= k < |r.projectState.groups|
      ensures rr.projectState.groups[k] == r.projectState.groups[k]
    {
      assert rr.projectState.groups[k].rules == r.projectState.groups[k].rules;
    }
    assert rr.projectState.groups == r.projectState.groups;
  }

  /** Resolving against a base directory is resolving against its own
      normalised form. */
  lemma BaseDirNormalised(baseDir: string, path: string, cwd: string)
    requires IsAbsolute(baseDir) && !IsAbsolute(path)
    ensures JoinResolve(baseDir, path, cwd) == JoinResolve(Normalize(baseDir), path, cwd)
  {
    NormalizeCanonical(baseDir);
    NormalizeJoin(baseDir, path);
  }

  /** A rule gives the same result whether it sits in the top-level list or
      in a group. */
  lemma GroupRulesLikeTopLevel(t: Tilemap, baseDir: string, cwd: string, g: nat, j: nat, m: nat)
    requires g < |t.projectState.groups| && j < |t.projectState.groups[g].rules| && m < |t.projectState.rules|
    requires t.projectState.groups[g].rules[j] == t.projectState.rules[m]
    ensures var r := ResolvedTilemap(t, baseDir, cwd);
      r.projectState.groups[g].rules[j] == r.projectState.rules[m]
  {
  }

  /** A relative path of segments `segs`, resolved against an absolute
      canonical base, walks those segments from the base. */
  lemma ResolveRendered(base: seq<string>, segs: seq<string>, cwd: string)
    requires AllRegular(base) && segs != []
    requires forall i :: 0 <= i < |segs| ==> segs[i] != "" && segs[i] != "." && '/' !in segs[i]
    ensures JoinResolve(Render(base), Join(segs, '/'), cwd) == Render(Collapse(base, segs))
  {
    var rel := Join(segs, '/');
    SplitJoin(segs, '/');
    SegmentsAppend(Render(base), rel);
    SegmentsRender(base);
    KeepNamed(segs);
    CollapseAppend([], base, segs);
    CollapseRegular([], base);
    assert [] + base == base;
  }

  lemma {:induction false} KeepNamed(segs: seq<string>)
    requires forall i :: 0 <= i < |segs| ==> segs[i] != "" && segs[i] != "."
    ensures Keep(segs) == segs
  {
    if segs != [] {
      KeepNamed(segs[1..]);
      assert [segs[0]] + segs[1..] == segs;
    }
  }

  lemma RenderOne(a: string)
    ensures Render([a]) == "/" + a
  {
    assert [a][1..] == [] && [a][0] == a;
    assert RootedJoin([a]) == "/" + a + RootedJoin([]);
    assert "/" + a + "" == "/" + a;
  }

  lemma RenderTwo(a: string, b: string)
    ensures Render([a, b]) == "/" + a + "/" + b
  {
    assert [a, b][1..] == [b];
    RenderOne(b);
    assert RootedJoin([b]) == "/" + b;
    assert "/" + a + ("/" + b) == "/" + a + "/" + b;
  }

  lemma JoinTwo(a: string, b: string)
    ensures Join([a, b], '/') == a + "/" + b
  {
    assert [a, b][1..] == [b];
  }

  lemma SubdirectoryLiterals()
    ensures Render(["maps"]) == "/maps"
    ensures Join(["tiles", "a.png"], '/') == "tiles/a.png"
    ensures Render(["maps", "tiles", "a.png"]) == "/maps/tiles/a.png"
    ensures AllRegular(["maps"]) && AllRegular(["tiles", "a.png"])
  {
    RenderOne("maps");
    JoinTwo("tiles", "a.png");
    assert ["maps", "tiles", "a.png"][1..] == ["tiles", "a.png"];
    RenderTwo("tiles", "a.png");
    assert Render(["maps", "tiles", "a.png"]) == "/maps" + "/tiles/a.png";
  }

  /** A relative path is resolved below the base directory. */
  lemma ResolveIntoSubdirectory(cwd: string)
    ensures JoinResolve("/maps", "tiles/a.png", cwd) == "/maps/tiles/a.png"
  {
    SubdirectoryLiterals();
    CollapseRegular(["maps"], ["tiles", "a.png"]);
    assert ["maps"] + ["tiles", "a.png"] == ["maps", "tiles", "a.png"];
    ResolveRendered(["maps"], ["tiles", "a.png"], cwd);
  }

  lemma ParentSegmentLiterals()
    ensures Render(["maps", "level"]) == "/maps/level"
    ensures Join(["..", "a.png"], '/') == "../a.png"
    ensures Render(["maps", "a.png"]) == "/maps/a.png"
    ensures AllRegular(["maps", "level"])
  {
    RenderTwo("maps", "level");
    JoinTwo("..", "a.png");
    RenderTwo("maps", "a.png");
  }

  lemma ParentSegmentCollapse()
    ensures Collapse(["maps", "level"], ["..", "a.png"]) == ["maps", "a.png"]
  {
    assert ["..", "a.png"][1..] == ["a.png"];
    assert ["maps", "level"][..1] == ["maps"];
    assert Collapse(["maps", "level"], ["..", "a.png"]) == Collapse(["maps"], ["a.png"]);
    assert ["maps"] + ["a.png"] == ["maps", "a.png"];
    assert Collapse(["maps"], ["a.png"]) == Collapse(["maps", "a.png"], []);
  }

  /** `..` climbs out of the base directory. */
  lemma ResolveParentSegment(cwd: string)
    ensures JoinResolve("/maps/level", "../a.png", cwd) == "/maps/a.png"
  {
    ParentSegmentLiterals();
    ParentSegmentCollapse();
    ResolveRendered(["maps", "level"], ["..", "a.png"], cwd);
  }

  // ----------------------------------------------------- the file wrapper

  /** `Path(file).parent`: the path without its last segment; `/` for the
      root and `.` for a bare name. */
  function ParentDir(filePath: string): string {
    var segs := Segments(filePath);
    var up := if segs == [] then [] else segs[..|segs| - 1];
    if IsAbsolute(filePath) then Render(up)
    else if up == [] then "."
    else Join(up, '/')
  }

  lemma ParentOfRendered(segs: seq<string>, name: string)
    requires AllRegular(segs) && Regular(name)
    ensures ParentDir(Render(segs + [name])) == Render(segs)
  {
    SegmentsRender(segs + [name]);
    assert (segs + [name])[..|segs|] == segs;
  }

  /** A map file at `/maps/0.json` resolves its relative tileset
      `tiles/a.png` to `/maps/tiles/a.png`. */
  lemma FileDirectoryExample(ts: TilesetResource, cwd: string)
    requires ts.path == "tiles/a.png"
    ensures ResolveTileset(ts, ParentDir("/maps/0.json"), cwd).path == "/maps/tiles/a.png"
  {
    assert ["maps"] + ["0.json"] == ["maps", "0.json"];
    assert "/maps/0.json" == Render(["maps", "0.json"]);
    ParentOfRendered(["maps"], "0.json");
    assert "/maps" == Render(["maps"]);
    ResolveIntoSubdirectory(cwd);
  }

  /** `parse_tilemap_file` on a document already read from `filePath`:
      parse, then resolve the paths against the file's directory. */
  function LoadTilemapOf(payload: Json, filePath: string, cwd: string): (r: Result<Tilemap>)
    ensures r.Ok? <==> TilemapOf(payload).Ok?
    ensures r.Err? ==> r == TilemapOf(payload)
    ensures r.Ok? ==> r.value == ResolvedTilemap(TilemapOf(payload).value, ParentDir(filePath), cwd)
  {
    var tilemap :- TilemapOf(payload);
    Ok(ResolvedTilemap(tilemap, ParentDir(filePath), cwd))
  }

  method ParseTilemapFile(payload: Json, filePath: string, cwd: string) returns (r: Result<Tilemap>)
    ensures r == LoadTilemapOf(payload, filePath, cwd)
  {
    var tilemap :- ParseTilemapDict(payload);
    var resolved := ResolveTilesetPaths(tilemap, ParentDir(filePath), cwd);
    r := Ok(resolved);
  }
}
