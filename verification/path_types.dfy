/**
 * `CompilerPath`: a path or glob written in a TypeScript configuration file,
 * classified from its literal text, and expanded against the directory of
 * the file that declared it or, for paths led by `${configDir}`, against the
 * directory of the file that uses the configuration.
 */
module PathTypes {
  import opened Wrappers
  import opened Paths

  datatype PathKind = Path | Glob

  /** The leading component that switches expansion to the target directory. */
  const ConfigDirToken: string := "${configDir}"

  /** Glob exactly when the text holds a `*` or a `?`. */
  function KindOf(text: string): (r: PathKind)
    ensures r == Glob <==> exists i :: 0 <= i < |text| && (text[i] == '*' || text[i] == '?')
  {
    if '*' in text || '?' in text then Glob else Path
  }

  /** The text with every `\` turned into `/`. */
  function NormaliseSeparators(text: string): (r: string)
    ensures |r| == |text| && '\\' !in r
    ensures forall i :: 0 <= i < |text| && text[i] == '\\' ==> r[i] == '/'
    ensures forall i :: 0 <= i < |text| && text[i] != '\\' ==> r[i] == text[i]
  {
    seq(|text|, i requires 0 <= i < |text| => if text[i] == '\\' then '/' else text[i])
  }

  /**
   * The expanded form of `text`: its components resolved against `targetDir`
   * after a leading `${configDir}` component, otherwise against `sourceDir`,
   * then cleaned.
   */
  function ExpandedPath(text: string, sourceDir: Path, targetDir: Path): (r: Path)
    ensures IsNormal(r)
  {
    var components := Split(text);
    var walked := if |components| > 0 && components[0] == ConfigDirToken
                  then Walk(targetDir, components[1..])
                  else Walk(sourceDir, components);
    CleanIsNormal(walked);
    Clean(walked)
  }

  /**
   * `kind` is derived from `path`; `expandedPath` is `None` until the path is
   * expanded (an empty `PathBuf` in the Rust type).
   */
  datatype CompilerPath = CompilerPath(kind: PathKind, path: string, expandedPath: Option<Path>) {

    /** The classification agrees with the literal text. */
    predicate KindMatchesText() {
      kind == KindOf(path)
    }

    /** Sets the expanded path and nothing else. */
    function Expand(sourceDir: Path, targetDir: Path): (r: CompilerPath)
      ensures r.kind == kind && r.path == path
      ensures r.expandedPath.Some? && IsNormal(r.expandedPath.value)
    {
      this.(expandedPath := Some(ExpandedPath(path, sourceDir, targetDir)))
    }

    /** The display form, also the string a path converts into. */
    function ToString(): (r: string)
      ensures |r| == |path| && '\\' !in r
      ensures forall i :: 0 <= i < |path| ==> r[i] == (if path[i] == '\\' then '/' else path[i])
    {
      NormaliseSeparators(path)
    }
  }

  /** Building a path from text; one function serves both `&str` and `String`. */
  function FromText(text: string): (r: CompilerPath)
    ensures r.kind == Glob <==> exists i :: 0 <= i < |text| && (text[i] == '*' || text[i] == '?')
    ensures r.path == text && r.expandedPath.None?
    ensures r.KindMatchesText()
  {
    CompilerPath(KindOf(text), text, None)
  }

  lemma KindExamples()
    ensures FromText("src/**/*.ts").kind == Glob
    ensures FromText("src/index.ts").kind == Path
  {
    assert "src/**/*.ts"[4] == '*';
  }

  // ---------------------------------------------------------------------
  // Expansion

  /** Expansion keeps the classification in step with the text. */
  lemma ExpandKeepsKind(p: CompilerPath, sourceDir: Path, targetDir: Path)
    requires p.KindMatchesText()
    ensures p.Expand(sourceDir, targetDir).KindMatchesText()
  {
  }

  /** A second expansion with the same directories changes nothing. */
  lemma ExpandIdempotent(p: CompilerPath, sourceDir: Path, targetDir: Path)
    ensures p.Expand(sourceDir, targetDir).Expand(sourceDir, targetDir) == p.Expand(sourceDir, targetDir)
  {
  }

  /**
   * A path of plain names resolves below the declaring file's directory,
   * whatever the target directory.
   */
  lemma {:induction false} ExpandPlainNames(p: CompilerPath, sourceDir: Path, targetDir: Path)
    requires IsNormal(sourceDir) && IsNormal(Split(p.path))
    requires Split(p.path) == [] || Split(p.path)[0] != ConfigDirToken
    ensures p.Expand(sourceDir, targetDir).expandedPath == Some(sourceDir + Split(p.path))
  {
    var components := Split(p.path);
    WalkNames(sourceDir, components);
    NormalConcat(sourceDir, components);
    WalkNames([], sourceDir + components);
    assert ExpandedPath(p.path, sourceDir, targetDir) == Clean(Walk(sourceDir, components));
    assert Clean(sourceDir + components) == sourceDir + components;
  }

  /**
   * After a leading `${configDir}`, a path of plain names resolves below the
   * using file's directory, whatever the declaring file's directory.
   */
  lemma {:induction false} ExpandConfigDirNames(p: CompilerPath, sourceDir: Path, targetDir: Path)
    requires IsNormal(targetDir)
    requires |Split(p.path)| > 0 && Split(p.path)[0] == ConfigDirToken
    requires IsNormal(Split(p.path)[1..])
    ensures p.Expand(sourceDir, targetDir).expandedPath == Some(targetDir + Split(p.path)[1..])
  {
    var rest := Split(p.path)[1..];
    WalkNames(targetDir, rest);
    NormalConcat(targetDir, rest);
    WalkNames([], targetDir + rest);
    assert ExpandedPath(p.path, sourceDir, targetDir) == Clean(Walk(targetDir, rest));
    assert Clean(targetDir + rest) == targetDir + rest;
  }

  /**
   * Without a leading `${configDir}`, any path expands to the declaring
   * file's directory followed by its components, cleaned: `..` pops a
   * segment and `.` is dropped. The target directory plays no part.
   */
  lemma ExpandAgainstSource(text: string, sourceDir: Path, targetDir: Path)
    requires IsNormal(sourceDir)
    requires Split(text) == [] || Split(text)[0] != ConfigDirToken
    ensures ExpandedPath(text, sourceDir, targetDir) == Clean(sourceDir + Split(text))
  {
    CleanAfterWalk(sourceDir, Split(text));
  }

  /**
   * After a leading `${configDir}`, any path expands to the using file's
   * directory followed by the remaining components, cleaned. The declaring
   * file's directory plays no part.
   */
  lemma ExpandAgainstTarget(text: string, sourceDir: Path, targetDir: Path)
    requires IsNormal(targetDir)
    requires |Split(text)| > 0 && Split(text)[0] == ConfigDirToken
    ensures ExpandedPath(text, sourceDir, targetDir) == Clean(targetDir + Split(text)[1..])
  {
    CleanAfterWalk(targetDir, Split(text)[1..]);
  }

  lemma NormalConcat(a: Path, b: Path)
    requires IsNormal(a) && IsNormal(b)
    ensures IsNormal(a + b)
  {
    assert forall i :: 0 <= i < |a + b| ==> (a + b)[i] == if i < |a| then a[i] else b[i - |a|];
  }

  /** The components of `a/b` for two names without a separator. */
  lemma SplitTwo(a: string, b: string)
    requires a != "" && b != "" && '/' !in a && '/' !in b
    ensures Split(a + ['/'] + b) == [a, b]
  {
    SplitAtSlash(a, b, "");
    SplitNoSlash(a, "");
    SplitNoSlash(b, "");
    assert "" + a == a && "" + b == b;
  }

  lemma ExampleNamesNormal()
    ensures IsNormal(["proj", "b"]) && IsNormal(["out"])
  {
    assert "proj" != "" && "proj" != "." && "proj" != "..";
    assert "b" != "" && "b" != "." && "b" != "..";
    assert "out" != "" && "out" != "." && "out" != "..";
  }

  /** `${configDir}/out`, declared in `/proj/a` and used from `/proj/b`, expands to `/proj/b/out`. */
  lemma ExpandConfigDirExample()
    ensures FromText("${configDir}/out").Expand(["proj", "a"], ["proj", "b"]).expandedPath == Some(["proj", "b", "out"])
  {
    var text := "${configDir}/out";
    assert text == ConfigDirToken + ['/'] + "out";
    SplitTwo(ConfigDirToken, "out");
    var p := FromText(text);
    assert p.path == text && Split(p.path) == [ConfigDirToken, "out"];
    assert Split(p.path)[1..] == ["out"];
    ExampleNamesNormal();
    ExpandConfigDirNames(p, ["proj", "a"], ["proj", "b"]);
    assert ["proj", "b"] + ["out"] == ["proj", "b", "out"];
  }

  /** `../out`, declared in `/proj/a`, expands to `/proj/out` whatever the using directory. */
  lemma ExpandParentExample(targetDir: Path)
    ensures FromText("../out").Expand(["proj", "a"], targetDir).expandedPath == Some(["proj", "out"])
  {
    var text := "../out";
    assert text == ".." + ['/'] + "out";
    SplitTwo("..", "out");
    var components := Split(text);
    assert components[0] != ConfigDirToken;
    assert components == ["..", "out"];
    assert Step(["proj", "a"], "..") == ["proj"];
    assert Walk(["proj"], ["out"]) == Walk(["proj", "out"], []);
    assert Walk(["proj", "a"], components) == ["proj", "out"];
    assert IsNormal(["proj", "out"]);
    WalkNames([], ["proj", "out"]);
    assert [] + ["proj", "out"] == ["proj", "out"];
    assert ExpandedPath(text, ["proj", "a"], targetDir) == Clean(Walk(["proj", "a"], components));
  }

  // ---------------------------------------------------------------------
  // String form

  /**
   * The string form carries no backslash, and reading it back gives a path of
   * the same kind whose string form is unchanged.
   */
  lemma StringRoundTrip(p: CompilerPath)
    requires p.KindMatchesText()
    ensures '\\' !in p.ToString()
    ensures FromText(p.ToString()).kind == p.kind
    ensures FromText(p.ToString()).ToString() == p.ToString()
  {
    var s := p.ToString();
    assert ('*' in s) == ('*' in p.path) by {
      assert forall i :: 0 <= i < |s| ==> (s[i] == '*' <==> p.path[i] == '*');
    }
    assert ('?' in s) == ('?' in p.path) by {
      assert forall i :: 0 <= i < |s| ==> (s[i] == '?' <==> p.path[i] == '?');
    }
    assert NormaliseSeparators(s) == s;
  }

  // ---------------------------------------------------------------------
  // Ordering: kind first (Path before Glob), then the path's components,
  // then the expanded path.

  datatype Ordering = Less | Equal | Greater {
    function Flip(): Ordering {
      match this
      case Less => Greater
      case Equal => Equal
      case Greater => Less
    }
  }

  function CompareKind(a: PathKind, b: PathKind): Ordering {
    if a == b then Equal else if a == Path then Less else Greater
  }

  /** Lexicographic order on characters. */
  function CompareText(a: string, b: string): Ordering
    decreases |a|
  {
    if a == [] then (if b == [] then Equal else Less)
    else if b == [] then Greater
    else if a[0] < b[0] then Less
    else if a[0] > b[0] then Greater
    else CompareText(a[1..], b[1..])
  }

  /** Component order: `.` before `..` before any name; names by their text. */
  function ComponentRank(c: string): nat {
    if c == "." then 0 else if c == ".." then 1 else 2
  }

  function CompareComponent(a: string, b: string): Ordering {
    if ComponentRank(a) < ComponentRank(b) then Less
    else if ComponentRank(a) > ComponentRank(b) then Greater
    else CompareText(a, b)
  }

  /** Lexicographic order on component lists; a proper prefix comes first. */
  function CompareComponents(a: seq<string>, b: seq<string>): Ordering
    decreases |a|
  {
    if a == [] then (if b == [] then Equal else Less)
    else if b == [] then Greater
    else if CompareComponent(a[0], b[0]) != Equal then CompareComponent(a[0], b[0])
    else CompareComponents(a[1..], b[1..])
  }

  /** An unset (empty) expanded path comes before any absolute one. */
  function CompareExpanded(a: Option<Path>, b: Option<Path>): Ordering {
    match (a, b)
    case (None, None) => Equal
    case (None, Some(_)) => Less
    case (Some(_), None) => Greater
    case (Some(x), Some(y)) => CompareComponents(x, y)
  }

  /** The kind decides first: a plain path sorts before every glob. */
  function Compare(p: CompilerPath, q: CompilerPath): (r: Ordering)
    ensures p.kind != q.kind ==> r == (if p.kind == Path then Less else Greater)
  {
    if CompareKind(p.kind, q.kind) != Equal then CompareKind(p.kind, q.kind)
    else if CompareComponents(Split(p.path), Split(q.path)) != Equal
    then CompareComponents(Split(p.path), Split(q.path))
    else CompareExpanded(p.expandedPath, q.expandedPath)
  }

  lemma {:induction false} CompareTextProperties(a: string, b: string)
    ensures CompareText(b, a) == CompareText(a, b).Flip()
    ensures CompareText(a, b) == Equal <==> a == b
    decreases |a|
  {
    if a != [] && b != [] && a[0] == b[0] {
      CompareTextProperties(a[1..], b[1..]);
      assert a == [a[0]] + a[1..] && b == [b[0]] + b[1..];
    }
  }

  lemma {:induction false} CompareComponentsProperties(a: seq<string>, b: seq<string>)
    ensures CompareComponents(b, a) == CompareComponents(a, b).Flip()
    ensures CompareComponents(a, b) == Equal <==> a == b
    decreases |a|
  {
    if a != [] && b != [] {
      CompareTextProperties(a[0], b[0]);
      if CompareComponent(a[0], b[0]) == Equal {
        CompareComponentsProperties(a[1..], b[1..]);
        assert a == [a[0]] + a[1..] && b == [b[0]] + b[1..];
      }
    }
  }

  /** A plain path sorts before any glob, whatever their text. */
  lemma PathBeforeGlob(p: CompilerPath, q: CompilerPath)
    requires p.kind == Path && q.kind == Glob
    ensures Compare(p, q) == Less && Compare(q, p) == Greater
  {
  }

  /**
   * The order is antisymmetric, and two paths compare equal exactly when they
   * have the same kind, the same components and the same expanded path.
   */
  lemma CompareProperties(p: CompilerPath, q: CompilerPath)
    ensures Compare(q, p) == Compare(p, q).Flip()
    ensures Compare(p, q) == Equal <==>
              p.kind == q.kind && Split(p.path) == Split(q.path) && p.expandedPath == q.expandedPath
  {
    CompareComponentsProperties(Split(p.path), Split(q.path));
    if p.expandedPath.Some? && q.expandedPath.Some? {
      CompareComponentsProperties(p.expandedPath.value, q.expandedPath.value);
    }
  }
}
