/**
 * A TypeScript configuration file (`tsconfig.json`) after deserialisation,
 * the precedence merge that folds one configuration over another, and the
 * in-place expansion of every path it lists.
 *
 * `compilerOptions` is a type parameter `O`: its own merge and expansion
 * come in as function parameters. `V` is the JSON value held under a key
 * the configuration does not recognise.
 */
module Config {
  import opened Wrappers
  import opened Paths
  import opened PathTypes

  /** One base configuration, or several (TypeScript 5.0's multiple `extends`). */
  datatype ExtendsField = Single(name: string) | Multiple(names: seq<string>)

  datatype ProjectReference = ProjectReference(path: CompilerPath, prepend: Option<bool>)

  /**
   * A configuration as a value. An unset field (`None`) means "inherit"; a
   * set but empty list means "override with nothing".
   */
  datatype TsConfig<O, V> = TsConfig(
    extendsField: Option<ExtendsField>,
    compilerOptions: Option<O>,
    includePaths: Option<seq<CompilerPath>>,
    excludePaths: Option<seq<CompilerPath>>,
    files: Option<seq<CompilerPath>>,
    references: Option<seq<ProjectReference>>,
    otherFields: map<string, V>)

  /** The default configuration: nothing set, no other keys. */
  function EmptyConfig<O, V>(): TsConfig<O, V> {
    TsConfig(None, None, None, None, None, None, map[])
  }

  // ---------------------------------------------------------------------
  // Merge

  /** A value `theirs` sets replaces `mine`; an unset one keeps it. */
  function Override<T>(mine: Option<T>, theirs: Option<T>): Option<T> {
    if theirs.Some? then theirs else mine
  }

  /**
   * `base` with `other` merged over it: compiler options merged (into the
   * default when `base` has none), lists replaced wholesale when `other` sets
   * them, `extends` and `references` always taken from `other`, other keys
   * united with `other` winning.
   */
  function Merged<O, V>(base: TsConfig<O, V>, other: TsConfig<O, V>,
                        mergeOptions: (O, O) -> O, defaultOptions: O): TsConfig<O, V>
  {
    TsConfig(
      other.extendsField,
      if other.compilerOptions.Some?
      then Some(mergeOptions(base.compilerOptions.GetOr(defaultOptions), other.compilerOptions.value))
      else base.compilerOptions,
      Override(base.includePaths, other.includePaths),
      Override(base.excludePaths, other.excludePaths),
      Override(base.files, other.files),
      other.references,
      base.otherFields + other.otherFields)
  }

  /** The unrecognised keys after a merge: the union, `other` winning on a shared key. */
  lemma MergeOtherFields<O, V>(base: TsConfig<O, V>, other: TsConfig<O, V>,
                               mergeOptions: (O, O) -> O, defaultOptions: O)
    ensures var r := Merged(base, other, mergeOptions, defaultOptions).otherFields;
      && r.Keys == base.otherFields.Keys + other.otherFields.Keys
      && (forall k :: k in other.otherFields ==> r[k] == other.otherFields[k])
      && (forall k :: k in base.otherFields && k !in other.otherFields ==> r[k] == base.otherFields[k])
  {
  }

  /** An explicitly empty `include` list overrides the inherited one. */
  lemma ExplicitEmptyListWins<O, V>(base: TsConfig<O, V>, other: TsConfig<O, V>,
                                    mergeOptions: (O, O) -> O, defaultOptions: O)
    requires base.includePaths == Some([FromText("src")]) && other.includePaths == Some([])
    ensures Merged(base, other, mergeOptions, defaultOptions).includePaths == Some([])
  {
  }

  /** What the compiler options' own merge must satisfy for folds to regroup. */
  ghost predicate OptionsMergeLaws<O(!new)>(mergeOptions: (O, O) -> O, defaultOptions: O) {
    && (forall x, y, z :: mergeOptions(mergeOptions(x, y), z) == mergeOptions(x, mergeOptions(y, z)))
    && (forall x :: mergeOptions(defaultOptions, x) == x)
  }

  /** Equal on every field except `compilerOptions`. */
  ghost predicate SameExceptOptions<O, V>(a: TsConfig<O, V>, b: TsConfig<O, V>) {
    && a.extendsField == b.extendsField
    && a.includePaths == b.includePaths && a.excludePaths == b.excludePaths && a.files == b.files
    && a.references == b.references
    && a.otherFields == b.otherFields
  }

  /**
   * Merging is associative (for compiler options, when their own merge is),
   * so a chain may be folded in any grouping.
   */
  lemma MergeAssociative<O(!new), V>(a: TsConfig<O, V>, b: TsConfig<O, V>, c: TsConfig<O, V>,
                                     mergeOptions: (O, O) -> O, defaultOptions: O)
    ensures SameExceptOptions(
              Merged(Merged(a, b, mergeOptions, defaultOptions), c, mergeOptions, defaultOptions),
              Merged(a, Merged(b, c, mergeOptions, defaultOptions), mergeOptions, defaultOptions))
    ensures OptionsMergeLaws(mergeOptions, defaultOptions) ==>
              Merged(Merged(a, b, mergeOptions, defaultOptions), c, mergeOptions, defaultOptions)
              == Merged(a, Merged(b, c, mergeOptions, defaultOptions), mergeOptions, defaultOptions)
  {
    assert a.otherFields + b.otherFields + c.otherFields == a.otherFields + (b.otherFields + c.otherFields);
  }

  /** The empty configuration is a left unit of the merge. */
  lemma MergeEmptyLeft<O(!new), V>(c: TsConfig<O, V>, mergeOptions: (O, O) -> O, defaultOptions: O)
    ensures SameExceptOptions(Merged(EmptyConfig(), c, mergeOptions, defaultOptions), c)
    ensures OptionsMergeLaws(mergeOptions, defaultOptions) ==>
              Merged(EmptyConfig(), c, mergeOptions, defaultOptions) == c
  {
    assert map[] + c.otherFields == c.otherFields;
  }

  /** A chain folded left to right from the empty configuration, as callers do. */
  function Fold<O, V>(configs: seq<TsConfig<O, V>>, mergeOptions: (O, O) -> O, defaultOptions: O): TsConfig<O, V>
    decreases |configs|
  {
    if configs == [] then EmptyConfig()
    else Merged(Fold(configs[..|configs| - 1], mergeOptions, defaultOptions),
                configs[|configs| - 1], mergeOptions, defaultOptions)
  }

  /** Folding a concatenation is merging the folds of its (non-empty) halves. */
  lemma {:induction false} FoldAppend<O(!new), V>(xs: seq<TsConfig<O, V>>, ys: seq<TsConfig<O, V>>,
                                                  mergeOptions: (O, O) -> O, defaultOptions: O)
    requires ys != []
    ensures SameExceptOptions(Fold(xs + ys, mergeOptions, defaultOptions),
                              Merged(Fold(xs, mergeOptions, defaultOptions),
                                     Fold(ys, mergeOptions, defaultOptions), mergeOptions, defaultOptions))
    ensures OptionsMergeLaws(mergeOptions, defaultOptions) ==>
              Fold(xs + ys, mergeOptions, defaultOptions)
              == Merged(Fold(xs, mergeOptions, defaultOptions),
                        Fold(ys, mergeOptions, defaultOptions), mergeOptions, defaultOptions)
    decreases |ys|
  {
    var front, last := ys[..|ys| - 1], ys[|ys| - 1];
    assert (xs + ys)[..|xs + ys| - 1] == xs + front;
    assert (xs + ys)[|xs + ys| - 1] == last;
    var fx := Fold(xs, mergeOptions, defaultOptions);
    if front == [] {
      MergeEmptyLeft(last, mergeOptions, defaultOptions);
      assert xs + front == xs;
    } else {
      FoldAppend(xs, front, mergeOptions, defaultOptions);
      var ff := Fold(front, mergeOptions, defaultOptions);
      MergeAssociative(fx, ff, last, mergeOptions, defaultOptions);
    }
  }

  /**
   * After folding `xs + ys`, a list field the fold of `ys` sets comes from
   * `ys`; one it leaves unset comes from `xs`.
   */
  lemma LaterSettingWins<O(!new), V>(xs: seq<TsConfig<O, V>>, ys: seq<TsConfig<O, V>>,
                                     mergeOptions: (O, O) -> O, defaultOptions: O)
    requires ys != []
    ensures var whole, early, late := Fold(xs + ys, mergeOptions, defaultOptions),
                                      Fold(xs, mergeOptions, defaultOptions),
                                      Fold(ys, mergeOptions, defaultOptions);
      && whole.includePaths == Override(early.includePaths, late.includePaths)
      && whole.excludePaths == Override(early.excludePaths, late.excludePaths)
      && whole.files == Override(early.files, late.files)
      && whole.extendsField == late.extendsField
  {
    FoldAppend(xs, ys, mergeOptions, defaultOptions);
  }

  // ---------------------------------------------------------------------
  // Expansion

  /** `after` is `before` with every path expanded, in the same order. */
  predicate PathsExpanded(before: seq<CompilerPath>, after: seq<CompilerPath>, sourceDir: Path, targetDir: Path) {
    |after| == |before| &&
    forall i :: 0 <= i < |before| ==> after[i] == before[i].Expand(sourceDir, targetDir)
  }

  predicate OptionalPathsExpanded(before: Option<seq<CompilerPath>>, after: Option<seq<CompilerPath>>,
                                  sourceDir: Path, targetDir: Path) {
    match before
    case None => after.None?
    case Some(paths) => after.Some? && PathsExpanded(paths, after.value, sourceDir, targetDir)
  }

  /** `after` is `before` with every reference's path expanded and `prepend` kept. */
  predicate ReferencesExpanded(before: seq<ProjectReference>, after: seq<ProjectReference>,
                               sourceDir: Path, targetDir: Path) {
    |after| == |before| &&
    forall i :: 0 <= i < |before| ==>
      after[i] == ProjectReference(before[i].path.Expand(sourceDir, targetDir), before[i].prepend)
  }

  /** Expansion leaves every path's text and kind alone and normalises what it computes. */
  lemma ExpansionKeepsText(before: seq<CompilerPath>, after: seq<CompilerPath>, sourceDir: Path, targetDir: Path)
    requires PathsExpanded(before, after, sourceDir, targetDir)
    ensures forall i :: 0 <= i < |after| ==>
      && after[i].path == before[i].path && after[i].kind == before[i].kind
      && after[i].expandedPath.Some? && IsNormal(after[i].expandedPath.value)
  {
  }

  /** Expands each path of the list in turn, as `iter_mut` does. */
  method ExpandPaths(paths: seq<CompilerPath>, sourceDir: Path, targetDir: Path) returns (expanded: seq<CompilerPath>)
    ensures PathsExpanded(paths, expanded, sourceDir, targetDir)
  {
    expanded := paths;
    var i := 0;
    while i < |expanded|
      invariant 0 <= i <= |expanded| == |paths|
      invariant forall j :: 0 <= j < i ==> expanded[j] == paths[j].Expand(sourceDir, targetDir)
      invariant forall j :: i <= j < |paths| ==> expanded[j] == paths[j]
    {
      expanded := expanded[i := expanded[i].Expand(sourceDir, targetDir)];
      i := i + 1;
    }
  }

  /** Expands the path of each project reference in turn. */
  method ExpandReferences(references: seq<ProjectReference>, sourceDir: Path, targetDir: Path)
    returns (expanded: seq<ProjectReference>)
    ensures ReferencesExpanded(references, expanded, sourceDir, targetDir)
  {
    expanded := references;
    var i := 0;
    while i < |expanded|
      invariant 0 <= i <= |expanded| == |references|
      invariant forall j :: 0 <= j < i ==>
        expanded[j] == ProjectReference(references[j].path.Expand(sourceDir, targetDir), references[j].prepend)
      invariant forall j :: i <= j < |references| ==> expanded[j] == references[j]
    {
      var reference := expanded[i];
      expanded := expanded[i := reference.(path := reference.path.Expand(sourceDir, targetDir))];
      i := i + 1;
    }
  }

  // ---------------------------------------------------------------------
  // The configuration object, changed in place

  class TsConfigJson<O, V> {
    var extendsField: Option<ExtendsField>
    var compilerOptions: Option<O>
    var includePaths: Option<seq<CompilerPath>>
    var excludePaths: Option<seq<CompilerPath>>
    var files: Option<seq<CompilerPath>>
    var references: Option<seq<ProjectReference>>
    var otherFields: map<string, V>

    /** The configuration this object currently holds. */
    function Value(): TsConfig<O, V>
      reads this
    {
      TsConfig(extendsField, compilerOptions, includePaths, excludePaths, files, references, otherFields)
    }

    constructor (config: TsConfig<O, V>)
      ensures Value() == config
    {
      extendsField := config.extendsField;
      compilerOptions := config.compilerOptions;
      includePaths := config.includePaths;
      excludePaths := config.excludePaths;
      files := config.files;
      references := config.references;
      otherFields := config.otherFields;
    }

    /**
     * Merges `other` over this configuration, `other` winning on every
     * conflict.
     */
    method Extend(other: TsConfig<O, V>, mergeOptions: (O, O) -> O, defaultOptions: O)
      modifies this
      ensures Value() == Merged(old(Value()), other, mergeOptions, defaultOptions)
      ensures compilerOptions ==
                if other.compilerOptions.Some?
                then Some(mergeOptions(old(compilerOptions).GetOr(defaultOptions), other.compilerOptions.value))
                else old(compilerOptions)
      ensures includePaths == (if other.includePaths.Some? then other.includePaths else old(includePaths))
      ensures excludePaths == (if other.excludePaths.Some? then other.excludePaths else old(excludePaths))
      ensures files == (if other.files.Some? then other.files else old(files))
      ensures extendsField == other.extendsField && references == other.references
      ensures otherFields.Keys == old(otherFields).Keys + other.otherFields.Keys
      ensures forall k :: k in other.otherFields ==> otherFields[k] == other.otherFields[k]
      ensures forall k :: k in old(otherFields) && k !in other.otherFields ==> otherFields[k] == old(otherFields)[k]
    {
      if other.compilerOptions.Some? {
        var current := if compilerOptions.Some? then compilerOptions.value else defaultOptions;
        compilerOptions := Some(mergeOptions(current, other.compilerOptions.value));
      }
      if other.includePaths.Some? {
        includePaths := other.includePaths;
      }
      if other.excludePaths.Some? {
        excludePaths := other.excludePaths;
      }
      if other.files.Some? {
        files := other.files;
      }
      // Not inherited: always overwritten, even with nothing.
      extendsField := other.extendsField;
      references := other.references;
      otherFields := otherFields + other.otherFields;
    }

    /**
     * Expands every path the configuration lists: `sourceDir` is the
     * directory of the file that declared them, `targetDir` that of the file
     * using the configuration. Presence, length and order of every list are
     * kept; only expanded paths change.
     */
    method Expand(sourceDir: Path, targetDir: Path, expandOptions: (O, Path, Path) -> O)
      modifies this
      ensures compilerOptions ==
                if old(compilerOptions).Some?
                then Some(expandOptions(old(compilerOptions).value, sourceDir, targetDir))
                else None
      ensures OptionalPathsExpanded(old(includePaths), includePaths, sourceDir, targetDir)
      ensures OptionalPathsExpanded(old(excludePaths), excludePaths, sourceDir, targetDir)
      ensures OptionalPathsExpanded(old(files), files, sourceDir, targetDir)
      ensures old(references).None? ==> references.None?
      ensures old(references).Some? ==>
                references.Some? && ReferencesExpanded(old(references).value, references.value, sourceDir, targetDir)
      ensures extendsField == old(extendsField) && otherFields == old(otherFields)
    {
      if compilerOptions.Some? {
        compilerOptions := Some(expandOptions(compilerOptions.value, sourceDir, targetDir));
      }
      if includePaths.Some? {
        var expanded := ExpandPaths(includePaths.value, sourceDir, targetDir);
        includePaths := Some(expanded);
      }
      if excludePaths.Some? {
        var expanded := ExpandPaths(excludePaths.value, sourceDir, targetDir);
        excludePaths := Some(expanded);
      }
      if files.Some? {
        var expanded := ExpandPaths(files.value, sourceDir, targetDir);
        files := Some(expanded);
      }
      if references.Some? {
        var expanded := ExpandReferences(references.value, sourceDir, targetDir);
        references := Some(expanded);
      }
    }
  }
}
