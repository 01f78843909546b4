/**
 * A JavaScript module of the module graph: its package type, its source
 * text, the syntax tree parsed from it at most once, and the import/export
 * statistics extracted from that tree.
 *
 * The parser and the statistics extractor are outside the model: `S` is the
 * parser's source type, `P` its program, and both are given as functions.
 */
module JsModule {
  import opened Wrappers
  import opened Paths

  /** How the module is loaded: unknown, CommonJS or ECMAScript, from the extension or `package.json`. */
  datatype JavaScriptPackageType =
    | Unknown         // the default
    | Cjs             // a `.cjs` file
    | CjsPackageJson  // `"type": "commonjs"` in package.json
    | Mjs             // a `.mjs` file
    | EsmPackageJson  // `"type": "module"` in package.json
  {
    predicate IsEsm() {
      this.Mjs? || this.EsmPackageJson?
    }

    predicate IsCjs() {
      this.Cjs? || this.CjsPackageJson?
    }
  }

  /** No package type is both ECMAScript and CommonJS; `Unknown` is exactly the one that is neither. */
  lemma PackageTypeExclusive(t: JavaScriptPackageType)
    ensures !(t.IsEsm() && t.IsCjs())
    ensures t == Unknown <==> !t.IsEsm() && !t.IsCjs()
  {
  }

  /** The counts of the statements and call sites found in a module. */
  datatype JavaScriptStats = JavaScriptStats(
    exportStatements: nat,
    importStatements: nat,
    otherStatements: nat,
    dynamicImports: nat,
    requireCalls: nat)

  /** The statistics of a module not yet parsed: every count zero. */
  const NoStats := JavaScriptStats(0, 0, 0, 0, 0)

  datatype LoadError = IoError

  class JavaScriptModule<S, P> {
    var packageType: JavaScriptPackageType
    /** The compute-once cache of the parsed program. */
    var program: Option<P>
    var source: string
    var sourceType: S
    var stats: JavaScriptStats
    /** The parser the cache is filled with. */
    const parser: (string, S) -> P
    /** How many times the parser has run for this module. */
    ghost var parses: nat

    /** The cache holds nothing, or the program parsed from the source, computed once. */
    ghost predicate Valid()
      reads this
    {
      && (program.None? ==> parses == 0)
      && (program.Some? ==> parses == 1 && program.value == parser(source, sourceType))
    }

    /** A barrel file re-exports only: no other statement, and at least `threshold` exports. */
    predicate IsBarrelFile(threshold: nat)
      reads this
    {
      stats.otherStatements == 0 && stats.exportStatements >= threshold
    }

    /** The state a freshly loaded module starts in. */
    constructor (source: string, sourceType: S, parser: (string, S) -> P)
      ensures Valid()
      ensures packageType == Unknown && program == None && stats == NoStats
      ensures this.source == source && this.sourceType == sourceType && this.parser == parser
    {
      this.packageType := Unknown;
      this.program := None;
      this.source := source;
      this.sourceType := sourceType;
      this.stats := NoStats;
      this.parser := parser;
      this.parses := 0;
    }

    /**
     * The parsed program: parsed and cached on the first call, the cached
     * value afterwards, so the parser runs at most once.
     */
    method GetProgram() returns (p: P)
      requires Valid()
      modifies this
      ensures Valid()
      ensures p == parser(source, sourceType) && program == Some(p)
      ensures old(program).Some? ==> parses == old(parses)
      ensures parses <= 1
      ensures packageType == old(packageType) && source == old(source)
      ensures sourceType == old(sourceType) && stats == old(stats)
    {
      if program.None? {
        program := Some(parser(source, sourceType));
        parses := parses + 1;
      }
      p := program.value;
    }

    /** Extracts the statistics of the (cached) program; they replace the old ones wholesale. */
    method Parse(extract: P -> JavaScriptStats)
      requires Valid()
      modifies this
      ensures Valid()
      ensures stats == extract(parser(source, sourceType))
      ensures program == Some(parser(source, sourceType)) && parses <= 1
      ensures packageType == old(packageType) && source == old(source) && sourceType == old(sourceType)
    {
      var p := GetProgram();
      stats := extract(p);
    }
  }

  /**
   * Loads the module at `path`: its source read from `files` (an `IoError`
   * when there is none), then the initial state.
   */
  method Load<S, P>(files: map<Path, string>, path: Path, sourceType: S, parser: (string, S) -> P)
    returns (r: Result<JavaScriptModule<S, P>, LoadError>)
    ensures Clean(path) !in files <==> r.Err?
    ensures r.Ok? ==>
              && fresh(r.value) && r.value.Valid()
              && r.value.packageType == Unknown && r.value.program == None && r.value.stats == NoStats
              && r.value.source == files[Clean(path)] && r.value.sourceType == sourceType
              && r.value.parser == parser
  {
    if Clean(path) !in files {
      return Err(IoError);
    }
    var source := files[Clean(path)];
    var m := new JavaScriptModule(source, sourceType, parser);
    return Ok(m);
  }

  /** Asking twice for the program gives the same program, and the parser runs once. */
  method GetProgramTwice<S, P>(m: JavaScriptModule<S, P>) returns (first: P, second: P)
    requires m.Valid() && m.program == None
    modifies m
    ensures first == second && m.parses == 1
  {
    first := m.GetProgram();
    second := m.GetProgram();
  }

  /** Without other statements the barrel test only compares the export count with the threshold. */
  lemma BarrelFileExamples<S, P>(m: JavaScriptModule<S, P>)
    requires m.stats.otherStatements == 0 && m.stats.exportStatements == 5
    ensures m.IsBarrelFile(3) && !m.IsBarrelFile(10)
  {
  }

  /** A module with any other statement is never a barrel file. */
  lemma OtherStatementsRuleOutBarrel<S, P>(m: JavaScriptModule<S, P>, threshold: nat)
    requires m.stats.otherStatements > 0
    ensures !m.IsBarrelFile(threshold)
  {
  }

  /** Lowering the threshold keeps a barrel file a barrel file. */
  lemma BarrelFileAntitone<S, P>(m: JavaScriptModule<S, P>, threshold: nat, lower: nat)
    requires m.IsBarrelFile(threshold) && lower <= threshold
    ensures m.IsBarrelFile(lower)
  {
  }
}
