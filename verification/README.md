# TypeScript configuration resolution and JavaScript modules, in Dafny

This project models two parts of a monorepo analysis toolkit.

- **`tsconfig.json` handling** (`crates/tsconfig-json`). It covers:
  - the `TsConfigJson` structure;
  - `extend`, the in-place precedence merge used to fold a chain of configurations from the most-base file to the most specific;
  - `expand`, which fills in the expanded absolute path of every `include`, `exclude`, `files` and `references` entry;
  - the resolver for a file's `extends` inheritance chain. It handles relative files and packages found by walking up `node_modules` directories, and TypeScript 5.0's multiple `extends`;
  - `CompilerPath`: a path or glob classified from its text, expanded against the declaring file's directory, or against the using file's directory after a leading `${configDir}`. It also has a string form and a derived ordering.
- **The JavaScript module** of the module graph (`crates/module-graph/src/js`). It covers:
  - the package type;
  - a compute-once cache of the parsed program;
  - loading from the filesystem;
  - the parse pass that replaces the import/export statistics;
  - the barrel-file test.

Files:

| file | module | contents |
|---|---|---|
| `wrappers.dfy` | `Wrappers` | `Option`, `Result` |
| `paths.dfy` | `Paths` | absolute paths as segment lists, splitting text on `/`, logical resolution (`Walk`), lexical cleaning (`Clean`), `Join` |
| `path_types.dfy` | `PathTypes` | `PathKind`, `CompilerPath`, expansion, string form, ordering |
| `tsconfig_json.dfy` | `Config` | `TsConfig` values, `Merged`/`Fold`, the `TsConfigJson` class with `Extend` and `Expand` |
| `tsconfig_extends.dfy` | `Extends` | the filesystem as a value, node_modules lookup, the chain as specification functions, the resolver as methods, chain lemmas |
| `js_module.dfy` | `JsModule` | `JavaScriptPackageType`, `JavaScriptStats`, the `JavaScriptModule` class, `Load` |

Modelling choices:

- **Paths.** A path is the list of its segments below the filesystem root, and the root is `[]`. `Walk` applies one component at a time:
  - `.` and empty components are skipped;
  - `..` pops a segment, and does nothing at the root;
  - a name is pushed.

  Logical resolution against a directory is the walk from that directory. Lexical cleaning is the same walk from the root.
- **The filesystem** is a value `FileSystem(existing, documents)`. Both parts are keyed by cleaned path, since the operating system resolves `.` and `..` itself. A missing or unreadable file is `IoError`; a document that does not deserialise is `DeserializeError`.
- **Two roles for `TsConfigJson`.** The immutable configuration stored in a chain entry is the datatype `TsConfig`. The object that `extend` and `expand` change in place is the class `TsConfigJson`, and its `Value()` is the `TsConfig` it holds.
- **`compilerOptions` is a type parameter.** The compiler options are not part of this model, so their merge, default value and expansion are passed as function parameters.
- **The chain resolver recurses without a cycle guard.** The specification functions `DeepChain`, `TargetChain` and `RefsChain` mirror the recursion exactly, with a `fuel` bound on its depth. A walk deeper than `fuel`, or one that reaches a path with no parent, ends in the model-only error `NoResult`: there the source recurses until the stack overflows and the process aborts (a cycle), or panics. The resolver methods take a ghost `fuel` and require that the specification chain is not `NoResult`. `ExtendsChain` is the reversed deep chain. `ListedChains` restates it in the order `extends` lists its references.

Behaviour of the code worth noting:

- **Ordering of `CompilerPath`.** The derived ordering covers `(kind, path, expanded_path)`, not only kind and text.
- **`get_program` never fails.** Parse errors are discarded, so `GetProgram` returns a program and no error.
- **`load` and an unrecognised extension.** `load` unwraps the source type, so an unrecognised extension is a panic rather than an error result. Here the source type is a parameter.
- **The package type** is always `Unknown` after loading.

## Model

| member | source | states |
|---|---|---|
| Paths.CleanIsNormal | crates/tsconfig-json/src/path_types.rs:33 | the cleaned path has no empty, `.` or `..` segment |
| Paths.CleanAfterWalk | crates/tsconfig-json/src/path_types.rs:29-33 | against a normal directory, resolving segments one by one and cleaning the concatenation give the same path, and that path is already clean |
| Paths.CleanIdempotent | crates/tsconfig-json/src/path_types.rs:33 | cleaning a cleaned path changes nothing |
| Paths.WalkAppend | crates/tsconfig-json/src/path_types.rs:29-31 | resolving `s + t` against a directory is resolving `t` against the result of resolving `s` |
| Paths.WalkNames | crates/tsconfig-json/src/path_types.rs:29-31 | resolving plain names against a directory appends them to it |
| Paths.SplitAtSlash | crates/tsconfig-json/src/path_types.rs:47 | splitting `a/b` gives the pieces of `a` followed by those of `b` |
| PathTypes.KindOf | crates/tsconfig-json/src/path_types.rs:39-43 | the kind is `Glob` exactly when some character of the text is `*` or `?` |
| PathTypes.FromText | crates/tsconfig-json/src/path_types.rs:37-57 | the kind is `Glob` exactly when the text contains a `*` or a `?`; the text is kept and the expanded path is unset |
| PathTypes.KindExamples | crates/tsconfig-json/src/path_types.rs:39-43 | `src/**/*.ts` is a glob and `src/index.ts` a plain path |
| PathTypes.ExpandedPath | crates/tsconfig-json/src/path_types.rs:27-34 | the expanded path has no empty, `.` or `..` segment; which path it is, for every input against a normal (cleaned) base directory, is stated by `ExpandAgainstSource` and `ExpandAgainstTarget` |
| PathTypes.CompilerPath.Expand | crates/tsconfig-json/src/path_types.rs:27-34 | only the expanded path changes, and it is set and normalised |
| PathTypes.ExpandKeepsKind | crates/tsconfig-json/src/path_types.rs:27-34 | after expansion the kind still agrees with the text |
| PathTypes.ExpandIdempotent | crates/tsconfig-json/src/path_types.rs:27-34 | expanding twice with the same directories equals expanding once |
| PathTypes.ExpandPlainNames | crates/tsconfig-json/src/path_types.rs:30-31 | a path of plain names without `${configDir}` expands to a normal (cleaned) source directory followed by those names, whatever the target directory |
| PathTypes.ExpandConfigDirNames | crates/tsconfig-json/src/path_types.rs:28-29 | after a leading `${configDir}`, plain names expand below a normal (cleaned) target directory, whatever the source directory |
| PathTypes.ExpandAgainstSource | crates/tsconfig-json/src/path_types.rs:28-33 | without a leading `${configDir}`, every path declared against a normal (cleaned) directory expands to the cleaned concatenation of that directory and its components, whatever the target directory |
| PathTypes.ExpandAgainstTarget | crates/tsconfig-json/src/path_types.rs:28-33 | after a leading `${configDir}`, every path used from a normal (cleaned) directory expands to the cleaned concatenation of that directory and the remaining components, whatever the source directory |
| PathTypes.ExpandConfigDirExample | crates/tsconfig-json/src/path_types.rs:28-29 | `${configDir}/out` declared in `/proj/a` and used from `/proj/b` expands to `/proj/b/out` |
| PathTypes.ExpandParentExample | crates/tsconfig-json/src/path_types.rs:30-33 | `../out` declared in `/proj/a` expands to `/proj/out` for any target directory |
| PathTypes.NormaliseSeparators | crates/tsconfig-json/src/path_types.rs:67 | same length, every backslash turned into `/`, and every other character kept in place |
| PathTypes.CompilerPath.ToString | crates/tsconfig-json/src/path_types.rs:59-68 | the display form is the text with each backslash replaced by `/`: same length, no backslash left |
| PathTypes.StringRoundTrip | crates/tsconfig-json/src/path_types.rs:53-68 | the string form has no backslash; reading it back gives the same kind and the same string form |
| PathTypes.CompareTextProperties | crates/tsconfig-json/src/path_types.rs:17 | text comparison is antisymmetric and is `Equal` exactly on equal texts |
| PathTypes.CompareComponentsProperties | crates/tsconfig-json/src/path_types.rs:17-24 | component-list comparison is antisymmetric and is `Equal` exactly on equal lists |
| PathTypes.Compare | crates/tsconfig-json/src/path_types.rs:8-24 | the kind is compared first: of two paths of different kinds, the plain path sorts first |
| PathTypes.PathBeforeGlob | crates/tsconfig-json/src/path_types.rs:8-15 | a plain path sorts before every glob |
| PathTypes.CompareProperties | crates/tsconfig-json/src/path_types.rs:17-24 | the ordering is antisymmetric and is `Equal` exactly when kind, components and expanded path agree |
| Config.MergeOtherFields | crates/tsconfig-json/src/tsconfig_json.rs:107 | unrecognised keys are united, and `other`'s value wins on a shared key |
| Config.ExplicitEmptyListWins | crates/tsconfig-json/src/tsconfig_json.rs:90-92 | an explicitly empty `include` replaces an inherited non-empty one |
| Config.MergeAssociative | crates/tsconfig-json/src/tsconfig_json.rs:83-108 | the merge is associative on every field other than the compiler options, and on those too when their merge is associative and the default options are its left unit |
| Config.MergeEmptyLeft | crates/tsconfig-json/src/tsconfig_json.rs:83-108 | merging over the default configuration gives back the merged configuration on every field other than the compiler options, and on those too when their merge is associative and the default options are its left unit |
| Config.FoldAppend | crates/tsconfig-json/src/tsconfig_json.rs:83-108 | for a non-empty `ys`, folding `xs + ys` is merging the fold of `ys` over the fold of `xs` on every field other than the compiler options, and on those too when their merge is associative and the default options are its left unit |
| Config.LaterSettingWins | crates/tsconfig-json/src/tsconfig_json.rs:90-105 | after a fold, a list set later in the chain wins over an earlier one, and `extends` comes from the last configuration |
| Config.ExpansionKeepsText | crates/tsconfig-json/src/tsconfig_json.rs:58-74 | expanding a list keeps every entry's text and kind and sets a normalised expanded path |
| Config.ExpandPaths | crates/tsconfig-json/src/tsconfig_json.rs:58-74 | the list keeps its length and order, and each entry is expanded |
| Config.ExpandReferences | crates/tsconfig-json/src/tsconfig_json.rs:76-80 | each reference's path is expanded and its `prepend` is kept |
| Config.TsConfigJson.constructor | crates/tsconfig-json/src/tsconfig_json.rs:12-35 | the object holds the given configuration |
| Config.TsConfigJson.Extend | crates/tsconfig-json/src/tsconfig_json.rs:83-108 | the new value is `other` merged over the old one: options merged into the default when unset, lists replaced only when `other` sets them, `extends`/`references` always from `other`, unrecognised keys united with `other` winning |
| Config.TsConfigJson.Expand | crates/tsconfig-json/src/tsconfig_json.rs:53-81 | options are expanded when present; every present list keeps presence, length and order with each path expanded; `extends` and unrecognised keys are unchanged |
| Extends.FindInNodeModulesNone | crates/tsconfig-json/src/tsconfig_json.rs:110-134 | the lookup finds nothing exactly when no directory from the start up to the root has the candidate |
| Extends.FindInNodeModulesIsNearest | crates/tsconfig-json/src/tsconfig_json.rs:110-134 | a found path is the candidate of a directory on the way up where it exists, and no directory nearer the start has one |
| Extends.ResolvePathInNodeModules | crates/tsconfig-json/src/tsconfig_json.rs:110-134 | the loop's answer is the nearest-candidate lookup |
| Extends.ResolveTargetCases | crates/tsconfig-json/src/tsconfig_json.rs:171-187 | a reference starting with `.` is joined to the directory, with `tsconfig.json` appended unless it ends in `.json`; any other reference is looked up in `node_modules` |
| Extends.ProcessingOrder | crates/tsconfig-json/src/tsconfig_json.rs:166-170 | the references are walked in reverse listed order |
| Extends.RefsChainFailureSticks | crates/tsconfig-json/src/tsconfig_json.rs:173-186 | once one target fails, the walk over all references fails with that error |
| Extends.DeepChainOfUnreadable | crates/tsconfig-json/src/tsconfig_json.rs:158-164 | a walk with a result has fuel and a non-root path, and a file that cannot be read or deserialised fails with that error |
| Extends.DeepChainOfReadable | crates/tsconfig-json/src/tsconfig_json.rs:158-170 | when a readable file's walk has a result, so does the walk over its references |
| Extends.DeepChainLinks | crates/tsconfig-json/src/tsconfig_json.rs:158-198 | a readable file's chain is its own link followed by its targets' chains in walking order, or the first failure among them |
| Extends.RefsChainStep | crates/tsconfig-json/src/tsconfig_json.rs:167-188 | walking one more reference continues the walk of the references before it |
| Extends.ResolveExtendsChainDeep | crates/tsconfig-json/src/tsconfig_json.rs:158-198 | the result is `chain` followed by the file's link and its targets' chains, or the first read or deserialise error |
| Extends.ResolveInnerChain | crates/tsconfig-json/src/tsconfig_json.rs:166-189 | the loop appends each target's chain in walking order and returns the first failure |
| Extends.ResolveTargetChain | crates/tsconfig-json/src/tsconfig_json.rs:171-187 | one reference: a relative file or a `node_modules` package is resolved and its chain appended; a package found nowhere is skipped |
| Extends.ResolveExtendsChain | crates/tsconfig-json/src/tsconfig_json.rs:136-146 | the result is the reversed deep chain |
| Extends.ListedChainsReversesWalk | crates/tsconfig-json/src/tsconfig_json.rs:166-195 | walking the references backwards and reversing lists the targets' chains in listed order |
| Extends.ExtendsChainLinearised | crates/tsconfig-json/src/tsconfig_json.rs:158-198 | the chain is the targets' chains in listed order, then the file under its cleaned path; a read error of the file or any target's failure aborts the chain |
| Extends.ChainEndsWithRequestedFile | crates/tsconfig-json/src/tsconfig_json.rs:191-194 | a resolved chain ends with the requested file's cleaned path and configuration |
| Extends.ListedChainsUnfold | crates/tsconfig-json/src/tsconfig_json.rs:166-188 | the listed chains are the first reference's piece joined in front of the chains of the rest |
| Extends.JoinPiecesCons | crates/tsconfig-json/src/tsconfig_json.rs:166-188 | in a successful join the first reference contributes its target's chain in front of the others, or nothing when it resolves nowhere |
| Extends.JoinPiecesSuffix | crates/tsconfig-json/src/tsconfig_json.rs:166-188 | the join of a suffix of the references ends the whole join |
| Extends.JoinPiecesBlock | crates/tsconfig-json/src/tsconfig_json.rs:166-195 | each resolved target's whole chain occurs as one contiguous block of a successful join |
| Extends.AncestorsPrecede | crates/tsconfig-json/src/tsconfig_json.rs:191-195 | every resolved target's whole chain sits as one block before the file's own link |
| Extends.AncestorErrorAborts | crates/tsconfig-json/src/tsconfig_json.rs:173-186 | a target whose chain fails makes the whole resolution fail |
| Extends.NoExtendsChain | crates/tsconfig-json/src/tsconfig_json.rs:166-195 | a file without `extends` resolves to its own link alone |
| Extends.SingleExtendsChain | crates/tsconfig-json/src/tsconfig_json.rs:168-187 | with one reference: its target's chain then the file, or the file alone when a package is found nowhere |
| Extends.MultiExtendsChain | crates/tsconfig-json/src/tsconfig_json.rs:166-195 | with `extends: [x, y]`: `x`'s chain, then `y`'s, then the file; `y`'s error is reported first |
| Extends.ChainOfTwo | crates/tsconfig-json/src/tsconfig_json.rs:136-198 | `b` extends `a`, which extends nothing, and the chain is `[a, b]` |
| Extends.ChainOfThree | crates/tsconfig-json/src/tsconfig_json.rs:136-198 | `c` extends `b`, which extends `a`, and the chain is `[a, b, c]` |
| Extends.DiamondRepeatsBase | crates/tsconfig-json/src/tsconfig_json.rs:166-195 | `d` extends `[b, c]` and both extend `a`; the chain is `[a, b, a, c, d]`, with the shared base repeated |
| Extends.FoldThreeParts | crates/tsconfig-json/src/tsconfig_json.rs:141-143 | folding `cx + cy + [link]`: the link's lists win, then those of `cy`'s fold, then `cx`'s; `extends` and `references` come from the link |
| Extends.LaterExtendsWins | crates/tsconfig-json/src/tsconfig_json.rs:141-143 | folding the chain of `extends: [x, y]`: the file's lists win, then `y`'s, then `x`'s; `extends` and `references` come from the file |
| JsModule.JavaScriptPackageType.IsEsm | crates/module-graph/src/js/mod.rs:113-115 | ECMAScript exactly for a `.mjs` file or a `"type": "module"` package; see `PackageTypeExclusive` |
| JsModule.JavaScriptPackageType.IsCjs | crates/module-graph/src/js/mod.rs:117-119 | CommonJS exactly for a `.cjs` file or a `"type": "commonjs"` package; see `PackageTypeExclusive` |
| JsModule.PackageTypeExclusive | crates/module-graph/src/js/mod.rs:112-119 | no package type is both ECMAScript and CommonJS; `Unknown` is exactly the one that is neither |
| JsModule.JavaScriptModule.constructor | crates/module-graph/src/js/mod.rs:67-73 | a new module has an unknown package type, an empty program cache, zero statistics, and the given source and source type |
| JsModule.JavaScriptModule.GetProgram | crates/module-graph/src/js/mod.rs:35-48 | returns the parser's program for the source and caches it; a filled cache is not recomputed, the parser runs at most once, and nothing else changes |
| JsModule.JavaScriptModule.Parse | crates/module-graph/src/js/mod.rs:76-95 | the statistics are replaced by those extracted from the cached program; source, source type and package type are kept |
| JsModule.Load | crates/module-graph/src/js/mod.rs:60-74 | an I/O error exactly when the file is missing, and otherwise a fresh module holding the file's text and the given parser, in its initial state |
| JsModule.GetProgramTwice | crates/module-graph/src/js/mod.rs:35-48 | two requests give the same program, and the parser runs once |
| JsModule.JavaScriptModule.IsBarrelFile | crates/module-graph/src/js/mod.rs:31-33 | a barrel file has no other statement and at least `threshold` export statements; see the three lemmas below |
| JsModule.BarrelFileExamples | crates/module-graph/src/js/mod.rs:31-33 | with no other statements and 5 exports: a barrel file at threshold 3, not at threshold 10 |
| JsModule.OtherStatementsRuleOutBarrel | crates/module-graph/src/js/mod.rs:31-33 | a module with any other statement is never a barrel file |
| JsModule.BarrelFileAntitone | crates/module-graph/src/js/mod.rs:31-33 | a barrel file stays one when the threshold is lowered |

## Left out

- Deserialisation with serde: field renaming, flattening of unknown keys, and `skip_serializing_if`. A file's deserialised content is given in the filesystem value. So the serialise/deserialise round trip of a configuration is not modelled.
- File reading and existence checks: they are lookups in the filesystem value. Windows paths, drive prefixes and symbolic links are not modelled, and path text is split on `/` only.
- `CompilerOptions`, its `extend`, its `expand` and its default: these are not part of this model and come in as parameters.
- The oxc parser and its allocator: the parser is a function parameter. Parse errors are discarded as in the source. The lifetime-extending transmute has no counterpart.
- Thread safety of the `OnceCell`: the model is sequential, so concurrent first access is not modelled.
- The `ExtractImportsExports` visitor and the statistics module: these are not part of this model. The extraction is a function parameter, and the `Module` that `parse` and `load` receive is not modelled. Only the `other_statements` and `export_statements` counts are used. The other count names follow the statistics they describe.
- `SourceType::from_path` and its `unwrap` panic on an unknown extension: the source type is a parameter of `Load`.
- `kind()` and `source()` of the module-source interface: these are trivial accessors.
- The ordering of `RelativePathBuf`, which comes from another crate, is taken to be component-wise: `.` before `..` before names, and names by their text.
- Extends.ResolveExtendsChainDeep: requires that the chain within `fuel` levels is not `NoResult`. The source has no cycle guard: on a cyclic `extends` it recurses until a stack overflow aborts the process, so a cycle is not modelled.
- Extends.ResolveExtendsChainDeep: the same requirement rules out a visited path with no parent, where the source's `parent().unwrap()` panics. `ResolveExtendsChain`, `ResolveInnerChain` and `ResolveTargetChain` carry the same requirement.
- `NoResult`: a model-only error for the cases above. The source has no such error value.
- PathTypes.CompilerPath.Expand: returns the updated value rather than changing the path in place. The in-place update of each list element happens in the loops of `Config.ExpandPaths` and `Config.ExpandReferences`, which `TsConfigJson.Expand` calls.
