/**
 * Resolution of a configuration file's inheritance chain through `extends`.
 *
 * The filesystem is a value: the set of paths that exist, and what
 * deserialising each readable file yields. Both are keyed by cleaned path,
 * since the operating system resolves `.` and `..` itself.
 *
 * The source recurses into every target without a cycle guard, so on a
 * cycle it recurses until a stack overflow aborts the process, and it
 * panics on a path with no parent directory. The
 * specification functions carry a `fuel` bound on the depth of the walk and
 * end in `NoResult` where the source would not return a result; the
 * resolver methods take a ghost `fuel` and require that the walk does not
 * end there.
 */
module Extends {
  import opened Wrappers
  import opened Paths
  import opened Config

  /** What deserialising a file yields. */
  datatype Document<O, V> = Parsed(config: TsConfig<O, V>) | Malformed

  datatype FileSystem<O, V> = FileSystem(existing: set<Path>, documents: map<Path, Document<O, V>>)

  /**
   * `IoError` and `DeserializeError` are the source's errors. `NoResult`
   * stands for a walk that returns nothing: one deeper than the fuel bound
   * (as a cycle is), or one reaching a path with no parent, where the source
   * panics. The resolver methods' preconditions rule it out.
   */
  datatype Error = IoError | DeserializeError | NoResult

  /** One link of the chain: the cleaned path of a file and its configuration. */
  datatype TsConfigExtendsChain<O, V> = TsConfigExtendsChain(path: Path, config: TsConfig<O, V>)

  const ConfigFileName: string := "tsconfig.json"
  const NodeModules: string := "node_modules"

  predicate Exists<O, V>(fs: FileSystem<O, V>, path: Path) {
    Clean(path) in fs.existing
  }

  /** Reading and deserialising a file. */
  function Read<O, V>(fs: FileSystem<O, V>, path: Path): Result<TsConfig<O, V>, Error> {
    if Clean(path) !in fs.documents then Err(IoError)
    else match fs.documents[Clean(path)]
      case Parsed(config) => Ok(config)
      case Malformed => Err(DeserializeError)
  }

  // ---------------------------------------------------------------------
  // Sequences

  function Reversed<T>(s: seq<T>): (r: seq<T>)
    ensures |r| == |s|
  {
    if s == [] then [] else Reversed(s[1..]) + [s[0]]
  }

  lemma {:induction false} ReversedIndex<T>(s: seq<T>)
    ensures forall i :: 0 <= i < |s| ==> Reversed(s)[i] == s[|s| - 1 - i]
    decreases |s|
  {
    if s != [] {
      ReversedIndex(s[1..]);
    }
  }

  lemma ReversedAppend<T>(a: seq<T>, b: seq<T>)
    ensures Reversed(a + b) == Reversed(b) + Reversed(a)
  {
    ReversedIndex(a + b);
    ReversedIndex(a);
    ReversedIndex(b);
    var l, r := Reversed(a + b), Reversed(b) + Reversed(a);
    assert |l| == |r|;
    forall i | 0 <= i < |l| ensures l[i] == r[i] {
      if i < |b| {
        assert l[i] == (a + b)[|a + b| - 1 - i] == b[|b| - 1 - i];
      } else {
        assert l[i] == (a + b)[|a + b| - 1 - i] == a[|a| - 1 - (i - |b|)];
      }
    }
  }

  // ---------------------------------------------------------------------
  // Resolving one `extends` target

  /** Where `node_modules` under `dir` would hold `packageFile`. */
  function NodeModulesCandidate(dir: Path, packageFile: string): Path {
    if EndsWith(packageFile, ".json")
    then Join(dir + [NodeModules], packageFile)
    else Join(dir + [NodeModules], packageFile) + [ConfigFileName]
  }

  /** The first existing candidate in `dir`, then in each parent up to the root. */
  function FindInNodeModules<O, V>(fs: FileSystem<O, V>, packageFile: string, dir: Path): Option<Path>
    decreases |dir|
  {
    var candidate := NodeModulesCandidate(dir, packageFile);
    if Exists(fs, candidate) then Some(candidate)
    else if dir == [] then None
    else FindInNodeModules(fs, packageFile, dir[..|dir| - 1])
  }

  /** The lookup finds nothing exactly when no directory from `dir` up to the root has the candidate. */
  lemma {:induction false} FindInNodeModulesNone<O, V>(fs: FileSystem<O, V>, packageFile: string, dir: Path)
    ensures FindInNodeModules(fs, packageFile, dir).None? <==>
              forall k :: 0 <= k <= |dir| ==> !Exists(fs, NodeModulesCandidate(dir[..k], packageFile))
    decreases |dir|
  {
    assert dir[..|dir|] == dir;
    if !Exists(fs, NodeModulesCandidate(dir, packageFile)) && dir != [] {
      var up := dir[..|dir| - 1];
      FindInNodeModulesNone(fs, packageFile, up);
      assert forall k :: 0 <= k <= |up| ==> up[..k] == dir[..k];
    }
  }

  /**
   * A found path is the candidate of the nearest directory `dir[..k]` (the
   * start directory `dir[..|dir|]` first, the root `dir[..0]` last) where it
   * exists: no directory between that one and `dir` has it.
   */
  lemma {:induction false} FindInNodeModulesIsNearest<O, V>(fs: FileSystem<O, V>, packageFile: string, dir: Path)
    returns (k: nat)
    requires FindInNodeModules(fs, packageFile, dir).Some?
    ensures k <= |dir|
    ensures FindInNodeModules(fs, packageFile, dir).value == NodeModulesCandidate(dir[..k], packageFile)
    ensures Exists(fs, NodeModulesCandidate(dir[..k], packageFile))
    ensures forall j :: k < j <= |dir| ==> !Exists(fs, NodeModulesCandidate(dir[..j], packageFile))
    decreases |dir|
  {
    assert dir[..|dir|] == dir;
    if Exists(fs, NodeModulesCandidate(dir, packageFile)) {
      k := |dir|;
    } else {
      var up := dir[..|dir| - 1];
      k := FindInNodeModulesIsNearest(fs, packageFile, up);
      assert up[..k] == dir[..k];
      forall j | k < j <= |dir|
        ensures !Exists(fs, NodeModulesCandidate(dir[..j], packageFile))
      {
        if j < |dir| {
          assert up[..j] == dir[..j];
        }
      }
    }
  }

  /** Looks for `packageFile` under `node_modules`, walking up from `startingDir`. */
  method ResolvePathInNodeModules<O, V>(fs: FileSystem<O, V>, packageFile: string, startingDir: Path)
    returns (r: Option<Path>)
    ensures r == FindInNodeModules(fs, packageFile, startingDir)
  {
    var currentDir: Option<Path> := Some(startingDir);
    while currentDir.Some?
      invariant FindInNodeModules(fs, packageFile, startingDir) ==
                  if currentDir.Some? then FindInNodeModules(fs, packageFile, currentDir.value) else None
      decreases if currentDir.Some? then |currentDir.value| + 1 else 0
    {
      var dir := currentDir.value;
      var filePath := NodeModulesCandidate(dir, packageFile);
      if Clean(filePath) in fs.existing {
        return Some(filePath);
      }
      currentDir := Parent(dir);
    }
    return None;
  }

  /**
   * A reference starting with `.` is a file relative to the extending file's
   * directory (`tsconfig.json` appended unless it names a `.json` file);
   * anything else is looked up in `node_modules`.
   */
  function ResolveTarget<O, V>(fs: FileSystem<O, V>, parentDir: Path, reference: string): Option<Path> {
    if |reference| > 0 && reference[0] == '.' then
      Some(if EndsWith(reference, ".json")
           then Join(parentDir, reference)
           else Join(parentDir, reference) + [ConfigFileName])
    else FindInNodeModules(fs, reference, parentDir)
  }

  /**
   * A relative reference is always a target, the directory followed by the
   * reference's components (and `tsconfig.json` unless it names a `.json`
   * file); a package reference is the nearest `node_modules` candidate, if any.
   */
  lemma ResolveTargetCases<O, V>(fs: FileSystem<O, V>, parentDir: Path, reference: string)
    ensures |reference| > 0 && reference[0] == '.' ==>
              ResolveTarget(fs, parentDir, reference)
              == Some(if EndsWith(reference, ".json") then parentDir + Split(reference)
                      else parentDir + Split(reference) + [ConfigFileName])
    ensures !(|reference| > 0 && reference[0] == '.') ==>
              ResolveTarget(fs, parentDir, reference) == FindInNodeModules(fs, reference, parentDir)
  {
  }

  /** The references in the order the configuration lists them. */
  function ListedRefs(field: Option<ExtendsField>): seq<string> {
    match field
    case None => []
    case Some(Single(name)) => [name]
    case Some(Multiple(names)) => names
  }

  /** The references in the order the resolver walks them: a list backwards. */
  function ProcessingOrder(field: Option<ExtendsField>): (r: seq<string>)
    ensures r == Reversed(ListedRefs(field))
  {
    match field
    case None => []
    case Some(Single(name)) => [name]
    case Some(Multiple(names)) => Reversed(names)
  }

  // ---------------------------------------------------------------------
  // The chain, as specification functions

  function DirOf(path: Path): Path
    requires |path| > 0
  {
    path[..|path| - 1]
  }

  /** A chain's link for a readable file. */
  function LinkOf<O, V>(fs: FileSystem<O, V>, path: Path): TsConfigExtendsChain<O, V>
    requires Read(fs, path).Ok?
  {
    TsConfigExtendsChain(Clean(path), Read(fs, path).value)
  }

  /** A chain result with `chain` in front of its links. */
  function Prefixed<O, V>(chain: seq<TsConfigExtendsChain<O, V>>, res: Result<seq<TsConfigExtendsChain<O, V>>, Error>)
    : Result<seq<TsConfigExtendsChain<O, V>>, Error>
  {
    match res
    case Err(e) => Err(e)
    case Ok(links) => Ok(chain + links)
  }

  lemma PrefixedEmpty<O, V>(res: Result<seq<TsConfigExtendsChain<O, V>>, Error>)
    ensures Prefixed([], res) == res
  {
    if res.Ok? {
      assert [] + res.value == res.value;
    }
  }

  /** A chain result with `link` after its links. */
  function Appended<O, V>(res: Result<seq<TsConfigExtendsChain<O, V>>, Error>, link: TsConfigExtendsChain<O, V>)
    : Result<seq<TsConfigExtendsChain<O, V>>, Error>
  {
    match res
    case Err(e) => Err(e)
    case Ok(links) => Ok(links + [link])
  }

  /** A chain result with its links in reverse order. */
  function Backwards<O, V>(res: Result<seq<TsConfigExtendsChain<O, V>>, Error>): Result<seq<TsConfigExtendsChain<O, V>>, Error> {
    match res
    case Err(e) => Err(e)
    case Ok(links) => Ok(Reversed(links))
  }

  /**
   * The chain as the recursion builds it, before the final reversal: the
   * file first, then each target's chain in walking order. `fuel` bounds the
   * depth of the walk; a walk that runs out of it, or reaches a path with no
   * parent, ends in `NoResult`.
   */
  function DeepChain<O, V>(fs: FileSystem<O, V>, path: Path, fuel: nat): Result<seq<TsConfigExtendsChain<O, V>>, Error>
    decreases fuel, 0
  {
    if fuel == 0 || path == [] then Err(NoResult)
    else
      match Read(fs, path)
      case Err(e) => Err(e)
      case Ok(config) =>
        Prefixed([TsConfigExtendsChain(Clean(path), config)],
                 RefsChain(fs, DirOf(path), ProcessingOrder(config.extendsField), fuel - 1))
  }

  /** `done` followed by the chain of the target `reference` resolves to, if any. */
  function TargetChain<O, V>(fs: FileSystem<O, V>, dir: Path, reference: string,
                             done: seq<TsConfigExtendsChain<O, V>>, fuel: nat)
    : Result<seq<TsConfigExtendsChain<O, V>>, Error>
    decreases fuel, 1
  {
    match ResolveTarget(fs, dir, reference)
    case None => Ok(done)
    case Some(target) => Prefixed(done, DeepChain(fs, target, fuel))
  }

  /** The targets of `refs` walked in order, their chains appended, the first failure returned. */
  function RefsChain<O, V>(fs: FileSystem<O, V>, dir: Path, refs: seq<string>, fuel: nat)
    : Result<seq<TsConfigExtendsChain<O, V>>, Error>
    decreases fuel, 2, |refs|
  {
    if refs == [] then Ok([])
    else
      match RefsChain(fs, dir, refs[..|refs| - 1], fuel)
      case Err(e) => Err(e)
      case Ok(done) => TargetChain(fs, dir, refs[|refs| - 1], done, fuel)
  }

  /** The resolved chain: most-base configuration first, the requested file last. */
  function ExtendsChain<O, V>(fs: FileSystem<O, V>, path: Path, fuel: nat): Result<seq<TsConfigExtendsChain<O, V>>, Error> {
    Backwards(DeepChain(fs, path, fuel))
  }

  // ---------------------------------------------------------------------
  // The resolver

  /** Once a prefix of the references fails, the whole walk fails with that error. */
  lemma {:induction false} RefsChainFailureSticks<O, V>(fs: FileSystem<O, V>, dir: Path, refs: seq<string>, n: nat, fuel: nat)
    requires n <= |refs|
    requires RefsChain(fs, dir, refs[..n], fuel).Err?
    ensures RefsChain(fs, dir, refs, fuel) == RefsChain(fs, dir, refs[..n], fuel)
    decreases |refs|
  {
    if n < |refs| {
      var front := refs[..|refs| - 1];
      assert front[..n] == refs[..n];
      RefsChainFailureSticks(fs, dir, front, n, fuel);
    } else {
      assert refs[..n] == refs;
    }
  }

  /** Two prefixes added one after the other are their concatenation added once. */
  lemma PrefixedTwice<O, V>(a: seq<TsConfigExtendsChain<O, V>>, b: seq<TsConfigExtendsChain<O, V>>,
                            res: Result<seq<TsConfigExtendsChain<O, V>>, Error>)
    ensures Prefixed(a, Prefixed(b, res)) == Prefixed(a + b, res)
  {
    if res.Ok? {
      assert a + (b + res.value) == a + b + res.value;
    }
  }

  /** A deep chain that is not `NoResult` has fuel and a path; an unreadable file's is the read error. */
  lemma DeepChainOfUnreadable<O, V>(fs: FileSystem<O, V>, path: Path, fuel: nat, chain: seq<TsConfigExtendsChain<O, V>>)
    requires DeepChain(fs, path, fuel) != Err(NoResult)
    ensures fuel > 0 && |path| > 0
    ensures Read(fs, path).Err? ==> Prefixed(chain, DeepChain(fs, path, fuel)) == Err(Read(fs, path).error)
  {
  }

  /** A readable file whose deep chain is not `NoResult` has targets whose chains are not `NoResult` either. */
  lemma DeepChainOfReadable<O, V>(fs: FileSystem<O, V>, path: Path, fuel: nat, config: TsConfig<O, V>)
    requires DeepChain(fs, path, fuel) != Err(NoResult) && Read(fs, path) == Ok(config)
    ensures fuel > 0 && |path| > 0
    ensures RefsChain(fs, DirOf(path), ProcessingOrder(config.extendsField), fuel - 1) != Err(NoResult)
  {
  }

  /**
   * A readable file's deep chain is its own link, then `inner`, the chains
   * of its targets in walking order, or `inner`'s failure.
   */
  lemma DeepChainLinks<O, V>(fs: FileSystem<O, V>, path: Path, fuel: nat, chain: seq<TsConfigExtendsChain<O, V>>,
                             inner: Result<seq<TsConfigExtendsChain<O, V>>, Error>)
    requires fuel > 0 && |path| > 0 && Read(fs, path).Ok?
    requires inner == RefsChain(fs, DirOf(path), ProcessingOrder(Read(fs, path).value.extendsField), fuel - 1)
    ensures inner.Err? ==> Prefixed(chain, DeepChain(fs, path, fuel)) == Err(inner.error)
    ensures inner.Ok? ==> Prefixed(chain, DeepChain(fs, path, fuel)) == Ok(chain + [LinkOf(fs, path)] + inner.value)
  {
    PrefixedTwice(chain, [LinkOf(fs, path)], inner);
  }

  /**
   * Walking one more reference continues the walk of the ones before it,
   * and a failure there is the failure of the whole walk.
   */
  lemma RefsChainStep<O, V>(fs: FileSystem<O, V>, dir: Path, refs: seq<string>, i: nat, fuel: nat,
                            done: seq<TsConfigExtendsChain<O, V>>)
    requires i < |refs| && RefsChain(fs, dir, refs[..i], fuel) == Ok(done)
    ensures RefsChain(fs, dir, refs[..i + 1], fuel) == TargetChain(fs, dir, refs[i], done, fuel)
    ensures TargetChain(fs, dir, refs[i], done, fuel).Err? ==>
              RefsChain(fs, dir, refs, fuel) == TargetChain(fs, dir, refs[i], done, fuel)
  {
    assert refs[..i + 1][..i] == refs[..i];
    if RefsChain(fs, dir, refs[..i + 1], fuel).Err? {
      RefsChainFailureSticks(fs, dir, refs, i + 1, fuel);
    }
  }

  /**
   * Appends the chain of `path` to `chain`: the file's own link, then the
   * chains of its targets walked in reverse listed order.
   */
  method ResolveExtendsChainDeep<O, V>(fs: FileSystem<O, V>, path: Path, chain: seq<TsConfigExtendsChain<O, V>>,
                                       ghost fuel: nat)
    returns (r: Result<seq<TsConfigExtendsChain<O, V>>, Error>)
    requires DeepChain(fs, path, fuel) != Err(NoResult)
    ensures r == Prefixed(chain, DeepChain(fs, path, fuel))
    decreases fuel, 0
  {
    DeepChainOfUnreadable(fs, path, fuel, chain);
    var parentDir := DirOf(path);
    var read := Read(fs, path);
    if read.Err? {
      return Err(read.error);
    }
    var config := read.value;
    DeepChainOfReadable(fs, path, fuel, config);
    var inner := ResolveInnerChain(fs, parentDir, ProcessingOrder(config.extendsField), fuel - 1);
    DeepChainLinks(fs, path, fuel, chain, inner);
    if inner.Err? {
      return Err(inner.error);
    }
    var innerChain := inner.value;
    var out := chain + [TsConfigExtendsChain(Clean(path), config)];
    out := out + innerChain;
    r := Ok(out);
  }

  /**
   * The resolver's loop over the references of one file, in walking order:
   * each target's chain is appended to the inner chain, and the first
   * failure is returned.
   */
  method ResolveInnerChain<O, V>(fs: FileSystem<O, V>, parentDir: Path, refs: seq<string>, ghost fuel: nat)
    returns (r: Result<seq<TsConfigExtendsChain<O, V>>, Error>)
    requires RefsChain(fs, parentDir, refs, fuel) != Err(NoResult)
    ensures r == RefsChain(fs, parentDir, refs, fuel)
    decreases fuel, 2
  {
    var innerChain: seq<TsConfigExtendsChain<O, V>> := [];
    assert refs[..0] == [];
    var i := 0;
    while i < |refs|
      invariant 0 <= i <= |refs|
      invariant RefsChain(fs, parentDir, refs[..i], fuel) == Ok(innerChain)
    {
      RefsChainStep(fs, parentDir, refs, i, fuel, innerChain);
      var sub := ResolveTargetChain(fs, parentDir, refs[i], innerChain, fuel);
      if sub.Err? {
        return Err(sub.error);
      }
      innerChain := sub.value;
      i := i + 1;
    }
    assert refs[..|refs|] == refs;
    r := Ok(innerChain);
  }

  /**
   * One pass of the resolver's loop: a `.` reference is resolved as a file,
   * anything else through `node_modules`, where a package found nowhere is
   * skipped; the target's chain is appended to `innerChain`.
   */
  method ResolveTargetChain<O, V>(fs: FileSystem<O, V>, parentDir: Path, extendsFrom: string,
                                  innerChain: seq<TsConfigExtendsChain<O, V>>, ghost fuel: nat)
    returns (r: Result<seq<TsConfigExtendsChain<O, V>>, Error>)
    requires TargetChain(fs, parentDir, extendsFrom, innerChain, fuel) != Err(NoResult)
    ensures r == TargetChain(fs, parentDir, extendsFrom, innerChain, fuel)
    decreases fuel, 1
  {
    if |extendsFrom| > 0 && extendsFrom[0] == '.' {
      // A file path
      var target := if EndsWith(extendsFrom, ".json")
                    then Join(parentDir, extendsFrom)
                    else Join(parentDir, extendsFrom) + [ConfigFileName];
      r := ResolveExtendsChainDeep(fs, target, innerChain, fuel);
    } else {
      // A package in node_modules
      var packagePath := ResolvePathInNodeModules(fs, extendsFrom, parentDir);
      if packagePath.Some? {
        r := ResolveExtendsChainDeep(fs, packagePath.value, innerChain, fuel);
      } else {
        r := Ok(innerChain);
      }
    }
  }

  /** The inheritance chain of `path`, the most-base file first. */
  method ResolveExtendsChain<O, V>(fs: FileSystem<O, V>, path: Path, ghost fuel: nat)
    returns (r: Result<seq<TsConfigExtendsChain<O, V>>, Error>)
    requires ExtendsChain(fs, path, fuel) != Err(NoResult)
    ensures r == ExtendsChain(fs, path, fuel)
  {
    PrefixedEmpty(DeepChain(fs, path, fuel));
    var chain := [];
    var deep := ResolveExtendsChainDeep(fs, path, chain, fuel);
    if deep.Err? {
      return Err(deep.error);
    }
    chain := deep.value;
    // The base file goes to index 0, the files overriding it after.
    chain := Reversed(chain);
    return Ok(chain);
  }

  // ---------------------------------------------------------------------
  // What the chain is

  /** What one reference adds to the chain: nothing when it resolves nowhere, else its target's chain. */
  function Piece<O, V>(fs: FileSystem<O, V>, dir: Path, reference: string, fuel: nat)
    : Option<Result<seq<TsConfigExtendsChain<O, V>>, Error>>
  {
    match ResolveTarget(fs, dir, reference)
    case None => None
    case Some(target) => Some(ExtendsChain(fs, target, fuel))
  }

  function Pieces<O, V>(fs: FileSystem<O, V>, dir: Path, refs: seq<string>, fuel: nat)
    : seq<Option<Result<seq<TsConfigExtendsChain<O, V>>, Error>>>
  {
    seq(|refs|, i requires 0 <= i < |refs| => Piece(fs, dir, refs[i], fuel))
  }

  /** One piece in front of the join of the pieces after it; a failure after it wins. */
  function Combine<T, E>(piece: Option<Result<seq<T>, E>>, later: Result<seq<T>, E>): Result<seq<T>, E> {
    match later
    case Err(e) => Err(e)
    case Ok(rest) =>
      match piece
      case None => Ok(rest)
      case Some(Err(e)) => Err(e)
      case Some(Ok(c)) => Ok(c + rest)
  }

  /** A piece joined to nothing is its own chain, or the empty one when there is no piece. */
  lemma CombineAlone<T, E>(piece: Option<Result<seq<T>, E>>)
    ensures piece.None? ==> Combine(piece, Ok([])) == Ok([])
    ensures piece.Some? ==> Combine(piece, Ok([])) == piece.value
  {
    if piece.Some? && piece.value.Ok? {
      assert piece.value.value + [] == piece.value.value;
    }
  }

  /** The pieces joined in order, the later ones joined first. */
  function JoinPieces<T, E>(pieces: seq<Option<Result<seq<T>, E>>>): Result<seq<T>, E>
    decreases |pieces|
  {
    if pieces == [] then Ok([]) else Combine(pieces[0], JoinPieces(pieces[1..]))
  }

  /**
   * The chains of the targets of `refs`, in the order `refs` lists them.
   * The later references are walked first, so when two targets fail the
   * later one's error is the one returned.
   */
  function ListedChains<O, V>(fs: FileSystem<O, V>, dir: Path, refs: seq<string>, fuel: nat)
    : Result<seq<TsConfigExtendsChain<O, V>>, Error>
  {
    JoinPieces(Pieces(fs, dir, refs, fuel))
  }

  lemma ListedChainsUnfold<O, V>(fs: FileSystem<O, V>, dir: Path, refs: seq<string>, fuel: nat)
    requires refs != []
    ensures ListedChains(fs, dir, refs, fuel) == Combine(Piece(fs, dir, refs[0], fuel), ListedChains(fs, dir, refs[1..], fuel))
  {
    assert Pieces(fs, dir, refs, fuel)[1..] == Pieces(fs, dir, refs[1..], fuel);
  }

  /** Walking the references backwards and reversing the result lists the chains in listed order. */
  lemma {:induction false} ListedChainsReversesWalk<O, V>(fs: FileSystem<O, V>, dir: Path, refs: seq<string>, fuel: nat)
    ensures ListedChains(fs, dir, refs, fuel) == Backwards(RefsChain(fs, dir, Reversed(refs), fuel))
    decreases |refs|
  {
    if refs != [] {
      var walk := Reversed(refs);
      var rest := refs[1..];
      assert walk == Reversed(rest) + [refs[0]];
      assert walk[..|walk| - 1] == Reversed(rest) && walk[|walk| - 1] == refs[0];
      ListedChainsReversesWalk(fs, dir, rest, fuel);
      ListedChainsUnfold(fs, dir, refs, fuel);
      match RefsChain(fs, dir, Reversed(rest), fuel)
      case Err(e) =>
      case Ok(done) =>
        match ResolveTarget(fs, dir, refs[0])
        case None =>
        case Some(target) =>
          match DeepChain(fs, target, fuel)
          case Err(e) =>
          case Ok(sub) => ReversedAppend(done, sub);
    }
  }

  /**
   * The chain of `path` is the chains of its targets in the order its
   * `extends` lists them, then the file itself under its cleaned path; a read
   * or deserialise failure of the file, or of any target's chain, aborts it.
   */
  lemma ExtendsChainLinearised<O, V>(fs: FileSystem<O, V>, path: Path, fuel: nat)
    requires fuel > 0 && |path| > 0
    ensures Read(fs, path).Err? ==> ExtendsChain(fs, path, fuel) == Err(Read(fs, path).error)
    ensures Read(fs, path).Ok? ==>
              ExtendsChain(fs, path, fuel)
              == Appended(ListedChains(fs, DirOf(path), ListedRefs(Read(fs, path).value.extendsField), fuel - 1),
                          TsConfigExtendsChain(Clean(path), Read(fs, path).value))
  {
    if Read(fs, path).Ok? {
      var config := Read(fs, path).value;
      var refs := ListedRefs(config.extendsField);
      ListedChainsReversesWalk(fs, DirOf(path), refs, fuel - 1);
      BackwardsPrefixed(TsConfigExtendsChain(Clean(path), config), RefsChain(fs, DirOf(path), Reversed(refs), fuel - 1));
    }
  }

  lemma BackwardsPrefixed<O, V>(link: TsConfigExtendsChain<O, V>, res: Result<seq<TsConfigExtendsChain<O, V>>, Error>)
    ensures Backwards(Prefixed([link], res)) == Appended(Backwards(res), link)
  {
    if res.Ok? {
      ReversedAppend([link], res.value);
      assert Reversed([link]) == [link];
    }
  }

  /** The requested file, under its cleaned path, is the chain's last link. */
  lemma ChainEndsWithRequestedFile<O, V>(fs: FileSystem<O, V>, path: Path, fuel: nat)
    requires ExtendsChain(fs, path, fuel).Ok?
    ensures fuel > 0 && |path| > 0 && Read(fs, path).Ok?
    ensures var chain := ExtendsChain(fs, path, fuel).value;
      |chain| > 0 && chain[|chain| - 1] == TsConfigExtendsChain(Clean(path), Read(fs, path).value)
  {
    ExtendsChainLinearised(fs, path, fuel);
  }

  /**
   * Dropping the first piece of a join that succeeds drops a prefix of the
   * result: the piece's chain when it has one, nothing otherwise.
   */
  lemma JoinPiecesCons<T, E>(pieces: seq<Option<Result<seq<T>, E>>>)
    requires pieces != [] && JoinPieces(pieces).Ok?
    ensures JoinPieces(pieces[1..]).Ok?
    ensures pieces[0].None? ==> JoinPieces(pieces) == JoinPieces(pieces[1..])
    ensures pieces[0].Some? ==>
              && pieces[0].value.Ok?
              && JoinPieces(pieces).value == pieces[0].value.value + JoinPieces(pieces[1..]).value
  {
  }

  /** The join of a suffix of the pieces ends the join of them all. */
  lemma {:induction false} JoinPiecesSuffix<T, E>(pieces: seq<Option<Result<seq<T>, E>>>, i: nat)
    returns (front: seq<T>)
    requires i <= |pieces| && JoinPieces(pieces).Ok?
    ensures JoinPieces(pieces[i..]).Ok?
    ensures JoinPieces(pieces).value == front + JoinPieces(pieces[i..]).value
    decreases i
  {
    if i == 0 {
      assert pieces[i..] == pieces;
      front := [];
      assert JoinPieces(pieces).value == front + JoinPieces(pieces).value;
    } else {
      var rest := pieces[1..];
      JoinPiecesCons(pieces);
      assert rest[i - 1..] == pieces[i..];
      var later := JoinPiecesSuffix(rest, i - 1);
      var head := if pieces[0].Some? then pieces[0].value.value else [];
      assert JoinPieces(pieces).value == head + JoinPieces(rest).value;
      front := head + later;
      assert head + (later + JoinPieces(pieces[i..]).value) == front + JoinPieces(pieces[i..]).value;
    }
  }

  /** `block` occurs in `chain` starting at index `k`. */
  ghost predicate BlockAt<T>(chain: seq<T>, block: seq<T>, k: nat) {
    k + |block| <= |chain| && chain[k..k + |block|] == block
  }

  lemma BlockAtExtend<T>(chain: seq<T>, block: seq<T>, k: nat, last: T)
    requires BlockAt(chain, block, k)
    ensures k + |block| < |chain + [last]| && BlockAt(chain + [last], block, k)
  {
    assert (chain + [last])[k..k + |block|] == chain[k..k + |block|];
  }

  /** A suffix that starts with `block` places it at the suffix's offset. */
  lemma MiddleBlock<T>(whole: seq<T>, front: seq<T>, block: seq<T>, rest: seq<T>)
    requires whole == front + (block + rest)
    ensures BlockAt(whole, block, |front|)
  {
    assert whole[|front|..|front| + |block|] == block;
  }

  /** In a join that succeeds, the chain of every piece that has one lies there as one block. */
  lemma JoinPiecesBlock<T, E>(pieces: seq<Option<Result<seq<T>, E>>>, i: nat) returns (k: nat)
    requires i < |pieces| && JoinPieces(pieces).Ok? && pieces[i].Some?
    ensures pieces[i].value.Ok? && BlockAt(JoinPieces(pieces).value, pieces[i].value.value, k)
  {
    var front := JoinPiecesSuffix(pieces, i);
    var suffix := pieces[i..];
    JoinPiecesCons(suffix);
    k := |front|;
    MiddleBlock(JoinPieces(pieces).value, front, pieces[i].value.value, JoinPieces(suffix[1..]).value);
  }

  /**
   * Every entry follows its ancestors: the whole chain of each target the
   * file's `extends` resolves to sits, as one block, before the file's own link.
   */
  lemma AncestorsPrecede<O, V>(fs: FileSystem<O, V>, path: Path, fuel: nat, reference: string)
    requires fuel > 0 && |path| > 0 && ExtendsChain(fs, path, fuel).Ok?
    requires Read(fs, path).Ok? && reference in ListedRefs(Read(fs, path).value.extendsField)
    requires ResolveTarget(fs, DirOf(path), reference).Some?
    ensures ExtendsChain(fs, ResolveTarget(fs, DirOf(path), reference).value, fuel - 1).Ok?
    ensures var chain, c := ExtendsChain(fs, path, fuel).value,
                            ExtendsChain(fs, ResolveTarget(fs, DirOf(path), reference).value, fuel - 1).value;
      exists k: nat :: k + |c| < |chain| && BlockAt(chain, c, k)
  {
    var config := Read(fs, path).value;
    var refs := ListedRefs(config.extendsField);
    var dir := DirOf(path);
    ExtendsChainLinearised(fs, path, fuel);
    var i :| 0 <= i < |refs| && refs[i] == reference;
    var pieces := Pieces(fs, dir, refs, fuel - 1);
    assert pieces[i] == Piece(fs, dir, reference, fuel - 1);
    var k := JoinPiecesBlock(pieces, i);
    BlockAtExtend(JoinPieces(pieces).value,
                  ExtendsChain(fs, ResolveTarget(fs, dir, reference).value, fuel - 1).value,
                  k, TsConfigExtendsChain(Clean(path), config));
  }

  /** A target whose own chain fails makes the whole resolution fail. */
  lemma AncestorErrorAborts<O, V>(fs: FileSystem<O, V>, path: Path, fuel: nat, reference: string)
    requires fuel > 0 && |path| > 0
    requires Read(fs, path).Ok? && reference in ListedRefs(Read(fs, path).value.extendsField)
    requires ResolveTarget(fs, DirOf(path), reference).Some?
    requires ExtendsChain(fs, ResolveTarget(fs, DirOf(path), reference).value, fuel - 1).Err?
    ensures ExtendsChain(fs, path, fuel).Err?
  {
    if ExtendsChain(fs, path, fuel).Ok? {
      AncestorsPrecede(fs, path, fuel, reference);
    }
  }

  /** A file that extends nothing is a chain of its own link. */
  lemma NoExtendsChain<O, V>(fs: FileSystem<O, V>, path: Path, fuel: nat)
    requires fuel > 0 && |path| > 0 && Read(fs, path).Ok? && Read(fs, path).value.extendsField.None?
    ensures ExtendsChain(fs, path, fuel) == Ok([TsConfigExtendsChain(Clean(path), Read(fs, path).value)])
  {
    ExtendsChainLinearised(fs, path, fuel);
    assert ListedChains(fs, DirOf(path), [], fuel - 1) == Ok([]);
    assert [] + [TsConfigExtendsChain(Clean(path), Read(fs, path).value)]
        == [TsConfigExtendsChain(Clean(path), Read(fs, path).value)];
  }

  /**
   * With a single `extends`: the target's chain, then the file; a package
   * found in no `node_modules` is skipped, leaving the file alone.
   */
  lemma SingleExtendsChain<O, V>(fs: FileSystem<O, V>, path: Path, fuel: nat, name: string)
    requires fuel > 0 && |path| > 0 && Read(fs, path).Ok?
    requires Read(fs, path).value.extendsField == Some(Single(name))
    ensures ResolveTarget(fs, DirOf(path), name).None? ==> ExtendsChain(fs, path, fuel) == Ok([LinkOf(fs, path)])
    ensures ResolveTarget(fs, DirOf(path), name).Some? ==>
              ExtendsChain(fs, path, fuel)
              == Appended(ExtendsChain(fs, ResolveTarget(fs, DirOf(path), name).value, fuel - 1), LinkOf(fs, path))
  {
    ExtendsChainLinearised(fs, path, fuel);
    assert [name][1..] == [];
    ListedChainsUnfold(fs, DirOf(path), [name], fuel - 1);
    assert ListedChains(fs, DirOf(path), [], fuel - 1) == Ok([]);
    CombineAlone(Piece(fs, DirOf(path), name, fuel - 1));
    assert [] + [LinkOf(fs, path)] == [LinkOf(fs, path)];
  }

  /**
   * With `extends: [x, y]`: `x`'s chain, then `y`'s, then the file, so `y`
   * overrides `x` when the chain is folded; `y` is walked first, so its
   * failure is the one reported when both fail.
   */
  lemma MultiExtendsChain<O, V>(fs: FileSystem<O, V>, path: Path, fuel: nat, x: string, y: string)
    requires fuel > 0 && |path| > 0 && Read(fs, path).Ok?
    requires Read(fs, path).value.extendsField == Some(Multiple([x, y]))
    requires ResolveTarget(fs, DirOf(path), x).Some? && ResolveTarget(fs, DirOf(path), y).Some?
    ensures var link := TsConfigExtendsChain(Clean(path), Read(fs, path).value);
      ExtendsChain(fs, path, fuel)
      == match ExtendsChain(fs, ResolveTarget(fs, DirOf(path), y).value, fuel - 1)
         case Err(e) => Err(e)
         case Ok(cy) =>
           match ExtendsChain(fs, ResolveTarget(fs, DirOf(path), x).value, fuel - 1)
           case Err(e) => Err(e)
           case Ok(cx) => Ok(cx + cy + [link])
  {
    ExtendsChainLinearised(fs, path, fuel);
    var refs := [x, y];
    assert refs[1..] == [y] && refs[1..][1..] == [];
    ListedChainsUnfold(fs, DirOf(path), refs, fuel - 1);
    ListedChainsUnfold(fs, DirOf(path), [y], fuel - 1);
    assert ListedChains(fs, DirOf(path), [], fuel - 1) == Ok([]);
    var tx, ty := ResolveTarget(fs, DirOf(path), x).value, ResolveTarget(fs, DirOf(path), y).value;
    match ExtendsChain(fs, ty, fuel - 1)
    case Err(e) =>
    case Ok(cy) =>
      assert cy + [] == cy;
      match ExtendsChain(fs, tx, fuel - 1)
      case Err(e) =>
      case Ok(cx) =>
        assert ListedChains(fs, DirOf(path), refs, fuel - 1) == Ok(cx + cy);
  }


  /** `b` extends `a`, which extends nothing: the chain is `[a, b]`. */
  lemma ChainOfTwo<O, V>(fs: FileSystem<O, V>, a: Path, b: Path, fuel: nat, toA: string)
    requires fuel >= 2 && |a| > 0 && |b| > 0
    requires Read(fs, b).Ok? && Read(fs, b).value.extendsField == Some(Single(toA))
    requires ResolveTarget(fs, DirOf(b), toA) == Some(a)
    requires Read(fs, a).Ok? && Read(fs, a).value.extendsField.None?
    ensures ExtendsChain(fs, b, fuel) == Ok([LinkOf(fs, a), LinkOf(fs, b)])
  {
    var la, lb := LinkOf(fs, a), LinkOf(fs, b);
    NoExtendsChain(fs, a, fuel - 1);
    SingleExtendsChain(fs, b, fuel, toA);
    assert [la] + [lb] == [la, lb];
  }

  /** `c` extends `b`, which extends `a`: the chain is `[a, b, c]`. */
  lemma ChainOfThree<O, V>(fs: FileSystem<O, V>, a: Path, b: Path, c: Path, fuel: nat, toA: string, toB: string)
    requires fuel >= 3 && |a| > 0 && |b| > 0 && |c| > 0
    requires Read(fs, c).Ok? && Read(fs, c).value.extendsField == Some(Single(toB))
    requires ResolveTarget(fs, DirOf(c), toB) == Some(b)
    requires Read(fs, b).Ok? && Read(fs, b).value.extendsField == Some(Single(toA))
    requires ResolveTarget(fs, DirOf(b), toA) == Some(a)
    requires Read(fs, a).Ok? && Read(fs, a).value.extendsField.None?
    ensures ExtendsChain(fs, c, fuel) == Ok([LinkOf(fs, a), LinkOf(fs, b), LinkOf(fs, c)])
  {
    var la, lb, lc := LinkOf(fs, a), LinkOf(fs, b), LinkOf(fs, c);
    assert ExtendsChain(fs, b, fuel - 1) == Ok([la, lb]) by {
      ChainOfTwo(fs, a, b, fuel - 1, toA);
    }
    SingleExtendsChain(fs, c, fuel, toB);
    assert [la, lb] + [lc] == [la, lb, lc];
  }

  /**
   * `d` extends `[b, c]` and both extend `a`: `a` is in the chain twice,
   * `[a, b, a, c, d]`, as nothing removes repeats.
   */
  lemma DiamondRepeatsBase<O, V>(fs: FileSystem<O, V>, a: Path, b: Path, c: Path, d: Path, fuel: nat,
                                 toA: string, toB: string, toC: string)
    requires fuel >= 3 && |a| > 0 && |b| > 0 && |c| > 0 && |d| > 0
    requires Read(fs, d).Ok? && Read(fs, d).value.extendsField == Some(Multiple([toB, toC]))
    requires ResolveTarget(fs, DirOf(d), toB) == Some(b) && ResolveTarget(fs, DirOf(d), toC) == Some(c)
    requires Read(fs, b).Ok? && Read(fs, b).value.extendsField == Some(Single(toA))
    requires ResolveTarget(fs, DirOf(b), toA) == Some(a)
    requires Read(fs, c).Ok? && Read(fs, c).value.extendsField == Some(Single(toA))
    requires ResolveTarget(fs, DirOf(c), toA) == Some(a)
    requires Read(fs, a).Ok? && Read(fs, a).value.extendsField.None?
    ensures ExtendsChain(fs, d, fuel) == Ok([LinkOf(fs, a), LinkOf(fs, b), LinkOf(fs, a), LinkOf(fs, c), LinkOf(fs, d)])
  {
    var la, lb, lc, ld := LinkOf(fs, a), LinkOf(fs, b), LinkOf(fs, c), LinkOf(fs, d);
    assert ExtendsChain(fs, b, fuel - 1) == Ok([la, lb]) by {
      ChainOfTwo(fs, a, b, fuel - 1, toA);
    }
    assert ExtendsChain(fs, c, fuel - 1) == Ok([la, lc]) by {
      ChainOfTwo(fs, a, c, fuel - 1, toA);
    }
    MultiExtendsChain(fs, d, fuel, toB, toC);
    assert [la, lb] + [la, lc] + [ld] == [la, lb, la, lc, ld];
  }

  // ---------------------------------------------------------------------
  // Folding the chain

  /** The configurations of a chain, in order. */
  function Configs<O, V>(chain: seq<TsConfigExtendsChain<O, V>>): seq<TsConfig<O, V>> {
    seq(|chain|, i requires 0 <= i < |chain| => chain[i].config)
  }

  lemma ConfigsAppend<O, V>(xs: seq<TsConfigExtendsChain<O, V>>, ys: seq<TsConfigExtendsChain<O, V>>)
    ensures Configs(xs + ys) == Configs(xs) + Configs(ys)
  {
  }

  /**
   * Folding `cx + cy + [link]` from the front: each list the link sets wins,
   * then each list the fold of `cy` sets, then `cx`'s; `extends` and
   * `references` come from the link.
   */
  lemma FoldThreeParts<O(!new), V>(cx: seq<TsConfigExtendsChain<O, V>>, cy: seq<TsConfigExtendsChain<O, V>>,
                                   link: TsConfigExtendsChain<O, V>, mergeOptions: (O, O) -> O, defaultOptions: O)
    requires cy != []
    ensures var whole := Fold(Configs(cx + cy + [link]), mergeOptions, defaultOptions);
            var fx := Fold(Configs(cx), mergeOptions, defaultOptions);
            var fy := Fold(Configs(cy), mergeOptions, defaultOptions);
      && whole.includePaths == Override(Override(fx.includePaths, fy.includePaths), link.config.includePaths)
      && whole.excludePaths == Override(Override(fx.excludePaths, fy.excludePaths), link.config.excludePaths)
      && whole.files == Override(Override(fx.files, fy.files), link.config.files)
      && whole.extendsField == link.config.extendsField
      && whole.references == link.config.references
  {
    var front := Configs(cx) + Configs(cy);
    ConfigsAppend(cx, cy);
    ConfigsAppend(cx + cy, [link]);
    var all := front + [link.config];
    assert Configs(cx + cy + [link]) == all;
    assert all[..|all| - 1] == front && all[|all| - 1] == link.config;
    assert Configs(cy) != [];
    LaterSettingWins(Configs(cx), Configs(cy), mergeOptions, defaultOptions);
  }

  /**
   * Folding the chain of a file with `extends: [x, y]` from the most-base
   * link: each list the file sets wins, then each list `y`'s chain sets,
   * then `x`'s; `extends` and `references` come from the file itself.
   */
  lemma LaterExtendsWins<O(!new), V>(fs: FileSystem<O, V>, path: Path, fuel: nat, x: string, y: string,
                                     mergeOptions: (O, O) -> O, defaultOptions: O)
    requires fuel > 0 && |path| > 0 && Read(fs, path).Ok?
    requires Read(fs, path).value.extendsField == Some(Multiple([x, y]))
    requires ResolveTarget(fs, DirOf(path), x).Some? && ResolveTarget(fs, DirOf(path), y).Some?
    requires ExtendsChain(fs, path, fuel).Ok?
    ensures ExtendsChain(fs, ResolveTarget(fs, DirOf(path), x).value, fuel - 1).Ok?
    ensures ExtendsChain(fs, ResolveTarget(fs, DirOf(path), y).value, fuel - 1).Ok?
    ensures var whole := Fold(Configs(ExtendsChain(fs, path, fuel).value), mergeOptions, defaultOptions);
            var fx := Fold(Configs(ExtendsChain(fs, ResolveTarget(fs, DirOf(path), x).value, fuel - 1).value),
                           mergeOptions, defaultOptions);
            var fy := Fold(Configs(ExtendsChain(fs, ResolveTarget(fs, DirOf(path), y).value, fuel - 1).value),
                           mergeOptions, defaultOptions);
            var own := Read(fs, path).value;
      && whole.includePaths == Override(Override(fx.includePaths, fy.includePaths), own.includePaths)
      && whole.excludePaths == Override(Override(fx.excludePaths, fy.excludePaths), own.excludePaths)
      && whole.files == Override(Override(fx.files, fy.files), own.files)
      && whole.extendsField == own.extendsField
      && whole.references == own.references
  {
    MultiExtendsChain(fs, path, fuel, x, y);
    var tx, ty := ResolveTarget(fs, DirOf(path), x).value, ResolveTarget(fs, DirOf(path), y).value;
    ChainEndsWithRequestedFile(fs, ty, fuel - 1);
    FoldThreeParts(ExtendsChain(fs, tx, fuel - 1).value, ExtendsChain(fs, ty, fuel - 1).value, LinkOf(fs, path),
                   mergeOptions, defaultOptions);
  }
}
