/**
 * The result of parsing one LLVM bitcode module (LLVMParserResult.java):
 * the parser runtime, the defined and external functions and globals, the
 * data layout, the size of the symbol table they make up, and the library
 * dependencies, which are filled in once, after construction.
 *
 * The element types the record only stores are type parameters.
 */
module ParserResult {
  import opened Wrappers

  const TwoTo31: int := 0x8000_0000
  const TwoTo32: int := 0x1_0000_0000

  /** A Java `int`. */
  type Int = x: int | -TwoTo31 <= x < TwoTo31

  /** The Java `int` an integer sum wraps around to, modulo 2^32. */
  function IntWrap(x: int): (r: Int)
    ensures -TwoTo31 <= x < TwoTo31 ==> r == x
    ensures (r - x) % TwoTo32 == 0
  {
    var m := (x + TwoTo31) % TwoTo32;
    m - TwoTo31
  }

  /** The number of symbols the four lists hold, as the Java `int` sum of their sizes. */
  function SymbolCount<F, G>(definedFunctions: seq<F>, externalFunctions: seq<F>,
                             definedGlobals: seq<G>, externalGlobals: seq<G>): (r: Int)
    ensures |definedFunctions| + |externalFunctions| + |definedGlobals| + |externalGlobals| < TwoTo31 ==>
      r == |definedFunctions| + |externalFunctions| + |definedGlobals| + |externalGlobals|
    ensures (r - (|definedFunctions| + |externalFunctions| + |definedGlobals| + |externalGlobals|)) % TwoTo32 == 0
  {
    IntWrap(|definedFunctions| + |externalFunctions| + |definedGlobals| + |externalGlobals|)
  }

  /** `LLVMParserResult`: every field but `dependencies` is final. */
  class LLVMParserResult<Runtime, FunctionSymbol, GlobalVariable, Library, DataLayout> {
    const runtime: Runtime
    const definedFunctions: seq<FunctionSymbol>
    const externalFunctions: seq<FunctionSymbol>
    const definedGlobals: seq<GlobalVariable>
    const externalGlobals: seq<GlobalVariable>
    const dataLayout: DataLayout
    const symbolTableSize: Int
    /** What `getDependencies` returns; `None` is the `null` it returns until `setDependencies`. */
    var dependencies: Option<seq<Library>>

    /** The size recorded at construction is the size of the four lists. */
    predicate Valid()
    {
      symbolTableSize == SymbolCount(definedFunctions, externalFunctions, definedGlobals, externalGlobals)
    }

    constructor(runtime: Runtime,
                definedFunctions: seq<FunctionSymbol>, externalFunctions: seq<FunctionSymbol>,
                definedGlobals: seq<GlobalVariable>, externalGlobals: seq<GlobalVariable>,
                dataLayout: DataLayout)
      ensures this.runtime == runtime && this.dataLayout == dataLayout
      ensures this.definedFunctions == definedFunctions && this.externalFunctions == externalFunctions
      ensures this.definedGlobals == definedGlobals && this.externalGlobals == externalGlobals
      ensures Valid() && dependencies == None
    {
      this.runtime := runtime;
      this.definedFunctions := definedFunctions;
      this.externalFunctions := externalFunctions;
      this.definedGlobals := definedGlobals;
      this.externalGlobals := externalGlobals;
      this.dataLayout := dataLayout;
      this.symbolTableSize := IntWrap(|definedFunctions| + |externalFunctions| + |definedGlobals| + |externalGlobals|);
      dependencies := None;
    }

    /** `getSymbolTableSize`: the number of symbols in the four lists. */
    function GetSymbolTableSize(): (r: Int)
      requires Valid()
      ensures r == SymbolCount(definedFunctions, externalFunctions, definedGlobals, externalGlobals)
    {
      symbolTableSize
    }

    /** `setDependencies`: allowed once, while the dependencies are still unset. */
    method SetDependencies(deps: seq<Library>)
      requires dependencies == None
      modifies this`dependencies
      ensures dependencies == Some(deps)
    {
      dependencies := Some(deps);
    }
  }

  /** A symbol table of realistic size is exactly the total length of the four lists. */
  lemma SymbolTableSizeIsTotal<R, F, G, L, D>(p: LLVMParserResult<R, F, G, L, D>)
    requires p.Valid()
    requires |p.definedFunctions| + |p.externalFunctions| + |p.definedGlobals| + |p.externalGlobals| < TwoTo31
    ensures p.GetSymbolTableSize() ==
      |p.definedFunctions| + |p.externalFunctions| + |p.definedGlobals| + |p.externalGlobals|
    ensures p.GetSymbolTableSize() >= 0
  {
  }
}
