/** Batch source assembly (`generate_test_cpp_sources` and the loop of
    `build_cpp_tests`): one C++ test function per registry entry, the
    metadata source of each functional added the first time the functional
    is met, and the list of function names the compiled module exposes. */
module CppSources {
  import opened Text
  import opened Descriptors
  import opened Naming
  import opened Registration

  /** The fixed text of the forward-test template around its placeholders,
      apart from the declaration line and the two file names: the lines
      before the argument file name, those between the construction
      statements and the call expression, and those between the call
      expression and the output file name. The model does not read them. */
  datatype TemplateText = TemplateText(beforeArgs: string, beforeCall: string, afterCall: string)

  /** What `build_cpp_tests` reads besides the registry: the common harness
      source, the metadata sources by functional name, the sources of the
      default metadata record, the argument-construction statements of a
      test (computed by a helper this model does not include), and the
      template text. */
  datatype BuildInputs = BuildInputs(
    harness: string,
    metadata: map<string, string>,
    defaultSource: string,
    stmtsOf: TestParams -> seq<string>,
    template: TemplateText)

  /** The file the Python side saves the arguments to and the C++ side
      loads: a file of the test's own folder, named after its variant, and
      not the output file. */
  function ArgDictPath(p: TestParams): (r: string)
    ensures p.cppTmpFolder + "/" + p.functionalVariantName <= r
    ensures r != OutputPath(p)
  {
    p.cppTmpFolder + "/" + p.functionalVariantName + "_arg_dict.pt"
  }

  /** The file the C++ side writes its output to and the Python side loads,
      in the test's own folder and named after its variant. */
  function OutputPath(p: TestParams): (r: string)
    ensures p.cppTmpFolder + "/" + p.functionalVariantName <= r
    ensures |r| == |p.cppTmpFolder + "/" + p.functionalVariantName| + 18
  {
    p.cppTmpFolder + "/" + p.functionalVariantName + "_forward_output.pt"
  }

  /** The first line of the generated function. */
  function Declaration(variant: string): string {
    "\nvoid " + CppTestName(variant) + "() {"
  }

  /** `generate_test_cpp_sources`: the template with the variant name, the
      temporary folder, the argument-construction statements joined by
      `;\n  ` and the call expression substituted. The function is declared
      under the entry-point name that is exposed and looked up; it loads the
      argument file the Python side writes, holds the call expression and
      writes the output file the Python side reads. */
  function GenerateTestCppSources(p: TestParams, stmts: seq<string>, t: TemplateText): (r: string)
    ensures Declaration(p.functionalVariantName) <= r
    ensures Contains(r, ArgDictPath(p))
    ensures Contains(r, p.cppFunctionCall)
    ensures Contains(r, OutputPath(p))
  {
    var parts := TemplatePieces(p, stmts, t);
    assert Concat(parts) == parts[0] + Concat(parts[1..]);
    ConcatContains(parts, 2);
    ConcatContains(parts, 6);
    ConcatContains(parts, 8);
    Concat(parts)
  }

  /** The pieces of a generated test function, in order. */
  function TemplatePieces(p: TestParams, stmts: seq<string>, t: TemplateText): seq<string> {
    [Declaration(p.functionalVariantName), t.beforeArgs,
     ArgDictPath(p), "\");\n  ",
     Join(stmts, ";\n  "), t.beforeCall,
     p.cppFunctionCall, t.afterCall,
     OutputPath(p), "\");\n}\n"]
  }

  /** The metadata source of a functional; an unknown functional gets the
      sources of a default metadata record. */
  function MetadataSource(metadata: map<string, string>, defaultSource: string, name: string): string {
    if name in metadata then metadata[name] else defaultSource
  }

  /** The text `build_cpp_tests` appends for the entries, in order, given the
      functionals whose metadata is already in; paired with the functionals
      whose metadata it appends, in order. */
  function Assemble(entries: seq<TestParams>, seen: set<string>, inputs: BuildInputs): (string, seq<string>)
    decreases |entries|
  {
    if entries == [] then ([], [])
    else
      var p := entries[0];
      var rest := Assemble(entries[1..], seen + {p.functionalName}, inputs);
      (Chunk(p, seen, inputs) + rest.0,
       (if p.functionalName !in seen then [p.functionalName] else []) + rest.1)
  }

  /** What one entry contributes: the metadata source of its functional when
      that is not in yet, then its generated test function. */
  function Chunk(p: TestParams, seen: set<string>, inputs: BuildInputs): (r: string)
  {
    (if p.functionalName !in seen
     then MetadataSource(inputs.metadata, inputs.defaultSource, p.functionalName) else [])
      + GenerateTestCppSources(p, inputs.stmtsOf(p), inputs.template)
  }

  /** An entry's chunk ends with its generated test function, and starts
      with its functional's metadata source exactly when that functional is
      not in yet. */
  lemma ChunkShape(p: TestParams, seen: set<string>, inputs: BuildInputs)
    ensures var r := Chunk(p, seen, inputs);
      var g := GenerateTestCppSources(p, inputs.stmtsOf(p), inputs.template);
      && |g| <= |r| && r[|r| - |g|..] == g
      && (p.functionalName !in seen ==>
            r == MetadataSource(inputs.metadata, inputs.defaultSource, p.functionalName) + g)
      && (p.functionalName in seen ==> r == g)
  {
  }

  /** Each functional's metadata source is appended at most once, never for
      one already seen, and for every functional of the entries otherwise. */
  lemma {:induction false} MetadataAddedOnce(entries: seq<TestParams>, seen: set<string>, inputs: BuildInputs)
    ensures var added := Assemble(entries, seen, inputs).1;
      && (forall j, l | 0 <= j < l < |added| :: added[j] != added[l])
      && (forall n :: n in added <==>
            n !in seen && exists k | 0 <= k < |entries| :: entries[k].functionalName == n)
    decreases |entries|
  {
    if entries != [] {
      var p := entries[0];
      var seen' := seen + {p.functionalName};
      MetadataAddedOnce(entries[1..], seen', inputs);
      var rest := Assemble(entries[1..], seen', inputs).1;
      var added := Assemble(entries, seen, inputs).1;
      forall n ensures n in added <==>
                 n !in seen && exists k | 0 <= k < |entries| :: entries[k].functionalName == n
      {
        if n in rest {
          var k :| 0 <= k < |entries[1..]| && entries[1..][k].functionalName == n;
          assert entries[k + 1].functionalName == n;
        }
        if n !in seen && n != p.functionalName && exists k | 0 <= k < |entries| :: entries[k].functionalName == n {
          var k :| 0 <= k < |entries| && entries[k].functionalName == n;
          assert entries[1..][k - 1].functionalName == n;
        }
      }
      if p.functionalName !in seen {
        forall j, l | 0 <= j < l < |added| ensures added[j] != added[l] {
          if j == 0 {
            assert added[l] == rest[l - 1];
          }
        }
      }
    }
  }

  /** Every entry's generated function appears in the assembled text. */
  lemma {:induction false} AssembleDeclaresAll(entries: seq<TestParams>, seen: set<string>,
                                               inputs: BuildInputs, k: nat)
    requires k < |entries|
    ensures Contains(Assemble(entries, seen, inputs).0, Declaration(entries[k].functionalVariantName))
    decreases |entries|
  {
    var p := entries[0];
    var seen' := seen + {p.functionalName};
    var c := Chunk(p, seen, inputs);
    var rest := Assemble(entries[1..], seen', inputs).0;
    assert Assemble(entries, seen, inputs).0 == c + rest;
    if k == 0 {
      var m := if p.functionalName !in seen
               then MetadataSource(inputs.metadata, inputs.defaultSource, p.functionalName) else [];
      var g := GenerateTestCppSources(p, inputs.stmtsOf(p), inputs.template);
      assert c == m + g;
      PrefixContained(g, Declaration(p.functionalVariantName));
      ContainsInRight(m, g, Declaration(p.functionalVariantName));
      ContainsInLeft(c, rest, Declaration(p.functionalVariantName));
    } else {
      AssembleDeclaresAll(entries[1..], seen', inputs, k - 1);
      assert entries[1..][k - 1] == entries[k];
      ContainsInRight(c, rest, Declaration(entries[k].functionalVariantName));
    }
  }

  /** One step of the loop below: the entry's chunk moves from the text
      still to be appended to the text already appended. */
  lemma AssembleStep(entries: seq<TestParams>, i: nat, seen: set<string>, inputs: BuildInputs,
                     done: string, total: string)
    requires i < |entries|
    requires done + Assemble(entries[i..], seen, inputs).0 == total
    ensures (done + Chunk(entries[i], seen, inputs))
            + Assemble(entries[i + 1..], seen + {entries[i].functionalName}, inputs).0 == total
  {
    assert entries[i..][0] == entries[i] && entries[i..][1..] == entries[i + 1..];
  }

  /** The body of the loop of `build_cpp_tests` for one entry: the metadata
      source of its functional when that is not in yet, then its generated
      test function. */
  method AppendEntry(sources: string, added: set<string>, p: TestParams, inputs: BuildInputs)
    returns (sources': string, added': set<string>)
    ensures sources' == sources + Chunk(p, added, inputs)
    ensures added' == added + {p.functionalName}
  {
    sources', added' := sources, added;
    if p.functionalName !in added {
      sources' := sources' + MetadataSource(inputs.metadata, inputs.defaultSource, p.functionalName);
      added' := added' + {p.functionalName};
    }
    sources' := sources' + GenerateTestCppSources(p, inputs.stmtsOf(p), inputs.template);
  }

  /** The loop of `build_cpp_tests`: the harness source, then per entry the
      metadata source on the first sight of its functional and the
      generated test function; one exposed name per entry, in order. */
  method AssembleCppSources(entries: seq<TestParams>, inputs: BuildInputs)
    returns (sources: string, functions: seq<string>)
    ensures sources == inputs.harness + Assemble(entries, {}, inputs).0
    ensures functions == EntryPoints(entries)
  {
    sources := inputs.harness;
    functions := [];
    var added: set<string> := {};
    assert entries[0..] == entries && entries[..0] == [];
    for i := 0 to |entries|
      invariant sources + Assemble(entries[i..], added, inputs).0
             == inputs.harness + Assemble(entries, {}, inputs).0
      invariant functions == EntryPoints(entries[..i])
    {
      var p := entries[i];
      AssembleStep(entries, i, added, inputs, sources, inputs.harness + Assemble(entries, {}, inputs).0);
      sources, added := AppendEntry(sources, added, p, inputs);
      functions := functions + [CppTestName(p.functionalVariantName)];
      assert entries[..i + 1] == entries[..i] + [p];
      EntryPointsSnoc(entries[..i], p);
    }
    assert entries[|entries|..] == [] && entries[..|entries|] == entries;
  }

  /** The names the compiled module exposes for the entries: each entry's
      C++ entry point, in order. */
  function EntryPoints(entries: seq<TestParams>): (r: seq<string>)
    ensures |r| == |entries|
    ensures forall k | 0 <= k < |entries| :: r[k] == CppTestName(entries[k].functionalVariantName)
  {
    if entries == [] then []
    else [CppTestName(entries[0].functionalVariantName)] + EntryPoints(entries[1..])
  }

  lemma {:induction false} EntryPointsSnoc(entries: seq<TestParams>, p: TestParams)
    ensures EntryPoints(entries + [p]) == EntryPoints(entries) + [CppTestName(p.functionalVariantName)]
  {
    var r := EntryPoints(entries + [p]);
    assert |r| == |entries| + 1;
    assert forall k | 0 <= k < |entries| :: (entries + [p])[k] == entries[k];
  }

  /** The registry entries in insertion order. */
  function Entries(st: RegState): (r: seq<TestParams>)
    requires forall k | k in st.keys :: k in st.params
    ensures |r| == |st.keys|
    ensures forall k | 0 <= k < |r| :: r[k] == st.params[st.keys[k]]
  {
    seq(|st.keys|, k requires 0 <= k < |st.keys| => st.params[st.keys[k]])
  }

  /** Every added test finds, among the names the compiled module exposes,
      the C++ entry point it looks up (`<variant>_test_forward`). */
  lemma EveryTestHasEntryPoint(st: RegState, functions: seq<string>)
    requires WellFormed(st)
    requires |functions| == |st.keys|
    requires forall k | 0 <= k < |st.keys| ::
               functions[k] == CppTestName(Entries(st)[k].functionalVariantName)
    ensures forall t | t in st.tests ::
              CppTestName(st.params[t.name].functionalVariantName) in functions
  {
    forall t | t in st.tests
      ensures CppTestName(st.params[t.name].functionalVariantName) in functions
    {
      var k :| 0 <= k < |st.keys| && st.keys[k] == t.name;
      assert functions[k] == CppTestName(st.params[t.name].functionalVariantName);
    }
  }
}
