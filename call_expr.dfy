/** The C++ call expression of a test (`compute_cpp_function_call`): the
    explicit `cpp_function_call` verbatim, or `F::<name>(<symbols>, <options>)`
    built from the options and the positional argument symbols. */
module CallExpr {
  import opened Text
  import opened Descriptors
  import opened Naming

  /** The positional symbols of the call: the `input` bucket, then
      `target`, then `extra_args`; the `other` bucket never takes part. */
  function ForwardArgSymbols(a: ArgDict): (r: seq<string>)
    ensures r == Names(a.input) + Names(a.target) + Names(a.extraArgs)
  {
    NamesAppend(a.input + a.target, a.extraArgs);
    NamesAppend(a.input, a.target);
    Names(a.input + a.target + a.extraArgs)
  }

  /** The constructed form of the call: it opens with `F::<name>(`, closes
      with `, <options>)`, and names `name` again when read as an explicit
      call, as long as the name holds no `(` and no `:`. */
  function ConstructedCall(name: string, symbols: seq<string>, options: string): (r: string)
    ensures "F::" + name + "(" <= r
    ensures |r| >= |options| + 3 && r[|r| - |options| - 3..] == ", " + options + ")"
    ensures '(' !in name && ':' !in name ==> NameFromCall(r) == name
  {
    var args := Join(symbols, ", ") + ", " + options + ")";
    var r := "F::" + name + "(" + Join(symbols, ", ") + ", " + options + ")";
    assert r == "F::" + name + "(" + args;
    if '(' !in name && ':' !in name then NameFromCallForm(name, args); r else r
  }

  /** `compute_cpp_function_call`. Unlike `FunctionalName`, it consults
      `cpp_function_call` first. It fails exactly when the name derivation
      fails, with the same error; an explicit call is returned verbatim; a
      constructed call names the function it is built for. */
  function ComputeCppFunctionCall(d: Descriptor, a: ArgDict, name: string): (r: Result<string>)
    ensures r.Err? <==> FunctionalName(d).Err?
    ensures r.Err? ==> r.error == MissingCallAndOptions
    ensures d.cppFunctionCall.Some? ==> r == Ok(d.cppFunctionCall.value)
    ensures d.cppFunctionCall.None? && r.Ok? && '(' !in name && ':' !in name ==>
              NameFromCall(r.value) == name
  {
    if d.cppFunctionCall.Some? then Ok(d.cppFunctionCall.value)
    else if d.cppOptionsArgs.Some? then
      Ok(ConstructedCall(name, ForwardArgSymbols(a), d.cppOptionsArgs.value))
    else Err(MissingCallAndOptions)
  }

  /** An explicit call is returned verbatim even when options are given too,
      while the name is still derived from the options. */
  lemma ExplicitCallWins(d: Descriptor, a: ArgDict, name: string)
    requires d.cppFunctionCall.Some?
    ensures ComputeCppFunctionCall(d, a, name) == Ok(d.cppFunctionCall.value)
    ensures d.cppOptionsArgs.Some? ==>
              FunctionalName(d) == Ok(NameFromOptions(d.cppOptionsArgs.value))
  {
  }

  /** The `other` bucket never contributes to the call. */
  lemma OtherBucketIgnored(d: Descriptor, a: ArgDict, other: seq<CppArg>, name: string)
    ensures ComputeCppFunctionCall(d, a.(other := other), name) == ComputeCppFunctionCall(d, a, name)
  {
  }

  /** A constructed call, read back as an explicit call, names the same
      function, and its argument text (between the first `(` and the final
      `)`) splits into the symbols followed by the options. */
  lemma {:induction false} ConstructedCallRoundTrip(name: string, symbols: seq<string>, options: string)
    requires '(' !in name && ':' !in name
    requires symbols != []
    requires forall k | 0 <= k < |symbols| :: ',' !in symbols[k]
    requires ',' !in options
    ensures NameFromCall(ConstructedCall(name, symbols, options)) == name
    ensures ArgumentText(ConstructedCall(name, symbols, options), name)
         == Join(symbols + [options], ", ")
    ensures Split(Join(symbols + [options], ", "), ", ") == symbols + [options]
  {
    var args := Join(symbols, ", ") + ", " + options;
    var call := ConstructedCall(name, symbols, options);
    assert call == "F::" + name + "(" + (args + ")");
    NameFromCallForm(name, args + ")");
    JoinSnoc(symbols, ", ", options);
    assert ArgumentText(call, name) == args;
    SplitJoin(symbols + [options], ", ");
  }

  /** The text between `F::<name>(` and the final character. */
  function ArgumentText(call: string, name: string): string {
    var start := |"F::" + name + "("|;
    if start <= |call| - 1 then call[start..|call| - 1] else []
  }

  /** With no positional symbol at all the constructed call still puts the
      separator before the options. */
  lemma ConstructedCallWithoutSymbols(name: string, options: string)
    ensures ConstructedCall(name, [], options) == "F::" + name + "(, " + options + ")"
  {
  }
}
