/** The values the functional parity harness passes around: a test
    descriptor (one entry of the table of test-parameter dictionaries), the
    test instance built from it, the four argument buckets and the
    per-(descriptor, device) test parameters. Tensors and other values that
    only the numerical library inspects are opaque handles. */
module Descriptors {

  datatype Option<T> = None | Some(value: T) {
    function GetOr(default: T): T {
      match this
      case Some(v) => v
      case None => default
    }
  }

  /** The configuration errors the harness raises, each at registration time. */
  datatype Error =
    | MissingCallAndOptions
      // neither `cpp_options_args` nor `cpp_function_call` is present
    | UnsupportedStringSymbol(name: string, value: string)
      // a `cpp_arg_symbol_map` string other than "input"
    | UnsupportedSymbolValue(name: string)
      // a `cpp_arg_symbol_map` value that is neither a string nor a tensor
    | UnknownFunctional(name: string)
      // `torch.nn.functional` has no function of the derived name
    | MissingParityEntry(fullName: string)
      // the parity table lacks an entry for `F::<name>`

  datatype Result<T> = Ok(value: T) | Err(error: Error)

  /** An opaque value handed to the numerical library (a tensor, or the
      test's input, which may be a tuple of tensors). */
  datatype Value = Value(handle: nat)

  /** A value of the `cpp_arg_symbol_map` dictionary. */
  datatype SymbolValue =
    | Str(text: string)
    | Tensor(tensor: Value)
    | Unsupported(description: string)

  /** What the harness reads from the test instance built by
      `test_instance_class(**descriptor)`:
      - `name`: `get_name()`;
      - `input`: `_get_input()` as it is;
      - `inputs`, `targets`, `extraArgs`: `convert_to_list` of
        `_get_input()`, `_get_target()` and `extra_args`;
      - `isCriterion`: the verdict of `is_criterion_test`. */
  datatype TestInstance = TestInstance(
    name: string,
    input: Value,
    inputs: seq<Value>,
    isCriterion: bool,
    targets: seq<Value>,
    extraArgs: seq<Value>)

  /** One test-parameter dictionary. Absent optional keys are `None`;
      `constructorText` is `str(d.get('constructor', ''))`; the symbol map
      keeps the dictionary's insertion order. */
  datatype Descriptor = Descriptor(
    constructorText: string,
    cppOptionsArgs: Option<string>,
    cppFunctionCall: Option<string>,
    cppArgSymbolMap: seq<(string, SymbolValue)>,
    hasParity: Option<bool>,
    testCppApiParity: Option<bool>,
    testCuda: Option<bool>,
    instance: TestInstance)

  /** A named argument: the symbol the C++ snippet uses, and its value. */
  datatype CppArg = CppArg(name: string, value: Value)

  /** The four argument buckets, each in insertion order. */
  datatype ArgDict = ArgDict(
    input: seq<CppArg>,
    target: seq<CppArg>,
    extraArgs: seq<CppArg>,
    other: seq<CppArg>)

  /** The parameters of one generated test (one descriptor on one device). */
  datatype TestParams = TestParams(
    functionalName: string,
    functionalVariantName: string,
    testInstance: TestInstance,
    cppFunctionCall: string,
    argDict: ArgDict,
    hasParity: bool,
    device: string,
    cppTmpFolder: string)

  /** The symbols of a list of arguments, in order. */
  function Names(args: seq<CppArg>): (r: seq<string>)
    ensures |r| == |args|
    ensures forall k | 0 <= k < |args| :: r[k] == args[k].name
  {
    if args == [] then [] else [args[0].name] + Names(args[1..])
  }

  lemma {:induction false} NamesAppend(a: seq<CppArg>, b: seq<CppArg>)
    ensures Names(a + b) == Names(a) + Names(b)
  {
    assert |Names(a + b)| == |Names(a) + Names(b)|;
    forall k | 0 <= k < |a + b|
      ensures Names(a + b)[k] == (Names(a) + Names(b))[k]
    {
    }
  }
}
