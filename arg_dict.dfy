/** Argument materialisation (`process_test_params_for_functional`): the
    four argument buckets filled with the generated symbols `i<k>`, `t<k>`,
    `e<k>` and the entries of `cpp_arg_symbol_map`, the variant name, the
    call expression and the `has_parity` default. */
module ArgMaterialize {
  import opened Text
  import opened Descriptors
  import opened Naming
  import opened CallExpr

  /** The symbol of the k-th argument of a bucket: `prefix + str(k)`. */
  function Symbol(prefix: char, k: nat): string {
    [prefix] + Decimal(k)
  }

  /** Two symbols are equal only when prefix and index are. */
  lemma SymbolInjective(p: char, k: nat, q: char, m: nat)
    requires Symbol(p, k) == Symbol(q, m)
    ensures p == q && k == m
  {
    assert Symbol(p, k)[0] == p && Symbol(q, m)[0] == q;
    assert Symbol(p, k)[1..] == Decimal(k) && Symbol(q, m)[1..] == Decimal(m);
    DecimalInjective(k, m);
  }

  /** The arguments `args`, named `<prefix><start>`, `<prefix><start+1>`, ... */
  function NumberedFrom(prefix: char, args: seq<Value>, start: nat): (r: seq<CppArg>)
    ensures |r| == |args|
  {
    if args == [] then []
    else [CppArg(Symbol(prefix, start), args[0])] + NumberedFrom(prefix, args[1..], start + 1)
  }

  function Numbered(prefix: char, args: seq<Value>): seq<CppArg> {
    NumberedFrom(prefix, args, 0)
  }

  lemma {:induction false} NumberedFromAt(prefix: char, args: seq<Value>, start: nat, k: nat)
    requires k < |args|
    ensures NumberedFrom(prefix, args, start)[k] == CppArg(Symbol(prefix, start + k), args[k])
  {
    if k > 0 {
      NumberedFromAt(prefix, args[1..], start + 1, k - 1);
    }
  }

  /** The k-th argument of a numbered bucket is `<prefix>k` bound to the k-th
      value: the bucket keeps the source order. */
  lemma NumberedAt(prefix: char, args: seq<Value>, k: nat)
    requires k < |args|
    ensures |Numbered(prefix, args)| == |args|
    ensures Numbered(prefix, args)[k] == CppArg(Symbol(prefix, k), args[k])
  {
    NumberedFromAt(prefix, args, 0, k);
  }

  /** `put_args_into_arg_dict`: appends the arguments to the bucket, one per
      loop iteration, each named by its prefix and position. */
  method PutArgsIntoArgDict(bucket: seq<CppArg>, prefix: char, args: seq<Value>)
    returns (r: seq<CppArg>)
    ensures r == bucket + Numbered(prefix, args)
  {
    r := bucket;
    for i := 0 to |args|
      invariant |r| == |bucket| + i
      invariant r[..|bucket|] == bucket
      invariant forall k | 0 <= k < i :: r[|bucket| + k] == CppArg(Symbol(prefix, k), args[k])
    {
      r := r + [CppArg(Symbol(prefix, i), args[i])];
    }
    assert |Numbered(prefix, args)| == |args|;
    forall k | |bucket| <= k < |r|
      ensures r[k] == (bucket + Numbered(prefix, args))[k]
    {
      NumberedAt(prefix, args, k - |bucket|);
    }
    assert r == bucket + Numbered(prefix, args);
  }

  /** A symbol-map value the harness accepts: the string "input" or a tensor. */
  predicate ValidSymbol(v: SymbolValue) {
    v == Str("input") || v.Tensor?
  }

  /** One entry of `cpp_arg_symbol_map`: "input" names the test's input, a
      tensor names itself, any other string or value is an error naming the
      entry. */
  function ResolveSymbol(name: string, v: SymbolValue, input: Value): (r: Result<CppArg>)
    ensures r.Ok? <==> ValidSymbol(v)
    ensures r.Ok? ==> r.value == CppArg(name, if v.Tensor? then v.tensor else input)
    ensures r.Err? ==> r.error == if v.Str? then UnsupportedStringSymbol(name, v.text)
                                  else UnsupportedSymbolValue(name)
  {
    match v
    case Str(s) => if s == "input" then Ok(CppArg(name, input)) else Err(UnsupportedStringSymbol(name, s))
    case Tensor(t) => Ok(CppArg(name, t))
    case Unsupported(_) => Err(UnsupportedSymbolValue(name))
  }

  /** All entries in order; the first rejected entry decides the error. On
      success there is one argument per entry, under the entry's name. */
  function ResolveSymbols(entries: seq<(string, SymbolValue)>, input: Value): (r: Result<seq<CppArg>>)
    ensures r.Ok? ==> |r.value| == |entries| &&
                      forall k | 0 <= k < |entries| :: r.value[k].name == entries[k].0
  {
    if entries == [] then Ok([])
    else match ResolveSymbol(entries[0].0, entries[0].1, input)
      case Err(e) => Err(e)
      case Ok(arg) => Prepend([arg], ResolveSymbols(entries[1..], input))
  }

  function Prepend(done: seq<CppArg>, r: Result<seq<CppArg>>): Result<seq<CppArg>> {
    match r
    case Ok(rest) => Ok(done + rest)
    case Err(e) => Err(e)
  }

  lemma PrependTwice(a: seq<CppArg>, b: seq<CppArg>, r: Result<seq<CppArg>>)
    ensures Prepend(a, Prepend(b, r)) == Prepend(a + b, r)
  {
    if r.Ok? {
      assert a + (b + r.value) == (a + b) + r.value;
    }
  }

  /** The symbol map resolves exactly when every value is accepted; then each
      entry becomes one `other` argument under its own name, in order, bound
      to the test's input for "input" and to the tensor itself otherwise. */
  lemma {:induction false} ResolveSymbolsOk(entries: seq<(string, SymbolValue)>, input: Value)
    ensures ResolveSymbols(entries, input).Ok? <==>
            forall k | 0 <= k < |entries| :: ValidSymbol(entries[k].1)
    ensures ResolveSymbols(entries, input).Ok? ==>
            var other := ResolveSymbols(entries, input).value;
            |other| == |entries| &&
            forall k | 0 <= k < |entries| ::
              other[k].name == entries[k].0 &&
              other[k].value == (if entries[k].1.Tensor? then entries[k].1.tensor else input)
  {
    if entries != [] {
      ResolveSymbolsOk(entries[1..], input);
      var r := ResolveSymbols(entries, input);
      if r.Ok? {
        var rest := ResolveSymbols(entries[1..], input).value;
        assert r.value[1..] == rest;
        forall k | 0 < k < |entries| ensures r.value[k] == rest[k - 1] && entries[k] == entries[1..][k - 1] {
        }
      } else if ValidSymbol(entries[0].1) {
        assert !ResolveSymbols(entries[1..], input).Ok?;
        var j :| 0 <= j < |entries[1..]| && !ValidSymbol(entries[1..][j].1);
        assert !ValidSymbol(entries[j + 1].1);
      }
    }
  }

  /** The error is the one of the first rejected entry. */
  lemma {:induction false} ResolveSymbolsError(entries: seq<(string, SymbolValue)>, input: Value, k: nat)
    requires k < |entries| && !ValidSymbol(entries[k].1)
    requires forall j | 0 <= j < k :: ValidSymbol(entries[j].1)
    ensures ResolveSymbols(entries, input) == Err(ResolveSymbol(entries[k].0, entries[k].1, input).error)
  {
    if k > 0 {
      ResolveSymbolsError(entries[1..], input, k - 1);
    }
  }

  /** The loop over `cpp_arg_symbol_map.items()`, appending to `other` and
      raising on the first rejected value. */
  method ResolveSymbolMap(entries: seq<(string, SymbolValue)>, input: Value)
    returns (r: Result<seq<CppArg>>)
    ensures r == ResolveSymbols(entries, input)
  {
    var other: seq<CppArg> := [];
    assert entries[0..] == entries;
    var all := ResolveSymbols(entries, input);
    assert all.Ok? ==> [] + all.value == all.value;
    for i := 0 to |entries|
      invariant ResolveSymbols(entries, input) == Prepend(other, ResolveSymbols(entries[i..], input))
    {
      assert entries[i..][0] == entries[i] && entries[i..][1..] == entries[i + 1..];
      var (name, value) := entries[i];
      var rest := ResolveSymbols(entries[i + 1..], input);
      match value {
        case Str(s) =>
          if s == "input" {
            PrependTwice(other, [CppArg(name, input)], rest);
            other := other + [CppArg(name, input)];
          } else {
            return Err(UnsupportedStringSymbol(name, s));
          }
        case Tensor(t) =>
          PrependTwice(other, [CppArg(name, t)], rest);
          other := other + [CppArg(name, t)];
        case Unsupported(_) =>
          return Err(UnsupportedSymbolValue(name));
      }
    }
    assert entries[|entries|..] == [];
    assert other + [] == other;
    r := Ok(other);
  }

  /** The buckets before the symbol map is read. */
  function Buckets(t: TestInstance): ArgDict {
    ArgDict(
      Numbered('i', t.inputs),
      if t.isCriterion then Numbered('t', t.targets) else [],
      if t.extraArgs != [] then Numbered('e', t.extraArgs) else [],
      [])
  }

  /** `process_test_params_for_functional` on one descriptor and device;
      `folder` is the directory `tempfile.mkdtemp()` returns. The name is
      derived first, so its error wins; once it is derived only the symbol
      map can fail (`ProcessErrors`, `ProcessResult`). */
  function ProcessSpec(d: Descriptor, device: string, folder: string): Result<TestParams> {
    match FunctionalName(d)
    case Err(e) => Err(e)
    case Ok(name) =>
      match ResolveSymbols(d.cppArgSymbolMap, d.instance.input)
      case Err(e) => Err(e)
      case Ok(other) =>
        var a := Buckets(d.instance).(other := other);
        match ComputeCppFunctionCall(d, a, name)
        case Err(e) => Err(e)
        case Ok(call) =>
          Ok(TestParams(name, VariantName(d.instance.name, device), d.instance, call, a,
                        d.hasParity.GetOr(true), device, folder))
  }

  /** The imperative form: three bucket loops, then the symbol-map loop. */
  method ProcessTestParams(d: Descriptor, device: string, folder: string)
    returns (r: Result<TestParams>)
    ensures r == ProcessSpec(d, device, folder)
  {
    var test := d.instance;
    var functionalName := FunctionalName(d);
    if functionalName.Err? {
      return Err(functionalName.error);
    }
    var variant := VariantName(test.name, device);
    var input := PutArgsIntoArgDict([], 'i', test.inputs);
    var target: seq<CppArg> := [];
    if test.isCriterion {
      target := PutArgsIntoArgDict(target, 't', test.targets);
    }
    var extraArgs: seq<CppArg> := [];
    if test.extraArgs != [] {
      extraArgs := PutArgsIntoArgDict(extraArgs, 'e', test.extraArgs);
    }
    var other := ResolveSymbolMap(d.cppArgSymbolMap, test.input);
    if other.Err? {
      return Err(other.error);
    }
    assert input == Buckets(test).input;
    assert target == Buckets(test).target;
    assert extraArgs == Buckets(test).extraArgs;
    var argDict := ArgDict(input, target, extraArgs, other.value);
    var call := ComputeCppFunctionCall(d, argDict, functionalName.value);
    // `compute_cpp_function_call` cannot raise once a name was derived.
    assert call.Ok?;
    r := Ok(TestParams(functionalName.value, variant, test, call.value, argDict,
                       d.hasParity.GetOr(true), device, folder));
  }

  /** Processing succeeds exactly when a name can be derived and every
      symbol-map value is accepted. */
  lemma ProcessSucceeds(d: Descriptor, device: string, folder: string)
    ensures ProcessSpec(d, device, folder).Ok? <==>
            (d.cppOptionsArgs.Some? || d.cppFunctionCall.Some?) &&
            forall k | 0 <= k < |d.cppArgSymbolMap| :: ValidSymbol(d.cppArgSymbolMap[k].1)
  {
    ResolveSymbolsOk(d.cppArgSymbolMap, d.instance.input);
  }

  /** The order of the errors: a name that cannot be derived wins over the
      symbol map, and once the name is derived the symbol map's error is the
      only one left (the call expression cannot fail then). */
  lemma ProcessErrors(d: Descriptor, device: string, folder: string)
    ensures FunctionalName(d).Err? ==> ProcessSpec(d, device, folder) == Err(FunctionalName(d).error)
    ensures FunctionalName(d).Ok? ==>
              var other := ResolveSymbols(d.cppArgSymbolMap, d.instance.input);
              if other.Err? then ProcessSpec(d, device, folder) == Err(other.error)
              else ProcessSpec(d, device, folder).Ok?
  {
  }

  /** Every bucket argument is named by its prefix and position. */
  predicate WellNamed(bucket: seq<CppArg>, prefix: char) {
    forall k | 0 <= k < |bucket| :: bucket[k].name == Symbol(prefix, k)
  }

  lemma NumberedWellNamed(prefix: char, args: seq<Value>)
    ensures WellNamed(Numbered(prefix, args), prefix)
  {
    forall k | 0 <= k < |args| ensures Numbered(prefix, args)[k].name == Symbol(prefix, k) {
      NumberedAt(prefix, args, k);
    }
  }

  /** Positional symbols of three well-named buckets with distinct prefixes
      are pairwise distinct. */
  lemma {:induction false} ForwardSymbolsDistinct(a: ArgDict)
    requires WellNamed(a.input, 'i') && WellNamed(a.target, 't') && WellNamed(a.extraArgs, 'e')
    ensures forall j, l | 0 <= j < l < |ForwardArgSymbols(a)| ::
              ForwardArgSymbols(a)[j] != ForwardArgSymbols(a)[l]
  {
    var all := a.input + a.target + a.extraArgs;
    var n1, n2 := |a.input|, |a.input| + |a.target|;
    forall j, l | 0 <= j < l < |all| ensures all[j].name != all[l].name {
      var pj, kj := if j < n1 then 'i' else if j < n2 then 't' else 'e',
                    if j < n1 then j else if j < n2 then j - n1 else j - n2;
      var pl, kl := if l < n1 then 'i' else if l < n2 then 't' else 'e',
                    if l < n1 then l else if l < n2 then l - n1 else l - n2;
      assert all[j].name == Symbol(pj, kj);
      assert all[l].name == Symbol(pl, kl);
      if all[j].name == all[l].name {
        SymbolInjective(pj, kj, pl, kl);
      }
    }
  }

  lemma ProcessVariant(d: Descriptor, device: string, folder: string)
    requires ProcessSpec(d, device, folder).Ok?
    ensures ProcessSpec(d, device, folder).value.functionalVariantName == VariantName(d.instance.name, device)
  {
  }

  /** The call expression of a successful run, in terms of its own buckets. */
  lemma ProcessCall(d: Descriptor, device: string, folder: string)
    requires ProcessSpec(d, device, folder).Ok?
    ensures var p := ProcessSpec(d, device, folder).value;
      p.cppFunctionCall
        == (if d.cppFunctionCall.Some? then d.cppFunctionCall.value
            else ConstructedCall(p.functionalName,
                                 Names(p.argDict.input) + Names(p.argDict.target) + Names(p.argDict.extraArgs),
                                 d.cppOptionsArgs.value))
  {
    var a := ProcessSpec(d, device, folder).value.argDict;
    NamesAppend(a.input + a.target, a.extraArgs);
    NamesAppend(a.input, a.target);
  }

  /** The parameters of a successful run: the derived name, the variant name,
      inputs named `i0..`, targets `t0..` only for a criterion test, extra
      arguments `e0..`, the symbol map in `other`, pairwise distinct
      positional symbols, the test instance, the explicit call or else the
      call of the name on those symbols and the options, and `has_parity`
      true unless the descriptor says otherwise. */
  lemma ProcessResult(d: Descriptor, device: string, folder: string)
    requires ProcessSpec(d, device, folder).Ok?
    ensures var p := ProcessSpec(d, device, folder).value;
      && FunctionalName(d) == Ok(p.functionalName)
      && p.functionalVariantName == VariantName(d.instance.name, device)
      && p.argDict.input == Numbered('i', d.instance.inputs)
      && p.argDict.target == (if d.instance.isCriterion then Numbered('t', d.instance.targets) else [])
      && p.argDict.extraArgs == Numbered('e', d.instance.extraArgs)
      && ResolveSymbols(d.cppArgSymbolMap, d.instance.input) == Ok(p.argDict.other)
      && (forall j, l | 0 <= j < l < |ForwardArgSymbols(p.argDict)| ::
            ForwardArgSymbols(p.argDict)[j] != ForwardArgSymbols(p.argDict)[l])
      && p.testInstance == d.instance
      && p.cppFunctionCall
           == (if d.cppFunctionCall.Some? then d.cppFunctionCall.value
               else ConstructedCall(p.functionalName,
                                    Names(p.argDict.input) + Names(p.argDict.target) + Names(p.argDict.extraArgs),
                                    d.cppOptionsArgs.value))
      && p.hasParity == (d.hasParity != Some(false))
      && p.device == device && p.cppTmpFolder == folder
  {
    var p := ProcessSpec(d, device, folder).value;
    ProcessCall(d, device, folder);
    NumberedWellNamed('i', d.instance.inputs);
    NumberedWellNamed('t', d.instance.targets);
    NumberedWellNamed('e', d.instance.extraArgs);
    ForwardSymbolsDistinct(p.argDict);
  }
}
