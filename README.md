# C++ API parity harness for `torch.nn.functional`: the naming and registration layer

`test/cpp_api_parity/functional_impl_check.py` checks that each function of
`torch.nn.functional` behaves like its C++ counterpart in `torch::nn::functional`.
Each test descriptor (a dictionary from the common NN test suite) goes through these steps:

- It is turned into a functional name, a variant name per device and a C++ call expression.
- Its arguments are sorted into four buckets with generated symbols (`i0`, `t0`, `e0`, ...).
- It becomes one `unittest` test method per device, decorated with skip or expected-failure marks.
- Its parameters are stored in the module-level registry `torch_nn_test_params_map`.

`build_cpp_tests` then writes one C++ function per registry entry into a single
source text. It adds each functional's metadata source the first time that functional is met,
and compiles the text into a module exposing `<variant>_test_forward` for every entry.

This project models that deterministic layer in Dafny and proves what it promises. Tensors,
the test instance built from a descriptor, the parity table, the metadata map and the
argument-construction statements are abstract inputs.

Layout, one module per file:

| file | module | models |
|---|---|---|
| `text.dfy` | `Text` | Python string operations the code uses: `str.replace(p, '')`, `split(c)[0]`, `', '.join`, `str(int)`, `[A-Z]` and ASCII `lower()` |
| `descriptors.dfy` | `Descriptors` | descriptors, test instances, `CppArg`, the argument dictionary, `TorchNNFunctionalTestParams`, errors |
| `naming.dfy` | `Naming` | `camel_case_to_snake_case`, `compute_functional_name`, variant, test and entry-point names |
| `call_expr.dfy` | `CallExpr` | `compute_cpp_function_call` |
| `arg_dict.dfy` | `ArgMaterialize` | `process_test_params_for_functional` (methods with loops, proved against spec functions) |
| `registration.dfy` | `Registration` | `add_torch_nn_functional_impl_parity_tests` as a function of the harness state, with its invariants |
| `cpp_sources.dfy` | `CppSources` | `generate_test_cpp_sources` and the loop of `build_cpp_tests` |
| `suite.dfy` | `Suite` | class `ParitySuite`: the registry, the added tests, the temporary-directory counter and the compiled module, updated in place |
| `outcome.dfy` | `ParityOutcome` | the end of `test_forward`: the `has_parity` polarity and the directory removal |

Registration stops at the first raised error. The error is returned as a value and what was
registered before it stays, as with the module-level dictionary in the source.

`tempfile.mkdtemp` is modelled as a parameter `mkdtemp: nat -> string` applied to the number of
directories made so far. The counter advances once per successfully processed (descriptor, device) pair.

Each test gets its own temporary directory, made by `tempfile.mkdtemp()` at line 200 of
`test/cpp_api_parity/functional_impl_check.py`. `test_forward` removes it at line 121, a plain
statement after the parity check at lines 114-118, so it is reached only when that check does
not raise (see "## Findings").

## Model

| member | source | states |
|---|---|---|
| Text.RemoveAll | test/cpp_api_parity/functional_impl_check.py:134 | `str.replace(p, '')` never lengthens the text and keeps only characters that were in it |
| Text.RemoveAllAbsent | test/cpp_api_parity/functional_impl_check.py:134 | deleting a pattern that does not occur changes nothing |
| Text.RemoveAllTrailing | test/cpp_api_parity/functional_impl_check.py:134 | a trailing `FuncOptions` with no earlier occurrence is the only text deleted |
| Text.BeforeFirst | test/cpp_api_parity/functional_impl_check.py:134 | `split('(')[0]` is a prefix of the text holding no `(`, and the text continues with `(` right after it unless it is the whole text |
| Text.BeforeFirstOfConcat | test/cpp_api_parity/functional_impl_check.py:137 | `split('(')[0]` of `<a>(<rest>)` is `<a>` when `<a>` holds no `(` |
| Text.JoinSnoc | test/cpp_api_parity/functional_impl_check.py:148 | joining with one more element appends the separator and the element |
| Text.SplitJoin | test/cpp_api_parity/functional_impl_check.py:148 | splitting on `, ` gives back the joined list when no element holds `,` |
| Text.Decimal | test/cpp_api_parity/functional_impl_check.py:172 | `str(k)` is a non-empty string of decimal digits |
| Text.DecimalRoundTrip | test/cpp_api_parity/functional_impl_check.py:172 | reading `str(k)` back as a number gives `k` |
| Text.DecimalInjective | test/cpp_api_parity/functional_impl_check.py:172 | distinct indices have distinct decimal names |
| Naming.CamelToSnake | test/cpp_api_parity/functional_impl_check.py:129-130 | the snake-case form holds no upper-case letter |
| Naming.SnakeFirstWord | test/cpp_api_parity/functional_impl_check.py:129-130 | a capital at index 0 gets no underscore: a single capitalised word is only lowered |
| Naming.SnakeAppendWord | test/cpp_api_parity/functional_impl_check.py:129-130 | each further capitalised word becomes `_` plus the word in lower case, so `Some`/`Long`/`Name` build `some_long_name` |
| Naming.SnakeKeepsNonUpper | test/cpp_api_parity/functional_impl_check.py:129-130 | a string without upper-case letters is unchanged |
| Naming.SnakeIdempotent | test/cpp_api_parity/functional_impl_check.py:129-130 | converting twice equals converting once |
| Naming.CamelSnakeRoundTrip | test/cpp_api_parity/functional_impl_check.py:129-130 | a class name starting with a capital and without `_` is recovered from its snake-case form, so the conversion loses nothing on such names |
| Naming.FunctionalName | test/cpp_api_parity/functional_impl_check.py:132-141 | fails exactly when neither `cpp_options_args` nor `cpp_function_call` is present; the options form wins when both are; otherwise the call form |
| Naming.NameFromOptionsForm | test/cpp_api_parity/functional_impl_check.py:132-134 | `F::<Camel>FuncOptions(...)` names the snake-case form of `<Camel>` |
| Naming.NameFromOptions | test/cpp_api_parity/functional_impl_check.py:134 | the options-form name holds no upper-case letter |
| Naming.SingleWordOptions | test/cpp_api_parity/functional_impl_check.py:132-134 | `F::<Word>FuncOptions(...)` for a one-word name names the word in lower case, as `F::HardshrinkFuncOptions(...)` names `hardshrink` and `F::FoldFuncOptions(...)` names `fold` |
| Naming.NameFromCallForm | test/cpp_api_parity/functional_impl_check.py:135-137 | `F::<name>(...)` names `<name>`, case kept |
| Naming.NameFromCall | test/cpp_api_parity/functional_impl_check.py:137 | the call-form name holds no `(` and is no longer than the call |
| Naming.ReluExample | test/cpp_api_parity/functional_impl_check.py:135-137 | a descriptor with only `cpp_function_call = F::relu(i0)` names `relu` |
| CallExpr.ExplicitCallWins | test/cpp_api_parity/functional_impl_check.py:143-145 | an explicit call is returned verbatim even when options are present, while the name still comes from the options |
| CallExpr.ComputeCppFunctionCall | test/cpp_api_parity/functional_impl_check.py:143-152 | fails exactly when the name derivation fails, with the same error; an explicit call is returned verbatim; a constructed call names the function it was built for |
| CallExpr.ForwardArgSymbols | test/cpp_api_parity/functional_impl_check.py:147 | the positional symbols are the names of the `input` bucket, then `target`, then `extra_args` |
| CallExpr.ConstructedCall | test/cpp_api_parity/functional_impl_check.py:148 | the constructed call opens with `F::<name>(` and closes with `, <options>)`, and read back as an explicit call it names `<name>` |
| CallExpr.OtherBucketIgnored | test/cpp_api_parity/functional_impl_check.py:147 | replacing the `other` bucket never changes the call expression |
| CallExpr.ConstructedCallRoundTrip | test/cpp_api_parity/functional_impl_check.py:146-148 | a constructed call read back names the same function; its argument text is the symbols then the options joined by `, `, and splits back into them |
| CallExpr.ConstructedCallWithoutSymbols | test/cpp_api_parity/functional_impl_check.py:148 | with no positional symbol the constructed call is `F::<name>(, <options>)` |
| Descriptors.Names | test/cpp_api_parity/functional_impl_check.py:147 | the symbol list has one name per argument, in order |
| ArgMaterialize.SymbolInjective | test/cpp_api_parity/functional_impl_check.py:172 | `prefix + str(k)` symbols are equal only for equal prefix and index |
| ArgMaterialize.NumberedAt | test/cpp_api_parity/functional_impl_check.py:170-172 | the k-th argument of a filled bucket is `<prefix>k` bound to the k-th value |
| ArgMaterialize.PutArgsIntoArgDict | test/cpp_api_parity/functional_impl_check.py:170-172 | the loop appends exactly the numbered arguments after what the bucket held |
| ArgMaterialize.ResolveSymbol | test/cpp_api_parity/functional_impl_check.py:181-190 | an entry is accepted exactly when it is `"input"` or a tensor; then it becomes an argument under the entry's name bound to the test input or the tensor; otherwise the error names the entry, with the string for a rejected string |
| ArgMaterialize.ResolveSymbols | test/cpp_api_parity/functional_impl_check.py:180-190 | on success there is one `other` argument per entry, under the entry's name, in order |
| ArgMaterialize.ResolveSymbolsOk | test/cpp_api_parity/functional_impl_check.py:180-190 | the symbol map is accepted exactly when every value is `"input"` or a tensor; then each entry becomes one `other` argument under its own name, in order, bound to the test input or to the tensor |
| ArgMaterialize.ResolveSymbolsError | test/cpp_api_parity/functional_impl_check.py:180-190 | the first rejected entry decides the error |
| ArgMaterialize.ResolveSymbolMap | test/cpp_api_parity/functional_impl_check.py:180-190 | the loop over the map computes the same result, returning on the first rejected value |
| ArgMaterialize.ProcessTestParams | test/cpp_api_parity/functional_impl_check.py:156-201 | the imperative processing (bucket loops, symbol-map loop) equals the specification `ProcessSpec` |
| ArgMaterialize.ProcessSucceeds | test/cpp_api_parity/functional_impl_check.py:156-201 | processing succeeds exactly when a name is derivable and every symbol-map value is accepted |
| ArgMaterialize.ProcessErrors | test/cpp_api_parity/functional_impl_check.py:159-196 | the name is derived first, so its error wins; once it is derived the symbol map's error is the only one possible, since the call expression cannot fail then |
| ArgMaterialize.ProcessCall | test/cpp_api_parity/functional_impl_check.py:196 | the call expression of a result is the explicit call, or the functional applied to the symbols of its own `input`, `target` and `extra_args` buckets and the options |
| ArgMaterialize.ProcessResult | test/cpp_api_parity/functional_impl_check.py:156-201 | the parameters hold the derived name, the variant name, the test instance, inputs `i0..`, targets `t0..` only for a criterion test, extra arguments `e0..`, the symbol map in `other`, pairwise distinct positional symbols, the explicit call or else `F::<name>(<symbols>, <options>)` on those buckets, `has_parity` true unless the descriptor says false, the device and the folder |
| ArgMaterialize.ForwardSymbolsDistinct | test/cpp_api_parity/functional_impl_check.py:170-178 | the generated positional symbols of the three buckets are pairwise distinct |
| Naming.VariantOfTestPrefixed | test/cpp_api_parity/functional_impl_check.py:160 | for a test name `test_<base>` the variant is `<base>`, with `_<device>` appended unless the device is `cpu` |
| Naming.DropFive | test/cpp_api_parity/functional_impl_check.py:160 | `get_name()[5:]` is the name after its first five characters, empty for shorter names |
| Naming.VariantName | test/cpp_api_parity/functional_impl_check.py:160 | the variant starts with that base; on `cpu` it is the base, on any other device the base followed by `_<device>` |
| Naming.VariantNameInjective | test/cpp_api_parity/functional_impl_check.py:160 | on one test, distinct devices give distinct variant names |
| Naming.RegisteredTestName | test/cpp_api_parity/functional_impl_check.py:232 | the test name starts with `test_`, so `unittest` collects it, and holds the variant after its 25-character prefix |
| Naming.CppTestName | test/cpp_api_parity/functional_impl_check.py:98 | the entry point is the variant followed by `_test_forward` |
| Naming.RegisteredTestNameInjective | test/cpp_api_parity/functional_impl_check.py:232 | distinct variants register distinct test names |
| Naming.CppTestNameInjective | test/cpp_api_parity/functional_impl_check.py:98 | distinct variants have distinct C++ entry points |
| Registration.Decorators | test/cpp_api_parity/functional_impl_check.py:238-247 | a test is skipped exactly when excluded from parity tests, or on `cuda` when CUDA is unavailable or the descriptor excludes CUDA; it is an expected failure exactly when the parity table records no implementation parity |
| Suite.TestDecorators | test/cpp_api_parity/functional_impl_check.py:238-247 | the decorators applied one after the other are those of `Decorators` |
| Registration.RegisterOneGate | test/cpp_api_parity/functional_impl_check.py:207-222 | descriptors without `FunctionalModule` register nothing; an underivable name, a name `torch.nn.functional` lacks, or a missing parity-table entry is an error that registers nothing |
| Registration.RegisterOneRecords | test/cpp_api_parity/functional_impl_check.py:224-249 | a descriptor that passes every gate and processes without error adds exactly the expected tests of its devices, with the implementation-parity flag the table records for `F::<name>` |
| Registration.RegisterOne | test/cpp_api_parity/functional_impl_check.py:207-249 | one descriptor only adds tests, one directory per added test, and changes the state only when its constructor mentions `FunctionalModule` and its name is derivable |
| Registration.RegisterAll | test/cpp_api_parity/functional_impl_check.py:206-249 | registration only adds tests and makes one directory per added test, also when it stops on an error |
| Registration.AddTestPreserves | test/cpp_api_parity/functional_impl_check.py:232-249 | storing one test keeps the registry well formed and keeps earlier tests |
| Registration.AddTestStores | test/cpp_api_parity/functional_impl_check.py:232-249 | storing a test is a dictionary assignment under the registered name: the name maps to the parameters, no other entry changes, a new name goes last in the key order and an existing one keeps its place; the test is appended and one directory counted |
| Registration.RegisterAllPreserves | test/cpp_api_parity/functional_impl_check.py:206-249 | registration keeps the registry well formed even when it stops on an error: distinct keys, exactly its contents, each under the registered name of its variant, and every added test finds its parameters |
| Registration.ExpectedTests | test/cpp_api_parity/functional_impl_check.py:226-249 | the expected tests of a descriptor are one per device, in device order, under `test_torch_nn_functional_<variant>` with the decorators of `Decorators` |
| Registration.RegisterDevicesRecords | test/cpp_api_parity/functional_impl_check.py:226-249 | a descriptor that processes without error adds exactly those tests, and makes one directory per test |
| Registration.RegisterDevices | test/cpp_api_parity/functional_impl_check.py:226-249 | the device loop only adds tests, one directory per added test, at most one test per device and exactly one per device when no error stops it |
| Registration.RegisterDevicesRegistry | test/cpp_api_parity/functional_impl_check.py:226-233 | after the device loop every device's test name is a key; names new to the registry are appended once each in device order; no other entry changes; a name's entry holds what processing the last device giving that name produced |
| Registration.NewKeys | test/cpp_api_parity/functional_impl_check.py:233 | the keys a run of assignments appends are the names not yet in the registry, each once |
| Registration.RunsAt | test/cpp_api_parity/functional_impl_check.py:226-231 | the k-th processing of the loop is that of the k-th device in the k-th directory made from the counter on |
| Registration.RegisterDevicesFails | test/cpp_api_parity/functional_impl_check.py:226-231 | a descriptor with a rejected symbol map fails on its first device and registers nothing |
| Suite.ParitySuite.constructor | test/cpp_api_parity/functional_impl_check.py:203 | the registry starts empty and well formed |
| Suite.ParitySuite.AddImplParityTests | test/cpp_api_parity/functional_impl_check.py:206-249 | the in-place loop leaves the state and error `RegisterAll` gives, keeps the registry well formed and only adds tests |
| Suite.ParitySuite.AddDescriptorTests | test/cpp_api_parity/functional_impl_check.py:207-231 | one descriptor: the gates and the device loop leave the state and error `RegisterOne` gives |
| Suite.ParitySuite.AddDeviceTest | test/cpp_api_parity/functional_impl_check.py:227-249 | one device: on error nothing changes; otherwise the registry entry is set, the decorated test added and one directory made |
| Suite.ParitySuite.TestLookup | test/cpp_api_parity/functional_impl_check.py:235-236 | a registered test finds parameters whose variant gives back its own name, and the entry point `<variant>_test_forward` |
| CppSources.GenerateTestCppSources | test/cpp_api_parity/functional_impl_check.py:262-270 | the generated function is declared as `<variant>_test_forward`, loads `<folder>/<variant>_arg_dict.pt`, holds the call expression and writes `<folder>/<variant>_forward_output.pt` |
| CppSources.ArgDictPath | test/cpp_api_parity/functional_impl_check.py:96 | the argument file lies in the test's folder, is named after its variant, and is not the output file |
| CppSources.OutputPath | test/cpp_api_parity/functional_impl_check.py:103 | the output file lies in the test's folder and is named after its variant |
| CppSources.MetadataAddedOnce | test/cpp_api_parity/functional_impl_check.py:279-283 | each functional's metadata source is appended at most once, never for one already seen, and for every functional of the registry otherwise |
| CppSources.ChunkShape | test/cpp_api_parity/functional_impl_check.py:281-284 | an entry appends its functional's metadata source exactly when that functional is not in yet, followed by its generated test function |
| CppSources.AssembleDeclaresAll | test/cpp_api_parity/functional_impl_check.py:280-284 | every registry entry's test function appears in the assembled source |
| CppSources.AppendEntry | test/cpp_api_parity/functional_impl_check.py:281-284 | the loop body appends the entry's metadata on first sight and then its test function, and records the functional as seen |
| CppSources.AssembleCppSources | test/cpp_api_parity/functional_impl_check.py:276-285 | the loop's source text is the harness followed by the specified assembly, and its function list is `EntryPoints` |
| CppSources.EntryPoints | test/cpp_api_parity/functional_impl_check.py:285 | one exposed name per entry, `<variant>_test_forward`, in registry order |
| CppSources.EveryTestHasEntryPoint | test/cpp_api_parity/functional_impl_check.py:98-99 | every added test finds the entry point it looks up among the exposed names |
| Suite.ParitySuite.BuildCppTests | test/cpp_api_parity/functional_impl_check.py:273-293 | a non-empty registry builds `functional_impl_check` from the assembled sources with one entry point per entry, and every added test then finds its entry point; an empty registry builds nothing |
| ParityOutcome.CheckRaises | test/cpp_api_parity/functional_impl_check.py:110-118 | the check raises exactly when `has_parity` disagrees with whether the outputs match |
| ParityOutcome.TestForwardAsWritten | test/cpp_api_parity/functional_impl_check.py:114-121 | as written, the test passes exactly when `has_parity` equals whether the outputs match, and the directory is removed exactly when it passes |
| ParityOutcome.AsWrittenLeaksOnFailure | test/cpp_api_parity/functional_impl_check.py:114-121 | as written, a failing check leaves its temporary directory behind |
| ParityOutcome.TestForward | test/cpp_api_parity/functional_impl_check.py:114-121 | with cleanup in a `finally` clause, the test passes exactly when `has_parity` equals whether the outputs match, and the directory is always removed |
| ParityOutcome.CorrectedKeepsVerdict | test/cpp_api_parity/functional_impl_check.py:114-121 | the corrected form gives every verdict the written form gives; as written, the directory is removed exactly when the test passes |

## Left out

- Everything that executes torch is left out: `run_forward`, seeding, device moves and `requires_grad`, `torch.allclose`, TorchScript saving and `torch.load`. Those are numerics and I/O; the comparison is reduced to a boolean "outputs match".
- `tempfile.mkdtemp` and `shutil.rmtree` are file-system effects. The directory is an opaque string given by a parameter, and removal is a flag on the run outcome.
- `compile_cpp_code_inline` is a foreign build step; the model records what it is given.
- Everything imported from `cpp_api_parity.utils` and `cpp_api_parity.torch_nn_functionals` is not part of this model.
  - `compute_cpp_args_construction_stmts_and_forward_arg_symbols` is a parameter `stmtsOf`.
  - `convert_to_list` and `is_criterion_test` are replaced by the list fields and the criterion flag of the abstract test instance.
  - `add_test` is modelled as appending a test record.
  - `functional_metadata_map` is a parameter map with a default source.
  - `TORCH_NN_COMMON_TEST_HARNESS` is a parameter string.
- The fixed lines of the C++ template `TORCH_NN_FUNCTIONAL_TEST_FORWARD` (lines 35-58) are three opaque texts (`TemplateText`) given as a parameter. Only the declaration line, the two file names and the substituted pieces are modelled.
- `hasattr(torch.nn.functional, name)` is membership in a given set of names.
- The `print_cpp_source` option of `build_cpp_tests` is left out; it only prints.
- `unittest` runtime behaviour is not modelled: when a skip or an expected failure takes effect is out of scope. The model records the decorators that take effect.
- Failed `assert` statements in registration are modelled as returned errors, like any other exception from the code.
- Naming.CamelToSnake: restricted to ASCII. Python's `lower()` and `[A-Z]` on non-ASCII letters are not modelled.
- Naming.CamelSnakeRoundTrip: stated only for names that start with a capital and hold no `_`. Other names can collide.
- Naming.SingleWordOptions: stated for words of a capital followed by lower-case letters only.
- Naming.NameFromOptionsForm: stated only when `<Camel>` holds no `(`, no `:` and no earlier `FuncOptions`.
- CallExpr.ConstructedCallRoundTrip: stated for non-empty symbol lists and options without `,`. With no symbol the call is `F::<name>(, <options>)`, as written.
- Registration.RegisterDevicesRecords: covers descriptors that process without error. The error path is Registration.RegisterDevicesFails and the gates are Registration.RegisterOneGate.
- Registration.Decorators: a `skipIf` whose condition is false leaves the function unchanged, so it is not recorded.

## Findings

| source | as written | input that shows it | evidently intended | confidence | as-written member | corrected member |
|---|---|---|---|---|---|---|
| test/cpp_api_parity/functional_impl_check.py:114-121 | `shutil.rmtree` is a plain statement after the parity check. An `AssertionError` from the check ends `test_forward` before it, so the temporary directory is left behind | `has_parity` true and outputs that differ; or `has_parity` false and outputs that match | remove the directory in every case, e.g. in a `finally` clause: the directory is made for this one test at line 200 and nothing else removes it, so a failing or expected-failure test leaves it behind | medium, not executed | ParityOutcome.AsWrittenLeaksOnFailure | ParityOutcome.TestForward |
