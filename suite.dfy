/** The mutable state of the harness: the module-level registry
    `torch_nn_test_params_map`, the test methods added to the unit-test
    class, the number of temporary directories made so far and the compiled
    C++ module; and the two operations that change it in place,
    `add_torch_nn_functional_impl_parity_tests` and `build_cpp_tests`. */
module Suite {
  import opened Text
  import opened Descriptors
  import opened Naming
  import opened ArgMaterialize
  import opened Registration
  import opened CppSources

  /** What `compile_cpp_code_inline` is given: the module name, the whole
      source text and the names of the functions it exposes. */
  datatype CppModule = CppModule(name: string, sources: string, functions: seq<string>)

  const ModuleName := "functional_impl_check"

  class ParitySuite {
    /** The registry keys in insertion order, and its contents. */
    var keys: seq<string>
    var params: map<string, TestParams>
    /** The test methods added to the unit-test class, in order. */
    var tests: seq<TestRecord>
    /** How many temporary directories `tempfile.mkdtemp` has made. */
    var folders: nat
    /** `unit_test_class.functional_impl_check_cpp_module`, once built. */
    var cppModule: Option<CppModule>

    function State(): RegState
      reads this
    {
      RegState(keys, params, tests, folders)
    }

    ghost predicate Valid()
      reads this
    {
      WellFormed(State())
    }

    /** An empty registry and a class with no test added yet. */
    constructor ()
      ensures State() == RegState([], map[], [], 0) && cppModule == None
      ensures Valid()
    {
      keys, params, tests, folders := [], map[], [], 0;
      cppModule := None;
    }

    /** `add_torch_nn_functional_impl_parity_tests`: the loop over the
        descriptors, writing the registry and adding the decorated test
        methods in place. A raised error stops it and is returned; what was
        registered before stays. The registry stays well formed, so the
        lookup each added test performs succeeds. */
    method AddImplParityTests(ds: seq<Descriptor>, env: Env) returns (err: Option<Error>)
      requires Valid()
      modifies this
      ensures (State(), err) == RegisterAll(old(State()), ds, env)
      ensures Valid()
      ensures old(tests) <= tests
      ensures cppModule == old(cppModule)
    {
      ghost var st0 := State();
      RegisterAllPreserves(st0, ds, env);
      assert ds[0..] == ds;
      for i := 0 to |ds|
        invariant RegisterAll(st0, ds, env) == RegisterAll(State(), ds[i..], env)
        invariant cppModule == old(cppModule)
      {
        RegisterAllStep(State(), ds, i, env);
        err := AddDescriptorTests(ds[i], env);
        if err.Some? {
          return;
        }
      }
      assert ds[|ds|..] == [];
      err := None;
    }

    /** The body of that loop for one descriptor: module tests are passed
        over; otherwise the name is derived and checked against
        `torch.nn.functional` and the parity table, and one test is added
        per device. */
    method AddDescriptorTests(d: Descriptor, env: Env) returns (err: Option<Error>)
      modifies this
      ensures (State(), err) == RegisterOne(old(State()), d, env)
      ensures cppModule == old(cppModule)
    {
      if !Contains(d.constructorText, "FunctionalModule") {
        return None;
      }
      var name := FunctionalName(d);
      if name.Err? {
        return Some(name.error);
      }
      if name.value !in env.functionals {
        return Some(UnknownFunctional(name.value));
      }
      var fullName := "F::" + name.value;
      if fullName !in env.parityTable {
        return Some(MissingParityEntry(fullName));
      }
      var hasImplParity := env.parityTable[fullName];
      ghost var st0 := State();
      assert env.devices[0..] == env.devices;
      for j := 0 to |env.devices|
        invariant RegisterOne(st0, d, env)
               == RegisterDevices(State(), d, hasImplParity, env.devices[j..], env)
        invariant cppModule == old(cppModule)
      {
        RegisterDevicesStep(State(), d, hasImplParity, env.devices, j, env);
        err := AddDeviceTest(d, env.devices[j], hasImplParity, env);
        if err.Some? {
          return;
        }
      }
      assert env.devices[|env.devices|..] == [];
      err := None;
    }

    /** The body of the device loop: process the descriptor for the device
        in a fresh temporary directory, then store the parameters under the
        test name and add the decorated test method. */
    method AddDeviceTest(d: Descriptor, device: string, hasImplParity: bool, env: Env)
      returns (err: Option<Error>)
      modifies this
      ensures var r := ProcessSpec(d, device, env.mkdtemp(old(folders)));
        && (r.Err? ==> State() == old(State()) && err == Some(r.error))
        && (r.Ok? ==> State() == AddTest(old(State()), r.value,
                                         Decorators(d, device, hasImplParity, env.cudaAvailable))
                      && err == None)
      ensures cppModule == old(cppModule)
    {
      var p := ProcessTestParams(d, device, env.mkdtemp(folders));
      if p.Err? {
        return Some(p.error);
      }
      var testName := RegisteredTestName(p.value.functionalVariantName);
      var decorators := TestDecorators(d, device, hasImplParity, env.cudaAvailable);
      if testName !in params {
        keys := keys + [testName];
      }
      params := params[testName := p.value];
      tests := tests + [TestRecord(testName, decorators)];
      folders := folders + 1;
      err := None;
    }

    /** `build_cpp_tests`: with a non-empty registry, the module is compiled
        from the harness source followed by the per-entry sources assembled
        with the forward-test template, exposing one entry point per registry entry; every added test then
        finds the entry point it looks up. An empty registry builds
        nothing. */
    method BuildCppTests(inputs: BuildInputs)
      requires Valid()
      modifies this`cppModule
      ensures |keys| > 0 ==>
                cppModule == Some(CppModule(ModuleName,
                                            inputs.harness + Assemble(Entries(State()), {}, inputs).0,
                                            EntryPoints(Entries(State()))))
      ensures |keys| == 0 ==> cppModule == old(cppModule)
      ensures tests != [] ==>
                (cppModule.Some? &&
                 forall t | t in tests :: CppTestName(params[t.name].functionalVariantName) in cppModule.value.functions)
    {
      assert tests != [] ==> tests[0].name in keys;
      if |keys| > 0 {
        var sources, functions := AssembleCppSources(Entries(State()), inputs);
        EveryTestHasEntryPoint(State(), functions);
        cppModule := Some(CppModule(ModuleName, sources, functions));
      }
    }

    /** What an added test method reads when it runs: its parameters, found
        in the registry under its own name, and the name of the C++ entry
        point it looks up. */
    method TestLookup(name: string) returns (p: TestParams, cppTestName: string)
      requires Valid() && name in params
      ensures p == params[name]
      ensures name == RegisteredTestName(p.functionalVariantName)
      ensures cppTestName == CppTestName(p.functionalVariantName)
    {
      p := params[name];
      cppTestName := CppTestName(p.functionalVariantName);
    }
  }

  /** The decorators of one test, applied in the order the source applies
      them. */
  method TestDecorators(d: Descriptor, device: string, hasImplParity: bool, cudaAvailable: bool)
    returns (decorators: seq<Decorator>)
    ensures decorators == Decorators(d, device, hasImplParity, cudaAvailable)
  {
    decorators := [];
    if !d.testCppApiParity.GetOr(true) {
      decorators := decorators + [Skip(ParityExcluded)];
    }
    if device == "cuda" {
      if !cudaAvailable {
        decorators := decorators + [Skip(CudaUnavailable)];
      }
      if !d.testCuda.GetOr(true) {
        decorators := decorators + [Skip(CudaExcluded)];
      }
    }
    if !hasImplParity {
      decorators := decorators + [ExpectedFailure];
    }
  }
}
