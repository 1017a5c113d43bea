/** The registration decision of `add_torch_nn_functional_impl_parity_tests`
    as a pure function of the harness state: which descriptors produce
    tests, under which names, with which `unittest` decorators, and what
    enters the module-level test-parameter registry. The class that runs it
    in place is `Suite.ParitySuite`. */
module Registration {
  import opened Text
  import opened Descriptors
  import opened Naming
  import opened ArgMaterialize

  /** A `unittest` decorator that took effect on a test function
      (`skipIf` with a true condition, or `expectedFailure`). */
  datatype Decorator = Skip(reason: string) | ExpectedFailure

  /** A test method added to the unit-test class, with the decorators
      applied to it, innermost first. */
  datatype TestRecord = TestRecord(name: string, decorators: seq<Decorator>)

  /** The state registration updates: the registry `torch_nn_test_params_map`
      (its keys in insertion order and its contents), the tests added to the
      unit-test class, and how many temporary directories have been made. */
  datatype RegState = RegState(
    keys: seq<string>,
    params: map<string, TestParams>,
    tests: seq<TestRecord>,
    folders: nat)

  /** What registration consults besides the descriptors: the function names
      `torch.nn.functional` has, the `torch::nn::functional` section of the
      parity table (name to implementation-parity flag), whether CUDA is
      available, the devices, and `tempfile.mkdtemp` as the path of the n-th
      directory it makes. */
  datatype Env = Env(
    functionals: set<string>,
    parityTable: map<string, bool>,
    cudaAvailable: bool,
    devices: seq<string>,
    mkdtemp: nat -> string)

  const ParityExcluded := "Excluded from C++ API parity tests"
  const CudaUnavailable := "CUDA unavailable"
  const CudaExcluded := "Excluded from CUDA tests"

  predicate IsSkipped(ds: seq<Decorator>) {
    exists k | 0 <= k < |ds| :: ds[k].Skip?
  }

  predicate IsExpectedFailure(ds: seq<Decorator>) {
    ExpectedFailure in ds
  }

  /** The decorators a test gets, in the order they are applied. It is
      skipped when excluded from parity tests, or on `cuda` when CUDA is
      unavailable or the descriptor excludes CUDA; it is an expected failure
      exactly when the parity table records no implementation parity. */
  function Decorators(d: Descriptor, device: string, hasImplParity: bool, cudaAvailable: bool)
    : (r: seq<Decorator>)
    ensures IsSkipped(r) <==>
              !d.testCppApiParity.GetOr(true) ||
              (device == "cuda" && (!cudaAvailable || !d.testCuda.GetOr(true)))
    ensures IsExpectedFailure(r) <==> !hasImplParity
  {
    var s1 := if !d.testCppApiParity.GetOr(true) then [Skip(ParityExcluded)] else [];
    var s2 := if device == "cuda" && !cudaAvailable then [Skip(CudaUnavailable)] else [];
    var s3 := if device == "cuda" && !d.testCuda.GetOr(true) then [Skip(CudaExcluded)] else [];
    var x := if !hasImplParity then [ExpectedFailure] else [];
    var r := s1 + s2 + s3 + x;
    assert IsSkipped(r) <==> IsSkipped(s1 + s2 + s3) by {
      if IsSkipped(r) {
        var k :| 0 <= k < |r| && r[k].Skip?;
        assert k < |s1 + s2 + s3|;
        assert (s1 + s2 + s3)[k].Skip?;
      }
      if IsSkipped(s1 + s2 + s3) {
        var k :| 0 <= k < |s1 + s2 + s3| && (s1 + s2 + s3)[k].Skip?;
        assert r[k].Skip?;
      }
    }
    assert s1 != [] ==> r[0].Skip?;
    assert s2 != [] ==> r[|s1|].Skip?;
    assert s3 != [] ==> r[|s1 + s2|].Skip?;
    r
  }

  /** Registration only adds tests, and makes one directory per test it
      adds. */
  predicate Grows(st: RegState, st': RegState) {
    && |st.tests| <= |st'.tests| && st'.tests[..|st.tests|] == st.tests
    && st'.folders == st.folders + (|st'.tests| - |st.tests|)
  }

  lemma GrowsTrans(a: RegState, b: RegState, c: RegState)
    requires Grows(a, b) && Grows(b, c)
    ensures Grows(a, c)
  {
    assert c.tests[..|a.tests|] == c.tests[..|b.tests|][..|a.tests|];
  }

  /** One successful `process_test_params_for_functional`: the directory
      counter advances, the registry entry for the test name is set (a new
      key goes to the end, an existing one keeps its place) and the test
      method is added to the class. */
  function AddTest(st: RegState, p: TestParams, decorators: seq<Decorator>): RegState {
    var name := RegisteredTestName(p.functionalVariantName);
    RegState(
      if name in st.params then st.keys else st.keys + [name],
      st.params[name := p],
      st.tests + [TestRecord(name, decorators)],
      st.folders + 1)
  }

  /** The loop over the devices for one descriptor; an error stops it and
      keeps what earlier devices registered. */
  function RegisterDevices(st: RegState, d: Descriptor, hasImplParity: bool,
                           devices: seq<string>, env: Env): (r: (RegState, Option<Error>))
    ensures Grows(st, r.0)
    ensures |r.0.tests| <= |st.tests| + |devices|
    ensures r.1.None? ==> |r.0.tests| == |st.tests| + |devices|
    decreases |devices|
  {
    if devices == [] then (st, None)
    else match ProcessSpec(d, devices[0], env.mkdtemp(st.folders))
      case Err(e) => (st, Some(e))
      case Ok(p) =>
        var st1 := AddTest(st, p, Decorators(d, devices[0], hasImplParity, env.cudaAvailable));
        var r := RegisterDevices(st1, d, hasImplParity, devices[1..], env);
        assert Grows(st, st1) by {
          assert st1.tests[..|st.tests|] == st.tests;
        }
        GrowsTrans(st, st1, r.0);
        r
  }

  /** One descriptor: descriptors of module tests (whose constructor does not
      mention `FunctionalModule`) are passed over; otherwise the name must be
      derivable, known to `torch.nn.functional` and present in the parity
      table as `F::<name>`. */
  function RegisterOne(st: RegState, d: Descriptor, env: Env): (r: (RegState, Option<Error>))
    ensures Grows(st, r.0)
    ensures r.0 != st ==> Contains(d.constructorText, "FunctionalModule") && FunctionalName(d).Ok?
  {
    if !Contains(d.constructorText, "FunctionalModule") then (st, None)
    else match FunctionalName(d)
      case Err(e) => (st, Some(e))
      case Ok(name) =>
        if name !in env.functionals then (st, Some(UnknownFunctional(name)))
        else if "F::" + name !in env.parityTable then (st, Some(MissingParityEntry("F::" + name)))
        else RegisterDevices(st, d, env.parityTable["F::" + name], env.devices, env)
  }

  /** All descriptors in order; the first error stops registration. */
  function RegisterAll(st: RegState, ds: seq<Descriptor>, env: Env): (r: (RegState, Option<Error>))
    ensures Grows(st, r.0)
    decreases |ds|
  {
    if ds == [] then (st, None)
    else
      var o := RegisterOne(st, ds[0], env);
      if o.1.Some? then o
      else
        var r := RegisterAll(o.0, ds[1..], env);
        GrowsTrans(st, o.0, r.0);
        r
  }

  /** Continue with the remaining descriptors after an outcome. */
  function Then(o: (RegState, Option<Error>), rest: seq<Descriptor>, env: Env): (RegState, Option<Error>) {
    if o.1.Some? then o else RegisterAll(o.0, rest, env)
  }

  /** One device of the loop: the rest of the devices continue from the
      state its test leaves, unless processing fails. */
  lemma RegisterDevicesStep(st: RegState, d: Descriptor, hasImplParity: bool,
                            devices: seq<string>, j: nat, env: Env)
    requires j < |devices|
    ensures var r := ProcessSpec(d, devices[j], env.mkdtemp(st.folders));
      RegisterDevices(st, d, hasImplParity, devices[j..], env)
        == if r.Err? then (st, Some(r.error))
           else RegisterDevices(AddTest(st, r.value, Decorators(d, devices[j], hasImplParity, env.cudaAvailable)),
                                d, hasImplParity, devices[j + 1..], env)
  {
    assert devices[j..][0] == devices[j] && devices[j..][1..] == devices[j + 1..];
  }

  /** One descriptor of the loop: the rest continue from the state it
      leaves, unless it fails. */
  lemma RegisterAllStep(st: RegState, ds: seq<Descriptor>, i: nat, env: Env)
    requires i < |ds|
    ensures RegisterAll(st, ds[i..], env) == Then(RegisterOne(st, ds[i], env), ds[i + 1..], env)
  {
    assert ds[i..][0] == ds[i] && ds[i..][1..] == ds[i + 1..];
  }

  /** The registry is a dictionary (distinct keys listing exactly its
      contents), every key is the registered name of its parameters' variant,
      and every added test finds its parameters under its own name. */
  ghost predicate WellFormed(st: RegState) {
    && (forall j, l | 0 <= j < l < |st.keys| :: st.keys[j] != st.keys[l])
    && (forall k :: k in st.params <==> k in st.keys)
    && (forall k | k in st.params :: k == RegisteredTestName(st.params[k].functionalVariantName))
    && (forall t | t in st.tests :: t.name in st.params)
  }

  /** Storing a test is a dictionary assignment under the registered name:
      the name maps to the parameters, no other entry changes, a new name
      goes to the end of the key order and an existing one keeps its place;
      the test is appended and one directory was made. */
  lemma AddTestStores(st: RegState, p: TestParams, decorators: seq<Decorator>)
    ensures var r := AddTest(st, p, decorators);
      var name := RegisteredTestName(p.functionalVariantName);
      && name in r.params && r.params[name] == p
      && (forall n | n != name :: n in r.params <==> n in st.params)
      && (forall n | n in st.params && n != name :: r.params[n] == st.params[n])
      && r.keys == (if name in st.params then st.keys else st.keys + [name])
      && r.tests == st.tests + [TestRecord(name, decorators)]
      && r.folders == st.folders + 1
  {
  }

  lemma AddTestPreserves(st: RegState, p: TestParams, decorators: seq<Decorator>)
    requires WellFormed(st)
    ensures WellFormed(AddTest(st, p, decorators))
    ensures st.tests <= AddTest(st, p, decorators).tests
  {
    var st' := AddTest(st, p, decorators);
    var name := RegisteredTestName(p.functionalVariantName);
    if name !in st.params {
      forall j, l | 0 <= j < l < |st'.keys| ensures st'.keys[j] != st'.keys[l] {
        if l == |st.keys| {
          assert st'.keys[j] in st.keys;
        }
      }
    }
    forall t | t in st'.tests ensures t.name in st'.params {
      if t !in st.tests {
        assert t == st'.tests[|st.tests|];
      }
    }
  }

  lemma {:induction false} RegisterDevicesPreserves(st: RegState, d: Descriptor, hasImplParity: bool,
                                                    devices: seq<string>, env: Env)
    requires WellFormed(st)
    ensures WellFormed(RegisterDevices(st, d, hasImplParity, devices, env).0)
    ensures st.tests <= RegisterDevices(st, d, hasImplParity, devices, env).0.tests
    decreases |devices|
  {
    if devices != [] {
      var r := ProcessSpec(d, devices[0], env.mkdtemp(st.folders));
      if r.Ok? {
        var decs := Decorators(d, devices[0], hasImplParity, env.cudaAvailable);
        AddTestPreserves(st, r.value, decs);
        RegisterDevicesPreserves(AddTest(st, r.value, decs), d, hasImplParity, devices[1..], env);
      }
    }
  }

  /** Registration keeps the registry well formed, even when it stops on an
      error, and only ever adds tests: the lookup by test name that each
      added test performs always succeeds. */
  lemma {:induction false} RegisterAllPreserves(st: RegState, ds: seq<Descriptor>, env: Env)
    requires WellFormed(st)
    ensures WellFormed(RegisterAll(st, ds, env).0)
    ensures st.tests <= RegisterAll(st, ds, env).0.tests
    decreases |ds|
  {
    if ds != [] {
      var d := ds[0];
      if Contains(d.constructorText, "FunctionalModule") && FunctionalName(d).Ok? {
        var name := FunctionalName(d).value;
        if name in env.functionals && "F::" + name in env.parityTable {
          RegisterDevicesPreserves(st, d, env.parityTable["F::" + name], env.devices, env);
        }
      }
      var o := RegisterOne(st, d, env);
      if o.1.None? {
        RegisterAllPreserves(o.0, ds[1..], env);
      }
    }
  }

  /** The tests a descriptor that registers adds: one per device, in device
      order, named `test_torch_nn_functional_<variant>` and carrying the
      decorators `Decorators` gives. */
  function ExpectedTests(d: Descriptor, hasImplParity: bool, devices: seq<string>, cudaAvailable: bool)
    : (r: seq<TestRecord>)
    ensures |r| == |devices|
    ensures forall k | 0 <= k < |devices| ::
              r[k] == TestRecord(RegisteredTestName(VariantName(d.instance.name, devices[k])),
                                 Decorators(d, devices[k], hasImplParity, cudaAvailable))
  {
    if devices == [] then []
    else [TestRecord(RegisteredTestName(VariantName(d.instance.name, devices[0])),
                     Decorators(d, devices[0], hasImplParity, cudaAvailable))]
         + ExpectedTests(d, hasImplParity, devices[1..], cudaAvailable)
  }

  /** A descriptor whose name and call are derivable and whose symbol map is
      accepted registers without error: exactly `ExpectedTests`, one
      directory per test. */
  lemma {:induction false} RegisterDevicesRecords(st: RegState, d: Descriptor, hasImplParity: bool,
                                                  devices: seq<string>, env: Env)
    requires d.cppOptionsArgs.Some? || d.cppFunctionCall.Some?
    requires forall k | 0 <= k < |d.cppArgSymbolMap| :: ValidSymbol(d.cppArgSymbolMap[k].1)
    ensures var o := RegisterDevices(st, d, hasImplParity, devices, env);
      && o.1 == None
      && o.0.folders == st.folders + |devices|
      && o.0.tests == st.tests + ExpectedTests(d, hasImplParity, devices, env.cudaAvailable)
    decreases |devices|
  {
    if devices != [] {
      var st1, _ := RegisterFirstDevice(st, d, hasImplParity, devices, env);
      RegisterDevicesRecords(st1, d, hasImplParity, devices[1..], env);
      var rec := TestRecord(RegisteredTestName(VariantName(d.instance.name, devices[0])),
                            Decorators(d, devices[0], hasImplParity, env.cudaAvailable));
      var rest := ExpectedTests(d, hasImplParity, devices[1..], env.cudaAvailable);
      assert ExpectedTests(d, hasImplParity, devices, env.cudaAvailable) == [rec] + rest;
      AppendAssoc(st.tests, [rec], rest);
    }
  }

  /** The test names of a descriptor on the devices, in device order. */
  function TestNames(d: Descriptor, devices: seq<string>): (r: seq<string>)
    ensures |r| == |devices|
    ensures forall k | 0 <= k < |devices| :: r[k] == RegisteredTestName(VariantName(d.instance.name, devices[k]))
  {
    if devices == [] then []
    else [RegisteredTestName(VariantName(d.instance.name, devices[0]))] + TestNames(d, devices[1..])
  }

  /** A device that does not occur again gives a name that does not occur
      again. */
  lemma FirstNameFresh(d: Descriptor, devices: seq<string>)
    requires devices != [] && devices[0] !in devices[1..]
    ensures TestNames(d, devices)[0] !in TestNames(d, devices[1..])
  {
    var names := TestNames(d, devices[1..]);
    if TestNames(d, devices)[0] in names {
      var j :| 0 <= j < |names| && names[j] == TestNames(d, devices)[0];
      RegisteredTestNameInjective(VariantName(d.instance.name, devices[1..][j]),
                                  VariantName(d.instance.name, devices[0]));
      VariantNameInjective(d.instance.name, devices[1..][j], devices[0]);
    }
  }

  /** The keys a run of dictionary assignments to `names` appends to the
      key order of a dictionary whose keys are `known`: each name that is
      not yet a key, once, at its first assignment. */
  function NewKeys(names: seq<string>, known: set<string>): (r: seq<string>)
    ensures forall n :: n in r <==> n in names && n !in known
    ensures forall j, l | 0 <= j < l < |r| :: r[j] != r[l]
  {
    if names == [] then []
    else if names[0] in known then NewKeys(names[1..], known)
    else [names[0]] + NewKeys(names[1..], known + {names[0]})
  }

  /** One assignment followed by the rest appends what the whole run does. */
  lemma KeysStep(keys: seq<string>, known: set<string>, name: string, rest: seq<string>)
    ensures (if name in known then keys else keys + [name]) + NewKeys(rest, known + {name})
         == keys + NewKeys([name] + rest, known)
  {
    assert ([name] + rest)[0] == name && ([name] + rest)[1..] == rest;
    if name in known {
      assert known + {name} == known;
    } else {
      AppendAssoc(keys, [name], NewKeys(rest, known + {name}));
    }
  }

  /** One assignment `params[name] = p` followed by assignments to `rest`
      that leave `out`: the contents of `out` in terms of `params`. */
  lemma ContentsStep(params: map<string, TestParams>, name: string, p: TestParams, rest: seq<string>,
                     out: map<string, TestParams>)
    requires forall n :: n in out <==> n in params[name := p] || n in rest
    requires forall n | n in params[name := p] && n !in rest :: out[n] == params[name := p][n]
    ensures forall n :: n in out <==> n in params || n in [name] + rest
    ensures forall n | n in params && n !in [name] + rest :: out[n] == params[n]
    ensures name !in rest ==> name in out && out[name] == p
  {
  }

  /** The registry a descriptor that registers leaves, as the assignment
      `torch_nn_test_params_map[test_name] = test_params` once per device
      makes it: every device's test name is a key, names new to the
      registry are appended to the key order once each, in device order, no
      other entry changes, and the entry of a name holds the parameters of
      the last device giving it, as `Runs` records it (`RunsAt`: processed
      in the directory made for that device). */
  lemma RegisterDevicesRegistry(st: RegState, d: Descriptor, hasImplParity: bool,
                                devices: seq<string>, env: Env)
    requires d.cppOptionsArgs.Some? || d.cppFunctionCall.Some?
    requires forall k | 0 <= k < |d.cppArgSymbolMap| :: ValidSymbol(d.cppArgSymbolMap[k].1)
    ensures var o := RegisterDevices(st, d, hasImplParity, devices, env).0;
      var names := TestNames(d, devices);
      && o.keys == st.keys + NewKeys(names, st.params.Keys)
      && (forall n :: n in o.params <==> n in st.params || n in names)
      && (forall n | n in st.params && n !in names :: o.params[n] == st.params[n])
      && (forall k: nat {:trigger LastOccurrence(devices, k)} | LastOccurrence(devices, k) ::
            Runs(d, devices, env, st.folders)[k] == Ok(o.params[names[k]]))
  {
    RegistryKeys(st, d, hasImplParity, devices, env);
    RegistryContents(st, d, hasImplParity, devices, env);
    forall k: nat {:trigger LastOccurrence(devices, k)} | LastOccurrence(devices, k)
      ensures Runs(d, devices, env, st.folders)[k]
           == Ok(RegisterDevices(st, d, hasImplParity, devices, env).0.params[TestNames(d, devices)[k]])
    {
      RegistryEntry(st, d, hasImplParity, devices, env, k);
    }
  }

  lemma {:induction false} RegistryKeys(st: RegState, d: Descriptor, hasImplParity: bool,
                                        devices: seq<string>, env: Env)
    requires d.cppOptionsArgs.Some? || d.cppFunctionCall.Some?
    requires forall k | 0 <= k < |d.cppArgSymbolMap| :: ValidSymbol(d.cppArgSymbolMap[k].1)
    ensures RegisterDevices(st, d, hasImplParity, devices, env).0.keys
         == st.keys + NewKeys(TestNames(d, devices), st.params.Keys)
    decreases |devices|
  {
    if devices == [] {
      assert st.keys + [] == st.keys;
    } else {
      var st1, p := RegisterFirstDevice(st, d, hasImplParity, devices, env);
      RegistryKeys(st1, d, hasImplParity, devices[1..], env);
      var name := TestNames(d, devices)[0];
      assert TestNames(d, devices) == [name] + TestNames(d, devices[1..]);
      assert st1.params.Keys == st.params.Keys + {name};
      KeysStep(st.keys, st.params.Keys, name, TestNames(d, devices[1..]));
    }
  }

  lemma {:induction false} RegistryContents(st: RegState, d: Descriptor, hasImplParity: bool,
                                            devices: seq<string>, env: Env)
    requires d.cppOptionsArgs.Some? || d.cppFunctionCall.Some?
    requires forall k | 0 <= k < |d.cppArgSymbolMap| :: ValidSymbol(d.cppArgSymbolMap[k].1)
    ensures var o := RegisterDevices(st, d, hasImplParity, devices, env).0;
      && (forall n :: n in o.params <==> n in st.params || n in TestNames(d, devices))
      && (forall n | n in st.params && n !in TestNames(d, devices) :: o.params[n] == st.params[n])
    decreases |devices|
  {
    if devices != [] {
      var st1, p := RegisterFirstDevice(st, d, hasImplParity, devices, env);
      RegistryContents(st1, d, hasImplParity, devices[1..], env);
      var name := TestNames(d, devices)[0];
      assert TestNames(d, devices) == [name] + TestNames(d, devices[1..]);
      ContentsStep(st.params, name, p, TestNames(d, devices[1..]),
                   RegisterDevices(st1, d, hasImplParity, devices[1..], env).0.params);
    }
  }

  /** No later device is the same as the k-th. */
  predicate LastOccurrence(devices: seq<string>, k: nat) {
    k < |devices| && devices[k] !in devices[k + 1..]
  }

  lemma LastOccurrenceTail(devices: seq<string>, k: nat)
    requires 0 < k && LastOccurrence(devices, k)
    ensures LastOccurrence(devices[1..], k - 1)
  {
    assert devices[1..][k - 1 + 1..] == devices[k + 1..];
  }

  /** What processing gives on each device, in order, the k-th in the
      k-th directory made from `start` on. */
  function Runs(d: Descriptor, devices: seq<string>, env: Env, start: nat): (r: seq<Result<TestParams>>)
    ensures |r| == |devices|
  {
    if devices == [] then []
    else [ProcessSpec(d, devices[0], env.mkdtemp(start))] + Runs(d, devices[1..], env, start + 1)
  }

  lemma RunsAt(d: Descriptor, devices: seq<string>, env: Env, start: nat, k: nat)
    requires k < |devices|
    ensures Runs(d, devices, env, start)[k] == ProcessSpec(d, devices[k], env.mkdtemp(start + k))
  {
    RunsAtFolder(d, devices, env, start, k, start + k);
  }

  lemma {:induction false} RunsAtFolder(d: Descriptor, devices: seq<string>, env: Env, start: nat, k: nat, n: nat)
    requires k < |devices| && n == start + k
    ensures Runs(d, devices, env, start)[k] == ProcessSpec(d, devices[k], env.mkdtemp(n))
  {
    if k > 0 {
      RunsAtFolder(d, devices[1..], env, start + 1, k - 1, n);
      assert devices[1..][k - 1] == devices[k];
    }
  }

  lemma TestNamesTail(d: Descriptor, devices: seq<string>, k: nat)
    requires 0 < k < |devices|
    ensures TestNames(d, devices)[k] == TestNames(d, devices[1..])[k - 1]
  {
    assert devices[1..][k - 1] == devices[k];
  }

  lemma RunsTail(d: Descriptor, devices: seq<string>, env: Env, start: nat, next: nat, k: nat)
    requires 0 < k < |devices| && next == start + 1
    ensures Runs(d, devices, env, start)[k] == Runs(d, devices[1..], env, next)[k - 1]
  {
  }

  /** The registry entry of one device no later device repeats. */
  lemma {:induction false} RegistryEntry(st: RegState, d: Descriptor, hasImplParity: bool,
                                         devices: seq<string>, env: Env, k: nat)
    requires LastOccurrence(devices, k)
    requires d.cppOptionsArgs.Some? || d.cppFunctionCall.Some?
    requires forall j | 0 <= j < |d.cppArgSymbolMap| :: ValidSymbol(d.cppArgSymbolMap[j].1)
    ensures var o := RegisterDevices(st, d, hasImplParity, devices, env).0;
      TestNames(d, devices)[k] in o.params &&
      Runs(d, devices, env, st.folders)[k] == Ok(o.params[TestNames(d, devices)[k]])
    decreases k, 1
  {
    if k == 0 {
      RegistryFirstEntry(st, d, hasImplParity, devices, env);
    } else {
      RegistryEntryLater(st, d, hasImplParity, devices, env, k);
    }
  }

  lemma {:induction false} RegistryEntryLater(st: RegState, d: Descriptor, hasImplParity: bool,
                                              devices: seq<string>, env: Env, k: nat)
    requires 0 < k && LastOccurrence(devices, k)
    requires d.cppOptionsArgs.Some? || d.cppFunctionCall.Some?
    requires forall j | 0 <= j < |d.cppArgSymbolMap| :: ValidSymbol(d.cppArgSymbolMap[j].1)
    ensures var o := RegisterDevices(st, d, hasImplParity, devices, env).0;
      TestNames(d, devices)[k] in o.params &&
      Runs(d, devices, env, st.folders)[k] == Ok(o.params[TestNames(d, devices)[k]])
    decreases k, 0
  {
    var st1 := RegisterDevicesUnfold(st, d, hasImplParity, devices, env);
    LastOccurrenceTail(devices, k);
    RegistryEntry(st1, d, hasImplParity, devices[1..], env, k - 1);
    TestNamesTail(d, devices, k);
    RunsTail(d, devices, env, st.folders, st1.folders, k);
  }

  /** When no later device repeats the first, the registry keeps the
      first device's parameters under its test name. */
  lemma RegistryFirstEntry(st: RegState, d: Descriptor, hasImplParity: bool,
                           devices: seq<string>, env: Env)
    requires LastOccurrence(devices, 0)
    requires d.cppOptionsArgs.Some? || d.cppFunctionCall.Some?
    requires forall k | 0 <= k < |d.cppArgSymbolMap| :: ValidSymbol(d.cppArgSymbolMap[k].1)
    ensures var o := RegisterDevices(st, d, hasImplParity, devices, env).0;
      TestNames(d, devices)[0] in o.params &&
      ProcessSpec(d, devices[0], env.mkdtemp(st.folders)) == Ok(o.params[TestNames(d, devices)[0]])
  {
    var st1, p := RegisterFirstDevice(st, d, hasImplParity, devices, env);
    var rest := devices[1..];
    var names := TestNames(d, devices);
    assert names == [names[0]] + TestNames(d, rest);
    FirstNameFresh(d, devices);
    RegistryContents(st1, d, hasImplParity, rest, env);
    ContentsStep(st.params, names[0], p, TestNames(d, rest),
                 RegisterDevices(st1, d, hasImplParity, rest, env).0.params);
  }

  /** The first device of a descriptor that registers: one test is added
      and the rest of the devices continue from there. */
  lemma RegisterFirstDevice(st: RegState, d: Descriptor, hasImplParity: bool,
                            devices: seq<string>, env: Env) returns (st1: RegState, p: TestParams)
    requires devices != []
    requires d.cppOptionsArgs.Some? || d.cppFunctionCall.Some?
    requires forall k | 0 <= k < |d.cppArgSymbolMap| :: ValidSymbol(d.cppArgSymbolMap[k].1)
    ensures RegisterDevices(st, d, hasImplParity, devices, env)
         == RegisterDevices(st1, d, hasImplParity, devices[1..], env)
    ensures st1.folders == st.folders + 1
    ensures st1.tests == st.tests + [TestRecord(RegisteredTestName(VariantName(d.instance.name, devices[0])),
                                                Decorators(d, devices[0], hasImplParity, env.cudaAvailable))]
    ensures ProcessSpec(d, devices[0], env.mkdtemp(st.folders)) == Ok(p)
    ensures st1.params == st.params[TestNames(d, devices)[0] := p]
    ensures st1.keys == if TestNames(d, devices)[0] in st.params then st.keys
                        else st.keys + [TestNames(d, devices)[0]]
  {
    var folder := env.mkdtemp(st.folders);
    ProcessSucceeds(d, devices[0], folder);
    ProcessVariant(d, devices[0], folder);
    p := ProcessSpec(d, devices[0], folder).value;
    st1 := AddTest(st, p, Decorators(d, devices[0], hasImplParity, env.cudaAvailable));
  }

  /** The registration of the devices after the first, continuing from
      the state the first leaves. */
  lemma RegisterDevicesUnfold(st: RegState, d: Descriptor, hasImplParity: bool,
                              devices: seq<string>, env: Env) returns (st1: RegState)
    requires devices != []
    requires d.cppOptionsArgs.Some? || d.cppFunctionCall.Some?
    requires forall k | 0 <= k < |d.cppArgSymbolMap| :: ValidSymbol(d.cppArgSymbolMap[k].1)
    ensures RegisterDevices(st, d, hasImplParity, devices, env)
         == RegisterDevices(st1, d, hasImplParity, devices[1..], env)
    ensures st1.folders == st.folders + 1
  {
    var p;
    st1, p := RegisterFirstDevice(st, d, hasImplParity, devices, env);
  }

  /** A descriptor whose symbol map is rejected fails on its first device,
      before anything is registered for it. */
  lemma RegisterDevicesFails(st: RegState, d: Descriptor, hasImplParity: bool,
                             devices: seq<string>, env: Env)
    requires devices != []
    requires !(forall k | 0 <= k < |d.cppArgSymbolMap| :: ValidSymbol(d.cppArgSymbolMap[k].1))
    ensures RegisterDevices(st, d, hasImplParity, devices, env).0 == st
    ensures RegisterDevices(st, d, hasImplParity, devices, env).1.Some?
  {
    ProcessSucceeds(d, devices[0], env.mkdtemp(st.folders));
  }

  /** Module tests produce nothing; an underivable name, a name
      `torch.nn.functional` lacks and a functional missing from the parity
      table are errors that register nothing. */
  lemma RegisterOneGate(st: RegState, d: Descriptor, env: Env)
    ensures !Contains(d.constructorText, "FunctionalModule") ==> RegisterOne(st, d, env) == (st, None)
    ensures Contains(d.constructorText, "FunctionalModule") && FunctionalName(d).Ok? &&
            FunctionalName(d).value in env.functionals &&
            "F::" + FunctionalName(d).value !in env.parityTable ==>
              RegisterOne(st, d, env) == (st, Some(MissingParityEntry("F::" + FunctionalName(d).value)))
    ensures Contains(d.constructorText, "FunctionalModule") && FunctionalName(d).Err? ==>
              RegisterOne(st, d, env) == (st, Some(MissingCallAndOptions))
    ensures Contains(d.constructorText, "FunctionalModule") && FunctionalName(d).Ok? &&
            FunctionalName(d).value !in env.functionals ==>
              RegisterOne(st, d, env) == (st, Some(UnknownFunctional(FunctionalName(d).value)))
  {
  }

  /** A descriptor that passes every gate and whose symbol map is accepted
      registers one test per device, marked as an expected failure exactly
      when the parity table records no implementation parity for
      `F::<name>`. */
  lemma RegisterOneRecords(st: RegState, d: Descriptor, env: Env)
    requires Contains(d.constructorText, "FunctionalModule") && FunctionalName(d).Ok?
    requires FunctionalName(d).value in env.functionals
    requires "F::" + FunctionalName(d).value in env.parityTable
    requires forall k | 0 <= k < |d.cppArgSymbolMap| :: ValidSymbol(d.cppArgSymbolMap[k].1)
    ensures var o := RegisterOne(st, d, env);
      && o.1 == None
      && o.0.tests == st.tests + ExpectedTests(d, env.parityTable["F::" + FunctionalName(d).value],
                                               env.devices, env.cudaAvailable)
  {
    RegisterDevicesRecords(st, d, env.parityTable["F::" + FunctionalName(d).value], env.devices, env);
  }
}
