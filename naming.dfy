/** The names the harness derives: the `torch::nn::functional` function
    name of a descriptor (`compute_functional_name`), the variant name of a
    (descriptor, device) pair, the registered Python test name and the name
    of the generated C++ entry point. */
module Naming {
  import opened Text
  import opened Descriptors

  /** The tail of `camel_case_to_snake_case`: an underscore goes before
      every upper-case letter, which is then lowered. */
  function SnakeTail(s: string): (r: string)
    ensures forall i | 0 <= i < |r| :: !IsUpper(r[i])
  {
    if s == [] then []
    else (if IsUpper(s[0]) then ['_', ToLower(s[0])] else [s[0]]) + SnakeTail(s[1..])
  }

  /** `camel_case_to_snake_case`, the substitution of `_` at every position
      other than 0 that is followed by `[A-Z]`, then lowering; restricted to
      ASCII. The result holds no upper-case letter. */
  function CamelToSnake(s: string): (r: string)
    ensures forall i | 0 <= i < |r| :: !IsUpper(r[i])
  {
    if s == [] then [] else [ToLower(s[0])] + SnakeTail(s[1..])
  }

  /** The reverse of `SnakeTail`: an underscore and the letter after it
      become that letter in upper case. */
  function CamelTail(r: string): string {
    if r == [] then []
    else if r[0] == '_' && |r| >= 2 then [ToUpper(r[1])] + CamelTail(r[2..])
    else [r[0]] + CamelTail(r[1..])
  }

  /** The reverse of `CamelToSnake` for names that start with a capital. */
  function SnakeToCamel(r: string): string {
    if r == [] then [] else [ToUpper(r[0])] + CamelTail(r[1..])
  }

  lemma {:induction false} SnakeTailRoundTrip(s: string)
    requires '_' !in s
    ensures CamelTail(SnakeTail(s)) == s
  {
    if s != [] {
      SnakeTailRoundTrip(s[1..]);
      if IsUpper(s[0]) {
        var t := ['_', ToLower(s[0])] + SnakeTail(s[1..]);
        assert t[2..] == SnakeTail(s[1..]);
        UpperLowerInverse(s[0]);
      } else {
        var t := [s[0]] + SnakeTail(s[1..]);
        assert t[1..] == SnakeTail(s[1..]);
      }
    }
  }

  /** A camel-case class name without underscores is recovered from its
      snake-case form: the conversion loses no information on such names. */
  lemma CamelSnakeRoundTrip(s: string)
    requires s != [] && IsUpper(s[0]) && '_' !in s
    ensures SnakeToCamel(CamelToSnake(s)) == s
  {
    var r := CamelToSnake(s);
    assert r[1..] == SnakeTail(s[1..]);
    SnakeTailRoundTrip(s[1..]);
    UpperLowerInverse(s[0]);
  }

  lemma {:induction false} SnakeTailKeepsNonUpper(s: string)
    requires forall i | 0 <= i < |s| :: !IsUpper(s[i])
    ensures SnakeTail(s) == s
  {
    if s != [] {
      SnakeTailKeepsNonUpper(s[1..]);
    }
  }

  /** A string with no upper-case letter is left unchanged. */
  lemma SnakeKeepsNonUpper(s: string)
    requires forall i | 0 <= i < |s| :: !IsUpper(s[i])
    ensures CamelToSnake(s) == s
  {
    if s != [] {
      SnakeTailKeepsNonUpper(s[1..]);
    }
  }

  /** Converting twice is converting once. */
  lemma SnakeIdempotent(s: string)
    ensures CamelToSnake(CamelToSnake(s)) == CamelToSnake(s)
  {
    SnakeKeepsNonUpper(CamelToSnake(s));
  }

  lemma {:induction false} SnakeTailAppend(a: string, b: string)
    ensures SnakeTail(a + b) == SnakeTail(a) + SnakeTail(b)
  {
    if a != [] {
      assert (a + b)[1..] == a[1..] + b;
      SnakeTailAppend(a[1..], b);
    } else {
      assert a + b == b;
    }
  }

  /** A capitalised word inside a name becomes `_` and the word in lower
      case. */
  lemma SnakeTailWord(c: char, tail: string)
    requires IsUpper(c)
    requires forall i | 0 <= i < |tail| :: 'a' <= tail[i] <= 'z'
    ensures SnakeTail([c] + tail) == ['_', ToLower(c)] + tail
  {
    assert ([c] + tail)[1..] == tail;
    SnakeTailKeepsNonUpper(tail);
  }

  /** A capital at index 0 gets no underscore: a single capitalised word is
      just lowered. */
  lemma SnakeFirstWord(c: char, word: string)
    requires forall i | 0 <= i < |word| :: 'a' <= word[i] <= 'z'
    ensures CamelToSnake([c] + word) == [ToLower(c)] + word
  {
    assert ([c] + word)[1..] == word;
    SnakeTailKeepsNonUpper(word);
  }

  /** Appending a capitalised word appends `_` and the word in lower case,
      so `Some`, `SomeLong`, `SomeLongName` become `some`, `some_long`,
      `some_long_name`. */
  lemma SnakeAppendWord(s: string, c: char, word: string)
    requires s != []
    requires IsUpper(c)
    requires forall i | 0 <= i < |word| :: 'a' <= word[i] <= 'z'
    ensures CamelToSnake(s + [c] + word) == CamelToSnake(s) + ['_', ToLower(c)] + word
  {
    assert (s + [c] + word)[0] == s[0];
    assert (s + [c] + word)[1..] == s[1..] + ([c] + word);
    SnakeTailAppend(s[1..], [c] + word);
    SnakeTailWord(c, word);
  }

  /** The name in the options form: the text before the first `(`, every
      `F::` and then every `FuncOptions` deleted, in snake case. */
  function NameFromOptions(options: string): (r: string)
    ensures forall i | 0 <= i < |r| :: !IsUpper(r[i])
  {
    CamelToSnake(RemoveAll(RemoveAll(BeforeFirst(options, '('), "F::"), "FuncOptions"))
  }

  /** The name in the call form: the text before the first `(` with every
      `F::` deleted, case kept. It never holds a `(` and is no longer than
      the call. */
  function NameFromCall(call: string): (r: string)
    ensures '(' !in r && |r| <= |call|
  {
    RemoveAll(BeforeFirst(call, '('), "F::")
  }

  /** `compute_functional_name`: `cpp_options_args` is consulted first. */
  function FunctionalName(d: Descriptor): (r: Result<string>)
    ensures r.Err? <==> d.cppOptionsArgs.None? && d.cppFunctionCall.None?
    ensures r.Err? ==> r.error == MissingCallAndOptions
    ensures d.cppOptionsArgs.Some? ==> r == Ok(NameFromOptions(d.cppOptionsArgs.value))
    ensures d.cppOptionsArgs.None? && d.cppFunctionCall.Some? ==>
              r == Ok(NameFromCall(d.cppFunctionCall.value))
  {
    if d.cppOptionsArgs.Some? then Ok(NameFromOptions(d.cppOptionsArgs.value))
    else if d.cppFunctionCall.Some? then Ok(NameFromCall(d.cppFunctionCall.value))
    else Err(MissingCallAndOptions)
  }

  /** Options written as `F::<Camel>FuncOptions(<rest>)` name the snake-case
      form of `<Camel>`, as long as `<Camel>` holds no `(`, no `:` and no
      occurrence of `FuncOptions` running into the suffix. */
  lemma NameFromOptionsForm(camel: string, rest: string)
    requires '(' !in camel && ':' !in camel
    requires NoMatchBefore(camel + "FuncOptions", "FuncOptions", |camel|)
    ensures NameFromOptions("F::" + camel + "FuncOptions(" + rest) == CamelToSnake(camel)
  {
    var head := "F::" + camel + "FuncOptions";
    assert "F::" + camel + "FuncOptions(" + rest == head + ['('] + rest;
    BeforeFirstOfConcat(head, '(', rest);
    assert head == "F::" + (camel + "FuncOptions");
    RemoveAllLeading("F::", camel + "FuncOptions");
    assert ':' !in "FuncOptions";
    assert ':' !in camel + "FuncOptions";
    MissingCharNotContained(camel + "FuncOptions", "F::", ':');
    RemoveAllAbsent(camel + "FuncOptions", "F::");
    RemoveAllTrailing(camel, "FuncOptions");
  }

  /** A call written as `F::<name>(<rest>)` names `<name>`, case kept, as
      long as `<name>` holds no `(` and no `:`. */
  lemma NameFromCallForm(name: string, rest: string)
    requires '(' !in name && ':' !in name
    ensures NameFromCall("F::" + name + "(" + rest) == name
  {
    assert "F::" + name + "(" + rest == ("F::" + name) + ['('] + rest;
    BeforeFirstOfConcat("F::" + name, '(', rest);
    RemoveAllLeading("F::", name);
    MissingCharNotContained(name, "F::", ':');
    RemoveAllAbsent(name, "F::");
  }

  /** Options for a one-word functional, `F::<Word>FuncOptions(<rest>)`
      with a capital followed by lower-case letters only, name the word in
      lower case (`F::HardshrinkFuncOptions(...)` names `hardshrink`). */
  lemma SingleWordOptions(d: Descriptor, c: char, tail: string, rest: string)
    requires IsUpper(c)
    requires forall i | 0 <= i < |tail| :: 'a' <= tail[i] <= 'z'
    requires d.cppOptionsArgs == Some("F::" + [c] + tail + "FuncOptions(" + rest)
    ensures FunctionalName(d) == Ok([ToLower(c)] + tail)
  {
    var camel := [c] + tail;
    assert "F::" + [c] + tail + "FuncOptions(" + rest == "F::" + camel + "FuncOptions(" + rest;
    WordNoEarlySuffix(c, tail);
    NameFromOptionsForm(camel, rest);
    SnakeTailKeepsNonUpper(tail);
    assert camel[1..] == tail;
  }

  /** In `<Word>FuncOptions`, with a capital followed by lower-case letters
      for `<Word>`, no `FuncOptions` starts inside the word: after the first
      character a match would need an `F`, and at the first character it
      would need the `O` at index 4, where the text holds a lower-case
      letter or a letter of `Func`. */
  lemma WordNoEarlySuffix(c: char, tail: string)
    requires IsUpper(c)
    requires forall i | 0 <= i < |tail| :: 'a' <= tail[i] <= 'z'
    ensures NoMatchBefore([c] + tail + "FuncOptions", "FuncOptions", |[c] + tail|)
  {
    var camel := [c] + tail;
    var s := camel + "FuncOptions";
    forall i | 0 <= i < |camel| && i <= |s|
      ensures !("FuncOptions" <= s[i..])
    {
      if i == 0 {
        if |camel| > 4 {
          assert s[4] == tail[3];
        } else {
          assert s[4] == "FuncOptions"[4 - |camel|];
        }
        assert s[i..][4] != "FuncOptions"[4];
      } else {
        assert s[i..][0] == tail[i - 1];
        assert s[i..][0] != "FuncOptions"[0];
      }
    }
  }

  lemma ReluExample(d: Descriptor)
    requires d.cppOptionsArgs == None && d.cppFunctionCall == Some("F::relu(i0)")
    ensures FunctionalName(d) == Ok("relu")
  {
    assert "F::relu(i0)" == "F::" + "relu" + "(" + "i0)";
    NameFromCallForm("relu", "i0)");
  }

  /** Python's `s[5:]`: the suffix of `s` after its first five characters,
      empty when `s` is shorter than that. */
  function DropFive(s: string): (r: string)
    ensures |r| == if |s| >= 5 then |s| - 5 else 0
    ensures r == s[|s| - |r|..]
  {
    if |s| >= 5 then s[5..] else []
  }

  /** The variant name: the test name without its first five characters,
      suffixed with `_<device>` unless the device is `cpu`. The device can be
      read back from the part after that base. */
  function VariantName(testName: string, device: string): (r: string)
    ensures DropFive(testName) <= r
    ensures device == "cpu" ==> r == DropFive(testName)
    ensures device != "cpu" ==> r[|DropFive(testName)|..] == "_" + device
  {
    DropFive(testName) + (if device != "cpu" then "_" + device else "")
  }

  /** For a test name `test_<base>` the variant drops exactly the `test_`
      prefix and adds the device unless it is `cpu`. */
  lemma VariantOfTestPrefixed(base: string, device: string)
    ensures VariantName("test_" + base, device)
         == if device == "cpu" then base else base + "_" + device
  {
    assert ("test_" + base)[5..] == base;
  }

  /** On one test, distinct devices give distinct variant names. */
  lemma VariantNameInjective(testName: string, a: string, b: string)
    requires VariantName(testName, a) == VariantName(testName, b)
    ensures a == b
  {
    var base := DropFive(testName);
    if a != "cpu" && b != "cpu" {
      assert VariantName(testName, a)[|base| + 1..] == a;
      assert VariantName(testName, b)[|base| + 1..] == b;
    }
  }

  /** The Python test method registered for a variant. */
  function RegisteredTestName(variant: string): (r: string)
    ensures "test_" <= r
    ensures |r| == 25 + |variant| && r[25..] == variant
  {
    "test_torch_nn_functional_" + variant
  }

  /** The C++ entry point of a variant, `'{}_{}'.format(variant,
      'test_forward')`; the template, the exposed-function list and the
      lookup in `test_forward` all use this name. */
  function CppTestName(variant: string): (r: string)
    ensures variant <= r && r[|variant|..] == "_test_forward"
  {
    variant + "_" + "test_forward"
  }

  /** Distinct variants register distinct test names. */
  lemma RegisteredTestNameInjective(v: string, w: string)
    requires RegisteredTestName(v) == RegisteredTestName(w)
    ensures v == w
  {
    assert v == RegisteredTestName(v)[25..];
  }

  /** Distinct variants expose distinct C++ entry points. */
  lemma CppTestNameInjective(v: string, w: string)
    requires CppTestName(v) == CppTestName(w)
    ensures v == w
  {
    assert v == CppTestName(v)[..|v|];
  }
}
