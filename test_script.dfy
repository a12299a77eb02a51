/**
 The test script itself: seven scenarios, each capturing the greeting
 application's output under one environment, eight assertions on those
 outputs, and the final report. The application is a parameter: a function
 from the environment it runs under to the text it prints.
 */
module TestScript {
  import opened PhpValues
  import opened SimpleTesting
  import opened AppEnvironment

  /** The environment variable every scenario after the first overrides. */
  const Name := "NAME"

  /**
   The first condition asserted on the seventh output,
   `strpos($output, 'Hello ') === 0`: it holds exactly when the output starts
   with "Hello ".
   */
  predicate BeginsWithHello(output: string)
    ensures BeginsWithHello(output) <==> |output| >= 6 && output[..6] == "Hello "
  {
    StrPosIsZeroIffPrefix(output, "Hello ");
    Identical(StrPos(output, "Hello "), Int(0))
  }

  /**
   The condition asserted last, `strpos($output, '!') === strlen($output) - 1`:
   it holds exactly when the output is non-empty, ends with '!' and has no '!'
   before its last character.
   */
  predicate FirstBangIsLast(output: string)
    ensures FirstBangIsLast(output) <==>
              |output| > 0 && output[|output| - 1] == '!' &&
              forall i :: 0 <= i < |output| - 1 ==> output[i] != '!'
  {
    StrPosOfCharIsLastIff(output, '!');
    Identical(StrPos(output, "!"), Int(|output| - 1))
  }

  /**
   The last check is stricter than "ends with '!'": it implies that, but an
   output with a second '!' ends with '!' and still fails it, as does the
   empty output.
   */
  lemma FirstBangIsLastStricterThanEndsWithBang(output: string)
    ensures FirstBangIsLast(output) ==> |output| > 0 && output[|output| - 1] == '!'
    ensures var twice := "Hello Wow!!"; twice[|twice| - 1] == '!' && !FirstBangIsLast(twice)
    ensures !FirstBangIsLast("")
  {
    assert "Hello Wow!!"[9] == '!';
  }

  /**
   On an output of the shape "Hello " + x + "!", the prefix check always
   holds and the last check holds exactly when x contains no '!'.
   */
  lemma ShapeChecksOnGreeting(x: string)
    ensures BeginsWithHello("Hello " + x + "!")
    ensures FirstBangIsLast("Hello " + x + "!") <==> '!' !in x
  {
    var out := "Hello " + x + "!";
    assert out[..6] == "Hello ";
    assert forall i :: 0 <= i < |x| ==> out[6 + i] == x[i];
    if '!' in x {
      var i :| 0 <= i < |x| && x[i] == '!';
      assert out[6 + i] == '!';
    }
  }

  /**
   The outcomes of the first three assertions (exact matches), when the script
   starts with environment `vars`: the first scenario runs under `vars` as it
   is, the next two under `vars` with NAME set to their value.
   */
  ghost function ExactVerdicts(vars: map<string, string>, app: map<string, string> -> string): (r: seq<bool>)
    ensures |r| == 3
  {
    [ app(vars) == "Hello World!",
      app(vars[Name := "DevOps"]) == "Hello DevOps!",
      app(vars[Name := ""]) == "Hello !" ]
  }

  /**
   The outcomes of the fourth and fifth assertions: the escaped script tag and
   the unmangled percent sign must occur in the output.
   */
  ghost function ContainsVerdicts(vars: map<string, string>, app: map<string, string> -> string): (r: seq<bool>)
    ensures |r| == 2
  {
    [ Occurs(app(vars[Name := "<script>alert(\"xss\")</script>"]), "&lt;script&gt;"),
      Occurs(app(vars[Name := "Test%User"]), "Test%User") ]
  }

  /**
   The outcomes of the last three assertions: a non-empty output, and an
   output that begins with "Hello " and whose first '!' is its last character.
   */
  ghost function ShapeVerdicts(vars: map<string, string>, app: map<string, string> -> string): (r: seq<bool>)
    ensures |r| == 3
    ensures var out := app(vars[Name := "CI/CD"]);
      (r[1] <==> |out| >= 6 && out[..6] == "Hello ") &&
      (r[2] <==> |out| > 0 && out[|out| - 1] == '!' && forall i :: 0 <= i < |out| - 1 ==> out[i] != '!')
  {
    var hardened := app(vars[Name := "CI/CD"]);
    [ |app(vars[Name := "Azure"])| > 0,
      BeginsWithHello(hardened),
      FirstBangIsLast(hardened) ]
  }

  /** The outcome of each of the eight assertions, in order. */
  ghost function Verdicts(vars: map<string, string>, app: map<string, string> -> string): (r: seq<bool>)
    ensures |r| == 8
  {
    ExactVerdicts(vars, app) + ContainsVerdicts(vars, app) + ShapeVerdicts(vars, app)
  }

  /**
   A single override `[key => value]` sets `key` in any environment that
   agrees with `vars` on every other key.
   */
  lemma SingleOverride(current: map<string, string>, vars: map<string, string>, key: string, value: string)
    requires current - {key} == vars - {key}
    ensures KeysOf([(key, value)]) == {key}
    ensures Assigned(current, [(key, value)]) == vars[key := value]
  {
    assert [(key, value)][..0] == [];
    assert [(key, value)][0].0 == key;
    forall k | k != key
      ensures k in current <==> k in vars
      ensures k in current ==> current[k] == vars[k]
    {
      assert k in current <==> k in current - {key};
      assert k in vars <==> k in vars - {key};
      if k in current {
        assert current[k] == (current - {key})[k];
        assert vars[k] == (vars - {key})[k];
      }
    }
  }

  /**
   One scenario with a NAME override, from an environment that agrees with
   `vars` except perhaps on NAME: the app runs under `vars` with NAME set, and
   NAME is unset afterwards.
   */
  method CaptureWithName(env: Environment, value: string, app: map<string, string> -> string, ghost vars: map<string, string>)
    returns (output: string)
    requires env.vars - {Name} == vars - {Name}
    modifies env
    ensures output == app(vars[Name := value])
    ensures env.vars == vars - {Name}
  {
    SingleOverride(env.vars, vars, Name, value);
    output := CaptureAppOutput(env, [(Name, value)], app);
  }

  /** Scenarios 1 to 3: the output must equal the expected greeting. */
  method RunExactScenarios(env: Environment, app: map<string, string> -> string, test: SimpleTest)
    requires test.Valid()
    modifies env, test
    ensures test.Valid()
    ensures test.Outcomes == old(test.Outcomes) + ExactVerdicts(old(env.vars), app)
    ensures env.vars == old(env.vars) - {Name}
  {
    ghost var vars := env.vars;
    var output := CaptureAppOutput(env, [], app);
    assert KeysOf([]) == {};
    test.AssertEquals(Str("Hello World!"), Str(output));

    output := CaptureWithName(env, "DevOps", app, vars);
    test.AssertEquals(Str("Hello DevOps!"), Str(output));

    output := CaptureWithName(env, "", app, vars);
    test.AssertEquals(Str("Hello !"), Str(output));
  }

  /** Scenarios 4 and 5: the output must contain a given text. */
  method RunContainsScenarios(env: Environment, app: map<string, string> -> string, test: SimpleTest, ghost vars: map<string, string>)
    requires test.Valid()
    requires env.vars == vars - {Name}
    modifies env, test
    ensures test.Valid()
    ensures test.Outcomes == old(test.Outcomes) + ContainsVerdicts(vars, app)
    ensures env.vars == vars - {Name}
  {
    assert env.vars - {Name} == vars - {Name};
    var output := CaptureWithName(env, "<script>alert(\"xss\")</script>", app, vars);
    test.AssertContains("&lt;script&gt;", output);

    output := CaptureWithName(env, "Test%User", app, vars);
    test.AssertContains("Test%User", output);
  }

  /**
   Scenarios 6 and 7: a non-empty output, then an output that
   begins with "Hello " and whose first '!' is its last character.
   */
  method RunShapeScenarios(env: Environment, app: map<string, string> -> string, test: SimpleTest, ghost vars: map<string, string>)
    requires test.Valid()
    requires env.vars == vars - {Name}
    modifies env, test
    ensures test.Valid()
    ensures test.Outcomes == old(test.Outcomes) + ShapeVerdicts(vars, app)
    ensures env.vars == vars - {Name}
  {
    assert env.vars - {Name} == vars - {Name};
    var output := CaptureWithName(env, "Azure", app, vars);
    test.AssertTrue(Bool(|output| > 0));

    output := CaptureWithName(env, "CI/CD", app, vars);
    test.AssertTrue(Bool(BeginsWithHello(output)));
    test.AssertTrue(Bool(FirstBangIsLast(output)));
  }

  /**
   The whole script. However the application behaves, all eight assertions
   run, the report's total is eight, the passes are the verdicts that hold,
   and the exit status is 0 exactly when all eight hold. NAME ends up unset.
   */
  method RunTests(env: Environment, app: map<string, string> -> string) returns (report: Report)
    modifies env
    ensures env.vars == old(env.vars) - {Name}
    ensures report.total == 8
    ensures report.passed == CountPassed(Verdicts(old(env.vars), app))
    ensures report.passed + report.failed == 8
    ensures report.exitCode == 0 <==> forall i :: 0 <= i < 8 ==> Verdicts(old(env.vars), app)[i]
    ensures report.exitCode == 0 || report.exitCode == 1
  {
    ghost var vars := env.vars;
    var test := new SimpleTest();
    RunExactScenarios(env, app, test);
    RunContainsScenarios(env, app, test, vars);
    RunShapeScenarios(env, app, test, vars);
    assert test.Outcomes == Verdicts(vars, app);
    report := test.PrintResults();
  }
}
