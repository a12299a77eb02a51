/**
 `captureAppOutput`: the environment bookkeeping around one run of the
 greeting application. The overrides are written into `$_ENV`, the
 application runs and its output is captured, and then every override key is
 unset again. A key that was already present before the call is removed too,
 not restored.
 */
module AppEnvironment {

  /** The keys of a PHP array of overrides, given as its key/value pairs in order. */
  function KeysOf(overrides: seq<(string, string)>): set<string> {
    set i | 0 <= i < |overrides| :: overrides[i].0
  }

  /** The keys of one more pair are the keys before it plus that pair's key. */
  lemma KeysOfPrefix(overrides: seq<(string, string)>, n: nat)
    requires n < |overrides|
    ensures KeysOf(overrides[..n + 1]) == KeysOf(overrides[..n]) + {overrides[n].0}
  {
    var longer, shorter := overrides[..n + 1], overrides[..n];
    assert forall i :: 0 <= i < n ==> longer[i] == shorter[i];
    assert longer[n] == overrides[n];
  }

  /**
   The environment after `$_ENV[$key] = $value` for each pair, in order: its
   keys are the old keys together with every override key.
   */
  function Assigned(vars: map<string, string>, overrides: seq<(string, string)>): (r: map<string, string>)
    ensures r.Keys == vars.Keys + KeysOf(overrides)
  {
    if overrides == [] then vars
    else
      var init := overrides[..|overrides| - 1];
      var last := overrides[|overrides| - 1];
      assert KeysOf(overrides) == KeysOf(init) + {last.0} by {
        KeysOfPrefix(overrides, |overrides| - 1);
        assert overrides[..|overrides|] == overrides;
      }
      Assigned(vars, init)[last.0 := last.1]
  }

  /** Assigning the overrides leaves every other key as it was. */
  lemma {:induction false} AssignedOutside(vars: map<string, string>, overrides: seq<(string, string)>, k: string)
    requires k !in KeysOf(overrides)
    ensures k in Assigned(vars, overrides) <==> k in vars
    ensures k in vars ==> Assigned(vars, overrides)[k] == vars[k]
  {
    if overrides != [] {
      var init := overrides[..|overrides| - 1];
      assert forall i :: 0 <= i < |init| ==> init[i] == overrides[i];
      AssignedOutside(vars, init, k);
    }
  }

  /**
   Every override key is present afterwards, holding the value of the last
   pair that names it.
   */
  lemma {:induction false} AssignedLastWins(vars: map<string, string>, overrides: seq<(string, string)>, i: nat)
    requires i < |overrides|
    requires forall j :: i < j < |overrides| ==> overrides[j].0 != overrides[i].0
    ensures overrides[i].0 in Assigned(vars, overrides)
    ensures Assigned(vars, overrides)[overrides[i].0] == overrides[i].1
  {
    if i < |overrides| - 1 {
      var init := overrides[..|overrides| - 1];
      AssignedLastWins(vars, init, i);
    }
  }

  /** Unsetting the override keys undoes the assignments except for keys that existed before. */
  lemma AssignedThenUnset(vars: map<string, string>, overrides: seq<(string, string)>)
    ensures Assigned(vars, overrides) - KeysOf(overrides) == vars - KeysOf(overrides)
  {
    var keys := KeysOf(overrides);
    forall k | k !in keys
      ensures k in Assigned(vars, overrides) <==> k in vars
      ensures k in vars ==> Assigned(vars, overrides)[k] == vars[k]
    {
      AssignedOutside(vars, overrides, k);
    }
  }

  /** `$_ENV`: the process environment as the script sees it. */
  class Environment {
    var vars: map<string, string>

    constructor (initial: map<string, string>)
      ensures vars == initial
    {
      vars := initial;
    }
  }

  /**
   `captureAppOutput($env)`. The application is the function `app` from the
   environment it runs under to the text it prints. The output is the app's
   text under the environment with every override assigned; afterwards the
   override keys are all absent and every other key is as it was.
   */
  method CaptureAppOutput(env: Environment, overrides: seq<(string, string)>, app: map<string, string> -> string)
    returns (output: string)
    modifies env
    ensures output == app(Assigned(old(env.vars), overrides))
    ensures env.vars == old(env.vars) - KeysOf(overrides)
  {
    for i := 0 to |overrides|
      invariant env.vars == Assigned(old(env.vars), overrides[..i])
    {
      var key, value := overrides[i].0, overrides[i].1;
      assert overrides[..i + 1][..i] == overrides[..i];
      env.vars := env.vars[key := value];
    }
    assert overrides[..|overrides|] == overrides;
    output := app(env.vars);
    ghost var during := env.vars;
    for i := 0 to |overrides|
      invariant env.vars == during - KeysOf(overrides[..i])
    {
      KeysOfPrefix(overrides, i);
      env.vars := env.vars - {overrides[i].0};
    }
    AssignedThenUnset(old(env.vars), overrides);
  }
}
