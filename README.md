# SimpleTest greeting-script harness, modelled in Dafny

This project models the test script `test/test-app.php` of a small PHP "Hello
World" application. The script does four things:

- It runs the greeting application (`index.php`) once per scenario and
  captures what the application prints.
- Before a run, `captureAppOutput` writes that scenario's overrides into
  `$_ENV`. Scenarios 2 to 7 override `NAME`; scenario 1 overrides nothing.
  After the run it unsets every override key again.
- It checks each captured output with the `SimpleTest` assertion runner. The
  runner keeps two counters, `passed` and `failed`.
- It prints a report. The process exits with status 1 when any assertion
  failed.

The greeting application itself is not part of this model. It is a parameter
`app: map<string, string> -> string`: a function from the environment it runs
under to the text it prints. The properties below hold for every application
that only reads `$_ENV`, whatever text it prints (see "## Left out" for what
this assumes).

Modules, one per component of the script:

- `PhpValues` (`php_values.dfy`) covers PHP scalar values and the strict
  identity operator `===` on them. The script passes only strings and
  booleans to its assertions. `Null` and `Int` are there to show that `===`
  does not juggle types. The module also models `strpos`, which returns an
  integer offset or `false`. `StrPos` returns the first occurrence and is
  proved to be first.
- `SimpleTesting` (`simple_test.dfy`) holds the class `SimpleTest`. It has the
  two counters and a ghost history `Outcomes` of every assertion, in call
  order. `Valid()` ties the counters to the history: `passed` is the number
  of passes and `passed + failed` is the number of assertions.
  `PrintResults` returns the report (passed, failed, total, exit status)
  instead of printing it and exiting.
- `AppEnvironment` (`environment.dfy`) models `$_ENV` as the class
  `Environment`, with one map field. `CaptureAppOutput` keeps the two
  `foreach` loops of `captureAppOutput`. Each loop has an invariant tied to
  the specification functions `Assigned` and `KeysOf`.
- `TestScript` (`test_script.dfy`) models the top-level script: seven
  scenarios, eight assertions and the report. It also holds the exact
  conditions the script asserts about the captured output.

Facts about the script that the model makes explicit:

- `captureAppOutput` unsets every override key after the run. A key that was
  present before the call is therefore removed, not restored
  (`CaptureAppOutput`).
- The seven scenarios make eight assertions, because the seventh makes two.
  The report's total is eight (`RunTests`).
- The message at line 97 says the output must end with `!`, but the check is
  stricter. It requires the first `!` of the output to be at its last index
  (`strpos($output, '!') === strlen($output) - 1`). `Hello Wow!!` ends with
  `!` but fails it. The empty output fails it too, because `false === -1` is
  false (`FirstBangIsLastStricterThanEndsWithBang`).
- The first scenario sets no override. It runs under `$_ENV` exactly as the
  script found it, so a `NAME` already in the environment reaches the
  application (`ExactVerdicts`, `RunTests`).

## Model

| member | source | states |
|---|---|---|
| `PhpValues.Identical` | test/test-app.php:11 | `===` holds exactly when both values have the same type and the same value, which is equality of the values; there is no type juggling |
| `PhpValues.IdenticalToTrueIsStricterThanTruthy` | test/test-app.php:22-24 | every value identical to `true` is truthy, but the truthy values `1` and `"yes"` are not identical to `true`, so `assertTrue` fails on them |
| `PhpValues.FirstOccurrence` | test/test-app.php:27 | the result is an offset at or after the start where the needle occurs, with no occurrence before it; `None` means there is no occurrence from the start onwards |
| `PhpValues.StrPos` | test/test-app.php:27 | `strpos` returns `false` or an integer; it returns `false` exactly when the needle occurs nowhere; an integer result is an occurrence with none earlier |
| `PhpValues.StrPosIsZeroIffPrefix` | test/test-app.php:96 | `strpos(h, n) === 0` holds exactly when `n` is a prefix of `h` |
| `PhpValues.StrPosIdenticalIff` | test/test-app.php:97 | `strpos(h, n) === k` holds exactly when `n` occurs at `k` and at no earlier offset |
| `PhpValues.StrPosOfCharIsLastIff` | test/test-app.php:97 | for a one-character needle `c`, `strpos(s, c) === strlen(s) - 1` holds exactly when `s` is non-empty, ends with `c` and has no `c` before its last character |
| `SimpleTesting.CountPassedBounds` | test/test-app.php:35-41 | passes never exceed assertions; they equal the number of assertions exactly when no assertion failed |
| `SimpleTesting.SimpleTest.constructor` | test/test-app.php:6-8 | a new runner has both counters at 0 and no outcomes |
| `SimpleTesting.SimpleTest.AssertEquals` | test/test-app.php:10-20 | when `expected === actual`, `passed` rises by one and `failed` is unchanged; otherwise `failed` rises by one and `passed` is unchanged; the outcome is appended and the counter invariant is kept |
| `SimpleTesting.SimpleTest.AssertTrue` | test/test-app.php:22-24 | a pass exactly when the condition is the boolean `true` itself; exactly one counter moves by one |
| `SimpleTesting.SimpleTest.AssertContains` | test/test-app.php:26-29 | a pass exactly when the needle occurs in the haystack as a contiguous substring, offset 0 included; exactly one counter moves by one |
| `SimpleTesting.SimpleTest.PrintResults` | test/test-app.php:31-43 | the report's total is the number of assertions made; exit status 1 when `failed > 0`, else 0; status 0 exactly when every assertion passed |
| `AppEnvironment.Assigned` | test/test-app.php:49-51 | the environment after the assignment loop has the old keys together with every override key |
| `AppEnvironment.AssignedOutside` | test/test-app.php:49-51 | assigning the overrides leaves every key outside them as it was, present or absent |
| `AppEnvironment.AssignedLastWins` | test/test-app.php:49-51 | after the assignment loop an override key is present and holds the value of the last pair that names it |
| `AppEnvironment.AssignedThenUnset` | test/test-app.php:58-60 | unsetting the override keys after assigning them gives the original environment without those keys |
| `AppEnvironment.CaptureAppOutput` | test/test-app.php:47-63 | the output is the application's text under the environment with every override assigned; afterwards every override key is absent, even one that existed before, and every other key is unchanged |
| `TestScript.BeginsWithHello` | test/test-app.php:96 | the seventh scenario's first check, `strpos($output, 'Hello ') === 0`, holds exactly when the output starts with `Hello ` |
| `TestScript.FirstBangIsLast` | test/test-app.php:97 | the last check, `strpos($output, '!') === strlen($output) - 1`, holds exactly when the output is non-empty, ends with `!` and has no `!` before its last character |
| `TestScript.FirstBangIsLastStricterThanEndsWithBang` | test/test-app.php:97 | the last check implies "ends with `!`"; `Hello Wow!!` ends with `!` yet fails it; the empty output fails it |
| `TestScript.ShapeChecksOnGreeting` | test/test-app.php:96-97 | on an output `Hello ` + x + `!` the prefix check always holds, and the last check holds exactly when x has no `!` |
| `TestScript.ExactVerdicts` | test/test-app.php:70-80 | exactly three outcomes, one per exact-match assertion; each is whether that scenario's output equals its expected greeting, the first under the environment as found, the next two with `NAME` set |
| `TestScript.ContainsVerdicts` | test/test-app.php:82-88 | exactly two outcomes, one per containment assertion; each is whether `&lt;script&gt;` or `Test%User` occurs in its scenario's output |
| `TestScript.ShapeVerdicts` | test/test-app.php:90-97 | exactly three outcomes for the last three assertions; the second holds exactly when the `CI/CD` output starts with `Hello `, the third exactly when its only `!` is its last character |
| `TestScript.Verdicts` | test/test-app.php:70-97 | the outcomes of all eight assertions in call order; there are exactly eight |
| `TestScript.SingleOverride` | test/test-app.php:49-51 | a one-pair override sets that key in any environment that agrees elsewhere, whether or not the key was set before |
| `TestScript.CaptureWithName` | test/test-app.php:75 | one scenario with a `NAME` override runs the application under the original environment with `NAME` set, and leaves `NAME` unset |
| `TestScript.RunExactScenarios` | test/test-app.php:70-80 | the three exact-match assertions append their verdicts in order; the first runs under the environment as found, the next two with `NAME` set |
| `TestScript.RunContainsScenarios` | test/test-app.php:82-88 | the two containment assertions append whether `&lt;script&gt;` and `Test%User` occur in their outputs |
| `TestScript.RunShapeScenarios` | test/test-app.php:90-97 | the length assertion and the two shape assertions append their verdicts in order |
| `TestScript.RunTests` | test/test-app.php:66-99 | all eight assertions run whatever fails; the total is 8; the passes are the verdicts that hold; exit status is 0 exactly when all eight hold, else 1; `NAME` ends up unset |

## Left out

- The greeting application `index.php` is not part of this model. Its HTML
  escaping and `sprintf` formatting are unseen, so it is the arbitrary
  function parameter `app`. The expected literal outputs are therefore
  verdicts about `app`, not facts proved about a greeter.
- Output buffering (`ob_start`, `ob_get_clean`) is I/O. The captured output is
  the value `app` returns.
- The `echo` lines, the `var_export` diff text, the report text and the
  `$message` arguments are not modelled. They only produce text.
- `exit(1)` is the exit status 1 in the returned report, not process
  termination. Falling off the end of the script is status 0.
- Only PHP's scalar `null`, booleans, integers and strings are modelled. The
  script passes only strings and booleans to its assertions; the other two
  show that `===` does not juggle types. Floats, arrays and objects under
  `===` are left out.
- `StrPos`: offsets and lengths count characters, not bytes. PHP strings are
  byte strings, so on non-ASCII text `strpos` and `strlen` give byte offsets
  (`strpos("é!", "!")` is 2 in UTF-8, 1 here). The script's eight verdicts do
  not change: every needle is ASCII, and line 97 compares `strpos` with
  `strlen` in the same unit.
- `CaptureAppOutput` assumes the application only reads `$_ENV`. In PHP,
  `index.php` is included into `captureAppOutput`'s own scope. It could write
  `$_ENV`, reassign the local `$env` or call `exit`. Then the unset loop and
  "every other key is unchanged" would not hold, and the script might not
  reach its report.
- `strpos` follows PHP 8 for an empty needle: it is found at offset 0. No
  assertion uses an empty needle.
- `$_ENV` values are modelled as strings, and the override arrays as ordered
  lists of key/value pairs. Keys are unique in PHP arrays, but the model does
  not need that.
