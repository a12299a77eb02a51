/**
 The few PHP scalar values the test script handles, PHP's strict identity
 operator `===` on them, and the library function `strpos`, whose result is
 either an integer offset or the boolean `false`.
 */
module PhpValues {

  /**
   A PHP scalar. The script passes only strings and booleans to its
   assertions; `Null` and `Int` are here to show that `===` does not juggle
   types.
   */
  datatype Value = Null | Bool(b: bool) | Int(i: int) | Str(s: string)

  datatype Option<T> = None | Some(value: T)

  /**
   PHP's `===`: same type and same value, with no type juggling; on these
   scalars that is exactly equality of the values.
   */
  predicate Identical(a: Value, b: Value)
    ensures Identical(a, b) <==> a == b
  {
    match (a, b)
    case (Null, Null) => true
    case (Bool(x), Bool(y)) => x == y
    case (Int(x), Int(y)) => x == y
    case (Str(x), Str(y)) => x == y
    case _ => false
  }

  /** PHP's loose truthiness (what `if ($v)` would test) for these scalars. */
  predicate Truthy(v: Value) {
    match v
    case Null => false
    case Bool(x) => x
    case Int(x) => x != 0
    case Str(x) => x != "" && x != "0"
  }

  /**
   Being identical to `true` is strictly stronger than being truthy: every
   value identical to `true` is truthy, but the truthy integer 1 is not
   identical to `true`.
   */
  lemma IdenticalToTrueIsStricterThanTruthy(v: Value)
    ensures Identical(Bool(true), v) ==> Truthy(v)
    ensures Truthy(Int(1)) && !Identical(Bool(true), Int(1))
    ensures Truthy(Str("yes")) && !Identical(Bool(true), Str("yes"))
  {
  }

  /** `needle` occurs in `haystack` starting at offset `i`. */
  predicate OccursAt(haystack: string, needle: string, i: nat) {
    i + |needle| <= |haystack| && haystack[i..i + |needle|] == needle
  }

  /** `needle` occurs somewhere in `haystack` as a contiguous substring. */
  ghost predicate Occurs(haystack: string, needle: string) {
    exists i: nat :: OccursAt(haystack, needle, i)
  }

  /** The first offset at or after `from` where `needle` occurs, if any. */
  function FirstOccurrence(haystack: string, needle: string, from: nat): (r: Option<nat>)
    requires from <= |haystack|
    decreases |haystack| - from
    ensures r.Some? ==> from <= r.value && OccursAt(haystack, needle, r.value)
    ensures r.Some? ==> forall j: nat :: from <= j < r.value ==> !OccursAt(haystack, needle, j)
    ensures r.None? ==> forall j: nat :: from <= j ==> !OccursAt(haystack, needle, j)
  {
    if OccursAt(haystack, needle, from) then Some(from)
    else if from == |haystack| then None
    else FirstOccurrence(haystack, needle, from + 1)
  }

  /**
   `strpos($haystack, $needle)`: the offset of the first occurrence of the
   needle, or `false` when there is none. An empty needle is found at offset 0,
   as in PHP 8.
   */
  function StrPos(haystack: string, needle: string): (r: Value)
    ensures r == Bool(false) || r.Int?
    ensures r.Int? ==> 0 <= r.i && OccursAt(haystack, needle, r.i)
    ensures r.Int? ==> forall j: nat :: j < r.i ==> !OccursAt(haystack, needle, j)
    ensures r == Bool(false) <==> !Occurs(haystack, needle)
  {
    match FirstOccurrence(haystack, needle, 0)
    case Some(k) => Int(k)
    case None => Bool(false)
  }

  /**
   `strpos($haystack, $needle) === 0` holds exactly when the needle is a
   prefix of the haystack.
   */
  lemma StrPosIsZeroIffPrefix(haystack: string, needle: string)
    ensures Identical(StrPos(haystack, needle), Int(0)) <==>
              |needle| <= |haystack| && haystack[..|needle|] == needle
  {
    if |needle| <= |haystack| && haystack[..|needle|] == needle {
      assert OccursAt(haystack, needle, 0);
    }
  }

  /**
   `strpos($haystack, $needle) === $k` holds exactly when the needle occurs at
   `k` and at no earlier offset.
   */
  lemma StrPosIdenticalIff(haystack: string, needle: string, k: int)
    ensures Identical(StrPos(haystack, needle), Int(k)) <==>
              0 <= k && OccursAt(haystack, needle, k) &&
              forall j: nat :: j < k ==> !OccursAt(haystack, needle, j)
  {
    var r := StrPos(haystack, needle);
    if 0 <= k && OccursAt(haystack, needle, k) && forall j: nat :: j < k ==> !OccursAt(haystack, needle, j) {
      assert r != Bool(false);
    }
  }

  /** A one-character needle occurs at `j` exactly when that character is there. */
  lemma OccursAtChar(s: string, c: char, j: nat)
    ensures OccursAt(s, [c], j) <==> j < |s| && s[j] == c
  {
    if j < |s| && s[j] == c {
      assert s[j..j + 1] == [c];
    }
  }

  /**
   `strpos($s, $c) === strlen($s) - 1` for a one-character needle holds
   exactly when `s` is non-empty, ends with `c` and has no `c` before its last
   character. For the empty string it compares `false` with -1 and fails.
   */
  lemma StrPosOfCharIsLastIff(s: string, c: char)
    ensures Identical(StrPos(s, [c]), Int(|s| - 1)) <==>
              |s| > 0 && s[|s| - 1] == c && forall i :: 0 <= i < |s| - 1 ==> s[i] != c
  {
    StrPosIdenticalIff(s, [c], |s| - 1);
    forall j: nat
      ensures OccursAt(s, [c], j) <==> j < |s| && s[j] == c
    {
      OccursAtChar(s, c, j);
    }
  }
}
