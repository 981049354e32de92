/**
 * The few JavaScript values and string operations the resolver relies on.
 */
module JsValues {

  /** A JavaScript value as the resolver sees it: `undefined`, a boolean or a string. */
  datatype Value = Undefined | Bool(b: bool) | Str(s: string)

  /** `String(v)`: the text that `"..." + v` appends for the value `v`. */
  function ToText(v: Value): string
  {
    match v
    case Undefined => "undefined"
    case Bool(b) => if b then "true" else "false"
    case Str(s) => s
  }

  /** `t` occurs in `s` starting at position `j`. */
  predicate OccursAt(s: string, t: string, j: nat)
  {
    j + |t| <= |s| && s[j..j + |t|] == t
  }

  /**
   * `s.indexOf(t)`: the first position at which `t` occurs in `s`, or -1 when it
   * does not occur. An empty `t` occurs at position 0.
   */
  function IndexOf(s: string, t: string): (r: int)
    ensures -1 <= r <= |s|
    ensures r >= 0 ==> OccursAt(s, t, r)
    ensures forall j: nat :: j <= |s| && (r == -1 || j < r) ==> !OccursAt(s, t, j)
    ensures r == 0 <==> t <= s
    decreases |s|
  {
    if |t| > |s| then -1
    else if s[..|t|] == t then 0
    else
      var k := IndexOf(s[1..], t);
      assert forall j: nat :: j + 1 <= |s| ==> (OccursAt(s[1..], t, j) <==> OccursAt(s, t, j + 1)) by {
        forall j: nat | j + 1 <= |s| ensures OccursAt(s[1..], t, j) <==> OccursAt(s, t, j + 1) {
          if j + |t| <= |s[1..]| {
            assert s[1..][j..j + |t|] == s[j + 1..j + 1 + |t|];
          }
        }
      }
      assert !OccursAt(s, t, 0) by { assert s[0..|t|] == s[..|t|]; }
      forall j: nat | 1 <= j <= |s| && (k == -1 || j < k + 1) ensures !OccursAt(s, t, j) {
        assert !OccursAt(s[1..], t, j - 1);
      }
      if k == -1 then -1 else k + 1
  }

  /** The position of a character that occurs in `s` and nowhere before it. */
  lemma {:induction false} IndexOfChar(s: string, c: char, i: nat)
    requires i < |s| && s[i] == c && c !in s[..i]
    ensures IndexOf(s, [c]) == i
  {
    assert OccursAt(s, [c], i);
    forall j: nat | j < i ensures !OccursAt(s, [c], j) {
      assert s[..i][j] == s[j];
    }
  }

  /** A character that does not occur in `s` is not found by `indexOf`. */
  lemma {:induction false} IndexOfMissingChar(s: string, c: char)
    requires c !in s
    ensures IndexOf(s, [c]) == -1
  {
    forall j: nat | j < |s| ensures !OccursAt(s, [c], j) {
      assert s[j] in s;
    }
  }
}
