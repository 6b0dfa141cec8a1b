/** The Python built-ins that the table assembly relies on: `max` and `min`
    of a non-empty sequence, and `zip` of two lists. */
module Builtins {

  /** `max(s)`: an element of `s` that no element exceeds. Python raises
      ValueError on an empty sequence; callers check for that first. */
  function Max(s: seq<real>): (m: real)
    requires |s| > 0
    ensures m in s
    ensures forall i :: 0 <= i < |s| ==> s[i] <= m
  {
    if |s| == 1 then s[0]
    else
      var rest := Max(s[1..]);
      assert rest in s[1..];
      if rest > s[0] then rest else s[0]
  }

  /** `min(s)`: an element of `s` that is no larger than any element. */
  function Min(s: seq<real>): (m: real)
    requires |s| > 0
    ensures m in s
    ensures forall i :: 0 <= i < |s| ==> m <= s[i]
  {
    if |s| == 1 then s[0]
    else
      var rest := Min(s[1..]);
      assert rest in s[1..];
      if rest < s[0] then rest else s[0]
  }

  /** `list(zip(a, b))`: pairs of equal index, stopping at the end of the
      shorter list; the extra entries of the longer one are dropped. */
  function Zip<A, B>(a: seq<A>, b: seq<B>): (r: seq<(A, B)>)
    ensures |r| == if |a| < |b| then |a| else |b|
    ensures forall i :: 0 <= i < |r| ==> r[i] == (a[i], b[i])
  {
    if a == [] || b == [] then [] else [(a[0], b[0])] + Zip(a[1..], b[1..])
  }
}
