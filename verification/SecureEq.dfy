/** The constant-time comparison of tokens. */
module SecureEq {

  type Byte = b: nat | b < 256

  /** Bitwise operations on unsigned words of any width. */
  function Xor(a: nat, b: nat): nat
    decreases a + b
  {
    if a == 0 && b == 0 then 0 else (if a % 2 == b % 2 then 0 else 1) + 2 * Xor(a / 2, b / 2)
  }

  function Or(a: nat, b: nat): nat
    decreases a + b
  {
    if a == 0 && b == 0 then 0 else (if a % 2 == 0 && b % 2 == 0 then 0 else 1) + 2 * Or(a / 2, b / 2)
  }

  lemma {:induction false} XorIsZeroIff(a: nat, b: nat)
    ensures Xor(a, b) == 0 <==> a == b
    decreases a + b
  {
    if !(a == 0 && b == 0) { XorIsZeroIff(a / 2, b / 2); }
  }

  lemma {:induction false} OrIsZeroIff(a: nat, b: nat)
    ensures Or(a, b) == 0 <==> a == 0 && b == 0
    decreases a + b
  {
    if !(a == 0 && b == 0) { OrIsZeroIff(a / 2, b / 2); }
  }

  function At(s: seq<Byte>, i: nat): Byte {
    if i < |s| then s[i] else 0
  }

  /** Differences are collected over the longer length, the shorter side padded with zeros; the
      answer is true exactly for equal byte strings, even where the padding hides a difference. */
  method SecureEq(left: seq<Byte>, right: seq<Byte>) returns (equal: bool)
    ensures equal <==> left == right
  {
    var diff := Xor(|left|, |right|);
    XorIsZeroIff(|left|, |right|);
    var longer := if |left| < |right| then |right| else |left|;
    for index := 0 to longer
      invariant diff == 0 <==> |left| == |right| && forall i :: 0 <= i < index ==> At(left, i) == At(right, i)
    {
      var a, b := At(left, index), At(right, index);
      XorIsZeroIff(a, b);
      OrIsZeroIff(diff, Xor(a, b));
      diff := Or(diff, Xor(a, b));
    }
    equal := diff == 0;
    if |left| == |right| && forall i :: 0 <= i < longer ==> At(left, i) == At(right, i) {
      assert forall i :: 0 <= i < |left| ==> left[i] == At(left, i) == At(right, i) == right[i];
    }
  }
}
