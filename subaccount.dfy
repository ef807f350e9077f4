/**
 * `principal_to_subaccount`, identical in both canisters: the 32-byte ledger
 * subaccount that identifies a principal's deposit account.
 */
module Subaccount {
  import opened Primitives

  /** `size_of::<Subaccount>()`. */
  const SUBACCOUNT_LENGTH: nat := 32

  /** The subaccount's layout: the principal's length, its bytes, then zero padding. */
  function Layout(p: Principal): (s: seq<byte>)
    ensures |s| == SUBACCOUNT_LENGTH
    ensures s[0] as int == |p| && s[1..1 + |p|] == p
    ensures forall i :: 1 + |p| <= i < SUBACCOUNT_LENGTH ==> s[i] == 0
  {
    [|p| as byte] + p + seq(SUBACCOUNT_LENGTH - 1 - |p|, _ => 0)
  }

  /** Distinct principals get distinct subaccounts: the layout can be read back. */
  lemma LayoutInjective(p: Principal, q: Principal)
    requires Layout(p) == Layout(q)
    ensures p == q
  {
    assert |p| == Layout(p)[0] as int == Layout(q)[0] as int == |q|;
    assert p == Layout(p)[1..1 + |p|] == Layout(q)[1..1 + |q|] == q;
  }

  /**
   * `principal_to_subaccount`: a zeroed array, the length in byte 0 (it fits
   * a byte because a principal has at most 29 bytes) and the principal's
   * bytes copied into bytes `1..1 + len`.
   */
  method PrincipalToSubaccount(p: Principal) returns (sub: array<byte>)
    ensures sub.Length == SUBACCOUNT_LENGTH
    ensures sub[..] == Layout(p)
  {
    sub := new byte[SUBACCOUNT_LENGTH](_ => 0);
    sub[0] := |p| as byte;
    var i := 0;
    while i < |p|
      invariant 0 <= i <= |p|
      invariant sub[0] as int == |p|
      invariant sub[1..1 + i] == p[..i]
      invariant forall j :: 1 + i <= j < sub.Length ==> sub[j] == 0
    {
      sub[1 + i] := p[i];
      i := i + 1;
    }
    assert sub[1..1 + |p|] == p;
  }
}
