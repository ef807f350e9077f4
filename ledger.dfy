/**
 * The balance ledger: owner -> token -> amount.  Both canisters keep it as a
 * `HashMap<Principal, HashMap<Principal, u128>>` and update one owner's inner
 * map through `add_balance` and `subtract_balance`.
 */
module Ledger {
  import opened Primitives

  /** One owner's balances: token canister id -> amount. */
  type TokenBalances = map<Principal, U128>

  /** The whole ledger: owner -> that owner's balances. */
  type Balances = map<Principal, TokenBalances>

  /** A `(token, amount)` pair as the balance queries report it. */
  datatype Balance = Balance(token: Principal, amount: U128)

  /** An entry of an inner map, absence read as 0. */
  function Get(m: TokenBalances, token: Principal): nat
  {
    if token in m then m[token] else 0
  }

  /** What `owner` holds of `token`, absence (of the owner or of the entry) read as 0. */
  function BalanceOf(b: Balances, owner: Principal, token: Principal): nat
  {
    if owner in b then Get(b[owner], token) else 0
  }

  /**
   * `add_balance`: adds `delta` to the entry, inserting it when absent
   * (even when `delta` is 0).  The `+=` traps when the sum leaves `u128`.
   */
  function AddBalance(m: TokenBalances, token: Principal, delta: U128): (r: Outcome<TokenBalances>)
    ensures r.Traps? <==> token in m && m[token] + delta >= U128_LIMIT
    ensures r.Returns? ==> r.value.Keys == m.Keys + {token}
    ensures r.Returns? ==> r.value[token] == Get(m, token) + delta
    ensures r.Returns? ==> forall t :: t in m && t != token ==> r.value[t] == m[t]
  {
    if token in m then
      if m[token] + delta < U128_LIMIT then Returns(m[token := m[token] + delta]) else Traps
    else
      Returns(m[token := delta])
  }

  /**
   * `subtract_balance`: the `unwrap` traps when the entry is absent and the
   * `-=` traps when it is smaller than `delta`; an entry that reaches 0 is
   * removed, so subtraction never leaves a zero entry behind.
   */
  function SubtractBalance(m: TokenBalances, token: Principal, delta: U128): (r: Outcome<TokenBalances>)
    ensures r.Returns? <==> token in m && delta <= m[token]
    ensures r.Returns? ==> Get(r.value, token) == m[token] - delta
    ensures r.Returns? ==> (token in r.value <==> delta < m[token])
    ensures r.Returns? ==> r.value.Keys <= m.Keys
    ensures r.Returns? ==> forall t :: t in m && t != token ==> t in r.value && r.value[t] == m[t]
  {
    if token !in m || m[token] < delta then Traps
    else if m[token] - delta == 0 then Returns(m - {token})
    else Returns(m[token := m[token] - delta])
  }

  /** `balances.get_mut(&owner).unwrap()` followed by `add_balance`. */
  function CreditOwner(b: Balances, owner: Principal, token: Principal, delta: U128): (r: Outcome<Balances>)
    ensures r.Traps? <==> owner !in b || Get(b[owner], token) + delta >= U128_LIMIT
    ensures r.Returns? ==> r.value.Keys == b.Keys
    ensures r.Returns? ==> forall o :: o in b && o != owner ==> r.value[o] == b[o]
    ensures r.Returns? ==> forall o, t ::
      BalanceOf(r.value, o, t) == BalanceOf(b, o, t) + (if o == owner && t == token then delta else 0)
  {
    if owner !in b then Traps
    else
      match AddBalance(b[owner], token, delta)
      case Traps => Traps
      case Returns(m) => Returns(b[owner := m])
  }

  /** `balances.get_mut(&owner).unwrap()` followed by `subtract_balance`. */
  function DebitOwner(b: Balances, owner: Principal, token: Principal, delta: U128): (r: Outcome<Balances>)
    ensures r.Returns? <==> owner in b && token in b[owner] && delta <= b[owner][token]
    ensures r.Returns? ==> r.value.Keys == b.Keys
    ensures r.Returns? ==> forall o :: o in b && o != owner ==> r.value[o] == b[o]
    ensures r.Returns? ==> forall o, t ::
      BalanceOf(r.value, o, t) + (if o == owner && t == token then delta else 0) == BalanceOf(b, o, t)
  {
    if owner !in b then Traps
    else
      match SubtractBalance(b[owner], token, delta)
      case Traps => Traps
      case Returns(m) => Returns(b[owner := m])
  }

  /** Lists an inner map, each entry once, in the map's (unspecified) iteration order. */
  method ListBalances(m: TokenBalances) returns (r: seq<Balance>)
    ensures forall x :: x in r <==> x.token in m && m[x.token] == x.amount
    ensures forall i, j :: 0 <= i < j < |r| ==> r[i].token != r[j].token
  {
    r := [];
    var unvisited := m.Keys;
    while unvisited != {}
      invariant unvisited <= m.Keys
      invariant forall x :: x in r <==> x.token in m && x.token !in unvisited && m[x.token] == x.amount
      invariant forall i :: 0 <= i < |r| ==> r[i].token !in unvisited
      invariant forall i, j :: 0 <= i < j < |r| ==> r[i].token != r[j].token
      decreases unvisited
    {
      var token :| token in unvisited;
      r := r + [Balance(token, m[token])];
      unvisited := unvisited - {token};
    }
  }

  // ---------------------------------------------------------------------
  // Per-token totals over all owners, and how the primitives change them.
  // ---------------------------------------------------------------------

  ghost function Pick(owners: set<Principal>): (o: Principal)
    requires owners != {}
    ensures o in owners
  {
    var o :| o in owners; o
  }

  /** The sum of `token` held by the owners in `owners`. */
  ghost function SumOver(b: Balances, owners: set<Principal>, token: Principal): nat
    decreases owners
  {
    if owners == {} then 0
    else
      var o := Pick(owners);
      BalanceOf(b, o, token) + SumOver(b, owners - {o}, token)
  }

  /** The amount of `token` the ledger holds, over all owners. */
  ghost function Total(b: Balances, token: Principal): nat
  {
    SumOver(b, b.Keys, token)
  }

  lemma {:induction false} SumOverRemove(b: Balances, owners: set<Principal>, o: Principal, token: Principal)
    requires o in owners
    ensures SumOver(b, owners, token) == BalanceOf(b, o, token) + SumOver(b, owners - {o}, token)
    decreases owners
  {
    var x := Pick(owners);
    if x != o {
      SumOverRemove(b, owners - {x}, o, token);
      SumOverRemove(b, owners - {o}, x, token);
      assert owners - {x} - {o} == owners - {o} - {x};
    }
  }

  lemma {:induction false} SumOverAgree(b: Balances, b': Balances, owners: set<Principal>, token: Principal)
    requires forall o :: o in owners ==> BalanceOf(b, o, token) == BalanceOf(b', o, token)
    ensures SumOver(b, owners, token) == SumOver(b', owners, token)
    decreases owners
  {
    if owners != {} {
      SumOverAgree(b, b', owners - {Pick(owners)}, token);
    }
  }

  /** Changing one owner's balance of `token` changes the total by exactly that difference. */
  lemma TotalShift(b: Balances, b': Balances, owner: Principal, token: Principal)
    requires b'.Keys == b.Keys && owner in b
    requires forall o :: o != owner ==> BalanceOf(b', o, token) == BalanceOf(b, o, token)
    ensures Total(b', token) + BalanceOf(b, owner, token) == Total(b, token) + BalanceOf(b', owner, token)
  {
    SumOverRemove(b, b.Keys, owner, token);
    SumOverRemove(b', b.Keys, owner, token);
    SumOverAgree(b, b', b.Keys - {owner}, token);
  }

  lemma CreditTotal(b: Balances, owner: Principal, token: Principal, delta: U128, t: Principal)
    requires CreditOwner(b, owner, token, delta).Returns?
    ensures Total(CreditOwner(b, owner, token, delta).value, t) == Total(b, t) + (if t == token then delta else 0)
  {
    TotalShift(b, CreditOwner(b, owner, token, delta).value, owner, t);
  }

  lemma DebitTotal(b: Balances, owner: Principal, token: Principal, delta: U128, t: Principal)
    requires DebitOwner(b, owner, token, delta).Returns?
    ensures Total(DebitOwner(b, owner, token, delta).value, t) + (if t == token then delta else 0) == Total(b, t)
  {
    TotalShift(b, DebitOwner(b, owner, token, delta).value, owner, t);
  }

  /** Giving a new owner an empty inner map (as `deposit` does) leaves every total unchanged. */
  lemma NewOwnerTotal(b: Balances, owner: Principal, t: Principal)
    requires owner !in b
    ensures Total(b[owner := map[]], t) == Total(b, t)
  {
    var b' := b[owner := map[]];
    SumOverRemove(b', b'.Keys, owner, t);
    assert b'.Keys - {owner} == b.Keys;
    SumOverAgree(b', b, b.Keys, t);
  }

  /**
   * Gives `owner` an empty map when it has none (the `contains_key` /
   * `insert(.., HashMap::new())` of `deposit` in `defi_dapp`), then credits
   * `delta` through `get_mut(owner).unwrap()` and `add_balance`.
   */
  function CreditCreatingOwner(b: Balances, owner: Principal, token: Principal, delta: U128): (r: Outcome<Balances>)
    ensures r.Returns? <==> BalanceOf(b, owner, token) + delta < U128_LIMIT
    ensures r.Returns? ==> r.value.Keys == b.Keys + {owner}
    ensures r.Returns? ==> forall o :: o in b && o != owner ==> r.value[o] == b[o]
    ensures r.Returns? ==> forall o, t ::
      BalanceOf(r.value, o, t) == BalanceOf(b, o, t) + (if o == owner && t == token then delta else 0)
    ensures r.Returns? ==> forall t :: Total(r.value, t) == Total(b, t) + (if t == token then delta else 0)
  {
    var b': Balances := if owner in b then b else b[owner := map[]];
    assert BalanceOf(b', owner, token) == BalanceOf(b, owner, token);
    var r := CreditOwner(b', owner, token, delta);
    if r.Returns? then
      assert forall o, t :: BalanceOf(b', o, t) == BalanceOf(b, o, t);
      assert forall t :: Total(b', t) == Total(b, t) by {
        forall t ensures Total(b', t) == Total(b, t) {
          if owner !in b { NewOwnerTotal(b, owner, t); }
        }
      }
      assert forall t :: Total(r.value, t) == Total(b', t) + (if t == token then delta else 0) by {
        forall t ensures Total(r.value, t) == Total(b', t) + (if t == token then delta else 0) {
          CreditTotal(b', owner, token, delta, t);
        }
      }
      r
    else r
  }
}
