/**
 * The `defi` canister (rust/defi/src/defi/lib.rs): its `State` and the
 * operations of `impl State`.  The caller's identity, which the canister reads
 * from `caller()`, is an explicit parameter.  Replies are the source's strings.
 */
module Defi {
  import opened Primitives
  import opened Ledger
  import opened OrderBook
  import opened Matching
  import opened Trading

  /**
   * `deposit` as written: both `unwrap`s demand that the caller already has
   * an entry for the token, the `Nat` must fit `u128` and the `+=` must not
   * overflow.
   */
  function DepositLedger(b: Balances, caller: Principal, token: Principal, amount: nat): (r: Outcome<Balances>)
    ensures r.Returns? <==> caller in b && token in b[caller] && b[caller][token] + amount < U128_LIMIT
    ensures r.Returns? ==> r.value.Keys == b.Keys
    ensures r.Returns? ==> forall o, t ::
      BalanceOf(r.value, o, t) == BalanceOf(b, o, t) + (if o == caller && t == token then amount else 0)
  {
    if caller !in b || token !in b[caller] then Traps
    else
      match NatToU128(amount)
      case Traps => Traps
      case Returns(x) => CreditOwner(b, caller, token, x)
  }

  /**
   * Deposit traps whenever the caller has no entry for the token.  No
   * operation of this canister adds an owner to the ledger (deposit and
   * trades keep its owners), so from the empty ledger of `State::default`
   * every deposit traps.
   */
  lemma DepositNeedsEntry(b: Balances, caller: Principal, token: Principal, amount: nat)
    requires !(caller in b && token in b[caller])
    ensures DepositLedger(b, caller, token, amount) == Traps
    ensures DepositLedger(map[], caller, token, amount) == Traps
  {
  }

  /**
   * Deposit as evidently intended (and as `defi_dapp` does it): create the
   * caller's map and entry when missing, then credit `amount`.
   */
  function DepositCreatingEntry(b: Balances, caller: Principal, token: Principal, amount: nat): (r: Outcome<Balances>)
    ensures r.Returns? <==> BalanceOf(b, caller, token) + amount < U128_LIMIT
    ensures r.Returns? ==> r.value.Keys == b.Keys + {caller}
    ensures r.Returns? ==> forall o, t ::
      BalanceOf(r.value, o, t) == BalanceOf(b, o, t) + (if o == caller && t == token then amount else 0)
    ensures r.Returns? ==> forall t :: Total(r.value, t) == Total(b, t) + (if t == token then amount else 0)
  {
    match NatToU128(amount)
    case Traps => Traps
    case Returns(x) => CreditCreatingOwner(b, caller, token, x)
  }

  /** The canister's `State` (its configuration of fee and ledger id is not part of this model). */
  class State {
    var nextId: U64
    var balances: Balances
    var orders: Orders

    ghost predicate Valid()
      reads this
    {
      IdsIssued(orders, nextId)
    }

    /** `State::default`: counter 0, empty ledger, empty book. */
    constructor ()
      ensures Valid()
      ensures nextId == 0 && balances == map[] && orders == map[]
    {
      nextId := 0;
      balances := map[];
      orders := map[];
    }

    /** `get_balance`: the caller's entry for `token`, or nothing when the caller or the entry is absent. */
    function GetBalance(caller: Principal, token: Principal): (r: Option<Balance>)
      reads this
      ensures r.Some? <==> caller in balances && token in balances[caller]
      ensures r.Some? ==> r.value.token == token && r.value.amount == BalanceOf(balances, caller, token)
    {
      if caller !in balances then None
      else if token in balances[caller] then Some(Balance(token, balances[caller][token]))
      else None
    }

    /** `get_balances`: every entry of the caller's map, each once, or nothing when the caller is absent. */
    method GetBalances(caller: Principal) returns (r: Option<seq<Balance>>)
      ensures r.Some? <==> caller in balances
      ensures r.Some? ==> forall x :: x in r.value <==> BalanceOf(balances, caller, x.token) == x.amount && x.token in balances[caller]
      ensures r.Some? ==> forall i, j :: 0 <= i < j < |r.value| ==> r.value[i].token != r.value[j].token
    {
      if caller !in balances {
        return None;
      }
      var listed := ListBalances(balances[caller]);
      return Some(listed);
    }

    /** `deposit`: credits `amount` to an entry the caller must already have. */
    method Deposit(caller: Principal, token: Principal, amount: nat) returns (r: Outcome<string>)
      requires Valid()
      modifies this`balances
      ensures Valid()
      ensures r.Returns? <==> DepositLedger(old(balances), caller, token, amount).Returns?
      ensures r.Returns? ==> r.value == "ok" && balances == DepositLedger(old(balances), caller, token, amount).value
      ensures r.Traps? ==> balances == old(balances)
    {
      if caller !in balances || token !in balances[caller] {
        return Traps;
      }
      var x := NatToU128(amount);
      if x.Traps? {
        return Traps;
      }
      var credited := CreditOwner(balances, caller, token, x.value);
      if credited.Traps? {
        return Traps;
      }
      balances := credited.value;
      r := Returns("ok");
    }

    /** `get_order`. */
    function GetOrder(id: U64): (r: Option<OrderState>)
      reads this
      ensures r.Some? <==> id in orders
      ensures r.Some? ==> r.value == orders[id] && r.value.id == id
      requires Valid()
    {
      if id in orders then Some(orders[id]) else None
    }

    /** `get_orders`: every order of the book, each once. */
    method GetOrders() returns (r: seq<OrderState>)
      requires Valid()
      ensures forall o :: o in r <==> o in orders.Values
      ensures forall i, j :: 0 <= i < j < |r| ==> r[i].id != r[j].id
    {
      r := Select(orders, o => true);
    }

    /** `get_from_orders`: exactly the orders offering `token`. */
    method GetFromOrders(token: Principal) returns (r: seq<OrderState>)
      requires Valid()
      ensures forall o :: o in r <==> o in orders.Values && o.fromToken == token
      ensures forall i, j :: 0 <= i < j < |r| ==> r[i].id != r[j].id
    {
      r := Select(orders, (o: OrderState) => o.fromToken == token);
    }

    /** `get_to_orders`: exactly the orders asking for `token`. */
    method GetToOrders(token: Principal) returns (r: seq<OrderState>)
      requires Valid()
      ensures forall o :: o in r <==> o in orders.Values && o.toToken == token
      ensures forall i, j :: 0 <= i < j < |r| ==> r[i].id != r[j].id
    {
      r := Select(orders, (o: OrderState) => o.toToken == token);
    }

    /** `next_id`: pre-increments the `u64` counter and returns it; the `+=` traps at the top of the range. */
    method NextId() returns (r: Outcome<U64>)
      requires Valid()
      modifies this`nextId
      ensures Valid()
      ensures old(nextId) + 1 < U64_LIMIT ==> r == Returns(old(nextId) + 1) && nextId == old(nextId) + 1
      ensures old(nextId) + 1 >= U64_LIMIT ==> r == Traps && nextId == old(nextId)
    {
      if nextId + 1 >= U64_LIMIT {
        return Traps;
      }
      nextId := nextId + 1;
      r := Returns(nextId);
    }

    /** `cancel_order`: only the owner may remove an order; balances are not touched. */
    method CancelOrder(caller: Principal, id: U64) returns (r: string)
      requires Valid()
      modifies this`orders
      ensures Valid()
      ensures id !in old(orders) ==> r == "no found" && orders == old(orders)
      ensures id in old(orders) && old(orders)[id].owner != caller ==> r == "not owner" && orders == old(orders)
      ensures id in old(orders) && old(orders)[id].owner == caller ==> r == "ok" && orders == old(orders) - {id}
    {
      if id in orders {
        if orders[id].owner != caller {
          return "not owner";
        }
        orders := orders - {id};
        r := "ok";
      } else {
        r := "no found";
      }
    }

    /**
     * The book half of `process_trade`: decrements `a.from_amount`, reads
     * `b` and decrements its `to_amount` (a trap when `b` asks for less than
     * `amount` leaves the book as it was), then removes the orders whose
     * decremented leg reached 0.  Returns `b` as it was read.
     */
    method UpdateOrders(aId: nat, bId: nat, amount: U128) returns (ok: bool, b: OrderState)
      requires Valid() && aId in orders && bId in orders && 0 < amount <= orders[aId].fromAmount
      modifies this`orders
      ensures Valid()
      ensures b == Counter(TradedLegsOnly, old(orders), aId, bId, amount)
      ensures ok <==> TradeBook(TradedLegsOnly, old(orders), aId, bId, amount).Returns?
      ensures ok ==> orders == TradeBook(TradedLegsOnly, old(orders), aId, bId, amount).value
      ensures !ok ==> orders == old(orders)
    {
      // The book is updated on a working copy that is stored back once the
      // update can no longer trap (the rollback of a trap, made explicit).
      var book: Orders := orders;
      var a := book[aId];
      var a' := a.(fromAmount := a.fromAmount - amount);
      book := book[aId := a'];
      b := book[bId];
      if b.toAmount < amount {
        return false, b;
      }
      var b' := b.(toAmount := b.toAmount - amount);
      book := book[bId := b'];
      book := if a'.fromAmount == 0 then book - {aId} else book;
      book := if b'.toAmount == 0 then book - {bId} else book;
      assert TradeBook(TradedLegsOnly, old(orders), aId, bId, amount) == Returns(book);
      IdsIssuedSurvives(old(orders), book, nextId);
      orders := book;
      ok := true;
    }

    /**
     * `process_trade`.  The source interleaves the book updates with the
     * ledger moves; the two touch disjoint state and any trap rolls back
     * both, so updating the book first and then moving the balances has the
     * same outcome.
     */
    method ProcessTrade(aId: nat, bId: nat, amount: U128) returns (ok: bool)
      requires Valid() && aId in orders && bId in orders && 0 < amount <= orders[aId].fromAmount
      modifies this`orders, this`balances
      ensures Valid()
      ensures ok <==> Trade(TradedLegsOnly, old(orders), old(balances), aId, bId, amount).Returns?
      ensures ok ==> Trade(TradedLegsOnly, old(orders), old(balances), aId, bId, amount) == Returns((orders, balances))
      ensures !ok ==> orders == old(orders) && balances == old(balances)
    {
      var savedOrders := orders;
      var a := orders[aId];
      var reverse := ReverseAmount(amount, a);
      var updated, b := UpdateOrders(aId, bId, amount);
      if !updated {
        return false;
      }
      var moved := MoveBalances(balances, a, b, amount, reverse);
      if moved.Traps? {
        orders := savedOrders;
        return false;
      }
      balances := moved.value;
      ok := true;
    }

    /**
     * One round of the second loop of `resolve_order`: trade with
     * counter-order `m` when both orders are still in the book and
     * `min(a.from_amount, b.to_amount)` is positive.  `ok` is false when the
     * trade traps, and then nothing has changed.  `rest` stands for the
     * counter-orders still to come after `m`.
     */
    method SettleNext(id: nat, m: nat, ghost rest: seq<nat>) returns (ok: bool)
      requires Valid()
      modifies this`orders, this`balances
      ensures Valid()
      ensures ok ==> Settle(TradedLegsOnly, old(orders), old(balances), id, [m] + rest) == Settle(TradedLegsOnly, orders, balances, id, rest)
      ensures !ok ==> Settle(TradedLegsOnly, old(orders), old(balances), id, [m] + rest).Traps?
      ensures !ok ==> orders == old(orders) && balances == old(balances)
    {
      ghost var ms := [m] + rest;
      assert ms[0] == m && ms[1..] == rest;
      var amount: U128 := 0;
      if id in orders && m in orders {
        amount := Min(orders[id].fromAmount, orders[m].toAmount);
      }
      if amount > 0 {
        ok := ProcessTrade(id, m, amount);
        if ok {
          SettleTrades(TradedLegsOnly, old(orders), old(balances), id, ms, orders, balances);
        } else {
          SettleTrapsAt(TradedLegsOnly, old(orders), old(balances), id, ms);
        }
      } else {
        SettleSkips(TradedLegsOnly, orders, balances, id, ms);
        ok := true;
      }
    }

    /**
     * The second loop of `resolve_order`: for each collected counter-order in
     * turn, one round of `SettleNext`.  `ok` is false when a trade traps, and
     * then nothing has changed.
     */
    method SettleMatches(id: nat, pairs: seq<nat>) returns (ok: bool)
      requires Valid()
      modifies this`orders, this`balances
      ensures Valid()
      ensures ok <==> Settle(TradedLegsOnly, old(orders), old(balances), id, pairs).Returns?
      ensures ok ==> (orders, balances) == Settle(TradedLegsOnly, old(orders), old(balances), id, pairs).value
      ensures !ok ==> orders == old(orders) && balances == old(balances)
    {
      var savedOrders, savedBalances := orders, balances;
      ghost var goal := Settle(TradedLegsOnly, orders, balances, id, pairs);
      var i := 0;
      while i < |pairs|
        invariant 0 <= i <= |pairs|
        invariant Valid()
        invariant Settle(TradedLegsOnly, orders, balances, id, pairs[i..]) == goal
      {
        assert pairs[i..] == [pairs[i]] + pairs[i + 1..];
        var traded := SettleNext(id, pairs[i], pairs[i + 1..]);
        if !traded {
          orders, balances := savedOrders, savedBalances;
          return false;
        }
        i := i + 1;
      }
      ok := true;
    }

    /**
     * `resolve_order`: collect the counter-orders of order `id` (in the
     * book's unspecified order), then trade with each in turn.  `ok` is
     * false when the message traps, and then nothing has changed.
     */
    method ResolveOrder(id: nat) returns (ok: bool, ghost matches: seq<nat>)
      requires Valid() && id in orders
      modifies this`orders, this`balances
      ensures Valid()
      ensures ScanTraps(old(orders), id) ==> !ok
      ensures !ScanTraps(old(orders), id) ==> MatchList(old(orders), id, matches)
      ensures !ScanTraps(old(orders), id) ==> (ok <==> Settle(TradedLegsOnly, old(orders), old(balances), id, matches).Returns?)
      ensures ok ==> (orders, balances) == Settle(TradedLegsOnly, old(orders), old(balances), id, matches).value
      ensures !ok ==> orders == old(orders) && balances == old(balances)
      ensures forall t :: Total(balances, t) == Total(old(balances), t)
    {
      matches := [];
      var found := CollectMatches(orders, id);
      if found.Traps? {
        return false, matches;
      }
      var pairs := found.value;
      matches := pairs;
      ghost var savedOrders, savedBalances := orders, balances;
      ok := SettleMatches(id, pairs);
      if ok {
        SettleConserves(TradedLegsOnly, savedOrders, savedBalances, id, matches);
      }
    }

    /** The tail of `place_order`: inserts the new order under its id and runs `resolve_order` on it. */
    method Submit(order: OrderState) returns (ok: bool, ghost matches: seq<nat>)
      requires Valid() && 0 < order.id == nextId && nextId !in orders
      modifies this`orders, this`balances
      ensures Valid()
      ensures forall t :: Total(balances, t) == Total(old(balances), t)
      ensures var book := old(orders)[order.id := order];
              && (ok <==> !ScanTraps(book, order.id) && Settle(TradedLegsOnly, book, old(balances), order.id, matches).Returns?)
              && (!ScanTraps(book, order.id) ==> MatchList(book, order.id, matches))
              && (ok ==> (orders, balances) == Settle(TradedLegsOnly, book, old(balances), order.id, matches).value)
      ensures !ok ==> orders == old(orders) && balances == old(balances)
    {
      var savedOrders := orders;
      orders := orders[order.id := order];
      ok, matches := ResolveOrder(order.id);
      if !ok {
        orders := savedOrders;
      }
    }

    /**
     * The tail of `place_order`: converts `to_amount` (a trap when it does
     * not fit `u128`), inserts the order under the id just allocated and runs
     * `resolve_order`.
     */
    method Admit(caller: Principal, fromToken: Principal, from: U128, toToken: Principal, toAmount: nat)
      returns (ok: bool, ghost matches: seq<nat>)
      requires Valid() && 0 < nextId && nextId !in orders
      modifies this`orders, this`balances
      ensures Valid()
      ensures forall t :: Total(balances, t) == Total(old(balances), t)
      ensures toAmount >= U128_LIMIT ==> !ok
      ensures toAmount < U128_LIMIT ==>
              var book := old(orders)[nextId := OrderState(nextId, caller, fromToken, from, toToken, toAmount)];
              && (!ScanTraps(book, nextId) ==> MatchList(book, nextId, matches))
              && (ok <==> !ScanTraps(book, nextId) && Settle(TradedLegsOnly, book, old(balances), nextId, matches).Returns?)
              && (ok ==> (orders, balances) == Settle(TradedLegsOnly, book, old(balances), nextId, matches).value)
      ensures !ok ==> orders == old(orders) && balances == old(balances)
    {
      matches := [];
      var to := NatToU128(toAmount);
      if to.Traps? {
        return false, matches;
      }
      ok, matches := Submit(OrderState(nextId, caller, fromToken, from, toToken, to.value));
    }

    /**
     * `place_order`: allocates an id first (so a refusal still uses one up),
     * refuses an order the caller's balance does not cover, inserts it and
     * runs `resolve_order`.
     */
    method PlaceOrder(caller: Principal, fromToken: Principal, fromAmount: nat, toToken: Principal, toAmount: nat)
      returns (r: Outcome<string>, ghost matches: seq<nat>)
      requires Valid()
      modifies this`nextId, this`orders, this`balances
      ensures Valid()
      ensures forall t :: Total(balances, t) == Total(old(balances), t)
      ensures r.Traps? ==> nextId == old(nextId) && orders == old(orders) && balances == old(balances)
      ensures r.Returns? ==> r.value == "ok" || r.value == "not enough from tokens"
      ensures old(nextId) + 1 >= U64_LIMIT || fromAmount >= U128_LIMIT ==> r.Traps?
      ensures old(nextId) + 1 < U64_LIMIT && fromAmount < U128_LIMIT
              && !(caller in old(balances) && fromToken in old(balances)[caller] && fromAmount <= old(balances)[caller][fromToken])
              ==> r == Returns("not enough from tokens") && nextId == old(nextId) + 1
                  && orders == old(orders) && balances == old(balances)
      ensures old(nextId) + 1 < U64_LIMIT && fromAmount < U128_LIMIT
              && caller in old(balances) && fromToken in old(balances)[caller]
              && fromAmount <= old(balances)[caller][fromToken] && toAmount >= U128_LIMIT
              ==> r.Traps?
      ensures r == Returns("ok") ==> nextId == old(nextId) + 1
      ensures old(nextId) + 1 < U64_LIMIT && fromAmount < U128_LIMIT && toAmount < U128_LIMIT
              && caller in old(balances) && fromToken in old(balances)[caller]
              && fromAmount <= old(balances)[caller][fromToken]
              ==> var id := old(nextId) + 1;
                  var book := old(orders)[id := OrderState(id, caller, fromToken, fromAmount, toToken, toAmount)];
                  && id !in old(orders)
                  && (!ScanTraps(book, id) ==> MatchList(book, id, matches))
                  && (r == Returns("ok") <==> !ScanTraps(book, id) && Settle(TradedLegsOnly, book, old(balances), id, matches).Returns?)
                  && (r == Returns("ok") ==> (orders, balances) == Settle(TradedLegsOnly, book, old(balances), id, matches).value)
    {
      var savedId := nextId;
      matches := [];
      var issued := NextId();
      if issued.Traps? {
        return Traps, matches;
      }
      var from := NatToU128(fromAmount);
      if from.Traps? {
        nextId := savedId;
        return Traps, matches;
      }
      var balance := GetBalance(caller, fromToken);
      if balance.Some? {
        if balance.value.amount < from.value {
          return Returns("not enough from tokens"), matches;
        }
      } else {
        return Returns("not enough from tokens"), matches;
      }
      var admitted;
      admitted, matches := Admit(caller, fromToken, from.value, toToken, toAmount);
      if !admitted {
        nextId := savedId;
        return Traps, matches;
      }
      r := Returns("ok");
    }
  }

  /** From `State::default`, `next_id` hands out 1, 2, 3, ... */
  method FirstIds() returns (first: Outcome<U64>, second: Outcome<U64>, third: Outcome<U64>)
    ensures first == Returns(1) && second == Returns(2) && third == Returns(3)
  {
    var s := new State();
    first := s.NextId();
    second := s.NextId();
    third := s.NextId();
  }
}
