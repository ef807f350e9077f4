/**
 * The `defi_dapp` canister (rust/defi/src/defi_dapp/lib.rs): its `State`, the
 * operations of `impl State` and `withdraw`.  It keeps the ledger and the book
 * of `defi`, trades with all four legs decremented, and answers with typed
 * receipts.  The caller's identity, which the canister reads from `caller()`,
 * is an explicit parameter.
 */
module DefiDapp {
  import opened Primitives
  import opened Ledger
  import opened OrderBook
  import opened Matching
  import opened Trading

  datatype CancelOrderErr = NotAllowed | NotExistingOrder
  datatype CancelOrderReceipt = Cancelled(id: U64) | CancelRefused(cancelErr: CancelOrderErr)

  datatype DepositErr = DepositBalanceLow | DepositTransferFailure
  datatype DepositReceipt = Deposited(amount: nat) | DepositRefused(depositErr: DepositErr)

  datatype OrderPlacementErr = InvalidOrder | OrderBookFull
  datatype OrderPlacementReceipt = Placed(order: OrderState) | PlacementRefused(placementErr: OrderPlacementErr)

  datatype WithdrawErr = WithdrawBalanceLow | WithdrawTransferFailure
  datatype WithdrawReceipt = Withdrawn(amount: nat) | WithdrawRefused(withdrawErr: WithdrawErr)

  /** The fixed amount `deposit` credits. */
  const DEPOSIT_AMOUNT: U128 := 10

  /** `withdraw`: not implemented; every request fails with `TransferFailure` and reads no state. */
  function Withdraw(token: Principal, amount: nat): (r: WithdrawReceipt)
    ensures r.WithdrawRefused? && r.withdrawErr == WithdrawTransferFailure
  {
    WithdrawRefused(WithdrawTransferFailure)
  }

  /** The canister's `State`: the owner recorded by `init`, the id counter, the ledger and the book. */
  class State {
    var owner: Option<Principal>
    var nextId: U64
    var balances: Balances
    var orders: Orders

    ghost predicate Valid()
      reads this
    {
      IdsIssued(orders, nextId)
    }

    /** `State::default`: no owner, counter 0, empty ledger, empty book. */
    constructor ()
      ensures Valid()
      ensures owner == None && nextId == 0 && balances == map[] && orders == map[]
    {
      owner := None;
      nextId := 0;
      balances := map[];
      orders := map[];
    }

    /** `get_balance`: the caller's entry for `token`, or 0 when the caller or the entry is absent. */
    function GetBalance(caller: Principal, token: Principal): (r: nat)
      reads this
      ensures caller in balances && token in balances[caller] ==> r == balances[caller][token]
      ensures !(caller in balances && token in balances[caller]) ==> r == 0
      ensures r < U128_LIMIT
    {
      BalanceOf(balances, caller, token)
    }

    /**
     * `deposit`: gives the caller an empty map when it has none and adds 10
     * to its entry for `token`; the `+=` traps when the entry would leave
     * `u128`, and the trap also undoes the new map.
     */
    method Deposit(caller: Principal, token: Principal) returns (r: Outcome<DepositReceipt>)
      requires Valid()
      modifies this`balances
      ensures Valid()
      ensures r.Returns? <==> CreditCreatingOwner(old(balances), caller, token, DEPOSIT_AMOUNT).Returns?
      ensures r.Returns? ==> r.value == Deposited(DEPOSIT_AMOUNT)
      ensures r.Returns? ==> balances == CreditCreatingOwner(old(balances), caller, token, DEPOSIT_AMOUNT).value
      ensures r.Traps? ==> balances == old(balances)
    {
      var amount := DEPOSIT_AMOUNT;
      var saved := balances;
      if caller !in balances {
        balances := balances[caller := map[]];
      }
      var credited := CreditOwner(balances, caller, token, amount);
      if credited.Traps? {
        balances := saved;
        return Traps;
      }
      balances := credited.value;
      r := Returns(Deposited(amount));
    }

    /** `get_order`. */
    function GetOrder(id: U64): (r: Option<OrderState>)
      requires Valid()
      reads this
      ensures r.Some? <==> id in orders
      ensures r.Some? ==> r.value == orders[id] && r.value.id == id
    {
      if id in orders then Some(orders[id]) else None
    }

    /** `get_all_orders`: every order of the book, each once. */
    method GetAllOrders() returns (r: seq<OrderState>)
      requires Valid()
      ensures forall o :: o in r <==> o in orders.Values
      ensures forall i, j :: 0 <= i < j < |r| ==> r[i].id != r[j].id
    {
      r := Select(orders, o => true);
    }

    /** `next_id`: pre-increments the `u64` counter and returns it; the `+=` traps at the top of the range. */
    method NextId() returns (r: Outcome<U64>)
      requires Valid()
      modifies this`nextId
      ensures Valid()
      ensures old(nextId) + 1 < U64_LIMIT ==> r == Returns(old(nextId) + 1) && nextId == old(nextId) + 1
      ensures old(nextId) + 1 >= U64_LIMIT ==> r == Traps && nextId == old(nextId)
    {
      if nextId + 1 >= U64_LIMIT {
        return Traps;
      }
      nextId := nextId + 1;
      r := Returns(nextId);
    }

    /**
     * `cancel_order` as written: the owner check is inverted, so the owner
     * is refused and anyone else removes the order.
     */
    method CancelOrder(caller: Principal, id: U64) returns (r: CancelOrderReceipt)
      requires Valid()
      modifies this`orders
      ensures Valid()
      ensures id !in old(orders) ==> r == CancelRefused(NotExistingOrder) && orders == old(orders)
      ensures id in old(orders) && old(orders)[id].owner == caller ==> r == CancelRefused(NotAllowed) && orders == old(orders)
      ensures id in old(orders) && old(orders)[id].owner != caller ==> r == Cancelled(id) && orders == old(orders) - {id}
    {
      if id in orders {
        if orders[id].owner == caller {
          r := CancelRefused(NotAllowed);
        } else {
          orders := orders - {id};
          r := Cancelled(id);
        }
      } else {
        r := CancelRefused(NotExistingOrder);
      }
    }

    /** `cancel_order` with the owner check the right way round: only the owner removes an order. */
    method CancelOrderAsIntended(caller: Principal, id: U64) returns (r: CancelOrderReceipt)
      requires Valid()
      modifies this`orders
      ensures Valid()
      ensures id !in old(orders) ==> r == CancelRefused(NotExistingOrder) && orders == old(orders)
      ensures id in old(orders) && old(orders)[id].owner != caller ==> r == CancelRefused(NotAllowed) && orders == old(orders)
      ensures id in old(orders) && old(orders)[id].owner == caller ==> r == Cancelled(id) && orders == old(orders) - {id}
    {
      if id in orders {
        if orders[id].owner != caller {
          r := CancelRefused(NotAllowed);
        } else {
          orders := orders - {id};
          r := Cancelled(id);
        }
      } else {
        r := CancelRefused(NotExistingOrder);
      }
    }

    /**
     * The book half of `process_trade`: decrements `a.from_amount` by the
     * volume and `a.to_amount` by the counter amount, reads `b` and
     * decrements its `to_amount` by the volume and its `from_amount` by the
     * counter amount (either `-=` traps on underflow, leaving the book as it
     * was), then removes `a` when its `from_amount` reached 0 and `b` when
     * its `to_amount` reached 0.  Returns `b` as it was read.
     */
    method UpdateOrders(aId: nat, bId: nat, amount: U128) returns (ok: bool, b: OrderState)
      requires Valid() && aId in orders && bId in orders && 0 < amount <= orders[aId].fromAmount
      modifies this`orders
      ensures Valid()
      ensures b == Counter(AllFourLegs, old(orders), aId, bId, amount)
      ensures ok <==> TradeBook(AllFourLegs, old(orders), aId, bId, amount).Returns?
      ensures ok ==> orders == TradeBook(AllFourLegs, old(orders), aId, bId, amount).value
      ensures !ok ==> orders == old(orders)
    {
      // The book is updated on a working copy that is stored back once the
      // update can no longer trap (the rollback of a trap, made explicit).
      var book: Orders := orders;
      var a := book[aId];
      var reverse := ReverseAmount(amount, a);
      var a' := a.(fromAmount := a.fromAmount - amount, toAmount := a.toAmount - reverse);
      book := book[aId := a'];
      b := book[bId];
      if b.toAmount < amount {
        return false, b;
      }
      if b.fromAmount < reverse {
        return false, b;
      }
      var b' := b.(toAmount := b.toAmount - amount, fromAmount := b.fromAmount - reverse);
      book := book[bId := b'];
      book := if a'.fromAmount == 0 then book - {aId} else book;
      book := if b'.toAmount == 0 then book - {bId} else book;
      assert TradeBook(AllFourLegs, old(orders), aId, bId, amount) == Returns(book);
      IdsIssuedSurvives(old(orders), book, nextId);
      orders := book;
      ok := true;
    }

    /**
     * `process_trade`.  The source interleaves the book updates with the
     * ledger moves; the two touch disjoint state and any trap rolls back
     * both, so updating the book first and then moving the balances has the
     * same outcome.
     */
    method ProcessTrade(aId: nat, bId: nat, amount: U128) returns (ok: bool)
      requires Valid() && aId in orders && bId in orders && 0 < amount <= orders[aId].fromAmount
      modifies this`orders, this`balances
      ensures Valid()
      ensures ok <==> Trade(AllFourLegs, old(orders), old(balances), aId, bId, amount).Returns?
      ensures ok ==> Trade(AllFourLegs, old(orders), old(balances), aId, bId, amount) == Returns((orders, balances))
      ensures !ok ==> orders == old(orders) && balances == old(balances)
    {
      var savedOrders := orders;
      var a := orders[aId];
      var reverse := ReverseAmount(amount, a);
      var updated, b := UpdateOrders(aId, bId, amount);
      if !updated {
        return false;
      }
      var moved := MoveBalances(balances, a, b, amount, reverse);
      if moved.Traps? {
        orders := savedOrders;
        return false;
      }
      balances := moved.value;
      ok := true;
    }

    /**
     * One round of the second loop of `resolve_order`: trade with
     * counter-order `m` when both orders are still in the book and
     * `min(a.from_amount, b.to_amount)` is positive.  `ok` is false when the
     * trade traps, and then nothing has changed.  `rest` stands for the
     * counter-orders still to come after `m`.
     */
    method SettleNext(id: nat, m: nat, ghost rest: seq<nat>) returns (ok: bool)
      requires Valid()
      modifies this`orders, this`balances
      ensures Valid()
      ensures ok ==> Settle(AllFourLegs, old(orders), old(balances), id, [m] + rest) == Settle(AllFourLegs, orders, balances, id, rest)
      ensures !ok ==> Settle(AllFourLegs, old(orders), old(balances), id, [m] + rest).Traps?
      ensures !ok ==> orders == old(orders) && balances == old(balances)
    {
      ghost var ms := [m] + rest;
      assert ms[0] == m && ms[1..] == rest;
      var amount: U128 := 0;
      if id in orders && m in orders {
        amount := Min(orders[id].fromAmount, orders[m].toAmount);
      }
      if amount > 0 {
        ok := ProcessTrade(id, m, amount);
        if ok {
          SettleTrades(AllFourLegs, old(orders), old(balances), id, ms, orders, balances);
        } else {
          SettleTrapsAt(AllFourLegs, old(orders), old(balances), id, ms);
        }
      } else {
        SettleSkips(AllFourLegs, orders, balances, id, ms);
        ok := true;
      }
    }

    /**
     * The second loop of `resolve_order`: for each collected counter-order in
     * turn, one round of `SettleNext`.  `ok` is false when a trade traps, and
     * then nothing has changed.
     */
    method SettleMatches(id: nat, pairs: seq<nat>) returns (ok: bool)
      requires Valid()
      modifies this`orders, this`balances
      ensures Valid()
      ensures ok <==> Settle(AllFourLegs, old(orders), old(balances), id, pairs).Returns?
      ensures ok ==> (orders, balances) == Settle(AllFourLegs, old(orders), old(balances), id, pairs).value
      ensures !ok ==> orders == old(orders) && balances == old(balances)
    {
      var savedOrders, savedBalances := orders, balances;
      ghost var goal := Settle(AllFourLegs, orders, balances, id, pairs);
      var i := 0;
      while i < |pairs|
        invariant 0 <= i <= |pairs|
        invariant Valid()
        invariant Settle(AllFourLegs, orders, balances, id, pairs[i..]) == goal
      {
        assert pairs[i..] == [pairs[i]] + pairs[i + 1..];
        var traded := SettleNext(id, pairs[i], pairs[i + 1..]);
        if !traded {
          orders, balances := savedOrders, savedBalances;
          return false;
        }
        i := i + 1;
      }
      ok := true;
    }

    /**
     * `resolve_order`: collect the counter-orders of order `id` (in the
     * book's unspecified order), then trade with each in turn.  `ok` is
     * false when the message traps, and then nothing has changed.
     */
    method ResolveOrder(id: nat) returns (ok: bool, ghost matches: seq<nat>)
      requires Valid() && id in orders
      modifies this`orders, this`balances
      ensures Valid()
      ensures ScanTraps(old(orders), id) ==> !ok
      ensures !ScanTraps(old(orders), id) ==> MatchList(old(orders), id, matches)
      ensures !ScanTraps(old(orders), id) ==> (ok <==> Settle(AllFourLegs, old(orders), old(balances), id, matches).Returns?)
      ensures ok ==> (orders, balances) == Settle(AllFourLegs, old(orders), old(balances), id, matches).value
      ensures !ok ==> orders == old(orders) && balances == old(balances)
      ensures forall t :: Total(balances, t) == Total(old(balances), t)
    {
      matches := [];
      var found := CollectMatches(orders, id);
      if found.Traps? {
        return false, matches;
      }
      var pairs := found.value;
      matches := pairs;
      ghost var savedOrders, savedBalances := orders, balances;
      ok := SettleMatches(id, pairs);
      if ok {
        SettleConserves(AllFourLegs, savedOrders, savedBalances, id, matches);
      }
    }

    /** The middle of `place_order`: inserts the new order under its id and runs `resolve_order` on it. */
    method Submit(order: OrderState) returns (ok: bool, ghost matches: seq<nat>)
      requires Valid() && 0 < order.id == nextId && nextId !in orders
      modifies this`orders, this`balances
      ensures Valid()
      ensures forall t :: Total(balances, t) == Total(old(balances), t)
      ensures var book := old(orders)[order.id := order];
              && (ok <==> !ScanTraps(book, order.id) && Settle(AllFourLegs, book, old(balances), order.id, matches).Returns?)
              && (!ScanTraps(book, order.id) ==> MatchList(book, order.id, matches))
              && (ok ==> (orders, balances) == Settle(AllFourLegs, book, old(balances), order.id, matches).value)
      ensures !ok ==> orders == old(orders) && balances == old(balances)
    {
      var savedOrders := orders;
      orders := orders[order.id := order];
      ok, matches := ResolveOrder(order.id);
      if !ok {
        orders := savedOrders;
      }
    }

    /**
     * The part of `place_order` after the id is allocated: converts
     * `to_amount` (a trap when it does not fit `u128`), inserts the order
     * under the new id, runs `resolve_order`, and traps unless the order is
     * still in the book afterwards (the final `unwrap`).
     */
    method Admit(caller: Principal, fromToken: Principal, from: U128, toToken: Principal, toAmount: nat)
      returns (ok: bool, ghost matches: seq<nat>)
      requires Valid() && 0 < nextId && nextId !in orders
      modifies this`orders, this`balances
      ensures Valid()
      ensures forall t :: Total(balances, t) == Total(old(balances), t)
      ensures toAmount >= U128_LIMIT ==> !ok
      ensures toAmount < U128_LIMIT ==>
              var book := old(orders)[nextId := OrderState(nextId, caller, fromToken, from, toToken, toAmount)];
              && (!ScanTraps(book, nextId) ==> MatchList(book, nextId, matches))
              && (ok <==> !ScanTraps(book, nextId)
                          && Settle(AllFourLegs, book, old(balances), nextId, matches).Returns?
                          && nextId in Settle(AllFourLegs, book, old(balances), nextId, matches).value.0)
              && (ok ==> (orders, balances) == Settle(AllFourLegs, book, old(balances), nextId, matches).value)
      ensures !ok ==> orders == old(orders) && balances == old(balances)
    {
      matches := [];
      var to := NatToU128(toAmount);
      if to.Traps? {
        return false, matches;
      }
      var savedOrders, savedBalances := orders, balances;
      ok, matches := Submit(OrderState(nextId, caller, fromToken, from, toToken, to.value));
      if ok && nextId !in orders {
        orders, balances := savedOrders, savedBalances;
        ok := false;
      }
    }

    /**
     * `place_order`: refuses an order the caller's balance does not cover
     * before touching anything, allocates an id, inserts the order, runs
     * `resolve_order` and returns the order as it then stands; when matching
     * removed it, the final `unwrap` traps and the whole message is undone.
     */
    method PlaceOrder(caller: Principal, fromToken: Principal, fromAmount: nat, toToken: Principal, toAmount: nat)
      returns (r: Outcome<OrderPlacementReceipt>, ghost matches: seq<nat>)
      requires Valid()
      modifies this`nextId, this`orders, this`balances
      ensures Valid()
      ensures forall t :: Total(balances, t) == Total(old(balances), t)
      ensures r.Traps? || r.value.PlacementRefused? ==> nextId == old(nextId) && orders == old(orders) && balances == old(balances)
      ensures r.Returns? && r.value.PlacementRefused? <==> BalanceOf(old(balances), caller, fromToken) < fromAmount
      ensures r.Returns? && r.value.PlacementRefused? ==> r.value.placementErr == InvalidOrder
      ensures fromAmount <= BalanceOf(old(balances), caller, fromToken) && (old(nextId) + 1 >= U64_LIMIT || toAmount >= U128_LIMIT)
              ==> r.Traps?
      ensures r.Returns? && r.value.Placed? ==> nextId == old(nextId) + 1 && nextId in orders && r.value.order == orders[nextId]
      ensures fromAmount <= BalanceOf(old(balances), caller, fromToken) && old(nextId) + 1 < U64_LIMIT && toAmount < U128_LIMIT
              ==> var id := old(nextId) + 1;
                  var book := old(orders)[id := OrderState(id, caller, fromToken, fromAmount, toToken, toAmount)];
                  && id !in old(orders)
                  && (!ScanTraps(book, id) ==> MatchList(book, id, matches))
                  && (r.Returns? <==> !ScanTraps(book, id)
                                      && Settle(AllFourLegs, book, old(balances), id, matches).Returns?
                                      && id in Settle(AllFourLegs, book, old(balances), id, matches).value.0)
                  && (r.Returns? ==> (orders, balances) == Settle(AllFourLegs, book, old(balances), id, matches).value)
    {
      matches := [];
      var balance := GetBalance(caller, fromToken);
      if balance < fromAmount {
        return Returns(PlacementRefused(InvalidOrder)), matches;
      }
      var savedId := nextId;
      var issued := NextId();
      if issued.Traps? {
        return Traps, matches;
      }
      var from := NatToU128(fromAmount);
      // The balance check bounds `from_amount` by a `u128`, so this conversion cannot trap.
      assert from.Returns?;
      var admitted;
      admitted, matches := Admit(caller, fromToken, from.value, toToken, toAmount);
      if !admitted {
        nextId := savedId;
        return Traps, matches;
      }
      r := Returns(Placed(orders[nextId]));
    }

    /**
     * `clear`: only the owner recorded by `init` may empty the book and the
     * ledger; the counter and the owner stay as they are.
     */
    method Clear(caller: Principal) returns (r: string)
      requires Valid()
      modifies this`orders, this`balances
      ensures Valid()
      ensures owner == None ==> r == "not initialized" && orders == old(orders) && balances == old(balances)
      ensures owner.Some? && owner.value != caller ==> r == "not authorized" && orders == old(orders) && balances == old(balances)
      ensures owner == Some(caller) ==> r == "ok" && orders == map[] && balances == map[]
    {
      if owner.Some? {
        if owner.value != caller {
          return "not authorized";
        }
      } else {
        return "not initialized";
      }
      orders := map[];
      balances := map[];
      r := "ok";
    }
  }

  /**
   * The inverted check of `cancel_order` on a concrete run from
   * `State::default`: the caller deposits, places an order that matches
   * nothing, and is then refused when cancelling it.
   */
  method OwnerCannotCancel(caller: Principal, x: Principal, y: Principal)
    returns (placed: Outcome<OrderPlacementReceipt>, cancelled: CancelOrderReceipt)
    requires x != y
    ensures placed.Returns? && placed.value.Placed?
    ensures placed.value.order == OrderState(1, caller, x, 5, y, 5)
    ensures cancelled == CancelRefused(NotAllowed)
  {
    var s := new State();
    var deposited := s.Deposit(caller, x);
    assert BalanceOf(s.balances, caller, x) == DEPOSIT_AMOUNT;
    ghost var funded := s.balances;
    ghost var matches;
    placed, matches := s.PlaceOrder(caller, x, 5, y, 5);
    ghost var order := OrderState(1, caller, x, 5, y, 5);
    ghost var book: Orders := map[1 := order];
    assert !ScanTraps(book, 1);
    assert MatchList(book, 1, matches);
    assert matches == [];
    assert Settle(AllFourLegs, book, funded, 1, []) == Returns((book, funded));
    cancelled := s.CancelOrder(caller, 1);
  }
}
