/**
 * What `process_trade` does to the book and the ledger, and the pass of
 * `resolve_order` that trades with each collected counter-order.  The two
 * canisters run the same code here except for which legs of the two orders
 * a trade decrements.
 */
module Trading {
  import opened Primitives
  import opened Ledger
  import opened OrderBook
  import opened Matching

  /**
   * The legs `process_trade` decrements.  `defi` takes the volume off
   * `a.from_amount` and `b.to_amount` only; `defi_dapp` also takes the
   * counter amount off `a.to_amount` and `b.from_amount`.
   */
  datatype LegUpdate = TradedLegsOnly | AllFourLegs

  /** The counter amount a trade takes off the legs it does not trade by volume. */
  function CounterLeg(legs: LegUpdate, amount: U128, a: OrderState): (r: U128)
    requires 0 < amount <= a.fromAmount
    ensures legs == TradedLegsOnly ==> r == 0
    ensures legs == AllFourLegs ==> r == ReverseAmount(amount, a)
  {
    if legs == AllFourLegs then ReverseAmount(amount, a) else 0
  }

  /** `b` as `process_trade` reads it: after `a` has been decremented. */
  function Counter(legs: LegUpdate, orders: Orders, aId: nat, bId: nat, amount: U128): (b: OrderState)
    requires aId in orders && bId in orders && 0 < amount <= orders[aId].fromAmount
    ensures bId != aId ==> b == orders[bId]
    ensures bId == aId ==>
      var a := orders[aId];
      b == a.(fromAmount := a.fromAmount - amount, toAmount := a.toAmount - CounterLeg(legs, amount, a))
  {
    var a := orders[aId];
    orders[aId := a.(fromAmount := a.fromAmount - amount, toAmount := a.toAmount - CounterLeg(legs, amount, a))][bId]
  }

  /**
   * The book half of `process_trade`: decrement `a`, read `b` and decrement
   * it (its `to_amount -= amount`, and in `defi_dapp` its
   * `from_amount -= reverse`, trap on underflow), then remove `a` when its
   * `from_amount` reached 0 and `b` when its `to_amount` reached 0.
   */
  function TradeBook(legs: LegUpdate, orders: Orders, aId: nat, bId: nat, amount: U128): (r: Outcome<Orders>)
    requires aId in orders && bId in orders && 0 < amount <= orders[aId].fromAmount
    ensures r.Traps? <==>
      var b := Counter(legs, orders, aId, bId, amount);
      b.toAmount < amount || b.fromAmount < CounterLeg(legs, amount, orders[aId])
    ensures r.Returns? ==> Survives(orders, r.value)
  {
    var a := orders[aId];
    var reverse := CounterLeg(legs, amount, a);
    var a' := a.(fromAmount := a.fromAmount - amount, toAmount := a.toAmount - reverse);
    var orders1: Orders := orders[aId := a'];
    var b := orders1[bId];
    if b.toAmount < amount || b.fromAmount < reverse then Traps
    else
      var b' := b.(toAmount := b.toAmount - amount, fromAmount := b.fromAmount - reverse);
      var orders2: Orders := orders1[bId := b'];
      var orders3: Orders := if a'.fromAmount == 0 then orders2 - {aId} else orders2;
      var orders4: Orders := if b'.toAmount == 0 then orders3 - {bId} else orders3;
      SurvivesAmend(orders, aId, a');
      SurvivesAmend(orders1, bId, b');
      SurvivesTransitive(orders, orders1, orders2);
      assert Survives(orders2, orders3) && Survives(orders3, orders4);
      SurvivesTransitive(orders, orders2, orders3);
      SurvivesTransitive(orders, orders3, orders4);
      Returns(orders4)
  }

  /**
   * The ledger half of `process_trade`: the four moves of `SettleBalances`
   * with the counter amount `amount * a.to_amount / a.from_amount`.
   */
  function TradeLedger(legs: LegUpdate, orders: Orders, balances: Balances, aId: nat, bId: nat, amount: U128): (r: Outcome<Balances>)
    requires aId in orders && bId in orders && 0 < amount <= orders[aId].fromAmount
    ensures r.Returns? ==> r.value.Keys == balances.Keys
  {
    var a := orders[aId];
    SettleBalances(balances, a, Counter(legs, orders, aId, bId, amount), amount, ReverseAmount(amount, a))
  }

  /**
   * The effect of `process_trade` on the book and the ledger: both halves,
   * and a trap in either undoes both.
   */
  function Trade(legs: LegUpdate, orders: Orders, balances: Balances, aId: nat, bId: nat, amount: U128): (r: Outcome<(Orders, Balances)>)
    requires aId in orders && bId in orders && 0 < amount <= orders[aId].fromAmount
    ensures r.Returns? <==> TradeBook(legs, orders, aId, bId, amount).Returns? && TradeLedger(legs, orders, balances, aId, bId, amount).Returns?
    ensures r.Returns? ==> Survives(orders, r.value.0)
  {
    match TradeBook(legs, orders, aId, bId, amount)
    case Traps => Traps
    case Returns(book) =>
      match TradeLedger(legs, orders, balances, aId, bId, amount)
      case Traps => Traps
      case Returns(balances') => Returns((book, balances'))
  }

  /**
   * Between two distinct orders a trade takes `amount` off `a`'s from-leg and
   * `b`'s to-leg (and, in `defi_dapp`, the counter amount off their other
   * legs), removes exactly the orders whose from-leg (`a`) or to-leg (`b`)
   * reached 0, and touches no other order.  In `defi_dapp` it traps when `b`
   * offers less than the counter amount.
   */
  lemma TradeLegs(legs: LegUpdate, orders: Orders, aId: nat, bId: nat, amount: U128)
    requires aId in orders && bId in orders && aId != bId && 0 < amount <= orders[aId].fromAmount
    ensures var a := orders[aId];
            var b := orders[bId];
            var reverse := CounterLeg(legs, amount, a);
            TradeBook(legs, orders, aId, bId, amount).Traps? <==> b.toAmount < amount || b.fromAmount < reverse
    ensures TradeBook(legs, orders, aId, bId, amount).Returns? ==>
            var o' := TradeBook(legs, orders, aId, bId, amount).value;
            var a := orders[aId];
            var b := orders[bId];
            var reverse := CounterLeg(legs, amount, a);
            && (aId in o' <==> amount < a.fromAmount)
            && (aId in o' ==> o'[aId] == a.(fromAmount := a.fromAmount - amount, toAmount := a.toAmount - reverse))
            && (bId in o' <==> amount < b.toAmount)
            && (bId in o' ==> o'[bId] == b.(toAmount := b.toAmount - amount, fromAmount := b.fromAmount - reverse))
            && (forall k :: k in orders && k != aId && k != bId ==> k in o' && o'[k] == orders[k])
  {
  }

  /**
   * The scan includes `a` itself, so an order that swaps a token for itself
   * can trade with itself.  Such a trade moves `amount` and the counter
   * amount out of and back into the owner's one entry, so every balance ends
   * as it started, and it decrements the order's two legs one after the
   * other; the order is removed when either decrement reaches 0.
   */
  lemma SelfTrade(legs: LegUpdate, orders: Orders, balances: Balances, id: nat, amount: U128)
    requires id in orders && 0 < amount <= orders[id].fromAmount
    requires orders[id].fromToken == orders[id].toToken
    requires Trade(legs, orders, balances, id, id, amount).Returns?
    ensures var r := Trade(legs, orders, balances, id, id, amount).value;
            forall o, t :: BalanceOf(r.1, o, t) == BalanceOf(balances, o, t)
    ensures var o' := Trade(legs, orders, balances, id, id, amount).value.0;
            var a := orders[id];
            var reverse := CounterLeg(legs, amount, a);
            && (id in o' <==> amount < a.fromAmount && amount + reverse < a.toAmount)
            && (id in o' ==> o'[id] == a.(fromAmount := a.fromAmount - amount - reverse, toAmount := a.toAmount - reverse - amount))
            && (forall k :: k in orders && k != id ==> k in o' && o'[k] == orders[k])
  {
    var a := orders[id];
    var c := Counter(legs, orders, id, id, amount);
    SettleBalancesMoves(balances, a, c, amount, ReverseAmount(amount, a));
  }

  lemma SquareDiv(n: nat)
    requires n > 0
    ensures (n * n) / n == n
  {
    var q := (n * n) / n;
    assert q * n + (n * n) % n == n * n;
    if q < n {
      MulLe(q + 1, n, n);
    } else if q > n {
      MulLe(n + 1, q, n);
    }
  }

  /**
   * In `defi_dapp` an order that offers a token for the same amount of
   * itself matches itself, and the trade with itself always traps: after
   * `a.to_amount -= reverse` nothing is left for `b.to_amount -= amount`.
   */
  lemma DappSelfTradeTraps(orders: Orders, balances: Balances, id: nat)
    requires id in orders && 0 < orders[id].fromAmount == orders[id].toAmount
    requires orders[id].fromToken == orders[id].toToken
    ensures IsMatch(orders[id], orders[id])
    ensures TradeAmount(orders, id, id) == orders[id].fromAmount
    ensures Trade(AllFourLegs, orders, balances, id, id, TradeAmount(orders, id, id)).Traps?
  {
    var a := orders[id];
    var n := a.fromAmount;
    SquareDiv(n);
    assert n / n == 1;
    assert Counter(AllFourLegs, orders, id, id, n).toAmount == 0;
    assert TradeBook(AllFourLegs, orders, id, id, n).Traps?;
  }

  /**
   * A trade's ledger effect is the four moves of `SettleBalances` with the
   * counter amount `amount * a.to_amount / a.from_amount`; for a swapped pair
   * it keeps the ledger's total of every token.
   */
  lemma TradeConserves(legs: LegUpdate, orders: Orders, balances: Balances, aId: nat, bId: nat, amount: U128)
    requires aId in orders && bId in orders && 0 < amount <= orders[aId].fromAmount
    requires Swapped(orders[aId], orders[bId])
    requires Trade(legs, orders, balances, aId, bId, amount).Returns?
    ensures Trade(legs, orders, balances, aId, bId, amount).value.1
         == SettleBalances(balances, orders[aId], orders[bId], amount, ReverseAmount(amount, orders[aId])).value
    ensures forall t :: Total(Trade(legs, orders, balances, aId, bId, amount).value.1, t) == Total(balances, t)
  {
    var a := orders[aId];
    var b := Counter(legs, orders, aId, bId, amount);
    assert SettleBalances(balances, a, b, amount, ReverseAmount(amount, a))
        == SettleBalances(balances, orders[aId], orders[bId], amount, ReverseAmount(amount, orders[aId]));
    forall t
      ensures Total(Trade(legs, orders, balances, aId, bId, amount).value.1, t) == Total(balances, t)
    {
      SettleBalancesConserves(balances, a, b, amount, ReverseAmount(amount, a), t);
    }
  }

  /**
   * The second half of `resolve_order`: for each collected counter-order in
   * turn, trade `min(a.from_amount, b.to_amount)` if both orders are still in
   * the book and that volume is positive.  A trap in any trade traps the whole
   * pass.
   */
  function Settle(legs: LegUpdate, orders: Orders, balances: Balances, id: nat, matches: seq<nat>): (r: Outcome<(Orders, Balances)>)
    ensures r.Returns? ==> Survives(orders, r.value.0)
    decreases |matches|
  {
    if matches == [] then Returns((orders, balances))
    else
      var amount := TradeAmount(orders, id, matches[0]);
      if amount > 0 then
        match Trade(legs, orders, balances, id, matches[0], amount)
        case Traps => Traps
        case Returns(next) =>
          var r := Settle(legs, next.0, next.1, id, matches[1..]);
          if r.Returns? then SurvivesTransitive(orders, next.0, r.value.0); r else r
      else
        Settle(legs, orders, balances, id, matches[1..])
  }

  /** One step of `Settle` when the first pair trades. */
  lemma SettleTrades(legs: LegUpdate, orders: Orders, balances: Balances, id: nat, matches: seq<nat>, orders': Orders, balances': Balances)
    requires matches != [] && TradeAmount(orders, id, matches[0]) > 0
    requires Trade(legs, orders, balances, id, matches[0], TradeAmount(orders, id, matches[0])) == Returns((orders', balances'))
    ensures Settle(legs, orders, balances, id, matches) == Settle(legs, orders', balances', id, matches[1..])
  {
  }

  /** One step of `Settle` when the first pair's trade traps. */
  lemma SettleTrapsAt(legs: LegUpdate, orders: Orders, balances: Balances, id: nat, matches: seq<nat>)
    requires matches != [] && TradeAmount(orders, id, matches[0]) > 0
    requires Trade(legs, orders, balances, id, matches[0], TradeAmount(orders, id, matches[0])).Traps?
    ensures Settle(legs, orders, balances, id, matches).Traps?
  {
  }

  /** One step of `Settle` when the first pair has nothing to trade. */
  lemma SettleSkips(legs: LegUpdate, orders: Orders, balances: Balances, id: nat, matches: seq<nat>)
    requires matches != [] && TradeAmount(orders, id, matches[0]) == 0
    ensures Settle(legs, orders, balances, id, matches) == Settle(legs, orders, balances, id, matches[1..])
  {
  }

  /** A pass over counter-orders that all swap tokens with order `id` keeps the total of every token. */
  lemma {:induction false} SettleConserves(legs: LegUpdate, orders: Orders, balances: Balances, id: nat, matches: seq<nat>)
    requires forall m :: m in matches && id in orders && m in orders ==> Swapped(orders[id], orders[m])
    requires Settle(legs, orders, balances, id, matches).Returns?
    ensures forall t :: Total(Settle(legs, orders, balances, id, matches).value.1, t) == Total(balances, t)
    decreases |matches|
  {
    if matches != [] {
      var amount := TradeAmount(orders, id, matches[0]);
      if amount > 0 {
        TradeConserves(legs, orders, balances, id, matches[0], amount);
        var next := Trade(legs, orders, balances, id, matches[0], amount).value;
        SettleConserves(legs, next.0, next.1, id, matches[1..]);
      } else {
        SettleConserves(legs, orders, balances, id, matches[1..]);
      }
    }
  }
}
