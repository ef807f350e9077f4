/**
 * The matching engine code that is the same in both canisters: the scan of
 * `resolve_order` that collects counter-orders, the trade volume, the
 * proportional counter amount of `process_trade` and the four balance moves
 * of a trade.
 */
module Matching {
  import opened Primitives
  import opened Ledger
  import opened OrderBook

  /** `b` offers what `a` wants and wants what `a` offers. */
  predicate Swapped(a: OrderState, b: OrderState)
  {
    a.fromToken == b.toToken && a.toToken == b.fromToken
  }

  /** The scan divides by `a.to_amount` and `b.from_amount` for a swapped pair; either may be 0. */
  predicate RatioTraps(a: OrderState, b: OrderState)
  {
    Swapped(a, b) && (a.toAmount == 0 || b.fromAmount == 0)
  }

  /** The scan's criterion: swapped tokens and equal truncated ratios `a.from/a.to == b.to/b.from`. */
  predicate IsMatch(a: OrderState, b: OrderState)
  {
    && Swapped(a, b)
    && a.toAmount > 0 && b.fromAmount > 0
    && a.fromAmount / a.toAmount == b.toAmount / b.fromAmount
  }

  /** `ms` lists, once each, exactly the orders the scan pairs with order `id` (the order itself included). */
  ghost predicate MatchList(orders: Orders, id: nat, ms: seq<nat>)
    requires id in orders
  {
    && (forall b :: b in ms <==> b in orders && IsMatch(orders[id], orders[b]))
    && (forall i, j :: 0 <= i < j < |ms| ==> ms[i] != ms[j])
  }

  /** Some order in the book makes the scan for `id` divide by zero. */
  predicate ScanTraps(orders: Orders, id: nat)
    requires id in orders
  {
    exists b :: b in orders && RatioTraps(orders[id], orders[b])
  }

  /**
   * The first half of `resolve_order`: visits every order of the book
   * (in unspecified order, `a` itself included) and collects the ids of the
   * matching ones; traps when a ratio divides by zero.
   */
  method CollectMatches(orders: Orders, id: nat) returns (r: Outcome<seq<nat>>)
    requires id in orders
    ensures r.Traps? <==> ScanTraps(orders, id)
    ensures r.Returns? ==> MatchList(orders, id, r.value)
  {
    var a := orders[id];
    var matches: seq<nat> := [];
    var unvisited := orders.Keys;
    while unvisited != {}
      invariant unvisited <= orders.Keys
      invariant forall b :: b in orders && b !in unvisited ==> !RatioTraps(a, orders[b])
      invariant forall b :: b in matches <==> b in orders && b !in unvisited && IsMatch(a, orders[b])
      invariant forall i, j :: 0 <= i < j < |matches| ==> matches[i] != matches[j]
      decreases unvisited
    {
      var k :| k in unvisited;
      var b := orders[k];
      if a.fromToken == b.toToken && a.toToken == b.fromToken {
        if a.toAmount == 0 || b.fromAmount == 0 {
          return Traps;
        }
        var aRatio := a.fromAmount / a.toAmount;
        var bRatio := b.toAmount / b.fromAmount;
        if aRatio == bRatio {
          matches := matches + [k];
        }
      }
      unvisited := unvisited - {k};
    }
    return Returns(matches);
  }

  /**
   * The volume the second half of `resolve_order` trades for the pair
   * `(id, b)`: `min(a.from_amount, b.to_amount)` when both orders are still
   * in the book, else 0.
   */
  function TradeAmount(orders: Orders, id: nat, b: nat): (r: U128)
    ensures r > 0 <==> id in orders && b in orders && orders[id].fromAmount > 0 && orders[b].toAmount > 0
    ensures r > 0 ==> r <= orders[id].fromAmount && r <= orders[b].toAmount
    ensures r > 0 ==> r == orders[id].fromAmount || r == orders[b].toAmount
  {
    if id in orders && b in orders then Min(orders[id].fromAmount, orders[b].toAmount) else 0
  }

  lemma DivBound(n: nat, d: nat, k: nat)
    requires d > 0 && n <= d * k
    ensures n / d <= k
  {
  }

  /**
   * `reverse_amount = amount * a.to_amount / a.from_amount`, computed in
   * `BigUint`.  Because the trade volume never exceeds `a.from_amount`, the
   * result is at most `a.to_amount`, so its `try_into::<u128>().unwrap()`
   * cannot trap; it is the floor of the proportional amount.
   */
  function ReverseAmount(amount: U128, a: OrderState): (r: U128)
    requires 0 < amount <= a.fromAmount
    ensures r <= a.toAmount
  {
    assert amount * a.toAmount <= a.fromAmount * a.toAmount;
    DivBound(amount * a.toAmount, a.fromAmount, a.toAmount);
    amount * a.toAmount / a.fromAmount
  }

  /** The counter amount is the proportional amount `amount * a.to / a.from` rounded down. */
  lemma ReverseAmountIsFloor(amount: U128, a: OrderState)
    requires 0 < amount <= a.fromAmount
    ensures var r := ReverseAmount(amount, a);
      r * a.fromAmount <= amount * a.toAmount < (r + 1) * a.fromAmount
  {
    var r := ReverseAmount(amount, a);
    assert r * a.fromAmount + (amount * a.toAmount) % a.fromAmount == amount * a.toAmount;
  }

  /**
   * The balance half of `process_trade`, in the source's order: `a.owner`
   * pays `amount` of its from-token and receives `reverse` of its to-token,
   * then `b.owner` receives `amount` of its to-token and pays `reverse` of
   * its from-token.  Any missing owner or entry, or an insufficient entry,
   * traps.
   */
  function SettleBalances(b: Balances, a: OrderState, c: OrderState, amount: U128, reverse: U128): (r: Outcome<Balances>)
    ensures r.Returns? ==> r.value.Keys == b.Keys
  {
    match DebitOwner(b, a.owner, a.fromToken, amount)
    case Traps => Traps
    case Returns(b1) =>
      match CreditOwner(b1, a.owner, a.toToken, reverse)
      case Traps => Traps
      case Returns(b2) =>
        match CreditOwner(b2, c.owner, c.toToken, amount)
        case Traps => Traps
        case Returns(b3) => DebitOwner(b3, c.owner, c.fromToken, reverse)
  }

  /**
   * The four ledger moves of `process_trade` made one after the other on the
   * ledger, as the source makes them (`get_mut(owner).unwrap()`, then
   * `subtract_balance` or `add_balance`); the first move that traps ends the
   * message.
   */
  method MoveBalances(balances: Balances, a: OrderState, c: OrderState, amount: U128, reverse: U128)
    returns (r: Outcome<Balances>)
    ensures r == SettleBalances(balances, a, c, amount, reverse)
  {
    var ledger := balances;
    var paid := DebitOwner(ledger, a.owner, a.fromToken, amount);
    if paid.Traps? {
      return Traps;
    }
    ledger := paid.value;
    var received := CreditOwner(ledger, a.owner, a.toToken, reverse);
    if received.Traps? {
      return Traps;
    }
    ledger := received.value;
    var got := CreditOwner(ledger, c.owner, c.toToken, amount);
    if got.Traps? {
      return Traps;
    }
    ledger := got.value;
    r := DebitOwner(ledger, c.owner, c.fromToken, reverse);
  }

  /**
   * What the four moves do to each owner's balance of each token: `a.owner`
   * loses `amount` of `a.fromToken` and gains `reverse` of `a.toToken`;
   * `c.owner` gains `amount` of `c.toToken` and loses `reverse` of
   * `c.fromToken`; every other owner's map is untouched.
   */
  lemma SettleBalancesMoves(b: Balances, a: OrderState, c: OrderState, amount: U128, reverse: U128)
    requires SettleBalances(b, a, c, amount, reverse).Returns?
    ensures var r := SettleBalances(b, a, c, amount, reverse).value;
      && (forall o :: o in b && o != a.owner && o != c.owner ==> r[o] == b[o])
      && forall o, t ::
           BalanceOf(r, o, t) as int
             == BalanceOf(b, o, t)
                - (if o == a.owner && t == a.fromToken then amount else 0)
                + (if o == a.owner && t == a.toToken then reverse else 0)
                + (if o == c.owner && t == c.toToken then amount else 0)
                - (if o == c.owner && t == c.fromToken then reverse else 0)
  {
    var b1 := DebitOwner(b, a.owner, a.fromToken, amount).value;
    var b2 := CreditOwner(b1, a.owner, a.toToken, reverse).value;
    var b3 := CreditOwner(b2, c.owner, c.toToken, amount).value;
  }

  /** For a swapped pair the four moves cancel token by token: the ledger's total of every token is unchanged. */
  lemma SettleBalancesConserves(b: Balances, a: OrderState, c: OrderState, amount: U128, reverse: U128, t: Principal)
    requires Swapped(a, c)
    requires SettleBalances(b, a, c, amount, reverse).Returns?
    ensures Total(SettleBalances(b, a, c, amount, reverse).value, t) == Total(b, t)
  {
    var b1 := DebitOwner(b, a.owner, a.fromToken, amount).value;
    DebitTotal(b, a.owner, a.fromToken, amount, t);
    var b2 := CreditOwner(b1, a.owner, a.toToken, reverse).value;
    CreditTotal(b1, a.owner, a.toToken, reverse, t);
    var b3 := CreditOwner(b2, c.owner, c.toToken, amount).value;
    CreditTotal(b2, c.owner, c.toToken, amount, t);
    DebitTotal(b3, c.owner, c.fromToken, reverse, t);
  }

  /**
   * The truncated ratios compare unequal rates as equal: an order offering
   * 1 of X for 100 of Y and one offering 2 of Y for 1 of X both have ratio
   * 0, so they match, and the trade of volume 1 charges the counter-order
   * 100 of Y although it offered only 2.
   */
  lemma TruncatedRatioOvercharges()
    ensures var a := OrderState(1, [1], [10], 1, [20], 100);
            var b := OrderState(2, [2], [20], 2, [10], 1);
            && IsMatch(a, b)
            && Min(a.fromAmount, b.toAmount) == 1
            && ReverseAmount(1, a) == 100 > b.fromAmount
  {
  }

  /** Matching as evidently intended: swapped tokens and the same exchange rate, `a.from * b.from == a.to * b.to`. */
  predicate SameRate(a: OrderState, b: OrderState)
  {
    && Swapped(a, b)
    && a.toAmount > 0 && b.fromAmount > 0
    && a.fromAmount * b.fromAmount == a.toAmount * b.toAmount
  }

  lemma MulLe(x: nat, y: nat, z: nat)
    requires x <= y
    ensures x * z <= y * z
  {
  }

  /**
   * Between orders with the same rate, a trade whose volume `b` asks for
   * never charges `b` more than it offers.
   */
  lemma SameRateCovers(a: OrderState, b: OrderState, amount: U128)
    requires SameRate(a, b) && 0 < amount <= a.fromAmount && amount <= b.toAmount
    ensures ReverseAmount(amount, a) <= b.fromAmount
  {
    MulLe(amount, b.toAmount, a.toAmount);
    assert amount * a.toAmount <= a.fromAmount * b.fromAmount;
    DivBound(amount * a.toAmount, a.fromAmount, b.fromAmount);
  }
}
