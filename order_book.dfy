/**
 * The order book: a `HashMap<u64, OrderState>` keyed by order id, shared in
 * shape by both canisters.
 */
module OrderBook {
  import opened Primitives

  /** `OrderState`: an offer of `fromAmount` of `fromToken` for `toAmount` of `toToken`. */
  datatype OrderState = OrderState(
    id: U64,
    owner: Principal,
    fromToken: Principal,
    fromAmount: U128,
    toToken: Principal,
    toAmount: U128)

  type Orders = map<nat, OrderState>

  /** Every order is stored under its own id. */
  predicate KeyedById(orders: Orders)
  {
    forall k :: k in orders ==> orders[k].id == k
  }

  /** Ids in use were handed out by the counter: they lie in `1..nextId`. */
  predicate IdsIssued(orders: Orders, nextId: nat)
  {
    KeyedById(orders) && forall k :: k in orders ==> 0 < k <= nextId
  }

  /**
   * `orders'` arose from `orders` by trading and removing only: no order was
   * added, and every surviving order keeps its id, owner and tokens.
   */
  predicate Survives(orders: Orders, orders': Orders)
  {
    && orders'.Keys <= orders.Keys
    && forall k :: k in orders' ==>
         && orders'[k].id == orders[k].id
         && orders'[k].owner == orders[k].owner
         && orders'[k].fromToken == orders[k].fromToken
         && orders'[k].toToken == orders[k].toToken
  }

  lemma SurvivesTransitive(o1: Orders, o2: Orders, o3: Orders)
    requires Survives(o1, o2) && Survives(o2, o3)
    ensures Survives(o1, o3)
  {
  }

  /** Changing only the amounts of an order keeps its id, owner and tokens. */
  lemma SurvivesAmend(orders: Orders, k: nat, o: OrderState)
    requires k in orders
    requires o.id == orders[k].id && o.owner == orders[k].owner
    requires o.fromToken == orders[k].fromToken && o.toToken == orders[k].toToken
    ensures Survives(orders, orders[k := o])
  {
  }

  lemma IdsIssuedSurvives(orders: Orders, orders': Orders, nextId: nat)
    requires IdsIssued(orders, nextId) && Survives(orders, orders')
    ensures IdsIssued(orders', nextId)
  {
  }

  /**
   * The queries `get_orders`, `get_from_orders`, `get_to_orders` and
   * `get_all_orders`: the orders satisfying `p`, each once, in the map's
   * (unspecified) iteration order.
   */
  method Select(orders: Orders, p: OrderState -> bool) returns (r: seq<OrderState>)
    requires KeyedById(orders)
    ensures forall o :: o in r <==> o in orders.Values && p(o)
    ensures forall i, j :: 0 <= i < j < |r| ==> r[i].id != r[j].id
  {
    r := [];
    var unvisited := orders.Keys;
    while unvisited != {}
      invariant unvisited <= orders.Keys
      invariant forall o :: o in r <==> o.id in orders && o.id !in unvisited && orders[o.id] == o && p(o)
      invariant forall i :: 0 <= i < |r| ==> r[i].id !in unvisited
      invariant forall i, j :: 0 <= i < j < |r| ==> r[i].id != r[j].id
      decreases unvisited
    {
      var k :| k in unvisited;
      if p(orders[k]) {
        r := r + [orders[k]];
      }
      unvisited := unvisited - {k};
    }
    forall o | o in orders.Values
      ensures o.id in orders && orders[o.id] == o
    {
      var k :| k in orders && orders[k] == o;
    }
  }
}
