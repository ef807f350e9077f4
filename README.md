# Verified model of the DeFi exchange canisters

This project models in Dafny the in-memory exchange of two near-identical
Internet Computer canisters:

- `defi` (`rust/defi/src/defi/lib.rs`) is module `Defi`.
- `defi_dapp` (`rust/defi/src/defi_dapp/lib.rs`) is module `DefiDapp`.

Each canister keeps a `State` with four parts:

- a balance ledger (owner → token → `u128` amount);
- an order book (`u64` id → `OrderState`);
- an id counter;
- in `defi_dapp` only, the owner recorded at `init`.

Each `State` is a Dafny `class` whose methods update these fields in place.
The code the two canisters share lives in modules of its own:

- `Primitives`: `u128`/`u64`, principals of at most 29 bytes, and the outcome of a message.
- `Ledger`: `add_balance`, `subtract_balance`, and per-token totals.
- `OrderBook`: orders, the id invariant, and the listing queries.
- `Matching`: the scan of `resolve_order`, the trade volume, the counter amount, and the four balance moves.
- `Trading`: what a trade and a matching pass do to the book and the ledger. It is parameterised by the one thing the canisters do differently, namely which order legs a trade decrements.
- `Subaccount`: `principal_to_subaccount`.

The model rests on the following decisions:

- **Traps.** Every `unwrap`, checked `+=`/`-=` and division by zero in the source is a trap. On the Internet Computer a trap undoes every change the message made. Operations therefore return `Outcome.Traps`, and the methods restore the fields they saved. Arithmetic is modelled as overflow-checked.
- **Iteration order.** `HashMap` iteration order is unspecified. The scan of `resolve_order` and the listing queries visit keys in an arbitrary order, modelled with `:|`. Their contracts hold for every order. The list of matches is any duplicate-free list of exactly the matching ids.
- **`process_trade` order of effects.** The source interleaves the order-leg decrements with the four ledger moves. The model updates the book first (`UpdateOrders`) and then moves the balances (`MoveBalances`). The two touch disjoint state and a trap in either rolls back both, so the outcome is the same.
- **Caller identity.** The caller (`caller()`) is a parameter of every operation.

The main properties proved are:

- For every token, trades and whole matching passes preserve the total held by all owners.
- Each trade has an exact per-owner balance effect, and an exact effect on each order leg for both variants.
- A trade removes the order being resolved when its from-leg reaches zero and the counter-order when its to-leg reaches zero; in `defi_dapp` a counter-order whose from-leg reaches zero stays in the book. No order is ever added by matching.
- Ids stay within `1..next_id`, and the counter hands out 1, 2, 3, … from `State::default`.
- In `defi_dapp`, placing an order that matching fills completely traps at the final `unwrap` of `place_order`, which undoes the whole match (`DefiDapp.State.Admit`, `DefiDapp.State.PlaceOrder`).
- Every trap leaves the state unchanged. A refused `defi` placement ("not enough from tokens") still uses up an id; a refused `defi_dapp` placement changes nothing.
- `principal_to_subaccount` lays out the principal exactly, and that layout is injective.

## Model

| member | source | states |
|---|---|---|
| Primitives.NatToU128 | rust/defi/src/defi_dapp/lib.rs:132-136 | converting a `Nat` succeeds exactly when it is below 2^128 and then keeps the value |
| Ledger.AddBalance | rust/defi/src/defi/lib.rs:77-83 | traps iff an existing entry would overflow `u128`; otherwise the entry becomes old+delta (delta when absent), it is present afterwards, and every other entry is unchanged (identical at rust/defi/src/defi_dapp/lib.rs:116-122) |
| Ledger.SubtractBalance | rust/defi/src/defi/lib.rs:85-91 | succeeds iff the entry exists and is at least delta; leaves old−delta, removes the entry exactly when that is 0, adds no entry, and keeps every other entry (identical at rust/defi/src/defi_dapp/lib.rs:124-130) |
| Ledger.CreditOwner | rust/defi/src/defi/lib.rs:297-299 | `get_mut(owner).unwrap()` plus `add_balance`: traps iff the owner is absent or the sum overflows; otherwise only that owner's balance of that token rises by delta and the owners are unchanged |
| Ledger.DebitOwner | rust/defi/src/defi/lib.rs:297-298 | `get_mut(owner).unwrap()` plus `subtract_balance`: succeeds iff owner and entry exist and cover delta; then only that owner's balance of that token falls by delta |
| Ledger.ListBalances | rust/defi/src/defi/lib.rs:127-133 | lists every entry of an owner's map exactly once, with its amount, in any order |
| Ledger.SumOverRemove | rust/defi/src/defi/lib.rs:77-91 | the sum of a token over a set of owners splits into one owner's balance plus the rest, whichever owner is taken out |
| Ledger.TotalShift | rust/defi/src/defi/lib.rs:77-91 | changing one owner's balance of a token changes that token's total by exactly the same difference |
| Ledger.CreditTotal | rust/defi/src/defi/lib.rs:77-83 | a credit raises the credited token's total by delta and leaves every other token's total unchanged |
| Ledger.DebitTotal | rust/defi/src/defi/lib.rs:85-91 | a debit lowers the debited token's total by delta and leaves every other token's total unchanged |
| Ledger.NewOwnerTotal | rust/defi/src/defi_dapp/lib.rs:161-163 | giving a new owner an empty map changes no token's total |
| Ledger.CreditCreatingOwner | rust/defi/src/defi_dapp/lib.rs:161-168 | creating the caller's map when missing and then crediting traps iff the balance would overflow; otherwise it adds the caller as an owner, raises only the caller's balance of the token by delta, and raises that token's total by delta |
| OrderBook.SurvivesTransitive | rust/defi/src/defi/lib.rs:313-318 | "only amended or removed" composes across steps |
| OrderBook.SurvivesAmend | rust/defi/src/defi/lib.rs:294 | changing only an order's amounts keeps its id, owner and tokens |
| OrderBook.IdsIssuedSurvives | rust/defi/src/defi/lib.rs:313-318 | amending and removing orders keeps every id stored under itself and within `1..next_id` |
| OrderBook.Select | rust/defi/src/defi/lib.rs:180-198 | the listing queries return exactly the orders of the book that satisfy the filter, each once, in any order |
| Matching.CollectMatches | rust/defi/src/defi/lib.rs:252-266 | the scan traps iff some swapped order (the new order itself included) makes a ratio divide by zero; otherwise it returns each order with swapped tokens and equal truncated ratios exactly once, and no other |
| Matching.TradeAmount | rust/defi/src/defi/lib.rs:268-276 | the volume is positive iff both orders are still in the book with positive from- and to-legs; it is then `min(a.from_amount, b.to_amount)` |
| Matching.ReverseAmount | rust/defi/src/defi/lib.rs:290-293 | the counter amount never exceeds `a.to_amount`, so its conversion back to `u128` cannot trap |
| Matching.ReverseAmountIsFloor | rust/defi/src/defi/lib.rs:290-293 | the counter amount is the proportional amount `amount * a.to / a.from` rounded down |
| Matching.SettleBalances | rust/defi/src/defi/lib.rs:297-310 | the four ledger moves of a trade never add or drop an owner |
| Matching.MoveBalances | rust/defi/src/defi/lib.rs:297-310 | making the four moves one after the other, stopping at the first trap, yields exactly `SettleBalances` |
| Matching.SettleBalancesMoves | rust/defi/src/defi/lib.rs:297-310 | `a.owner` loses `amount` of `a.from` and gains `reverse` of `a.to`; `b.owner` gains `amount` of `b.to` and loses `reverse` of `b.from`; every other owner's map is untouched |
| Matching.SettleBalancesConserves | rust/defi/src/defi/lib.rs:297-310 | for orders with swapped tokens the four moves keep every token's total |
| Matching.TruncatedRatioOvercharges | rust/defi/src/defi/lib.rs:259-261 | there are orders with different rates that match, where the counter amount exceeds what the counter-order offers |
| Matching.SameRateCovers | rust/defi/src/defi/lib.rs:259-261 | when two orders have exactly the same rate, the counter amount never exceeds what the counter-order offers |
| Trading.CounterLeg | rust/defi/src/defi_dapp/lib.rs:302 | what a trade takes off the non-volume legs: nothing in `defi`, the counter amount in `defi_dapp` |
| Trading.Counter | rust/defi/src/defi/lib.rs:304 | `b` as `process_trade` reads it: the stored order, or `a` already decremented when both are the same order |
| Trading.TradeBook | rust/defi/src/defi/lib.rs:289-318 | the book half of a trade traps iff `b.to_amount` (or, in `defi_dapp`, `b.from_amount`) would underflow; otherwise it only amends and removes orders |
| Trading.TradeLedger | rust/defi/src/defi/lib.rs:297-310 | the ledger half of a trade keeps the set of owners |
| Trading.Trade | rust/defi/src/defi/lib.rs:282-319 | a trade succeeds iff both halves succeed; it then only amends and removes orders |
| Trading.TradeLegs | rust/defi/src/defi_dapp/lib.rs:296-327 | between distinct orders: the trade traps iff `b` lacks `amount` on its to-leg or (in `defi_dapp`) the counter amount on its from-leg; `a.from` and `b.to` fall by `amount`; `a.to` and `b.from` fall by the counter amount in `defi_dapp` and are unchanged in `defi`; `a` is removed iff its from-leg reaches 0 and `b` iff its to-leg does; all other orders are untouched |
| Trading.SelfTrade | rust/defi/src/defi/lib.rs:255 | an order that swaps a token for itself can match itself; that trade leaves every balance as it was and decrements both legs of the order in turn |
| Trading.DappSelfTradeTraps | rust/defi/src/defi_dapp/lib.rs:296-314 | in `defi_dapp` an order offering a token for the same amount of itself matches itself, and that trade always traps |
| Trading.TradeConserves | rust/defi/src/defi/lib.rs:297-310 | a trade between swapped orders moves exactly the four amounts and keeps every token's total |
| Trading.Settle | rust/defi/src/defi/lib.rs:267-279 | a matching pass only amends and removes orders |
| Trading.SettleTrades | rust/defi/src/defi/lib.rs:276-277 | a pass whose first pair trades continues from the traded state |
| Trading.SettleTrapsAt | rust/defi/src/defi/lib.rs:276-277 | a pass whose first trade traps traps as a whole |
| Trading.SettleSkips | rust/defi/src/defi/lib.rs:268-276 | a pass skips a pair with nothing to trade |
| Trading.SettleConserves | rust/defi/src/defi/lib.rs:267-279 | a whole matching pass over swapped counter-orders keeps every token's total |
| Defi.DepositLedger | rust/defi/src/defi/lib.rs:138-144 | deposit succeeds iff the caller already has an entry for the token and the sum fits `u128`; it then raises only that balance by the amount and adds no owner |
| Defi.DepositNeedsEntry | rust/defi/src/defi/lib.rs:139-140 | deposit traps for a caller without an entry, and so on the empty ledger of `State::default` |
| Defi.DepositCreatingEntry | rust/defi/src/defi/lib.rs:138-144 | deposit that creates a missing map and entry succeeds iff the amount fits; it then raises only the caller's balance and that token's total by the amount |
| Defi.State.constructor | rust/defi/src/defi/lib.rs:93-105 | counter 0, empty ledger, empty book |
| Defi.State.GetBalance | rust/defi/src/defi/lib.rs:108-122 | the caller's entry for the token, or nothing iff the caller or the entry is absent |
| Defi.State.GetBalances | rust/defi/src/defi/lib.rs:124-136 | nothing iff the caller has no map; otherwise every entry of it exactly once |
| Defi.State.Deposit | rust/defi/src/defi/lib.rs:138-144 | replies "ok" with the ledger of `DepositLedger`, or traps and changes nothing |
| Defi.State.GetOrder | rust/defi/src/defi/lib.rs:173-178 | the order stored under the id, or nothing iff there is none |
| Defi.State.GetOrders | rust/defi/src/defi/lib.rs:180-182 | every order of the book exactly once |
| Defi.State.GetFromOrders | rust/defi/src/defi/lib.rs:184-190 | exactly the orders offering the token, each once |
| Defi.State.GetToOrders | rust/defi/src/defi/lib.rs:192-198 | exactly the orders asking for the token, each once |
| Defi.State.NextId | rust/defi/src/defi/lib.rs:200-203 | returns the counter plus one and stores it; traps, changing nothing, at the top of `u64` |
| Defi.State.CancelOrder | rust/defi/src/defi/lib.rs:239-249 | "no found" or "not owner" with nothing changed, or "ok" with exactly that order removed; balances untouched |
| Defi.State.UpdateOrders | rust/defi/src/defi/lib.rs:289-318 | the book becomes that of `TradeBook`, or stays as it was when it traps; ids stay valid |
| Defi.State.ProcessTrade | rust/defi/src/defi/lib.rs:282-319 | the book and the ledger become those of `Trade`, or neither changes when it traps |
| Defi.State.SettleNext | rust/defi/src/defi/lib.rs:268-278 | one round of the loop over matches: trades when both orders are present and the volume is positive, skips otherwise, and advances exactly one step of `Settle`; when the trade traps, `Settle` traps and nothing changes |
| Defi.State.SettleMatches | rust/defi/src/defi/lib.rs:267-279 | the loop over matches reaches exactly the state of `Settle`, or changes nothing when a trade traps |
| Defi.State.ResolveOrder | rust/defi/src/defi/lib.rs:251-280 | traps on a scan trap; otherwise collects exactly the matches and reaches `Settle`'s state; every token's total is preserved; a trap changes nothing |
| Defi.State.Submit | rust/defi/src/defi/lib.rs:224-235 | inserts the order and resolves it; succeeds iff the scan and the pass do not trap; totals preserved |
| Defi.State.Admit | rust/defi/src/defi/lib.rs:224-236 | traps if `to_amount` does not fit `u128`; otherwise behaves as `Submit` on the new order |
| Defi.State.PlaceOrder | rust/defi/src/defi/lib.rs:205-237 | traps (changing nothing) when the id or `from_amount` overflows, or when `to_amount` does not fit `u128` once the balance check passes; replies "not enough from tokens" when the caller's entry is missing or short, with the counter advanced and nothing else changed; otherwise "ok" iff the scan and the matching pass of the inserted order do not trap, reaching `Settle`'s state; totals always preserved |
| Defi.FirstIds | rust/defi/src/defi/lib.rs:200-203 | from `State::default` the first three ids are 1, 2, 3 |
| DefiDapp.Withdraw | rust/defi/src/defi_dapp/lib.rs:450-454 | every withdrawal fails with `TransferFailure` |
| DefiDapp.State.constructor | rust/defi/src/defi_dapp/lib.rs:138-147 | no owner, counter 0, empty ledger, empty book |
| DefiDapp.State.GetBalance | rust/defi/src/defi_dapp/lib.rs:150-156 | the stored amount, or 0 when the caller's map or the entry is absent |
| DefiDapp.State.Deposit | rust/defi/src/defi_dapp/lib.rs:158-170 | succeeds iff the entry plus 10 fits `u128`, replying `Ok(10)` (`Deposited(10)`) with the ledger of `CreditCreatingOwner`; otherwise traps and changes nothing (not even the new map) |
| DefiDapp.State.GetOrder | rust/defi/src/defi_dapp/lib.rs:198-203 | the order stored under the id, or nothing iff there is none |
| DefiDapp.State.GetAllOrders | rust/defi/src/defi_dapp/lib.rs:205-207 | every order of the book exactly once |
| DefiDapp.State.NextId | rust/defi/src/defi_dapp/lib.rs:209-212 | returns the counter plus one and stores it; traps, changing nothing, at the top of `u64` |
| DefiDapp.State.CancelOrder | rust/defi/src/defi_dapp/lib.rs:244-256 | `NotExistingOrder` with nothing changed; `NotAllowed` with nothing changed when the caller owns the order; `Ok(id)` with exactly that order removed when anyone else asks |
| DefiDapp.State.CancelOrderAsIntended | rust/defi/src/defi_dapp/lib.rs:244-256 | with the check the right way round, only the owner removes the order and everyone else gets `NotAllowed` with nothing changed |
| DefiDapp.State.UpdateOrders | rust/defi/src/defi_dapp/lib.rs:296-327 | the book becomes that of the four-leg `TradeBook`, or stays as it was when a leg would underflow; ids stay valid |
| DefiDapp.State.ProcessTrade | rust/defi/src/defi_dapp/lib.rs:289-328 | the book and the ledger become those of the four-leg `Trade`, or neither changes when it traps |
| DefiDapp.State.SettleNext | rust/defi/src/defi_dapp/lib.rs:275-285 | one round of the loop over matches with the four-leg trade: advances exactly one step of `Settle`, or, when the trade traps, `Settle` traps and nothing changes |
| DefiDapp.State.SettleMatches | rust/defi/src/defi_dapp/lib.rs:274-286 | the loop over matches reaches exactly the state of `Settle`, or changes nothing when a trade traps |
| DefiDapp.State.ResolveOrder | rust/defi/src/defi_dapp/lib.rs:258-287 | traps on a scan trap; otherwise collects exactly the matches and reaches `Settle`'s state; every token's total is preserved; a trap changes nothing |
| DefiDapp.State.Submit | rust/defi/src/defi_dapp/lib.rs:228-239 | inserts the order and resolves it; succeeds iff the scan and the pass do not trap; totals preserved |
| DefiDapp.State.Admit | rust/defi/src/defi_dapp/lib.rs:227-241 | traps if `to_amount` does not fit `u128` or the order is gone after matching; otherwise behaves as `Submit` on the new order |
| DefiDapp.State.PlaceOrder | rust/defi/src/defi_dapp/lib.rs:214-242 | `Err(InvalidOrder)` iff the caller's balance is below `from_amount`, with the whole state (counter included) unchanged; traps, changing nothing, when the id or `to_amount` overflows, the scan or a trade traps, or matching removed the new order; otherwise returns the new order as it stands after matching, with `Settle`'s state and totals preserved |
| DefiDapp.State.Clear | rust/defi/src/defi_dapp/lib.rs:330-341 | "not initialized" or "not authorized" with nothing changed, or "ok" with book and ledger emptied and counter and owner kept |
| DefiDapp.OwnerCannotCancel | rust/defi/src/defi_dapp/lib.rs:244-256 | from `State::default`, after a deposit and an order that matches nothing, the order's owner is refused when cancelling it |
| Subaccount.Layout | rust/defi/src/defi/lib.rs:326-332 | 32 bytes: the length, the principal's bytes, then zeros |
| Subaccount.LayoutInjective | rust/defi/src/defi/lib.rs:326-332 | distinct principals get distinct subaccounts |
| Subaccount.PrincipalToSubaccount | rust/defi/src/defi/lib.rs:326-332 | the array written in place is exactly `Layout(p)` (identical at rust/defi/src/defi_dapp/lib.rs:348-354) |

## Left out

- Candid and Internet Computer plumbing is not modelled: the `#[query]`/`#[update]` wrappers, `export_service!`, the `thread_local!` `RefCell`, `caller()` (a parameter instead), and `ic_cdk::setup`.
- `init` is not modelled. In `defi` it stores a configuration this model does not keep. In `defi_dapp` it records the owner, so `DefiDapp.State.Clear` is specified for any value of `owner`.
- Stable-memory save and restore in `pre_upgrade`/`post_upgrade` are not modelled, because they are library serialisation.
- `deposit_address`/`icp_deposit_account` are not modelled, because `AccountIdentifier::new` is foreign hashing and encoding. `whoami` returns the caller (here the identity parameter itself) and `symbol` returns the constant `"XXX"`; neither is modelled.
- The `clear` update endpoint of `defi_dapp` is commented out (rust/defi/src/defi_dapp/lib.rs:456-460); `DefiDapp.State.Clear` models the `State` method it would call.
- The commented-out ledger transfers and the floating-point `withdrawl_fee` are not modelled.
- `Nat`/`BigUint` values are modelled as unbounded naturals, and narrowing to `u128` as `NatToU128`. The `Order` ↔ `OrderState` conversion, a field copy, is not modelled; replies carry `OrderState`.
- Arithmetic is modelled with overflow checks on, so `+=`/`-=` trap. A build without overflow checks would wrap instead, and that build is not modelled.
- The text of a trap (the panic message) is not modelled; only the fact of the trap is.
- `HashMap` iteration order is left arbitrary, not fixed. `Defi.State.ResolveOrder`, `Defi.State.Submit`, `Defi.State.Admit`, `Defi.State.PlaceOrder`, `DefiDapp.State.ResolveOrder`, `DefiDapp.State.Submit`, `DefiDapp.State.Admit` and `DefiDapp.State.PlaceOrder` therefore state their results in terms of the (ghost) list of matches in the order the scan found them.
- Defi.State.ProcessTrade: updates the book before moving the balances instead of interleaving the two. Under rollback the outcome is identical; the intermediate states are not modelled.
- DefiDapp.State.ProcessTrade: same reordering as in `defi`.
- Defi.State.CancelOrder, DefiDapp.State.CancelOrder, DefiDapp.State.Clear: the canisters answer with strings or receipts; the model compares them as values and does not model candid encoding.

## Findings

| source | as written | input that shows it | evidently intended | confidence | as-written member | corrected member |
|---|---|---|---|---|---|---|
| rust/defi/src/defi/lib.rs:259-261 | orders match when their truncated ratios `a.from/a.to` and `b.to/b.from` are equal (same at rust/defi/src/defi_dapp/lib.rs:266-268) | `a` offers 1 of X for 100 of Y, `b` offers 2 of Y for 1 of X: both ratios are 0, the volume is 1 and the counter amount is 100, more than the 2 `b` offered. `defi` charges `b.owner` 100 of Y when `b.owner` holds at least 100 of Y and otherwise traps in `subtract_balance` (in `defi` such a balance can only come from a restored state, see the third row); `defi_dapp` traps on `b.from_amount -= 100`, rolling back the whole placement | match only orders with the same rate, so that the counter amount never exceeds what `b` offers | not executed | Matching.TruncatedRatioOvercharges | Matching.SameRateCovers |
| rust/defi/src/defi_dapp/lib.rs:246-251 | `cancel_order` refuses the order's owner and lets anyone else remove it | from `State::default`: deposit X, place 5 X for 5 Y, cancel order 1 as the same caller: `NotAllowed` | only the owner may cancel, as in rust/defi/src/defi/lib.rs:241 | not executed | DefiDapp.OwnerCannotCancel | DefiDapp.State.CancelOrderAsIntended |
| rust/defi/src/defi/lib.rs:139-140 | `deposit` unwraps the caller's map and token entry; no operation of `defi` adds an owner's map (`deposit` and `process_trade` only `get_mut(..).unwrap()` it) | any deposit on `State::default` traps, so no balance can ever be funded | create the map and the entry when missing, as rust/defi/src/defi_dapp/lib.rs:161-168 does | not executed | Defi.DepositNeedsEntry | Defi.DepositCreatingEntry |
