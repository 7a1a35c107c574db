# cw-arcade leaderboard ordering and payout step, in Dafny

This project models the working core of the cw-arcade CosmWasm contract. That
core is three pieces of sequential, deterministic logic:

- **Leaderboard entry ordering** (`src/state.rs`). A `User` holds its score as
  `Reverse<i32>`. Its `Ord` impl compares only those wrapped scores. So the order
  on users is the reverse of raw-score order, and `name` and `address` play no
  part. A Rust max-`BinaryHeap<User>` therefore keeps the lowest raw score on top.
- **The best-score check** `user_is_top` (`src/utils.rs`). It finds the
  `min_by` entry under the `Reverse` order, which is the highest raw score. It
  answers `true` only when the candidate's raw score is strictly higher than
  that. On an empty heap it answers `false`.
- **The payout step** `send_coins` (`src/utils.rs`). With a zero balance it
  returns an empty response and changes nothing. Otherwise it adds the balance
  to the stored cumulative total, `TOTAL_PRICE_DISTRIBUTED`. It then returns
  one bank transfer of the whole balance, in the stored denomination, to the
  user's address, plus the attributes `action`, `sender` and `amount`.

Files and modules:

- `wrappers.dfy`, module `Wrappers`: the `Option` type.
- `state.dfy`, module `State`: `i32`, `Ordering`, `Reverse`, `User`, the
  comparison functions, and lemmas about the order.
- `cosmwasm.dfy`, module `CosmWasm`: the host types `Coin`, `BankMsg`,
  `Attribute` and `Response` as plain datatypes. It also holds the decimal
  text that `to_string` gives a `u128`, with a round-trip lemma.
- `utils.dfy`, module `Utils`: `min_by`, `UserIsTop` and its lemmas, the
  payout-response function `SendCoinsResponse`, and a class `Arcade`. The
  class holds the stored `denom` and `totalDistributed`. Its method
  `SendCoins` updates the total in place.

Modelling decisions:

- The heap is only iterated, never changed, so `UserIsTop` takes the heap's
  entries as a `seq<User>` in iteration order. Since `UserIsTop` is a function
  on values, it cannot modify the heap, just like the shared reference in the
  source. `UserIsTopIgnoresOrder` shows the answer does not depend on the
  heap's internal layout.
- `min_by` is modelled as Rust's left fold. The running minimum is replaced
  only when it compares `Greater`, so it is the first minimum: the earliest
  entry, in iteration order, that has the highest raw score.
- `>` on `User` is Rust's default `PartialOrd::gt`: it holds when
  `partial_cmp` returns `Some(Greater)`.
- The bank balance is a parameter of `SendCoins`. It stands for the result of
  the balance query.
- The source's types drift. Where they disagree, the model follows
  `src/state.rs`: the score is `Reverse<i32>` and the address is a string. The
  unit test in `src/utils.rs` builds users with `Reverse(u16)` and an `Addr`.
  The comment at `src/utils.rs:13` also says `u16`.
- This revision has no top-K eviction and no admin gating: `execute` is a
  no-op (src/contract.rs:16-23, src/lib.rs:18-26). Users are ordered by their
  `Reverse` score, so a lower raw score ranks higher under `Ord`.

## Model

| member | source | states |
|---|---|---|
| `State.Cmp` | src/state.rs:18-22 | users compare `Less` exactly when the first has the higher raw score, `Equal` exactly when the raw scores agree, and `Greater` exactly when the first has the lower raw score; this is the reversal that `Reverse<i32>` produces |
| `State.PartialCmp` | src/state.rs:24-28 | always returns `Some`, and the ordering it carries is the same reversed raw-score order as `Cmp` |
| `State.GtIsLowerRawScore` | src/state.rs:15-28 | `a > b` on users holds if and only if `a` has the strictly lower raw score |
| `State.LtIsHigherRawScore` | src/state.rs:15-28 | `a < b` on users holds if and only if `a` has the strictly higher raw score |
| `State.CmpIgnoresNameAndAddress` | src/state.rs:18-22 | two pairs of users whose scores agree compare the same, whatever their names and addresses |
| `State.CmpIsTotalPreorder` | src/state.rs:18-22 | `Cmp` is antisymmetric in its answers, reflexive on `Equal`, transitive for both `<=` and `<`, and total |
| `State.EqualScoreIsNotEquality` | src/state.rs:11-22 | users with the same score but different names compare `Equal` yet are not equal values, because `Eq` is derived over all fields |
| `State.GreatestHasMinRawScore` | src/state.rs:15 | a greatest user of a heap under `Cmp` (its max-heap top) is exactly a user of minimum raw score, in both directions, as the min-heap comment says |
| `State.GreatestExists` | src/state.rs:15 | every non-empty heap has a greatest user under `Cmp` |
| `Utils.MinByScoreFrom` | src/utils.rs:10 | the `min_by` fold returns the start value or one of the remaining entries; its raw score is at least that of every entry seen; it keeps the start value when nothing beats it; otherwise it is the first remaining entry whose raw score beats every entry before it |
| `Utils.MinByScore` | src/utils.rs:9-10 | `min_by` is `None` exactly on an empty heap; otherwise it is an entry of the heap with the highest raw score, and the first such entry in iteration order |
| `Utils.UserIsTop` | src/utils.rs:8-18 | `user_is_top` is true if and only if the heap is non-empty and the candidate's raw score is strictly higher than every raw score in it |
| `Utils.EmptyHeapHasNoTop` | src/utils.rs:8-17 | on an empty heap the answer is `false` |
| `Utils.TieIsNotTop` | src/utils.rs:12 | a candidate whose raw score equals that of any heap entry is not top, because the check is strict |
| `Utils.PushedUserIsNotTop` | src/utils.rs:93-94 | once a user has been pushed into the heap, at any position, that user is not top |
| `Utils.UserIsTopIgnoresOrder` | src/utils.rs:8-10 | two iteration orders of the same heap entries give the same answer |
| `Utils.UserIsTopScenario` | src/utils.rs:79-95 | with scores 10 and 20 in the heap, 10 and 20 are not top and 30 is; after 30 is pushed, 30 is not top |
| `Utils.SendCoinsResponse` | src/utils.rs:36-60 | a zero balance gives the empty response and only a zero balance does. Otherwise there is exactly one message: a transfer of one coin of the whole balance in `denom` to `user.address`. The amount of `denom` sent to that address, and in all, is exactly the balance. The attributes are exactly `action=send_coins`, `sender=<user.address>` and `amount=<balance in decimal>`, in that order |
| `Utils.AmountAttributeMatchesTransfer` | src/utils.rs:46-58 | the `amount` attribute, read as a decimal number, equals the amount the response transfers |
| `Utils.ZeroBalanceResponseIsEmpty` | src/utils.rs:36-39 | with a zero balance the response is empty whatever the user and denom, so repeated zero-balance calls all agree |
| `Utils.Arcade.SendCoins` | src/utils.rs:33-61 | the new total distributed is the old total plus the balance, so it never decreases and stays unchanged at zero balance; the total's increase equals what the response transfers; the response is `SendCoinsResponse` for the stored denom; nothing but the total changes |
| `CosmWasm.NatToString` | src/utils.rs:58 | `to_string` of an amount is non-empty, all decimal digits, and has no leading zero except for `"0"` itself |
| `CosmWasm.NatToStringRoundTrip` | src/utils.rs:58 | reading the decimal text of an amount back gives the amount |
| `CosmWasm.NatToStringInjective` | src/utils.rs:58 | distinct amounts render as distinct text |

## Left out

- `query_arcade_balance` (src/utils.rs:20-31) is a round trip to the chain's bank querier. That is a foreign call, so its result is the `balance` parameter of `SendCoins`.
- The storage `Item` load and save calls (src/state.rs:8-9, src/state.rs:30, src/utils.rs:34, src/utils.rs:40-44) become the fields of `Arcade`. src/utils.rs:6 imports the items `ARCADE_DENOM` and `TOTAL_PRICE_DISTRIBUTED` from `crate::state`, but src/state.rs does not declare them. `Arcade`'s constructor just stands for storage that already holds both.
- Utils.Arcade.SendCoins: the `.expect` and `.unwrap` panics (src/utils.rs:34-35, src/utils.rs:42) and `u128` overflow on the addition at src/utils.rs:42 are preconditions, not modelled failures. The method requires the new total to fit in a `u128`. It returns the response directly, because the source never returns an `Err`.
- The `ContractError` type (`crate::error`) is not part of this model. No modelled path produces it.
- `BinaryHeap` itself (push, sift, peek) is not modelled. The source only iterates it. The max-heap top is described by the predicate `IsGreatest`.
- `src/contract.rs` is left out. Its `instantiate` and `execute` return an empty response (src/contract.rs:7-23), and its only query, `Greet`, returns the constant "Hello, world!" (src/contract.rs:25-43). There is no logic to model.
- `src/lib.rs` is left out. Its three entry points, `instantiate`, `execute` and `query`, all return `Response::default()` (src/lib.rs:8-35). Its `query` takes an `InstantiateMsg`, not a `QueryMsg`. There is no logic to model.
- `src/msg.rs` is left out: it holds only serialisable message structs.
- Admin gating, play-fee splitting and top-K eviction are not implemented anywhere in src/, so they are not modelled.
- Settlement of the emitted transfer belongs to the host chain and is not modelled.
