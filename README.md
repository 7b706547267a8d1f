# Ahjoor ROSCA round engine in Dafny

A model of the round engine of the Ahjoor rotating savings and credit
association (ROSCA) contract, `contracts/ahjoor-rosca/src/lib.rs`. A fixed list
of members each pay a fixed contribution per round. The call that brings in the
last missing contribution also pays the whole pot to the member whose turn it
is, `members[round % |members|]`, moves to the next round and clears the paid
list.

Files:

- `distinct.dfy` (module `Distinct`): duplicate-free lists, inclusion of one
  list in another, and what inclusion says about lengths. The contract decides
  that a round is complete by comparing the length of the paid list with the
  length of the member list; these lemmas say when that comparison means
  "everybody paid".
- `ledger.dfy` (module `Ledger`): addresses, the transfers the contract asks the
  token contract to make, and the sum of a run of contributions.
- `rosca.dfy` (module `Rosca`): the contract as a class `AhjoorContract`. Its
  fields are the five storage keys of `DataKey`; `initialized`, which records
  whether those keys are present; the constant `contractAddress`, the contract's
  own address; the log of transfers made; and the ghost field `roundStart`,
  which marks where the current round's contributions begin in the log.
  The operations `Init`, `Contribute` and `GetState` correspond to `init`,
  `contribute` and `get_state`. The module also holds the round invariant and
  the lemmas about it, and a three-member scenario in two parts,
  `ThreeMemberRoundOpens` and `ThreeMemberRoundCompletes`.

How the host environment is modelled:

- Instance storage is the fields of the class. `initialized` records whether
  `DataKey::Members` is present. Before `init`, `members`, `paid` and the log
  are empty and `round` is 0; `amount` and `token` hold placeholder values that
  nothing reads until `init` overwrites them.
- The token contract is the parameter `accepts: Transfer -> bool`, which says
  whether a given transfer goes through. Each transfer that goes through is
  appended to `log`.
- `require_auth` is the parameter `authorized`.
- A panic is an `Outcome` of `Fail(error)`, with one error per panic message.
  A failing call leaves every field and the log unchanged, as the host's revert
  does.

The class invariant `Valid()` states the following:

- `paid` holds no address twice and only members.
- Between calls, `paid` is strictly shorter than `members`, unless there are no
  members at all.
- The log ends with exactly one contribution transfer per entry of `paid`, in
  order.

`Contribute` states the following:

- Each failure, in the order the contract checks for it.
- That a failure changes nothing.
- What an accepted contribution appends to `paid` and to the log.
- When the round completes: every member paid, the payout goes to
  `members[old(round) % |members|]`, the round goes up by one, `paid` is
  emptied, and the pot paid out equals the sum of the round's contributions.

## Model

| member | source | states |
|---|---|---|
| Rosca.AhjoorContract.constructor | contracts/ahjoor-rosca/src/lib.rs:14-15 | a freshly deployed contract has nothing stored and has made no transfer |
| Rosca.AhjoorContract.Init | contracts/ahjoor-rosca/src/lib.rs:19-28 | a second `init` fails with AlreadyInitialized whatever its arguments and changes nothing; the first stores the members, amount and token as given, with round 0, an empty paid list and no transfer |
| Rosca.AhjoorContract.Contribute | contracts/ahjoor-rosca/src/lib.rs:30-76 | failures in order: Unauthorized, NotInitialized, NotAMember, AlreadyContributed, then a rejected transfer; a failure changes nothing. Success keeps members, amount and token. A contribution that leaves the round open appends the contributor to `paid` and logs one transfer (contributor, contract, amount). One that completes it means every member has paid; it also logs (contract, members[old round mod n], amount * n), increments the round by one, clears `paid`, and pays out exactly what the round's contributions brought in. The invariant `Valid()` is kept |
| Rosca.AhjoorContract.GetState | contracts/ahjoor-rosca/src/lib.rs:78-82 | reads only. Returns (0, []) before `init`, otherwise exactly the stored round and paid list; the paid list it reports is duplicate-free, made of members and shorter than the member list |
| Rosca.PayeeIndex | contracts/ahjoor-rosca/src/lib.rs:63-64 | the payout index `round % n` is always a valid position in an n-member list |
| Rosca.ContributionKeepsInvariant | contracts/ahjoor-rosca/src/lib.rs:40-57 | a contribution by a member who has not paid yet keeps the paid list duplicate-free and made of members, and never makes it longer than the member list, so testing for equality is enough to catch a full round; if the round stays open the round invariant still holds |
| Rosca.CompletesExactlyWhenAllPaid | contracts/ahjoor-rosca/src/lib.rs:57 | if the member list has no duplicates, the length test `paid.len() == members.len()` holds exactly when every member has paid this round (both directions) |
| Rosca.DuplicateMembersNeverComplete | contracts/ahjoor-rosca/src/lib.rs:23-57 | `init` accepts a member list with a repeated address; for such a list, no contribution ever makes the paid list as long as the member list, so no round completes and nobody is paid out |
| Rosca.RoundRobinCovers | contracts/ahjoor-rosca/src/lib.rs:63-64 | in any n consecutive rounds, every position of an n-member list is chosen as payee at least once |
| Rosca.RoundRobinDistinct | contracts/ahjoor-rosca/src/lib.rs:63-71 | two rounds fewer than n apart choose different payee positions, so n consecutive rounds pay each position exactly once |
| Ledger.DepositsTotal | contracts/ahjoor-rosca/src/lib.rs:54-67 | the contributions of k payers bring `amount * k` into the contract. With k = n this is the pot `amount * n` paid out at completion |
| Ledger.RoundSettles | contracts/ahjoor-rosca/src/lib.rs:54-67 | when the log holds the round's earlier deposits and the last deposit and the payout are appended, the deposits of the round total `amount` once per payer, the last included |

## Left out

- Soroban instance storage is modelled as class fields. The source stores the
  extended paid list before it makes the deposit transfer. The model checks
  that the transfer goes through before it updates anything. Under the host's
  revert-on-panic the two are the same.
- The token contract is not modelled: no balances, no fees, and no reason for a
  refusal. A refused transfer is the single error `TransferRejected`. The
  `token` field is stored, but no transfer depends on it, since the log records
  only source, destination and amount.
- `require_auth` is host authentication and is modelled as the boolean
  `authorized`. The source's `init` has no authorization check, so the model's
  `Init` has none either.
- The second "Not initialized" check in `contribute`, on the paid list, is
  folded into the first. `init` always writes both keys, so the second check
  cannot fail on its own.
- Contribute: does not model fixed-width arithmetic. The round counter is a
  `u32` and `current_round + 1` can overflow it. The pot
  `amount * members.len()` is an `i128` and can overflow too. Both are
  unbounded integers here. Built with overflow checks, an overflow panics;
  built without them, it wraps. Neither behaviour is modelled.
- `init` validates nothing: the member list may be empty or contain duplicates,
  and the amount may be zero or negative. The model keeps this behaviour.
  `DuplicateMembersNeverComplete` shows what duplicates lead to. With an empty
  member list every authorized `contribute` fails with NotAMember.
- The contract's tests describe a different interface: an admin, round
  deadlines and a clock, a `close_round` operation, defaulter bookkeeping, and a
  three-value `get_state`. `lib.rs` implements none of these, so they are not
  part of this model. The payout here is `amount * members.len()`, as in
  `lib.rs`, not a multiple of the number of members who actually paid.
