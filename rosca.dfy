/** The round engine of the Ahjoor rotating savings contract
    (contracts/ahjoor-rosca/src/lib.rs): a fixed member list pays a fixed
    contribution each round, and when everybody has paid the whole pot goes to
    the member whose turn it is, chosen round-robin by the round counter.

    The contract's instance storage becomes the fields of `AhjoorContract`; the
    token contract becomes the `accepts` parameter (does it carry out this
    transfer?) together with the append-only `log` of transfers it carried out;
    `require_auth` becomes the `authorized` parameter; a panic becomes a `Fail`
    outcome that leaves every field as it was, as the host's revert does. */
module Rosca {
  import opened Distinct
  import opened Ledger

  /** The panics of the contract, one per message. */
  datatype Error =
    | AlreadyInitialized   // "Already initialized"
    | NotInitialized       // "Not initialized"
    | NotAMember           // "Not a member"
    | AlreadyContributed   // "Already contributed for this round"
    | Unauthorized         // require_auth failed
    | TransferRejected     // the token contract refused a transfer

  /** How a call ends: normally, or with a panic that reverts it. */
  datatype Outcome = Done | Fail(error: Error)

  /** The position in the member list paid out in round `round`, among `n` members. */
  function PayeeIndex(round: nat, n: nat): (i: nat)
    requires n > 0
    ensures i < n
  {
    round % n
  }

  /** The state of a round between calls: nobody paid twice, only members paid,
      and the round is still open (a full paid list is reset in the same call). */
  predicate RoundInvariant(members: seq<Address>, paid: seq<Address>) {
    NoDup(paid) && SubsetOf(paid, members) && (|paid| < |members| || members == [])
  }

  /** Accepting a contribution from a member who has not paid yet keeps the
      paid list duplicate-free and made of members, and the list can never
      outgrow the member list: the round is either filled exactly, and then
      reset, or still open with the round invariant intact. */
  lemma ContributionKeepsInvariant(members: seq<Address>, paid: seq<Address>, contributor: Address)
    requires NoDup(paid) && SubsetOf(paid, members)
    requires contributor in members && contributor !in paid
    ensures NoDup(paid + [contributor]) && SubsetOf(paid + [contributor], members)
    ensures |paid| + 1 <= |members|
    ensures |paid| + 1 != |members| ==> RoundInvariant(members, paid + [contributor])
  {
    AppendNoDup(paid, contributor);
    DistinctSubsetLength(paid + [contributor], members);
  }

  /** With a duplicate-free member list, a contribution completes the round
      exactly when, counting it, every member has paid this round. */
  lemma CompletesExactlyWhenAllPaid(members: seq<Address>, paid: seq<Address>, contributor: Address)
    requires NoDup(members)
    requires RoundInvariant(members, paid)
    requires contributor in members && contributor !in paid
    ensures |paid + [contributor]| == |members| <==> SubsetOf(members, paid + [contributor])
  {
    var now := paid + [contributor];
    AppendNoDup(paid, contributor);
    if |now| == |members| {
      FullCovers(now, members);
    }
    if SubsetOf(members, now) {
      CoverIsFull(now, members);
    }
  }

  /** The contract does not reject a member list with a repeated address; with
      one, no contribution ever completes the round, so nobody is ever paid out. */
  lemma DuplicateMembersNeverComplete(members: seq<Address>, paid: seq<Address>, contributor: Address)
    requires !NoDup(members)
    requires RoundInvariant(members, paid)
    requires contributor in members && contributor !in paid
    ensures |paid + [contributor]| < |members|
  {
    AppendNoDup(paid, contributor);
    DuplicatesNeverFull(paid + [contributor], members);
  }

  /** Round-robin coverage: in any `n` consecutive rounds every position of an
      `n`-member list is chosen as payee. */
  lemma RoundRobinCovers(n: nat, start: nat, j: nat)
    requires j < n
    ensures exists r :: start <= r < start + n && PayeeIndex(r, n) == j
  {
    var base := start - start % n;
    var r := if j >= start % n then base + j else base + n + j;
    assert base == (start / n) * n;
    if j >= start % n {
      DivModUnique(r, n, start / n, j);
    } else {
      assert r == (start / n + 1) * n + j;
      DivModUnique(r, n, start / n + 1, j);
    }
    assert PayeeIndex(r, n) == j;
  }

  /** Round-robin without repetition: two of any `n` consecutive rounds never
      choose the same position of an `n`-member list. */
  lemma RoundRobinDistinct(n: nat, r1: nat, r2: nat)
    requires n > 0 && r1 < r2 < r1 + n
    ensures PayeeIndex(r1, n) != PayeeIndex(r2, n)
  {
    if r1 % n == r2 % n {
      var q1, q2 := r1 / n, r2 / n;
      assert r2 - r1 == q2 * n - q1 * n == (q2 - q1) * n;
      MultipleIsFar(q2 - q1, n);
    }
  }

  /** A non-zero multiple of `n` is at least `n` away from zero. */
  lemma MultipleIsFar(m: int, n: int)
    requires n > 0 && m != 0
    ensures m * n >= n || m * n <= -n
  {
  }

  /** Quotient and remainder are unique: `r` is the remainder of `q * n + r`. */
  lemma DivModUnique(a: nat, n: nat, q: int, r: int)
    requires n > 0 && 0 <= r < n && a == q * n + r
    ensures a % n == r
  {
    var q', r' := a / n, a % n;
    assert (q - q') * n == q * n - q' * n == r' - r;
    if q != q' {
      MultipleIsFar(q - q', n);
    }
  }

  /** The persisted record of one contract instance, with the transfers it has
      asked the token contract to make. */
  class AhjoorContract {
    /** The contract's own address: contributions are paid into it and the pot
        is paid out of it. */
    const contractAddress: Address

    var initialized: bool      // DataKey::Members is present
    var members: seq<Address>  // DataKey::Members
    var amount: int            // DataKey::ContributionAmt
    var token: Address         // DataKey::Token
    var round: nat             // DataKey::CurrentRound
    var paid: seq<Address>     // DataKey::PaidMembers
    /** Every transfer carried out on the contract's behalf, oldest first. */
    var log: seq<Transfer>
    /** Where in `log` the contributions of the current round begin. */
    ghost var roundStart: nat

    ghost predicate Valid()
      reads this
    {
      (!initialized ==> members == [] && round == 0 && paid == [] && log == []) &&
      RoundInvariant(members, paid) &&
      roundStart <= |log| &&
      log[roundStart..] == Deposits(paid, contractAddress, amount)
    }

    /** A freshly deployed contract: nothing stored, nothing transferred. */
    constructor (address: Address)
      ensures Valid()
      ensures contractAddress == address && !initialized && log == []
    {
      contractAddress := address;
      initialized := false;
      members, paid, log := [], [], [];
      round, roundStart := 0, 0;
      amount, token := 0, address;
    }

    /** `init`: stores the member list, the contribution and the token, with
        round 0 and nobody paid. It can succeed once only, whoever calls it and
        whatever it is given; no transfer is made. */
    method Init(newMembers: seq<Address>, contribution: int, tokenAddress: Address) returns (r: Outcome)
      requires Valid()
      modifies this
      ensures Valid()
      ensures old(initialized) ==> r == Fail(AlreadyInitialized) && unchanged(this)
      ensures !old(initialized) ==>
        r == Done && initialized &&
        members == newMembers && amount == contribution && token == tokenAddress &&
        round == 0 && paid == [] && log == old(log)
    {
      if initialized {
        return Fail(AlreadyInitialized);
      }
      initialized := true;
      members, amount, token := newMembers, contribution, tokenAddress;
      round, paid := 0, [];
      roundStart := |log|;
      r := Done;
    }

    /** `contribute`: the checks in the contract's order, then the deposit and,
        when it fills the round, the payout to the member whose turn it is. */
    method Contribute(contributor: Address, authorized: bool, accepts: Transfer -> bool) returns (r: Outcome)
      requires Valid()
      modifies this
      ensures Valid()
      // what init stored is never touched
      ensures initialized == old(initialized) && members == old(members)
      ensures amount == old(amount) && token == old(token)
      // the failures, in the order they are checked
      ensures !authorized ==> r == Fail(Unauthorized)
      ensures authorized && !initialized ==> r == Fail(NotInitialized)
      ensures authorized && initialized && contributor !in members ==> r == Fail(NotAMember)
      ensures authorized && initialized && contributor in members && contributor in old(paid) ==>
        r == Fail(AlreadyContributed)
      ensures authorized && initialized && contributor in members && contributor !in old(paid) ==>
        r == if !accepts(Transfer(contributor, contractAddress, amount)) then Fail(TransferRejected)
             else if |old(paid)| + 1 == |members|
                     && !accepts(Transfer(contractAddress, members[PayeeIndex(old(round), |members|)], amount * |members|))
             then Fail(TransferRejected)
             else Done
      // a failed call changes nothing
      ensures r.Fail? ==> round == old(round) && paid == old(paid) && log == old(log) && roundStart == old(roundStart)
      // a contribution that leaves the round open
      ensures r.Done? && |old(paid)| + 1 < |members| ==>
        paid == old(paid) + [contributor] && round == old(round) &&
        log == old(log) + [Transfer(contributor, contractAddress, amount)]
      // a contribution that completes the round
      ensures r.Done? ==> |old(paid)| + 1 <= |members|
      ensures r.Done? && |old(paid)| + 1 == |members| ==>
        SubsetOf(members, old(paid) + [contributor]) &&
        paid == [] && round == old(round) + 1 &&
        log == old(log) + [Transfer(contributor, contractAddress, amount),
                           Transfer(contractAddress, members[PayeeIndex(old(round), |members|)], amount * |members|)]
      // the pot paid out is exactly what the round's contributions brought in
      ensures r.Done? && |old(paid)| + 1 == |members| ==>
        Total(log[old(roundStart)..|log| - 1]) == log[|log| - 1].amount
    {
      if !authorized {
        return Fail(Unauthorized);
      }
      if !initialized {
        return Fail(NotInitialized);
      }
      if contributor !in members {
        return Fail(NotAMember);
      }
      if contributor in paid {
        return Fail(AlreadyContributed);
      }
      var paidNow := paid + [contributor];
      var deposit := Transfer(contributor, contractAddress, amount);
      if !accepts(deposit) {
        return Fail(TransferRejected);
      }
      ContributionKeepsInvariant(members, paid, contributor);
      if |paidNow| == |members| {
        var payout := Transfer(contractAddress, members[PayeeIndex(round, |members|)], amount * |members|);
        if !accepts(payout) {
          return Fail(TransferRejected);
        }
        FullCovers(paidNow, members);
        RoundSettles(log, roundStart, paid, contributor, contractAddress, amount, payout);
        log := log + [deposit, payout];
        round := round + 1;
        paid := [];
        roundStart := |log|;
        assert log[roundStart..] == [] == Deposits(paid, contractAddress, amount);
      } else {
        DepositRecorded(log, roundStart, paid, contributor, contractAddress, amount);
        log := log + [deposit];
        paid := paidNow;
        assert log[roundStart..] == Deposits(paid, contractAddress, amount);
      }
      r := Done;
    }

    /** `get_state`: the stored round counter and paid list, or `(0, [])`
        before `init`; the paid list it reports is duplicate-free, made of
        members, and shorter than the member list. */
    function GetState(): (state: (nat, seq<Address>))
      reads this
      requires Valid()
      ensures initialized ==> state == (round, paid)
      ensures !initialized ==> state == (0, [])
      ensures RoundInvariant(members, state.1)
    {
      if initialized then (round, paid) else (0, [])
    }
  }

  /** The opening of a round among three members, every transfer accepted by
      the token contract: the first two contributions leave the round open, and
      a second contribution by the same member is refused. */
  method ThreeMemberRoundOpens(a: Address, b: Address, c: Address, contract: Address)
    requires a != b && b != c && a != c
  {
    var rosca := new AhjoorContract(contract);
    var everything := (t: Transfer) => true;
    var r := rosca.Init([a, b, c], 100, contract);
    assert r == Done && rosca.members == [a, b, c] && rosca.paid == [];
    r := rosca.Contribute(a, true, everything);
    assert r == Done && rosca.paid == [a] && rosca.round == 0;
    r := rosca.Contribute(a, true, everything);
    assert r == Fail(AlreadyContributed) && rosca.paid == [a];
    r := rosca.Contribute(b, true, everything);
    assert r == Done && rosca.paid == [a, b] && rosca.round == 0;
  }

  /** The close of that round: the third contribution pays the pot of three
      contributions to the member at position 0 and opens round 1. */
  method ThreeMemberRoundCompletes(rosca: AhjoorContract, a: Address, b: Address, c: Address)
    requires a != b && b != c && a != c
    requires rosca.Valid() && rosca.initialized
    requires rosca.members == [a, b, c] && rosca.amount == 100
    requires rosca.paid == [a, b] && rosca.round == 0
    modifies rosca
  {
    var r := rosca.Contribute(c, true, (t: Transfer) => true);
    assert r == Done && rosca.round == 1 && rosca.paid == [];
    assert rosca.log[|rosca.log| - 1] == Transfer(rosca.contractAddress, a, 300);
    assert rosca.GetState() == (1, []);
  }
}
