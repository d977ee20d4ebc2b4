/** The quorum policy of the validator set and the counting facts votes rely on. */
module Quorum {

  function RequiredFor(n: nat): nat {
    n - n * 2 / 3
  }

  function RequiredForSupermajority(n: nat): nat {
    n * 2 / 3
  }

  /** The quorum is a third rounded up, and quorum and supermajority split the validators. */
  lemma QuorumIsAThird(n: nat)
    ensures 3 * RequiredFor(n) >= n
    ensures n > 0 ==> 3 * (RequiredFor(n) - 1) < n
    ensures RequiredFor(n) + RequiredForSupermajority(n) == n
    ensures n >= 2 ==> 1 <= RequiredFor(n) <= RequiredForSupermajority(n)
  {
  }

  /** Two sides that are both short of a quorum leave someone who has not voted. */
  lemma TwoMinoritiesLeaveOne(n: nat, yes: nat, no: nat)
    requires n >= 1
    requires yes < RequiredFor(n) && no < RequiredFor(n)
    ensures yes + no < n
  {
    QuorumIsAThird(n);
  }
}
