/**
 How the votes on the latest finalised Ethereum block pick the first range: the
 chosen block is an order statistic of the submitted values.
 */
module RangeSelection {
  import opened Prelude
  import opened Quorum
  import opened SortedNats

  type Account = nat

  /** Votes by the block they are for. */
  type Ballots = map<nat, set<Account>>

  /** Each author votes once, and no entry is empty. */
  ghost predicate OneVoteEach(votes: Ballots) {
    && (forall b :: b in votes ==> votes[b] != {})
    && (forall b, c :: b in votes && c in votes && b != c ==> votes[b] !! votes[c])
  }

  /** The authors who submitted one of the given blocks. */
  ghost function VotersIn(votes: Ballots, blocks: set<nat>): set<Account> {
    set b, a | b in blocks && b in votes && a in votes[b] :: a
  }

  ghost function Voters(votes: Ballots): set<Account> {
    VotersIn(votes, votes.Keys)
  }

  ghost function Below(votes: Ballots, limit: nat): set<nat> {
    set b | b in votes && b < limit
  }

  /** The authors who submitted a block below `limit`. */
  ghost function VotersBelow(votes: Ballots, limit: nat): set<Account> {
    VotersIn(votes, Below(votes, limit))
  }

  /** The authors who submitted `block` or a later one. */
  ghost function VotersFrom(votes: Ballots, block: nat): set<Account> {
    VotersIn(votes, votes.Keys - Below(votes, block))
  }

  lemma VotersUnion(votes: Ballots, a: set<nat>, b: set<nat>)
    requires OneVoteEach(votes) && a !! b
    ensures VotersIn(votes, a + b) == VotersIn(votes, a) + VotersIn(votes, b)
    ensures |VotersIn(votes, a + b)| == |VotersIn(votes, a)| + |VotersIn(votes, b)|
  {
    assert VotersIn(votes, a) !! VotersIn(votes, b);
  }

  lemma AddBlock(votes: Ballots, blocks: set<nat>, b: nat)
    requires OneVoteEach(votes) && b in votes && b !in blocks
    ensures |VotersIn(votes, blocks + {b})| == |VotersIn(votes, blocks)| + |votes[b]|
  {
    VotersUnion(votes, blocks, {b});
    VotersOfOne(votes, b);
  }

  lemma VotersOfOne(votes: Ballots, b: nat)
    requires b in votes
    ensures VotersIn(votes, {b}) == votes[b]
  {
  }

  ghost predicate HasSubmitted(votes: Ballots, author: Account) {
    exists b :: b in votes && author in votes[b]
  }

  function AddBallot(votes: Ballots, block: nat, author: Account): Ballots {
    votes[block := (if block in votes then votes[block] else {}) + {author}]
  }

  /** A first ballot keeps the ballots one per author and adds its author to the voters. */
  lemma AddBallotOk(votes: Ballots, block: nat, author: Account)
    requires OneVoteEach(votes) && !HasSubmitted(votes, author)
    ensures OneVoteEach(AddBallot(votes, block, author))
    ensures Voters(AddBallot(votes, block, author)) == Voters(votes) + {author}
  {
    AddedVoters(votes, block, author);
  }

  lemma AddedVoters(votes: Ballots, block: nat, author: Account)
    ensures Voters(AddBallot(votes, block, author)) == Voters(votes) + {author}
  {
    var votes' := AddBallot(votes, block, author);
    forall a ensures a in Voters(votes') <==> a in Voters(votes) + {author} {
      if a in Voters(votes) {
        var b :| b in votes && a in votes[b];
        assert b in votes' && a in votes'[b];
      }
      if a == author {
        assert block in votes' && a in votes'[block];
      }
      if a in Voters(votes') && a != author {
        var b :| b in votes' && a in votes'[b];
        assert b in votes && a in votes[b];
      }
    }
  }

  lemma NoBallots()
    ensures OneVoteEach(map[]) && Voters(map[]) == {}
  {
  }

  // ---------------------------------------------------------------- start blocks

  const START_MARGIN: nat := 5

  /** The start of the range a few ranges behind the last finalised block. */
  function ComputeStartBlock(block: nat, rangeLength: nat): Option<nat> {
    var calculation := SaturatingSub(block, START_MARGIN * rangeLength % U32_RANGE);
    if rangeLength == 0 then None
    else Some(SaturatingSub(calculation, calculation % rangeLength))
  }

  /** A start block is a multiple of the range length, not past the block it is computed from. */
  lemma StartBlockIsAligned(block: nat, rangeLength: nat)
    requires rangeLength > 0
    ensures var r := ComputeStartBlock(block, rangeLength);
            r.Some? && r.value <= block && exists k: nat :: r.value == k * rangeLength
  {
    var calculation := SaturatingSub(block, START_MARGIN * rangeLength % U32_RANGE);
    var k: nat := calculation / rangeLength;
    assert calculation == k * rangeLength + calculation % rangeLength;
  }

  // ---------------------------------------------------------------- sorted entries

  ghost predicate SortedKeysOf(keys: seq<nat>, votes: Ballots) {
    Ascending(keys) && Elements(keys) == votes.Keys
  }

  /** Collects the entries in whatever order the map yields them, counts the votes and sorts. */
  method CollectSubmittedBlocks(votes: Ballots) returns (blocks: seq<nat>, total: nat)
    requires OneVoteEach(votes)
    ensures SortedKeysOf(blocks, votes)
    ensures total == |Voters(votes)|
  {
    blocks, total := [], 0;
    var rest := votes.Keys;
    while rest != {}
      invariant rest <= votes.Keys && Ascending(blocks) && Elements(blocks) == votes.Keys - rest
      invariant total == |VotersIn(votes, votes.Keys - rest)|
      decreases |rest|
    {
      var block :| block in rest;
      assert block !in Elements(blocks);
      AddBlock(votes, votes.Keys - rest, block);
      assert votes.Keys - (rest - {block}) == votes.Keys - rest + {block};
      total := total + |votes[block]|;
      blocks := InsertSorted(blocks, block);
      rest := rest - {block};
    }
    assert votes.Keys - rest == votes.Keys;
  }

  // ---------------------------------------------------------------- selection

  /** The first block at which fewer than a quorum of the remaining threshold is left. */
  ghost function Select(keys: seq<nat>, votes: Ballots, remaining: nat, quorum: nat): Option<nat>
    requires forall k :: k in keys ==> k in votes
  {
    if keys == [] then None
    else
      var left := SaturatingSub(remaining, |votes[keys[0]]|);
      if left < quorum then Some(keys[0]) else Select(keys[1..], votes, left, quorum)
  }

  method SelectBlock(keys: seq<nat>, votes: Ballots, threshold: nat, quorum: nat) returns (r: Option<nat>)
    requires forall k :: k in keys ==> k in votes
    ensures r == Select(keys, votes, threshold, quorum)
  {
    var remaining: nat := threshold;
    for i := 0 to |keys|
      invariant Select(keys[i..], votes, remaining, quorum) == Select(keys, votes, threshold, quorum)
    {
      assert keys[i..][1..] == keys[i + 1..];
      remaining := SaturatingSub(remaining, |votes[keys[i]]|);
      if remaining < quorum {
        return Some(keys[i]);
      }
    }
    return None;
  }

  /** `block` is the value of rank `rank` (from zero) when all submitted values are put in order. */
  ghost predicate HasRank(votes: Ballots, block: nat, rank: nat) {
    && block in votes
    && |VotersBelow(votes, block)| <= rank < |VotersBelow(votes, block + 1)|
  }

  lemma BelowMonotone(votes: Ballots, a: nat, b: nat)
    requires a <= b
    ensures VotersBelow(votes, a) <= VotersBelow(votes, b)
    ensures |VotersBelow(votes, a)| <= |VotersBelow(votes, b)|
  {
    SubsetCount(VotersBelow(votes, a), VotersBelow(votes, b));
  }

  /** A rank names one block. */
  lemma RankIsUnique(votes: Ballots, a: nat, b: nat, rank: nat)
    requires HasRank(votes, a, rank) && HasRank(votes, b, rank)
    ensures a == b
  {
    if a < b {
      BelowMonotone(votes, a + 1, b);
    } else if b < a {
      BelowMonotone(votes, b + 1, a);
    }
  }

  /** Passing one entry adds its voters to those below. */
  lemma NextBelow(votes: Ballots, keys: seq<nat>)
    requires OneVoteEach(votes) && Ascending(keys) && |keys| > 0
    requires keys[0] in votes && forall b :: b in votes && b >= keys[0] ==> b in keys
    ensures |VotersBelow(votes, keys[0] + 1)| == |VotersBelow(votes, keys[0])| + |votes[keys[0]]|
    ensures |keys| > 1 ==> VotersBelow(votes, keys[1]) == VotersBelow(votes, keys[0] + 1)
    ensures |keys| == 1 ==> Voters(votes) == VotersBelow(votes, keys[0] + 1)
  {
    var k := keys[0];
    assert Below(votes, k + 1) == Below(votes, k) + {k};
    AddBlock(votes, Below(votes, k), k);
    if |keys| > 1 {
      BelowNext(votes, keys);
    } else {
      assert Below(votes, k + 1) == votes.Keys;
    }
  }

  lemma BelowNext(votes: Ballots, keys: seq<nat>)
    requires Ascending(keys) && |keys| > 1
    requires forall b :: b in votes && b >= keys[0] ==> b in keys
    ensures Below(votes, keys[1]) == Below(votes, keys[0] + 1)
  {
    forall b | b in votes && b < keys[1] ensures b < keys[0] + 1 {
      assert b in keys || b < keys[0];
    }
  }

  lemma {:induction false} SelectHasRank(keys: seq<nat>, votes: Ballots, remaining: nat, quorum: nat, rank: nat)
    requires OneVoteEach(votes) && Ascending(keys) && keys != []
    requires forall k :: k in keys ==> k in votes
    requires forall b :: b in votes && b >= keys[0] ==> b in keys
    requires quorum >= 1 && remaining >= quorum
    requires remaining - quorum + |VotersBelow(votes, keys[0])| == rank
    requires rank < |Voters(votes)|
    ensures Select(keys, votes, remaining, quorum).Some?
    ensures HasRank(votes, Select(keys, votes, remaining, quorum).value, rank)
    decreases |keys|
  {
    NextBelow(votes, keys);
    var left := SaturatingSub(remaining, |votes[keys[0]]|);
    if left >= quorum {
      var rest := keys[1..];
      assert |keys| > 1;
      assert rest[0] == keys[1];
      forall b | b in votes && b >= rest[0] ensures b in rest {
        var i :| 0 <= i < |keys| && keys[i] == b;
        assert rest[i - 1] == b;
      }
      SelectHasRank(rest, votes, left, quorum, rank);
    }
  }

  /**
   With two or more validators the chosen start block has rank S - q among the
   submitted values, so at least a quorum of distinct authors submitted that block
   or a later one, and more than S - q submitted it or an earlier one.
   */
  lemma SelectionIsOrderStatistic(keys: seq<nat>, votes: Ballots, n: nat)
    requires n >= 2 && OneVoteEach(votes) && SortedKeysOf(keys, votes)
    requires |Voters(votes)| >= RequiredForSupermajority(n)
    ensures var chosen := Select(keys, votes, RequiredForSupermajority(n), RequiredFor(n));
            && chosen.Some?
            && HasRank(votes, chosen.value, RequiredForSupermajority(n) - RequiredFor(n))
            && |VotersFrom(votes, chosen.value)| >= RequiredFor(n)
  {
    var s, q := RequiredForSupermajority(n), RequiredFor(n);
    QuorumIsAThird(n);
    assert forall k :: k in keys ==> k in Elements(keys);
    assert keys == [] ==> votes.Keys == {} && Voters(votes) == {};
    assert Below(votes, keys[0]) == {} by {
      forall b | b in votes ensures b >= keys[0] {
        assert b in Elements(keys);
        var i :| 0 <= i < |keys| && keys[i] == b;
      }
    }
    assert VotersBelow(votes, keys[0]) == {};
    assert forall b :: b in votes ==> b in Elements(keys);
    SelectHasRank(keys, votes, s, q, s - q);
    var chosen := Select(keys, votes, s, q).value;
    SplitAt(votes, chosen);
  }

  lemma SplitAt(votes: Ballots, block: nat)
    requires OneVoteEach(votes)
    ensures |VotersBelow(votes, block)| + |VotersFrom(votes, block)| == |Voters(votes)|
  {
    VotersUnion(votes, Below(votes, block), votes.Keys - Below(votes, block));
    assert votes.Keys == Below(votes, block) + (votes.Keys - Below(votes, block));
  }

  // ---------------------------------------------------------------- the bounded clear

  /** Distinct votes cannot spread over more entries than there are voters. */
  lemma EntriesAtMostVoters(votes: Ballots)
    requires OneVoteEach(votes)
    ensures |votes| <= |Voters(votes)|
  {
    assert |votes| == |votes.Keys|;
    BlocksAtMostVoters(votes, votes.Keys);
  }

  lemma {:induction false} BlocksAtMostVoters(votes: Ballots, blocks: set<nat>)
    requires OneVoteEach(votes) && blocks <= votes.Keys
    ensures |blocks| <= |VotersIn(votes, blocks)|
    decreases |blocks|
  {
    if blocks != {} {
      var k :| k in blocks;
      var rest := blocks - {k};
      BlocksAtMostVoters(votes, rest);
      AddBlock(votes, rest, k);
      assert blocks == rest + {k};
    }
  }
}
