/**
  The raw key layout of the ballot store in the source, kept apart from the
  typed model. A ballot lives under its identifier and a vote record under
  identifier + "votes" + voter, and settlement iterates, pays and deletes
  every key that starts with identifier + "votes". That prefix also matches
  the keys of any ballot whose identifier begins with identifier + "votes",
  and of its vote records.

  The typed model keys vote records by the pair (identifier, voter), and
  `Settlement.DeleteVotes` removes only the settled ballot's records.
 */
module RawKeys {
  import opened Types

  const VotesInfix := "votes"

  function BallotKey(identifier: string): string
  {
    identifier
  }

  function VoteKey(identifier: string, voter: Address): string
  {
    identifier + VotesInfix + voter
  }

  /** The prefix settlement iterates over for one ballot. */
  function VotePrefix(identifier: string): string
  {
    identifier + VotesInfix
  }

  /** What a raw key of the ballot store holds. */
  datatype Record = BallotRecord(ballot: Ballot) | VoteRecord(vote: Vote)

  type RawStore = map<string, Record>

  /** The keys the prefix iterator visits when `identifier` is settled. */
  function VisitedKeys(raw: RawStore, identifier: string): (keys: set<string>)
    ensures forall k :: k in keys <==> k in raw && VotePrefix(identifier) <= k
  {
    set k | k in raw.Keys && VotePrefix(identifier) <= k
  }

  /** The address a visited key is paid to: the key with the prefix cut off. */
  function VisitedVoter(key: string, identifier: string): Address
    requires VotePrefix(identifier) <= key
  {
    key[|VotePrefix(identifier)|..]
  }

  /** The batch delete as written: every visited key goes. */
  function DeleteVisited(raw: RawStore, identifier: string): (r: RawStore)
    ensures forall k :: k in r <==> k in raw && !(VotePrefix(identifier) <= k)
  {
    raw - VisitedKeys(raw, identifier)
  }

  /** The vote key of a ballot is always visited when that ballot is settled. */
  lemma OwnVoteKeyVisited(identifier: string, voter: Address)
    ensures VotePrefix(identifier) <= VoteKey(identifier, voter)
    ensures VisitedVoter(VoteKey(identifier, voter), identifier) == voter
  {
    assert VoteKey(identifier, voter) == VotePrefix(identifier) + voter;
  }

  /**
    Every ballot whose identifier extends another's vote prefix is visited,
    together with all of its vote records, when the other ballot settles.
   */
  lemma ForeignKeysVisited(identifier: string, suffix: string, voter: Address)
    ensures VotePrefix(identifier) <= BallotKey(VotePrefix(identifier) + suffix)
    ensures VotePrefix(identifier) <= VoteKey(VotePrefix(identifier) + suffix, voter)
    ensures VisitedVoter(VoteKey(VotePrefix(identifier) + suffix, voter), identifier)
         == suffix + VotesInfix + voter
  {
    var p := VotePrefix(identifier);
    assert VoteKey(p + suffix, voter) == p + (suffix + VotesInfix + voter);
  }

  /** Two different (identifier, voter) pairs share one raw key. */
  lemma VoteKeyNotInjective()
    ensures ("a", "votesb") != ("avotes", "b")
    ensures VoteKey("a", "votesb") == VoteKey("avotes", "b")
  {
  }

  /**
    Settling ballot "a" removes ballot "avotes" and its vote by "w", and pays
    that vote to the address "votesw" instead of "w".
   */
  lemma SettlingDeletesForeignBallot(other: Ballot, v: Vote)
    ensures
      var raw := map[BallotKey("avotes") := BallotRecord(other), VoteKey("avotes", "w") := VoteRecord(v)];
      && BallotKey("avotes") in VisitedKeys(raw, "a")
      && VoteKey("avotes", "w") in VisitedKeys(raw, "a")
      && VisitedVoter(VoteKey("avotes", "w"), "a") == "votesw"
      && DeleteVisited(raw, "a") == map[]
  {
    ForeignKeysVisited("a", "", "w");
    var raw := map[BallotKey("avotes") := BallotRecord(other), VoteKey("avotes", "w") := VoteRecord(v)];
    assert BallotKey("avotes") in VisitedKeys(raw, "a");
    assert VoteKey("avotes", "w") in VisitedKeys(raw, "a");
  }
}
