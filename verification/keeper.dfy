/**
  The ballot keeper: typed reads and writes on the listing store and the
  ballot store, and the ballot lifecycle transitions that rest on them.

  Vote records share the ballot store in the source; here they are a
  separate map keyed by (ballot identifier, voter). The keeper's own
  operations never write vote records.
 */
module Keeper {
  import opened Types
  import opened Bank

  datatype Store = Store(
    ballots: map<string, Ballot>,
    listings: map<string, Listing>,
    votes: map<(string, Address), Vote>)

  const EmptyStore := Store(map[], map[], map[])

  /** A missing key reads as the zero ballot. */
  function GetBallot(s: Store, identifier: string): Ballot
  {
    if identifier in s.ballots then s.ballots[identifier] else ZeroBallot
  }

  /** A missing key reads as the zero listing. */
  function GetListing(s: Store, identifier: string): Listing
  {
    if identifier in s.listings then s.listings[identifier] else ZeroListing
  }

  /** Every stored ballot carries the key it is stored under. */
  ghost predicate WellKeyed(s: Store)
  {
    forall id :: id in s.ballots ==> s.ballots[id].identifier == id
  }

  /**
    Callers tell "found" from "not found" by a non-empty identifier; that is
    sound exactly when the store is well keyed.
   */
  lemma FoundIffIdentifier(s: Store, identifier: string)
    requires WellKeyed(s)
    requires identifier != ""
    ensures identifier in s.ballots <==> GetBallot(s, identifier).identifier != ""
    ensures identifier !in s.ballots ==> GetBallot(s, identifier) == ZeroBallot
  {
  }

  /** In any store, a missing ballot reads as the zero ballot, whose identifier is empty. */
  lemma MissingBallotReadsZero(s: Store, identifier: string)
    requires identifier !in s.ballots
    ensures GetBallot(s, identifier) == ZeroBallot && GetBallot(s, identifier).identifier == ""
  {
  }

  /** A missing listing reads as the zero listing, whose identifier is empty. */
  lemma MissingListingReadsZero(s: Store, identifier: string)
    requires identifier !in s.listings
    ensures GetListing(s, identifier) == ZeroListing && GetListing(s, identifier).identifier == ""
  {
  }

  /** Stores a pending ballot, overwriting whatever was there. */
  function AddBallot(s: Store, height: int, identifier: string, owner: Address, applyLen: int, bond: int): (r: Store)
    ensures GetBallot(r, identifier)
      == ZeroBallot.(identifier := identifier, owner := owner, bond := bond,
                     endApplyBlockStamp := height + applyLen)
    ensures forall k :: k != identifier ==> GetBallot(r, k) == GetBallot(s, k)
    ensures r.listings == s.listings && r.votes == s.votes
    ensures WellKeyed(s) ==> WellKeyed(r)
  {
    var pending := Ballot(identifier, owner, "", bond, false, height + applyLen, 0, 0, 0);
    s.(ballots := s.ballots[identifier := pending])
  }

  /** Removes the ballot record; an absent key is a no-op. */
  function DeleteBallot(s: Store, identifier: string): (r: Store)
    ensures GetBallot(r, identifier) == ZeroBallot && identifier !in r.ballots
    ensures forall k :: k != identifier ==> GetBallot(r, k) == GetBallot(s, k)
    ensures r.listings == s.listings && r.votes == s.votes
    ensures identifier !in s.ballots ==> r == s
    ensures WellKeyed(s) ==> WellKeyed(r)
  {
    s.(ballots := s.ballots - {identifier})
  }

  lemma DeleteBallotIdempotent(s: Store, identifier: string)
    ensures DeleteBallot(DeleteBallot(s, identifier), identifier) == DeleteBallot(s, identifier)
  {
  }

  /**
    A challenge. A ballot whose bond is below `minBond` (an absent ballot reads
    as bond 0) is deleted and the challenger refunded `challengeBond`; otherwise
    a challenge bond different from the ballot's bond is refused with code 115;
    otherwise the ballot becomes active and its commit and reveal windows start.
    `owner` is accepted and ignored, as in the source.
   */
  function ActivateBallot(s: Store, l: Ledger, height: int, owner: Address, challenger: Address,
                          identifier: string, commitLen: int, revealLen: int,
                          minBond: int, challengeBond: int): (r: (Store, Ledger, Outcome))
    // stale bond: delete and refund
    ensures GetBallot(s, identifier).bond < minBond ==>
      && r.2 == Ok
      && GetBallot(r.0, identifier) == ZeroBallot
      && (forall k :: k != identifier ==> GetBallot(r.0, k) == GetBallot(s, k))
      && Balance(r.1, challenger) == Balance(l, challenger) + challengeBond
      && (forall a :: a != challenger ==> Balance(r.1, a) == Balance(l, a))
    // bond mismatch: refused, nothing changes
    ensures minBond <= GetBallot(s, identifier).bond != challengeBond ==>
      r == (s, l, Fail(BondMismatch))
    // activation
    ensures minBond <= GetBallot(s, identifier).bond == challengeBond ==>
      var b, b' := GetBallot(s, identifier), GetBallot(r.0, identifier);
      && r.2 == Ok && r.1 == l
      && b'.active && b'.challenger == challenger
      && b'.endCommitBlockStamp == height + commitLen
      && b'.endApplyBlockStamp == b'.endCommitBlockStamp + revealLen
      && b'.(active := b.active, challenger := b.challenger,
             endCommitBlockStamp := b.endCommitBlockStamp,
             endApplyBlockStamp := b.endApplyBlockStamp) == b
      && (forall k :: k != identifier ==> GetBallot(r.0, k) == GetBallot(s, k))
    // no path touches listings or vote records
    ensures r.0.listings == s.listings && r.0.votes == s.votes
    ensures r.2.Fail? <==> minBond <= GetBallot(s, identifier).bond != challengeBond
  {
    var ballot := GetBallot(s, identifier);
    if ballot.bond < minBond then
      (DeleteBallot(s, identifier), Credit(l, challenger, challengeBond), Ok)
    else if ballot.bond != challengeBond then
      (s, l, Fail(BondMismatch))
    else
      var commitEnd := height + commitLen;
      var activated := ballot.(active := true, challenger := challenger,
                               endCommitBlockStamp := commitEnd,
                               endApplyBlockStamp := commitEnd + revealLen);
      (s.(ballots := s.ballots[identifier := activated]), l, Ok)
  }

  /**
    A missing ballot reads as bond 0, so with a positive `minBond` a challenge
    against it always takes the refund path.
   */
  lemma ActivateMissingBallotRefunds(s: Store, l: Ledger, height: int, owner: Address, challenger: Address,
                                     identifier: string, commitLen: int, revealLen: int,
                                     minBond: int, challengeBond: int)
    requires identifier !in s.ballots && minBond > 0
    ensures var r := ActivateBallot(s, l, height, owner, challenger, identifier,
                                    commitLen, revealLen, minBond, challengeBond);
      && r == (s, Credit(l, challenger, challengeBond), Ok)
  {
  }

  /**
    A challenge keeps the store well keyed unless it targets a missing ballot
    while `minBond <= 0`: then the zero ballot, whose identifier is empty, is
    activated and written under the key.
   */
  lemma ActivateKeepsWellKeyed(s: Store, l: Ledger, height: int, owner: Address, challenger: Address,
                               identifier: string, commitLen: int, revealLen: int,
                               minBond: int, challengeBond: int)
    requires WellKeyed(s)
    requires identifier in s.ballots || minBond > 0
    ensures WellKeyed(ActivateBallot(s, l, height, owner, challenger, identifier,
                                     commitLen, revealLen, minBond, challengeBond).0)
  {
  }

  /** The exception to `ActivateKeepsWellKeyed`, on a concrete store. */
  lemma ActivateMissingWithZeroMinBond()
    ensures var r := ActivateBallot(EmptyStore, map[], 0, "", "c", "X", 10, 10, 0, 0);
      && r.2 == Ok
      && "X" in r.0.ballots
      && r.0.ballots["X"].identifier == ""
      && r.0.ballots["X"].active
      && !WellKeyed(r.0)
  {
  }

  /**
    A revealed vote: `power` is added to approve or to deny. A missing ballot
    is refused with code 107. Neither the active flag nor the windows are
    checked, and no vote record is written. `owner` is ignored.
   */
  function VoteBallot(s: Store, owner: Address, identifier: string, vote: bool, power: int): (r: (Store, Outcome))
    ensures identifier !in s.ballots ==> r == (s, Fail(BallotNotFound))
    ensures identifier in s.ballots ==>
      var b, b' := s.ballots[identifier], GetBallot(r.0, identifier);
      && r.1 == Ok
      && b'.approve == b.approve + (if vote then power else 0)
      && b'.deny == b.deny + (if vote then 0 else power)
      && b'.(approve := b.approve, deny := b.deny) == b
      && identifier in r.0.ballots
    ensures forall k :: k != identifier ==> GetBallot(r.0, k) == GetBallot(s, k)
    ensures r.0.listings == s.listings && r.0.votes == s.votes
    ensures WellKeyed(s) ==> WellKeyed(r.0)
  {
    if identifier !in s.ballots then
      (s, Fail(BallotNotFound))
    else
      var ballot := s.ballots[identifier];
      var tallied := if vote then ballot.(approve := ballot.approve + power)
                     else ballot.(deny := ballot.deny + power);
      (s.(ballots := s.ballots[identifier := tallied]), Ok)
  }

  /** Stores the listing `{identifier, votes}`, overwriting any previous one. */
  function AddListing(s: Store, identifier: string, votes: int): (r: Store)
    ensures GetListing(r, identifier) == Listing(identifier, votes)
    ensures forall k :: k != identifier ==> GetListing(r, k) == GetListing(s, k)
    ensures r.ballots == s.ballots && r.votes == s.votes
  {
    s.(listings := s.listings[identifier := Listing(identifier, votes)])
  }

  /** Removes the listing; an absent key is a no-op. */
  function DeleteListing(s: Store, identifier: string): (r: Store)
    ensures GetListing(r, identifier) == ZeroListing && identifier !in r.listings
    ensures forall k :: k != identifier ==> GetListing(r, k) == GetListing(s, k)
    ensures r.ballots == s.ballots && r.votes == s.votes
    ensures identifier !in s.listings ==> r == s
  {
    s.(listings := s.listings - {identifier})
  }

  lemma DeleteListingIdempotent(s: Store, identifier: string)
    ensures DeleteListing(DeleteListing(s, identifier), identifier) == DeleteListing(s, identifier)
  {
  }

  /** Ballot writes and listing writes commute: they live in different stores. */
  lemma BallotAndListingWritesCommute(s: Store, height: int, id: string, owner: Address,
                                      applyLen: int, bond: int, lid: string, votes: int)
    ensures AddListing(AddBallot(s, height, id, owner, applyLen, bond), lid, votes)
         == AddBallot(AddListing(s, lid, votes), height, id, owner, applyLen, bond)
    ensures DeleteListing(DeleteBallot(s, id), lid) == DeleteBallot(DeleteListing(s, lid), id)
  {
  }

  /** The scenario of keeper_test.go TestAddGet and TestDelete (block height 0). */
  lemma AddGetDeleteScenario(addr: Address)
    ensures var s := AddBallot(EmptyStore, 0, "Unique registry listing", addr, 5, 50);
      && GetBallot(s, "Unique registry listing")
         == Ballot("Unique registry listing", addr, "", 50, false, 5, 0, 0, 0)
      && GetBallot(DeleteBallot(s, "Unique registry listing"), "Unique registry listing") == ZeroBallot
  {
  }

  /** The scenario of keeper_test.go TestActivate: stale refund, two mismatches, activation. */
  lemma ActivateScenario(addr: Address, challenger: Address)
    ensures
      var id := "Unique registry listing";
      var s1 := AddBallot(EmptyStore, 0, id, addr, 5, 50);
      var r1 := ActivateBallot(s1, map[], 0, addr, challenger, id, 10, 10, 100, 100);
      var s2 := AddBallot(r1.0, 0, id, addr, 5, 150);
      var r2 := ActivateBallot(s2, r1.1, 0, addr, challenger, id, 10, 10, 100, 100);
      var r3 := ActivateBallot(s2, r1.1, 0, addr, challenger, id, 10, 10, 100, 200);
      var r4 := ActivateBallot(s2, r1.1, 0, addr, challenger, id, 10, 10, 100, 150);
      && GetBallot(r1.0, id) == ZeroBallot
      && Balance(r1.1, challenger) == 100
      && r2.2 == Fail(BondMismatch) && r2.2.error.code == 115
      && r3.2 == Fail(BondMismatch)
      && r4.2 == Ok && GetBallot(r4.0, id).active
  {
  }

  /** The scenarios of keeper_test.go TestVote and TestAddDeleteList. */
  lemma VoteAndListingScenario(addr: Address)
    ensures
      var id := "Unique registry listing";
      var s := AddBallot(EmptyStore, 0, id, addr, 5, 50);
      && GetBallot(VoteBallot(s, addr, id, true, 50).0, id).approve == 50
      && GetListing(AddListing(EmptyStore, id, 200), id) == Listing(id, 200)
      && GetListing(DeleteListing(AddListing(EmptyStore, id, 200), id), id) == ZeroListing
  {
  }
}
