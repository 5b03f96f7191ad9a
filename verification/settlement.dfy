/**
  End-of-block settlement of the ballot at the head of the proposal queue.

  `Settle` is the reference definition: what one tick does to the stores, the
  queue and the ledger. `EndBlocker` follows the source step by step (a single
  pass over the ballot's vote records crediting each voter, then a batch delete
  of the visited keys) and is proved to compute the same state.

  The queue's own code is not part of this model: its head is the ballot stored
  under the first queued identifier (the zero ballot when the queue is empty)
  and a pop drops that identifier. `DeactivateBallot` is supplied as a function
  from the stored ballot to its replacement; it is a no-op on a missing key.
 */
module Settlement {
  import opened Types
  import opened Bank
  import opened Keeper
  import opened Numeric

  /** Everything one settlement tick reads or writes. */
  datatype Registry = Registry(store: Store, queue: seq<string>, ledger: Ledger)

  /** `ProposalQueueHead`. */
  function QueueHead(g: Registry): Ballot
  {
    if |g.queue| == 0 then ZeroBallot else GetBallot(g.store, g.queue[0])
  }

  /** `ProposalQueuePop`: drops exactly the head identifier. */
  function QueuePop(g: Registry): (r: Registry)
    ensures |g.queue| > 0 ==> r.queue == g.queue[1..] && |r.queue| == |g.queue| - 1
    ensures r.store == g.store && r.ledger == g.ledger
  {
    if |g.queue| == 0 then g else g.(queue := g.queue[1..])
  }

  /** A tick acts only on a real head ballot whose current window has elapsed. */
  predicate Due(g: Registry, height: int)
  {
    var b := QueueHead(g);
    !(height < b.endApplyBlockStamp || b.identifier == "")
  }

  /** `DeactivateBallot`: rewrites only the ballot under `identifier`, if there is one. */
  function DeactivateBallot(s: Store, identifier: string, deactivate: Ballot -> Ballot): (r: Store)
    ensures identifier !in s.ballots ==> r == s
    ensures identifier in r.ballots <==> identifier in s.ballots
    ensures forall k :: k != identifier ==> GetBallot(r, k) == GetBallot(s, k)
    ensures r.listings == s.listings && r.votes == s.votes
  {
    if identifier in s.ballots then s.(ballots := s.ballots[identifier := deactivate(s.ballots[identifier])])
    else s
  }

  /** The keys of the vote records under one ballot. */
  function VoteKeys(votes: map<(string, Address), Vote>, identifier: string): set<(string, Address)>
  {
    set k | k in votes.Keys && k.0 == identifier
  }

  /** The voters who hold a vote record under one ballot. */
  function Voters(votes: map<(string, Address), Vote>, identifier: string): set<Address>
  {
    set k | k in votes.Keys && k.0 == identifier :: k.1
  }

  lemma VoterHasRecord(votes: map<(string, Address), Vote>, identifier: string, v: Address)
    ensures v in Voters(votes, identifier) <==> (identifier, v) in votes
  {
    if v in Voters(votes, identifier) {
      var k :| k in votes.Keys && k.0 == identifier && k.1 == v;
      assert k == (identifier, v);
    }
  }

  /** Removes every vote record under `identifier` and nothing else. */
  function DeleteVotes(s: Store, identifier: string): (r: Store)
    ensures forall k :: k in r.votes <==> k in s.votes && k.0 != identifier
    ensures forall k :: k in r.votes ==> r.votes[k] == s.votes[k]
    ensures r.ballots == s.ballots && r.listings == s.listings
  {
    s.(votes := s.votes - VoteKeys(s.votes, identifier))
  }

  /**
    What one vote record pays its voter: the stake back, plus a dividend share
    when the vote was on the winning side.
   */
  function Payout(vote: Vote, correctVote: bool, pool: int, bond: int, pct: Fraction): int
  {
    if correctVote == vote.choice then vote.power + VoterDividend(vote.power, pool, bond, pct)
    else vote.power
  }

  /**
    A losing vote gets exactly its stake back. A winning vote gets its stake
    plus its integer share `power * bond * num / (pool * den)` of the bond
    dividend, rounded toward zero. For a stake within a positive pool, no vote
    gets less than its stake or more than its stake plus the whole bond dividend.
   */
  lemma PayoutShare(vote: Vote, correctVote: bool, pool: int, bond: int, pct: Fraction)
    ensures vote.choice != correctVote ==> Payout(vote, correctVote, pool, bond, pct) == vote.power
    ensures vote.choice == correctVote && pool != 0 ==>
      Payout(vote, correctVote, pool, bond, pct) == vote.power + TruncDiv(vote.power * bond * pct.num, pool * pct.den)
    ensures 0 <= vote.power <= pool && pool > 0 && bond >= 0 && pct.num >= 0 ==>
      vote.power <= Payout(vote, correctVote, pool, bond, pct) <= vote.power + BondDividend(bond, pct)
  {
    VoterDividendTruncatesShare(vote.power, pool, bond, pct);
    if 0 <= vote.power <= pool && pool > 0 && bond >= 0 && pct.num >= 0 {
      VoterDividendNonNegative(vote.power, pool, bond, pct);
      VoterDividendAtMostBondDividend(vote.power, pool, bond, pct);
    }
  }

  /** The payout of every voter of one ballot, each voter once. */
  function VoterPayouts(votes: map<(string, Address), Vote>, identifier: string, correctVote: bool,
                        pool: int, bond: int, pct: Fraction): (pay: map<Address, int>)
    ensures forall v :: v in pay <==> (identifier, v) in votes
    ensures forall v :: v in pay ==> pay[v] == Payout(votes[(identifier, v)], correctVote, pool, bond, pct)
  {
    forall v | v in Voters(votes, identifier)
      ensures (identifier, v) in votes
    {
      VoterHasRecord(votes, identifier, v);
    }
    forall v | (identifier, v) in votes
      ensures v in Voters(votes, identifier)
    {
      VoterHasRecord(votes, identifier, v);
    }
    map v | v in Voters(votes, identifier) :: Payout(votes[(identifier, v)], correctVote, pool, bond, pct)
  }

  /** Who is paid for the outcome of a challenged ballot: the owner on approve, the challenger on deny. */
  function Party(b: Ballot, approved: bool): Address
  {
    if approved then b.owner else b.challenger
  }

  /** The owner gets the bond dividend; the challenger gets the bond back plus the dividend. */
  function PartyReward(b: Ballot, approved: bool, pct: Fraction): int
  {
    if approved then BondDividend(b.bond, pct) else b.bond + BondDividend(b.bond, pct)
  }

  /** The tally the winning voters' dividend is shared over. */
  function Pool(b: Ballot, approved: bool): int
  {
    if approved then b.approve else b.deny
  }

  /**
    The store half of the verdict: on approve the listing is written with the
    approve tally and the ballot kept; on deny both listing and ballot go.
   */
  function Decide(s: Store, b: Ballot, approved: bool): (r: Store)
    ensures approved ==> GetListing(r, b.identifier) == Listing(b.identifier, b.approve)
                         && r.ballots == s.ballots
    ensures !approved ==> b.identifier !in r.listings && b.identifier !in r.ballots
    ensures forall k :: k != b.identifier ==> GetListing(r, k) == GetListing(s, k)
    ensures forall k :: k != b.identifier ==> GetBallot(r, k) == GetBallot(s, k)
    ensures r.votes == s.votes
  {
    if approved then AddListing(s, b.identifier, b.approve)
    else DeleteBallot(DeleteListing(s, b.identifier), b.identifier)
  }

  /**
    Settlement of a challenged ballot `b` once it has been popped: the quorum
    decides, the winning party and every voter are paid, the vote records are
    consumed and the ballot is deactivated.
   */
  function Resolve(g: Registry, b: Ballot, quorum: Fraction, pct: Fraction,
                   deactivate: Ballot -> Ballot): (r: Registry)
    ensures r.queue == g.queue
    ensures var id, approved := b.identifier, ApproveWins(b.approve, b.deny, quorum);
      && (approved ==> GetListing(r.store, id) == Listing(id, b.approve)
                       && (id in r.store.ballots <==> id in g.store.ballots))
      && (!approved ==> id !in r.store.listings && id !in r.store.ballots)
      && (forall k :: k != id ==> GetListing(r.store, k) == GetListing(g.store, k))
      && (forall k :: k != id ==> GetBallot(r.store, k) == GetBallot(g.store, k))
    // every vote record of the ballot is consumed, no other one is touched
    ensures forall k :: k in r.store.votes <==> k in g.store.votes && k.0 != b.identifier
    ensures forall k :: k in r.store.votes ==> r.store.votes[k] == g.store.votes[k]
  {
    var approved := ApproveWins(b.approve, b.deny, quorum);
    var decided := Decide(g.store, b, approved);
    var rewarded := Credit(g.ledger, Party(b, approved), PartyReward(b, approved, pct));
    var pay := VoterPayouts(decided.votes, b.identifier, approved, Pool(b, approved), b.bond, pct);
    var cleared := DeactivateBallot(DeleteVotes(decided, b.identifier), b.identifier, deactivate);
    Registry(cleared, g.queue, CreditAll(rewarded, pay))
  }

  /**
    What settlement of a challenged ballot pays: each address gets the party
    reward if it is the winning party, plus its own vote's payout if it voted
    on the ballot; nobody else's balance moves.
   */
  lemma ResolvePays(g: Registry, b: Ballot, quorum: Fraction, pct: Fraction,
                    deactivate: Ballot -> Ballot)
    ensures var r := Resolve(g, b, quorum, pct, deactivate);
      var id, approved := b.identifier, ApproveWins(b.approve, b.deny, quorum);
      forall a :: Balance(r.ledger, a)
        == Balance(g.ledger, a)
         + (if a == Party(b, approved) then PartyReward(b, approved, pct) else 0)
         + (if (id, a) in g.store.votes
            then Payout(g.store.votes[(id, a)], approved, Pool(b, approved), b.bond, pct)
            else 0)
  {
    var approved := ApproveWins(b.approve, b.deny, quorum);
    CreditMovesOnlyTarget(g.ledger, Party(b, approved), PartyReward(b, approved, pct));
  }

  /** One settlement tick, as a reference definition. */
  function Settle(g: Registry, height: int, quorum: Fraction, pct: Fraction,
                  deactivate: Ballot -> Ballot): (r: Registry)
    // not due: nothing at all changes
    ensures !Due(g, height) ==> r == g
    // due: exactly the head is popped
    ensures Due(g, height) ==> |g.queue| > 0 && r.queue == g.queue[1..]
    // due and never challenged: accepted with zero votes, nothing else moves
    ensures Due(g, height) && !QueueHead(g).active ==>
      var id := QueueHead(g).identifier;
      && GetListing(r.store, id) == Listing(id, 0)
      && (forall k :: k != id ==> GetListing(r.store, k) == GetListing(g.store, k))
      && r.store.ballots == g.store.ballots
      && r.store.votes == g.store.votes
      && r.ledger == g.ledger
  {
    if !Due(g, height) then g
    else
      var b := QueueHead(g);
      var popped := QueuePop(g);
      if !b.active then popped.(store := AddListing(popped.store, b.identifier, 0))
      else Resolve(popped, b, quorum, pct, deactivate)
  }

  /** A due, challenged head is settled by `Resolve` after the pop. */
  lemma SettleChallenged(g: Registry, height: int, quorum: Fraction, pct: Fraction,
                         deactivate: Ballot -> Ballot)
    requires Due(g, height) && QueueHead(g).active
    ensures var r, b := Settle(g, height, quorum, pct, deactivate), QueueHead(g);
      var id, approved := b.identifier, ApproveWins(b.approve, b.deny, quorum);
      && (approved ==> GetListing(r.store, id) == Listing(id, b.approve)
                       && (id in r.store.ballots <==> id in g.store.ballots))
      && (!approved ==> id !in r.store.listings && id !in r.store.ballots)
      && (forall k :: k in r.store.votes <==> k in g.store.votes && k.0 != id)
      && (forall a :: Balance(r.ledger, a)
            == Balance(g.ledger, a)
             + (if a == Party(b, approved) then PartyReward(b, approved, pct) else 0)
             + (if (id, a) in g.store.votes
                then Payout(g.store.votes[(id, a)], approved, Pool(b, approved), b.bond, pct)
                else 0))
  {
    ResolvePays(QueuePop(g), QueueHead(g), quorum, pct, deactivate);
  }

  /** The payouts of the first `i` voters of `order`. */
  function PayoutsUpTo(pay: map<Address, int>, order: seq<Address>, i: nat): map<Address, int>
    requires i <= |order|
  {
    if i == 0 then map[]
    else
      var v := order[i - 1];
      if v in pay then PayoutsUpTo(pay, order, i - 1)[v := pay[v]] else PayoutsUpTo(pay, order, i - 1)
  }

  /** The ledger after crediting the first `i` voters of `order`, one at a time. */
  function CreditPrefix(ledger: Ledger, pay: map<Address, int>, order: seq<Address>, i: nat): Ledger
    requires i <= |order|
  {
    if i == 0 then ledger
    else
      var v := order[i - 1];
      if v in pay then Credit(CreditPrefix(ledger, pay, order, i - 1), v, pay[v])
      else CreditPrefix(ledger, pay, order, i - 1)
  }

  /** A voter later in a duplicate-free order is not among the payouts of an earlier prefix. */
  lemma {:induction false} NotYetPaid(pay: map<Address, int>, order: seq<Address>, i: nat, n: int)
    requires i <= n < |order|
    requires forall p, q :: 0 <= p < q < |order| ==> order[p] != order[q]
    ensures order[n] !in PayoutsUpTo(pay, order, i)
  {
    if i > 0 {
      NotYetPaid(pay, order, i - 1, n);
    }
  }

  /** Every payout of a prefix is the voter's own payout. */
  lemma {:induction false} PayoutsUpToSound(pay: map<Address, int>, order: seq<Address>, i: nat)
    requires i <= |order|
    ensures forall k :: k in PayoutsUpTo(pay, order, i) ==> k in pay && PayoutsUpTo(pay, order, i)[k] == pay[k]
  {
    if i > 0 {
      PayoutsUpToSound(pay, order, i - 1);
    }
  }

  /** Every paid voter among the first `i` of `order` is in the prefix's payouts. */
  lemma {:induction false} PayoutsUpToCovers(pay: map<Address, int>, order: seq<Address>, i: nat)
    requires i <= |order|
    ensures forall j :: 0 <= j < i && order[j] in pay ==> order[j] in PayoutsUpTo(pay, order, i)
  {
    if i > 0 {
      PayoutsUpToCovers(pay, order, i - 1);
    }
  }

  /** An order that lists every voter yields all the payouts. */
  lemma PayoutsUpToAll(pay: map<Address, int>, order: seq<Address>)
    requires forall v :: v in pay ==> v in order
    ensures PayoutsUpTo(pay, order, |order|) == pay
  {
    var m := PayoutsUpTo(pay, order, |order|);
    PayoutsUpToSound(pay, order, |order|);
    PayoutsUpToCovers(pay, order, |order|);
    forall k | k in pay
      ensures k in m
    {
      var j :| 0 <= j < |order| && order[j] == k;
    }
  }

  /** Crediting voters one at a time agrees with crediting the prefix's payouts all at once. */
  lemma {:induction false} CreditPrefixIsCreditAll(ledger: Ledger, pay: map<Address, int>, order: seq<Address>, i: nat)
    requires i <= |order|
    requires forall p, q :: 0 <= p < q < |order| ==> order[p] != order[q]
    ensures CreditPrefix(ledger, pay, order, i) == CreditAll(ledger, PayoutsUpTo(pay, order, i))
  {
    if i == 0 {
      CreditAllEmpty(ledger);
    } else {
      CreditPrefixIsCreditAll(ledger, pay, order, i - 1);
      var v := order[i - 1];
      if v in pay {
        NotYetPaid(pay, order, i - 1, i - 1);
        CreditAllStep(ledger, PayoutsUpTo(pay, order, i - 1), v, pay[v]);
      }
    }
  }

  /**
    The order voters are credited in does not matter: any duplicate-free
    enumeration of the voters yields the ledger credited with every payout.
   */
  lemma OrderIrrelevant(ledger: Ledger, pay: map<Address, int>, order: seq<Address>)
    requires forall v :: v in pay ==> v in order
    requires forall p, q :: 0 <= p < q < |order| ==> order[p] != order[q]
    ensures CreditPrefix(ledger, pay, order, |order|) == CreditAll(ledger, pay)
  {
    CreditPrefixIsCreditAll(ledger, pay, order, |order|);
    PayoutsUpToAll(pay, order);
  }

  /**
    The single pass of the source over one ballot's vote records in iteration
    order `order`: each voter is credited the payout of its own record, and
    the record's key is collected for deletion.
   */
  method PayVoters(ledger: Ledger, votes: map<(string, Address), Vote>, identifier: string,
                   order: seq<Address>, correctVote: bool, pool: int, bond: int, pct: Fraction)
    returns (paid: Ledger, keys: seq<(string, Address)>)
    requires forall v :: v in order <==> (identifier, v) in votes
    requires forall p, q :: 0 <= p < q < |order| ==> order[p] != order[q]
    ensures paid == CreditAll(ledger, VoterPayouts(votes, identifier, correctVote, pool, bond, pct))
    ensures |keys| == |order|
    ensures forall j :: 0 <= j < |keys| ==> keys[j] == (identifier, order[j])
  {
    ghost var pay := VoterPayouts(votes, identifier, correctVote, pool, bond, pct);
    paid, keys := ledger, [];
    var i := 0;
    while i < |order|
      invariant 0 <= i <= |order|
      invariant paid == CreditPrefix(ledger, pay, order, i)
      invariant |keys| == i
      invariant forall j :: 0 <= j < i ==> keys[j] == (identifier, order[j])
    {
      var voter := order[i];
      var reward := Payout(votes[(identifier, voter)], correctVote, pool, bond, pct);
      paid := Credit(paid, voter, reward);
      keys := keys + [(identifier, voter)];
      i := i + 1;
    }
    OrderIrrelevant(ledger, pay, order);
  }

  /** The batch delete after the pass: removes exactly the collected keys. */
  method DeleteKeys(votes: map<(string, Address), Vote>, keys: seq<(string, Address)>)
    returns (rest: map<(string, Address), Vote>)
    ensures forall k :: k in rest <==> k in votes && k !in keys
    ensures forall k :: k in rest ==> rest[k] == votes[k]
  {
    rest := votes;
    var j := 0;
    while j < |keys|
      invariant 0 <= j <= |keys|
      invariant forall k :: k in rest <==> k in votes && k !in keys[..j]
      invariant forall k :: k in rest ==> rest[k] == votes[k]
    {
      assert keys[..j + 1] == keys[..j] + [keys[j]];
      rest := rest - {keys[j]};
      j := j + 1;
    }
    assert keys[..j] == keys;
  }

  /**
    The settlement tick in the order the source performs it. `order` is the
    iteration order of the head ballot's vote records.
   */
  method EndBlocker(g: Registry, height: int, quorum: Fraction, pct: Fraction,
                    deactivate: Ballot -> Ballot, order: seq<Address>)
    returns (r: Registry)
    requires forall v :: v in order <==> (QueueHead(g).identifier, v) in g.store.votes
    requires forall p, q :: 0 <= p < q < |order| ==> order[p] != order[q]
    ensures r == Settle(g, height, quorum, pct, deactivate)
  {
    var ballot := QueueHead(g);
    if height < ballot.endApplyBlockStamp || ballot.identifier == "" {
      return g;
    }
    r := QueuePop(g);
    if !ballot.active {
      r := r.(store := AddListing(r.store, ballot.identifier, 0));
      return;
    }
    r := ResolveBallot(r, ballot, quorum, pct, deactivate, order);
  }

  /** Settlement of a challenged ballot as app.go:142-194 performs it: decide, pay the party, pay the voters, clean up. */
  method ResolveBallot(g: Registry, ballot: Ballot, quorum: Fraction, pct: Fraction,
                       deactivate: Ballot -> Ballot, order: seq<Address>)
    returns (r: Registry)
    requires forall v :: v in order <==> (ballot.identifier, v) in g.store.votes
    requires forall p, q :: 0 <= p < q < |order| ==> order[p] != order[q]
    ensures r == Resolve(g, ballot, quorum, pct, deactivate)
  {
    var store, ledger, correctVote, pool := DecideAndReward(g.store, g.ledger, ballot, quorum, pct);
    var paid, keys := PayVoters(ledger, store.votes, ballot.identifier, order,
                                correctVote, pool, ballot.bond, pct);
    var rest := DeleteKeys(store.votes, keys);
    CollectedKeysAreVoteKeys(store.votes, ballot.identifier, order, keys);
    assert rest == DeleteVotes(store, ballot.identifier).votes;
    store := store.(votes := rest);
    store := DeactivateBallot(store, ballot.identifier, deactivate);
    r := Registry(store, g.queue, paid);
  }

  /** The quorum test, the listing update and the party's reward, as app.go:142-162 performs them. */
  method DecideAndReward(s: Store, l: Ledger, ballot: Ballot, quorum: Fraction, pct: Fraction)
    returns (store: Store, ledger: Ledger, correctVote: bool, pool: int)
    ensures correctVote == ApproveWins(ballot.approve, ballot.deny, quorum)
    ensures pool == Pool(ballot, correctVote)
    ensures store == Decide(s, ballot, correctVote)
    ensures ledger == Credit(l, Party(ballot, correctVote), PartyReward(ballot, correctVote, pct))
  {
    store, ledger := s, l;
    var total := ballot.approve + ballot.deny;
    if QuotientExceeds(ballot.approve, total, quorum) {
      store := AddListing(store, ballot.identifier, ballot.approve);
      var reward := BondDividend(ballot.bond, pct);
      ledger := Credit(ledger, ballot.owner, reward);
      correctVote := true;
      pool := ballot.approve;
    } else {
      store := DeleteListing(store, ballot.identifier);
      store := DeleteBallot(store, ballot.identifier);
      var reward := ballot.bond + BondDividend(ballot.bond, pct);
      ledger := Credit(ledger, ballot.challenger, reward);
      correctVote := false;
      pool := ballot.deny;
    }
  }

  /** The keys collected by the pass are exactly the ballot's vote keys. */
  lemma CollectedKeysAreVoteKeys(votes: map<(string, Address), Vote>, identifier: string,
                                 order: seq<Address>, keys: seq<(string, Address)>)
    requires forall v :: v in order <==> (identifier, v) in votes
    requires |keys| == |order|
    requires forall j :: 0 <= j < |keys| ==> keys[j] == (identifier, order[j])
    ensures forall k :: k in keys <==> k in VoteKeys(votes, identifier)
  {
    forall k | k in VoteKeys(votes, identifier)
      ensures k in keys
    {
      var j :| 0 <= j < |order| && order[j] == k.1;
      assert keys[j] == k;
    }
  }

  /**
    A queued identifier whose ballot is gone reads as the zero ballot, whose
    identifier is empty, so no tick ever pops it: the queue stays blocked.
   */
  lemma MissingHeadBlocksQueue(g: Registry, height: int, quorum: Fraction, pct: Fraction,
                               deactivate: Ballot -> Ballot)
    requires |g.queue| > 0 && g.queue[0] !in g.store.ballots
    ensures Settle(g, height, quorum, pct, deactivate) == g
  {
  }

  /**
    A stale-bond challenge deletes the ballot without dequeuing it; when that
    ballot is at the head of the queue, every later tick leaves the state as it is.
   */
  lemma StaleChallengeOfHeadBlocksQueue(g: Registry, challenger: Address, height: int,
                                        commitLen: int, revealLen: int, minBond: int, challengeBond: int,
                                        quorum: Fraction, pct: Fraction, deactivate: Ballot -> Ballot)
    requires |g.queue| > 0
    requires GetBallot(g.store, g.queue[0]).bond < minBond
    ensures
      var a := ActivateBallot(g.store, g.ledger, height, "", challenger, g.queue[0],
                              commitLen, revealLen, minBond, challengeBond);
      var g' := Registry(a.0, g.queue, a.1);
      forall h :: Settle(g', h, quorum, pct, deactivate) == g'
  {
    var a := ActivateBallot(g.store, g.ledger, height, "", challenger, g.queue[0],
                            commitLen, revealLen, minBond, challengeBond);
    var g' := Registry(a.0, g.queue, a.1);
    forall h
      ensures Settle(g', h, quorum, pct, deactivate) == g'
    {
      MissingHeadBlocksQueue(g', h, quorum, pct, deactivate);
    }
  }

  /** The stage lengths the app is constructed with. */
  datatype Stages = Stages(applyStage: int, commitStage: int, revealStage: int)

  /** The constructor's contract: the apply stage covers a commit stage and a reveal stage. */
  predicate StageContract(p: Stages)
  {
    p.applyStage >= p.commitStage + p.revealStage
  }

  /**
    Under the stage contract, a challenge moves a ballot's deadline later by at
    most the time elapsed between proposal and challenge; a challenge in the
    proposal's own block never moves it later.
   */
  lemma ChallengeDelaysDeadlineAtMostByElapsed(s: Store, l: Ledger, p: Stages, h0: int, h1: int,
                                               id: string, owner: Address, challenger: Address,
                                               bond: int, minBond: int)
    requires StageContract(p)
    requires minBond <= bond
    ensures
      var s1 := AddBallot(s, h0, id, owner, p.applyStage, bond);
      var a := ActivateBallot(s1, l, h1, owner, challenger, id, p.commitStage, p.revealStage, minBond, bond);
      && a.2 == Ok
      && GetBallot(a.0, id).active
      && GetBallot(a.0, id).endApplyBlockStamp <= GetBallot(s1, id).endApplyBlockStamp + (h1 - h0)
  {
  }
}
