/**
  Records of the token-curated registry: ballots, listings and vote records,
  together with the error values the keeper reports.

  Go strings and `sdk.Address` byte slices are both modelled as `string`,
  one character per byte; the nil address is the empty string.
 */
module Types {

  type Address = string

  /** One proposal/challenge round, stored under its identifier. */
  datatype Ballot = Ballot(
    identifier: string,
    owner: Address,
    challenger: Address,
    bond: int,
    active: bool,
    // end of the apply window while pending, end of the reveal window once active
    endApplyBlockStamp: int,
    endCommitBlockStamp: int,
    approve: int,
    deny: int)

  /** The Go zero value `types.Ballot{}`, returned for a missing key. */
  const ZeroBallot := Ballot("", "", "", 0, false, 0, 0, 0, 0)

  /** An accepted registry entry. */
  datatype Listing = Listing(identifier: string, votes: int)

  /** The Go zero value `types.Listing{}`. */
  const ZeroListing := Listing("", 0)

  /** One revealed vote: the side chosen and the stake behind it. */
  datatype Vote = Vote(choice: bool, power: int)

  /** `sdk.Error` as built by `sdk.NewError(codespace, code, msg)`. */
  datatype SdkError = SdkError(codespace: int, code: int, msg: string)

  /** The `sdk.Error` return of a keeper operation: nil or an error. */
  datatype Outcome = Ok | Fail(error: SdkError)

  const RegistryCodespace := 2
  const CodeBallotNotFound := 107
  const CodeBondMismatch := 115

  const BallotNotFound := SdkError(RegistryCodespace, CodeBallotNotFound, "Ballot does not exist")
  const BondMismatch := SdkError(RegistryCodespace, CodeBondMismatch, "Must match candidate's bond")
}
