/**
 * The rewards arithmetic of `rewards show`: the claimed amounts read for every
 * lifetime token, the unclaimed difference, and the claim-type selection that
 * decides which view and which title are shown.
 */
module Rewards {
  import opened Wrappers
  import opened Config
  import Decimal

  /** What ELReader.GetCumulativeClaimed answers for one (earner, token) pair. */
  datatype ClaimedAnswer = ReadError(message: string) | NilAmount | Amount(value: int)

  /** The on-chain claims reader, as a function of (earner, token). */
  type Reader = (Address, Address) -> ClaimedAnswer

  /** Per-earner lifetime allocations of one distribution: earner -> token -> amount. */
  type Distribution = map<Address, map<Address, int>>

  /** Why a run produced no view. */
  datatype ShowError =
    | ConfigInvalid(reason: string)
    | FetchFailed(cause: string)
    | EarnerNotFound
    | ClaimedLookupFailed(cause: string)

  /** The rewards map handed to the output step, with the title it is shown under. */
  datatype View = View(rewards: map<Address, int>, msg: string)

  const LifetimeTitle := "Lifetime Rewards"
  const ClaimedTitle := "Claimed Rewards"
  const UnclaimedTitle := "Unclaimed Rewards"

  /**
   * getCummulativeClaimedRewards: a reader error is passed on unchanged, a nil
   * amount means nothing was claimed yet, any other amount is kept as read.
   */
  function CumulativeClaimed(reader: Reader, earner: Address, token: Address): (r: Result<int, string>)
    ensures r.Failure? <==> reader(earner, token).ReadError?
    ensures r.Failure? ==> r.error == reader(earner, token).message
    ensures reader(earner, token).NilAmount? ==> r == Success(0)
    ensures reader(earner, token).Amount? ==> r == Success(reader(earner, token).value)
  {
    match reader(earner, token)
    case ReadError(e) => Failure(e)
    case NilAmount => Success(0)
    case Amount(v) => Success(v)
  }

  /** Every lookup for the given tokens succeeds. */
  ghost predicate LookupsSucceed(reader: Reader, earner: Address, tokens: set<Address>) {
    forall k :: k in tokens ==> CumulativeClaimed(reader, earner, k).Success?
  }

  /** m holds, for exactly the given tokens, the normalised claimed amount. */
  ghost predicate IsClaimedMap(reader: Reader, earner: Address, tokens: set<Address>, m: map<Address, int>) {
    && m.Keys == tokens
    && forall k :: k in m ==> CumulativeClaimed(reader, earner, k) == Success(m[k])
  }

  /** The error is the one some lookup for the given tokens reports. */
  ghost predicate IsLookupError(reader: Reader, earner: Address, tokens: set<Address>, e: string) {
    exists k :: k in tokens && CumulativeClaimed(reader, earner, k) == Failure(e)
  }

  /**
   * getClaimedRewards: one lookup per lifetime token, in map order; the first
   * failing lookup aborts the whole collection and no partial map is returned.
   */
  method GetClaimedRewards(reader: Reader, earner: Address, allRewards: map<Address, int>)
    returns (r: Result<map<Address, int>, string>)
    ensures r.Success? <==> LookupsSucceed(reader, earner, allRewards.Keys)
    ensures r.Success? ==> IsClaimedMap(reader, earner, allRewards.Keys, r.value)
    ensures r.Failure? ==> IsLookupError(reader, earner, allRewards.Keys, r.error)
  {
    var claimed := map[];
    var pending := allRewards.Keys;
    while pending != {}
      invariant pending <= allRewards.Keys
      invariant claimed.Keys == allRewards.Keys - pending
      invariant forall k :: k in claimed ==> CumulativeClaimed(reader, earner, k) == Success(claimed[k])
      decreases pending
    {
      var address :| address in pending;
      var c := CumulativeClaimed(reader, earner, address);
      if c.Failure? {
        return Failure(c.error);
      }
      claimed := claimed[address := c.value];
      pending := pending - {address};
    }
    return Success(claimed);
  }

  /**
   * calculateUnclaimedRewards: lifetime minus claimed for every lifetime token,
   * negative results included. The source reads a nil amount for a token the
   * claimed map lacks, so every lifetime token must be present there.
   */
  method CalculateUnclaimedRewards(allRewards: map<Address, int>, claimedRewards: map<Address, int>)
    returns (unclaimed: map<Address, int>)
    requires allRewards.Keys <= claimedRewards.Keys
    ensures unclaimed.Keys == allRewards.Keys
    ensures forall k :: k in unclaimed ==> unclaimed[k] + claimedRewards[k] == allRewards[k]
  {
    unclaimed := map[];
    var pending := allRewards.Keys;
    while pending != {}
      invariant pending <= allRewards.Keys
      invariant unclaimed.Keys == allRewards.Keys - pending
      invariant forall k :: k in unclaimed ==> unclaimed[k] + claimedRewards[k] == allRewards[k]
      decreases pending
    {
      var address :| address in pending;
      unclaimed := unclaimed[address := allRewards[address] - claimedRewards[address]];
      pending := pending - {address};
    }
  }

  /**
   * The lifetime map of ShowRewards: each amount of the earner's allocation is
   * rendered in base 10 and read back, which loses nothing.
   */
  method LifetimeRewards(tokens: map<Address, int>) returns (allRewards: map<Address, int>)
    ensures allRewards == tokens
  {
    allRewards := map[];
    var pending := tokens.Keys;
    while pending != {}
      invariant pending <= tokens.Keys
      invariant allRewards.Keys == tokens.Keys - pending
      invariant forall k :: k in allRewards ==> allRewards[k] == tokens[k]
      decreases pending
    {
      var address :| address in pending;
      var amt := Decimal.ParseDecimal(Decimal.IntToDecimal(tokens[address]));
      Decimal.DecimalRoundTrip(tokens[address]);
      allRewards := allRewards[address := amt.value];
      pending := pending - {address};
    }
  }

  /**
   * What the proof data for a run is fetched from: the coordinator contract
   * whose root is resolved, the proof store's URL, environment and network,
   * and the root selector.
   */
  datatype ProofSource = ProofSource(
    coordinator: string, proofStoreBaseUrl: string, environment: string, network: string,
    claimTimestamp: Timestamp)

  function SourceOf(cfg: ShowConfig): ProofSource {
    ProofSource(cfg.coordinator, cfg.proofStoreBaseUrl, cfg.environment, cfg.network, cfg.claimTimestamp)
  }

  /**
   * ShowRewards up to the output step: validate the flags, fetch the
   * distribution for the chosen root, look the earner up, and select the view.
   * `distributionFor` stands for resolving the root and fetching its proof
   * data; `readerAt` gives the claims reader of a coordinator contract.
   */
  method ShowRewards(
    flags: Flags, resolvers: Resolvers,
    distributionFor: ProofSource -> Result<Distribution, string>, readerAt: string -> Reader)
    returns (r: Result<View, ShowError>)
    ensures var c := ReadAndValidateConfig(flags, resolvers);
      c.Failure? ==> r == Failure(ConfigInvalid(c.error))
    ensures var c := ReadAndValidateConfig(flags, resolvers);
      (c.Success? && distributionFor(SourceOf(c.value)).Failure?) ==>
        r == Failure(FetchFailed(distributionFor(SourceOf(c.value)).error))
    ensures var c := ReadAndValidateConfig(flags, resolvers);
      (c.Success? && distributionFor(SourceOf(c.value)).Success?
       && flags.earner !in distributionFor(SourceOf(c.value)).value) ==> r == Failure(EarnerNotFound)
    ensures var c := ReadAndValidateConfig(flags, resolvers);
      (c.Success? && distributionFor(SourceOf(c.value)).Success?
       && flags.earner in distributionFor(SourceOf(c.value)).value) ==>
        var tokens := distributionFor(SourceOf(c.value)).value[flags.earner];
        var reader := readerAt(c.value.coordinator);
        match c.value.claimType
        case All => r == Success(View(tokens, LifetimeTitle))
        case Claimed =>
          && (r.Success? <==> LookupsSucceed(reader, flags.earner, tokens.Keys))
          && (r.Success? ==> r.value.msg == ClaimedTitle
                             && IsClaimedMap(reader, flags.earner, tokens.Keys, r.value.rewards))
          && (r.Failure? ==> r.error.ClaimedLookupFailed?
                             && IsLookupError(reader, flags.earner, tokens.Keys, r.error.cause))
        case Unclaimed =>
          && (r.Success? <==> LookupsSucceed(reader, flags.earner, tokens.Keys))
          && (r.Success? ==> r.value.msg == UnclaimedTitle
                             && r.value.rewards.Keys == tokens.Keys
                             && forall k :: k in r.value.rewards ==>
                                  && CumulativeClaimed(reader, flags.earner, k).Success?
                                  && r.value.rewards[k] == tokens[k] - CumulativeClaimed(reader, flags.earner, k).value)
          && (r.Failure? ==> r.error.ClaimedLookupFailed?
                             && IsLookupError(reader, flags.earner, tokens.Keys, r.error.cause))
  {
    var config := ReadAndValidateConfig(flags, resolvers);
    if config.Failure? {
      return Failure(ConfigInvalid(config.error));
    }
    var cfg := config.value;
    var reader := readerAt(cfg.coordinator);
    var proofData := distributionFor(SourceOf(cfg));
    if proofData.Failure? {
      return Failure(FetchFailed(proofData.error));
    }
    if cfg.earner !in proofData.value {
      return Failure(EarnerNotFound);
    }
    var allRewards := LifetimeRewards(proofData.value[cfg.earner]);
    var msg := LifetimeTitle;
    if cfg.claimType != All {
      var claimedRewards := GetClaimedRewards(reader, cfg.earner, allRewards);
      if claimedRewards.Failure? {
        return Failure(ClaimedLookupFailed(claimedRewards.error));
      }
      match cfg.claimType {
        case Claimed =>
          allRewards := claimedRewards.value;
          msg := ClaimedTitle;
        case Unclaimed =>
          allRewards := CalculateUnclaimedRewards(allRewards, claimedRewards.value);
          msg := UnclaimedTitle;
      }
    }
    return Success(View(allRewards, msg));
  }
}
