/**
 * The run configuration of the `rewards show` command and its validation
 * (readAndValidateConfig): the two enumerated flags, the fall-backs for the
 * coordinator address and the proof-store URL, and the network rename.
 */
module Config {
  import opened Wrappers

  /** A 20-byte account address; used for earners and for tokens alike. */
  type Address = s: seq<bv8> | |s| == 20 witness seq(20, _ => 0 as bv8)

  /** Which view of an earner's rewards is shown. */
  datatype ClaimType = All | Unclaimed | Claimed

  /** Which distribution root's date the proof data is fetched for. */
  datatype Timestamp = Latest | LatestActive

  function ClaimTypeName(c: ClaimType): string {
    match c
    case All => "all"
    case Unclaimed => "unclaimed"
    case Claimed => "claimed"
  }

  function TimestampName(t: Timestamp): string {
    match t
    case Latest => "latest"
    case LatestActive => "latest_active"
  }

  /** The claim-type flag is accepted exactly when it names one of the three views. */
  function ParseClaimType(s: string): (r: Option<ClaimType>)
    ensures r.Some? <==> s == "all" || s == "unclaimed" || s == "claimed"
    ensures r.Some? ==> ClaimTypeName(r.value) == s
  {
    if s == "all" then Some(All)
    else if s == "unclaimed" then Some(Unclaimed)
    else if s == "claimed" then Some(Claimed)
    else None
  }

  /** The claim-timestamp flag is accepted exactly when it is "latest" or "latest_active". */
  function ParseTimestamp(s: string): (r: Option<Timestamp>)
    ensures r.Some? <==> s == "latest" || s == "latest_active"
    ensures r.Some? ==> TimestampName(r.value) == s
  {
    if s == "latest" then Some(Latest)
    else if s == "latest_active" then Some(LatestActive)
    else None
  }

  /** The flag values the command reads, before any defaulting. */
  datatype Flags = Flags(
    earner: Address,
    output: string,
    outputType: string,
    ethRpcUrl: string,
    network: string,
    environment: string,
    coordinator: string,
    proofStoreBaseUrl: string,
    claimType: string,
    claimTimestamp: string)

  /** Collaborators the validation consults and this model does not open up. */
  datatype Resolvers = Resolvers(
    isEmpty: string -> bool,                         // common.IsEmptyString
    envFromNetwork: string -> string,                // getEnvFromNetwork
    chainIdOf: string -> int,                        // utils.NetworkNameToChainId
    coordinatorFor: int -> Result<string, string>,   // common.GetRewardCoordinatorAddress
    proofStoreFor: string -> string)                 // getProofStoreBaseURL

  /** The validated, read-only configuration of one run. */
  datatype ShowConfig = ShowConfig(
    earner: Address,
    network: string,
    environment: string,
    claimType: ClaimType,
    chainId: int,
    output: string,
    outputType: string,
    rpcUrl: string,
    proofStoreBaseUrl: string,
    claimTimestamp: Timestamp,
    coordinator: string)

  const MainnetNetworkName := "mainnet"
  const ProofStoreMissing := "proof store base URL not provided"
  const ClaimTypeInvalid := "claim type must be 'all', 'unclaimed' or 'claimed'"
  const ClaimTimestampInvalid := "claim timestamp must be 'latest' or 'latest_active'"

  /** The coordinator address is given, or the network's default exists. */
  predicate CoordinatorResolves(f: Flags, x: Resolvers) {
    !x.isEmpty(f.coordinator) || x.coordinatorFor(x.chainIdOf(f.network)).Success?
  }

  /** The proof-store URL is given, or the network's default is not empty. */
  predicate ProofStoreResolves(f: Flags, x: Resolvers) {
    !x.isEmpty(f.proofStoreBaseUrl) || !x.isEmpty(x.proofStoreFor(f.network))
  }

  /**
   * readAndValidateConfig: the checks run in this order and the first that
   * fails decides the error; on success the coordinator address and the
   * proof-store URL are the flags' or, when those are empty, the network's
   * defaults, the enumerations are parsed, the chain id comes from the network
   * name as given, and "mainnet" is then renamed to "ethereum" (the proof
   * store's name for it).
   */
  function ReadAndValidateConfig(f: Flags, x: Resolvers): (r: Result<ShowConfig, string>)
    ensures r.Success? <==>
      CoordinatorResolves(f, x) && ProofStoreResolves(f, x)
      && ParseClaimType(f.claimType).Some? && ParseTimestamp(f.claimTimestamp).Some?
    ensures !CoordinatorResolves(f, x) ==> r == Failure(x.coordinatorFor(x.chainIdOf(f.network)).error)
    ensures CoordinatorResolves(f, x) && !ProofStoreResolves(f, x) ==> r == Failure(ProofStoreMissing)
    ensures CoordinatorResolves(f, x) && ProofStoreResolves(f, x) && ParseClaimType(f.claimType).None?
            ==> r == Failure(ClaimTypeInvalid)
    ensures (CoordinatorResolves(f, x) && ProofStoreResolves(f, x) && ParseClaimType(f.claimType).Some?
             && ParseTimestamp(f.claimTimestamp).None?) ==> r == Failure(ClaimTimestampInvalid)
    ensures r.Success? ==>
      && ClaimTypeName(r.value.claimType) == f.claimType
      && TimestampName(r.value.claimTimestamp) == f.claimTimestamp
      && r.value.network == (if f.network == MainnetNetworkName then "ethereum" else f.network)
      && r.value.chainId == x.chainIdOf(f.network)
      && r.value.earner == f.earner
      && r.value.environment == (if f.environment == "" then x.envFromNetwork(f.network) else f.environment)
      && r.value.coordinator
         == (if x.isEmpty(f.coordinator) then x.coordinatorFor(x.chainIdOf(f.network)).value else f.coordinator)
      && r.value.proofStoreBaseUrl
         == (if x.isEmpty(f.proofStoreBaseUrl) then x.proofStoreFor(f.network) else f.proofStoreBaseUrl)
      && r.value.output == f.output
      && r.value.outputType == f.outputType
      && r.value.rpcUrl == f.ethRpcUrl
  {
    var env := if f.environment == "" then x.envFromNetwork(f.network) else f.environment;
    var coordinator :=
      if x.isEmpty(f.coordinator) then x.coordinatorFor(x.chainIdOf(f.network)) else Success(f.coordinator);
    if coordinator.Failure? then Failure(coordinator.error)
    else
      var proofStore := if x.isEmpty(f.proofStoreBaseUrl) then x.proofStoreFor(f.network) else f.proofStoreBaseUrl;
      if x.isEmpty(f.proofStoreBaseUrl) && x.isEmpty(proofStore) then Failure(ProofStoreMissing)
      else
        var claimType := ParseClaimType(f.claimType);
        if claimType.None? then Failure(ClaimTypeInvalid)
        else
          var claimTimestamp := ParseTimestamp(f.claimTimestamp);
          if claimTimestamp.None? then Failure(ClaimTimestampInvalid)
          else
            var chainId := x.chainIdOf(f.network);
            var network := if f.network == MainnetNetworkName then "ethereum" else f.network;
            Success(ShowConfig(
              f.earner, network, env, claimType.value, chainId, f.output, f.outputType,
              f.ethRpcUrl, proofStore, claimTimestamp.value, coordinator.value))
  }
}
