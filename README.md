# Rewards `show` command — a Dafny model

This project models the core of the eigenlayer-cli `rewards show` subcommand
(`pkg/rewards/show.go`): how it validates its configuration, collects the
amounts an earner has already claimed for every token of its lifetime
allocation, derives the requested view (`all`, `claimed` or `unclaimed`),
and renders that view as the console table. Amounts are Go `*big.Int`
values, modelled as unbounded `int`; no arithmetic wraps.

Modules:

- `Wrappers` (`wrappers.dfy`): `Option` and `Result`.
- `Decimal` (`decimal.dfy`): `big.Int.String` and `big.Int.SetString(s, 10)`,
  with the proof that reading a rendered amount back gives the same amount.
- `Config` (`config.dfy`): the claim-type and claim-timestamp enumerations,
  the fall-backs for the coordinator address and the proof-store URL, and the
  `mainnet` → `ethereum` rename of `readAndValidateConfig`.
- `Rewards` (`rewards.dfy`): the claims reader as a function of
  (earner, token) answering an error, nil or an amount; `getCummulativeClaimedRewards`,
  `getClaimedRewards`, `calculateUnclaimedRewards` and the control flow of
  `ShowRewards` up to the output step.
- `Table` (`table.dfy`): the row loop of `handleRewardsOutput`, its banner and
  title lines, and `printRewards`, with the proof that the columns of every
  row whose cells fit line up with the corners of the borders.

The loops of the source (`getClaimedRewards`, `calculateUnclaimedRewards`,
the lifetime-map loop of `ShowRewards`, the row loop of `handleRewardsOutput`
and the loops of `printRewards`) are methods with loop invariants. Go map
iteration order is unspecified; the loops take any remaining key, and the
order of the output rows is exposed as a ghost sequence of keys that lists
every key of the map exactly once.

Collaborators the model does not open up are parameters: `common.IsEmptyString`,
`getEnvFromNetwork`, `utils.NetworkNameToChainId`,
`common.GetRewardCoordinatorAddress`, `getProofStoreBaseURL` (the `Resolvers`
datatype); root resolution together with the proof-data fetch
(`distributionFor`, from the validated coordinator address, proof-store URL,
environment, network and claim timestamp to the distribution or an error);
the claims reader of a coordinator contract (`readerAt`); `erc20.GetTokenName`
and `common.Address.Hex` (`tokenName`, `hex`).

A token missing from the claimed map is not treated as zero claimed:
`calculateUnclaimedRewards` reads a nil `*big.Int` for it
(pkg/rewards/show.go:203) and `Sub` would dereference it.
`CalculateUnclaimedRewards` therefore requires every lifetime token in the
claimed map, which `getClaimedRewards` guarantees; a reader answering nil
gives 0. Negative unclaimed amounts are passed through unclamped, as in the code.

## Model

| member | source | states |
|---|---|---|
| `Decimal.NatToDecimal` | pkg/rewards/show.go:223 | the rendering of a magnitude is non-empty, all decimal digits, with no leading zero |
| `Decimal.ParseDecimal` | pkg/rewards/show.go:139 | base-10 parsing succeeds exactly for an optional sign followed by one or more digits |
| `Decimal.NatRoundTrip` | pkg/rewards/show.go:223 | the digits of a rendered magnitude evaluate back to it |
| `Decimal.DecimalRoundTrip` | pkg/rewards/show.go:139 | parsing the exact rendering of any amount, negative included, gives that amount |
| `Config.ParseClaimType` | pkg/rewards/show.go:328-331 | the claim type is accepted iff it is `all`, `unclaimed` or `claimed`, and the parsed value names the flag |
| `Config.ParseTimestamp` | pkg/rewards/show.go:334-337 | the claim timestamp is accepted iff it is `latest` or `latest_active`, and the parsed value names the flag |
| `Config.ReadAndValidateConfig` | pkg/rewards/show.go:293-360 | success iff the coordinator and proof-store URL resolve and both enumerations are valid; each failing check yields its own error, in the source's order; on success the coordinator address and proof-store URL are the flags' or, when empty, the network's defaults, output file, output type and RPC URL pass through, `mainnet` becomes `ethereum` and every other name is kept, the chain id is taken from the name before the rename, the environment defaults from the network when empty |
| `Rewards.CumulativeClaimed` | pkg/rewards/show.go:181-195 | a reader error is returned unchanged with no amount, a nil answer is exactly 0, any other amount is returned unchanged |
| `Rewards.GetClaimedRewards` | pkg/rewards/show.go:164-179 | success iff every lookup for the lifetime tokens succeeds; then the map has exactly the lifetime key set with the normalised answer per token; otherwise the error is one reported by a lookup and no map is returned |
| `Rewards.CalculateUnclaimedRewards` | pkg/rewards/show.go:197-207 | the result has exactly the lifetime key set (claimed-only keys never appear) and unclaimed plus claimed equals lifetime for every key, with no clamping |
| `Rewards.LifetimeRewards` | pkg/rewards/show.go:136-141 | rendering each allocation in base 10 and parsing it back rebuilds the allocation map unchanged |
| `Rewards.ShowRewards` | pkg/rewards/show.go:88-162 | a config error, a fetch error or a missing earner stops the run with that error; the proof data is fetched for the validated coordinator, URL, environment and renamed network, and claims are read from the validated coordinator; `all` yields the lifetime map titled "Lifetime Rewards" whatever the reader answers; `claimed` yields the normalised claimed map titled "Claimed Rewards"; `unclaimed` yields lifetime minus claimed per lifetime token titled "Unclaimed Rewards"; both fail exactly when a lookup fails, with that lookup's error |
| `Table.PadRight` | pkg/rewards/show.go:279-283 | a padded field is the text followed by spaces, of length max(text length, width): nothing is cut |
| `Table.Banner` | pkg/rewards/show.go:238-242 | the banner is the latest-root text exactly when the timestamp is `latest`, the latest-active-root text otherwise |
| `Table.Title` | pkg/rewards/show.go:244 | the title is 30 dashes, a space, the message, a space and 30 dashes |
| `Table.RuleSegments` | pkg/rewards/show.go:260-262 | the column segments of a rule take width + 2 characters per column |
| `Table.RowCells` | pkg/rewards/show.go:266-268 | the cells of a row never take less than width + 2 characters per column, and exactly that when every cell fits |
| `Table.SpanOfPrefix` | pkg/rewards/show.go:257 | the columns before a given column and that column together fit inside the whole row |
| `Table.RowBoundary` | pkg/rewards/show.go:278-284 | in a row whose cells fit, every column boundary is a bar |
| `Table.RuleCorner` | pkg/rewards/show.go:259-263 | in a rule, every column boundary is the corner character |
| `Table.ColumnsAlign` | pkg/rewards/show.go:259-290 | a row whose cells fit is exactly as long as the borders and its bars stand where the borders and the separator have their corners |
| `Table.DataRowShape` | pkg/rewards/show.go:278-284 | a data row is the name padded to 20, the address padded to 46 and the amount padded to 30, each opened by a bar and a space, then a closing bar |
| `Table.BorderShape` | pkg/rewards/show.go:259-263 | the border is, for widths 20, 46, 30, a '+' and width + 1 dashes, then a final '+': 103 characters |
| `Table.HeaderAligned` | pkg/rewards/show.go:252-269 | the three column headers fit their widths, so the header line is as long as the borders and the separator and each of its bars stands under a corner of the border |
| `Table.RuleLine` | pkg/rewards/show.go:259-263 | the loop over the widths builds exactly the rule for the given corner |
| `Table.CellsLine` | pkg/rewards/show.go:265-269 | the loop over the headers builds exactly the row of padded cells |
| `Table.PrintRewards` | pkg/rewards/show.go:250-291 | the output is the top border, the header, the separator, one data row per record in order, and a bottom border equal to the top one: records + 4 lines |
| `Table.CollectRows` | pkg/rewards/show.go:218-225 | one row per map entry, each key exactly once in some order, with the token's name, its hex address and the exact rendering of its amount, which parses back to the amount |
| `Table.HandleTableOutput` | pkg/rewards/show.go:236-246 | table mode prints a blank line, the banner, a blank line, the title, then the table of one row per entry: entries + 8 lines |

## Left out

- `ShowCmd` and `getShowFlags` (flag registration, flag sorting, the telemetry hook): command-line wiring with no behaviour to verify.
- `ethclient.Dial` and `elcontracts.NewReaderFromConfig` (show.go lines 98-112 and 214-217): network connections; the model assumes they succeed.
- `getClaimDistributionRoot` and `FetchClaimAmountsForDate`: one parameter from the coordinator address, proof-store URL, environment, network and claim timestamp to the distribution or an error; the claim date and root id are not modelled.
- `gethcommon.HexToAddress`: the earner is given as an `Address`, and the coordinator address is kept as the resolved string.
- `erc20.GetTokenName` and `common.Address.Hex`: on-chain call and EIP-55 checksum (which needs Keccak-256); both are function parameters.
- The JSON output mode (`json.MarshalIndent`, `common.WriteToFile`, printing the JSON): library serialisation and file or console I/O; the records it would serialise are modelled (`CollectRows`).
- Logger calls and the `cCtx.App.Metadata` update: side effects with no behaviour to verify.
- The wording of wrapped errors (`WrapError`, `fmt.Errorf` prefixes): `ShowError` names the failing step and carries the underlying message.
- The ordered map of the earner's tokens is modelled as a map: its order does not reach the lifetime map built from it.
- The claim-type switch has no case for a value other than `claimed` or `unclaimed`; after validation no such value exists, so the model has none.
- Field widths count characters (Unicode scalar values), as Go's `fmt` counts runes; token names that are not valid UTF-8 are not modelled.
- pkg/utils/constants.go holds constants only; the one used, `MainnetNetworkName`, is `Config.MainnetNetworkName`.
- Rewards.ShowRewards: "the reader is never called for `all`" is stated as the `all` result being the lifetime map whatever the reader answers, since a function parameter cannot count its calls.
