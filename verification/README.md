# NFT staking history, modelled in Dafny

This project models the logic core of a small service that reports NFT
staking and rental status for a wallet. The service fetches every
transaction the wallet sent to the staking contract. It reads each call's
four-byte method selector and its token id. It then replays the calls in
order through a per-token state machine with three states: unstaked,
staked and rented. Finally it joins the replayed records to the NFTs the
wallet owns, so that it can attach tiers, reward multipliers and accrued
rewards.

Modules, leaves first:

- `JsPrims` (jsprims.dfy) models the JavaScript behaviour the code relies on:
  - `null` as `Option`;
  - numbers that may be NaN (`Num`);
  - truthiness of a nullable number;
  - `parseInt(s, radix)` read as "the leading digits, or NaN";
  - ASCII lower-casing.

  It also has the inverse direction, writing a number in a radix, used for round-trip lemmas.
- `Tiers` (tiers.dfy) is the tier → multiplier table.
- `TokenState` (tokenstate.dfy) holds:
  - the token record;
  - the selector switch applied to one record (`Apply`);
  - a well-formedness invariant the switch preserves;
  - reference descriptions of a token's run.
- `Decoder` (decoder.dfy) holds:
  - the three method ids;
  - selector and payload slicing;
  - token-id decoding;
  - an ABI-style encoder, with a decode/encode round trip.
- `History` (history.dfy) holds:
  - the sender/success filter;
  - decoding of each transaction;
  - the replay as a fold that carries a map plus the order in which keys were first seen (a JavaScript `Map` iterates in insertion order);
  - lemmas saying which records exist, in which order, and that each token evolves independently.
- `Stats` (stats.dfy) holds:
  - the ownership list;
  - the join by token id;
  - rewards as a `real`;
  - the staked and rented counts.

The code has four easily misread behaviours; the model keeps them:

- A transaction whose selector is not recognised still creates a fresh,
  unstaked record for its decoded token id. The record is created before
  the selector switch, so the token appears in the result with no history.
- The duration on an unstake entry is the unstake transaction's own
  timestamp minus the stake time, so it is fixed once recorded.
- The stake-time test uses JavaScript truthiness. A stake at time 0, or
  at a NaN time, counts as no stake, and the unstake records no entry
  (`TokenState.StakeAtTimeZeroLeavesNoDuration`).
- A rent leaves the stake time in place, so a rented token can still
  hold a stake time (`TokenState.StakeRentStake`). The invariant that does hold is
  `TokenState.WellFormed`: staked implies a stake time is set, and
  unstaked implies none is set.

## Model

| member | source | states |
|---|---|---|
| `Tiers.Multiplier` | src/utils/web3Utils.js:28-39 | tiers 1, 2, 3 earn 3 + tier (4, 5, 6); every other tier earns exactly the default 3; the result is always between 3 and 6 |
| `Decoder.Selector` | src/utils/web3Utils.js:67 | the selector is a prefix of the input, ten characters long, or the whole input when it is shorter |
| `Decoder.Payload` | src/utils/web3Utils.js:42 | selector followed by payload gives back the input |
| `Decoder.Classify` | src/utils/web3Utils.js:22-26 | a selector means stake, unstake or rent exactly when it equals that method's id |
| `Decoder.DecodeTokenId` | src/utils/web3Utils.js:41-44 | the token id is NaN exactly when the payload after the selector does not start with a hex digit |
| `Decoder.DecodeEncodeCall` | src/utils/web3Utils.js:41-44 | round trip: for every 256-bit token id, a call of selector + zero-padded 32-byte word decodes to that selector and that id |
| `Decoder.ClassifyEncodedCalls` | src/utils/web3Utils.js:22-26 | calls built with the stake, unstake and rent ids are classified as those actions |
| `JsPrims.ParseInt` | src/utils/web3Utils.js:43 | `parseInt` gives NaN exactly when the text does not start with a digit of the radix |
| `JsPrims.LeadingDigits` | src/utils/web3Utils.js:43 | `parseInt` reads the longest run of leading digits: all of it digits, stopped by a non-digit or the end |
| `JsPrims.ParseIntPadded` | src/utils/web3Utils.js:43 | round trip: `parseInt` reads back any number written in its radix, whatever leading zeros pad it and whatever non-digit text follows |
| `JsPrims.ToLowerIdempotent` | src/utils/web3Utils.js:61 | lower-casing is idempotent and leaves no upper-case letter |
| `History.TimestampMillis` | src/utils/web3Utils.js:69 | the timestamp is NaN exactly when `timeStamp` does not start with a decimal digit |
| `History.TimestampMillisOfDecimal` | src/utils/web3Utils.js:69 | a decimal seconds string reads back as that many seconds times 1000 |
| `History.DecodeTx` | src/utils/web3Utils.js:67-69 | a transaction has a recognised action exactly when its selector is one of the three ids, and that action is the one the selector names; its token id is the decoded payload and its timestamp the seconds field in milliseconds |
| `History.DecodeEncodedTx` | src/utils/web3Utils.js:67-69 | round trip: a stake, unstake or rent call on any 256-bit token id with a decimal seconds timestamp decodes to that action, that token id and that time in milliseconds |
| `History.Filter` | src/utils/web3Utils.js:60-62 | keeps exactly the transactions whose sender matches the address case-insensitively and whose `isError` is "0", in order |
| `History.FilterConcat` | src/utils/web3Utils.js:60-62 | filtering distributes over concatenation |
| `History.FilterCaseInsensitive` | src/utils/web3Utils.js:61 | two addresses with the same lower-case form select the same transactions |
| `History.IrrelevantTxIgnored` | src/utils/web3Utils.js:60-62 | a transaction from another sender, or a failed one, anywhere in the list, leaves the output identical to the list without it |
| `History.AddressCaseInsensitive` | src/utils/web3Utils.js:61 | querying an address or its lower-case form gives the same records |
| `History.Step` | src/utils/web3Utils.js:66-121 | the first sight of a token id appends it to the order and creates a fresh record, even for an unrecognised selector, which then stays fresh; only that id's record changes; the ledger invariant is kept |
| `History.Replay` | src/utils/web3Utils.js:64-122 | the fold keeps the order duplicate-free and equal to the map's keys, with each record filed under its own id |
| `History.Records` | src/utils/web3Utils.js:124 | one record per key, in insertion order, with no token id twice |
| `History.TransactionDetails` | src/utils/web3Utils.js:60-124 | no two returned records share a token id |
| `History.TransactionDetailsWellFormed` | src/utils/web3Utils.js:60-124 | every returned record is well formed (`TokenState.WellFormed`) |
| `History.ReplayWellFormed` | src/utils/web3Utils.js:64-122 | every record the fold builds is well formed |
| `History.StepRecord` | src/utils/web3Utils.js:71-83 | after one transaction, token k has a record exactly when it had one or is the transaction's token; other tokens' records are untouched |
| `History.RecordsCoverReferencedIds` | src/utils/web3Utils.js:64-124 | the replay returns a record for exactly the token ids that some call references |
| `History.RecordsInFirstSeenOrder` | src/utils/web3Utils.js:64-124 | the replayed records come in the order in which their ids are first referenced |
| `History.RecordsPerToken` | src/utils/web3Utils.js:66-124 | each replayed record equals the run of its token's own calls on a fresh record |
| `History.FirstIndex` | src/utils/web3Utils.js:71-72 | the first position at which a token id is referenced |
| `History.ReplayOrder` | src/utils/web3Utils.js:64-81 | the recorded ids are exactly the referenced ids, ordered by where each is first referenced |
| `History.ReplayKeys` | src/utils/web3Utils.js:66-81 | the map has a key for a token id exactly when some call references it, whatever its selector |
| `History.ReplayRecord` | src/utils/web3Utils.js:66-122 | a token has a record exactly when it is referenced; the record is what that token's own calls alone make of a fresh record (no cross-token interference) |
| `History.TransactionDetailsPerToken` | src/utils/web3Utils.js:60-124 | the output has one record per token id referenced by the wallet's successful transactions, in first-reference order, each built from that token's calls alone |
| `TokenState.Fresh` | src/utils/web3Utils.js:71-81 | a new record is unstaked with empty histories, no times and no last action, and is well formed |
| `TokenState.Apply` | src/utils/web3Utils.js:85-121 | stake: staked, stake time set, one stake entry, rent side untouched; unstake: unstaked, stake time cleared, one entry with duration = timestamp − stake time only if the stake time was truthy; rent: rented, rent time set, one rent entry, stake side untouched; unrecognised: no change; well-formedness preserved |
| `TokenState.Run` | src/utils/web3Utils.js:66-122 | applying a token's calls in order keeps its id and its well-formedness |
| `TokenState.RunAppend` | src/utils/web3Utils.js:66-122 | running one more call is applying the switch to the run so far |
| `TokenState.LastAction` | src/utils/web3Utils.js:85-121 | the last recognised action of a call list, with no recognised call after it |
| `TokenState.RunStatusIsLastAction` | src/utils/web3Utils.js:85-121 | after a run, `lastAction` is the last recognised call and the status is the one it leads to; with no recognised call the record is unchanged |
| `TokenState.FreshRunStatus` | src/utils/web3Utils.js:85-121 | a fresh token ends staked exactly when its last recognised call is a stake, and rented exactly when it is a rent |
| `TokenState.RunRentHistory` | src/utils/web3Utils.js:111-120 | the rent history is exactly the rent calls, in order; a rent time once set is never cleared; without a rent call it is unchanged |
| `TokenState.RunStakeEntries` | src/utils/web3Utils.js:86-95 | each stake call leaves exactly one stake entry in the history |
| `TokenState.StakeThenUnstake` | src/utils/web3Utils.js:86-109 | stake at t0 ≠ 0 then unstake at t1: unstaked, no stake time, history = [stake t0, unstake t1 with duration t1 − t0] |
| `TokenState.StakeAtTimeZeroLeavesNoDuration` | src/utils/web3Utils.js:97-109 | a stake at time 0 is falsy, so the following unstake appends no entry |
| `TokenState.StakeRentStake` | src/utils/web3Utils.js:86-120 | a rent after a stake leaves the stake time set; a later stake makes the token staked while the rent time stays set |
| `Stats.EnrichFromOwnedReads` | src/utils/web3Utils.js:131-159 | a record is enriched exactly when some owned entry carries its id, and then with that entry's tier and the multiplier of that tier |
| `Stats.LookupOwned` | src/utils/web3Utils.js:150-153 | the join finds an owned entry with the record's id, the last one when ids repeat, and nothing exactly when no entry has that id (NaN matches nothing) |
| `Stats.Rewards` | src/utils/web3Utils.js:177-182 | rewards times the milliseconds in a day equal the duration times the multiplier; a non-negative duration at a non-negative multiplier earns non-negative rewards |
| `Stats.RewardsWholeDays` | src/utils/web3Utils.js:177-182 | rewards are linear: d whole days staked earn d × multiplier |
| `Stats.Enrich` | src/utils/web3Utils.js:152-167 | the record passes through unchanged; owned tokens get tier and multiplier; rewards are 0 unless the token is staked with a truthy stake time, in which case they are (now − stake time) in days × multiplier |
| `Stats.CountStatus` | src/utils/web3Utils.js:171-172 | the count is at most the number of details; it is 0 exactly when no detail has the status, and all of them exactly when every detail has it |
| `Stats.CountStatusPartition` | src/utils/web3Utils.js:171-172 | every detail is counted under exactly one status |
| `Stats.Summarise` | src/utils/web3Utils.js:150-174 | totalNFTs is the owned count; the details have the records' length and order; staked + rented + unstaked = number of details |
| `Stats.CalculateStakingStats` | src/utils/web3Utils.js:144-175 | totalNFTs is the owned count; staked + rented ≤ details; details carry distinct token ids and well-formed records |
| `Stats.TwoDaysAtTierTwo` | src/utils/web3Utils.js:152-164 | a staked tier-2 token held two whole days has accrued 10 |
| `Stats.StatusIsLastCall` | src/utils/web3Utils.js:66-122 | a returned record is staked exactly when the wallet's last recognised call for that token was a stake, and rented exactly when it was a rent |

## Left out

- The HTTP fetch of the indexer's transaction list (src/utils/web3Utils.js:47-58) is left out. The list is an input. A failed fetch would reject the whole call, and that is not modelled.
- The on-chain reads are left out: `balanceOf`, `tokenOfOwnerByIndex` and `getTier` in `getNFTsByAddress`. Their results are an input to `Stats.OwnedList`.
- `getSigner`, `stakePass`, `unstakePass` and `rentPass` are left out. They only pass calls through to the contract over RPC.
- The concurrency of `Promise.all` in `calculateStakingStats` is left out. Both results are plain inputs.
- `Date.now()` is left out. `now` is a parameter.
- `Stats.Rewards` uses exact `real` arithmetic, not IEEE doubles. Rounding is not modelled.
- `JsPrims.ParseInt` models only "leading digits, or NaN". `parseInt` also skips leading white space, accepts a sign, and reads a `0x` prefix in radix 16 (or when no radix is given). Those cases are not modelled.
- Integers are unbounded in the model. JavaScript numbers lose precision above 2^53, and that is not modelled. Neither is the exponent form of `toString` for large numbers. So the join compares token ids as numbers, not as strings.
- Strings are sequences of Unicode scalar values, while JavaScript `slice` counts UTF-16 code units. The two differ only on characters outside the Basic Multilingual Plane, which hexadecimal inputs never contain.
- `JsPrims.ToLower` lower-cases ASCII letters only. Addresses are hexadecimal, and full Unicode case mapping is not modelled.
- `Tiers.Multiplier` takes an integer tier. The tier comes from the chain, so it is never non-numeric, and the NaN case of `parseInt(tier)` is not modelled.
- The Express routes, the JSON envelopes, the error middleware and server start-up are left out (src/routes/nftRoutes.js, index.js). They hold no logic.
