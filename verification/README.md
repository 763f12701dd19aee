# Verified model of the 0g-chain core logic

This project models four parts of 0g-chain in Dafny and proves what they are for.

**Atomic swaps (`x/bep3`).** A hash-time-locked swap between this chain and another one, as in the Specification section
of BEP-3, "HTLC and Atomic Peg". `SwapSpec` is the module as a state machine on values: swaps, asset supplies, a bank
with the module's escrow, parameters, block height and time. Its events are the three messages, the next block, a change
of parameters, and transfers between ordinary accounts. A message that fails is rolled back. `SwapCreation` and
`SwapClaims` say exactly when each message succeeds and what its errors mean, `SwapSecrets` what hashes commit to.
`SwapInvariant`, `SwapRuns`, `SwapLifecycle` and `SwapRateLimit` prove properties of every run of that machine. `Keeper` is the keeper
as a class that updates a store in place, with the two height indexes as maps from byte keys. Its method `Deliver` is
proved to do what the machine does and to keep the indexes in agreement, so every property of runs holds of the keeper.
`ByteKeys` and `SwapIndex` prove that a scan over byte keys is a scan by height. `Genesis` is import and export.
`SwapExamples` holds messages, genesis states and runs at which expected properties fail.

**The governance tally (`app/tally_handler.go`).** `Decimals` are the 18-digit fixed-point numbers with their rounding.
`Tally` is the count, once as sums that mention no order and once as the nested loops over votes, delegations and
validators, which pick the next element arbitrarily. `TallyLaws` proves what the count keeps despite rounding, and
`TallyDecision` what is decided, in exact arithmetic.

**Vesting resets (`migrate/utils/periodic_vesting.go`).** `Vesting` gives a schedule its meaning, as a list of times and
amounts, and proves what the reset keeps of it.

**The wire format (`x/bep3/types/bep3.pb.go`, `crypto/vrf/keys.pb.go`).** `Varint`, `Wire` and `WireWriter` are base 128
varints, fields with nested groups, the skipper, and writing back to front into an array, after the Protocol Buffers
"Encoding" guide, section "Base 128 Varints". `SwapCodec` and `SwapMessage` are the swap message; `KeyCodec` is the public
key.

## Where the code does not keep what one might expect

- A genesis that was exported need not be importable. Creating a swap never looks at whether the sender's address on the
  other chain is blank, and lets the expiry height of an incoming swap wrap around to zero; the import rejects both, and
  also a state whose assets a parameter change delisted, deactivated or put over their limits. `Genesis.GenesisRoundTrip`
  gives the exact condition, `SwapExamples.BlankSenderExample` and `SwapExamples.ZeroExpiryExample` the inputs.
- Escrow is recoverable by waiting exactly when the expiry height is one that 63-bit block heights can reach
  (`SwapLifecycle.EscrowRecoverable`, `SwapLifecycle.UnreachableExpiryStaysOpen`). `SwapExamples.StuckEscrowExample` is a
  creation that does not meet this.
- The time-based limit lets in up to twice its amount within less than a period, since a window may end in between
  (`SwapRateLimit.RateLimited`); `SwapExamples.FullLimitTwice` is a run that does so.
- A window can last longer than its period if its elapsed time starts negative, which the import does not check.
  `SwapRateLimit.BlockMeters` gives the exact condition and `SwapExamples.NegativeElapsedExample` an accepted genesis.
- An incoming claim can fail after the asset's parameters have changed (`SwapClaims.ClaimSucceedsIff`,
  `SwapClaims.DelistingBlocksClaim`).
- A vesting reset keeps the later vesting times exactly when the schedule does not fall back behind the new start between
  two later vests, which negative lengths can make happen (`Vesting.ResetScheduleIff`, `Vesting.BackwardPeriodMovesVest`).
  An account without periods that is moved back loses the law that its end time is its start plus all lengths
  (`Vesting.ResetKeepsEndTime`).
- `x/bep3/spec/06_begin_block.md` says that a swap expires when its expiry height is greater than the block height, and
  leaves out the window update. The code expires it when the expiry height is at most the block height and updates the
  windows first. The model follows the code.

## Model

| member | source | states |
|---|---|---|
| `SwapTypes.PadRandomNumber` | x/bep3/types/hash.go:23-24 | the secret takes exactly 32 bytes of the hashed buffer, its own bytes first and zeros after them |
| `SwapTypes.GetAsset` | x/bep3/keeper/params.go:27-35 | an asset found is listed and has the denomination; not found means that none has it |
| `SwapTypes.GetAssetUnique` | x/bep3/types/params.go:117-122 | with validated parameters every listed asset is the one found for its denomination |
| `SwapSpec.CheckCreate` | x/bep3/keeper/swap.go:21-69 | a creation that passes has a new ID, one coin of an active asset within its swap bounds, a timestamp from 15 minutes ago to 30 minutes ahead, a recipient that is no module account, and the deputy as exactly one of sender and recipient |
| `SwapSpec.NextSingleCoins` | x/bep3/keeper/swap.go:33-35 | every event keeps stored swaps at one coin each, so the reads of the first coin are the whole amount |
| `SwapCreation.CreateSucceedsIff` | x/bep3/keeper/swap.go:21-103 | in every state a creation succeeds if and only if none of fourteen things is wrong with message, parameters, supplies and balance, block lock and fee of outgoing ones included; the error it fails with is one that is wrong |
| `SwapCreation.CreatedSwap` | x/bep3/keeper/swap.go:71-112 | a creation stores one new swap with every field of the message, the 64-bit sum of height and span, status 1 and direction 1 or 2, registers the recipient of an incoming one, and changes nothing else but supplies and balances |
| `SwapCreation.NotDueAtOnce` | x/bep3/keeper/swap.go:105-106 | a swap that was just created is not due in its own block |
| `SwapCreation.SecretOfMessageUnlocks` | x/bep3/keeper/swap.go:105-152 | a number that hashes with the message's timestamp to the message's hash unlocks the swap the message created |
| `SwapCreation.OtherNumberCollides` | x/bep3/keeper/swap.go:105-152 | a number that claims it without hashing so comes with two given inputs of one hash |
| `SwapCreation.RunKeepsShort` | x/bep3/types/msg.go:102-107 | on every run no stored address on the other chain exceeds 64 bytes |
| `SwapInvariant.SupplyStep` | x/bep3/keeper/asset.go:13-145 | each of the six steps moves exactly its own amount of its own denomination, and is refused if and only if an amount would become negative or exceed its bound, in any state |
| `Bank.MoveSolvent` | x/bep3/keeper/swap.go:96-97 | a transfer keeps every balance non-negative and the total equal to the sum of balances |
| `Bank.MintSolvent` | x/bep3/keeper/swap.go:165-171 | minting keeps every balance non-negative and the total equal to the sum of balances |
| `Bank.BurnSolvent` | x/bep3/keeper/swap.go:184-185 | burning keeps every balance non-negative and the total equal to the sum of balances |
| `SwapInvariant.CreateShifts` | x/bep3/keeper/swap.go:71-112 | a creation raises one supply by the amount, escrows exactly that if outgoing, takes it from the sender alone, and keeps the invariant |
| `SwapInvariant.ClaimIncomingShift` | x/bep3/keeper/swap.go:156-174 | an incoming claim moves the amount from incoming to current supply and the recipient alone gains it |
| `SwapInvariant.ClaimOutgoingShift` | x/bep3/keeper/swap.go:175-188 | an outgoing claim takes the amount off outgoing and current supply, escrow and bank total, and pays nobody |
| `SwapInvariant.ClaimShifts` | x/bep3/keeper/swap.go:134-215 | a successful claim moves supplies, escrow, total and the payee's balance by exactly the swap's amount and keeps the invariant |
| `SwapInvariant.RefundOutgoingShift` | x/bep3/keeper/swap.go:232-238 | an outgoing refund takes the amount off outgoing supply and escrow and the sender alone gains it |
| `SwapInvariant.RefundShifts` | x/bep3/keeper/swap.go:218-267 | a successful refund does the same for an expired swap and keeps the invariant |
| `SwapRuns.TickKeepsInv` | x/bep3/keeper/asset.go:157-184 | the window update, with supplies for new assets, keeps the invariant |
| `SwapRuns.ExpiryKeepsInv` | x/bep3/keeper/swap.go:270-295 | expiry keeps the sums over open and expired swaps |
| `SwapRuns.DeletionKeepsInv` | x/bep3/keeper/swap.go:298-309 | deletion keeps the sums |
| `SwapRuns.NextKeepsInv` | x/bep3/keeper/swap.go:17-309 | every event, failed messages and parameter changes included, keeps the invariant |
| `SwapRuns.RunKeepsInv` | x/bep3/genesis.go:98-110 | in every reachable state incoming and outgoing supplies are the sums over open and expired swaps, outgoing is at most current, and the escrow covers the outgoing supply |
| `SwapRuns.CreateKeepsCaps` | x/bep3/keeper/asset.go:62-91 | the checks at creation keep current plus incoming, and window plus incoming, of every denomination within its limits |
| `SwapRuns.RunKeepsCaps` | x/bep3/keeper/asset.go:26-90 | with fixed parameters, current plus incoming of a denomination stays within its supply limit and window plus incoming within its time-based limit, on every run and whatever the state of other assets |
| `SwapRuns.WindowNonNegative` | x/bep3/keeper/asset.go:119-125 | in every reachable state no supply is negative and outgoing is at most current |
| `SwapRuns.RunConserves` | x/bep3/keeper/swap.go:92-238 | escrow less outgoing supply, and bank total less current supply, never change in any denomination on any run |
| `SwapClaims.LiveSwapCovered` | x/bep3/keeper/swap.go:157-185 | the supplies and the escrow always cover a live swap's amount |
| `SwapClaims.ClaimSucceedsIff` | x/bep3/keeper/swap.go:134-191 | a claim succeeds if and only if the swap is stored, open and unlocked by the number and the parameters in force leave room for it; each of the three errors before the payment is given if and only if its reason holds |
| `SwapClaims.ClaimNeverFails` | x/bep3/keeper/asset.go:13-41 | while the caps of its own denomination hold, every check of a claim passes |
| `SwapClaims.RunClaimNeverFails` | x/bep3/keeper/swap.go:134-191 | on every run with fixed parameters an open swap can be claimed with its secret, whatever the state of other assets |
| `SwapClaims.DelistingBlocksClaim` | x/bep3/keeper/swap.go:157-164 | after a delisting an incoming claim fails, and only after the incoming supply was already lowered |
| `SwapClaims.RefundNeverFails` | x/bep3/keeper/swap.go:228-245 | a refund of an expired swap succeeds whatever the parameters are |
| `SwapClaims.RefundSucceedsIff` | x/bep3/keeper/swap.go:218-245 | a refund succeeds if and only if the swap is stored and expired; the two errors are given if and only if their reasons hold |
| `SwapSecrets.RandomHashInput` | x/bep3/types/hash.go:22-27 | a random number hash is that of 40 bytes, the number and then the time, big-endian |
| `SwapSecrets.RandomHashCollides` | x/bep3/types/hash.go:22-27 | two numbers or two times have one hash only together with two given inputs of one sum |
| `SwapSecrets.SwapIDInput` | x/bep3/types/hash.go:30-36 | an ID is the hash of random number hash, sender and lower-cased address, in this order |
| `SwapSecrets.SwapIDCollides` | x/bep3/types/hash.go:30-36 | swaps that differ in hash, sender or lower-cased address, hashes and senders being of one length, have one ID only together with two given inputs of one sum |
| `SwapSecrets.SwapIDAmbiguous` | x/bep3/types/hash.go:32-34 | for senders of different lengths this fails |
| `SwapSecrets.SecretUnlocks` | x/bep3/keeper/swap.go:145-152 | a number that hashes with the swap's timestamp to the stored hash unlocks the swap |
| `SwapSecrets.WrongHashCollides` | x/bep3/keeper/swap.go:145-152 | a number that hashes to anything else unlocks it only together with two given inputs of one hash |
| `SwapSecrets.WrongSecretCollides` | x/bep3/keeper/swap.go:134-152 | whoever claims a swap with a number other than its secret has two given inputs of one hash, for every hash function |
| `SwapLifecycle.NextMoves` | x/bep3/keeper/swap.go:140-253 | a stored swap goes from open (1) to completed (2), from open to expired (3) to completed, from completed to deleted, and no other way |
| `SwapLifecycle.RunBalancesPayouts` | x/bep3/keeper/swap.go:193-253 | over any run, each time a swap is created it is paid out exactly once or is still live |
| `SwapLifecycle.DeletionHeightIs` | x/bep3/keeper/keeper.go:149-153 | the 64-bit deletion height of a closed swap is its closing height plus 86400 |
| `SwapLifecycle.ClosedSwapRetained` | x/bep3/keeper/swap.go:21-26 | on any run a completed swap stays stored and blocks its ID at every height below its deletion height |
| `SwapLifecycle.ClosedSwapDeleted` | x/bep3/keeper/swap.go:297-309 | a block removes a completed swap if and only if the block has reached its deletion height |
| `SwapLifecycle.UntouchedSwapExpires` | x/bep3/keeper/swap.go:269-285 | on any run without its claim or refund, an open swap is expired if and only if a block at or past its expiry height has begun |
| `SwapLifecycle.RefundPays` | x/bep3/keeper/swap.go:232-250 | a refund of an expired outgoing swap pays exactly its amount to its sender and to nobody else |
| `SwapLifecycle.ExpiredEscrowReturned` | x/bep3/keeper/swap.go:218-295 | whatever run passes the expiry of an untouched outgoing swap, parameter changes included, one refund then returns the escrow to the sender |
| `SwapLifecycle.EscrowRecoverable` | x/bep3/keeper/swap.go:218-295 | from every reachable state, waiting and one refund return a live outgoing swap's amount, if its expiry height fits 63 bits |
| `SwapLifecycle.UnreachableExpiryStaysOpen` | x/bep3/keeper/swap.go:105-106 | if it does not, the swap stays open on every run without its claim and no refund succeeds |
| `SwapRateLimit.CurrentIsLedger` | x/bep3/keeper/asset.go:38-56 | over any run current supply changes by incoming claims less outgoing claims |
| `SwapRateLimit.NextWindow` | x/bep3/keeper/asset.go:174-180 | the window grows by incoming claims and starts afresh at exactly the blocks at which its period has elapsed |
| `SwapRateLimit.BlockMeters` | x/bep3/keeper/asset.go:162-183 | after any block the elapsed time is the one found, or zero once the period is over; the window has not outlived its period if and only if the elapsed time found was not negative or not below the period |
| `SwapRateLimit.WindowIsClaims` | x/bep3/keeper/asset.go:157-184 | on every run with fixed parameters that begins with a block, and for every period, the stored window is the incoming claims since its last restart, within the time-based limit, and its elapsed time is zero or between zero and the period |
| `SwapRateLimit.RunClocked` | x/bep3/keeper/asset.go:167-179 | from a state without negative elapsed times every later block, after any run with parameter changes, finds an elapsed time that is not negative |
| `SwapRateLimit.RateLimited` | x/bep3/keeper/asset.go:30-36 | in any stretch shorter than the period, of any run with fixed parameters that begins with a block, at most twice the time-based limit is claimed, and at most the limit if no restart falls into it |
| `SwapRateLimit.BlockSupplies` | x/bep3/keeper/asset.go:157-184 | a block keeps all amounts, gives every listed asset a supply, clears the window of one without a time limit, and leaves what is not listed alone |
| `ByteKeys.BeforePrefixEnd` | x/bep3/keeper/keeper.go:127-130 | the range up to a prefix's end holds exactly the keys below the prefix and those that carry it |
| `ByteKeys.BigEndianOrder` | x/bep3/types/keys.go:37-39 | big-endian numbers of one width are ordered and distinguished as their bytes are |
| `ByteKeys.ScanIsByHeight` | x/bep3/keeper/keeper.go:125-141 | a height key lies in the scanned range if and only if its height is at most the cutoff, for every 64-bit cutoff |
| `ByteKeys.KeyOrderIsHeightOrder` | x/bep3/keeper/keeper.go:162-182 | ascending keys have non-descending heights |
| `ByteKeys.HeightKeyInjective` | x/bep3/types/keys.go:36-39 | a key determines its height and swap ID |
| `ByteKeys.Iterate` | x/bep3/keeper/keeper.go:132-140 | the iterator meets every stored key before the end, in ascending order |
| `SwapIndex.IndexUnique` | x/bep3/keeper/keeper.go:112-160 | what an index lists determines the bytes of its store |
| `SwapIndex.ScanIndex` | x/bep3/keeper/keeper.go:123-182 | a scan meets exactly the listed swaps at or below the cutoff, each once, in order of height |
| `Keeper.Keeper.constructor` | x/bep3/keeper/keeper.go:28-44 | an empty store satisfies the invariant with empty indexes |
| `Keeper.Keeper.FindAsset` | x/bep3/keeper/params.go:27-35 | the search loop finds the first asset of the denomination |
| `Keeper.Keeper.IncrementCurrentAssetSupply` | x/bep3/keeper/asset.go:13-41 | the new supplies and error are those of the machine; an error leaves supplies as they were |
| `Keeper.Keeper.DecrementCurrentAssetSupply` | x/bep3/keeper/asset.go:44-59 | the same for the decrement |
| `Keeper.Keeper.IncrementIncomingAssetSupply` | x/bep3/keeper/asset.go:62-91 | the same for incoming supply, with both limits |
| `Keeper.Keeper.DecrementIncomingAssetSupply` | x/bep3/keeper/asset.go:94-109 | the same for the decrement |
| `Keeper.Keeper.IncrementOutgoingAssetSupply` | x/bep3/keeper/asset.go:112-127 | the same for outgoing supply, bounded by current supply |
| `Keeper.Keeper.DecrementOutgoingAssetSupply` | x/bep3/keeper/asset.go:130-145 | the same for the decrement |
| `Keeper.Keeper.StoreOpenSwap` | x/bep3/keeper/swap.go:110-112 | storing a new open swap and its by-block key keeps both indexes in agreement |
| `Keeper.Keeper.CreateAtomicSwap` | x/bep3/keeper/swap.go:17-131 | success is the machine's creation with the indexes in agreement; a failure leaves at most a raised supply or a new account |
| `Keeper.Keeper.StoreClosedSwap` | x/bep3/keeper/swap.go:193-200 | completing a live swap and moving its keys keeps both indexes in agreement |
| `Keeper.Keeper.ClaimAtomicSwap` | x/bep3/keeper/swap.go:134-215 | success is the machine's claim with the indexes in agreement; while the caps of the swap's denomination hold a failed claim has written nothing |
| `Keeper.Keeper.RefundAtomicSwap` | x/bep3/keeper/swap.go:218-267 | success is the machine's refund with the indexes in agreement; a failed refund has written nothing |
| `Keeper.Keeper.UpdateTimeBasedSupplyLimits` | x/bep3/keeper/asset.go:157-184 | the loop over assets ticks each asset's supply once, whatever the order of the list |
| `Keeper.Keeper.CollectDue` | x/bep3/keeper/keeper.go:123-141 | the scan of the by-block index collects exactly the open swaps at or past their expiry height, each once |
| `Keeper.Keeper.CollectStale` | x/bep3/keeper/keeper.go:162-182 | the scan of the longterm index collects exactly the completed swaps at or past their deletion height, each once |
| `Keeper.Keeper.UpdateExpiredAtomicSwaps` | x/bep3/keeper/swap.go:270-285 | exactly the open swaps at or past their expiry height expire, the indexes agree afterwards, and the missing-swap branch is unreachable |
| `Keeper.Keeper.DeleteClosedAtomicSwapsFromLongtermStorage` | x/bep3/keeper/swap.go:298-309 | exactly the completed swaps at or past their deletion height go, the indexes agree afterwards, and the missing-swap branch is unreachable |
| `Keeper.Keeper.BeginBlocker` | x/bep3/abci.go:14-20 | window update, expiry and deletion, in this order, keep the invariant and the indexes |
| `Keeper.Keeper.Deliver` | x/bep3/keeper/keeper.go:18-182 | for every event the keeper ends in the machine's next state; the by-block index is exactly the open swaps by expiry height and the longterm index exactly the completed ones by deletion height |
| `Genesis.Validate` | x/bep3/types/genesis.go:30-59 | the loops accept if and only if parameters, swaps and supplies are valid and IDs and denominations are distinct |
| `Genesis.ListOutstandingIsOutstanding` | x/bep3/genesis.go:49-96 | the sums the import adds up along the list are the sums over the stored swaps, in any order of the list |
| `Genesis.LoadSwaps` | x/bep3/genesis.go:51-96 | the loop accepts if and only if every swap is valid, live and of known status and direction; it then has stored all swaps, built agreeing indexes and summed both directions |
| `Genesis.CheckSupplies` | x/bep3/genesis.go:98-128 | accepts if and only if every supply matches the swaps and keeps the limit |
| `Genesis.InitGenesis` | x/bep3/genesis.go:38-129 | succeeds if and only if the genesis is acceptable; it then holds exactly its contents with agreeing indexes |
| `Genesis.AcceptedSwaps` | x/bep3/types/swap.go:48-87 | every swap of an accepted genesis has a 32-byte hash, nothing empty, blank or zero, a known status and direction, positive amounts of ascending denominations, and a closing height if completed |
| `Genesis.AcceptedParams` | x/bep3/types/params.go:89-150 | accepted parameters list a denomination once, with a deputy, with bounds that can be met and with limits that are not negative |
| `Genesis.ExportGenesis` | x/bep3/genesis.go:132-141 | lists every stored swap and supply once |
| `Genesis.GenesisRoundTrip` | x/bep3/genesis.go:42-141 | for every reachable state, exported in any order, the import is accepted if and only if every swap is of an active asset with a non-blank sender on the other chain and a non-zero expiry height, and every supply is of a listed asset with current plus incoming within its limit; it rebuilds the same swaps and supplies |
| `Genesis.Restart` | x/bep3/genesis.go:14-141 | export and import into an empty keeper succeed under exactly that condition and give back swaps, supplies, block time and the bytes of both indexes; a missing block time becomes one second after the epoch |
| `Genesis.GenesisEstablishesInv` | x/bep3/genesis.go:98-128 | an accepted genesis that is sound in what the import does not check starts every run within the invariant and the caps |
| `Genesis.GenesisClockedIff` | x/bep3/genesis.go:42-47 | an import has no negative elapsed time and no window update in the future if and only if the genesis has none |
| `Genesis.GenesisWindow` | x/bep3/keeper/asset.go:157-184 | from such a genesis, after its first block and on every run with its parameters, the window is the incoming claims since its last restart, within the limit |
| `Genesis.BlankSenderBreaksExport` | x/bep3/types/swap.go:71-73 | after a creation with a blank sender on the other chain every export is unimportable, on every run and for as long as the swap is stored |
| `SwapExamples.BlankSenderExample` | x/bep3/types/msg.go:84-128 | such a creation exists |
| `SwapExamples.ZeroExpiryExample` | x/bep3/keeper/swap.go:105-108 | a creation exists whose expiry height wraps around to zero, after which the state cannot be imported |
| `SwapExamples.StuckEscrowExample` | x/bep3/keeper/swap.go:84-112 | an outgoing creation within its asset's block lock exists that no run without its claim lets be refunded |
| `SwapExamples.NegativeElapsedExample` | x/bep3/types/supply.go:24-44 | an accepted genesis exists after whose first block the elapsed time is negative |
| `SwapExamples.FullLimitTwice` | x/bep3/keeper/asset.go:175-180 | a run of a block, a creation and two claims exists that takes in twice the time-based limit in less than a period |
| `Decimals.RoundedNearest` | app/tally_handler.go:84-87 | rounding gives the nearest unit, and the even one of two equally near |
| `Decimals.MulWeight` | app/tally_handler.go:86-88 | a weight of at most one never enlarges a power |
| `Decimals.QuoNear` | app/tally_handler.go:83-84 | a quotient is at most half a unit too large and, but for the first of two roundings, half a unit too small |
| `Decimals.QuoAbove` | app/tally_handler.go:166-174 | a quotient above a threshold is a true ratio above it |
| `Decimals.QuoAtLeast` | app/tally_handler.go:155-159 | a true ratio of at least a threshold has a quotient of at least it |
| `Decimals.QuoAboveIff` | app/tally_handler.go:166-174 | exactly when a rounded quotient exceeds a threshold |
| `Decimals.TruncatedTowardsZero` | app/tally_handler.go:146-147 | whole parts are taken towards zero |
| `Tally.AddOptions` | app/tally_handler.go:86-89 | each option grows by the rounded shares of the power that the vote gives it |
| `Tally.CountDelegation` | app/tally_handler.go:74-94 | one delegation adds to the deductions, results and total exactly its term of the sums, and nothing if its validator is not bonded |
| `Tally.CountValidator` | app/tally_handler.go:136-143 | a validator adds its own term, from its shares less the deductions |
| `Tally.CountValidators` | app/tally_handler.go:130-144 | in any order of the map, exactly the validators that voted add their terms |
| `Tally.TallyHandler.CountVoter` | app/tally_handler.go:59-94 | a vote is recorded for a validator and counts with each delegation of the voter, in any order |
| `Tally.TallyHandler.CountVotes` | app/tally_handler.go:59-128 | in any order of votes and delegations the count holds the sums over all of them, and all votes are deleted |
| `Tally.TallyHandler.Tally` | app/tally_handler.go:33-178 | outcome and tallies are those of sums without order, so no iteration order matters |
| `TallyLaws.TalliesAddUp` | app/tally_handler.go:84-144 | when weights sum to one, the four tallies differ from the total by at most half a unit for each addition |
| `TallyLaws.OptionWithinTotal` | app/tally_handler.go:84-143 | no option exceeds the total, rounding included, when votes list an option once with weights up to one |
| `TallyLaws.ValidatorPowerWithinBonded` | app/tally_handler.go:78-137 | all power behind one validator is at most its bonded tokens and half a unit per term |
| `TallyLaws.TotalWithinBonded` | app/tally_handler.go:59-144 | the total is at most the bonded tokens of all validators and half a unit per term |
| `TallyLaws.VotedValidatorCounted` | app/tally_handler.go:78-143 | all bonded tokens of a validator that voted are counted, within half a unit and a little for each part: every share counts once |
| `TallyLaws.OptionNear` | app/tally_handler.go:86-89 | an option gets the power times the weight given to it, within half a unit for each entry |
| `TallyLaws.UnanimousVote` | app/tally_handler.go:59-144 | if all vote for one option it gets exactly the total and the others nothing |
| `TallyLaws.TallyNeverPanics` | app/tally_handler.go:84-172 | neither a validator's shares nor, after the early returns, the total power is a divisor of zero, whatever the weights |
| `TallyDecision.PassesOnlyAboveThreshold` | app/tally_handler.go:171-174 | a proposal passes only if in exact arithmetic yes exceeds the threshold of the non-abstaining power |
| `TallyDecision.BurnsOnlyAboveVeto` | app/tally_handler.go:155-169 | deposits are burned only below the quorum or above the veto threshold, both in exact arithmetic |
| `TallyDecision.PassesAboveThreshold` | app/tally_handler.go:151-174 | a quorum, no veto and yes one unit above the threshold make a proposal pass |
| `TallyDecision.VetoRejects` | app/tally_handler.go:166-169 | a veto one unit above its threshold rejects the proposal and burns the deposits, whatever else was voted |
| `TallyDecision.BelowQuorumBurns` | app/tally_handler.go:155-159 | power one unit below the quorum rejects the proposal and burns the deposits |
| `TallyDecision.QuorumWithoutVetoKeepsDeposits` | app/tally_handler.go:155-177 | a quorum without a veto keeps the deposits |
| `TallyDecision.NothingToDecide` | app/tally_handler.go:150-164 | without bonded tokens, or when all that reached the quorum abstained, a proposal fails and keeps its deposits |
| `TallyDecision.ResultIsTallies` | app/tally_handler.go:146-147 | each number of the result is the whole part of its own option's tally |
| `TallyDecision.PassingExample` | app/tally_handler.go:33-174 | the assumptions of these laws can be met by a proposal that passes |
| `Vesting.PeriodicVestingAccount.ResetTo` | migrate/utils/periodic_vesting.go:13-59 | the account in place becomes the account after a reset, all fields stated |
| `Vesting.PeriodicVestingAccount.KeepPeriods` | migrate/utils/periodic_vesting.go:14-36 | the loop keeps the periods that end after the new start and sums their amounts |
| `Vesting.PeriodicVestingAccount.AdjustDelegations` | migrate/utils/periodic_vesting.go:38-48 | delegated vesting becomes its minimum with the new original vesting, and the rest delegated free |
| `Vesting.ResetScheduleIff` | migrate/utils/periodic_vesting.go:20-36 | all later vests, and no others, keep their times and amounts if and only if the schedule does not fall back between two of them |
| `Vesting.ResetKeepsUnvested` | migrate/utils/periodic_vesting.go:20-58 | with non-negative lengths, what is still to vest at any time from the new start on is unchanged |
| `Vesting.BackwardPeriodMovesVest` | migrate/utils/periodic_vesting.go:27-31 | with a negative length a vest can move |
| `Vesting.ResetAmounts` | migrate/utils/periodic_vesting.go:33-52 | original vesting becomes what was still to vest at the new start; delegated vesting is the smaller of the two, and delegated vesting plus delegated free is conserved |
| `Vesting.ResetTimes` | migrate/utils/periodic_vesting.go:50-58 | the account starts at the new time and ends at the later of it and the old end |
| `Vesting.ResetKeepsEndTime` | migrate/utils/periodic_vesting.go:50-58 | an end time that was the start plus all lengths is so again if and only if there are periods or the account does not move back |
| `Vesting.ResetTwice` | migrate/utils/periodic_vesting.go:13-59 | two resets, the second no earlier, are one reset to the second time |
| `Varint.SizeIsSov` | x/bep3/types/bep3.pb.go:1160-1162 | the size computed from the bit length is the number of bytes written, for every number |
| `Varint.EncodeMeans` | x/bep3/types/bep3.pb.go:1007-1017 | the bytes stand for the number in base 128, all but the last marked, with no needless byte |
| `Varint.Put` | x/bep3/types/bep3.pb.go:1007-1017 | exactly the encoding is written just before the offset, the rest of the buffer is untouched, and its start is returned |
| `Varint.ReadLoop` | x/bep3/types/bep3.pb.go:1755-1769 | the shifting loop computes the value modulo 2^64, or the overflow or end-of-data error |
| `Varint.ReadEncode` | x/bep3/types/bep3.pb.go:1755-1769 | every 64-bit number is read back from its encoding, wherever it stands |
| `Wire.SkipAdvances` | x/bep3/types/bep3.pb.go:2398-2404 | a successful skip is positive and fits 63 bits |
| `Wire.SkipLoop` | x/bep3/types/bep3.pb.go:2329-2406 | the loop with its depth counter computes the recursive skip, and a successful skip is positive |
| `Wire.SkipOne` | x/bep3/types/bep3.pb.go:2349-2404 | the skipper passes over exactly one encoded field, with groups nested to any depth |
| `Wire.FieldLayout` | x/bep3/types/bep3.pb.go:2349-2394 | the bytes of every kind of field, with wire types 0 to 5 |
| `Wire.ReadPayload` | x/bep3/types/bep3.pb.go:1782-1806 | the payload's bounds, or the length, overflow or end-of-data error |
| `Wire.SkipUnknown` | x/bep3/types/bep3.pb.go:2093-2105 | the position after an unknown field, or its error |
| `WireWriter.PutBytes` | x/bep3/types/bep3.pb.go:874-880 | a field of bytes is put before what is written, and nothing before it is touched |
| `WireWriter.PutInt` | x/bep3/types/bep3.pb.go:869-873 | a field with a number is put before what is written, and nothing before it is touched |
| `SwapCodec.StepField` | x/bep3/types/bep3.pb.go:1770-2105 | reading any encoded field, known or not, of right or wrong type, is merging it, errors included |
| `SwapCodec.DecodeFields` | x/bep3/types/bep3.pb.go:1749-2113 | reading the encoding of any list of fields is merging them in order |
| `SwapCodec.RoundTrip` | x/bep3/types/bep3.pb.go:829-2113 | every swap, negative numbers and default values included, is read back from its encoding |
| `SwapCodec.MarshalledBytes` | x/bep3/types/bep3.pb.go:844-934 | the encoding of every swap byte for byte: tags 0x0a, 0x12, 0x18, 0x20, 0x2a, 0x32, 0x3a, 0x42, 0x48, 0x50, 0x58 and 0x60 in this order, each with its own field |
| `SwapCodec.BadTagRefused` | x/bep3/types/bep3.pb.go:1769-1776 | an end of a group, and a field number that is zero or negative in 32 bits, are refused |
| `SwapCodec.TruncatedFieldRefused` | x/bep3/types/bep3.pb.go:1749-2113 | a field that is cut short anywhere, known or not, is refused |
| `SwapCodec.RoundTripWithUnknown` | x/bep3/types/bep3.pb.go:2093-2105 | it is read back also with unknown fields anywhere between its own |
| `SwapCodec.ConcatenationMerges` | x/bep3/types/bep3.pb.go:1749-2113 | reading two encodings in a row is reading the second into the result of the first |
| `SwapMessage.Message.Size` | x/bep3/types/bep3.pb.go:1088-1139 | the counter ends at the length of the encoding |
| `SwapMessage.Message.MarshalToSizedBuffer` | x/bep3/types/bep3.pb.go:844-934 | the encoding is at the end of the buffer and nothing before it is touched |
| `SwapMessage.Message.Marshal` | x/bep3/types/bep3.pb.go:829-837 | a buffer of the computed size is filled exactly |
| `SwapMessage.Message.ReadField` | x/bep3/types/bep3.pb.go:1753-2106 | one turn of the loop reads one field into the message |
| `SwapMessage.Message.Unmarshal` | x/bep3/types/bep3.pb.go:1749-2113 | the loop ends, with the message or the error of the recursive reading |
| `KeyCodec.DecodeFields` | crypto/vrf/keys.pb.go:245-328 | reading any list of fields keeps the last key and passes over the others |
| `KeyCodec.RoundTrip` | crypto/vrf/keys.pb.go:142-328 | every key, the empty one too, is read back from its encoding |
| `KeyCodec.MarshalledBytes` | crypto/vrf/keys.pb.go:157-170 | the encoding of every key byte for byte: 0x0a, the length and the key, or nothing for the empty key |
| `KeyCodec.BadTagRefused` | crypto/vrf/keys.pb.go:265-272 | an end of a group, and a field number that is zero or negative in 32 bits, are refused |
| `KeyCodec.PubKey.Size` | crypto/vrf/keys.pb.go:213-224 | the length of the encoding |
| `KeyCodec.PubKey.Marshal` | crypto/vrf/keys.pb.go:142-170 | a buffer of the computed size is filled exactly |
| `KeyCodec.PubKey.Unmarshal` | crypto/vrf/keys.pb.go:245-328 | the loop ends, with the key or the error of the recursive reading |

## Left out

- Integers of the SDK are unbounded in the model; its panics beyond 256 bits are not modelled, nor is the saturation of time differences at 63 bits, nor 64-bit overflow of vesting times.
- The bank knows no locked or vesting balances, no disabled denominations and no receive restrictions but those on module accounts.
- A swap from a genesis with several coins is loaded and summed with all of them, but claims and refunds are modelled for swaps of one coin, as every created swap is.
- The four coins of an asset supply share one denomination in the model, which the source checks when it validates.
- Syntax of denominations, bech32 addresses and hexadecimal strings is not modelled; lower-casing, blankness and the hash are parameters of the model.
- The checks of the module account's permissions in `InitGenesis`, and stores other than the module's own, are not modelled.
- Genesis.GenesisEstablishesInv: assumes three things that the import does not check: every swap's denomination has a supply, outgoing is at most current supply and escrow, and the window leaves room for the incoming supply.
- Both begin-block scans are modelled as collecting the IDs first and updating then; deleting under a live iterator is not.
- The rollback of a failed message belongs to the application around the module and is part of `Keeper.Keeper.Deliver`.
- Block heights end at the largest 63-bit height, block times do not go back, and module accounts sign no message.
- Events, logging, telemetry, queries, and the command line are left out: they do not change the state.
- The single writes to the swap store and to an index are members without a row; `SetAsset`, `GetAuthorizedAddresses` and the getters of single parameters would only add easy members.
- The tally requires shares of the validators whose power it divides: those that voted and those that a voter delegates to; parsing of weights and of addresses is not modelled.
- The tokens that the tally would also count, in code that is commented out, are not modelled.
- The codec of a coin belongs to another package and is a parameter that is assumed to round-trip; the codecs of parameters, limits and supplies need foreign encoders and are left out.
- What a failed `Unmarshal` leaves in the message is not stated; callers discard it.
- `PrivKey` has the same code as `PubKey` and is left out.
- Committees, issuance, price feeds, the EVM modules, the data-availability modules and the curve arithmetic are not modelled.
