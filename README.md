# Launchpad mint page — a Dafny model

This project models the decision logic of the NFT launchpad's mint page (`Home` in
`frontend/pages/index.tsx`). The page reads the sale state from a contract, shows the phases and
the wallets that minted most, decides whether the connected wallet is allowlisted, and submits
mint transactions. Every contract read, HTTP fetch and transaction is an input to the model: a
value, or a thrown error (`Outcome`). The page's own rules are modelled and proved:

- **Minter history** (`Minters`, `Page.Home.RefreshMinters`): the block window to scan, with its
  50000-block lookback and optional deploy block. Then the walk over 2000-block log windows; the
  windows cover the range exactly once. Then the tally of mint events per recipient in the
  Map's insertion order, and the stable in-place sort by count, highest first.
- **Allowlist eligibility** (`Allowlist.Eligibility`, `Page.Home.LoadEligibility`): the tri-state
  `true` / `false` / `null` decision, including "a read that throws gives `null`, never `false`".
- **Mint action** (`MintAction.RunMint`, `Page.Home.HandleMint`): the ordered precondition checks,
  the business aborts, the exact payable value `price*q + fee*q`, every status written to the
  single status slot, the `publicMint` call made, and the refreshes after confirmation. The model
  also records the divergence from the eligibility path. For a zero-root phase and a wallet the
  contract does not allow, `loadEligibility` says "not eligible" without looking at the proof
  file, while `handleMint` fetches the proof anyway and mints when it is non-empty
  (`MintAction.ZeroRootDivergence`).
- **View rules**: the active phase (first live, else the first one), `allowlistOk` / `canMint`,
  the chain checks, the quantity stepper and `resolveMedia`.
- **Refresh policy** (`Page.Home.Refresh`, `Page.Home.RefreshPhases`): a failed snapshot batch
  keeps all nine fields and only writes the status. A failed phase read empties the phase list.
  Phases whose existence flag is false are dropped, and the rest keep index order. The flag is
  read as `exists`, falling back to slot 5.

`getPhaseStatus` (in `lib/phases`, not part of this model) appears as an uninterpreted
`isLive: Phase -> bool`. `TARGET_CHAIN_ID` (in `lib/contract`, not part of this model) is an
integer where 0 means "not configured". The React state slots are the fields of the class
`Page.Home`. The ghost field `statusTrail` records every write to the status slot, and
`mintCalls` records every `publicMint` call.

Behaviour of the code worth knowing before reading the table:
- A failed snapshot refresh keeps the nine snapshot fields and also overwrites the status
  slot with the error. Right after a confirmed mint, "Mint successful" is therefore replaced
  when the follow-up refresh fails (`Page.StatusAfterConfirmedMint`).
- The payable value is computed as `price*quantity + fee*quantity`, which is proved equal to
  `(price + fee) * quantity` (`MintAction.MintValueFactored`).
- The `idle` status also carries a message, the empty string.

## Model

| member | source | states |
|---|---|---|
| `Chains.CorrectChainWithTarget` | frontend/pages/index.tsx:57-59 | with a target chain configured, the chain is correct exactly when the wallet is on that chain |
| `Chains.CorrectChainWithoutTarget` | frontend/pages/index.tsx:19-22 | without a target, the chain is correct when it is missing or one of ids 1, 11155111, 5, 137 |
| `Chains.TargetCheckCatchesOnlyMissingChain` | frontend/pages/index.tsx:270-277 | the third mint check fires after the second one passed only when a target is set and the wallet reports no chain |
| `Media.ReplaceFirstAtStart` | frontend/pages/index.tsx:339 | `replace("ipfs://", "")` on a string starting with the scheme removes exactly that prefix |
| `Media.ResolveMedia` | frontend/pages/index.tsx:336-342 | `ipfs://X` becomes `https://ipfs.io/ipfs/X`; every other string, empty included, is unchanged; no result starts with `ipfs://` |
| `Media.ResolveMediaIdempotent` | frontend/pages/index.tsx:336-342 | resolving twice equals resolving once |
| `Media.ResolveMediaKeepsContentId` | frontend/pages/index.tsx:338-340 | the text after the scheme is what follows the gateway prefix in the result |
| `Phases.KeptPhasesSound` | frontend/pages/index.tsx:161-181 | every kept phase comes from an index whose existence flag holds and is built from that index's reads |
| `Phases.KeptPhasesOrdered` | frontend/pages/index.tsx:161-181 | kept phases have strictly increasing ids (index order) |
| `Phases.KeptPhasesComplete` | frontend/pages/index.tsx:164-181 | every index whose existence flag holds is in the list |
| `Phases.FirstLiveSpec` | frontend/pages/index.tsx:328 | `find` returns the least index of a live phase, and none exactly when no phase is live |
| `Phases.ActivePhaseSpec` | frontend/pages/index.tsx:327-328 | the active phase is the first live phase, else `phases[0]`, and is absent exactly for an empty list |
| `Phases.PhaseLiveIffSomeLive` | frontend/pages/index.tsx:329 | `phaseLive` holds exactly when some phase of the list is live |
| `Allowlist.EligibilityResolution` | frontend/pages/index.tsx:348-372 | the ordered decision: no address or phase gives null; no allowlist gives true; on-chain allowed gives true; a nonzero root gives "proof non-empty"; otherwise false |
| `Allowlist.NoAllowlistAlwaysEligible` | frontend/pages/index.tsx:353-356 | a phase without an allowlist makes any connected wallet eligible |
| `Allowlist.ThrownReadIsUnknown` | frontend/pages/index.tsx:357-372 | a throwing read never yields false, and yields null once the allowlist is consulted |
| `Allowlist.IneligibleExactly` | frontend/pages/index.tsx:348-372 | false exactly when the allowlist is on, the on-chain check answered false, and the root is zero or the proof empty |
| `Allowlist.ZeroRootIgnoresProof` | frontend/pages/index.tsx:364-369 | with a zero root the proof lookup does not affect the result |
| `View.CanMintSpec` | frontend/pages/index.tsx:327-334 | `canMint` holds exactly when connected, on the correct chain, some phase is live, not paused, and the active phase needs no allowlist or the wallet is eligible |
| `View.UnknownEligibilityBlocksAllowlistedMint` | frontend/pages/index.tsx:330-331 | a null eligibility never allows minting in an allowlisted phase |
| `View.StepDown` | frontend/pages/index.tsx:507 | the decrement is clamped at 1 |
| `View.StepUp` | frontend/pages/index.tsx:512 | definition; properties in `View.StepDownUndoesStepUp`, `View.StepUpUndoesStepDown` |
| `View.StepDownUndoesStepUp` | frontend/pages/index.tsx:507-512 | decrement after increment restores any valid quantity |
| `View.StepUpUndoesStepDown` | frontend/pages/index.tsx:507-512 | increment after decrement restores any quantity of at least 2 |
| `MintAction.MintValueFactored` | frontend/pages/index.tsx:304 | `price*q + fee*q == (price + fee) * q` in exact integers |
| `MintAction.MintValueExample` | frontend/pages/index.tsx:304 | 1 ether plus a 0.01 ether fee for 3 tokens is exactly 3.03 ether in wei |
| `MintAction.ErrorTextPriority` | frontend/pages/index.tsx:315-318 | the error text is the reason, else the message, else "Mint failed", and is never empty |
| `MintAction.AllowlistGateSpec` | frontend/pages/index.tsx:288-302 | the proof sent is empty unless fetched after a failed on-chain check, and a non-empty fetched proof is exactly the one sent then; without an allowlist or when allowed on chain the proof is empty; refusal exactly when allowlisted, not allowed and no proof; a throw exactly from the on-chain read |
| `MintAction.MintPreconditionsInOrder` | frontend/pages/index.tsx:266-280 | connection, supported chain, target chain are checked in that order; the first failure writes its message as the only status and makes no call |
| `MintAction.MintCallOnlyAfterAllChecks` | frontend/pages/index.tsx:279-305 | a `publicMint` call happens only after every check passed, with the quantity, the gated proof and the value `(price + fee) * q` |
| `MintAction.MintCallWhenChecksPass` | frontend/pages/index.tsx:279-308 | once every check passes, `publicMint` is called with the quantity, the gated proof and `(price + fee) * q`; after the first pending status come "Transaction submitted" and then "Mint successful" or the error of the step that threw; confirmed exactly when submission and confirmation succeed |
| `MintAction.MintBusinessAborts` | frontend/pages/index.tsx:284-302 | no active phase, or an allowlisted wallet with neither on-chain permission nor proof, aborts with its message and no call |
| `MintAction.MintReadErrorsReported` | frontend/pages/index.tsx:279-318 | past the three checks, each of the five contract reads that throws, taken in source order (fee before the phase-existence check), ends the run after the pending status with that read's `reason || message || "Mint failed"` and no call |
| `MintAction.MintFinalStatus` | frontend/pages/index.tsx:305-318 | the last status is success exactly when the transaction was confirmed, otherwise a non-empty error, taken from `tx.wait`'s error when that failed |
| `MintAction.ZeroRootDivergence` | frontend/pages/index.tsx:289-302 | for every connected address, allowlisted phase with a zero (or empty) root and non-empty proof, with the wallet not allowed on chain, eligibility says false while the mint gate passes with that proof |
| `MintAction.ZeroRootDivergenceExample` | frontend/pages/index.tsx:289-302 | the same divergence for the all-zero root and a one-element proof |
| `MintAction.NonzeroRootAgreement` | frontend/pages/index.tsx:289-302 | for a nonzero root, eligibility true/false matches the mint gate passing/refusing |
| `Minters.Lookback` | frontend/pages/index.tsx:114-116 | the lookback used is always positive |
| `Minters.ScanWindowSpec` | frontend/pages/index.tsx:113-120 | `minBlock = max(latest - lookback, 0)`; `fromBlock >= minBlock`, at or after the deploy block when one is set, and `minBlock` when none is set |
| `Minters.ChunksShape` | frontend/pages/index.tsx:126-132 | window k starts at `from + 2000k`, lies in `[from, latest]`, spans at most 2000 blocks; no windows when `from > latest` |
| `Minters.ChunksContiguous` | frontend/pages/index.tsx:126-132 | the first window starts at `from`, the last ends at `latest`, and each starts right after the previous one |
| `Minters.ChunksCover` | frontend/pages/index.tsx:126-132 | every block of `[from, latest]` is in some window |
| `Minters.ChunksDisjoint` | frontend/pages/index.tsx:126-132 | no block is in two windows |
| `Minters.ScanMintEvents` | frontend/pages/index.tsx:126-132 | the chunk loop returns the concatenation, in window order, of every window's events, or the first query's error |
| `Minters.OccurrencesSpec` | frontend/pages/index.tsx:133-138 | an address's count is positive exactly when some event goes to it |
| `Minters.RecipientsSpec` | frontend/pages/index.tsx:133-138 | the Map's keys are exactly the non-empty recipients, each once |
| `Minters.RecipientsFirstAppearance` | frontend/pages/index.tsx:133-139 | key order is first-appearance order |
| `Minters.CountMints` | frontend/pages/index.tsx:133-138 | the counting loop yields the key order of first appearance and, for each key, its number of events |
| `Minters.SortByCountSorted` | frontend/pages/index.tsx:143 | the ranking is non-increasing by count |
| `Minters.SortByCountPermutes` | frontend/pages/index.tsx:143 | the ranking is a permutation of the entries |
| `Minters.SortByCountStable` | frontend/pages/index.tsx:143 | entries of equal count keep their relative order |
| `Minters.InsertAt` | frontend/pages/index.tsx:143 | one insertion pass places the next entry into the sorted prefix |
| `Minters.SortInPlace` | frontend/pages/index.tsx:143 | the in-place sort leaves the array equal to the stable ranking of its old contents |
| `Minters.RankedMintersSpec` | frontend/pages/index.tsx:133-143 | every recipient is listed once with its event count, no other address is listed, counts never increase, ties keep first-appearance order |
| `Minters.AggregationExample` | frontend/pages/index.tsx:133-143 | mints to A, B, A rank as A with 2, then B with 1 |
| `Page.RefreshFailurePolicy` | frontend/pages/index.tsx:61-90 | a failed batch keeps all nine fields and writes one error status; a good one replaces the snapshot and writes no status |
| `Page.StatusAfterConfirmedMint` | frontend/pages/index.tsx:308-313 | after a confirmed mint the status stays "Mint successful" only if the following refresh succeeds |
| `Page.MintersEarlyExits` | frontend/pages/index.tsx:98-108 | with the feature off the list is emptied with the notice; with zero supply it is emptied whatever the block number and logs |
| `Page.MintersFailurePolicy` | frontend/pages/index.tsx:104-151 | an error is shown exactly when a read failed; a supply failure keeps the old list and shows its message or "Failed to load minters"; a block-number or log failure empties the list and shows its message or "Failed to load mint events"; once the block number is known the recent-blocks notice shows exactly when no deploy block is set |
| `Page.MintersFromScan` | frontend/pages/index.tsx:109-145 | after a successful scan the list is the ranking of the scanned events |
| `Page.Home.constructor` | frontend/pages/index.tsx:37-55 | the initial values of the state slots |
| `Page.Home.SetStatus` | frontend/pages/index.tsx:48 | a status write overwrites the single slot |
| `Page.Home.Refresh` | frontend/pages/index.tsx:61-91 | the snapshot and status after `refresh` |
| `Page.Home.RefreshMinters` | frontend/pages/index.tsx:93-155 | the three minter slots after `refreshMinters` equal `Page.MintersAfter` of the old list, and loading ends false |
| `Page.Home.RefreshPhases` | frontend/pages/index.tsx:157-185 | the phase list is the kept phases, or empty after a failed read |
| `Page.Home.Mount` | frontend/pages/index.tsx:191-199 | the first refresh of snapshot, minters (or the disabled notice) and phases |
| `Page.Home.LoadEligibility` | frontend/pages/index.tsx:348-375 | the eligibility slot is the decision for the displayed phase |
| `Page.Home.Decrement` | frontend/pages/index.tsx:507 | the quantity steps down, clamped at 1, and stays at least 1 |
| `Page.Home.Increment` | frontend/pages/index.tsx:512 | the quantity steps up and stays at least 1 |
| `Page.Home.AttemptMint` | frontend/pages/index.tsx:265-308 | the status writes and the mint call are those of `MintAction.RunMint` |
| `Page.Home.SubmitMint` | frontend/pages/index.tsx:279-308 | the awaited steps after the first pending status equal `MintAction.MintAfterChecks` |
| `Page.Home.HandleMint` | frontend/pages/index.tsx:265-320 | the whole action: status trail, mint calls, and the refreshes of the snapshot and, with the feature on, minter slots only after confirmation |
| `Chains.SupportedChainIds` | frontend/pages/index.tsx:19-22 | definition; properties in `Chains.CorrectChainWithTarget`, `Chains.CorrectChainWithoutTarget` |
| `Chains.IsSupportedChain` | frontend/pages/index.tsx:57 | definition; properties in `Chains.CorrectChainWithTarget`, `Chains.CorrectChainWithoutTarget` |
| `Chains.IsTargetChain` | frontend/pages/index.tsx:58 | definition; properties in `Chains.CorrectChainWithTarget`, `Chains.TargetCheckCatchesOnlyMissingChain` |
| `Chains.IsCorrectChain` | frontend/pages/index.tsx:59 | definition; properties in `Chains.CorrectChainWithTarget`, `Chains.CorrectChainWithoutTarget` |
| `Media.ReplaceFirst` | frontend/pages/index.tsx:339 | definition; properties in `Media.ReplaceFirstAtStart` |
| `Phases.PhaseExists` | frontend/pages/index.tsx:164-165 | definition; properties in `Phases.KeptPhasesSound`, `Phases.KeptPhasesComplete` |
| `Phases.ToPhase` | frontend/pages/index.tsx:169-178 | definition; properties in `Phases.KeptPhasesSound` |
| `Phases.KeptPhases` | frontend/pages/index.tsx:161-181 | definition; properties in `Phases.KeptPhasesSound`, `Phases.KeptPhasesOrdered`, `Phases.KeptPhasesComplete` |
| `Phases.PhasesFromReads` | frontend/pages/index.tsx:160-181 | definition; properties in `Phases.KeptPhasesSound`, `Phases.KeptPhasesOrdered`, `Phases.KeptPhasesComplete` |
| `Phases.FirstLive` | frontend/pages/index.tsx:328 | definition; properties in `Phases.FirstLiveSpec` |
| `Phases.ActivePhase` | frontend/pages/index.tsx:327-328 | definition; properties in `Phases.ActivePhaseSpec` |
| `Phases.PhaseLive` | frontend/pages/index.tsx:329 | definition; properties in `Phases.PhaseLiveIffSomeLive` |
| `View.IsConnected` | frontend/pages/index.tsx:35 | definition; properties in `View.CanMintSpec` |
| `View.AllowlistOk` | frontend/pages/index.tsx:330-331 | definition; properties in `View.CanMintSpec`, `View.UnknownEligibilityBlocksAllowlistedMint` |
| `View.CanMint` | frontend/pages/index.tsx:332-334 | definition; properties in `View.CanMintSpec` |
| `Allowlist.RootIsNonzero` | frontend/pages/index.tsx:364 | definition; properties in `Allowlist.EligibilityResolution`, `Allowlist.ZeroRootIgnoresProof` |
| `Allowlist.Eligibility` | frontend/pages/index.tsx:348-372 | definition; properties in `Allowlist.EligibilityResolution`, `Allowlist.IneligibleExactly`, `Allowlist.ThrownReadIsUnknown` |
| `MintAction.MintValue` | frontend/pages/index.tsx:304 | definition; properties in `MintAction.MintValueFactored`, `MintAction.MintValueExample` |
| `MintAction.ErrorText` | frontend/pages/index.tsx:315-318 | definition; properties in `MintAction.ErrorTextPriority` |
| `MintAction.AllowlistGate` | frontend/pages/index.tsx:288-302 | definition; properties in `MintAction.AllowlistGateSpec` |
| `MintAction.RunMint` | frontend/pages/index.tsx:265-318 | definition; properties in `MintAction.MintPreconditionsInOrder`, `MintAction.MintCallOnlyAfterAllChecks`, `MintAction.MintCallWhenChecksPass`, `MintAction.MintReadErrorsReported`, `MintAction.MintFinalStatus` |
| `MintAction.MintAfterChecks` | frontend/pages/index.tsx:279-318 | definition; properties in `MintAction.MintCallWhenChecksPass`, `MintAction.MintBusinessAborts`, `MintAction.MintFinalStatus` |
| `Minters.MinBlock` | frontend/pages/index.tsx:117 | definition; properties in `Minters.ScanWindowSpec` |
| `Minters.FromBlock` | frontend/pages/index.tsx:113-120 | definition; properties in `Minters.ScanWindowSpec` |
| `Minters.Chunks` | frontend/pages/index.tsx:126-129 | definition; properties in `Minters.ChunksShape`, `Minters.ChunksContiguous`, `Minters.ChunksCover`, `Minters.ChunksDisjoint` |
| `Minters.CollectChunks` | frontend/pages/index.tsx:126-132 | definition; properties in `Minters.ScanMintEvents` |
| `Minters.Occurrences` | frontend/pages/index.tsx:133-138 | definition; properties in `Minters.OccurrencesSpec`, `Minters.CountMints` |
| `Minters.Recipients` | frontend/pages/index.tsx:133-139 | definition; properties in `Minters.RecipientsSpec`, `Minters.RecipientsFirstAppearance`, `Minters.CountMints` |
| `Minters.Tally` | frontend/pages/index.tsx:139-142 | definition; properties in `Minters.RankedMintersSpec` |
| `Minters.InsertByCount` | frontend/pages/index.tsx:143 | definition; properties in `Minters.SortByCountSorted`, `Minters.SortByCountPermutes`, `Minters.SortByCountStable` |
| `Minters.SortByCount` | frontend/pages/index.tsx:143 | definition; properties in `Minters.SortByCountSorted`, `Minters.SortByCountPermutes`, `Minters.SortByCountStable`, `Minters.SortInPlace` |
| `Minters.RankedMinters` | frontend/pages/index.tsx:133-143 | definition; properties in `Minters.RankedMintersSpec`, `Minters.AggregationExample` |
| `Page.SnapshotAfter` | frontend/pages/index.tsx:61-90 | definition; properties in `Page.RefreshFailurePolicy` |
| `Page.RefreshWrites` | frontend/pages/index.tsx:88-90 | definition; properties in `Page.RefreshFailurePolicy`, `Page.StatusAfterConfirmedMint` |
| `Page.PhasesAfter` | frontend/pages/index.tsx:157-185 | definition; properties in `Page.Home.RefreshPhases` |
| `Page.MintersAfter` | frontend/pages/index.tsx:93-155 | definition; properties in `Page.MintersEarlyExits`, `Page.MintersFailurePolicy`, `Page.MintersFromScan` |

## Left out

- Rendering and styling (frontend/pages/index.tsx:383-653), `frontend/components/WalletMenu.tsx` and the wallet-connect SDK: pure UI.
- `frontend/lib/thirdweb.ts`: environment reading and SDK client construction, foreign calls.
- Polling timers, visibility checks, the focus listener, jitter and teardown (frontend/pages/index.tsx:201-251): timer- and event-loop-driven, and the jitter uses floating-point randomness.
- The contract calls, `withReadRetry` and its retry policy, and `fetchAllowlistProof` (frontend/pages/index.tsx:253-263). Their results are inputs; the proof lookup is a sequence because it never throws.
- `getPhaseStatus`, `formatPhaseWindow` and `lib/contract` are not part of this model. Phase status is an uninterpreted `isLive`, so the half-open time-window classification is not modelled.
- `ethers.utils.formatEther`, BigNumber internals, the floating-point progress percentage (line 325) and `Number(...)` coercions. Prices stay integers in wei; supplies stay integers. `EnvNumber` models a configuration number only as an integer or "not finite", so fractional settings are not modelled.
- The dependency list that re-runs `loadEligibility` (line 375) and the reveal-preview effect (lines 377-381): React scheduling, not logic.
- The `if (!address)` check inside the allowlist branch of `handleMint` (lines 291-294): it cannot be reached, because `isConnected` already requires a non-empty address.
- Interleaving: `refresh()` and `refreshMinters()` run concurrently after a confirmed mint, but they write disjoint slots, so the model runs them one after the other. Overlapping fetches of the same slot (last writer wins) are not modelled.
- `Page.Home.RefreshMinters`: the transient `mintersLoading = true` is set at the start and cleared in `finally`; only the final `false` is stated.
- `Page.Home.Mount`: it stands for the mount effect with its three calls run in order; their concurrency is not modelled.
