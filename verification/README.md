# Dafny model of the obol CLI

This project models the parts of the `obol` command line tool that change state somebody cares
about (an on-chain registry, the offers of a cluster, values files, identity records, skill
directories) or that turn values into text and back, and proves what they keep.

Code that works by changing things step by step is modelled as methods with loops and classes
with fields, each proved equal to a function of its inputs or of the old state; the lemmas are
about those functions. Code made of expressions is modelled as functions.

| modules | what they model |
|---|---|
| `Chain`, `Registration`, `MintHistory` | registering an agent on chain: mempool, inclusion, lagging reads, failing and landing writes, one call and any number of calls |
| `Json`, `Ledger`, `OfferHistory`, `SellUpdate` | the offer ledger beside a cluster that can be wiped: create, update, stop, delete, agent delete, wipe, resume |
| `Values`, `Edits` | value overrides: deep merge and dotted-path assignment |
| `Registrations`, `IdentityRecord`, `Seeding` | the AgentIdentity: its registrations, its host record and its reconciliation, its first contents |
| `Manifest`, `Skills`, `SkillSync`, `SkillHistory`, `ExactSync`, `TreeDigest` | skills in a directory: the manifest, whole and cut short, the sync and sequences of syncs, the staged swap, the stream a tree digest hashes |
| `Decimal`, `Money`, `Purchase` | token amounts as text, and what a purchase signs |
| `Quoting`, `EnvPath`, `Routes` | shell quoting, the PATH guard, the `--route` flag |
| `Doctor` | the concurrent check runner |
| `Wrappers`, `Text`, `Sorting` | results, strings, sorting |

How the main arguments go:

- **Registration.** The network is an oracle: every question the call asks is answered after an
  arbitrary list of acts of everybody else, and any write may land, be dropped, be delayed, or
  land and report an error. `Chain.Moves` sums up what such acts can do, and every method of
  `Registrar` keeps it. The only mints a call sends share one nonce that no other write of the
  call has (`Pinned`), and a chain includes a nonce once.
- **Ledger.** `Intent` says what the operator last asked for. `CarriesOut` relates it to
  cluster and ledger; every command keeps it, so wipe and resume restore the intent.
- **Overrides.** Merges and assignments are both edits of a tree; edits compose, and an edit made
  twice is the edit made once. That gives idempotence of the whole pipeline by one induction.
- **Check runner.** Each goroutine is followed by a world that looks the same to its check and in
  which the check, left alone, would end with the expected result.

## What turned out different from the documentation

- A deep merge is not associative (`Edits.MergeNotAssociative`). Overriding twice is overriding
  once, except for a file that is among its own overlays (`Edits.SelfOverlayTwiceDiffers`). The final
  write truncates the file first. When it is stopped, a rerun fails if and only if the file no
  longer parses, and gives the intended tree if and only if the file parses and agrees with the old
  one on all that the override does not put (`Edits.RetryAfterWrite`); otherwise it succeeds and old
  values are gone (`Edits.StoppedWriteLosesValues`).
- Creating an offer again while it is live makes the live offer what the manifest says if and only
  if nothing foreign is live in it (`Json.ApplyIsExactIff`); `drainAt` of a stopped offer is foreign, so
  such an offer and its ledger entry part ways (`OfferHistory.RecreatedStopDrifts`).
- The path for a recorded agent compares the signer with `getAgentWallet` and calls the result
  "owner". In a calm network the call succeeds if and only if the wallet is the signer, and leaves
  the signer with the token if and only if the owner is (`MintHistory.RecordedAgentRun`); the two can
  part (`MintHistory.HandedOver`). In any network, success means ownership when the signer owns the
  recorded token at the moment of that check (`seen` in `Registration.Registrar.RegisterDirect`); adopting
  and minting need no such condition.
- A call patches the copy of the AgentIdentity that it loaded, and the patch replaces the whole
  list. What another chain is mapped to survives if and only if it is still what was loaded
  (`Registration.OtherChainSurvivesIff`); an entry that the controller adds meanwhile is erased by a
  call that succeeds (`MintHistory.ConcurrentEntryErased`).
- Registrations in the cluster are never altered if and only if they are usable or the record has
  nothing usable (`IdentityRecord.LiveIsKeptIff`): entries without an id are overwritten by a record that
  has one (`IdentityRecord.BlankIdIsOverwritten`).
- Reconciliation ends with the same registrations on both sides if and only if one side has a
  usable one or they agreed before (`IdentityRecord.ConvergedEqualIff`): a record of blank entries only
  is not carried over. The comparison is equality up to order if and only if the keys tell the
  registrations apart (`IdentityRecord.ComparesFaithfullyIff`), which an `=` in a chain name can prevent
  (`IdentityRecord.EqualsSignConfuses`).
- The registration requests are looked at if and only if no offer carries an id
  (`Seeding.RequestsAskedIff`). Offers with ids and no chain between them therefore give an empty seed,
  whatever the requests hold (`Seeding.SeedUsableIff`).
- A successful `Sync` removes an unwanted skill if and only if the manifest lists it or, without a
  manifest, it is a retired one (`SkillHistory.DropsIff`). A failed call can leave a skill installed and
  unlisted (`SkillHistory.ForgottenInstallStays`).
- The manifest is not written atomically. Cut short it lists the first names and perhaps a proper
  prefix of the next as a name (`Manifest.TornManifestLists`). A directory of somebody's own whose name a
  wanted skill's name begins with is then removed by the next call
  (`SkillHistory.TornManifestDeletes`); other directories are safe (`SkillHistory.ForeignUntouched`). A rerun
  ends where it should if and only if the cut lists nothing of the kind
  (`SkillHistory.RerunAfterTearIff`).
- `PartialError` says that existing copies of opt-in skills were kept. They are if and only if no
  opt-in skill was reached, or the struck one was there just as the error leaves it and those before
  it were up to date (`SkillSync.CopiesKeptIff`); a copy interrupted before its first file is gone
  (`SkillSync.InterruptedCopyIsLost`).
- An exact sync keeps an earlier plain file if and only if no requested skill has its name
  (`ExactSync.PlainFileKeptIff`).
- `HumanBalance` prints what `formatTokenAmount` prints if and only if there is an amount and the token
  has decimals or the amount is zero (`Money.SameTextIff`).
- The checks of `obol doctor` give the list of a sequential run in every run in which no repair is
  called for (`Doctor.NoRepairIsIndependent`), so always without `--fix` (`Doctor.NoFixIsIndependent`), and in
  every run whose repairs change nothing that another check reads. With `--fix` and a missing tool
  the repair installs what other checks execute, and what these report depends on the schedule
  (`Doctor.ScheduleMatters`).
- PowerShell also ends a quoted string at the typographic quotes U+2018 to U+201B, which
  `pwshQuote` does not double: the quoted form reads back if and only if the string has none of
  them (`Quoting.PwshQuoteReadsBackIff`).

## Model

| member | source | states |
|---|---|---|
| Registration.Registrar.RegisterDirect | cmd/obol/sell.go:3445-3582 | for every behaviour of the network: every write of the call has a nonce of its own, the one read at the start or the next, shared only by its retries, so all its mints share one; no mint is sent when an agent is recorded for the chain, nor, with the signer's tokens staying put and fewer than four faulty log searches, when one is on chain; the identity ends as others made it or as the loaded copy with this chain's entry set; success for a recorded agent means that its URI was current or the call's update of it took effect, and reported metadata that it was there or the call's write of it took effect; success leaves the chain mapped to the resulting id, which the signer holds (for a recorded agent: if it did at the check); in a calm network a recorded agent with a current URI is verified exactly when its wallet is the signer; without failing replies a mint on chain is adopted, and a network that includes what it is sent sees a fresh mint through |
| Registration.Registrar.VerifyExisting | cmd/obol/sell.go:3490-3531 | sends no mint; success means the recorded id parses and the registry named the signer as its wallet during the call; in a calm network with a current URI that is enough, whoever the owner is; the URI was current or has been updated |
| Registration.Registrar.Update | cmd/obol/sell.go:3506-3530 | after success the URI was current or the update under the pinned nonce took effect; the metadata write then has the next nonce |
| Registration.Registrar.EnsureIdentity | cmd/obol/sell_identity.go:155-175 | the identity of the cluster, or a new one that holds exactly the seed of offers and requests |
| Registration.Registrar.ApplyIdentity | cmd/obol/sell_identity.go:79-145 | the patch replaces whatever others have made of the registrations, and may land while reporting an error |
| Registration.Registrar.RegisterUnrecorded | cmd/obol/sell.go:3533-3582 | adopts or mints; a mint on chain is not repeated while fewer than four searches go wrong, and adopted when no reply is an error |
| Registration.Registrar.Adopt | cmd/obol/sell.go:3536-3548 | sends no mint, records exactly the adopted id, which was minted by the signer for the URI |
| Registration.Registrar.Mint | cmd/obol/sell.go:3550-3582 | all mints share the pinned nonce, the later metadata write has the next one; success records the minted id |
| Registration.Registrar.RegisterWithRecovery | cmd/obol/sell.go:3593-3625 | everything sent is the same mint under the same nonce; an id comes back only if its event is on chain; it gives up only after three submissions or a refusal not worth retrying, and after a search that saw no mint or went wrong four times |
| Registration.Registrar.Recover | cmd/obol/sell.go:3631-3648 | finds only mints of the signer for the URI; missing one that is there takes four searches that go wrong |
| Registration.Registrar.FindRegistration | internal/erc8004/client.go:199-248 | a hit is a mint of the signer for the URI; without a fault a held mint is found |
| Registration.Registrar.NewestHeld | internal/erc8004/client.go:216-247 | the candidates newest first, each asked for its current owner |
| Registration.Registrar.Register | internal/erc8004/client.go:89-104 | signs with the pinned nonce; an id comes back only for an included mint |
| Registration.Registrar.Write | internal/erc8004/client.go:297-331 | sends nothing but the one write under the current nonce; reports success only if it took effect, or, for metadata, if the value was there |
| Registration.RecordReadsBack | internal/monetizeapi/types.go:1158-1193 | the id recorded for a chain reads back as that number |
| Registration.OtherChainsKept | internal/monetizeapi/types.go:1158-1193 | setting the entry of a chain leaves what every other chain is mapped to |
| Registration.OtherChainSurvivesIff | cmd/obol/sell.go:3484-3579 | what the call met under another chain survives exactly when it is what the call had loaded |
| Chain.ActsMove | cmd/obol/sell.go:3470-3476 | whatever others do, for however long: the log and the included transactions only grow, nonces stay unique, the call has sent nothing |
| MintHistory.OneMintPerCall | cmd/obol/sell.go:3550-3582 | after any continuation at most one mint of a call is ever included and no other write of it has that nonce |
| MintHistory.CallKeepsOneMint | cmd/obol/sell.go:3533-3536 | a call keeps that all mints still possible share one nonce |
| MintHistory.HistoryKeepsOneMint | cmd/obol/sell.go:3533-3536 | so does any sequence of calls |
| MintHistory.AtMostOneToken | cmd/obol/sell.go:3533-3582 | over any sequence of calls for one signer and URI at most one token is minted, recorded or not |
| MintHistory.RecordedAgentRun | cmd/obol/sell.go:3490-3531 | a whole call in a calm network: success exactly when the wallet is the signer, ownership exactly when the owner is |
| MintHistory.HandedOver | cmd/obol/sell.go:3497-3503 | a reachable world in which the wallet is the signer and the owner somebody else |
| MintHistory.ConcurrentEntryErased | cmd/obol/sell.go:3536-3541 | a whole call that succeeds and erases the entry that somebody else added for another chain meanwhile |
| Ledger.Stack.Persist | cmd/obol/sell.go:4883-4905 | the directory after a write that stops anywhere |
| Ledger.WriteIsAtomic | cmd/obol/sell.go:4895-4904 | wherever it stops, the loader sees the whole old or the whole new manifest and all others unchanged |
| Ledger.StorePathInjective | cmd/obol/sell.go:4651-4653 | no two offers share a ledger file |
| Ledger.Stack.Refresh | cmd/obol/sell.go:4933-4976 | the entry holds the live spec, and all that its bundle carried besides the offer, in order |
| Ledger.ReplaceOffers | cmd/obol/sell.go:4963-4970 | swaps every offer of a bundle; the other items come out as they were, in order |
| Ledger.LoaderSkips | cmd/obol/sell.go:5080-5106 | the loader skips temporary, unreadable and nameless files, and nothing else |
| Ledger.AppliesReplace | cmd/obol/sell.go:2752-2755 | an offer that only manifests have made is after each apply what the last one says |
| Ledger.Stack.Update | cmd/obol/sell.go:2912-2928 | merge patch of the live spec, then refresh; absent offers are an error |
| Ledger.Stack.Delete | cmd/obol/sell.go:3009-3019 | removes offer and entry; an offer that is not live keeps its entry |
| Ledger.Stack.DeleteAgent | cmd/obol/agent.go:956-975 | removes all offers and entries of the namespace and counts the entries |
| Ledger.Stack.LoadPersisted | cmd/obol/sell.go:5070-5109 | exactly the readable manifests, each once |
| Ledger.Stack.Resume | cmd/obol/sell.go:5025-5064 | applies every entry the API server takes; reports exactly the others |
| OfferHistory.StepCarriesOut | cmd/obol/sell.go:2749-3019 | every command carries out what the operator asked for, in cluster and ledger |
| OfferHistory.StepCarriesOutCreate | cmd/obol/sell.go:1010-1016 | a create does so if and only if nothing foreign is live |
| OfferHistory.RunCarriesOut | cmd/obol/sell.go:2749-3019 | so does every run |
| OfferHistory.RunKeepsOthers | cmd/obol/sell.go:4959-4973 | over any run that does not create or delete an offer, its bundle keeps all it carries besides it |
| OfferHistory.Execute | cmd/obol/sell.go:2749-3019 | and so do the commands themselves, performed one after the other |
| OfferHistory.WipeAndResumeRestore | cmd/obol/sell.go:5005-5064 | after any run, wipe and resume bring back exactly the offers and terms last intended |
| OfferHistory.StoppedStaysDrained | cmd/obol/sell.go:2739-2758 | a stopped offer comes back drained, otherwise unchanged |
| OfferHistory.DeletedNeverReturns | cmd/obol/sell.go:3013-3019 | a deleted offer is never live again unless created again, for every continuation |
| OfferHistory.RecreatedStopDrifts | cmd/obol/sell.go:2749-2755 | a run after which live offer and ledger differ in `drainAt` |
| OfferHistory.PersistRecords | cmd/obol/sell.go:4883-4905 | writing one manifest changes the record of its offer only |
| OfferHistory.RemoveRecords | cmd/obol/sell.go:4911-5003 | removing manifests removes the records of their offers only |
| OfferHistory.RefreshedIsOneOffer | cmd/obol/sell.go:4952-4975 | a refreshed manifest records one offer, with the live spec |
| Json.ApplyIsExactIff | cmd/obol/sell.go:2752-2755 | an apply makes the object the manifest if and only if nothing foreign is live |
| Json.PatchTwice | cmd/obol/sell.go:2917-2919 | a merge patch (section 2 of RFC 7396) made twice is made once |
| SellUpdate.NothingToUpdateIff | cmd/obol/sell.go:1155-1157 | refused exactly when no flag says anything |
| SellUpdate.PriceIsSwitched | cmd/obol/sell.go:1135-1153 | after the merge exactly one unit is priced, whatever the offer charged before |
| SellUpdate.PriceIsTheFlag | cmd/obol/sell.go:1144-1151 | that price is the first of the three flags given |
| SellUpdate.WalletAndNetwork | cmd/obol/sell.go:1128-1133 | the wallet is what --pay-to says, the network what --network says; without the flag they stay |
| SellUpdate.RestIsKept | cmd/obol/sell.go:1125-1164 | all else of the offer is as before, prices too without a price flag |
| Values.MergeMaps | internal/app/values.go:90-103 | the loop, in any map order, computes the deep merge |
| Values.SetSegments | internal/app/values.go:121-136 | the walk creates tables on its way and assigns the last segment |
| Values.ParseAssignmentIff | internal/app/values.go:111-121 | which expressions are accepted: a key before the first `=` and a value behind it; the path joined with dots is the key |
| Values.Disk.ApplyOverrides | internal/app/values.go:38-65 | the file holds the outcome; an error in a file or an expression leaves every file alone, an error in the final write leaves every other file alone |
| Edits.MergeIsEdit | internal/app/values.go:88-103 | merging is an edit of the tree |
| Edits.SetIsEdit | internal/app/values.go:105-137 | so is assigning a path |
| Edits.ThenApplies | internal/app/values.go:44-57 | edits compose |
| Edits.ApplyTwice | internal/app/values.go:38-65 | an edit made twice is the edit made once |
| Edits.OverrideTwice | internal/app/values.go:44-57 | any files and expressions applied twice give the tree of applying them once; failing does not depend on the tree |
| Edits.LastExpressionWins | internal/app/values.go:19-57 | the path of the last expression reads its value |
| Edits.LastFileWins | internal/app/values.go:19-57 | without expressions every leaf of the last file stands |
| Edits.ApplyOverridesTwice | internal/app/values.go:38-65 | the same for the files on disk |
| Edits.RetryAfterWrite | internal/app/values.go:59-64 | after a failed write the same call fails exactly when the file no longer parses, and gives what it would have given exactly when what is left agrees with the old file outside the edit |
| Edits.SameResultIff | internal/app/values.go:88-137 | an override makes two trees the same exactly when they agree on all that it does not put |
| Edits.StoppedWriteLosesValues | internal/app/values.go:59-82 | a stopped write after which the same call succeeds and an old value is gone |
| Edits.MergeNotAssociative | internal/app/values.go:90-103 | map, scalar, map: the grouping matters |
| Edits.SelfOverlayTwiceDiffers | internal/app/values.go:38-51 | with the file among its own overlays a second run differs |
| Edits.SetReadsBack | internal/app/values.go:121-136 | a path reads back the value assigned to it |
| Edits.SetLeavesOthers | internal/app/values.go:121-136 | paths neither above nor below read as before |
| Edits.SetMakesTables | internal/app/values.go:124-132 | all paths above hold tables |
| Registrations.Upsert | internal/monetizeapi/types.go:1168-1193 | the loop computes the upsert |
| Registrations.UpsertReads | internal/monetizeapi/types.go:1158-1193 | an upsert sets its chain and leaves what all others read |
| Text.FoldIff | internal/monetizeapi/types.go:1161 | chain names compare equal exactly when they differ in the case of letters at most |
| Registrations.PlacedKeepsOthers | internal/monetizeapi/types.go:1174-1191 | one registration remains on the chain, the others in their order |
| IdentityRecord.CompareRegistrations | internal/agentidentity/record.go:297-315 | counting up and down decides equality of the key multisets |
| IdentityRecord.ComparesFaithfullyIff | internal/agentidentity/record.go:297-315 | the comparison is equality up to order exactly when keys tell the registrations apart, as they do without `=` in chain names |
| IdentityRecord.EqualsSignConfuses | internal/agentidentity/record.go:301 | with `=` different registrations can compare equal |
| IdentityRecord.Site.ReconcileOne | internal/agentidentity/record.go:230-265 | record, cluster object and outcome, with a failure after any write; other records are left alone |
| IdentityRecord.OutcomeTells | internal/agentidentity/record.go:214-265 | what each outcome says about the pair before and after; success means that every write made landed |
| IdentityRecord.Site.ApplySpec | internal/agentidentity/record.go:173-197 | creates an object without status and never changes an existing status |
| IdentityRecord.Site.Save | internal/agentidentity/record.go:64-83 | writes a temporary sibling and renames it |
| IdentityRecord.SaveIsAtomic | internal/agentidentity/record.go:77-131 | wherever it stops, every record reads as before, and this one as before or as new |
| IdentityRecord.LiveIsKept | internal/agentidentity/record.go:256-263 | usable registrations in the cluster are never altered, over any failing calls |
| IdentityRecord.LiveIsKeptIff | internal/agentidentity/record.go:248-263 | whatever is in the cluster is never altered exactly when it is usable or the record has nothing usable |
| IdentityRecord.BlankIdIsOverwritten | internal/agentidentity/record.go:248-255 | an entry without an id that one call overwrites |
| IdentityRecord.RecordIsKept | internal/agentidentity/record.go:224-265 | a usable record is never replaced by an unusable one |
| IdentityRecord.ConvergedIff | internal/agentidentity/record.go:248-259 | converged means exactly that another call reports unchanged and changes nothing |
| IdentityRecord.ReconcileConverges | internal/agentidentity/record.go:224-265 | from anywhere, after any failures, one smooth call converges |
| IdentityRecord.ConvergedEqualIff | internal/agentidentity/record.go:224-265 | from any pair, after calls that fail at any write, one smooth call makes both sides agree exactly when one was usable or they agreed to begin with |
| Seeding.Seed | cmd/obol/sell_identity.go:214-292 | the sort and fold of both seeding functions |
| Seeding.SeedIgnoresOrder | cmd/obol/sell_identity.go:229-243 | the same identity for every order of the listed objects |
| Seeding.OldestWins | cmd/obol/sell_identity.go:229-243 | each chain gets the id of the object that comes first in the order |
| Seeding.EarliestWins | cmd/obol/sell_identity.go:229-243 | that is the smallest creation time, ties by the text namespace/name |
| Sorting.BeforeIff | cmd/obol/sell_identity.go:233 | Go's order on strings: a proper prefix first, else the first difference decides |
| Seeding.OthersStayEmpty | cmd/obol/sell_identity.go:262-287 | a chain without such an object gets none |
| Seeding.RequestsAskedIff | cmd/obol/sell_identity.go:182-190 | the requests are looked at exactly when no offer carries an id |
| Seeding.SeedUsableIff | cmd/obol/sell_identity.go:182-292 | when the seed is usable, and when it is empty |
| Skills.WriteSkills | internal/agentskills/install.go:73-119 | success installs every name; unresolved names change nothing; a failure leaves a partial write |
| Skills.WroteIff | internal/agentskills/install.go:73-119 | a write succeeds exactly when every name resolves, nothing is in the way and no I/O error strikes |
| Skills.InstalledFiles | internal/agentskills/install.go:103-116 | a built-in skill is written over what is there, any other replaces it |
| Manifest.ManifestReadsBack | internal/agentskills/install.go:200-226 | the manifest written for names reads back as those names, sorted |
| Manifest.TornManifestLists | internal/agentskills/install.go:200-226 | cut anywhere, it lists the first names and perhaps a proper prefix of the next |
| Manifest.TornNamesAreStumps | internal/agentskills/install.go:200-226 | so all it lists by mistake are proper prefixes of names it was written for |
| Manifest.TornInsideName | internal/agentskills/install.go:200-226 | and every proper prefix of every name can be listed |
| SkillSync.SkillsDir.WriteOrKeep | internal/agentskills/install.go:155-177 | the write, and the built-in skills alone when it fails, as a function of the directory and the failure |
| SkillSync.PartialIff | internal/agentskills/install.go:155-177 | a call is partial exactly when the first write fails, opt-in skills are wanted, and the built-in skills can be written |
| SkillSync.PartialInstalls | internal/agentskills/install.go:172-176 | a partial call has installed every built-in skill wanted |
| SkillSync.PartialDoes | internal/agentskills/install.go:155-197 | slot by slot what a partial call leaves, and the manifest it writes |
| SkillSync.CopiesAfterPartial | internal/agentskills/install.go:73-129 | what becomes of every opt-in copy in a partial call: kept when no opt-in skill is reached; otherwise the struck one is lost, those before it are new |
| SkillSync.CopiesKeptIff | internal/agentskills/install.go:121-129 | all copies are kept exactly when no opt-in skill is reached, or the struck one was there just as the error leaves it and those before it were up to date |
| SkillSync.InterruptedCopyIsLost | internal/agentskills/install.go:107-129 | a partial call after which the copy that was there is gone |
| SkillSync.RemovedStaleDoes | internal/agentskills/install.go:179-187 | the removals: exactly the listed, unwanted, well-named skills, or some of them |
| SkillSync.SkillsDir.Sync | internal/agentskills/install.go:143-198 | success gives the synced directory; every failure leaves it touched or with a torn manifest |
| SkillSync.SyncEnds | internal/agentskills/install.go:143-198 | the same of the function that the call computes |
| SkillSync.SyncOutcomeIff | internal/agentskills/install.go:143-198 | exactly when a call succeeds, and when it is partial |
| SkillSync.SyncSucceeds | internal/agentskills/install.go:143-198 | without I/O errors a call succeeds whenever the names resolve and nothing is in the way |
| SkillHistory.SyncDoes | internal/agentskills/install.go:135-198 | slot by slot: wanted skills installed, listed unwanted ones gone, all else untouched, the manifest exact |
| SkillHistory.DropsIff | internal/agentskills/install.go:179-187 | an unwanted skill is gone if and only if it was absent or listed |
| SkillHistory.RerunEndsTheSame | internal/agentskills/install.go:143-198 | the same call after a failure that spares the manifest ends where it would have ended |
| SkillHistory.RerunAfterTearIff | internal/agentskills/install.go:143-226 | after a torn manifest it does so exactly when the cut lists no unwanted directory that was not obol's |
| SkillHistory.TornDropsIff | internal/agentskills/install.go:179-226 | after a torn manifest a later call removes an unwanted skill exactly when the cut lists it |
| SkillHistory.TornManifestDeletes | internal/agentskills/install.go:143-226 | for every wanted set and every proper prefix of a wanted name: two calls, the first with a torn manifest, that remove a directory that was never obol's |
| SkillHistory.InstalledThenDropped | internal/agentskills/install.go:143-198 | what one successful call installed a later one that drops it removes, unless a failed call between left it unlisted |
| SkillHistory.ForgottenInstallStays | internal/agentskills/install.go:157-191 | two calls: the first fails and leaves a skill that the second, successful one does not want and does not remove |
| SkillHistory.CallSparesForeign | internal/agentskills/install.go:143-226 | a call that does not want an unlisted directory leaves it alone, and it stays unlisted exactly unless a torn manifest lists it |
| SkillHistory.ForeignUntouched | internal/agentskills/install.go:135-198 | over any calls, failing and torn ones included, an unlisted directory is untouched if no call wants it or a skill whose name begins with its name |
| ExactSync.RemoveStaleDirs | internal/agentcrd/agent.go:308-329 | removes exactly the subdirectories nobody asked for, and succeeds exactly when no removal fails |
| ExactSync.Home.Sync | internal/agentcrd/agent.go:238-306 | every return leaves the directory wholly old or wholly new, and says exactly when which; it succeeds exactly when nothing stands in the way; a link is never replaced |
| ExactSync.ExactDirectories | internal/agentcrd/agent.go:269-276 | the new directory has exactly the requested subdirectories, with the requested contents |
| ExactSync.PlainFileKeptIff | internal/agentcrd/agent.go:308-329 | an earlier plain file stays if and only if no requested skill has its name |
| ExactSync.ExactTwice | internal/agentcrd/agent.go:238-306 | a second exact sync changes nothing |
| TreeDigest.HashedStream | internal/agentskills/source.go:197-239 | the walk, the sort and the writes feed the stream; an empty tree is an error |
| TreeDigest.StreamIsTheTree | internal/agentskills/source.go:195-237 | equal streams if and only if the same paths with the same hashes, in any walk order |
| Money.NoTrailingZero | cmd/obol/buy.go:835-851 | no trailing fractional zero, no bare point |
| Money.PrintedAmountReadsBack | cmd/obol/buy.go:479-511 | for every positive amount and any number of decimals, printing and reading back is the identity |
| Money.PlainDecimal | cmd/obol/buy.go:484 | a plain decimal with a point stands for its digits, scaled by how many follow the point |
| Money.PlainWhole | cmd/obol/buy.go:484 | and one without for the whole number |
| Money.BudgetIsExactIff | cmd/obol/buy.go:484-511 | a budget gives n base units if and only if it is positive and exactly n of them |
| Money.SameTextIff | internal/buy/balance.go:28-49 | the two printers agree if and only if there is an amount, and decimals or an amount of zero |
| Purchase.SignedTotal | cmd/obol/buy.go:306-317 | as many auths as asked for or the limit allows, times the price, within the quoted price, the signing limit and the budget; uncapped rounding loses less than one unit a request |
| Purchase.SettledIff | cmd/obol/buy.go:306-317 | when a purchase is settled: something to buy, a price that does not round to zero, a budget that covers it |
| Purchase.DefaultCapAdmitsPrice | cmd/obol/buy.go:370-375 | the default cost cap as passed on is at least the per-auth price |
| Purchase.DefaultCapIs | cmd/obol/buy.go:957-961 | it is the price and a half, rounded down, and passed on per request |
| Purchase.PerAuthBounds | cmd/obol/buy.go:817-829 | the per-auth price is positive and rounds down by less than the multiplier |
| Purchase.EffectiveAutoRefill | cmd/obol/buy.go:985-1007 | both counts are multiplied, by one at least, and capped; capped says whether one was cut; a disabled policy gives nothing |
| Purchase.ParsePositiveInt | cmd/obol/buy.go:893-906 | accepts exactly the digit strings of positive value, and gives that value |
| Quoting.ShQuoteReadsBack | cmd/obol/passthrough.go:367 | for every string one word, read back under sections 2.2.1 and 2.2.2 of the POSIX Shell Command Language |
| Quoting.FishQuoteReadsBack | cmd/obol/passthrough.go:369-371 | the same under the fish rules |
| Quoting.PwshQuoteReadsBackIff | cmd/obol/passthrough.go:373 | under the PowerShell rules if and only if no typographic single quote |
| EnvPath.GuardIff | cmd/obol/passthrough.go:339 | the `case` guard holds if and only if the directory is a component of PATH |
| EnvPath.ExportTwice | cmd/obol/passthrough.go:338-339 | exporting twice is exporting once |
| EnvPath.ExportPrepends | cmd/obol/passthrough.go:339 | a directory that is no component goes in front of all others; any other PATH stays |
| EnvPath.UnsetRemoves | cmd/obol/passthrough.go:332-336 | unset removes that component only |
| EnvPath.UnsetUndoesExport | cmd/obol/passthrough.go:332-339 | unset after export is unset, and restores a PATH that did not have it |
| Routes.Segments | cmd/obol/sell.go:4668-4675 | the folding loop |
| Routes.SegmentsRejoin | cmd/obol/sell.go:4668-4675 | folding loses nothing |
| Routes.ParseRoute | cmd/obol/sell.go:4666-4732 | one flag, with all its errors |
| Routes.ParseRouteFlags | cmd/obol/sell.go:4661-4735 | all flags up to the limit, the first error, and whether one is paid |
| Routes.ParsedRoutesAt | cmd/obol/sell.go:4665-4734 | when all flags are accepted each gives its own route, in order |
| Routes.RefusedIff | cmd/obol/sell.go:4665-4734 | they are refused exactly when one of them is |
| Routes.KeysAre | cmd/obol/sell.go:4681-4721 | how the keys are spelled; any other is refused |
| Routes.SegmentSets | cmd/obol/sell.go:4677-4681 | a segment sets the key before its first `=` to the value behind it, both trimmed |
| Routes.LaterReplaces | cmd/obol/sell.go:4681-4721 | a later value of a key replaces an earlier one |
| Routes.PathOnly | cmd/obol/sell.go:4676-4726 | a flag with a path only is a paid route |
| Routes.PrintedRouteReadsBack | cmd/obol/sell.go:4655-4735 | printing a route and parsing it is the identity, summaries with commas included |
| Routes.AcceptedPrintsBack | cmd/obol/sell.go:4655-4735 | every route that the parser gives can be printed, and its print parses to it |
| Doctor.FixedIff | internal/doctor/doctor.go:186-225 | without a repair a check changes nothing; a finding counts as fixed exactly when the repair succeeds and the check then finds less wrong |
| Doctor.JudgementIs | internal/doctor/doctor.go:186-236 | what a check reports before a repair: skipped, crashed, timed out, or its finding; and when a repair is offered |
| Doctor.LessWrongIff | internal/doctor/doctor.go:30-39 | less wrong: no failure any more, or neither warning nor failure |
| Doctor.LastProbeDecides | internal/doctor/doctor.go:160-163 | the gate is the word of the last probe; without one the cluster counts as down |
| Doctor.GateDecides | internal/doctor/doctor.go:189-196 | cluster checks are skipped exactly on the word of the probe |
| Doctor.RunGate | internal/doctor/doctor.go:152-163 | the probes in order; the last one decides |
| Doctor.RunAll | internal/doctor/doctor.go:165-175 | every interleaving gives each check its own result |
| Doctor.SequentialIsAlone | internal/doctor/doctor.go:140-184 | checks run one after another have the results they have alone |
| Doctor.Run | internal/doctor/doctor.go:143-184 | every interleaving gives the list of a sequential run, when no repair that runs changes what another check reads; the probes may repair what they like |
| Doctor.NoRepairIsIndependent | internal/doctor/doctor.go:212-222 | that covers every run in which no repair is called for |
| Doctor.NoFixIsIndependent | internal/doctor/doctor.go:212-214 | and every run without the fix option |
| Doctor.ScheduleMatters | internal/doctor/doctor.go:165-222 | a repair that runs and another check that reads what it changes: two schedules, two results |
| Doctor.OneResultPerCheck | internal/doctor/doctor.go:148-187 | one result per check, under its name |
| Doctor.DisplayIsStable | internal/doctor/doctor.go:177-182 | the same results, groups in display order, each group in check order |
| Doctor.GroupsInOrder | internal/doctor/doctor.go:81 | the display goes Host, Tools, Stack, Services, Tunnel, Wallets |
| Sorting.SortIsStable | internal/doctor/doctor.go:182 | a stable sort by rank |
| Sorting.SortStringsIgnoresOrder | internal/agentskills/source.go:232 | sorted strings do not depend on the order they came in |

## Left out

- Values.Disk.ApplyOverrides: trees are values, so sharing of subtrees between files in memory is not modelled; YAML round trips are taken to be faithful, maps with other than string keys are scalars, and what a stopped write leaves is any file.
- Edits.ApplyOverridesTwice: asks that the file is not among its own overlays, because then the statement is false.
- Registration.Registrar.RegisterDirect: that a mint on chain is found again is stated for reads of the owner that are current, and while the signer keeps its tokens; the texts of errors and the signer's own protocol are not modelled, and which errors are transient is an arbitrary choice of the network. What others write to the identity is seen when the call writes it, and nobody deletes it meanwhile.
- Registration.Registrar.FindRegistration: block numbers are positions in the log; a topic filter is the comparison of the owner.
- MintHistory.AtMostOneToken: every mint is settled before the next call starts, and fewer than four log searches of a call go wrong.
- OfferHistory.WipeAndResumeRestore: covers runs whose ledger writes and cluster calls succeed and whose creates meet nothing foreign; labels, namespaces and image references of manifests are not modelled.
- IdentityRecord.Site.Save: the spec of the identity and the JSON text are not modelled.
- Registrations.Upsert: case folding covers ASCII letters.
- SkillHistory.InstalledThenDropped: excludes failed calls that install a skill and do not list it, because then the statement is false.
- SkillSync.SkillsDir.Sync: symbolic links, permissions and wanted names outside a-z, 0-9 and dash are not modelled.
- ExactSync.Home.Sync: the rename that rolls back succeeds; symbolic links inside the staged tree count as a failing copy.
- TreeDigest.StreamIsTheTree: about the hashed stream; the hash function is not part of this model.
- Money.PrintedAmountReadsBack: amounts are not negative; plain decimals are read digit by digit, other notations of rationals (signs, exponents, fractions) by an arbitrary function.
- Purchase.DefaultCapAdmitsPrice: an explicit `--cost-cap` is not modelled; counts are unbounded integers.
- Routes.PrintedRouteReadsBack: asks that no piece after a comma holds `=`; the price check is an arbitrary predicate.
- Doctor.Run: a check and a repair are one step each; a check that times out is one that says so.
- The commands that patch an offer without refreshing the ledger (`cmd/obol/sell.go:3377`, `cmd/obol/sell_info.go:525`, `cmd/obol/tunnel_domain.go:226`).
- The replacement of accepted payments (`buildSellAcceptUpdatePatch`), which leaves old price slots behind.
- The fish and PowerShell scripts of `obol env` beyond quoting.
- Skill selections of agents (`applySkillDiff`, `skillDelta`, `Added`, `SetAdded`, `DefaultAgentSet`), severity counts (`Summarize`) and the balance parser: single-pass lists and counts.
- Prompts, spinners, clocks, port forwards, kubectl and helm processes, tar and gzip.
