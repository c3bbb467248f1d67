# Verified models

Dafny models of the parts of the system where several rules have to hold at once, and proofs of what
they promise. `dafny verify dfyconfig.toml` checks everything.

**User-tier migration (055).** `ServerNames` has the naming rules, `VaultRefs` the `${vault:NAME}`
references inside strings, `ForkPlanner`, `VaultPlanner` and `SnapshotPlanner` the three planners with
their loops, `UserTierMove` the tables and the statements as a function, `UserTierDatabase` the same
statements on mutable tables. What a workspace ran is stated twice in `UserTierMove`: `RanBefore` is the
resolver 055 describes (its lines 10-37 and 316-339), `RunsAfter` the one that serves afterwards
(src/server/services/mcp_config.py:434-497). `VaultMeaning`, `UserTierPreservation` and
`UserTierTheorem` prove that the two agree for every live workspace, over every table content, every
operator configuration and every sound reading of the digests, none read at all included.
`UserTierAfter` says what the move leaves in each table; `KeptNames` and `KeptNamesInTables` say who keeps
a name: the oldest holder, and every secret whose value is already there.

**Workspace names (054).** `FolderNames` has keys and suffixes, `FolderSpelling` what a folder keeps of a
name and which names share a key, `NamePlanner` the two passes, the termination of the search by
counting, and the plan's properties.

**Desktop shell.** `OAuthFlows` is the flow manager as a step function over an explicit clock,
`OAuthInvariant` what every interleaving keeps, `OAuthEvents` what one event means for the flows, and
`OAuthShell` the handlers on mutable state: each is one step, keeps the invariant as its `Valid`, and has
that meaning as its contract. `HandoffQueue` is the delivery queue, and `Outage`, `OutageRuns`,
`OutageEvents` and `OutageWindow` the outage page, in the same parts.

**Run ledger (017, 018, 023).** `RunLedger` is the table as a transition system of statements that land
or are refused, `RunCollapse` the downgrade, `RunSequence` the numbering and the seen cursor.

**Computer backfill (046).** `Computers` is the pass as a function of the tables, `ComputerTables` the
statements run in place under the indexes and keys.

**JSON merge (035)** is `JsonMerge`, against MergePatch of section 2 of RFC 7396. The **scraper's call
budget** is `ScrapeBudget` (admission), `ScrapeGate` and `ScrapeOrder` (the gate as list
scheduling: its bounds, and what it does at every moment) and `ScrapeBatch` (what admission buys).

Shared: `Basics` (`Options`, `Pigeonhole`, `Decimals`) and `UserTierModel`. Inductions are written out:
every lemma carries `{:induction false}`.

## Where a promise does not hold as stated

Each is settled by a condition proved both ways, and an input that fails it is given.

- Deliveries that each take under 30 seconds can overlap, because the timeout runs from queueing
  (`HandoffQueue.ShortStepsCanOverlap`); they do not overlap exactly under the condition of
  `HandoffQueue.NeighboursOverlapExactly`.
- 035 meets RFC 7396, and is idempotent, exactly when the target is an object, the patch is not, or the
  patch holds no null member (`JsonMerge.MergePatchExactly`, `JsonMerge.MergeTwiceExactly`).
- Admission does not hold every batch to 110 seconds; `ScrapeBatch.BudgetHeldExactly` says which.
- The timeout a refusal shows can itself be refused (`ScrapeBudget.ShownTimeoutExactly`).
- 017 calls `retry_of_run_id` a chain, but a run may name itself (`RunLedger.ARunMayRetryItself`).
  Every chain ends at a first attempt exactly when none does (`RunLedger.ChainsEndExactly`), and a
  statement keeps it so exactly when it inserts none (`RunLedger.StepKeepsChainsExactly`).
- After 023 every retry is numbered after the run it retries exactly when the backfill's own order has
  it so (`RunSequence.RetriesYoungerExactly`): no constraint ties a retry to its predecessor's turn or
  thread (`RunSequence.RetriesCanSortFirst`). Nothing else in the ledger depends on that order.
- The unique index on a computer's folders can stop 046 (`ComputerTables.DrawnFoldersCanClash`); it does
  so exactly when folders drawn on a shared computer clash (`ComputerTables.FoldersExactly`).
- Two silent reloads can land between completed loads (`OutageRuns.TwoCanLandBetweenLoads`): at most k do
  exactly when at most k can from the record at the start (`OutageRuns.LandingsExactly`), which is one
  whenever the load set off with a navigation (`OutageRuns.OneLandsAfterADeparture`).

## Model

| member | source | states |
|---|---|---|
| `UserTierTheorem.MigrationPreservesEveryWorkspace` | migrations/versions/055_user_level_mcp_and_vault.py:1000-1099 | Whatever the tables, the operator's configuration and the digests read: once planned, the move applies without a key clash, and every live workspace then runs exactly the definitions it ran before, each with every `${vault:NAME}` resolving to the value, or the absence, it resolved to before |
| `UserTierTheorem.PromotedServerKept` | migrations/versions/055_user_level_mcp_and_vault.py:10-26 | A promoted server runs in its own workspace alone, and there exactly if the original ran, with the same resolved fields; its account row is on exactly if the original ran, and off for workspaces to come |
| `UserTierTheorem.AccountServerKept` | migrations/versions/055_user_level_mcp_and_vault.py:16-20 | An account server runs in exactly the live workspaces it ran in, tombstones and former shadows included, with the same resolved fields |
| `UserTierTheorem.PlanApplies` | migrations/versions/055_user_level_mcp_and_vault.py:1050-1099 | No insert, rename or copy of any plan meets a row already under its key |
| `UserTierTheorem.PlanExists` | migrations/versions/055_user_level_mcp_and_vault.py:1017-1048 | A plan exists unless a single account, by its own held, reserved and arriving names, comes past a search's 9,998; how many accounts there are does not matter |
| `UserTierTheorem.PlanIsUnchained` | migrations/versions/055_user_level_mcp_and_vault.py:257-264 | Within a workspace no new name is another promotion's old one: a suffix never takes a name another fork arrives with |
| `UserTierTheorem.SnapshotsRelabel` | migrations/versions/055_user_level_mcp_and_vault.py:1069-1084 | The delete-then-rename pass over a planned cache never fails and equals one simultaneous relabelling of what the deletes left |
| `UserTierTheorem.SnapshotsFollow` | migrations/versions/055_user_level_mcp_and_vault.py:513-529 | Every cached snapshot of a promoted server whose references were left alone is found, unchanged, under its new name |
| `UserTierAfter.EverythingMoves` | migrations/versions/055_user_level_mcp_and_vault.py:1000-1099 | Table by table: one account row for every local server of a live workspace, switched on exactly if it ran; each new value some live workspace's secret of that account; account rows, values and built-in markers untouched; nothing local left |
| `UserTierAfter.TombstonesExactly` | migrations/versions/055_user_level_mcp_and_vault.py:333-339 | A plan's tombstones are exactly the promoted names away from where they ran, and the names of local servers that kept an account server or connection out |
| `UserTierAfter.RowsExactly` | migrations/versions/055_user_level_mcp_and_vault.py:654-659 | Every row of the switch table after the move: built-in markers as they were, tombstones off, other marks as they were, no others |
| `UserTierAfter.StaleSnapshotsGo` | migrations/versions/055_user_level_mcp_and_vault.py:519-524 | No snapshot of a dead workspace's server, or of a promoted one whose references changed, is left under its old name or its new one |
| `UserTierAfter.OtherSnapshotsStand` | migrations/versions/055_user_level_mcp_and_vault.py:1069-1084 | Snapshots under every other name stand unchanged |
| `KeptNamesInTables.ServerKeepsItsName` | migrations/versions/055_user_level_mcp_and_vault.py:254-265 | A local server keeps its name exactly when the name is legal, nothing holds or reserves it, and no older server of the user's live workspaces has it |
| `KeptNamesInTables.SecretKeepsItsName` | migrations/versions/055_user_level_mcp_and_vault.py:394-412 | Of secrets arriving with one name the account lacks, none keeps it if the account is asked for it; else the oldest does, and each other one exactly when its value is known to be the oldest's |
| `KeptNamesInTables.HeldValueCollapses` | migrations/versions/055_user_level_mcp_and_vault.py:26-31 | A secret whose known value the account already holds under its name keeps the name and is not copied |
| `KeptNamesInTables.ServerRewrittenExactly` | migrations/versions/055_user_level_mcp_and_vault.py:495-501 | A server's columns change, and its snapshots are given up, exactly when it names a secret of its workspace that was renamed |
| `KeptNamesInTables.ServerStandsUnrewritten` | migrations/versions/055_user_level_mcp_and_vault.py:495-501 | A server that names, of its workspace's secrets, only such as collapse moves with its columns as they were |
| `KeptNamesInTables.AskedInTables` | migrations/versions/055_user_level_mcp_and_vault.py:456-471 | What an account is asked for: names of its plugins and servers, and of local servers whose own workspace lacks them, and no others |
| `KeptNames.NameKeptExactly` | migrations/versions/055_user_level_mcp_and_vault.py:297-315 | In the planner's order a server keeps its name exactly when the name is open to it and no earlier server of the account arrives with it |
| `KeptNames.SecretKeptExactly` | migrations/versions/055_user_level_mcp_and_vault.py:473-487 | A secret keeps its name exactly when the account held that value under it, or held nothing, is not asked for it, and its first holder, if another, brought the same known value |
| `KeptNames.HeldByFirst` | migrations/versions/055_user_level_mcp_and_vault.py:394-412 | A name some secret arrives with is only ever held as the account or its first holder brought it: no suffix takes it |
| `KeptNames.EqualValueCollapses` | migrations/versions/055_user_level_mcp_and_vault.py:402-405 | Merging a secret whose known value is held under its name changes nothing: no copy, no rename |
| `UserTierDatabase.Database.MoveToUserTier` | migrations/versions/055_user_level_mcp_and_vault.py:1000-1099 | On mutable tables: a failed name search changes nothing; otherwise every live workspace runs what it ran, every local server, on or off, has its account row, nothing else is new, and all that was there stands |
| `UserTierDatabase.Database.ApplyPlan` | migrations/versions/055_user_level_mcp_and_vault.py:1050-1099 | The statements in their order, deletes before tombstones and clears before renames, leave exactly the applied plan or report the clash |
| `UserTierDatabase.Database.MakePlan` | migrations/versions/055_user_level_mcp_and_vault.py:1017-1048 | The planners run on what the queries read give the specified plan, none when a name search fails |
| `UserTierDatabase.Database.WriteTombstones` | migrations/versions/055_user_level_mcp_and_vault.py:654-659 | Upserting tombstones one at a time, in any order, switches off exactly the planned names and leaves built-in markers standing |
| `UserTierDatabase.Database.InsertServers` | migrations/versions/055_user_level_mcp_and_vault.py:1051-1055 | Inserting row by row succeeds exactly when no planned key is held or planned twice; then each planned row holds its columns and its switch, off in new workspaces, and every old row is unchanged |
| `UserTierDatabase.Database.RenameSnapshots` | migrations/versions/055_user_level_mcp_and_vault.py:1077-1084 | Over cleared targets, independent renames run one by one go through and move every snapshot once, by one relabelling; otherwise a rename onto a held key stops the pass |
| `UserTierDatabase.Database.CopySecrets` | migrations/versions/055_user_level_mcp_and_vault.py:1085-1092 | Copying one by one succeeds exactly when no target name is held or copied to twice; every standing value is then unchanged and every copy stands under its name |
| `UserTierPreservation.PromotedNameIsClear` | migrations/versions/055_user_level_mcp_and_vault.py:304-315 | A promoted name is held by no server, connection, marker or reserved name of the tables the plan was read from |
| `UserTierPreservation.PromotedTombstones` | migrations/versions/055_user_level_mcp_and_vault.py:333-339 | The plan switches a promoted name off in a live workspace of its user exactly if it is not the fork's own or the fork never ran |
| `UserTierPreservation.AccountTombstones` | migrations/versions/055_user_level_mcp_and_vault.py:336-339 | The plan switches an account server's name off exactly where a local row shadowed it |
| `UserTierPreservation.PromotedSwitches` | migrations/versions/055_user_level_mcp_and_vault.py:651-659 | After the upserts a promoted server's switch in a workspace says exactly what the plan meant |
| `UserTierPreservation.AccountSwitches` | migrations/versions/055_user_level_mcp_and_vault.py:651-659 | After the upserts an account server is off exactly where it was tombstoned or shadowed before |
| `UserTierPreservation.LocalViewIsListed` | migrations/versions/055_user_level_mcp_and_vault.py:571-574 | The secrets the query lists in any order are each workspace's own view |
| `UserTierPreservation.CopiesLand` | migrations/versions/055_user_level_mcp_and_vault.py:668-676 | Copies with fresh names all land and say together what they said one by one |
| `ForkPlanner.PlanForks` | migrations/versions/055_user_level_mcp_and_vault.py:268-345 | The loops over live forks, claimed names and tombstones compute the specified plan, none when a search fails |
| `ForkPlanner.ForkName` | migrations/versions/055_user_level_mcp_and_vault.py:254-265 | The walk over candidates returns the first that may be taken, none when the bounded walk runs out |
| `ForkPlanner.ForkNameExactly` | migrations/versions/055_user_level_mcp_and_vault.py:254-265 | The name is the first of base, base_2, base_3 ... that nobody reserves, holds or else arrives with, each earlier one being one of those or no module name |
| `ForkPlanner.ForkNameIsLegal` | migrations/versions/055_user_level_mcp_and_vault.py:254-265 | A chosen name is an identifier of at most 64 characters, no module name, no dunder, outside every exclusion set |
| `ForkPlanner.ForkNameIsTotal` | migrations/versions/055_user_level_mcp_and_vault.py:203-206 | With fewer than 9,998 names excluded the search always succeeds |
| `ForkPlanner.UnclashingNameIsKept` | migrations/versions/055_user_level_mcp_and_vault.py:254-265 | A legal name nobody holds is promoted as it is |
| `ForkPlanner.PromotionsAreWellNamed` | migrations/versions/055_user_level_mcp_and_vault.py:301-332 | Every promotion of every plan has a legal name, unreserved, free in its account and workspace, unique for its user |
| `ForkPlanner.PlanIsTotal` | migrations/versions/055_user_level_mcp_and_vault.py:304-315 | A plan exists whenever each account's own excluded names and forks stay within 9,998, however many accounts there are |
| `ForkPlanner.PlanIgnoresArrival` | migrations/versions/055_user_level_mcp_and_vault.py:193-194 | The plan depends on the rows, not on the order the query returned them in |
| `ForkPlanner.SplitByLiveness` | migrations/versions/055_user_level_mcp_and_vault.py:293-296 | The loop splits the sorted forks into those of live workspaces and the rest, order kept |
| `ForkPlanner.SwitchOff` | migrations/versions/055_user_level_mcp_and_vault.py:333-339 | The loop over a user's live workspaces adds exactly the promotion's tombstones |
| `ForkPlanner.CollectOriginals` | migrations/versions/055_user_level_mcp_and_vault.py:297-299 | The loop gathers, for each user, exactly the names its live forks arrive with |
| `UserTierModel.SortIgnoresArrival` | migrations/versions/055_user_level_mcp_and_vault.py:193-194 | Sorting rows with distinct stamps gives one order, whatever the input order |
| `ServerNames.LegalBaseIsLegal` | migrations/versions/055_user_level_mcp_and_vault.py:213-222 | Any string at all has a legal base: identifier-shaped, at most 64 characters, importable |
| `ServerNames.LegalNameIsItsOwnBase` | migrations/versions/055_user_level_mcp_and_vault.py:213-222 | A legal name is its own base |
| `ServerNames.LegalBaseExactly` | migrations/versions/055_user_level_mcp_and_vault.py:213-222 | The base keeps the name character by character, illegal ones as underscores; only a lead that would make a dunder goes, and a leading digit, a module name and an empty rest are mended as stated |
| `ServerNames.SuffixedInjective` | migrations/versions/055_user_level_mcp_and_vault.py:197-200 | Different numbers give different suffixed names, however far the base is truncated |
| `ServerNames.SuffixedExactly` | migrations/versions/055_user_level_mcp_and_vault.py:197-200 | A numbered name is as much of the base as fits in 64 characters, an underscore unless the base is nothing else, and the number |
| `ServerNames.SuffixedIsLegal` | migrations/versions/055_user_level_mcp_and_vault.py:197-210 | A suffixed legal base is legal: never a dunder, never a module name, at most 64 characters |
| `ServerNames.FirstFromFinds` | migrations/versions/055_user_level_mcp_and_vault.py:203-206 | The walk returns the first acceptable candidate, every one before it being refused, and nothing only when all are refused |
| `ServerNames.SearchIsTotal` | migrations/versions/055_user_level_mcp_and_vault.py:203-206 | A walk fails only if at least 9,998 candidates are excluded |
| `VaultRefs.RewriteIsSimultaneous` | migrations/versions/055_user_level_mcp_and_vault.py:415-431 | Scanning the rewritten string gives the original pieces with each reference renamed once: chains never compose, other text stays, no reference appears across a boundary |
| `VaultRefs.RewritePreservesMeaning` | migrations/versions/055_user_level_mcp_and_vault.py:415-431 | If values moved with their names and missing names stay missing, the rewritten field resolves part by part to what it resolved to |
| `VaultRefs.RewriteUntouched` | migrations/versions/055_user_level_mcp_and_vault.py:415-431 | A string naming nothing renamed is returned byte for byte |
| `VaultRefs.UntouchedExactly` | migrations/versions/055_user_level_mcp_and_vault.py:415-431 | A string comes back unchanged exactly when it names nothing that is renamed |
| `VaultRefs.TokenExactly` | migrations/versions/055_user_level_mcp_and_vault.py:85 | A reference starts at a place exactly when its spelling does, with an identifier of at most 128 characters |
| `VaultRefs.RenderLex` | migrations/versions/055_user_level_mcp_and_vault.py:85 | Scanning loses no character: the pieces spell the string |
| `VaultRefs.LexRender` | migrations/versions/055_user_level_mcp_and_vault.py:85 | Pieces that hide no token in their text are what their spelling scans to |
| `VaultPlanner.PlanVault` | migrations/versions/055_user_level_mcp_and_vault.py:434-507 | The loops over live secrets and promotions compute the specified merge, renames and rewritten promotions |
| `VaultPlanner.SecretName` | migrations/versions/055_user_level_mcp_and_vault.py:394-412 | The walk returns the first name that is free to use, or already holds the same known value |
| `VaultPlanner.SecretNameExactly` | migrations/versions/055_user_level_mcp_and_vault.py:394-412 | The name is the first of own, own_2, own_3 ... that the account holds under the same known value, or that nobody holds, asks for or else arrives with |
| `VaultPlanner.SecretNameIsTotal` | migrations/versions/055_user_level_mcp_and_vault.py:402-412 | With fewer than 9,998 names held, asked for or arriving, a secret always gets a name |
| `VaultPlanner.SecretNameStaysReferencable` | migrations/versions/055_user_level_mcp_and_vault.py:394-412 | A secret a reference could name is renamed to a name a reference can carry |
| `VaultPlanner.MergeAll` | migrations/versions/055_user_level_mcp_and_vault.py:473-487 | The merging loop, secret by secret, computes the specified held names, copies and renames |
| `VaultPlanner.MergeIsTotal` | migrations/versions/055_user_level_mcp_and_vault.py:473-487 | The merge exists whenever each account's own held, asked-for and arriving names leave room for its own secrets |
| `VaultPlanner.RepointEach` | migrations/versions/055_user_level_mcp_and_vault.py:495-501 | Each promotion is rewritten by its own workspace's renames, and flagged exactly when a column changed |
| `VaultMeaning.MergedKeepsInvariant` | migrations/versions/055_user_level_mcp_and_vault.py:479-487 | After every merged secret: account values stand, each secret's value is under its mapped name, asked-for names are untouched |
| `VaultMeaning.PromotedMeaningKept` | migrations/versions/055_user_level_mcp_and_vault.py:412-507 | A rewritten promotion resolves in the merged account vault to what it resolved to in its workspace's merged set |
| `VaultMeaning.AccountKept` | migrations/versions/055_user_level_mcp_and_vault.py:463-471 | No account value changes, and a name an account server or plugin asks for is there after exactly if it was before |
| `VaultMeaning.EverySecretSurvives` | migrations/versions/055_user_level_mcp_and_vault.py:479-487 | Every live workspace secret's value is in the account vault under its mapped name |
| `SnapshotPlanner.PlanToolSchemas` | migrations/versions/055_user_level_mcp_and_vault.py:510-529 | The loop over promotions yields exactly the specified deletes and renames |
| `SnapshotPlanner.RenamesAreIndependent` | migrations/versions/055_user_level_mcp_and_vault.py:510-529 | Renames planned from unchained promotions share no source, no target, and no target is a source |
| `SnapshotPlanner.SequentialIsSimultaneous` | migrations/versions/055_user_level_mcp_and_vault.py:1069-1084 | Over cleared targets, independent renames run in sequence never fail and equal one relabelling |
| `SnapshotPlanner.SourceIsNotStale` | migrations/versions/055_user_level_mcp_and_vault.py:1069-1076 | No delete and no cleared target covers the snapshots of a promotion whose references were left alone |
| `SnapshotPlanner.NewNameOf` | migrations/versions/055_user_level_mcp_and_vault.py:519-528 | The relabelling sends each such promotion's old name to its new one |
| `NamePlanner.PlanNames` | migrations/versions/054_workspace_name_folders.py:107-141 | The two passes terminate on a plan: keepers keep their trimmed names, any other row gets the first candidate whose key no keeper and no earlier row holds |
| `NamePlanner.FirstFree` | migrations/versions/054_workspace_name_folders.py:133-138 | The unbounded search ends, on the first candidate not refused |
| `NamePlanner.RefusedAreTaken` | migrations/versions/054_workspace_name_folders.py:134-138 | Each refused number uses up a taken key of its own, so refusals are bounded by the taken keys |
| `NamePlanner.KeysAreUnique` | migrations/versions/054_workspace_name_folders.py:139-140 | Two rows of one user never share a key, and each key is the key of its planned name |
| `NamePlanner.TypedNamesAreSafe` | migrations/versions/054_workspace_name_folders.py:111-115 | The first row to spell a key keeps its name, and no numbered row takes that key |
| `NamePlanner.NumberedFromOwnName` | migrations/versions/054_workspace_name_folders.py:97-141 | A row that cannot keep its name gets the longest part of its own that fits and the first number of use; only a name that spells no folder starts from "Workspace" |
| `NamePlanner.PlanIsFixpoint` | migrations/versions/054_workspace_name_folders.py:107-141 | Planning a plan's own output changes nothing |
| `NamePlanner.FitNames` | migrations/versions/054_workspace_name_folders.py:117-130 | The first pass marks as keepers exactly the first valid holders of each key |
| `NamePlanner.PlaceRow` | migrations/versions/054_workspace_name_folders.py:132-140 | One row of the second pass meets its part of the plan |
| `FolderNames.SpellingIsSafe` | migrations/versions/054_workspace_name_folders.py:75-81 | Whatever the name, its folder spelling is one safe path segment: no separator, quote, expansion or control character, no leading dot, dash or space, at most 255 bytes |
| `FolderSpelling.OwnFolderExactly` | migrations/versions/054_workspace_name_folders.py:75-81 | A name is its own folder exactly when it is single-spaced, safe, short enough and leads with a word |
| `FolderSpelling.SpellingIsWellSpelt` | migrations/versions/054_workspace_name_folders.py:75-81 | Spelling is idempotent: every folder is its own spelling |
| `FolderSpelling.UnsafeBecomeDashes` | migrations/versions/054_workspace_name_folders.py:75-77 | Unsafe characters become dashes, one for one, and every other character stays |
| `FolderSpelling.SpacesCountOnce` | migrations/versions/054_workspace_name_folders.py:75-77 | A run of white space counts as one space, whatever it is made of |
| `FolderSpelling.SpellingIsLongest` | migrations/versions/054_workspace_name_folders.py:68-72 | A folder too long is cut after the last word, or part of one, that fits |
| `FolderSpelling.CaseSharesKey` | migrations/versions/054_workspace_name_folders.py:84-94 | Names that differ in letter case alone have the same key, or both none |
| `FolderSpelling.KeysMeetExactly` | migrations/versions/054_workspace_name_folders.py:84-94 | Two names share a key exactly when both folders are usable and differ in letter case at most |
| `FolderSpelling.NoKeyExactly` | migrations/versions/054_workspace_name_folders.py:84-94 | A name has no key exactly when it spells no folder, or a reserved one in any letter case |
| `FolderNames.Suffixed` | migrations/versions/054_workspace_name_folders.py:97-104 | The shrinking loop ends with the longest shortened base that fits both limits, or with the suffix alone when none does |
| `FolderNames.NumberedKey` | migrations/versions/054_workspace_name_folders.py:92-104 | A numbered name always has a key, and the key ends in its number |
| `FolderNames.NumberedKeysDiffer` | migrations/versions/054_workspace_name_folders.py:92-104 | Different numbers give different keys, through trimming, folding and shrinking |
| `FolderNames.TrimmedIsTrim` | migrations/versions/054_workspace_name_folders.py:121-123 | Trimming, then cutting to 80 characters, leaves no space at either end |
| `FolderSpelling.PaddingGoes` | migrations/versions/054_workspace_name_folders.py:121-123 | Trimming takes the padding off and nothing else, and of a name over 80 characters what follows the last word that fits |
| `JsonMerge.JsonbDeepMerge` | migrations/versions/035_jsonb_deep_merge.py:31-70 | The loop over the patch's keys, in whatever order they come, computes one result |
| `JsonMerge.MergePatchExactly` | migrations/versions/035_jsonb_deep_merge.py:31-70 | The merge equals MergePatch of section 2 of RFC 7396 exactly when the target is an object, the patch is not, or the patch holds no null member |
| `JsonMerge.MergePatchDiffers` | migrations/versions/035_jsonb_deep_merge.py:41-43 | An input on which the two differ |
| `JsonMerge.ObjectTargetIsMergePatch` | migrations/versions/035_jsonb_deep_merge.py:45-68 | On an object target the merge is RFC 7396's, at every depth |
| `JsonMerge.MergeTwiceExactly` | migrations/versions/035_jsonb_deep_merge.py:31-70 | Sending a patch twice equals sending it once, under exactly the same condition |
| `JsonMerge.OutsideIsUntouched` | migrations/versions/035_jsonb_deep_merge.py:45-66 | A path the patch does not reach reads as before |
| `JsonMerge.NoNewNull` | migrations/versions/035_jsonb_deep_merge.py:47-60 | A null member after the merge was already there before |
| `OAuthInvariant.EveryRunKeepsInv` | desktop/src/oauth.js:176-718 | Over every interleaving of arming, binding, cancelling, callbacks, timers, starts and stops: flows are stored or ended once, timers run exactly for stored flows, clocks stay within allowance |
| `OAuthInvariant.FlowsAreAccountedFor` | desktop/src/oauth.js:260-272 | Each armed flow is stored or ended by exactly one cause, its finish runs at most once, and at most 8 connectors are armed |
| `OAuthInvariant.FlowsDoNotOutliveTheirTime` | desktop/src/oauth.js:433-477 | A stored sign-in is younger than one timeout, a connector than two, however often it was bound |
| `OAuthInvariant.TimersNeverMiss` | desktop/src/oauth.js:440-476 | A timer that fires always finds its own flow still stored |
| `OAuthInvariant.CallbackSpendsItsOwnFlow` | desktop/src/oauth.js:243-272 | A connector callback spends only the flow bound to its state, never an unbound one, and touches no other |
| `OAuthInvariant.OvertakenStartStaysDown` | desktop/src/oauth.js:312-351 | A listener start overtaken by a stop never comes up, nor lets another begin before it settles |
| `OAuthInvariant.ListenerComesUpExactly` | desktop/src/oauth.js:312-369 | A start asked for with no listener, on the port it then binds, brings the listener up exactly when no stop came between |
| `OAuthInvariant.ListenerStaysUp` | desktop/src/oauth.js:362-392 | A listener that is up stays up, on its port, until a stop |
| `OAuthInvariant.EndsAreFinal` | desktop/src/oauth.js:260-272 | How a flow ended never changes afterwards |
| `OAuthEvents.CallbackMeans` | desktop/src/oauth.js:176-273 | A request is served exactly when it reaches a flow, a connector by its own state, a sign-in by the slot, and serving spends that flow alone; a proper one that reaches none is told its flow is over, any other is not found |
| `OAuthEvents.FireMeans` | desktop/src/oauth.js:440-476 | Under the invariant every timer that fires ends exactly its own flow |
| `OAuthEvents.BindMeans` | desktop/src/oauth.js:677-691 | Under the invariant a bind names one flow and moves no clock but that flow's, and that only the first time |
| `OAuthEvents.StopMeans` | desktop/src/oauth.js:375-392 | Under the invariant the flows ended by a stop are exactly those that were stored |
| `OAuthShell.CallbackShell.OnCallback` | desktop/src/oauth.js:176-273 | Spends exactly the one flow the request reaches, with its timer, touching no other flow; answers without serving, and changes nothing, exactly when it reaches none |
| `OAuthShell.CallbackShell.ConnectorFlowFor` | desktop/src/oauth.js:306-310 | The scan finds the first flow bound to the state, none for an empty one |
| `OAuthShell.CallbackShell.ArmSigninFlow` | desktop/src/oauth.js:433-447 | The new flow owns the one slot with a full clock; the flow it displaces is over, told so exactly when another window took the slot, and no connector is touched |
| `OAuthShell.CallbackShell.ArmConnectorFlow` | desktop/src/oauth.js:458-467 | Opens a slot exactly when fewer than 8 are armed, with a full clock and a fresh id, displacing nobody |
| `OAuthShell.CallbackShell.Bind` | desktop/src/oauth.js:677-691 | Goes through exactly for the asking window's own flow and a non-empty state; binds that flow alone, and only its first bind moves a clock, its own |
| `OAuthShell.CallbackShell.Cancel` | desktop/src/oauth.js:711-718 | Goes through exactly for the asking window's own flow, which is then over, unreported, with every other flow and timer untouched |
| `OAuthShell.CallbackShell.OnTimer` | desktop/src/oauth.js:440-476 | A timer that runs out ends its own flow, whichever store holds it, and nothing else: on every reachable state the guards never bite |
| `OAuthShell.CallbackShell.OnBrowserRefused` | desktop/src/oauth.js:575-585 | The sign-in the browser was opened for is over if still pending; a later sign-in in its slot goes on |
| `OAuthShell.CallbackShell.Ensure` | desktop/src/oauth.js:362-369 | A start begins exactly when no listener is up and none is under way; one under way is shared; no flow is touched |
| `OAuthShell.CallbackShell.OnStartSettled` | desktop/src/oauth.js:326-351 | The listener comes up on the bound port exactly when the start was begun since the last stop and bound one; otherwise it is as it was |
| `OAuthShell.CallbackShell.StopServer` | desktop/src/oauth.js:375-392 | No flow and no timer is left; each flow that was stored is on record as stopped, unreported, and a start under way belongs to an era that is over |
| `HandoffQueue.EveryRunKeepsInv` | desktop/src/oauth.js:283-303 | Each queued delivery waits on the one before it, is let go by its settling or by its own 30 seconds, and starts when the one before is let go |
| `HandoffQueue.HandoffMeansBusy` | desktop/src/oauth.js:283-303 | The remembered promise is there exactly while some delivery of the era has not been let go |
| `HandoffQueue.StartsAreBounded` | desktop/src/oauth.js:283-303 | A delivery starts within 30 seconds of being queued, whatever the queue's length |
| `HandoffQueue.StartsAreInOrder` | desktop/src/oauth.js:283-303 | Between two stops deliveries start in the order they were queued |
| `HandoffQueue.PromptDeliveriesNeverOverlap` | desktop/src/oauth.js:283-303 | A delivery that settles within 30 seconds of being queued is over before any later one starts |
| `HandoffQueue.NeighboursOverlapExactly` | desktop/src/oauth.js:283-303 | Two neighbours do not overlap exactly when the first settles within 30 seconds of being queued or before the second is queued |
| `HandoffQueue.ShortStepsCanOverlap` | desktop/src/oauth.js:290-295 | Steps of 20 seconds each can overlap, since the 30 seconds run from queueing and not from the start |
| `HandoffQueue.Deliveries.HandOff` | desktop/src/oauth.js:283-303 | Starts the delivery at once exactly when no delivery of its era is still holding the window; otherwise it waits on the one queued just before |
| `HandoffQueue.Deliveries.OnSettled` | desktop/src/oauth.js:291-300 | Settling in time lets the next waiting delivery start now and changes no other; settling after its 30 seconds changes nothing for anyone else |
| `HandoffQueue.Deliveries.OnTimeout` | desktop/src/oauth.js:290-299 | Exactly 30 seconds after it was queued a delivery lets the next waiting one start, and changes no other |
| `HandoffQueue.Deliveries.OnStop` | desktop/src/oauth.js:383-387 | After a stop the window is free, so the next listener's first delivery starts at once, whatever the old deliveries still do |
| `Outage.EveryRunKeepsInv` | desktop/src/outage.js:151-308 | Over every interleaving of failures, navigations, probe answers, retries and timers: claims, probes, effects and the retry budget stay consistent |
| `OutageRuns.WorkBegunBeforeANavigationNeverLands` | desktop/src/outage.js:87-100 | After the main frame sets off for a real page, no earlier probe or timer can paint, navigate, start a probe or release a later outage's claim |
| `OutageRuns.NothingStaleLands` | desktop/src/outage.js:179-182 | Whatever was painted or loaded landed in the generation it was begun for |
| `OutageRuns.OneProbePerGeneration` | desktop/src/outage.js:154-178 | At most one portal probe is out for each generation |
| `OutageRuns.OneReloadPerGeneration` | desktop/src/outage.js:305-306 | A retry that goes through is the last thing its generation sees |
| `OutageRuns.RetryReloadsExactly` | desktop/src/outage.js:283-308 | Retry asked for on a showing window sends a probe; its answer, whatever came between, reloads the page shown when it was asked exactly when the answer is good and the window has not moved on |
| `OutageRuns.EveryOutageIsServed` | desktop/src/outage.js:151-205 | While an outage shows, the page is up for exactly the recorded target and reason, or its probe is out and answers within two seconds |
| `OutageRuns.EveryFailureIsServed` | desktop/src/outage.js:232-261 | Every main-frame failure but an aborted load, a file and a first transient one gets the page, even with a stale probe out |
| `OutageRuns.OneSilentRetryBetweenLoads` | desktop/src/outage.js:237-258 | Until a load completes at most one silent retry is armed, none when it is spent; when at most one lands is `OutageRuns.LandingsExactly` |
| `OutageRuns.CompletedLoadReturnsTheRetry` | desktop/src/outage.js:237-264 | After a completed load the next transient failure is retried in silence a second later, and only the one after it shows the page |
| `OutageRuns.ReasonsAreEarned` | desktop/src/outage.js:136-145 | A page blames a portal only on a portal's answer to an online machine, the server only for a 5xx, the machine only when it is offline |
| `OutageRuns.SilentReloadsAreBudgeted` | desktop/src/outage.js:237-264 | Silent reloads never outnumber completed loads by more than one |
| `OutageRuns.LandingsBetweenLoads` | desktop/src/outage.js:237-264 | Until a load completes no more silent reloads land than could at the start: those armed in this generation while no page shows, and one more if the retry is unspent and the window there |
| `OutageRuns.AllCanLand` | desktop/src/outage.js:237-264 | From every reachable record some run without a completed load lands as many, so the bound is met |
| `OutageRuns.LandingsExactly` | desktop/src/outage.js:237-264 | Whatever happens at most k silent reloads land before a load completes exactly when no more than k can at the start |
| `OutageRuns.OneLandsAfterADeparture` | desktop/src/outage.js:237-275 | Once the main frame has set off for a real page, at most one silent reload lands before a load completes, whatever was armed before |
| `OutageRuns.TwoCanLandBetweenLoads` | desktop/src/outage.js:237-264 | A run in which a load completes without a navigation of its own and two silent reloads then land in one generation |
| `OutageRuns.NothingLandsOnADestroyedWindow` | desktop/src/outage.js:87-89 | Nothing reaches a destroyed window |
| `OutageWindow.WindowRecord.ShowPage` | desktop/src/outage.js:151-178 | Whatever is running, a window with somewhere to go back to ends up served, behind at most one probe: painted now where a probe could teach nothing, left alone where this outage's probe is out |
| `OutageWindow.WindowRecord.OnPortalAnswer` | desktop/src/outage.js:174-186 | In its own outage the answer paints the shown target now, blaming a portal exactly when one answered an online machine, and frees the claim; a late answer does nothing |
| `OutageWindow.WindowRecord.OnDidFailLoad` | desktop/src/outage.js:232-261 | A failure that counts has the window served, but for the first transient one, which arms exactly one silent retry; a subframe, an aborted load or a file changes nothing |
| `OutageWindow.WindowRecord.OnDidNavigate` | desktop/src/outage.js:266-270 | A 5xx answer over http or https leaves an undestroyed window showing and served; any other answer changes nothing |
| `OutageWindow.WindowRecord.OnDidStartNavigation` | desktop/src/outage.js:272-275 | Setting off for a real page ends the outage, and afterwards no probe or timer there ever was can do anything; nothing else does |
| `OutageWindow.WindowRecord.AskForReload` | desktop/src/outage.js:283-294 | A window asked to reload sends one probe, of the shown target in its generation, exactly when it shows the page, and nothing else moves |
| `OutageWindow.WindowRecord.OnSilentTimer` | desktop/src/outage.js:248-256 | Reloads, once, exactly in the generation it was armed in while no page shows; otherwise it only marks itself fired |
| `OutageWindow.WindowRecord.OnRetryAnswer` | desktop/src/outage.js:283-308 | Reports success exactly when an effect reaches the window: a good answer in its own generation reloads and ends the outage, any other leaves the page as it is |
| `OutageWindow.WindowRecord.OnMenuReloadAnswer` | desktop/src/main.js:265-287 | A good answer in its own generation reloads and ends the outage, a bad one leaves the window showing and served, a late one does nothing |
| `OutageWindow.PruneHistory` | desktop/src/outage.js:219-230 | Removing outage entries backwards by index leaves exactly the other entries in order |
| `RunLedger.EveryRunKeepsInv` | migrations/versions/018_turn_lifecycle_contract.py:51-83 | Over every accepted or refused sequence of inserts, updates and deletes the constraints hold, and no two runs share a number nor has one from the future |
| `RunLedger.TerminalRunsAreFrozen` | migrations/versions/018_turn_lifecycle_contract.py:64-73 | A run that has ended keeps its status and cancel intent for ever, and no statement changes what identifies a run |
| `RunLedger.FirstEndingStays` | migrations/versions/018_turn_lifecycle_contract.py:64-74 | The first ending written to an open run lands, and is the one that stays whatever statements follow |
| `RunLedger.OneSlotOneSuccessor` | migrations/versions/017_turn_lifecycle_expand.py:82-105 | At most one live run per thread and at most one direct successor per attempt, at every moment |
| `RunLedger.LaterRunsAreYounger` | migrations/versions/023_thread_lifecycle.py:61-77 | Every run inserted later has a greater run_seq than every run there was |
| `RunLedger.InsertsExactly` | migrations/versions/017_turn_lifecycle_expand.py:71-105 | Trigger and index probes refuse exactly the rows the constraints have no room for |
| `RunLedger.DeletesExactly` | migrations/versions/017_turn_lifecycle_expand.py:52-57 | A delete is refused exactly when it would leave a retry without its run |
| `RunLedger.ChainRoot` | migrations/versions/017_turn_lifecycle_expand.py:71-105 | A retry chain leads back to a first attempt, or to a run naming itself: it never runs in a circle |
| `RunLedger.ChainsEndExactly` | migrations/versions/017_turn_lifecycle_expand.py:52-57 | Every chain ends at a first attempt exactly when no run names itself |
| `RunLedger.StepKeepsChainsExactly` | migrations/versions/017_turn_lifecycle_expand.py:52-57 | A statement keeps it so exactly when it does not insert a run that names itself |
| `RunLedger.EveryRunKeepsFounded` | migrations/versions/017_turn_lifecycle_expand.py:71-105 | Over every sequence of statements chains stay free of circles, whatever the numbering, starting from a table with no retries as 017 leaves it |
| `RunLedger.RetriesStayYounger` | migrations/versions/023_thread_lifecycle.py:61-77 | Once every retry is numbered after the run it retries, no statement undoes it |
| `RunLedger.ARunMayRetryItself` | migrations/versions/017_turn_lifecycle_expand.py:52-57 | Nothing refuses a run that is its own retry |
| `RunLedger.ExpansionMeetsConstraints` | migrations/versions/017_turn_lifecycle_expand.py:30-105 | Healing and backfilling any table 001 allowed loses no row, ends the open ones in error, leaves the ended ones as they ended, and lands inside every new constraint |
| `RunCollapse.OneRowPerTurn` | migrations/versions/018_turn_lifecycle_contract.py:125-136 | Every turn that had rows keeps exactly one: its highest attempt, chainless, otherwise untouched |
| `RunCollapse.CollapseMeetsConstraints` | migrations/versions/018_turn_lifecycle_contract.py:137-151 | The collapsed table meets the restored check, foreign key and one row per turn |
| `RunCollapse.PrecheckIsExact` | migrations/versions/018_turn_lifecycle_contract.py:100-116 | The precheck passes exactly when the collapse takes no pending or claimed hook with it |
| `RunCollapse.NothingToCollapse` | migrations/versions/018_turn_lifecycle_contract.py:125-136 | The collapse gives the table back exactly when it holds no retry |
| `RunCollapse.RunTables.InsertRun` | migrations/versions/018_turn_lifecycle_contract.py:57-63 | Lands exactly when the run is open and the table with it meets every constraint, above every number given out, and no hook loses its run |
| `RunCollapse.RunTables.UpdateRun` | migrations/versions/018_turn_lifecycle_contract.py:64-74 | Refused, with nothing changed, exactly when it would change an ended run's status or cancel intent; otherwise its row, if there is one, holds what was written and no other moves |
| `RunCollapse.RunTables.DeleteRuns` | migrations/versions/017_turn_lifecycle_expand.py:107-114 | Goes through exactly when what stays meets the constraints, then takes exactly the named runs and their outbox rows |
| `RunCollapse.RunTables.Downgrade` | migrations/versions/018_turn_lifecycle_contract.py:86-151 | Refused, with nothing changed, exactly when a pending or claimed hook belongs to a superseded attempt; otherwise lands inside the restored constraints with exactly the hooks of the runs that stay |
| `RunSequence.NumberingIsTheOrder` | migrations/versions/023_thread_lifecycle.py:46-59 | Row numbers order rows by thread, turn, attempt, creation and id, in that order |
| `RunSequence.HistoryOrderIsKept` | migrations/versions/023_thread_lifecycle.py:44-59 | Within a thread a later turn or attempt gets a greater run_seq |
| `RunSequence.SequenceGoesOn` | migrations/versions/023_thread_lifecycle.py:61-69 | The sequence goes on at one past the number of rows, past every number given out |
| `RunSequence.SequenceTakesOver` | migrations/versions/023_thread_lifecycle.py:44-87 | From any table within the constraints, whatever its retries, the backfill and the sequence establish the ledger's invariant, and chains stay free of circles |
| `RunSequence.RetriesYoungerExactly` | migrations/versions/023_thread_lifecycle.py:44-59 | Every retry is numbered after the run it retries exactly when each sorts after that run in the backfill's order |
| `RunSequence.RetriesCanSortFirst` | migrations/versions/023_thread_lifecycle.py:44-59 | A table within every constraint whose retry is numbered before the run it retries |
| `RunSequence.HistoryShipsSeen` | migrations/versions/023_thread_lifecycle.py:102-118 | No ended run lies above its thread's cursor, and a cursor that moved stands on an ended run of its thread |
| `RunSequence.LaterRunsAreUnseen` | migrations/versions/023_thread_lifecycle.py:102-118 | Every run started after the migration is unseen, whatever statements come between |
| `RunSequence.ThreadTables.Upgrade` | migrations/versions/023_thread_lifecycle.py:44-118 | Numbering, advancing and seeding in place establish the ledger's invariant for every table, the retry order exactly where the backfill's own order has it, and leave no ended run unseen |
| `Computers.EverySandboxIsSettled` | migrations/versions/046_computers.py:252-311 | After one pass every live sandboxed workspace is bound, or its kind and sandbox are claimed by a live computer |
| `Computers.EveryUserHasOnePrimary` | migrations/versions/046_computers.py:315-343 | After one pass a user with a live computer has exactly one live primary |
| `Computers.PrimariesStay` | migrations/versions/046_computers.py:333-343 | A primary from before the pass stays the primary, untouched |
| `Computers.RaisedExactly` | migrations/versions/046_computers.py:318-343 | A computer becomes primary exactly when it is live, its user has no live primary, and it is the last used of the user's live computers |
| `Computers.PrimariesGoToTheLastUsed` | migrations/versions/046_computers.py:318-343 | So after the whole pass, minted computers included |
| `Computers.SecondPassChangesNothing` | migrations/versions/046_computers.py:260-272 | A second pass, whatever ids and names it would draw, is the identity |
| `Computers.BackfillKeepsIndexes` | migrations/versions/046_computers.py:252-343 | The pass lands inside both partial unique indexes on computers |
| `Computers.OnlyBindingMoves` | migrations/versions/046_computers.py:306-310 | A workspace gains a binding exactly if it won, and changes in nothing but binding and folder |
| `Computers.EligibleHasWinner` | migrations/versions/046_computers.py:252-276 | Every sandbox somebody is eligible for elects a workspace |
| `Computers.GainsExactly` | migrations/versions/046_computers.py:252-276 | A workspace gains a computer exactly when it is live, unbound, with a sandbox no live computer of its kind is for, and was the last used of such workspaces for that sandbox |
| `Computers.MachinesAreTheWinners` | migrations/versions/046_computers.py:273-303 | The computer a workspace gains is new, its own user's, of its kind, for its sandbox, rooted at it, stopped where it had failed |
| `Computers.WinnersDiffer` | migrations/versions/046_computers.py:252-276 | No two workspaces win the same sandbox |
| `Computers.FoldersFollow` | migrations/versions/046_computers.py:346-359 | Exactly the bound workspaces without a folder get the drawn one, in the third layout; no other folder or layout moves |
| `Computers.GrantsFollow` | migrations/versions/046_computers.py:362-370 | Placed grants stand untouched, and every open grant follows its workspace |
| `ComputerTables.FoldersExactly` | migrations/versions/046_computers.py:193-195 | The unique index on a computer's folders survives the pass exactly when the folders drawn for workspaces that already shared a computer differ; a minted computer never adds a clash |
| `ComputerTables.DrawnFoldersCanClash` | migrations/versions/046_computers.py:346-359 | Tables inside every index for which the drawn folders break the one on folders |
| `ComputerTables.RaisingSettles` | migrations/versions/046_computers.py:318-343 | The primaries' statement gives every user with a live computer one live primary, moves nothing but that flag, and leaves every standing primary alone |
| `ComputerTables.Database.Backfill` | migrations/versions/046_computers.py:228-371 | Goes through exactly when every provider is known and folders on shared computers differ, keeping all three unique indexes and the foreign key; otherwise nothing changes |
| `ScrapeBudget.FitsIsExact` | plugins/alternative_data/scrape_mcp_server.py:282-301 | The number of URLs a refusal names, capped as the message caps it, is exact for every batch the tool takes: that many and no more are admitted at this timeout |
| `ScrapeBudget.AllowedIsExact` | plugins/alternative_data/scrape_mcp_server.py:293-295 | The unrounded timeout of a refusal is exact |
| `ScrapeBudget.ShownTimeoutExactly` | plugins/alternative_data/scrape_mcp_server.py:297-301 | The timeout as shown is admitted exactly when rounding did not raise it |
| `ScrapeBudget.ShownTimeoutCanBeRefused` | plugins/alternative_data/scrape_mcp_server.py:297-301 | Five browser URLs are told 22 seconds and refused at 22 seconds |
| `ScrapeBudget.WavesAreEnough` | plugins/alternative_data/scrape_mcp_server.py:165-167 | The waves cover the batch, and one fewer would not |
| `ScrapeGate.ReleaseIsBounded` | mcp_servers/_browser.py:144-153 | A fetch lets its slot go by its bound, or by the bound plus the capped close wait when cancelled |
| `ScrapeOrder.SlotHeldExactly` | mcp_servers/_browser.py:144-153 | A slot is held while its fetch runs, up to the bound, and then until its browser has closed, exactly so where the close fits |
| `ScrapeOrder.NeverMoreThanSlots` | plugins/alternative_data/scrape_mcp_server.py:226-240 | At no moment do more fetches run than there are slots |
| `ScrapeOrder.NoSlotIdles` | plugins/alternative_data/scrape_mcp_server.py:226-240 | While a fetch waits every slot is held by an earlier one, so it starts the moment one frees |
| `ScrapeOrder.StartsInOrder` | plugins/alternative_data/scrape_mcp_server.py:226-240 | Fetches start in the order of the batch |
| `ScrapeGate.EachFetchInItsWave` | plugins/alternative_data/scrape_mcp_server.py:212-247 | Fetch i starts by the end of wave i/c and lets go by the end of the next, each wave ending by max(T+B, min(T+B+15, 110)) |
| `ScrapeGate.ListScheduling` | plugins/alternative_data/scrape_mcp_server.py:165-174 | With no fetch cancelled, fetch i starts within i/c bounds and ends within one more |
| `ScrapeGate.WavesAreReached` | plugins/alternative_data/scrape_mcp_server.py:212-247 | A batch of hanging fetches takes all of every wave, so the recurrence is no overestimate |
| `ScrapeGate.DeadlineExactly` | mcp_servers/_browser.py:140-146 | k waves keep to the deadline exactly when (k-1)(B+15)+B does |
| `ScrapeBatch.UncancelledBatchIsInBudget` | plugins/alternative_data/scrape_mcp_server.py:282-292 | An admitted batch none of whose fetches is cancelled is out by 110 seconds |
| `ScrapeBatch.BudgetHeldExactly` | plugins/alternative_data/scrape_mcp_server.py:282-292 | Whatever fetches and browsers do, n URLs keep to 110 seconds exactly when all but the last wave fit with their close waits and the last without |
| `ScrapeBatch.AdmittedSingleWaveIsInBudget` | plugins/alternative_data/scrape_mcp_server.py:282-292 | Admitted batches of one wave, and admitted fast batches, always keep to 110 seconds |
| `ScrapeBatch.AnAdmittedBatchCanOverrun` | plugins/alternative_data/scrape_mcp_server.py:282-292 | Three browser URLs at 40 seconds are admitted and can hold the gate for 125 |
| `ScrapeBatch.RunBatch` | plugins/alternative_data/scrape_mcp_server.py:226-240 | Letting each fetch in as the first slot frees gives the specified schedule |

## Left out

- NamePlanner.PlanNames: requires at most 10^70 rows. Past about 10^250 numbers a suffix no longer fits a folder name, so the search needs some bound; which one is not worked out.
- FolderNames.Suffixed: models ASCII names. Unicode normalisation, case folding and UTF-8 widths are not modelled, so bytes and characters coincide.
- ForkPlanner.PlanForks: tombstones are a set; the order they are emitted in (341-345) carries no meaning for the upserts and is not modelled.
- OAuthShell.CallbackShell.OnCallback: flows are values in a list found by id, not shared objects; the request arrives parsed (path kind, presence of code and detail, state, repeated parameters, navigation). Sockets, pages, windows, URL parsing and what finish does to its window are left out, and timers fire when due.
- HandoffQueue.Deliveries.HandOff: a resolved delivery starts its successor in the same step; microtask turns are not modelled.
- OutageWindow.WindowRecord.ShowPage: painting is an entry in a log; rendering, the display form of URLs and the log lines are left out. Whether the machine is online is an input of each event, and the record exists from the start rather than from first use.
- RunLedger.EveryRunKeepsInv: statements are atomic and one row at a time, deletes by a set of keys; locks, sessions and columns that no constraint or trigger reads are left out. The run_seq of a refused insert is spent, as a sequence's is.
- ComputerTables.Database.Backfill: row triggers that touch updated_at, the counts and notices, columns copied verbatim and the slug that makes a folder name are left out; folder names and ids are drawn from outside.
- ScrapeBatch.RunBatch: one call holds the gate at a time, times are exact reals, and URLs refused before the gate take no slot. Extraction, which holds no slot, is left out.
- JsonMerge.JsonbDeepMerge: arrays are opaque values, and SQL NULL arguments, which STRICT answers without a call, are left out.
- 055's locking, logging, configuration discovery and digest query: digests are any assignment under which equal digests mean equal values. The ciphertext is its value.
- 055's plan_renames, over_cap and mcp_config_version only report or bump; secrets_needing_compare only decides which digests are read, and the theorems hold whichever are.
- 055's `_catalog_columns`: a fork arrives with its columns; args, env and headers hold strings, since nested values are scanned for names but not rewritten.
- 055's read-back counts, retired-table guards, the insert trigger for new workspaces and the flag for new workspaces beyond its initial value.
- That 055 copies as few secrets as possible, or maps different names to different ones: neither is so in corner cases.
- 055's running of code: a sandbox that asks for a renamed name by its old one is outside what the migration promises.
- 017's metadata and error annotations on healed rows, and 023's indexes for reading.
- Migrations 020, 030, 032, 034 and 037 repeat smaller versions of the same ideas; 039 and 043 have no logic here.
