# VAULTX and OmniRoute core algorithms in Dafny

This project models six self-contained algorithms of the repository and proves what they promise, over all inputs and
all runs. `dafny verify dfyconfig.toml` checks it.

- **Payouts** (`app/actions/rewards.ts`). `RewardModel` gives one specification function per server action over the
  rewards database and the payment provider's ledger, a map from idempotency key to transfer. A transfer request can be
  refused, made but unanswered, or made and answered. `RewardDesk` is the imperative form: a class whose methods update
  the tables row by row and are proved equal to the specification. `PoolKeys` has the idempotency keys,
  `RewardInvariants`, `PoolPayments` and `RewardRuns` what every action and every run keeps, `RewardTheorems` the main
  results, `RewardLimits` and `RewardReopening` the exact conditions at which they end, `RewardHistories` concrete runs
  past these conditions, `BatchOrder` order independence of batches, `BatchReport` what a batch reports,
  `SplitRounding` the rounding bounds, and `RewardColumns` what the split actions write and what the columns say in every
  run.
- **File tree** (`components/code-review/workspace.tsx`, copied in `components/workspace/editor.tsx`). `TreeBuilder`
  inserts paths into nodes on the heap and sorts the child lists in place; a ghost map from part sequences to nodes
  carries the proof. `FileTree` says what tree a set of paths stands for, that there is only one, and which nodes the
  sidebar shows.
- **Login session** (`OmniRoute/electron/loginManager.js`). `LoginSession` is the state machine of events (timers, cookie
  polls, token scripts, window close, cancel), each with the login that its callback closes over; `LoginManager` is the
  class whose callbacks implement it; `LoginLeftovers` says what callbacks of one login can do to the next.
- **Secret bootstrap** (`OmniRoute/electron/main.js`). `EnvFile` is the KEY=VALUE parser and writer, `Bootstrap` the
  layered lookup, generation and restart.
- **Editor tabs** (`components/workspace/editor.tsx`). `EditorTabs` compares the handlers with a log of what the user did.
- **Program slugs** (`lib/utils.ts`, `app/actions/programs.ts`). `Slugs`.

`Collections` and `Text` hold finite sums over sets, splitting, joining, trimming and numerals.

## Where the code falls short of what it says

- `lib/stripe/client.ts` says every request carries the reward's own id as its key, so that no reward is paid twice.
  The code sends a pool key (`app/actions/rewards.ts:260`). If a reply is lost and another reward of the researcher is
  approved before the retry, the pool and its key change and the first reward is transferred again
  (`LostReplyPaysTwice`, `LostReplyHistory`). `PayOnceIff` states exactly when a payment is safe, and `RunOnceIff` when a
  whole run is. Under lost replies totals and transferred money differ by the transfers that no reward names
  (`MoneyLaw`, `MoneyConservedIff`), and agree exactly if each lost reply is made up for by an answered payment of the
  same pool (`MoneyConservedByStepsIff`).
- After a lost reply the reward is still approved and without splits, so splits can be configured and paid on top
  (`LostReplyThenSplitsPayTwice`, `SplitAfterLossHistory`). `PayNeverBothIff` and `SplitsNeverBothIff` state exactly when
  a pool payment and a split payout keep the two ways apart, `RunNeverBothIff` when a run does.
- Reconfiguring splits deletes the old rows before inserting the new ones (`app/actions/rewards.ts:411-416`). Rows that
  the table rejects (a researcher listed twice, a share out of range) leave the reward without splits; if an old split
  was already transferred, the next pool payment settles the reward a second time (`RejectedSplitsPayTwice`,
  `RejectedSplitsHistory`, `ConfigureLeavesSplits`). Rows that it accepts have new ids and so new keys: what was already
  transferred comes on top (`ReconfiguredPayout`, `ReconfiguredHistory`), and nothing does exactly if no old split has a
  transfer (`ReconfiguredStale`).
- `approveReward` and `declineReward` have no status check. Outside the widget, which offers them on pending rewards
  only, they break the invariants exactly for rewards that a pool transfer settled (`ApproveSoundIff`,
  `DeclineSoundIff`); approving a paid reward again and paying it adds its amount to the program's total a second time
  (`ReapprovedCountsTwice`, `ReapprovedHistory`), and a payment keeps the totals right exactly if its pool was not
  settled before (`PayTotalsIff`).
- The share column keeps two decimals, so the stored shares may sum to less or more than the tolerance of the check on
  the given ones: 33.335 percent three times is accepted, and charges 1000200 for 1000000 (`ThirdsOverpay`). The stored
  shares meet the bound for given ones exactly if they, too, sum to 100 within the tolerance (`StoredCloseIff`), as they
  do when all are given with two decimals (`TwoDecimalsClose`); in general the bound is wider (`ConfiguredSplitsBound`).
- A payout of splits leaves the held mark as it was, so a reward that was held below the threshold and is then paid by
  its splits stays marked as held for good (`RewardEffect`, `HeldForGood`); no other paid reward is (`PayoutColumns`).
- A batch reports an id as failed although its reward is paid exactly if another listed id's payment settled it
  (`FailedYetPaidIff`): an earlier one's, as in `PaidReportedFailed`, or a later one's after its own request had failed.
  `FailedYetPaidBeforeIff` says it before the call, for a provider that sends every transfer.
- A token that is absent from local storage reads as null and counts as found (`NullTokenCompletes`). The credentials
  of a completed login are real values exactly unless the script that completed it read a null (`RealCredentialsIff`).
- The limit on the number of polls (`OmniRoute/electron/loginManager.js:215`) is computed and never used; no number of
  polls ends a login (`PollsWithoutEnd`).
- A login that starts before the previous one's callbacks are through can be settled by them, because these keep the
  configuration and provider of the login they came from but resolve whatever promise is open. It then gets exactly the
  credentials that the earlier login asked for, reported as complete for that one's provider (`HijackedByOld`,
  `WrongCredentials`), or is cancelled by the closed event of the earlier window (`StaleCloseCancels`). `MustDrainIff`
  states exactly when this can happen, `StaleQueryIff` and `StaleScriptIff` when the leftover's own answer suffices, and
  `EachCanBeLeft` that a query, a script and a closed event can each be left.
- `cancel` clears the provider before it emits its status, which therefore names none; every other terminal status names
  the login's provider (`StatusNamesProviderIff`).
- The editor shows an empty text when a content request fails, and saving then writes it over the file, exactly unless
  the file was empty (`ShowsIff`, `SaveAfterOpenIff`). Deleting a path also closes tabs of files next to it whose names
  start with it, such as `ab` beside `a` (`DeleteClosesIff`, `DeleteClosesSibling`).
- `slugify` trims after white space has become hyphens, so the trim removes nothing (`EdgesBecomeHyphens`); a slug
  starts or ends with a hyphen exactly if the text does so with white space or a hyphen (`EdgeHyphensIff`), and a name
  slug that ends in a hyphen gets two in a row when it is suffixed (`SuffixedIffSlug`).

## Model

| member | source | states |
|---|---|---|
| PoolKeys.KeyCanonical | app/actions/rewards.ts:260 | Two row listings give the same pool key if and only if they hold the same rewards, whatever order the query returned |
| PoolKeys.PoolKeyInjective | app/actions/rewards.ts:260 | The same for sets of rewards: one key per pool, one pool per key |
| PoolKeys.KeysApart | app/actions/rewards.ts:467 | No pool key is a split key, and split keys tell splits apart |
| PoolKeys.KeyReads | app/actions/rewards.ts:260 | A pool's key is the literal prefix and the ids of its rewards, once each, ascending by code units, with commas between |
| RewardRuns.RunKeeps | app/actions/rewards.ts:59-533 | Over every run of offered steps all invariants hold and the state evolves: rows, paid rewards, ledger, splits and totals only change as allowed, failures use up retries |
| RewardRuns.BatchKeeps | app/actions/rewards.ts:368-387 | A batch, with any provider answers, keeps the same invariants and evolves the same way |
| RewardInvariants.QuietStep | app/actions/rewards.ts:59-138 | Proposing, approving and declining as offered move no money and keep every invariant |
| PoolPayments.PayStep | app/actions/rewards.ts:190-350 | One pool payment keeps every invariant, whatever the provider answers, and fails at most once |
| PoolPayments.KeyIsNew | app/actions/rewards.ts:251-266 | When all earlier requests were answered, no transfer of the ledger covers any reward of the pool about to be paid, and the pool's key is new |
| PoolPayments.PayTotals | app/actions/rewards.ts:287-290 | Unless a pooled reward was settled before, each program's total moves by exactly what the payment settles of it, several rewards of one program included |
| PoolPayments.TotalsDrift | app/actions/rewards.ts:287-290 | A settling payment lifts a program's total above its settled amounts by the amounts of pooled rewards that were settled before |
| PoolPayments.FailureCostsRoom | app/actions/rewards.ts:320-328 | A failed transfer strictly lowers the attempts left, because the asking reward is in its own pool and below the cap |
| PoolPayments.RefusedBecause | app/actions/rewards.ts:207-223 | Each refusal is given if and only if its own check is the first to fail; a payment goes ahead if and only if none does |
| PoolPayments.ResultIs | app/actions/rewards.ts:245-349 | Past the guards a payment is held, pays all pooled rewards, or fails, by the pool's total against the threshold and the provider's answer |
| PoolPayments.RowEffect | app/actions/rewards.ts:245-328 | What a payment writes to every row, column by column: held mark, paid with its transfer, or failed with one more retry, for the pooled rewards and no others |
| PoolPayments.MoneyEffect | app/actions/rewards.ts:251-290 | What it adds to the ledger and to each program's total, and that nothing else changes |
| PoolPayments.PaidExactly | app/actions/rewards.ts:207-277 | A reward becomes paid if and only if the owner asks for one it is pooled with and every guard, the threshold and the provider's answer allow it |
| PoolPayments.MoneyGoesTo | app/actions/rewards.ts:251-266 | A new transfer goes to the researcher's own connected account, covers exactly the pool in full, and meets the threshold |
| PoolPayments.HeldStaysHeld | app/actions/rewards.ts:245-249 | Once a group is held below its threshold, asking again for any of its rewards changes nothing, whoever asks and whatever the provider would answer |
| RewardRuns.SplitMoneyGoesTo | app/actions/rewards.ts:454-469 | A new split transfer goes to that recipient's own connected account, for 100 times the nearest integer to the share of the amount, ties upwards |
| RewardColumns.SplitEffect | app/actions/rewards.ts:452-482 | What a payout writes to every split row: the rounded amount, and succeeded with its own transfer or failed, for the splits of the reward and no others |
| RewardColumns.RewardEffect | app/actions/rewards.ts:483-489 | The reward is paid if and only if every split was answered; its held mark and all other rewards and totals stay |
| RewardColumns.SplitTransferIs | app/actions/rewards.ts:454-465 | In every sound state the transfer of a present split is for its share rounded that way |
| RewardColumns.ConfigureEffect | app/actions/rewards.ts:398-416 | What a configuration leaves: the given shares with two decimals under the new ids, or none, and the splits of other rewards as they were |
| RewardColumns.PayoutColumns | app/actions/rewards.ts:59-533 | In every run the payout column is succeeded if and only if the reward is paid, failed if and only if it is approved with retries on record, and a reward is marked as held only while approved or if it was then paid by splits |
| RewardTheorems.SplitRewardPaidIff | app/actions/rewards.ts:483-489 | In any run, a reward whose splits stay configured becomes paid if and only if some step is its owner's payout, while it is approved, with every split's request answered |
| RewardRuns.ConfigureLeavesSplits | app/actions/rewards.ts:411-416 | After the guards, the reward has splits if and only if the table accepts the new rows |
| RewardRuns.SplitStep | app/actions/rewards.ts:427-498 | A split payout keeps every invariant, lost replies included |
| RewardTheorems.Settlement | app/actions/rewards.ts:59-533 | Every run: whatever is approved or paid was approved by its organization's owner, whatever is paid has its transfers, no submission is rewarded twice; with all pool requests answered each reward is in at most one pool transfer; with all configurations accepted besides, none is settled by both a pool and splits |
| RewardTheorems.ProgramConservation | app/actions/rewards.ts:352-365 | In every reachable state a program's total is its start plus the amounts of its pool-settled rewards |
| RewardTheorems.MoneyLaw | app/actions/rewards.ts:251-290 | In every run, lost replies included, the money of all pool transfers is the growth of all totals plus the money of the transfers that no reward names |
| RewardTheorems.MoneyConservedIff | app/actions/rewards.ts:251-290 | Totals and transferred money agree if and only if some reward names each pool transfer |
| RewardLimits.MoneyConservedByStepsIff | app/actions/rewards.ts:227-350 | Step by step: they agree if and only if each payment of the run whose reply was lost is followed by an answered payment of the very same pool |
| RewardTheorems.MoneyConservation | app/actions/rewards.ts:251-290 | When all pool requests are answered, the growth of all programs' totals is the money of all pool transfers |
| RewardTheorems.RetriesBounded | app/actions/rewards.ts:210-212 | n rewards cause at most 5n failed pool transfers in any run |
| RewardTheorems.SplitsExactlyOnce | app/actions/rewards.ts:452-489 | With the configuration fixed and no transfer for a replaced split, any run leaves at most one transfer per split; when the reward is paid, exactly one per split, together the rounded amounts |
| RewardTheorems.SplitsPaidWithStale | app/actions/rewards.ts:452-489 | With transfers for replaced splits, these stay and come on top of exactly one per present split |
| RewardLimits.PayOnceIff | app/actions/rewards.ts:251-266 | A payment keeps rewards in at most one pool transfer if and only if it charges nothing, or the ledger knows this very pool, or none of its members is in a pool transfer |
| RewardLimits.RunOnceIff | app/actions/rewards.ts:190-387 | A run, batches included, keeps rewards in at most one pool transfer if and only if each of its payments meets that condition |
| RewardLimits.PayNeverBothIff | app/actions/rewards.ts:235-243 | A pool payment keeps pools and splits apart if and only if it charges nothing or no member has a split transfer |
| RewardLimits.SplitsNeverBothIff | app/actions/rewards.ts:427-498 | A split payout does if and only if the reward is in no pool transfer or no request reaches the provider |
| RewardLimits.RunNeverBothIff | app/actions/rewards.ts:190-498 | A run does if and only if each of its payments does |
| RewardLimits.RetryAddsNothing | app/actions/rewards.ts:260 | Retrying an unanswered payment with the same pool adds no transfer |
| RewardLimits.LostReplyPaysTwice | app/actions/rewards.ts:227-260 | A lost reply, one more approval and a retry put the first reward into two transfers |
| RewardLimits.LostReplyThenSplitsPayTwice | app/actions/rewards.ts:390-498 | After a lost reply, configured and paid splits move money of the reward a second time |
| RewardLimits.RejectedSplitsPayTwice | app/actions/rewards.ts:411-416 | A rejected configuration after a partial split payout lets a pool settle the reward as well |
| RewardHistories.LostReplyHistory | app/actions/rewards.ts:227-260 | A concrete legal run, one reply lost and no configuration rejected, after which one reward is in two pool transfers |
| RewardHistories.RejectedSplitsHistory | app/actions/rewards.ts:411-416 | A concrete legal run, all requests answered, after which one reward is settled by a split and by a pool |
| RewardHistories.SplitAfterLossHistory | app/actions/rewards.ts:390-498 | A concrete legal run, one reply lost and all configurations accepted, after which one reward is settled by a pool and by a split |
| RewardHistories.ReconfiguredHistory | app/actions/rewards.ts:411-416 | A concrete legal run, all requests answered and all configurations accepted, in which one recipient is sent 50 twice for half of a reward of 100 |
| RewardHistories.ReapprovedHistory | app/actions/rewards.ts:131-138 | After a concrete run and a second approval the program's total says 200 where rewards of 100 were settled, and the invariants are broken |
| RewardHistories.PaidReportedFailed | app/actions/rewards.ts:376-384 | A concrete batch of two reports as failed a reward that the first id's pool paid |
| RewardHistories.HeldForGood | app/actions/rewards.ts:245-249 | A concrete legal run after which a reward is paid by its split and still marked as held |
| RewardReopening.ApproveSoundIff | app/actions/rewards.ts:131-138 | Approving, whatever the status, keeps all invariants if and only if it is refused or no pool transfer settled the reward |
| RewardReopening.DeclineSoundIff | app/actions/rewards.ts:501-522 | Declining keeps all invariants under the same condition |
| RewardReopening.PayTotalsIff | app/actions/rewards.ts:287-290 | A settling payment keeps totals and settled amounts in step if and only if no pooled reward was settled before |
| RewardReopening.ReapprovedCountsTwice | app/actions/rewards.ts:131-138 | Approving a paid reward again lets it be counted into its program's total twice |
| RewardReopening.ReconfiguredStale | app/actions/rewards.ts:411-416 | After a new configuration the earlier split transfers of the reward, all of them, serve no split of it any more |
| RewardReopening.ReconfiguredPayout | app/actions/rewards.ts:411-489 | When the new splits are paid in full, the earlier transfers are on top of one per split, in number and in money |
| BatchOrder.BatchClosed | app/actions/rewards.ts:376-384 | A batch against a provider that answers by key ends as if every triggered pool had been paid at once |
| BatchOrder.BatchOrderFree | app/actions/rewards.ts:368-387 | Batches over the same ids in any order and repetition end in the same state, retry counts aside |
| BatchOrder.SecondBatchIdle | app/actions/rewards.ts:368-387 | When every request was answered, a second batch over the same ids changes nothing, whatever the provider would answer |
| BatchReport.ReportCountsTransfers | app/actions/rewards.ts:369-386 | The three lists hold the listed ids, each as often as it was listed; with all requests answered, as many are reported as succeeded as transfers were made |
| BatchReport.ListsInOrder | app/actions/rewards.ts:376-386 | Each of the three lists is the listed ids whose payment ended that way, in the listed order |
| BatchReport.FailedYetPaidIff | app/actions/rewards.ts:376-384 | An id is reported as failed although its reward is paid if and only if another listed id's payment settled it |
| BatchReport.FailedYetPaidBeforeIff | app/actions/rewards.ts:376-384 | With every transfer sent, if and only if at the start its pool meets the threshold and another payable id of the group is listed earlier, or anywhere if its own payment is refused |
| SplitRounding.CentsExact | app/actions/rewards.ts:465 | A split is charged exactly 100 times its rounded amount |
| SplitRounding.WithinTolerance | app/actions/rewards.ts:454 | Shares within tol of 100 percent give rounded amounts within n/2 + amount*tol/100 of the amount |
| SplitRounding.AcceptedSharesBound | app/actions/rewards.ts:398-401 | For accepted shares as given: within n/2 + amount/10000 |
| SplitRounding.ConfiguredSplitsBound | supabase/migrations/018_stripe_connect_batch2.sql:17 | For the two-decimal shares a configuration stores: within n/2 + amount/10000 + amount*n/20000 |
| SplitRounding.StoredCloseIff | supabase/migrations/018_stripe_connect_batch2.sql:17 | The stored shares meet the narrower bound for every amount if and only if they sum to 100 within the tolerance of the check |
| SplitRounding.TwoDecimalsClose | app/actions/rewards.ts:398-401 | Accepted shares with two decimals do |
| SplitRounding.ThirdsOverpay | app/actions/rewards.ts:398-401 | Three accepted shares of 33.335 percent do not: they charge 200 too much for a million |
| RewardDesk.RewardDesk.ProposeReward | app/actions/rewards.ts:59-103 | A proposal succeeds if and only if an owner or admin asks for a positive amount for an accepted submission without a reward; it adds that one pending row, after which the submission cannot be proposed again by anyone; the invariants and one reward per submission are kept |
| RewardDesk.RewardDesk.ApproveReward | app/actions/rewards.ts:106-138 | Whatever the status, what is approved was approved by the organization's owner; the other invariants survive if and only if no pool transfer settled the reward; no other row and no money changes |
| RewardDesk.RewardDesk.DeclineReward | app/actions/rewards.ts:501-522 | Declining needs a reason and the owner, keeps the invariants under the same condition, and changes no other row and no money |
| RewardDesk.RewardDesk.MarkRewardPaid | app/actions/rewards.ts:190-350 | Guards in order, then pool, threshold, transfer and row updates come to the specified state and result |
| RewardDesk.RewardDesk.SendPool | app/actions/rewards.ts:227-350 | Loops over the queried rows in any order, yet total, key, rows and program totals depend on the pool as a set |
| RewardDesk.RewardDesk.UpdateRows | app/actions/rewards.ts:268-277 | Updating the pooled rows one after the other changes all of them and no other |
| RewardDesk.RewardDesk.IncrementTotals | app/actions/rewards.ts:352-365 | One update per pooled reward adds up to each program's sum over the pool |
| RewardDesk.RewardDesk.BatchPayRewards | app/actions/rewards.ts:368-387 | The sequential loop and its three lists are the specified batch |
| RewardDesk.RewardDesk.ProposeSplitReward | app/actions/rewards.ts:390-424 | Delete, then insert or reject, is the specified configuration |
| RewardDesk.RewardDesk.PaySplitReward | app/actions/rewards.ts:427-498 | Requests one by one come to the simultaneous specification; the lists hold exactly the paid and unpaid recipients |
| FileTree.ForestUnique | components/code-review/workspace.tsx:63-75 | A set of paths has only one sorted tree |
| FileTree.ForestOrdered | components/code-review/workspace.tsx:64-69 | On every level of the tree directories come first, and within directories and within files the names ascend |
| FileTree.FilesAreThePaths | components/code-review/workspace.tsx:37-61 | The files of the tree are exactly the given paths, if and only if none of these is a directory of another |
| FileTree.NodeIsPrefix | components/code-review/workspace.tsx:43-56 | Each node's path is its ancestors' names joined by slashes, a prefix of some input path; it is a directory if and only if that prefix is proper |
| FileTree.PrefixIsNode | components/code-review/workspace.tsx:43-56 | Every nonempty prefix of an input path has its node |
| FileTree.EachOnce | components/code-review/workspace.tsx:178-235 | No path is shown twice |
| FileTree.ShownIff | components/code-review/workspace.tsx:178-235 | Under any search a node is shown if and only if all its proper ancestors are expanded and it is not a file the search leaves out |
| FileTree.SiblingsInOrder | components/code-review/workspace.tsx:178-235 | What belongs to an earlier sibling is shown above what belongs to a later one |
| FileTree.ParentOnTop | components/code-review/workspace.tsx:228-232 | A directory is shown above what is shown of its children, and these only when it is expanded |
| FileTree.RestoredFileShown | components/code-review/workspace.tsx:90-101 | After a session is restored, the last viewed file is shown |
| TreeBuilder.BuildTree | components/code-review/workspace.tsx:37-76 | Inserting and sorting in place yields the tree of the path set: unique sibling names, and every child list with directories first and names ascending |
| TreeBuilder.InsertPath | components/code-review/workspace.tsx:39-61 | Walking and extending the child lists adds exactly the prefixes of the path |
| TreeBuilder.SortTree | components/workspace/editor.tsx:121-131 | Sorts every list of the subtree in place, directories first and names ascending, and leaves the rest of the tree as it was |
| TreeBuilder.SameTree | components/code-review/workspace.tsx:37-76 | The tree is the same for every order and repetition of the paths |
| TreeBuilder.ExpandAncestors | components/code-review/workspace.tsx:95-101 | Expands exactly the proper ancestors of the file and keeps all other entries |
| LoginSession.SettlesOnce | OmniRoute/electron/loginManager.js:54-376 | Under every interleaving: at most one poll outstanding; an active session is unresolved with its overall timer running; any other was resolved once, with exactly the credentials it asks for or a failure and one matching terminal status, and holds no timer and no provider |
| LoginSession.ExhaustedIsSettled | OmniRoute/electron/loginManager.js:195-208 | When nothing is left to happen every login that began has been resolved |
| LoginSession.LateCallbacksIdle | OmniRoute/electron/loginManager.js:218-289 | After settlement no callback changes the outcome or arms a timer |
| LoginSession.StatusNamesProviderIff | OmniRoute/electron/loginManager.js:339-376 | In every run the status that ends a login names its provider if and only if it was not ended by cancel |
| LoginSession.CompletesOnCookiesIff | OmniRoute/electron/loginManager.js:235-319 | A cookie query completes the session if and only if every cookie source's name is found and there is no storage token to read |
| LoginSession.FoundIsFirst | OmniRoute/electron/loginManager.js:244-249 | A source's value is that of the first cookie of its name on its domain, and there is none if and only if no cookie matches |
| LoginSession.MatchesIff | OmniRoute/electron/loginManager.js:242-247 | A source asks for the cookies of its name whose domain contains its own without one leading dot |
| LoginSession.GatheredFromCookies | OmniRoute/electron/loginManager.js:240-250 | What a poll gathers is, for each source name that some cookie satisfies, the value the last such source finds first |
| LoginSession.CredentialValues | OmniRoute/electron/loginManager.js:232-334 | In every run the credentials of a completed login are those values, from one cookie answer of the run, with what the completing script read on top |
| LoginSession.RequiredAre | OmniRoute/electron/loginManager.js:301-307 | A login asks for each source's cookie name and each storage key, and nothing else |
| LoginSession.ScriptCompletesIff | OmniRoute/electron/loginManager.js:252-319 | A storage script completes the session if and only if cookies and script together have every configured name |
| LoginSession.RealCredentialsIff | OmniRoute/electron/loginManager.js:261-319 | In every run the credentials of a completed login are all real values if and only if it was not completed by a script that read a null |
| LoginSession.NullTokenCompletes | OmniRoute/electron/loginManager.js:261-283 | An instance: one token, absent from storage, completes the login with a null value |
| LoginSession.PollsWithoutEnd | OmniRoute/electron/loginManager.js:214-226 | For every number there is a run with that many polls in which the login is still under way |
| LoginLeftovers.HijackedByOld | OmniRoute/electron/loginManager.js:175-334 | When callbacks of earlier logins settle a new one, it gets exactly the credentials an earlier one asked for, under that one's provider, or is cancelled by an earlier window's closed event |
| LoginLeftovers.MustDrainIff | OmniRoute/electron/loginManager.js:175-334 | They can settle it if and only if a closed event is left, or a query or script of a login that asks for anything |
| LoginLeftovers.StaleQueryIff | OmniRoute/electron/loginManager.js:214-275 | A leftover query can do so by its own answer if and only if its login looks for cookies only |
| LoginLeftovers.StaleScriptIff | OmniRoute/electron/loginManager.js:261-319 | A leftover script can if and only if its cookies and storage items are all that its login asks for |
| LoginLeftovers.StaleCloseCancels | OmniRoute/electron/loginManager.js:175-187 | The closed event of an earlier window cancels the new login, whose own window is open |
| LoginLeftovers.WrongCredentials | OmniRoute/electron/loginManager.js:214-334 | A concrete run after which a login of one provider is resolved with the cookie of another, reported for that other |
| LoginLeftovers.EachCanBeLeft | OmniRoute/electron/loginManager.js:175-282 | Concrete runs after which just a query, just a script or just a closed event is left |
| LoginManager.LoginManager.StartLogin | OmniRoute/electron/loginManager.js:54-107 | A refused call leaves the login under way as it was; a started one is open with one step due and its overall timer armed, or has ended once with an error |
| LoginManager.LoginManager.OnTimer | OmniRoute/electron/loginManager.js:189-230 | The overall timer ends the login once with an error and stops every timer; the minimum time leads to a poll's timer and that to one cookie query |
| LoginManager.LoginManager.OnCookies | OmniRoute/electron/loginManager.js:232-282 | A cookie answer keeps the session invariant, and settles the session with the values its sources find first or not at all |
| LoginManager.LoginManager.GatherCookies | OmniRoute/electron/loginManager.js:240-250 | The collecting loop finds, name by name, the value of the first cookie that the last satisfied source asks for |
| LoginManager.LoginManager.CheckCredentials | OmniRoute/electron/loginManager.js:298-334 | A finished poll ends the login once with the credentials, no timer left, or leaves it open with exactly one poll due |
| LoginManager.LoginManager.OnClosed | OmniRoute/electron/loginManager.js:175-187 | A close ends an open session once as cancelled, with no timer left, and changes nothing about one that has ended |
| LoginManager.LoginManager.CancelLogin | OmniRoute/electron/loginManager.js:339-350 | Cancel ends an active session once as cancelled, with no timer left, and changes nothing otherwise |
| LoginManager.LoginManager.CleanUp | OmniRoute/electron/loginManager.js:355-376 | If the fields hold the handles of all running timers, none runs afterwards |
| EnvFile.RoundTripIff | OmniRoute/electron/main.js:602-608 | Parsing what the writer prints gives back the map if and only if each entry is one trimmed line without = in its key |
| EnvFile.ParseIsPrintable | OmniRoute/electron/main.js:549-560 | Whatever the text, the parser yields only such entries |
| EnvFile.ParseEnvFile | OmniRoute/electron/main.js:549-560 | The parsing loop is the line-by-line meaning, later lines winning |
| EnvFile.ParseLineIff | OmniRoute/electron/main.js:553-557 | A line gives an entry if and only if it reads key = value, with white space around both, no = in the key and no comment sign before it |
| EnvFile.LastLineWins | OmniRoute/electron/main.js:552-558 | A key has the value of the last line that reads so, and is absent if none does |
| EnvFile.LinesGlued | OmniRoute/electron/main.js:552 | Line feeds end lines with or without a carriage return before them |
| EnvFile.RenderReads | OmniRoute/electron/main.js:602-608 | The file holds the comment, an empty line, one key=value line per entry, and a last line end |
| Bootstrap.RestartGeneratesNothingIff | OmniRoute/electron/main.js:567-597 | A later start generates nothing if and only if no override blanks a secret |
| Bootstrap.RestartStable | OmniRoute/electron/main.js:562-613 | It then finds the same three secrets and keeps every persisted entry |
| Bootstrap.PlanKeeps | OmniRoute/electron/main.js:566-597 | A start keeps all persisted entries but blank secrets and the key version |
| Bootstrap.PlanFills | OmniRoute/electron/main.js:570-597 | After a start no secret is missing, overrides win, and what is not overridden is persisted |
| Bootstrap.PlanStarts | OmniRoute/electron/main.js:567-599 | Entry by entry: a start is refused if and only if the storage key is missing while encrypted credentials exist, and then has none; otherwise each missing secret gets its own generated value, in the server's environment and in what is persisted, and all other entries are the layered and the persisted ones |
| Bootstrap.ServerEnvFile.StartServer | OmniRoute/electron/main.js:562-613 | One start does just that; a refused one writes nothing, and one that changed anything and can write leaves a file that reads back as planned |
| Bootstrap.Restarts | OmniRoute/electron/main.js:562-613 | After one start that could write, any number of later ones generate nothing and agree on the secrets |
| EditorTabs.ShowsLastEdit | components/workspace/editor.tsx:213-286 | Every run: the active file shows its last edit since save or discard, else its stored content, and is dirty if and only if it has such an edit |
| EditorTabs.TabsSoundAlways | components/workspace/editor.tsx:213-336 | Every run, deletions included: tabs are distinct, the active file is a tab or both are empty, dirty means cached |
| EditorTabs.ShowsIff | components/workspace/editor.tsx:229-237 | A step stops the editor from showing the cached or stored text if and only if its content request for a nonempty file is not answered |
| EditorTabs.SaveAfterOpenIff | components/workspace/editor.tsx:213-258 | Opening and saving a file leaves it as it was if and only if its content was read or was empty |
| EditorTabs.DeleteClosesIff | components/workspace/editor.tsx:311-336 | Deleting closes just the tabs of what was removed if and only if no other open path starts with the deleted one |
| EditorTabs.WorkspaceEditor.HandleOpenFile | components/workspace/editor.tsx:213-238 | The file becomes the active tab and shows its unsaved edit or else its stored content; the other tabs keep their places, no edit and no file changes |
| EditorTabs.WorkspaceEditor.HandleChange | components/workspace/editor.tsx:846-850 | The edit is shown and comes back whenever the file is opened again; other edits, tabs and files stay |
| EditorTabs.WorkspaceEditor.HandleSave | components/workspace/editor.tsx:241-258 | What was shown is what the file reads back as; other files and edits stay, and a failed write loses nothing |
| EditorTabs.WorkspaceEditor.HandleCloseFile | components/workspace/editor.tsx:261-286 | Unless the user keeps an unsaved edit, just this tab and its edit go, the rest stay in order, and the last of them takes over if it was active; nothing stored changes, and another active file keeps its text |
| EditorTabs.WorkspaceEditor.HandleDeleteItem | components/workspace/editor.tsx:311-336 | Just the path and what is below it is gone from the disk, just the tabs whose paths start with it are closed, the rest stay in order, and the last of them takes over if the active one was closed |
| Slugs.SlugifyIsSlug | lib/utils.ts:85-92 | Every result has only a-z, 0-9 and single hyphens |
| Slugs.FixedIffSlug | lib/utils.ts:85-92 | A string is left alone if and only if it is of that form |
| Slugs.SlugifyIdempotent | lib/utils.ts:85-92 | Normalising twice is normalising once |
| Slugs.SlugifyKeepsLetters | lib/utils.ts:85-92 | The letters and digits of the lower-cased text survive, all and in order |
| Slugs.SlugOfWords | lib/utils.ts:85-92 | A text of words with white space or hyphens between them becomes the words with one hyphen between any two |
| Slugs.SlugifyOnePass | lib/utils.ts:88-90 | The replacements of white space and of hyphen runs come to one pass over the text |
| Slugs.EdgeHyphensIff | lib/utils.ts:88-91 | A slug starts, or ends, with a hyphen if and only if the lower-cased text without dropped characters does so with white space or a hyphen |
| Slugs.EdgesBecomeHyphens | lib/utils.ts:89-91 | An instance: a letter between two spaces becomes one between two hyphens |
| Slugs.UniqueSlug | app/actions/programs.ts:66-83 | With n slugs in use the loop ends after at most n + 1 probes with the unused slug of least suffix: the base itself, or the base, a hyphen and the attempt's decimal numeral |
| Slugs.AttemptInjective | app/actions/programs.ts:81-82 | Distinct attempts give distinct slugs |
| Slugs.SuffixedIffSlug | app/actions/programs.ts:82 | A suffixed slug is well formed if and only if its base does not end in a hyphen |

## Left out

- TreeBuilder.BuildTree: requires that no path is a directory of another, which holds for lists of files; for other lists the builder misplaces or drops nodes, and `FilesAreThePaths` shows that no tree of this shape could serve them.
- TreeBuilder.InsertPath: requires the same of the path and those inserted before it.
- TreeBuilder.BuildTree: `localeCompare` is any strict total order on names, so distinct names that compare as equal are not modelled.
- BatchOrder.BatchOrderFree: leaves retry counts open, because a pool that keeps failing is tried once per listed id below its cap and the order decides how often; the organization id copied into a transfer's metadata, which is that of the triggering reward, is not part of a transfer here.
- RewardTheorems.Settlement: runs are those the reward widget offers, approving and declining pending rewards only; `ApproveSoundIff` and `DeclineSoundIff` show why.
- EditorTabs.ShowsLastEdit: covers runs whose content requests are answered; `ShowsIff` says what an unanswered one does.
- LoginSession.SettlesOnce: a login starts only when the callbacks of the previous one are through; `MustDrainIff` shows why.
- Database errors other than a rejected splits insert, and floating point: actions are atomic, pool amounts are integers, shares are reals.
- The provider's error for a known key with different parameters: such a request returns the known transfer.
- RewardModel.Pool: row-level security (`supabase/migrations/001_initial.sql:445`) would narrow the pool query to organizations the caller owns, and so `HeldStaysHeld` to callers who own the same ones.
- Authentication of the caller, row-level security, notifications, audit logs, revalidation and payout timestamps.
- The transient `processing` payout status inside one action, and failure messages.
- Progress and navigation statuses of a login, and the time at which timers fire; what other windows and pages do to a storage script.
- An environment key named `__proto__`, which the parser's object would ignore, and the resolution of the data directory.
- Collaboration, renames, and writes to the sandbox from outside the editor.
- Server processes, windows other than the login window, rendering beyond the shown-or-not rule, contests, billing and triage, which are glue or tables.
