# PA-BFT replica core: a verified model

This project models the replica core of PA-BFT, a PBFT variant with three phases (PREPARE, VOTE,
COLLATE), an adaptive quorum for timeouts, an executor that turns commit notices into a dense log,
and a view change that rolls the log back and fills it with placeholders. The objects that the
program updates in place are classes here (`Consensus.State`, `Network.Node`, `ViewState.VCState`,
`Hubs.Hub`, `Hubs.Client`). Each of their methods is proved against a function on the object's value
(`VoteSpec`, `NodeSpec`), and the theorems about whole runs are about these functions.

`dafny verify dfyconfig.toml` checks everything.

| file | what is in it |
|---|---|
| `Messages.dfy` | the messages |
| `Quorum.dfy` | thresholds and quorum intersection for every n |
| `VoteSpec.dfy`, `State.dfy`, `VoteRuns.dfy`, `AnyVotes.dfy` | the consensus state of one sequence number: specification, class, theorems over all runs, and what any votes in any order make of it |
| `NodeSpec.dfy`, `Node.dfy` | the replica: specification, class |
| `Effects.dfy` | exactly when each handler answers, executes, sends or ignores, said of messages and numbers without the functions of the specification |
| `ExecutorSpec.dfy`, `Executor.dfy` | what the log must be after a stream of notices, said without the executor, and the proof that the executor produces it |
| `Certificate.dfy`, `ViewState.dfy`, `Checkpoint.dfy` | collecting VIEW-CHANGE messages, interleaved and in sequence, and the checkpoint they prove |
| `ViewChange.dfy` | rollback and filling holes: when the log keeps its shape |
| `System.dfy`, `Agreement.dfy` | n replicas with a network that delays, repeats, reorders and loses messages; agreement over whole runs |
| `Proposals.dfy` | where proposals come from, and exactly when there is one per number |
| `Evidence.dfy` | over all runs, view changes included: what stands behind a vote, a counter and a decision |
| `Progress.dfy`, `Silence.dfy` | what the adaptive quorum achieves when members are silent or do not vote VOTE, and exactly when |
| `Rounds.dfy`, `Disagreement.dfy` | runs of any length in which all goes well, and the exact condition under which agreement stops |
| `Refinement.dfy`, `StateRuns.dfy` | over whole runs: replicas execute what the executor's specification says, and their consensus states are runs of calls on fresh states |
| `Validity.dfy`, `Members.dfy`, `Echoes.dfy`, `Recast.dfy`, `Shortfall.dfy` | what stands behind an executed number: a decision, and exactly how many votes it can lack |
| `Recovery.dfy`, `LogShape.dfy`, `Drift.dfy`, `Leftovers.dfy` | the first view change of a run, the shape of the logs over any number of them, a log that outgrows its counter, and what still waits for execution after a view change |
| `Lasting.dfy` | the checkpoint of a view change survives the next ones |
| `Hub.dfy` | the publish/subscribe hub |

## Where the code and its documentation part

These are results: each has a lemma that says exactly when the documented property holds, and a run or
an input where it does not.

- **Safety argument of the adaptive quorum.** The documentation says that any two quorums share a
  correct member. They do if and only if the members that are silent to either decider or faulty, and the
  credits of the deciders' fills (below), number at most 4f + 1 - n together (f when n = 3f + 1):
  `Quorum.SharedCorrectVoterIff`. Beyond the bound there are two runs that both decide:
  `VoteRuns.AdaptiveSafetyFailsBeyond`.
- **Threshold.** The code's 2f - b + 1 equals the documented f - b + ceil((n - f + 1) / 2) exactly when
  n mod 3 = 1, and is one less otherwise: `Quorum.ThresholdsAgree`. For the same reason the fast path
  implies the adaptive path for every n but 2, 3 and 6: `VoteRuns.FastImpliesAdaptiveIff`.
- **A VOTE of another view** is stored and counted before it is looked at, but not answered. When it is the
  one that makes 2f + 1, the answer COMMITTED is never given: votes make the state commit in whatever order
  they come if and only if 2f + 1 of them are VOTE and every VOTE is of the state's own view and number
  (`AnyVotes.EveryOrderCommitsIff`).
- **The COLLATE timeout** compares the VOTE count with a threshold computed from the number of collates.
  When it commits, an adaptive quorum has voted if and only if at least n - 2f votes were received and no
  more votes than collates (or it cannot commit at all): `VoteRuns.CollateBackedIff`. Otherwise a single
  VOTE can be enough although all other members rejected: `VoteRuns.CollateQuorumTooWeak`.
- **Filling holes in the votes** adds no vote but can raise the count of VOTE messages, once more for every
  COLLATE message that carries a vote already held, since each message is stored at an address of its own
  (`VoteRuns.Ledger`). The count is right if and only if no fill met such a vote
  (`VoteRuns.ExactIffNoCredit`). Over all runs without view changes and Prepare timeouts, with one proposal
  per number and fills that credit at most c to a counter, every decision has its quorum of voters if and
  only if c = 0 (`Shortfall.QuorumsOnlyIff`). More exactly, all of them are within d voters of a quorum if and
  only if d is at least c, or 2f + 1 (`Shortfall.ShortfallIff`). With 2f credits a replica executes on its own
  vote alone (`Echoes.OneVoteExecutes`), with 2f + 1 it decides on no VOTE at all, when it has first handled
  the PREPARE message without a request (`Recast.NoVoters` leads to this run).
- **Agreement with timeouts.** A Prepare timer that fires for a number that the others decide replaces the
  proposal by the empty one. All runs with one proposal per number and no view change agree on number k if
  and only if the Prepare timer of k cannot fire: `Disagreement.AgreementIff`. Without such timeouts one
  log is always a prefix of the other: `Agreement.PrefixAgreement`.
- **One proposal per number** holds if only number 1 is proposed from outside and no replica handles more
  than m PREPARE messages for one number, in all such runs if and only if m is at most 1
  (`Proposals.OneProposalIff`): nothing keeps a primary from proposing again when it handles a PREPARE message
  for the number before a second time.
- **View change and log shape.** The executor looks its last entry up at the length of the log, so the
  log has to be dense. A view change keeps it dense if and only if the counter of started numbers covers
  the log (or nothing is rolled back) and an entry survives (or nothing is filled):
  `ViewChange.NewViewKeepsDenseIff`, and over runs with any number of view changes
  `LogShape.AlwaysShapedIff`. On an empty log filling writes key 0 and the lookup misses, so that a
  view change before anything is executed stops the executor, whatever the checkpoint
  (`Recovery.FirstNewViewKeepsDenseIff`). Without a view change the counter covers the log
  (`Agreement.ExecutorNeverFails`), because it counts the states; after a rollback it does so exactly when
  every number rolled back had a state (`ViewChange.RollbackKeepsCountIff`). In
  `Drift.LogOutgrowsCounter` a replica gets to a log longer than its counter, and its next view change
  leaves a gap.
- **Filling holes overwrites an executed entry.** Filling starts at the last committed number itself, so a
  replica whose log is covered by the new checkpoint replaces its last executed entry by a placeholder:
  `Recovery.FirstNewViewKeepsEntriesIff` says exactly when it does not. In `Recovery.ViewChangeOverwrites`
  the checkpoint is one that 2f + 1 true reports prove.
- **Placeholders** get the epoch of their number divided by the size of the node table, where everything else
  counts ten numbers to an epoch: both agree if and only if the table has ten entries
  (`Effects.PlaceholderEpochIff`).
- **A view change drops nothing that waits for execution.** The first notice after it finds all its lookups
  if and only if no number that it makes ready has lost its state (`Leftovers.NoticeFitsIff`, and after any run
  without a view change `Leftovers.FirstNoticeFitsIff`). It executes nothing but itself from the rolled-back
  number on if and only if no old entry from there on becomes ready (`Leftovers.OnlyNewIsExecutedIff`). In
  `Leftovers.OldProposalExecuted` a replica executes an old proposal for a number that the view change took
  back; in `Leftovers.ExecutorStopped` its executor comes to a number without a state.

No replica of the program sends a VIEW-CHANGE message by itself, because the start of the ViewChange timer is
commented out (`pbft/network/node.go:661`). `GetNewView` handles any NEW-VIEW message, since no certificate
is checked; the runs of `Drift` and `Leftovers` have NEW-VIEW messages and no VIEW-CHANGE message.

## Model

| member | source | states |
|---|---|---|
| Quorum.FaultBound | pbft/consensus/pbft_impl.go:83 | the fault bound leaves 3f + 1 <= n <= 3f + 3 |
| Quorum.ThresholdsAgree | README.md:24 | the code's threshold equals the documented one if and only if n mod 3 = 1, and is one less otherwise |
| Quorum.DocumentedOverlap | README.md:12 | two documented quorums from the same n - b members overlap in at least f - b + 1 |
| Quorum.AdaptiveOverlap | pbft/consensus/pbft_impl.go:230 | two adaptive quorums overlap in at least 4f + 2 - n less the members silent to either, none of them silent, and less what their counts exceed their voters by |
| Quorum.SharedCorrectVoterIff | README.md:12 | any two adaptive quorums share a non-faulty voter if and only if silent and faulty members and credits number at most 4f + 1 - n |
| Quorum.DisjointAdaptiveQuorums | README.md:12 | beyond that bound, two adaptive quorums that share faulty members only |
| Consensus.State.constructor | pbft/consensus/pbft_impl.go:58-88 | a new state has no messages, zero counters and f = (n - 1) / 3 |
| Consensus.State.VerifyMsg | pbft/consensus/pbft_impl.go:437-456 | view before sequence number; a digest that differs is accepted |
| Consensus.State.Prepare | pbft/consensus/pbft_impl.go:90-138 | the vote made and the whole new state for a real, an empty and an unhashable request, and a REJECT in another view |
| Consensus.State.Vote | pbft/consensus/pbft_impl.go:139-211 | duplicates change nothing; a vote is stored and counted before it is verified; the answer in every case |
| Consensus.State.VoteAQ | pbft/consensus/pbft_impl.go:212-238 | the adaptive verdict on the votes, nothing changed |
| Consensus.State.Collate | pbft/consensus/pbft_impl.go:240-303 | collates are stored once and counted, and the answer in every case |
| Consensus.State.CollateAQ | pbft/consensus/pbft_impl.go:304-330 | the adaptive verdict on the collates, nothing changed |
| Consensus.State.GetVoteMsgs | pbft/consensus/pbft_impl.go:393-403 | the copy equals the stored votes |
| Consensus.State.FillHoleVoteMsgs | pbft/consensus/pbft_impl.go:418-435 | no vote is added; the VOTE count grows by the own voters for whom another VOTE reference was received |
| Effects.NewState | pbft/consensus/pbft_impl.go:58-88 | a new state is for its replica's view, with nothing received and nothing counted |
| Effects.VoteEffect | pbft/consensus/pbft_impl.go:157-211 | a repeated sender is ignored; any other vote is stored and counted, is an error exactly when its view or else its number differs, and is answered exactly as said |
| Effects.CollateEffect | pbft/consensus/pbft_impl.go:240-303 | the same for collates; UNCOMMITTED is answered COMMITTED exactly when 2f + 1 VOTE messages are counted |
| Effects.PrepareEffect | pbft/consensus/pbft_impl.go:90-138 | nothing happens when the request does not hash; else the vote is NULL without a request, VOTE exactly for the state's own view and REJECT exactly for another, and counters and votes stay |
| Effects.VerdictEffect | pbft/consensus/pbft_impl.go:212-235 | both verdicts compare the counted VOTE messages with 2f + 1 less the members not heard |
| Effects.OneFilled | pbft/consensus/pbft_impl.go:421-432 | a single received vote counts once more exactly when it is a VOTE, and another message than the one held for the same voter |
| Effects.FilledOneByOne | pbft/consensus/pbft_impl.go:418-435 | filling from a collate is filling from each of its entries on its own |
| VoteRuns.LedgerStep | pbft/consensus/pbft_impl.go:169-175 | what one call of any kind adds to each counter and to what it counts |
| VoteRuns.Ledger | pbft/consensus/pbft_impl.go:418-435 | over any run: vote and collate counters count what is stored, the VOTE counter counts OK voters plus the credits of fills |
| VoteRuns.CounterBound | pbft/consensus/pbft_impl.go:53-55 | the VOTE counter lies between the OK voters and voters * (1 + fills) |
| VoteRuns.ExactIffNoCredit | pbft/consensus/pbft_impl.go:421-432 | the VOTE counter is the number of OK voters if and only if no fill of the run credited anybody |
| VoteRuns.CommitsAtMostOnce | pbft/consensus/pbft_impl.go:183-195 | over any run, fills included, `Vote` answers COMMITTED at most once |
| VoteRuns.FeedState | pbft/consensus/pbft_impl.go:158-175 | feeding distinct voters' votes stores exactly these and counts them |
| VoteRuns.AnswerAt | pbft/consensus/pbft_impl.go:177-210 | to votes of distinct voters: COMMITTED exactly at the VOTE that makes 2f + 1, UNCOMMITTED exactly at the n-th vote when it is no VOTE or at most 2f are; neither to a vote of another view or number, although it is counted |
| VoteRuns.CommitsIffQuorum | pbft/consensus/pbft_impl.go:183-195 | COMMITTED is answered exactly once if 2f + 1 of the votes are VOTE, and never otherwise |
| VoteRuns.VoteOrderIndependence | pbft/consensus/pbft_impl.go:158-210 | any order of the same votes leads to the same state and as many COMMITTED answers |
| AnyVotes.OnlyFirstsCount | pbft/consensus/pbft_impl.go:161-168 | over any votes, repeated senders included: the state and the COMMITTED answers are those of the first vote of each sender |
| AnyVotes.AnswerToAny | pbft/consensus/pbft_impl.go:161-210 | exactly when any vote after any others is answered COMMITTED or UNCOMMITTED, from the votes alone |
| AnyVotes.CommitsIffFirstsAccepted | pbft/consensus/pbft_impl.go:177-195 | over any votes COMMITTED is answered once if the VOTE that makes 2f + 1 is of the state's view and number, and never otherwise |
| AnyVotes.EveryOrderCommitsIff | pbft/consensus/pbft_impl.go:177-195 | votes of distinct voters make the state commit in every order if and only if 2f + 1 are VOTE and every VOTE is of the state's view and number |
| VoteRuns.VerdictMeaning | pbft/consensus/pbft_impl.go:212-235 | COMMITTED if and only if at most n - 2f - 1 received votes are no VOTE and at least n - 2f were received; equivalently the OK voters form an adaptive quorum |
| VoteRuns.AdaptiveProgress | README.md:17 | at most f silent or dissenting members cannot keep the rest from committing, for every n |
| VoteRuns.VerdictKept | pbft/consensus/pbft_impl.go:214-235 | a new VOTE keeps a COMMITTED verdict |
| VoteRuns.FastImpliesAdaptiveIff | pbft/consensus/pbft_impl.go:183-235 | after a fast COMMITTED every adaptive verdict is COMMITTED, if and only if n is none of 2, 3 and 6 |
| VoteRuns.AdaptiveSafety | README.md:12 | whatever runs two deciders have been through (a count of 2f + 1 met by a vote or by an UNCOMMITTED collate, `VoteAQ`, or a `CollateAQ` with at least n - 2f votes and as many collates), their OK voters overlap as counted less the credits of fills, and in a non-faulty voter within the bound |
| VoteRuns.AdaptiveSafetyFailsBeyond | README.md:12 | outside the bound, for any silent and faulty members and any credits, two runs decide on OK voters that share faulty members only |
| VoteRuns.CollateBackedIff | pbft/consensus/pbft_impl.go:304-327 | every commit of `CollateAQ`, given who has voted and who has sent a collate, has an adaptive quorum of OK voters if and only if it cannot commit, or at least n - 2f votes were received and no more than collates |
| VoteRuns.CollateQuorumTooWeak | pbft/consensus/pbft_impl.go:304-327 | a run in which all members voted, one of them VOTE, where the second adaptive quorum commits and the first does not |
| ExecutorSpec.EntryMeaning | pbft/network/node.go:769-809 | entry i is the last notice for i among the first notices that cover 1..i |
| ExecutorSpec.ExecutedForever | pbft/network/node.go:795 | an entry in the log is never rewritten or removed by later notices |
| ExecutorSpec.Confluence | pbft/network/node.go:769-809 | same notices, one per number, any order, any repetitions: same log |
| ExecutorSpec.ArrivalRefines | pbft/network/node.go:769-823 | one arrival, buffered and drained, takes the expected log to the expected log |
| ExecutorSpec.ExpectedLogIsDense | pbft/network/node.go:774-780 | the log has exactly the keys 1..L, each entry carrying its key |
| Executor.DrainStep | pbft/network/node.go:771-823 | one pass of the inner loop leaves the same result to be reached |
| Executor.ExecutorRefines | pbft/network/node.go:765-834 | after every stream of notices: the log is the expected one, `Committed[i]` is 1 exactly for 1..L, the checkpoint is L, one selection per entry |
| Executor.ExecutorConfluence | pbft/network/node.go:765-834 | same notices, one per number: same log, flags, checkpoint and selections |
| Executor.PrimaryRotation | pbft/network/node.go:816-818 | after entry k the checkpoint is k = 10 * epoch + view, and ten consecutive entries select ten different primaries |
| Executor.OneProposer | pbft/network/node.go:358-389 | exactly one replica of the table proposes number k + 1: the primary that the executor selects after k |
| Executor.ArrivalFits | pbft/network/node.go:776-802 | over any stream whose complete numbers have slots and states, no lookup of the executor misses |
| Network.Node.constructor | pbft/network/node.go:96-126 | a new replica |
| Network.Node.StartThreadIfNotExists | pbft/network/node.go:651-669 | a state is created and counted exactly when there is none; other states are untouched |
| Network.Node.BroadCastNextPrepareMsgIfPrimary | pbft/network/node.go:358-407 | view, epoch and the proposal of the next number |
| Network.Node.GetPrepare | pbft/network/node.go:409-462 | the whole new replica and the messages sent |
| Network.Node.ResolvePrepare | pbft/network/node.go:682-691 | delivery of a PREPARE message, state creation included |
| Network.Node.GetVote | pbft/network/node.go:464-520 | the whole new replica and the messages sent, in every case |
| Network.Node.ResolveVote | pbft/network/node.go:693-714 | votes for committed numbers are dropped, others reach a state |
| Network.Node.GetCollate | pbft/network/node.go:521-631 | holes are filled, then the collate counted; executed when prepared and not committed |
| Network.Node.ResolveCollate | pbft/network/node.go:716-738 | collates for committed numbers are dropped, others reach a state |
| Network.Node.PrepareTimerExpired | pbft/network/node.go:226-243 | the empty proposal is prepared and the NULL vote sent |
| Network.Node.VoteTimerExpired | pbft/network/node.go:245-281 | adaptive commit on the votes, or an UNCOMMITTED collate |
| Network.Node.CollateTimerExpired | pbft/network/node.go:282-313 | adaptive commit on the collates, or nothing |
| Effects.StartEffect | pbft/network/node.go:651-669 | only a number without a state gets one, for the current view, and is counted |
| Effects.ProposeEffect | pbft/network/node.go:358-407 | view and epoch after a proposal, and exactly who proposes what |
| Effects.ProposalRefused | pbft/network/node.go:417-425 | a proposal whose request does not hash changes nothing but the existence of its state |
| Effects.ProposalEffect | pbft/network/node.go:409-463 | any other prepares its number, starts and proposes the next one, sends the vote, and repeats the execution of a committed number |
| Effects.VoteReceived | pbft/network/node.go:690-712 | a vote is ignored exactly when its number is committed, or is number 1 without a state; otherwise the replica executes exactly when the state answers COMMITTED, and sends exactly the answer |
| Effects.VoteIsKept | pbft/network/node.go:702-712 | a vote for an uncommitted number above 1 is never lost: its state is created and holds a vote of the sender |
| Effects.CollateReceived | pbft/network/node.go:531-631 | exactly when a collate is ignored, and when it makes the replica execute |
| Effects.PrepareTimeout | pbft/network/node.go:224-243 | the empty proposal is prepared and voted NULL for, and nothing else changes |
| Effects.VoteTimeout | pbft/network/node.go:245-285 | the replica executes and announces exactly when the counted VOTE messages reach 2f + 1 less the missing votes and the number is open; below that it sends what it holds |
| Effects.CollateTimeout | pbft/network/node.go:286-320 | the same rule on the missing collates, and nothing below it |
| Network.Node.LastSequenceID | pbft/network/node.go:772-780 | on a dense log the lookup at its length succeeds and yields that length |
| Network.Node.ExecuteReady | pbft/network/node.go:771-823 | the inner loop ends, with all that is ready executed |
| Network.Node.ExecuteArrival | pbft/network/node.go:768-823 | one notice: buffered, then drained |
| Network.Node.ExecuteMsg | pbft/network/node.go:765-834 | the loop over any stream of notices leaves the replica that `Executor.HasExecuted` describes |
| Effects.ExecutionEffect | pbft/network/node.go:765-834 | nothing but the buffer changes unless the next number is there; then checkpoint, view and epoch follow the last number executed |
| Effects.CandidateAfter | pbft/network/node.go:819-822 | the next candidate starts at 10 again exactly when a multiple of ten is executed |
| Network.Node.DropNumbersFrom | pbft/network/view.go:126-149 | entries, states and flags of s..total are dropped and nothing else |
| Network.Node.RollBack | pbft/network/view.go:65-87 | the same on the whole replica, the counter ending at min(total, s - 1) |
| Network.Node.FindStableCheckpoint | pbft/network/view.go:104-117 | the maximum of 0 and all reported checkpoints |
| Network.Node.CommittedMax | pbft/network/view.go:255-260 | the largest key of the log, or 0 |
| Network.Node.FillHole | pbft/network/view.go:247-285 | placeholders from the largest key itself up to Min_S; the counter is raised to Min_S |
| Network.Node.CollectViewChange | pbft/network/view.go:38-58 | a message is logged once per sender; a NEW-VIEW comes back exactly for the (2f + 1)-th sender |
| Network.Node.GetViewChange | pbft/network/view.go:30-102 | rollback exactly when the certificate completes; the next candidate announces it with the checkpoint it proves |
| Network.Node.GetNewView | pbft/network/view.go:119-245 | rollback, filling, new view, epoch and candidate, and the new primary's proposal |
| Network.Node.ResolveViewChange | pbft/network/node.go:743-745 | delivery of a VIEW-CHANGE message, which starts its number first |
| Network.Node.ResolveNewView | pbft/network/node.go:748-750 | delivery of a NEW-VIEW message, which starts its number first |
| Effects.RollbackEffect | pbft/network/view.go:65-87 | exactly the entries, states and flags of numbers s to the counter are dropped |
| Effects.ViewChangeEffect | pbft/network/view.go:58-87 | a VIEW-CHANGE message starts its number, and rolls back exactly when it completes a certificate |
| Effects.NewViewLog | pbft/network/view.go:119-285 | the log after a NEW-VIEW, entry by entry |
| Effects.PlaceholderEpochIff | pbft/network/view.go:262-275 | placeholders have the epoch that the executor gives their numbers if and only if the node table has ten entries |
| Effects.NewViewEffect | pbft/network/view.go:166-215 | the replica adopts checkpoint, view, epoch and candidate of a NEW-VIEW, and what waits for execution stays |
| Certificate.RunKeeps | pbft/consensus/pbft_view_impl.go:66-96 | what every interleaving of insert, increment, compare-and-swap and snapshot keeps |
| Certificate.OneCertificate | pbft/consensus/pbft_view_impl.go:83-96 | at most one call returns a NEW-VIEW, holding messages of at least 2f + 1 distinct senders, each really sent |
| Certificate.CertificateIff | pbft/consensus/pbft_view_impl.go:66-96 | when all calls have returned, one returned a NEW-VIEW if and only if there were 2f + 1 distinct senders |
| Certificate.AloneReturns | pbft/consensus/pbft_view_impl.go:57-99 | a call that nothing interleaves with returns exactly for the (2f + 1)-th distinct sender |
| ViewState.VCState.ViewChange | pbft/consensus/pbft_view_impl.go:57-99 | messages are kept once per sender; the NEW-VIEW comes exactly at the (2f + 1)-th, with all of them |
| ViewState.VCState.GetViewChangeMsgs | pbft/consensus/pbft_view_impl.go:101-111 | the copy equals the logged messages |
| Checkpoint.CoverageIff | pbft/network/view.go:104-117 | every possible certificate proves a checkpoint of at least c if and only if n - 2f members would report c or more |
| Checkpoint.NewViewCovers | pbft/consensus/pbft_view_impl.go:85-95 | the same for the certificate returned by any interleaving of calls |
| ViewChange.RollbackFixpoint | pbft/network/view.go:65-87 | the counter ends at min(total, s - 1), and nothing changes exactly when it is below s already |
| ViewChange.RollbackTwice | pbft/network/view.go:126-149 | a second rollback for the same number changes nothing, and removes just that number if it was started again |
| ViewChange.CertificateMakesNoDifference | pbft/network/view.go:119-245 | a NEW-VIEW leads to the same replica whether or not the VIEW-CHANGE messages were handled before |
| ViewChange.RollbackKeepsCountIff | pbft/network/view.go:65-87 | the counter goes on counting the states if and only if every number rolled back had one |
| ViewChange.RollbackKeepsDenseIff | pbft/network/view.go:65-87 | the log stays dense if and only if nothing is rolled back or the counter covers the log |
| ViewChange.FillKeepsDenseIff | pbft/network/view.go:255-275 | filling keeps the log dense if and only if it is not empty or there is nothing to fill; otherwise the executor's lookup misses |
| ViewChange.FilledEntries | pbft/network/view.go:262-275 | entry by entry: kept, replaced exactly when the last one is not above Min_S, or a placeholder |
| ViewChange.NewViewKeepsDenseIff | pbft/network/view.go:119-285 | the exact condition under which the log is dense after the delivery of a NEW-VIEW |
| ViewChange.NewViewShape | pbft/network/view.go:119-285 | the log after the delivery of a NEW-VIEW: keys 1..max(k', Min_S), entry by entry, still covered by the counter |
| System.RoutingInvariant | pbft/network/node.go:670-764 | in every run, view changes included, the state at key k has sequence number k, so a routed message never fails the sequence check |
| System.RoutedMessageChecks | pbft/consensus/pbft_impl.go:443-445 | the sequence check of a routed message never fails |
| Evidence.ProposalIsJudged | pbft/consensus/pbft_impl.go:90-138 | with a request that hashes a proposal gets VOTE if and only if it is of the state's own view, and REJECT otherwise |
| Evidence.VotesAreCandid | pbft/consensus/pbft_impl.go:130-135 | in all runs, view changes included, every vote sent carries a proposal of its number, of the vote's own view if it is VOTE and of another if it is REJECT |
| Evidence.FillsFromVotesOnly | pbft/consensus/pbft_impl.go:421-432 | a fill changes nothing but the VOTE count, and that only from a collate that carries a VOTE |
| Evidence.CountsAreGenuine | pbft/consensus/pbft_impl.go:169-175 | in all runs no VOTE is stored, counted or carried for a number for which none was sent |
| Evidence.VoteDecidesIff | pbft/consensus/pbft_impl.go:157-195 | a vote decides if and only if its number is open, its sender is new, it is a VOTE of the state's own view, and 2f are counted |
| Evidence.CollateDecidesIff | pbft/consensus/pbft_impl.go:275-286 | an UNCOMMITTED collate decides if and only if its number is open, its sender is new, it is of the state's own view, and 2f + 1 are counted after filling |
| Evidence.DecidingVote | pbft/consensus/pbft_impl.go:177-195 | in all runs a vote that decides was cast for a proposal of the decider's own view |
| Evidence.DecidedHasVote | pbft/consensus/pbft_impl.go:157-235 | in all runs, whatever decides a number, a VOTE for it was sent before |
| Evidence.ExecutedHasVote | pbft/network/node.go:795 | in every run without a view change each logged number has a VOTE that was sent for a proposal of the voter's own view |
| Agreement.GoodRun | pbft/network/node.go:670-834 | what every run without a view change keeps: logs, buffers, notices, votes and states hold proposals or timed-out placeholders |
| Agreement.LogsExtend | pbft/network/node.go:795 | an entry logged at some moment of a run is logged ever after |
| Agreement.AnyTwoAgree | README.md:11 | at any two moments of a run, any two replicas' entries for a number are equal, or its Prepare timer fired and one is the empty proposal |
| Agreement.PrefixAgreement | README.md:11 | without such timeouts one replica's log is a prefix of the other's |
| Agreement.ExecutorNeverFails | pbft/network/node.go:768-802 | in all runs without a view change a notice is never nil, all numbers that it makes ready have a state and a slot, and the counter covers the log |
| Proposals.ProposalIsMade | pbft/network/node.go:368-407 | in these runs each proposal was made in one of the events: from outside, or when the primary that the number before selects handled a PREPARE message for that number |
| Proposals.OneProposalHolds | pbft/network/node.go:368-407 | one proposal per number, if only number 1 is proposed from outside and no replica handles two PREPARE messages for one number |
| Proposals.PrimariesKeepAgreement | README.md:11 | so the logs of such a run agree without Prepare timeouts, any two at any two moments |
| Proposals.OneProposalIff | pbft/network/node.go:368-407 | all runs with one proposal from outside, in which no replica handles more than m PREPARE messages for one number, have one proposal per number if and only if m is at most 1 |
| Rounds.RoundsTo | pbft/network/node.go:409-631 | for every number a run without faults or timeouts in which all numbers below it are proposed, voted on by 2f + 1 replicas, decided and executed |
| Disagreement.TimeoutBreaksAgreement | pbft/network/node.go:226-243 | for every number and every group a run with one proposal per number and no view change, in which only that number's Prepare timer fires and two replicas log different entries for it |
| Disagreement.AgreementIff | README.md:11 | all runs whose Prepare timers fire among given numbers agree on number k if and only if k is not a usable number among them |
| Disagreement.AgreementEverywhereIff | README.md:11 | they agree on all numbers if and only if no Prepare timer can fire |
| Refinement.StepRefines | pbft/network/node.go:765-834 | an event changes what a replica has executed only by executing its oldest notice, and then as the executor's specification says |
| Refinement.RunRefines | pbft/network/node.go:765-834 | in every run without a view change a replica's log, buffer, flags, checkpoint and selections are what the specification says about a stream of proposals and timed-out placeholders |
| Refinement.CommittedIffLogged | pbft/network/node.go:795-796 | in these runs `Committed[k]` is 1 if k is in the log, and 0 otherwise |
| Validity.NoExecutionWithoutDecision | pbft/network/node.go:487-631 | in these runs every logged number, and every COMMITTED collate, comes after a decision on that number by some replica |
| Validity.DecisionMoment | pbft/network/node.go:487-631 | each such number has an event of the run that decided it |
| Validity.ExecutedMeansQuorum | pbft/consensus/pbft_impl.go:183-235 | each logged number was decided in an event of the run by a replica whose VOTE counter reached the quorum; the counter is its OK voters, who all sent VOTE for the number, and the credits of its fills; a decision by a vote has a quorum of voters exactly when nothing was credited |
| Progress.TimeoutDecides | pbft/network/node.go:245-275 | in every run without a view change a replica that holds the VOTE of all but f members decides an open number when the Vote timer fires: its PREPARE, or that of a vote, goes to the executor and the others are told |
| Progress.TimeoutExecutes | README.md:17 | when the number's turn has come, it is then executed |
| Silence.SilentMembers | pbft/consensus/pbft_impl.go:212-235 | in every group, for any number of silent members and of VOTE votes below 2f + 1: a run in which nobody ever counts 2f + 1, and the Vote timer decides and executes if and only if the VOTE votes reach 2f + 1 less the silent members |
| Members.StoresMembersOnly | pbft/consensus/pbft_impl.go:157-175 | in every run without a view change a replica stores votes and collates of members only, and no more of either than there are members |
| Shortfall.CreditsCoverShortfall | pbft/consensus/pbft_impl.go:418-435 | in every run without a view change no decision lacks more voters than fills have credited to a counter |
| Shortfall.QuorumCoversShortfall | pbft/consensus/pbft_impl.go:212-230 | in every run without a view change no decision lacks more than 2f + 1 voters |
| Shortfall.DecidesOn | pbft/consensus/pbft_impl.go:418-435 | in every group, for each number a of voters from 0 to 2f, a run without timeouts of a proposal in which replica 0 decides on a voters and no counter is credited more than these lack |
| Shortfall.ShortfallIff | pbft/consensus/pbft_impl.go:275-286 | over the runs in which fills credit at most c to a counter, all decisions are within d voters of a quorum if and only if d is at least c or at least 2f + 1 |
| Shortfall.QuorumsOnlyIff | pbft/consensus/pbft_impl.go:275-286 | over these runs every decision has a quorum of voters if and only if c is 0 |
| Recast.NoVoters | pbft/consensus/pbft_impl.go:90-138 | in every group a run in which replica 0 votes NULL for a PREPARE message without a request, then VOTE for the same with one, and holds only the former |
| Echoes.OneVoteExecutes | pbft/consensus/pbft_impl.go:418-435 | in every group a run with one proposal per number, no view change and no Prepare timeout in which a replica executes on a single vote |
| StateRuns.StatesAreRuns | pbft/network/node.go:651-738 | in every run without a view change the state of each number is what the calls of the run make of a fresh state |
| StateRuns.StoredVotesWereSent | pbft/consensus/pbft_impl.go:161-170 | every vote that a replica holds for a number was sent for it by the voter it is stored for |
| StateRuns.CountersOfStates | pbft/consensus/pbft_impl.go:169-175 | in these runs the counters of every state are what it stores, the VOTE counter with the credits of fills and at most voters * (1 + fills) |
| Recovery.FirstNewViewKeepsDenseIff | pbft/network/view.go:119-285 | after any run without a view change, a NEW-VIEW keeps the log dense if and only if an entry survives or nothing is filled |
| Recovery.FirstNewViewKeepsEntriesIff | pbft/network/view.go:255-275 | it keeps all surviving entries if and only if the last of them is above Min_S or looks like a placeholder |
| Recovery.FirstNewViewAgrees | pbft/network/view.go:119-285 | entries below the last survivor still agree with every replica's log |
| Recovery.ViewChangeOverwrites | pbft/network/view.go:255-275 | for every number k a run without faults or timeouts after which a NEW-VIEW for k + 1, made from 2f + 1 true reports, replaces the proposal that replica 0 has executed for k |
| Lasting.AdoptsIff | pbft/network/view.go:182-184 | a NEW-VIEW sets the checkpoint to its Min_S, and secures it if and only if the log is as long afterwards |
| Lasting.CoveredLogAdopts | pbft/network/view.go:119-285 | this holds for every dense log that the counter covers |
| Lasting.AdoptedLasts | pbft/network/view.go:182-184 | in all runs a replica that has adopted a checkpoint reports that or more, whatever it executes, until its next view change |
| Lasting.AlwaysProvesIff | pbft/network/view.go:104-117 | every NEW-VIEW made from 2f + 1 true reports carries at least c if and only if n - 2f replicas have checkpoints of at least c |
| Lasting.CheckpointSurvives | pbft/network/view.go:104-184 | in all runs, once n - 2f replicas have adopted checkpoints of at least c, no NEW-VIEW made from true reports carries less |
| LogShape.AlwaysShapedIff | pbft/network/view.go:119-285 | over all runs with any view changes: the logs are dense at every moment if and only if every view change meets its condition when it happens |
| Drift.LogOutgrowsCounter | pbft/network/view.go:126-149 | in every group a run to a replica whose counter is below the number of its states, and on to one whose log is longer than its counter, so that the next view change to number 3 leaves a gap |
| Leftovers.NoticeFitsIff | pbft/network/node.go:790-802 | after a view change the next notice finds all its lookups if and only if no number that it makes ready is among those dropped above the first |
| Leftovers.FirstNoticeFitsIff | pbft/network/node.go:790-802 | the same for the first view change after any run without one, when an entry survives |
| Leftovers.OnlyNewIsExecutedIff | pbft/network/node.go:766-795 | from the rolled-back number on the next notice is all that is executed with it if and only if no old entry from there on becomes ready |
| Leftovers.OldProposalExecuted | pbft/network/node.go:766-795 | in every group a run in which a replica executes the old proposal for a number that a view change took back and whose state is fresh |
| Leftovers.ExecutorStopped | pbft/network/node.go:790-802 | in every group a run in which the executor comes to an old number that has no state after a view change |
| Hubs.Client.Receive | pbft/network/client.go:86 | the oldest queued message, or nothing once the queue is closed and drained |
| Hubs.Hub.RegisterClient | pbft/network/hub.go:35-36 | a client joins at the current end of the stream |
| Hubs.Hub.UnregisterClient | pbft/network/hub.go:37-41 | a registered client is dropped and its queue closed; others are untouched |
| Hubs.Hub.BroadcastMessage | pbft/network/hub.go:42-50 | exactly the registered clients with room stay; every client still holds its block of the stream |
| Hubs.StaysIff | pbft/network/hub.go:32-53 | over any events a client is registered still if and only if it has neither been unregistered nor been found with 512 unread messages; what it read and has queued is the stream from its registration |
| Hubs.Hub.Run | pbft/network/hub.go:32-53 | over any events: the clients have what the events make of them, a contiguous block of the stream from registration, all of it while registered |

## Left out

- WebSockets, HTTP, JSON, signatures, hashing, keys, the node tables' generation, seed tables and logging: messages are delivered as typed values, and digests are parameters.
- Real time: a timer is a step that may happen at any moment while its state exists; starting, stopping and cancelling timers, the exit channels of the per-number threads and the channel that a stop can block on are not modelled, so nothing is claimed about progress of these threads.
- The content of VIEW-CHANGE messages that a replica sends (`StartViewChange`, `CreateViewChangeMsg`, `CreateSetP`): the set of prepared messages in them is never read.
- `pbft/node.go`, an older copy of the replica that the program does not build; `checkpoint.go`, `ClearMsgLogs`, `Redo_SetState`, `SetBizantine` and `setNewSeedList`, which are unused or do nothing.
- Atomicity: handlers, timers and the executor are atomic steps of `System`. Interleavings inside a handler are modelled for `ViewChange` only; a `VoteAQ` that reads the counters between the storing and the counting of a vote is not.
- Aliasing: a COLLATE message holds a snapshot of the vote map, where the program passes the live map to the encoder. A nil entry of a received map is an absent key.
- 32-bit counters: they are unbounded here. `VoteRuns.CounterBound` says how large they get.
- The pointer compare-and-swap when a view-change state is created is a lookup or creation; the new primary's wait on a channel that nothing sends to is not modelled, so `Network.Node.GetNewView` says what is sent and not that the handler returns.
- Handlers that still hold a state object when a rollback removes it from the table are not modelled: a handler works on the state in the table.
- The reorder buffer: a nil notice, a notice without a state and a number of 1000 or more stop the program; `Executor.Fits` excludes them, and `Agreement.ExecutorNeverFails` shows that the first two cannot happen without a view change.
- Votes and collates for number 1 that arrive before its PREPARE are dropped by the code (the branch that would deliver them again is commented out); the network of `System` may deliver any message again.
- The certificate of a NEW-VIEW message in `System`: its events take any NEW-VIEW message, since the code does not check one; `Recovery.Certified` says which ones true reports yield.
- Agreement across view changes or against a proposer who sends different proposals for one number: the code compares no digests, so neither holds.
- Quorum.DisjointAdaptiveQuorums: members silent to one decider are at most 2f, because the code commits on no threshold below 1.
- Network.Node.constructor: excludes node tables of fewer than ten entries and negative views, and so does all of `System`: the primary's index, a view modulo 10, runs off a shorter table, and the program stops at the first view that does.
- References: two nodes are the same if their entries in the table are equal, two received votes if they are equal and stored at the same address; the address of a replica's own sent vote is not modelled.
- Network.Node.GetViewChange: an index outside the node table stops the program, here it is excluded; so are numbers of 1000 or more in a rollback.
- Hubs.Hub.Run: a client reading its queue and the hub's hand-off to a waiting reader are one step each, and a read that would wait does nothing.
- `System` lets anybody propose anything and delivers any PREPARE message again; `Agreement.AnyTwoAgree` takes one proposal per number as given, and `Proposals.OneProposalIff` says when it follows.
