# Verified model of the MRV executor and the Tusk protocol under it

This project models, in Dafny, how a node of the repository turns certificates into one
total execution order, and proves what that order guarantees:

* **the primary's core** votes for headers, assembles votes into certificates, and hands
  certificates to consensus once all their ancestors are stored (`Messages`, `Aggregators`,
  `CoreState`, `Core`); `CertifiedDag` takes the cores of all honest primaries together and
  shows that what they store is a well-formed DAG, and `Agreement` feeds what each of them
  delivers to its own consensus; `OwnCertificate` drives a core from its own header to the
  certificate, and `LateVote` to a second vote;
* **Tusk** grows that DAG in memory, prunes it, finds supported leaders, chains back to
  earlier leaders and flattens their sub-DAGs into numbered batches (`TuskState`, `SubDag`,
  `Ledger`, `CommitRule`, `Consensus`, over the unpruned `Dag`); `Redelivery` drives a node
  to commit a certificate twice;
* **the MRV executor** records which creators see which certificate in which round, freezes
  a horizon for each, and releases batches in index order, each sorted by pairwise
  verdicts, strongly connected components and a Kahn loop (`Visibility`, `TieBreak`,
  `Graphs`, `Kosaraju`, `Linearization`, `Kahn`, `Verdict`, `ExecutorRun`, `Conservation`,
  `MrvExecutor`); `Pipeline` joins it to consensus, `Releases` traces every released slice
  to the state it was sorted in, `Fairness` and `Ancestry` say what the final order is
  worth, and `ExampleHistory` and `AncestryExample` run a node to show where it stops;
* **the retransmission queue** of one connection (`ReliableSender`).

Components that update fields in place are classes (`State`, `Consensus`, `MrvExecutor`,
`VotesAggregator`, `CertificatesAggregator`, `Core`, `Connection`). Their methods keep the
branches and loops of the source and are proved equal to a function of the old state, or
to keep an invariant over every reachable state; lemmas about those functions and
invariants carry the results. `Valid()` of a class is that invariant: every constructor
establishes it and every method keeps it, so a lemma that requires it holds after every run.

## Main results

1. *Leader agreement* (`Consensus.LeaderAgreement`): whatever causally closed part of one
   DAG two nodes were given, and in whatever order, the leaders one has committed are a
   prefix of those the other has; `Agreement.AgreeFromCores` starts from the cores.
2. *Why such a DAG exists* (`CertifiedDag.CertificateUnique`,
   `CertifiedDag.CertifiedDagIsWellFormed`): with faulty stake below the validity threshold,
   there is one certificate per author and round, its parents carry a quorum one round
   below, and nothing is missing under it.
3. *Pruning is invisible* (`CommitRule.Linked`, `Ledger.CommitKeepsView`): the walk over
   pruned memory finds a path exactly when the full DAG has one, and neither lookup that
   the source expects to succeed can fail.
4. *Nothing due is missed* (`Consensus.SupportedIsCommitted`): a leader that a delivered
   certificate sees supported is committed, whatever was delivered in which order; and the
   quorum that every step waits for is one that the others reach whenever less than a
   validity threshold fails (`Config.OthersAreQuorum`), after which a core's header is
   certified (`OwnCertificate.Certify`) and its proposer can go on
   (`OwnCertificate.HandedParentsJustify`).
5. *No double commit* (`Consensus.NoDoubleCommit`), as long as every certificate that comes
   back is harmless (`Ledger.InsertKeepsOutput` says exactly which are, and
   `Redelivery.OutputTwice` runs into one that is not), and completeness of a batch above
   the last committed round (`Consensus.BatchesAgreeAboveFloor`), which needs no such
   condition; neither does leader agreement. Within the depth no parent is dropped too early
   (`Consensus.ParentIsOutput`).
6. *The order of a batch* (`Verdict.SortBatch`): Kosaraju and the Kahn loop compute one
   mathematically defined sequence, which depends on neither the arrival order of the
   members nor the iteration order of any hash map.
7. *Nothing is lost* (`Pipeline.ExecutesWhatWasCommitted`): the executor outputs, in commit
   order, one permutation of each batch; what is not out yet waits for a stated reason
   (`Conservation.BoundedWaiting`).
8. *Fairness against ancestry* (`Ancestry.AncestryKept`): when a certificate follows its
   ancestor, as an if-and-only-if: where one of the two is not mature the tie-break decides,
   in every run (`Releases.ImmatureFollowsInRuns`); where both are, the descendant follows,
   in every run over complete inputs (`Releases.MatureFollowsInRuns`), where verdicts are
   acyclic. `AncestryExample.RunNode` is a node of seven
   equal authorities that commits two leaders and executes a certificate before its own
   parent.

## Conventions and assumptions

* Digests and public keys are natural numbers: 32-byte strings compared lexicographically
  are big-endian numbers. Rounds and stakes are natural numbers without an upper bound.
* Hash functions are parameters taken to be injective in the fields they hash, and a
  signature is a pair of signer and message that only the signer makes. The source hashes
  a header's payload and parents one after the other without lengths; that two different
  headers never give the same bytes is part of this assumption.
* The leader schedule is an arbitrary function from rounds to authorities. The source's
  choice is round-robin over the sorted authorities, and coin 0 in its unit tests.
* The order in which a hash map is visited is arbitrary: the model picks an arbitrary
  remaining element and the proofs cover every pick.
* Consensus is handed certificates of one well-formed history, after their parents, each any
  number of times; `CertifiedDag.DeliveriesFollowHistory` proves this from the cores. A
  core that receives a certificate again delivers it again, so one can come back after it
  was cleaned up, which is the danger noted at consensus/src/lib.rs:62-63. It does no harm
  to the output if it is still in memory, lies below the depth, or was never output and
  neither was a child of it (`Ledger.Harmless`); otherwise it can be output again once an
  uncommitted descendant that is still in memory is.
* A core's own key signs nothing outside the core: a verified message with its name above
  round 0 is about the current header or one it voted for (`Core.Core.OursIsKnown`). The
  round that consensus reports never decreases, and the waiters return only what they were
  given. Headers that come back older than the garbage-collected round are allowed; a vote
  on one of them is exactly what `CoreState.VotesAtMostOnce` has to exclude, and
  `CoreState.SecondVote` shows two votes of one core for one slot where it is not.
* `Fairness.Complete` describes a full history: above a base round every stored certificate
  has all but `f` creators among its stored parents. `Releases.RunIsComplete` derives it for
  every state of a run from the inputs of that run. Consensus may prune old certificates
  that were never committed, so this need not hold; only `Fairness.WideSpreads`,
  `Fairness.WideIsFull` and the statements about two mature certificates use it.

## Model

| member | source | states |
|---|---|---|
| Config.QuorumsShareHonest | config/src/lib.rs:168-181 | Two quorums share at least a validity threshold of stake, so with less than that faulty they share an honest authority; for every committee and every rounding of the thresholds |
| Config.QuorumMeetsValidity | config/src/lib.rs:168-181 | A quorum and a set that reaches the validity threshold always have a member in common |
| Config.QuorumHasHonest | config/src/lib.rs:168-181 | A quorum always contains someone outside any set below the validity threshold |
| Config.ThresholdsComplement | config/src/lib.rs:168-181 | The two thresholds add up to the total stake plus one, so a set is a quorum exactly when what it leaves out is below the validity threshold |
| Config.OthersAreQuorum | config/src/lib.rs:168-181 | Whoever fails, as long as that is less than a validity threshold, the other authorities form a quorum |
| Messages.SameCertificateIsSameDigest | primary/src/messages.rs:226-256 | Certificate equality, which ignores votes, is equality of digests |
| Messages.AcceptedHeadersAreMade | primary/src/messages.rs:24-67 | A header is accepted exactly when it is what its author, an authority with stake, makes of its fields, with payload of that author's own workers |
| Messages.AcceptedHeadersAgree | primary/src/messages.rs:48-67 | Two accepted headers of one id are the same header, signature included |
| Messages.AcceptedVotesAgree | primary/src/messages.rs:131-142 | Two accepted votes of one author for one header id, round and origin are the same vote |
| Messages.VerifyVotes | primary/src/messages.rs:198-211 | The voter and weight loop accepts exactly distinct voters, each with stake, who together reach the quorum; the quorum error means that only the weight was missing |
| Messages.VerifyCertificate | primary/src/messages.rs:189-215 | Accepts exactly genesis, and certificates with a valid header and a quorum of distinct signers of this very digest |
| Aggregators.LeftoverBelowQuorum | primary/src/aggregators.rs:36-40 | After a quorum of distinct names is used up, all later names together stay below a quorum |
| Aggregators.CountOne | primary/src/aggregators.rs:36-45 | The counter that restarts at zero reaches the threshold exactly when the stake of all names does so for the first time |
| Aggregators.VotesAggregator.Append | primary/src/aggregators.rs:25-46 | A repeated author is refused with nothing changed; otherwise a certificate with all votes so far is yielded exactly on the first quorum, and never again |
| Aggregators.YieldedPasses | primary/src/aggregators.rs:36-44 | A certificate assembled from verified votes of one header passes every other node's voter, weight and signature checks |
| Aggregators.CertificatesAggregator.Append | primary/src/aggregators.rs:65-84 | A second certificate of an author is ignored; all digests so far are yielded exactly on the first quorum and drained |
| Core.Core.constructor | primary/src/core.rs:73-115 | A core starts with nothing stored, voted or delivered, and its invariant holds |
| Core.Core.GetParents | primary/src/synchronizer.rs:89-118 | Returns every parent, from genesis or the store, or, when one is missing, none after handing the header to the waiter |
| Core.Core.CheckParents | primary/src/core.rs:159-171 | Succeeds exactly when all parents are one round below and carry a quorum |
| Core.Core.ProcessHeader | primary/src/core.rs:142-214 | A vote is cast exactly when the parents are known, one round below and a quorum, the payload is here, and the author has no vote in that round; the voters counted grow by ourselves exactly when that vote is for our own header, whose certificate is delivered if this completes a quorum; a header short of parents or payload goes to the waiter and changes nothing else; an error is returned exactly when the known parents are not a quorum of the round before, and the `expect` on the own vote fails exactly when our header is due for a vote again, the first one forgotten but still in the aggregator |
| Core.Core.VoteFor | primary/src/core.rs:184-213 | The vote is remembered and on record; for our own header it is counted at once, and the certificate it may complete is delivered; for any other nothing is counted |
| Core.Core.ProcessVote | primary/src/core.rs:217-248 | A repeated voter changes nothing; otherwise the vote is counted, and the one that first completes a quorum gets a certificate of the current header delivered, if its parents are known, while any other leaves store, votes and deliveries alone; the `expect` on that certificate fails exactly when the header is no longer marked as processed and processing it again fails |
| Core.Core.DeliverCertificate | primary/src/synchronizer.rs:122-137 | True exactly when every parent is genesis or stored; otherwise the certificate is handed to the waiter |
| Core.Core.ProcessCertificate | primary/src/core.rs:251-304 | A header not processed before is processed first, with the vote that is due; with all parents stored the certificate becomes the last one delivered to consensus and is counted for the parents of the next round; otherwise it waits; it fails exactly when its header was not processed before and processing it fails |
| Core.Core.StoreAndSend | primary/src/core.rs:277-303 | Storing and delivering a certificate adds exactly it to the store and to the deliveries, and the proposer gets all digests of the round exactly when this one first completes a quorum |
| Core.Core.AggregateCertificate | primary/src/core.rs:281-293 | The author is counted for its round; the proposer is sent all digests of the round exactly when they first reach a quorum, and all it was ever sent are known certificates of a quorum of one round |
| Core.Core.DeliverOrWait | primary/src/core.rs:267-303 | A certificate is delivered, and counted for the proposer, exactly when all its parents are known; otherwise it waits and nothing else changes |
| Core.Core.ReceiveHeader | primary/src/core.rs:306-318 | Headers below the garbage-collected round or failing verification are refused with nothing changed; any other is voted for exactly when a new vote is due, and suspended when something is missing |
| Core.Core.ReceiveVote | primary/src/core.rs:320-336 | Votes that do not verify or are for anything but the current header are refused with nothing changed; any other adds exactly its author to those counted, and the one that first completes a quorum gets its certificate delivered if the parents are known; the `expect` fails exactly as in processing a vote, and only when the current header is older than the garbage-collected round |
| Core.Core.ReceiveCertificate | primary/src/core.rs:338-346 | Certificates below the garbage-collected round or failing verification are refused with nothing changed; any other that goes through gets its header processed if it was not, and is delivered last and counted for the proposer, or waits for its parents |
| Core.Core.ProposeHeader | primary/src/core.rs:117-139 | The core's own new header becomes the current one, and its voters are exactly ourselves when a new vote is due and nobody otherwise; an error is returned exactly when its known parents do not justify it, and no `expect` fails |
| Core.Core.ResumeHeader | primary/src/core.rs:378-380 | A header that comes back from the waiter is voted for exactly when a new vote is due, however old it is by then |
| Core.Core.Cleanup | primary/src/core.rs:400-409 | Forgets exactly the rounds below the new garbage-collected round, in the votes, the processing marks and the aggregators, and keeps the invariant |
| CoreState.DeliverKeeps | primary/src/core.rs:267-302 | Delivering a certificate whose parents are known keeps the store closed under parents, every vote justified, and the delivery sequence parents-first |
| CoreState.CastVoteKeeps | primary/src/core.rs:184-192 | Voting where no vote is remembered keeps at most one vote per author and round among headers that were not outlived |
| CoreState.AcceptedVotesAreMade | primary/src/messages.rs:115-142 | A vote of a core for a header is accepted exactly when it is the one the core makes for it |
| CoreState.QuorumJustifies | primary/src/core.rs:159-171 | Known parents of the round before, whose authors make up a quorum with each counted once, pass the check on parents: the header is voted for, not refused |
| CoreState.CollectKeeps | primary/src/core.rs:400-409 | Garbage collection keeps the whole invariant of the core |
| CoreState.VotesAtMostOnce | primary/src/core.rs:184-189 | Over a whole run, two votes for one author and round on headers not older than the garbage-collected round are the same vote |
| CoreState.SecondVote | primary/src/core.rs:184-189 | Where a vote was cast, a core votes again in the same slot, for a conflicting header, once garbage collection has passed the slot and not before; its invariant holds with both votes on record |
| LateVote.VoteAgain | primary/src/core.rs:349-410 | A core that votes for a header, suspends a conflicting one of the same slot for its payload, and collects the slot before the payload arrives, does vote for both |
| OwnCertificate.Certify | primary/src/core.rs:117-248 | A core that proposes a justified header and then receives verified votes which together with its own make up a quorum delivers a certificate for that header to consensus |
| OwnCertificate.HandedParentsJustify | primary/src/core.rs:281-293 | After every run, whatever parents the core has handed to its proposer justify a header of the next round |
| CertifiedDag.CertificateUnique | primary/src/core.rs:184-189 | No two certificates with a quorum of votes exist for one author and round, at whichever honest nodes they are stored |
| CertifiedDag.CertificateJustified | primary/src/core.rs:159-171 | Some honest core had all parents of any certified header, one round below and a quorum |
| CertifiedDag.CertifiedDagIsWellFormed | primary/src/core.rs:250-304 | What all honest cores store, with genesis, is a well-formed DAG: names match, one certificate per author and round, parents present one round below with a quorum |
| CertifiedDag.DeliveriesFollowHistory | primary/src/core.rs:295-302 | Everything a core sends to consensus is in that DAG and comes after all its parents |
| Agreement.FeedConsensus | primary/src/core.rs:295-302 | All that an honest core has delivered, repetitions included, is input that its consensus accepts, over the DAG of all honest cores; without repetitions nothing is committed twice |
| Agreement.AgreeFromCores | consensus/src/lib.rs:119-128 | Of any two honest nodes, each fed by its own core, one's committed leaders are a prefix of the other's |
| Dag.SupportedIsReached | consensus/src/lib.rs:150-165 | A certificate with validity-threshold support is an ancestor of every certificate two or more rounds above it |
| Dag.WalkThroughSupported | consensus/src/lib.rs:247-267 | Every backward walk that starts high enough passes a supported leader and goes on exactly as that leader's own walk |
| Dag.SupportedSequencesAgree | consensus/src/lib.rs:247-267 | Of two supported leaders, the older one's whole sequence of leaders is a prefix of the younger one's |
| TuskState.State.constructor | consensus/src/lib.rs:39-50 | The initial state holds genesis at round 0 and nothing else |
| TuskState.State.Update | consensus/src/lib.rs:53-70 | One update raises the author's round, takes the maximum, and keeps exactly the entries not below their author's round nor below the depth, whatever order the authors are visited in |
| TuskState.State.UpdateEach | consensus/src/lib.rs:174-180 | A batch of updates amounts to one cleanup with the final rounds |
| TuskState.RaiseAllBounds | consensus/src/lib.rs:54-60 | After a batch each author's round is its old one or that of one of its certificates in the batch, and at least all of these |
| SubDag.OrderDag | consensus/src/lib.rs:286-326 | The flattening terminates and lists, once each and by ascending round, exactly the certificates reached over links that stop at an author's last committed round and lie within the depth; within a round they stand in the order of the depth-first traversal that takes the last parent first |
| SubDag.FindParent | consensus/src/lib.rs:296-304 | Finds the certificate of the round below with that digest if and only if memory holds one |
| SubDag.SortByRoundCorrect | consensus/src/lib.rs:324-324 | Sorting by round permutes and sorts |
| SubDag.SortIsStable | consensus/src/lib.rs:324-324 | Sorting by round leaves the certificates of each round in the order they had |
| Ledger.BatchOrder | consensus/src/lib.rs:320-325 | A batch is non-empty, ends with its leader, and lists every included parent before its children |
| Ledger.BatchComplete | consensus/src/lib.rs:286-318 | A batch contains every ancestor of the leader above the last committed round |
| Ledger.CommitKeepsView | consensus/src/lib.rs:170-180 | Committing a batch keeps: memory holds only delivered certificates, each at its place, and nothing above the last committed round is ever pruned; the leader's round becomes the last committed one |
| Ledger.CommitRemembers | consensus/src/lib.rs:53-70 | Committing a batch prunes nothing that lies within the depth and not below its author's last committed round |
| Ledger.CommitKeepsOutput | consensus/src/lib.rs:170-180 | Committing a batch keeps: nothing output twice, committed certificates still in memory sit at their author's round or below the depth, parents output first |
| Ledger.InsertKeepsView | consensus/src/lib.rs:123-128 | Adding any delivered certificate, new or not, keeps what holds of memory |
| Ledger.FirstIsHarmless | consensus/src/lib.rs:306-317 | A first delivery is harmless |
| Ledger.InsertKeepsOutput | consensus/src/lib.rs:62-69 | Adding a delivered certificate keeps what holds of the output if and only if it is harmless: still in memory, below the depth, skipped like everything committed, or never output with no child output either |
| CommitRule.LayerPresent | consensus/src/lib.rs:270-280 | Above the last committed round the layer below a delivered certificate is in memory, so the lookup in the path search cannot fail |
| CommitRule.Linked | consensus/src/lib.rs:270-282 | The layered search over pruned memory answers exactly whether the full DAG has a path |
| CommitRule.OrderLeaders | consensus/src/lib.rs:247-267 | The leaders found in pruned memory are exactly those the full DAG determines above the last committed round |
| CommitRule.WalkIsChain | consensus/src/lib.rs:247-267 | The chosen leaders have strictly increasing even rounds and each is an ancestor of the next |
| Consensus.SupportLayer | consensus/src/lib.rs:150-155 | The round that votes for the leader is in memory whenever support is counted, so that lookup cannot fail |
| Consensus.LeaderInMemory | consensus/src/lib.rs:145-148 | Above the last committed round the leader found in memory is the delivered leader of the full DAG |
| Consensus.SupportInMemory | consensus/src/lib.rs:151-163 | Support counted in memory is the support among all delivered certificates |
| Consensus.Consensus.constructor | consensus/src/lib.rs:113-116 | A node starts with genesis delivered and nothing committed, and its invariant holds |
| Consensus.Consensus.CommitLeader | consensus/src/lib.rs:170-221 | Committing one leader appends exactly one batch, the flattening of its sub-DAG in the memory it finds, leaves the memory cleaned by that batch, and keeps the invariants |
| Consensus.Consensus.CommitAll | consensus/src/lib.rs:168-222 | After a commit the committed leaders are exactly the sequence the new leader determines in the full DAG |
| Consensus.Consensus.Process | consensus/src/lib.rs:119-223 | Any delivery, new or repeated, commits exactly when the leader three rounds below is new and supported; then the committed leaders become that leader's sequence, otherwise no batch is output; memory and new batches are exactly those of inserting the certificate and committing these leaders one by one; no leader that a delivered certificate three rounds up sees supported stays uncommitted |
| Consensus.Consensus.CommitDueLeader | consensus/src/lib.rs:130-222 | Once the certificate is in memory, the leader three rounds below it is committed, with the linked ones before it, if that is due; every early return leaves output and leaders alone and is taken only when nothing is due, including the subtraction that wraps around below genesis |
| Consensus.SupportedIsCommitted | consensus/src/lib.rs:130-166 | After every run: if among the ancestors of a delivered certificate those one round above the leader three rounds below it that name it reach the validity threshold, that leader is committed |
| Consensus.LeaderAgreement | consensus/src/lib.rs:139-170 | For any two nodes of one DAG, whatever they were delivered and however often, one node's log of committed leaders is a prefix of the other's |
| Consensus.BatchesAgreeAboveFloor | consensus/src/lib.rs:170-180 | Two nodes' batches of the same index have the same leader and the same certificates above the previous leader's round |
| Consensus.NoDoubleCommit | consensus/src/lib.rs:53-70 | Over a whole run in which nothing harmful came back, no certificate is output twice, genesis never, and none after one of its children |
| Consensus.ParentIsOutput | consensus/src/lib.rs:296-321 | Over a whole clean run each output certificate has been preceded by each of its parents that is within the depth of the last committed round and whose author has nothing newer in the output: neither pruning nor flattening drops one too early |
| Redelivery.OutputTwice | consensus/src/lib.rs:62-69 | A node of four authorities that gets certificate 13 again after it was committed and cleaned up commits it again, in the next batch, for every depth of at least 1 |
| Consensus.CommitSchedule | consensus/src/lib.rs:130-144 | Committed leaders have strictly increasing even rounds from 2, each an ancestor of the next, and the last one sets the last committed round |
| Consensus.BatchesNumbered | consensus/src/lib.rs:182-217 | Batches are numbered from 1 without gaps, one per leader, and never empty |
| TieBreak.TieLessTotal | mrv_executor/src/lib.rs:425-434 | On stored digests the tie-break is a strict total order |
| TieBreak.MixedOrdersCycle | mrv_executor/src/lib.rs:425-434 | With an unstored digest among them the tie-break can go in a circle, so membership in the store has to be an invariant |
| TieBreak.SortedIsAscending | mrv_executor/src/lib.rs:282-283 | A sorted listing of distinct stored digests is determined by the set of its elements |
| Kosaraju.DfsForward | mrv_executor/src/lib.rs:493-513 | The first search terminates, visits everything reachable, and finishes every component after all that it leads to |
| Kosaraju.DfsReverse | mrv_executor/src/lib.rs:515-532 | The second search collects, once each, exactly new nodes that reach the start, and all their new predecessors |
| Kosaraju.ReverseGraph | mrv_executor/src/lib.rs:462-475 | The reversed adjacency lists hold exactly the edges, in whatever order they were visited |
| Kosaraju.FindScc | mrv_executor/src/lib.rs:448-491 | For every finite graph the components partition the nodes into exactly the classes of mutual reachability |
| Kahn.Condense | mrv_executor/src/lib.rs:306-333 | The condensation has exactly the edges between different components, and indegrees count each once, in whatever order edges are visited |
| Kahn.Release | mrv_executor/src/lib.rs:349-365 | Emitting a component decrements each successor once, never below zero, and makes ready exactly those left without predecessors |
| Kahn.TopologicalOrder | mrv_executor/src/lib.rs:335-368 | The loop empties the condensation and returns the one sequence defined by repeatedly taking the least component that nothing remaining leads to |
| Linearization.LinearizePermutes | mrv_executor/src/lib.rs:340-367 | That sequence lists every node exactly once |
| Linearization.LinearizeRespects | mrv_executor/src/lib.rs:340-367 | Whatever leads to a node of another component comes before it |
| Linearization.LinearizeBlocks | mrv_executor/src/lib.rs:345-347 | Members of a component stand together, in tie-break order |
| Linearization.UnblockedComesFirst | mrv_executor/src/lib.rs:340-365 | In any graph, cyclic or not, a comes before b whenever every component that leads to a is tie-broken before that of b or leads to b |
| Linearization.IsolatedFollows | mrv_executor/src/lib.rs:340-365 | In any graph, a node without edges comes after a if and only if it is tie-broken after every component that leads to a |
| Verdict.ComparePair | mrv_executor/src/lib.rs:370-416 | The two counters decide exactly whether the evidence is one-sided: ahead by the margin in some round of the window, behind in none |
| Verdict.WinsAntisymmetric | mrv_executor/src/lib.rs:370-416 | No pair wins both ways |
| Verdict.WinHasHonestWitness | mrv_executor/src/lib.rs:394-407 | Behind every win there is, outside any f creators, one who saw the winner and not the loser in the same round |
| Verdict.LeadSurvivesFaults | mrv_executor/src/lib.rs:394-407 | A lead by f + 1 in a round is exactly a lead that is still one after any f creators are taken away |
| Verdict.OtherRoundsIgnored | mrv_executor/src/lib.rs:385-398 | What was seen in rounds not above both certificates, or above both horizons, has no influence on a verdict |
| Verdict.EachSharedRoundCounts | mrv_executor/src/lib.rs:394-416 | A lead in any single round above both certificates and up to the later horizon wins if the other never leads, and rules out that the other wins |
| Verdict.BuildGraph | mrv_executor/src/lib.rs:282-302 | The pairwise loop adds exactly the edges of the verdict relation |
| Verdict.SortBatch | mrv_executor/src/lib.rs:277-368 | The result is determined by the set of members, the verdicts and the tie-break alone |
| Verdict.BatchOrderProperties | mrv_executor/src/lib.rs:277-368 | The result is a permutation of the batch, keeps components together, and puts the winner first for every verdict between different components |
| Visibility.PrunedWalk | mrv_executor/src/lib.rs:138-183 | The walk cut off at the floor records exactly what an unpruned search through all stored ancestors would |
| Visibility.SeesTransitive | mrv_executor/src/lib.rs:148-182 | Seeing is transitive along stored parent links |
| ExecutorRun.AddKeepsSeen | mrv_executor/src/lib.rs:138-183 | After each certificate the creators recorded for an AUF at a round are exactly the authors of stored certificates of that round from which it is reached |
| ExecutorRun.AddKeepsHorizons | mrv_executor/src/lib.rs:162-171 | Adding a certificate keeps every horizon: at most the frontier, with 2f+1 creators if mature, at the cap otherwise, and unset only below 2f+1 in every round |
| ExecutorRun.AddKeepsFrontier | mrv_executor/src/lib.rs:120-121 | After each certificate the frontier is the highest round stored, and 0 before the first |
| ExecutorRun.CapKeepsObserved | mrv_executor/src/lib.rs:196-208 | Capping keeps visibility and horizons, and leaves without a horizon only AUFs whose cap lies ahead of the frontier |
| Fairness.HorizonSetOnce | mrv_executor/src/lib.rs:162-171 | Between any two points of any run, a horizon and the maturity that goes with it never change once set, and no AUF comes back |
| Fairness.SeersInherit | mrv_executor/src/lib.rs:148-182 | In every round the creators that see a certificate also see each of its ancestors |
| Fairness.DescendantNeverWins | mrv_executor/src/lib.rs:370-423 | A certificate never beats its ancestor |
| Fairness.WideSpreads | mrv_executor/src/lib.rs:148-182 | Over a complete history, what f+1 creators saw in one round is seen by every certificate of every later round |
| Fairness.WideIsFull | mrv_executor/src/lib.rs:397-407 | After such a round nothing else is seen by more creators |
| Ancestry.VerdictsAcyclic | mrv_executor/src/lib.rs:288-304 | Over a complete history verdicts form no cycle: every component is a single certificate |
| Ancestry.DescendantNeverLeads | mrv_executor/src/lib.rs:288-302 | Over a complete history not even a chain of verdicts leads from a certificate to its ancestor |
| Ancestry.MatureFollowsAncestors | mrv_executor/src/lib.rs:277-368 | Over a complete history a mature certificate is output after each of its ancestors in the batch |
| Ancestry.ImmatureFollows | mrv_executor/src/lib.rs:380-383 | In every batch, over any store, a certificate that is not mature follows another if and only if every component that leads to the other is tie-broken before it |
| Ancestry.AncestryKept | mrv_executor/src/lib.rs:277-368 | Exact condition for the causal constraint: a certificate that is not mature follows its ancestor if and only if every component that leads to the ancestor is tie-broken before it; a mature one follows an ancestor that is not mature unless all that leads to it is tie-broken before the ancestor; only of two mature ones the history has to be complete, and then the descendant follows |
| Ancestry.AncestryOverCompleteHistory | mrv_executor/src/lib.rs:277-368 | Over a complete history a certificate follows its ancestor if and only if it is mature or every component that leads to the ancestor is tie-broken before it |
| Ancestry.ImmaturesByPlace | mrv_executor/src/lib.rs:425-434 | Of two members of a batch that are not mature, the one of the lower round is output first, then by author, then by digest, whatever the rest of the batch is |
| Releases.SliceOrigin | mrv_executor/src/lib.rs:210-244 | Every slice of every run was released in a state of that run that has all invariants and in which its batch was the lowest and frozen |
| Releases.SliceOrder | mrv_executor/src/lib.rs:235-240 | A released slice is the order of its batch in that state |
| Releases.FrozenUntilRelease | mrv_executor/src/lib.rs:196-208 | A horizon set by the end of one input is the one that the release sees, however many inputs later |
| Releases.ImmatureFollowsInRuns | mrv_executor/src/lib.rs:380-383 | In every slice of every run, a certificate released without having matured follows another if and only if every component that leads to the other is tie-broken before it |
| Releases.RunIsComplete | mrv_executor/src/lib.rs:115-128 | If every input above a base round names all but f creators among the inputs, the store is complete after every prefix of the run |
| Releases.MatureFollowsInRuns | mrv_executor/src/lib.rs:277-368 | In every slice of every run over such inputs, a mature certificate follows each of its ancestors |
| ExampleHistory.HistoryIsWellFormed | primary/src/core.rs:159-171 | A concrete history of seven authorities of equal stake: one certificate per author and round, five parents each from the round before |
| ExampleHistory.RunConsensus | consensus/src/lib.rs:113-224 | A consensus node that is delivered this history, parents first, commits exactly the leaders 67 and 82 of its round-robin schedule |
| ExampleHistory.FirstBatch | consensus/src/lib.rs:170-180 | Whatever node has committed these leaders, its first batch is exactly all of rounds 1 to 5 and the leader |
| AncestryExample.DescendantFirst | mrv_executor/src/lib.rs:380-383 | On the batches of any such node, the executor's run with a window cap of 2 releases certificate 31 before its own parent 21 |
| AncestryExample.RunNode | mrv_executor/src/lib.rs:62-137 | A consensus node and an executor made for seven authorities do run into it: 31 is output before 21 |
| MrvExecutor.MrvExecutor.constructor | mrv_executor/src/lib.rs:68-91 | Thresholds come from the committee size, the cap is at least 1, and the executor starts empty with its invariant |
| MrvExecutor.MrvExecutor.OnCommittedBatch | mrv_executor/src/lib.rs:105-137 | One input takes the state exactly to the step function's value, keeps the invariant, and only appends to the output |
| MrvExecutor.MrvExecutor.AddCertificateToView | mrv_executor/src/lib.rs:115-128 | Each certificate updates frontier, store, AUFs and floor as the step function says; the frontier stays exactly the highest round stored, and the floor the least active round |
| MrvExecutor.MrvExecutor.ApplyWindowCap | mrv_executor/src/lib.rs:196-208 | Caps exactly the AUFs whose window has passed, in whatever order they are visited |
| MrvExecutor.MrvExecutor.TryFinalizeBatches | mrv_executor/src/lib.rs:210-244 | Releases batches from the lowest index as long as all members have horizons, and stops only when the lowest has one without |
| MrvExecutor.MrvExecutor.BatchHorizon | mrv_executor/src/lib.rs:246-253 | A batch horizon exists exactly when all members have one, bounds them all, and never exceeds the frontier |
| MrvExecutor.MrvExecutor.ReleaseBatch | mrv_executor/src/lib.rs:255-271 | Forgets exactly this batch and its AUFs, and the floor is again the least active round although it is recomputed only on demand |
| Conservation.DeliverKeeps | mrv_executor/src/lib.rs:105-137 | One input keeps: visibility exact, released slices permutations of the first batches, the rest waiting whole, and the lowest waiting batch blocked |
| Conservation.RunKeeps | mrv_executor/src/lib.rs:96-103 | Every legal run, of any length, has all of these properties |
| Conservation.SliceLocalConservation | mrv_executor/src/lib.rs:210-244 | After any run the output is, in index order, one permutation of each batch of a prefix of the inputs; nothing is lost, duplicated or moved between batches |
| Conservation.BoundedWaiting | mrv_executor/src/lib.rs:226-233 | After any run the lowest waiting batch has a member whose cap is ahead of the frontier and that fewer than 2f+1 creators saw in every round |
| Pipeline.ConsensusFeedsExecutor | consensus/src/lib.rs:212-221 | The batches a node commits meet every condition the executor puts on its input |
| Pipeline.ExecutesWhatWasCommitted | mrv_executor/src/lib.rs:96-137 | End to end: the executor outputs permutations of the committed batches, in commit order, without any certificate twice |
| ReliableSender.WithoutCancelledKeeps | network/src/reliable_sender.rs:175-175 | Purging keeps arrival order and drops exactly the cancelled messages |
| ReliableSender.Connection.ReceiveWhileWaiting | network/src/reliable_sender.rs:173-176 | While disconnected a message joins the end of the queue and cancelled ones are purged |
| ReliableSender.Connection.ReceiveConnected | network/src/reliable_sender.rs:216-219 | While connected a message joins the end of the queue |
| ReliableSender.Connection.Flush | network/src/reliable_sender.rs:193-212 | Exactly the messages not cancelled are written, in order, up to the write that fails; each of them waits for its reply; if none fails nothing is left in the buffer, otherwise the queue is what it was without the cancelled messages passed over |
| ReliableSender.Connection.Response | network/src/reliable_sender.rs:220-237 | The k-th reply of a connection resolves the k-th message written on it and removes exactly that one; any failure keeps the queue |
| ReliableSender.Connection.DeliverAll | network/src/reliable_sender.rs:185-247 | On a connection without failures every accepted message is written in order and acknowledged, unless it was cancelled, and the k-th reply goes to the k-th of them |
| ReliableSender.Connection.Disconnect | network/src/reliable_sender.rs:241-246 | Putting unacknowledged messages back restores the queue in arrival order |
| ReliableSender.PurgeKeeps | network/src/reliable_sender.rs:173-176 | Accepting and purging keeps the queue equal to the accepted messages in arrival order, missing only acknowledged or cancelled ones |
| ReliableSender.SkipKeeps | network/src/reliable_sender.rs:194-197 | Passing over a cancelled message keeps the same account of the queue |

## Left out

- Core.Core.ProcessHeader: whether the payload is here is a parameter, since the payload store belongs to the worker; the header store is write-only here and is not modelled.
- Core.Core.ProcessVote: a failing `expect` is an outcome of the model (`Panic`) after which the run ends; it is characterized exactly, and can happen once the current header is older than the garbage-collected round.
- Core.Core.ResumeHeader: an own header that was suspended and is no longer the current one is excluded; the proposer builds own headers from parents the core has stored, and is not part of this model.
- CertifiedDag.CertificateUnique: restarts are outside, because `last_voted` lives in memory only.
- MrvExecutor.MrvExecutor.OnCommittedBatch: a closed output channel, which ends the task in the middle of a batch, is not modelled.
- MrvExecutor.MrvExecutor.constructor: saturating addition at the top of the round range (mrv_executor/src/lib.rs:202) is plain addition on unbounded rounds.
- Consensus.Consensus.Process: for a genesis certificate the subtraction at consensus/src/lib.rs:132 wraps around, as in a build without overflow checks; a build with them stops there. The core's verification accepts genesis certificates from the network (primary/src/messages.rs:190-193) and the core passes them on, so one can arrive after its clean-up, like any other certificate.
- Agreement.FeedConsensus: equality with genesis does not look at parents (primary/src/messages.rs:249-255), so a certificate that passes for genesis may name some; a delivery of that kind is excluded.
- Consensus.BatchesAgreeAboveFloor: below the previous leader's round batches of two nodes can differ, since cleanup may drop certificates of an author that were never committed (consensus/src/lib.rs:66); nothing is claimed there.
- Ancestry.AncestryKept: README.md:19 of the repository speaks of causal constraints in the executor's order. The code sorts by verdicts and tie-break only, so the constraint holds exactly under the condition stated. For two mature certificates over a history that is not complete only the pairwise `Fairness.DescendantNeverWins` is proved.
- Two tests of the executor never decide anything, and the model keeps that as a proof: the comparison of frontier and batch horizon (mrv_executor/src/lib.rs:231-233) and the removal of an empty batch (219-222). The same holds for the empty-batch test of consensus (consensus/src/lib.rs:182-184).
- ReliableSender.Connection.Flush: how many writes succeed before one fails is a parameter.
- Numeric widths: stakes and rounds are unbounded, so overflow of stake sums and of twice the total stake is not modelled.
- Tokio tasks, channels, timers and `select!`: each turn of a loop is one method call with an arbitrary input, and a send is an append to a sequence. A failed send is modelled only where the source goes on after it.
- TCP framing, bincode, ed25519 and SHA-512, base64.
- The RocksDB store and its notifications: a map in which a read sees every earlier write; read and write failures are left out.
- The header and certificate waiters beyond the set of what they hold, the proposer, the payload receiver, the helper and all of the worker crate: retry timing and plumbing.
- Retry delays, reconnect timing and the best-effort sender of the network crate.
- Eventual commitment by Tusk and any bound on time: only the executor's waiting condition is stated.
- The Python benchmark, log parsing, configuration files and the node's command line.
