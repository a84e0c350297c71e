# Verified model of the Tower graph, learning, stream and sign-in cores

This project models the stateful cores of the Tower backend in Dafny and proves what they guarantee over every
input and every run. `dafny verify dfyconfig.toml` checks all of it.

Code that changes state step by step is a class or a method with loops, proved equal to a specification function on
the old state (`State() == Step(old(State()), ...)`, or an explicit description of the result); the lemmas are about
those specification functions and about sequences of them. A database transaction is one step that changes nothing
when it throws; a table is a map by key, or a sequence where its order is observable. Clock readings, fresh random
texts, the outcome of signature checks and the learner a delegation selects are parameters of the steps. SHA-256 and
the canonical JSON text under it are injective constructors (`Digest`, `Sha256`).

| component | modules |
|---|---|
| native graph rows, repository deltas, checkpoints | `GraphStore`, `GraphDatabase`, `GraphRows`, `DeltaTheorems`, `DeltaContents`, `DeltaRuns`, `ForeignEdges` |
| depth-first searches, learning path, issues, walk, merge | `Digraph`, `DepthFirst`, `Curriculum`, `CycleSearch`, `GraphIssues`, `BoundedWalk`, `Keyed`, `ResearchGraph` |
| stage, review and publish; card availability | `Publication`, `PublicationRuns`, `PublicationTiming`, `PublicationFork`, `AssessmentCards` |
| event hub and stream route | `SseHub`, `SseDelivery`, `SseAccounting` |
| sign-in code flow | `TransientStore`, `OidcFlow`, `OidcRuns` |
| evidence and mastery | `Mastery`, `LearningRecords`, `MasteryRuns` |
| `.env` parser and printer | `EnvFile`, `EnvRoundTrip` |
| shared lists, strings, options | `Lists`, `Text`, `Wrappers` |

## Where the code differs from what one would expect

- `docs/pg_graph.md:21` and `:38` require both endpoints of an edge to carry the repository's prefix. The code
  (`src/graph/service.ts:1088-1091`) only asks for the corpus, and the model follows it. `EndpointsNeedOnlyTheCorpus`
  states the exact condition; `ForeignEdgeKeepsItsEnds` states what such an edge then does to the other repository.
- `docs/pg_graph.md:32` says that a full rebuild may replace a checkpoint. It can never return a repository to a head it
  had before: the audit row of the old head is still there and its key collides (`OldHeadsNeverReturn`).
- Published versions form one chain exactly when every publication but the last sorts after those before it
  (`LinearIffInOrder`). The sort key is when the publishing transaction began. A transaction that publishes a candidate
  and began before the one that published the candidate's base, because it was held up before it asked for the lock or
  the clock stepped back, does not become the latest version, so a second candidate is published on the same base
  (`PublicationsMayFork`, with the run `AForkingRun`). If each publication begins after the review of its candidate, the
  versions form one chain in every run (`PromptRunsAreLinear`).
- The empty-candidate check is exact on merged graphs, but an untouched, hand-ordered seed makes even an empty
  addition look new (`DigestUnchangedIff`, `EmptyAdditionLooksNew`, `EmptyCheckIff`).
- The cycle search starts from the listed concepts, so a prerequisite cycle among unknown ids is not reported; where every
  relation starts at a known concept nothing is missed (`EveryCycleIsFound`).
- `canReplay` refuses exactly one cursor needlessly, that of the event evicted last (`NeedlesslyRefusedIff`), and it
  accepts a cursor from the future, which then counts as now (`CursorIsTheStart`).
- Removing a client a second time takes a connection off the user's other clients; `RemovalIsAccurateIff` gives the exact
  condition under which the counters stay right.
- The `.env` round trip holds exactly for entries a line can hold (`RoundTripIff`).

## Model

| member | source | states |
|---|---|---|
| GraphDatabase.NativeGraph.UpsertNodeRows | src/graph/service.ts:670-741 | The node loop leaves what upserting the entries one after another in order leaves. |
| GraphDatabase.NativeGraph.UpsertEdgeRows | src/graph/service.ts:764-838 | The edge loop stops at the first entry with a missing endpoint and reports it; otherwise it leaves what upserting in order leaves. |
| GraphDatabase.NativeGraph.BulkUpsertNodes | src/graph/service.ts:898-921 | Either every node is written, or the first invalid entry is reported and nothing changes. |
| GraphDatabase.NativeGraph.BulkUpsertEdges | src/graph/service.ts:923-953 | Either every edge is written, or the first failure is reported and nothing changes. |
| GraphDatabase.NativeGraph.ImportNativeGraph | src/graph/service.ts:955-1053 | Nodes, edges and the run row are written together or not at all; a used run id is overwritten. |
| GraphDatabase.NativeGraph.ApplyRepositoryDelta | src/graph/service.ts:1109-1291 | The outcome, the tables, the audit rows and the checkpoint after a delta, for every branch: invalid, replayed, stale, blocked, missing endpoint, used head, committed. |
| GraphDatabase.NativeGraph.DeleteNamedEdges | src/graph/service.ts:1169-1186 | Which edges the two explicit deletions leave, and how many rows they removed. |
| GraphDatabase.NativeGraph.DeleteRows | src/graph/service.ts:1188-1227 | The deletion phase refuses exactly when an edge of another repository would be swept, and otherwise leaves the cleared tables and the right counts. |
| GraphRows.LabelsAreNormal | src/graph/service.ts:623-626 | Stored labels are the trimmed non-blank ones, each once, in order. |
| GraphRows.LabelsAgreeIff | src/graph/service.ts:623-626 | Two label lists are stored alike exactly when they name the same labels. |
| GraphRows.LastEntryDecidesNode | src/graph/service.ts:670-741 | The last entry of a batch that names a property or replaces all of them decides its value on a node. |
| GraphRows.UndecidedNodeValue | src/graph/service.ts:670-741 | A node property that no entry of a batch decides stays as it was. |
| GraphRows.LastEntryDecidesEdge | src/graph/service.ts:764-838 | The same for edge properties: the last deciding entry wins. |
| GraphRows.UndecidedEdgeValue | src/graph/service.ts:764-838 | An edge property that no entry decides stays as it was. |
| GraphRows.CommitMarksItsRows | src/graph/service.ts:1131-1232 | Every listed row of a committed delta carries that commit's run id, and rows of other repositories keep theirs. |
| DeltaTheorems.PutNodesFrame | src/graph/service.ts:670-741 | Upserting nodes adds exactly the listed ids, keeps surrogate ids and leaves unlisted rows and all edges alone. |
| DeltaTheorems.PutEdgesFrame | src/graph/service.ts:764-838 | Upserting edges succeeds exactly when every endpoint exists, and then adds exactly the listed ids. |
| DeltaTheorems.ReferentialIntegrity | src/graph/service.ts:764-780 | After any sequence of node and edge upserts, imports and deltas from the empty store, both ends of every edge are existing node rows and surrogate ids are unique. |
| DeltaTheorems.ClearedKeepsIntegrity | src/graph/service.ts:1188-1227 | The incident-edge sweep before deleting nodes leaves no dangling edge. |
| DeltaTheorems.DeltaIsLocal | src/graph/service.ts:1164-1232 | No delta adds, removes or alters a node or edge whose id lacks its repository's prefix. |
| DeltaTheorems.DeltaMovesOneCheckpoint | src/graph/service.ts:1257-1275 | A delta leaves the checkpoint of every other repository alone. |
| DeltaTheorems.RepositoriesOwnDisjointIds | src/graph/service.ts:1055-1063 | Two different corpus and repository pairs own disjoint id sets, because names cannot contain a colon. |
| DeltaTheorems.RunIdsAreInjective | src/graph/service.ts:1131 | The audit key determines the repository and the head. |
| DeltaTheorems.CommitsExactlyWhen | src/graph/service.ts:1118-1276 | A delta commits if and only if it is valid, its head is new to the checkpoint, its base is current (incremental), it is not blocked, every endpoint remains or is written, and its audit key is unused. |
| DeltaTheorems.FirstRebuildCommits | src/graph/service.ts:1158-1276 | A valid rebuild whose edges stay among its own nodes always establishes the first checkpoint of an empty store. |
| DeltaTheorems.CountsAreRowsDeleted | src/graph/service.ts:1169-1240 | The reported deletion counts are the rows that disappeared before anything was written back. |
| DeltaContents.RebuildReachesPayload | src/graph/service.ts:1164-1232 | After a full rebuild the repository holds exactly the listed node and edge ids, and with replaced properties exactly the listed contents and endpoints. |
| DeltaContents.RebuildForgetsThePast | src/graph/service.ts:1164-1232 | A replacing rebuild reaches the same contents from any two earlier states. |
| DeltaContents.DifferenceCommits | src/graph/service.ts:1151-1211 | Where a rebuild would commit, so does the incremental delta that is the difference to it, given the current base and a new head. |
| DeltaContents.DifferenceEqualsRebuild | src/graph/service.ts:1164-1232 | That incremental delta reaches the same contents as the rebuild. |
| DeltaRuns.CheckpointChain | src/graph/service.ts:1137-1162 | Over every run the checkpoint is the last committed head, a first commit is a rebuild, an incremental commit has the previous head as base, and heads never repeat. |
| DeltaRuns.RetryIsReplay | src/graph/service.ts:1151-1157 | Sending a committed delta again changes nothing and returns zero counts. |
| DeltaRuns.OldHeadsNeverReturn | src/graph/service.ts:1247-1256 | A delta naming an earlier head never commits and changes nothing, in any mode. |
| ForeignEdges.ForeignEdgeKeepsItsEnds | src/graph/service.ts:1196-1211 | No delta deletes or re-creates a node at which an edge of another repository ends. |
| ForeignEdges.EndpointsNeedOnlyTheCorpus | src/graph/service.ts:1077-1091 | Leading an edge to another node keeps a delta valid if and only if that node's id starts with the corpus prefix. |
| Digraph.OrderExcludesCycles | src/learning/curriculum.ts:47-57 | No cycle passes through an id listed after all its successors. |
| DepthFirst.SearchIsComplete | src/learning/curriculum.ts:47-58 | A finished search has listed exactly the reachable nodes, reported exactly the reachable ids without a node, and reported a cycle exactly when one can be reached. |
| Curriculum.Walk.Visit | src/learning/curriculum.ts:47-57 | A visit keeps the branch and finished-set invariants, only extends what was collected and accounts for its id; it terminates on the ids neither visiting nor visited. |
| Curriculum.Walk.VisitAll | src/learning/curriculum.ts:53 | The loop over prerequisites accounts for each of them. |
| Curriculum.Search | src/learning/curriculum.ts:41-58 | What the search from a goal collects: the reachable ids with and without a node, and real closed paths, one if and only if a cycle is reachable. |
| Curriculum.LearningPath | src/learning/curriculum.ts:40-60 | The report: duplicate-free order that is exactly the goal's closure and ends with the goal, sorted missing ids, cycles empty if and only if none is reachable, and in a valid report every concept after all its prerequisites. |
| CycleSearch.FindCycles | src/learning/research-graph.ts:158-162 | Only ids on a real prerequisite cycle are reported, and some id is whenever a cycle can be reached from a root. |
| GraphIssues.Issues | src/learning/research-graph.ts:139-164 | Each issue once; every issue other than a cycle if and only if the graph has it; a cycle issue if and only if a cycle is reachable from a concept; no issue if and only if the graph is publishable. |
| GraphIssues.EveryCycleIsFound | src/learning/research-graph.ts:158-163 | Where relations start at known concepts, the cycles the search can see are all prerequisite cycles. |
| GraphIssues.PublishableIff | src/learning/research-graph.ts:139-164 | No issue of any kind is equivalent to valid, unique, supported records without a prerequisite cycle. |
| BoundedWalk.Expand | src/learning/research-graph.ts:183-186 | The inner loop adds only neighbours, never exceeds the limit, and adds all of them while there is room. |
| BoundedWalk.Walk | src/learning/research-graph.ts:177-190 | At most `limit` ids, within `depth` hops, comparable with every ball around the start; not truncated only when it is the whole ball; truncated exactly when the ball has at least `limit` ids; the relations are those with both ends inside. |
| Keyed.MergeLists | src/learning/research-graph.ts:167-171 | The insertion-ordered map loop computes the merge, or the first id carrying two contents. |
| Keyed.MergeRowsIsSortedUnion | src/learning/research-graph.ts:167-171 | Merging succeeds if and only if no id carries two contents, and yields the union in strict id order. |
| ResearchGraph.MergeGraph | src/learning/research-graph.ts:166-175 | The merged graph, or the first conflicting id of sources, concepts or relations. |
| ResearchGraph.MergeIsCanonicalUnion | src/learning/research-graph.ts:166-175 | A merge succeeds if and only if nothing conflicts, and holds exactly the union, sorted and duplicate-free. |
| ResearchGraph.MergeIsIdempotent | src/learning/research-graph.ts:166-175 | Merging the same addition twice equals merging it once. |
| ResearchGraph.MergesCommute | src/learning/research-graph.ts:166-175 | Two additions that merge in one order merge in the other, with the same result. |
| ResearchGraph.DigestUnchangedIff | src/learning/research-graph.ts:135-136 | The hash is unchanged if and only if the base is in canonical form and the addition contributes nothing. |
| ResearchGraph.EmptyAdditionLooksNew | src/routes/learning-research.ts:117 | On any base with unique ids an empty addition changes the hash if and only if the base is not in canonical form. |
| ResearchGraph.SeedOrderIsNotCanonical | src/learning/research-graph.ts:38-40 | Two concepts in the order the seed lists them are not in canonical form. |
| Publication.ResearchDesk.StageCandidate | src/routes/learning-research.ts:76-100 | The reply and the candidate table after staging, for every branch. |
| Publication.ResearchDesk.ReviewCandidate | src/routes/learning-research.ts:101-121 | The reply and the candidate table after a review, for every branch. |
| Publication.ResearchDesk.PublishCandidate | src/routes/learning-research.ts:122-147 | The reply and both tables after a publication, for every branch. |
| PublicationRuns.EveryRunIsSound | src/routes/learning-research.ts:76-147 | In every run from a publishable seed each version is publishable, was merged onto a version that was latest at the time, names are unique, and reviewers differ from stagers. |
| PublicationRuns.EverythingIsByCurators | src/routes/learning-research.ts:76-124 | In every run the stager and reviewer of each candidate, and the reviewer of each version after the seed, are curators. |
| PublicationRuns.OthersChangeNothing | src/routes/learning-research.ts:76-124 | At any point of any run a request of anybody but a curator is refused and changes nothing. |
| PublicationRuns.VersionsAreAppendOnly | src/schema/learning-research-v1.ts:29-33 | Every run only appends versions. |
| PublicationRuns.RunMovesForward | src/routes/learning-research.ts:101-147 | A candidate's status only moves forward, and its base, addition, stager and merged graph never change. |
| PublicationRuns.ReviewedIsPublished | src/routes/learning-research.ts:117-145 | Whatever happens in between, the hash published is the hash returned at review, and the reviewer is not the stager. |
| PublicationRuns.LinearIffInOrder | src/learning/research-storage.ts:14-20 | The versions form one chain if and only if every publication but the last sorts after those before it. |
| PublicationTiming.PromptRunsAreLinear | src/routes/learning-research.ts:122-147 | In every run whose publications each begin after the review of their candidate the versions form one chain, in order of their times. |
| PublicationRuns.LaterVersionsInclude | src/learning/research-graph.ts:166-175 | On a chain every version keeps every record of every earlier one, field for field. |
| PublicationRuns.EveryVersionIncludesTheSeed | src/learning/research-graph.ts:166-175 | With or without a fork every version keeps every record of the seed. |
| PublicationRuns.OnePublicationPerBase | src/routes/learning-research.ts:132-134 | On a chain at most one candidate is published per base version. |
| PublicationRuns.EmptyCheckIff | src/routes/learning-research.ts:117 | A review refuses a candidate as empty if and only if the latest graph is canonical and already has every record of the addition. |
| PublicationRuns.OnlyTheSeedMayBeUnsorted | src/routes/learning-research.ts:133-143 | Every version after the seed is in canonical form. |
| PublicationFork.PublicationsMayFork | src/schema/learning-research-v1.ts:10 | For any seed and additions that pass review: if the transaction publishing one candidate began before the one that published its base, a second candidate is published on that base and the versions fork. |
| PublicationFork.AForkingRun | src/schema/learning-research-v1.ts:10 | A run of nine requests, all after the seed, that ends in such a fork. |
| AssessmentCards.AvailableCardStays | src/learning/assessment-cards.ts:56-72 | A card available on a graph is available, unchanged, on every graph that keeps its records. |
| AssessmentCards.CardsSurvivePublication | src/learning/assessment-cards.ts:56-72 | On a chain a card available at one version is available at every later one. |
| AssessmentCards.SeedCardsStayAvailable | src/learning/assessment-cards.ts:56-72 | A card available at the seed is available at every version, even where versions fork. |
| SseHub.SSEHub.AddClient | src/sse-hub.ts:71-88 | The client joins its workspace's list once, and its user's count goes up. |
| SseHub.SSEHub.RemoveClient | src/sse-hub.ts:90-112 | The stream is closed, the client forgotten, and the user's count goes down or disappears. |
| SseHub.SSEHub.Emit | src/sse-hub.ts:116-140 | The next id, the frozen audience, the buffer with its oldest events evicted, and the fan-out with failing clients removed. |
| SseHub.SSEHub.ReplayFrom | src/sse-hub.ts:149-160 | The stream gains the buffered ids after the cursor that are meant for the client. |
| SseHub.SSEHub.Connect | src/routes/stream.ts:97-135 | Nothing changes unless both limits allow it; otherwise the client is registered and replay follows exactly when the cursor can be replayed. |
| SseDelivery.EveryRunIsGood | src/sse-hub.ts:116-160 | In every run ids are consecutive, the buffer is the last stretch of the history, and each open registered stream holds exactly what is due to it. |
| SseDelivery.ReplayIsComplete | src/sse-hub.ts:144-160 | When a cursor can be replayed, replaying the buffer equals replaying all of history. |
| SseDelivery.ExactlyOnceInOrder | src/sse-hub.ts:116-160 | A stream holds strictly increasing ids, exactly the visible ones of its workspace since its start while it is open, and an initial part of them afterwards. |
| SseDelivery.CursorIsTheStart | src/routes/stream.ts:123-135 | A replayable cursor issued in this run is where the stream starts. |
| SseDelivery.LosslessIff | src/sse-hub.ts:144-147 | All events after a cursor are buffered if and only if the cursor is no more than one behind the oldest buffered id. |
| SseDelivery.NeedlesslyRefusedIff | src/sse-hub.ts:144-147 | Every replayable cursor is lossless, and a lossless one is refused if and only if it is that of the event evicted last. |
| SseDelivery.ReconnectSplices | src/routes/stream.ts:123-150 | A finished connection and its successor, opened from the last id received while that can be replayed, hold together at any later time exactly what one unbroken stream would hold. |
| SseAccounting.RemovalIsAccurateIff | src/sse-hub.ts:104-111 | Removal keeps the counters right if and only if the client is registered or its user has no registered client. |
| SseAccounting.CountsAreExact | src/sse-hub.ts:59-112 | In every run that removes only registered clients each counter is the number of the user's registered clients, none is zero, and no limit is exceeded. |
| TransientStore.Store.StoreTransient | src/routes/git-oidc.ts:21-34 | The two eviction loops and the insertion leave exactly the specified entries. |
| TransientStore.StoringStaysWithinCapacity | src/routes/git-oidc.ts:21-34 | The new entry is stored, nothing is invented and the store stays within its capacity. |
| TransientStore.OnlyTheOldestLiveEntryIsEvicted | src/routes/git-oidc.ts:22-32 | A live entry is lost only from a full store without an expired entry, and it is the oldest. |
| OidcFlow.OidcServer.HandleAuthorize | src/routes/git-oidc.ts:102-117 | The reply and the challenge stored by an authorize request. |
| OidcFlow.OidcServer.BeginCompletion | src/routes/git-oidc.ts:119-130 | The stretch before the identity lookup uses up the challenge in every case and decides on the proof. |
| OidcFlow.OidcServer.ResolveIdentity | src/services/forgejo-login-identity.ts:22-44 | Only an allowed signer is resolved, to the identity first recorded for it. |
| OidcFlow.OidcServer.FinishCompletion | src/routes/git-oidc.ts:131-137 | The stretch after the lookup stores a code only for a resolved actor. |
| OidcFlow.OidcServer.HandleToken | src/routes/git-oidc.ts:139-150 | An authenticated exchange uses up the code in every case, and stores a token only for a usable grant. |
| OidcFlow.OidcServer.HandleUserInfo | src/routes/git-oidc.ts:152-158 | The actor of a live token; an expired one is forgotten. |
| OidcRuns.EveryRunIsSound | src/routes/git-oidc.ts:102-158 | Under any interleaving every stored challenge, code and token was issued as recorded, every request was one the configuration allows, every completion has a genuine proof made for its request, every code stands for what the signer of that proof is resolved to, and nothing was handed out twice. |
| OidcRuns.SingleUse | src/routes/git-oidc.ts:123-143 | Each challenge yields at most one code and each code at most one access token. |
| OidcRuns.TokensAreTraced | src/routes/git-oidc.ts:102-150 | Every token goes back to one allowed authorize request, to one genuine proof with that request's nonce, client and expiry, accepted in its minute, whose allowed signer is resolved to the token's actor, and to one exchange in the same minute with the same redirect address and a matching verifier (section 4.1.2 of RFC 6749, section 4.6 of RFC 7636). |
| OidcRuns.UserInfoIsTraced | src/routes/git-oidc.ts:152-158 | The identity a token is answered with is that of the signer behind it, within the lifetime of the token. |
| OidcRuns.OneActorPerSigner | src/services/forgejo-login-identity.ts:24-36 | Tokens of one signer speak for the same actor, whatever happens in between. |
| OidcRuns.StoresStayBounded | src/routes/git-oidc.ts:21-34 | No store exceeds its capacity in any run. |
| Mastery.Group | src/learning/state.ts:5-6 | The grouping loop gives each concept its rows in order, and the concepts as first met. |
| Mastery.JudgeAll | src/learning/state.ts:7-15 | The listed standings, one per concept in the given order, each judged on its rows in order of time. |
| Mastery.Derive | src/learning/state.ts:4-17 | The listed standings: one per concept, judged on its rows in order of time, by concept. |
| Mastery.OrderOfRowsDoesNotMatter | src/learning/state.ts:4-17 | With distinct times within each concept, the standings are the same for every ordering of the rows. |
| LearningRecords.LearningDesk.IssueAttempt | src/routes/learning.ts:235-252 | The refusal or the new attempt: one open attempt per concept and kind, and recalls only when due. |
| LearningRecords.LearningDesk.SubmitAnswer | src/routes/learning.ts:256-274 | The attempt is closed and its evidence recorded together, or nothing changes. |
| LearningRecords.LearningDesk.ReviewEvidence | src/routes/learning.ts:278-300 | The refusal or the new review: not of one's own submission, and not twice. |
| MasteryRuns.EveryRunIsSound | src/routes/learning.ts:235-300 | In every run at most one attempt is open per learner, concept and kind, submitted attempts and evidence correspond one to one, and every review is of another's submission, once per reviewer. |
| MasteryRuns.SubmittedOnlyOnce | src/schema/learning-v1.ts:109 | An attempt that has evidence cannot be answered again. |
| MasteryRuns.LatestReviewMeans | src/routes/learning.ts:172-174 | The lateral lookup finds the last review of an evidence row, or none when there is none. |
| MasteryRuns.RememberedIffEarned | src/routes/learning.ts:169-175 | After any run a concept is remembered if and only if the latest assessment is endorsed and the latest counting recall, a day or more later, is endorsed too; endorsed means last reviewed with an approval by someone other than the submitter. |
| MasteryRuns.DemonstratedIff | src/learning/state.ts:8-12 | After any run a concept is demonstrated if and only if the latest assessment is endorsed and no recall counts. |
| MasteryRuns.RecallIssuedIffDue | src/routes/learning.ts:235-252 | After any run a recall is issued if and only if none is open, its id is unused and one is due: the latest assessment is endorsed and a day (a week after a successful recall) has passed since it or since the last counting recall; it is refused as not due if and only if none is open and none is due. |
| MasteryRuns.RecallsWereDue | src/routes/learning.ts:241-244 | Every recall attempt on record was due when it was issued. |
| EnvFile.File.ParseEnvFile | src/identity.ts:25-40 | The entries of the file, later lines overriding earlier ones in place. |
| EnvFile.File.RewriteLines | src/identity.ts:47-68 | The old lines with new values, and the set of keys they held. |
| EnvFile.File.AppendLines | src/identity.ts:70-75 | A line for every entry whose key the file did not hold, in order. |
| EnvFile.File.WriteEnvFile | src/identity.ts:42-80 | The text written over the old one. |
| EnvRoundTrip.SplitJoin | src/identity.ts:30-78 | Splitting joined lines gives the lines back. |
| EnvRoundTrip.ParseOfPrint | src/identity.ts:25-80 | Parsing what was written gives the old entries overridden by the written ones: keys keep their places, new keys follow in order. |
| EnvRoundTrip.RoundTripIff | src/identity.ts:25-80 | That holds if and only if every entry is trimmed, on one line, with a key that has no equals sign and does not start a comment. |
| EnvRoundTrip.LinesStay | src/identity.ts:47-68 | Unrelated lines and comments stay where they are; a line that holds a written key is replaced in place. |
| EnvRoundTrip.PrintTwice | src/identity.ts:42-80 | Writing the same entries again leaves the text unchanged. |

## Left out

Graph store:

- Row-level security, scope and source resolution and locks: one scope and one source, one transaction at a time.
- Schema snapshots, the node-label table, timestamps and stored metadata: written beside the rows, never read back here.
- The id of the offending edge in the cross-repository error: the query takes an arbitrary one.
- Search, listing, neighbourhood queries and serializers: database evaluation.

Research graph and publication:

- Malformed JSON shapes, null rows and fields beyond the declared ones: records have their declared fields.
- The order of the issue list, and the candidate size limit.
- `localeCompare` and database collation: strings are ordered by code point.
- Calendar dates are checked by a calendar rather than by `Date.parse`.
- The text of cards and the seed: a library and a seed graph are parameters.

Event hub and stream:

- Event names and payloads, heartbeats and the lifetime timer: a timer is a removal that can happen at any step.
- A stream that failed once keeps failing, and none fails in the middle of its own replay.
- `SseAccounting.CountsAreExact`: assumes that only registered clients are removed, because the code decrements in any case.

Code flow:

- Signature checks, token signing, encodings and HTTP details: the proof's fields and its validity are parameters.
- The account tables the identity lookup reads for a signer seen for the first time: what they say is a parameter.
- Fresh texts are never drawn twice, and one clock reading serves each synchronous stretch.

Evidence and mastery:

- Delegations and roles: the learner they select is a parameter. Rubric scoring: the result is a parameter.
- Views, plans, lessons, the overlay and the wording of prompts.
- Two requests whose transactions overlap: the open-attempt check has no lock, so it is one step here. Times need not increase.
- Times are whole milliseconds.

Throughout:

- Integer widths: counters and ids are unbounded.
- `.env` files: the file system beyond one file, and the key pair that is stored in it.
