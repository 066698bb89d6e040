# Verified models of the Typeflux console, MCP server and tooling kernels

This Dafny project models the algorithms and small asynchronous protocols of the repository whose
correctness does not show in any single function, and proves what they are for. `dafny verify
dfyconfig.toml` checks everything.

Every modelled operation that changes state in the source is a method here, proved against a specification: a
graph-theoretic definition, a step function of a state machine, or a pure function whose laws are proved
as lemmas. Asynchronous code is a state machine whose events are the stretches between two `await`s, so a
run is any interleaving; the class beside it makes the same changes in place, and each of its methods is
proved to take exactly the corresponding step.

| files | what they model |
|---|---|
| `TopologyPrecedence`, `TopologyRank`, `TopologyLanes`, `TopologyRows`, `TopologyLayout`, `TopologyGeometry`, `TopologyPicture` | the console's workflow layout: expansion of nested joins, longest-path ranks, branch lanes, rows, review lanes and back-edge channels |
| `HttpSessions`, `HttpRuns`, `HttpAnswers`, `HttpTransport` | the Streamable-HTTP listener: session map, reserved slots, idle sweep, prepare gate |
| `Text`, `JsonMasking`, `JsonDiff`, `JsonPlaces`, `JsonReplay` | the conformance runner: JSON Pointers, masking, the structural diff, recording and replaying goldens |
| `LazyBackend` | the memoized backend with exponential backoff and terminal disposal |
| `StatusSubscriptions`, `StatusRuns`, `StatusProgress`, `StatusWatches` | the status poll chains: subscribe, unsubscribe, re-subscribe, shutdown, all while calls are in flight |
| `TaskLedger` | the append-only task journal: hash chain, task states, external-effect protocol, resume |
| `ImpactWalk`, `ImpactReport` | the project-graph walk, impact over two revisions, aggregation of a CI run |
| `CompositionChain` | the `extends` chain of a policy |
| `BatchFraming` | reading back the output of `git cat-file --batch` |
| `Fence` | the backtick fence around untrusted prompt content |
| `Prelude`, `Graphs`, `StableSorting` | shared definitions: walks and cycles in graphs, stable sorting, options and results |

## Findings

Where the code does not do what its comments or design say, the model follows the code. For each case there
is a concrete input and the exact condition under which the code does do it.

- **Not every node of a cycle falls back to its input index** (`clients/console/src/topology.ts:179-181`). The fallback
  reaches the nodes on which a cycle *closes* while ranks are computed. For two steps that follow each other
  the second keeps rank 0 at position 1 (`TopologyRank.SecondOfTwoKeepsItsRank`). On every cycle without
  self-edges some node keeps its rank (`SomeNodeKeepsItsRank`), so where no node precedes itself all nodes on
  cycles fall back if and only if there is no cycle (`AllFallBackIffAcyclic`).
- **Back-edge channels can run into the review lanes** (`clients/console/src/topology.ts:269-274`, `374-378`). The band is
  sized for edges that go strictly left, but an edge between two nodes of one column takes a channel too
  (`TopologyGeometry.ChannelsCanReachLanes` is such an input). On an acyclic precedence all channels stay clear if
  and only if at most five branches end at the depth of their own join, or three when none ends deeper
  (`ChannelsToldFromInput`); they always do when every branch ends on a step its join leads to
  (`WellFormedBranchesKeepClear`). On any graph the limit is that of `ChannelsAboveLanes`.
- **A session factory that throws keeps its reserved slot** (`clients/mcp/src/http-transport.ts:257-275`). The slot is
  taken before the factory runs, and nothing releases it if the factory, or the transport constructor after
  it, throws. Slots come back if and only if that never happened (`HttpRuns.SlotsReturnUnlessFactoryThrew`);
  `ThrowsCloseTheListener` is the run of `maxSessions` throws after which no session is ever admitted again.
- **A reply batched with a request waits for the gate that waits for it** (`clients/mcp/src/http-transport.ts:80-92`). A
  body is held back when any of its messages is a request. While `prepare` waits for a client's reply, the
  session can still be finished if and only if no message of the reply's body is a request
  (`HttpRuns.PrepareFinishesIffReplyUnbatched`); `BatchedReplyIsStuck` is a run that ends in such a deadlock.
- **A document with a NaN differs from itself** (`contracts/controlplane/conformance/runner.py:117-120`), so a golden recorded
  from it fails (`JsonReplay.NaNGoldenFails`). A recorded golden passes if and only if no NaN is left in it
  (`JsonReplay.RecordedGoldenReplays`, `JsonDiff.EquivalentReflexive`).
- **`append` accepts an effect whose key cannot be a dictionary key** (`tools/project_graph/records.py:97-103`), and the
  journal can then no longer be resumed: `TaskLedger.ListKeyBlocksResume` is such a journal of two events. A
  journal built by `append` can be resumed if and only if every effect key in it is hashable
  (`TaskLedger.GrownIsResumableIffHashable`).

What cycles cost the composition chain (`clients/console/src/governance.ts:156-162`) is a limit rather than a defect: the
comment says they are skipped, and no order puts each of two policies that extend each other before the other
(`CompositionChain.TwoPolicyCycle`). All ancestors come first exactly when no cycle lies among what the root
extends (`AncestorsFirstIffAcyclic`). A cycle can also displace an ancestor that is on none
(`CycleDisplacesAncestor`); what holds on any graph is `LayersComeFirst`.

## Assumptions

- HTTP: the transport constructor and the factory either return or throw synchronously; `onsessioninitialized` fires at
  most once per initialize, inside `handleRequest`, with an unused session id (the source uses `randomUUID`).
- Clocks do not go backwards in `LazyBackend`; times are integer milliseconds.
- `localeCompare` is a parameter: any consistent three-way comparison.
- A digest is any function; the theorem about tampering names the two records that then collide.
- Strings are sequences of characters, and bytes in `BatchFraming` are numbers below 256.

## Model

| member | source | states |
|---|---|---|
| TopologyPrecedence.FinishWalk.FinishNodes | clients/console/src/topology.ts:137-143 | The recursive expansion, with its shared seen-set mutated in place, computes the specified expansion and terminates on malformed collect cycles |
| TopologyPrecedence.FinishExpandsJoin | clients/console/src/topology.ts:125-143 | The expansion of a node reaches only nodes that collect into it, and misses no block end among them, whatever the nesting or cycles |
| TopologyPrecedence.FinishExactly | clients/console/src/topology.ts:137-143 | Conservation: counted with multiplicity, the result is the node plus all entries of the joins below it less those joins, so each join is replaced exactly once |
| TopologyPrecedence.FinishNamesOnlyEnds | clients/console/src/topology.ts:125-143 | The expansion names only block ends if and only if each join it meets is met exactly once, so that neither shared nor circular collecting leaves a join in the result |
| TopologyPrecedence.BuildContinuations | clients/console/src/topology.ts:111-118 | The loop lists under each step what sequential and conditional edges run after it, in order |
| TopologyPrecedence.BuildJoins | clients/console/src/topology.ts:130-136 | The loop lists under each join the sources of its collect edges, in order |
| TopologyPrecedence.AddCollect | clients/console/src/topology.ts:146-150 | One collect edge pushes, for each continuation of its target in turn, every finish node of its source in order |
| TopologyPrecedence.BuildPredecessors | clients/console/src/topology.ts:119-153 | The predecessor lists, entry by entry in the order the source pushes them, and they hold exactly the derived precedence |
| TopologyPrecedence.BlockPrecedesContinuation | clients/console/src/topology.ts:105-110 | Every step that ends a block, at any nesting depth, precedes every step that continues after the block |
| TopologyRank.Ranker.RankOf | clients/console/src/topology.ts:155-176 | The recursion over the shared memo, stack and flags takes exactly the specified step, terminates on every graph and restores the stack |
| TopologyRank.RankKeeps | clients/console/src/topology.ts:155-176 | Every call keeps the memo sound on any graph: longest path where no cycle lies upstream, strictly increasing along every edge except out of a flagged node, and each flagged node without a self-edge finished after a predecessor on its own cycle |
| TopologyRank.RankIsLongest | clients/console/src/topology.ts:167-175 | One more than the best predecessor rank is the length of the longest path ending at the node |
| TopologyRank.RankBelowMemoSize | clients/console/src/topology.ts:155-176 | A memoized rank is realised by a chain of that many different nodes, so it is below the number of nodes even on cyclic graphs |
| TopologyRank.RankAll | clients/console/src/topology.ts:177-178 | Ranking every node in input order gives the specified memo and flags, sound and covering exactly the nodes |
| TopologyRank.FallBack | clients/console/src/topology.ts:179-181 | Exactly the nodes on which a cycle closed take their input index, all others keep their rank |
| TopologyRank.ComputeRanks | clients/console/src/topology.ts:155-181 | Ranks are longest paths wherever no cycle lies upstream, increase along every edge if and only if the graph is acyclic, and stay below the number of nodes |
| TopologyRank.FinishKnown | clients/console/src/topology.ts:97-143 | Expanding a known collect source only ever names known nodes |
| TopologyRank.AdvancesKnown | clients/console/src/topology.ts:97-153 | The derived precedence only joins known nodes |
| TopologyRank.RankNodes | clients/console/src/topology.ts:111-181 | The whole ranking stage gives the specified ranks, and they meet the above against the derived precedence of the input, in any input order |
| TopologyRank.SomeNodeKeepsItsRank | clients/console/src/topology.ts:161-181 | On every cycle whose nodes have no self-edge, some node is not flagged and keeps its memoized rank |
| TopologyRank.AllFallBackIffAcyclic | clients/console/src/topology.ts:177-181 | Where no node precedes itself, all nodes on cycles take their input index if and only if there is no cycle |
| TopologyRank.SecondOfTwoKeepsItsRank | clients/console/src/topology.ts:177-181 | Two steps that follow each other: the second is on the cycle and keeps rank 0 at position 1 |
| TopologyRank.ColumnsFollowTheFlow | clients/console/src/topology.ts:105-181 | On an acyclic precedence every forward edge goes strictly right, and whatever continues after a block is right of every step that ends it |
| TopologyLanes.SeedLanes | clients/console/src/topology.ts:193-209 | The forward adjacency and the first branch index of each target, as the source's maps hold them |
| TopologyLanes.SettledBelowWalk | clients/console/src/topology.ts:204-222 | When the worklist has settled every node, no lane exceeds a lane upstream of it |
| TopologyLanes.VisitNext | clients/console/src/topology.ts:210-222 | One turn of the worklist keeps its invariant and either lowers a lane or shortens the queue |
| TopologyLanes.PropagateLanes | clients/console/src/topology.ts:193-222 | The worklist terminates on every graph; a node has a lane exactly when a branch target reaches it forward, and it is the least such first-branch index |
| TopologyLanes.LanesAreLeast | clients/console/src/topology.ts:184-192 | A settled, justified labelling is the least fixpoint: the lane is the first branch edge that feeds the node |
| TopologyRows.GroupByRank | clients/console/src/topology.ts:225-231 | The groups are the columns in input order |
| TopologyRows.AssignRows | clients/console/src/topology.ts:224-242 | Each node gets its index in its stably sorted column |
| TopologyRows.CompareRowsConsistent | clients/console/src/topology.ts:235-240 | Ordering by lane, nodes without one last, then by id is a consistent comparison |
| TopologyRows.RowsFillColumn | clients/console/src/topology.ts:232-242 | With distinct ids the rows of a column are exactly 0 to k-1, each used once |
| TopologyRows.RowsFollowLanes | clients/console/src/topology.ts:184-192 | One node is above another of its column if and only if its lane is smaller, ties broken by name and then input order |
| TopologyLayout.OverlapIsSameCell | clients/console/src/topology.ts:244-262 | Two boxes on the grid share an interior point exactly when they have the same rank and row |
| TopologyLayout.BoxesOverlapOnlyForRepeatedIds | clients/console/src/topology.ts:247-262 | No two placed boxes overlap if and only if the ids are pairwise different |
| TopologyLayout.PlanNodes | clients/console/src/topology.ts:92-242 | Filtering, ranks and rows of the input, each meeting its own specification |
| TopologyLayout.PlaceNodes | clients/console/src/topology.ts:247-262 | Boxes stand at the column and row of their node; the checkpoints are exactly the sources of review edges |
| TopologyLayout.Measure | clients/console/src/topology.ts:265-288 | The bottom of the deepest row, the counted back-edges and the first lane height |
| TopologyLayout.DrawReviews | clients/console/src/topology.ts:282-311 | One lane per review edge, in the stable order of span and condition, a fixed height apart |
| TopologyLayout.RouteOne | clients/console/src/topology.ts:327-394 | The route of one structure edge: spine, forward detour or the next free channel, and its kind, fall-through included |
| TopologyLayout.RouteStructure | clients/console/src/topology.ts:319-395 | All drawn structure edges in order, each back-edge with the channel of its rank among the back-edges |
| TopologyLayout.ChannelsApart | clients/console/src/topology.ts:374-378 | Two channels are at least one gap apart and below the deepest row |
| TopologyLayout.ChannelsInBand | clients/console/src/topology.ts:269-274 | All channels stay above a height if and only if the band sized for the counted edges holds the used ones |
| TopologyLayout.BandHoldsMeans | clients/console/src/topology.ts:269-288 | The band and the lane gap hold the used channels exactly up to five more than counted, or three when none was counted |
| TopologyLayout.LayoutTopology | clients/console/src/topology.ts:92-405 | The whole layout: plan, boxes, lanes, routes and size all as specified, for every input graph |
| TopologyGeometry.BoxesApart | clients/console/src/topology.ts:247-262 | In the finished layout no two boxes overlap if and only if the node ids are distinct |
| TopologyGeometry.BoxesInside | clients/console/src/topology.ts:397-404 | Every box lies inside width and height with the padding to spare |
| TopologyGeometry.ChannelsBelowNodes | clients/console/src/topology.ts:374-381 | Channels are pairwise different and run below every node |
| TopologyGeometry.ChannelsAboveLanes | clients/console/src/topology.ts:269-288 | All channels run above the first review lane if and only if at most five more are used than counted (three when none is counted) |
| TopologyGeometry.ChannelsClearWithoutEqualRanks | clients/console/src/topology.ts:269-288 | With no drawn structure edge inside one column, every channel is above the first lane |
| TopologyGeometry.ChannelsToldFromInput | clients/console/src/topology.ts:269-288 | On an acyclic precedence every channel is above the first lane if and only if at most five collect edges join nodes of equal longest-walk depth, or three when none goes back |
| TopologyGeometry.WellFormedBranchesKeepClear | clients/console/src/topology.ts:269-288 | On an acyclic precedence in which each join leads to the steps collected into it, every channel is above the first lane |
| TopologyGeometry.ChannelsCanReachLanes | clients/console/src/topology.ts:269-288 | A concrete input on which a channel runs into the lanes |
| TopologyGeometry.EachReviewHasALane | clients/console/src/topology.ts:278-311 | Every review edge gets exactly one lane, and all lanes fit between the nodes and the bottom |
| TopologyGeometry.SpansInOrder | clients/console/src/topology.ts:278-287 | Shorter routes take the lanes nearer the nodes |
| TopologyGeometry.CompareSpansConsistent | clients/console/src/topology.ts:282-287 | Ordering decisions by span, then condition, is a consistent comparison |
| TopologyPicture.EveryEdgeIsShown | clients/console/src/topology.ts:92-395 | Conservation over the input: with multiplicity and condition, the picture shows exactly the edges between known nodes, less the sequential ones a decision with the same ends already draws; a sequential edge leaving a checkpoint is shown as its fall-through |
| TopologyPicture.CheckpointsAreMarked | clients/console/src/topology.ts:99-102 | A node is a checkpoint if and only if a review edge of the input leaves it for a known node |
| TopologyPicture.RoutesFollowBoxes | clients/console/src/topology.ts:336-378 | Told from the boxes at its ends: a channel when the target is not further right, else straight to the next column, a detour along the row, or across rows |
| TopologyPicture.FlowGoesRight | clients/console/src/topology.ts:105-153 | On an acyclic precedence every edge of the input but review and collect edges leads at least one column to the right |
| TopologyPicture.BlocksEndLeftOfWhatFollows | clients/console/src/topology.ts:105-153 | On an acyclic precedence every step that ends a block, told from the collect edges of the input, stands left of what a sequential or conditional edge continues with |
| TopologyPicture.CloserTakesUpperLane | clients/console/src/topology.ts:278-292 | Of two decisions the one whose boxes stand closer together takes the upper lane, between equals the one whose name comes first |
| TopologyPicture.EarlierBranchStandsAbove | clients/console/src/topology.ts:184-242 | In one column a node fed by an earlier branch edge stands above one fed only by later ones or by none |
| TopologyPicture.BordersAreTight | clients/console/src/topology.ts:397-404 | Some box touches the right padding and some the bottom of the rows; with lanes the last one touches the bottom padding |
| HttpSessions.BodyHasRequest | clients/mcp/src/http-transport.ts:87-92 | True exactly when some message of the body has both a method and an id |
| HttpSessions.InvariantKept | clients/mcp/src/http-transport.ts:171-330 | Every event of every handler, callback and timer keeps the session invariant |
| HttpSessions.RunKeeps | clients/mcp/src/http-transport.ts:171-330 | The invariant holds after every interleaving of events |
| HttpRuns.CapacityHolds | clients/mcp/src/http-transport.ts:171-175 | Live sessions plus reserved slots never exceed the cap, and the counter equals the unreleased reservations |
| HttpRuns.BuildsAccountedFor | clients/mcp/src/http-transport.ts:177-182 | A build whose handler finished is in the map or was disposed; `disposeSession` disposes each registered build exactly once, when it leaves the map |
| HttpRuns.SessionsIsolated | clients/mcp/src/http-transport.ts:276-281 | Two sessions never share a build |
| HttpSessions.SweepKeeps | clients/mcp/src/http-transport.ts:186-191 | The sweep keeps the invariant and removes exactly the sessions idle beyond the cutoff |
| HttpRuns.SlotsReturnUnlessFactoryThrew | clients/mcp/src/http-transport.ts:257-264 | Once no initialize is in flight, the slots still held are exactly those whose factory threw |
| HttpRuns.CrashIsForever | clients/mcp/src/http-transport.ts:257-275 | No event gives back the slot of an initialize whose factory threw |
| HttpRuns.ThrowsExhaustCapacity | clients/mcp/src/http-transport.ts:252-275 | After as many throws as there are slots, every later initialize is refused, for ever |
| HttpRuns.ThrowsCloseTheListener | clients/mcp/src/http-transport.ts:252-275 | For every cap, the run of that many throwing factories after which no continuation admits a session |
| HttpRuns.RecordsPersist | clients/mcp/src/http-transport.ts:249-327 | No event takes back a session id, a settled gate, a disposal or a crash from a handler's record |
| HttpRuns.RequestsWaitForPrepare | clients/mcp/src/http-transport.ts:223-247 | A request reaches the transport only after prepare succeeded and while its session is mapped; a body without one goes through at once |
| HttpRuns.BlockedOnlyWhilePreparing | clients/mcp/src/http-transport.ts:229-236 | A waiting request waits exactly until its session's initialize has finished |
| HttpRuns.PrepareFinishesIffReplyUnbatched | clients/mcp/src/http-transport.ts:79-92 | In any run, while a session is prepared and prepare settles only after the post carrying the reply, some continuation finishes the session if and only if no message of that post is a request |
| HttpRuns.WaitingForEachOther | clients/mcp/src/http-transport.ts:229-247 | A post blocked on a prepare that waits for it stays blocked, and prepare stays unsettled, in every continuation |
| HttpRuns.BatchedReplyIsStuck | clients/mcp/src/http-transport.ts:79-92 | A run in which a reply batched with a request can never be handed over |
| HttpAnswers.PostFindsItsSession | clients/mcp/src/http-transport.ts:208-213 | A post is read for the build of the session it names, or for none when there is no such session |
| HttpAnswers.BodyIsAnswered | clients/mcp/src/http-transport.ts:223-247 | A read body is refused with 400 without a session, waits if a message of it has both a method and an id, and is handed over with 200 otherwise |
| HttpAnswers.LongBodyIsRefused | clients/mcp/src/http-transport.ts:214-222 | A body over the limit is answered 413 and nothing else changes |
| HttpAnswers.GateAnswers | clients/mcp/src/http-transport.ts:230-243 | In every run, a settled gate hands the waiting body to its own build with 200 exactly if the gate is open and the session still mapped; else 503 or 404 and nothing is handed over |
| HttpAnswers.AcceptedIsHandedOnce | clients/mcp/src/http-transport.ts:223-247 | Conservation in every run: each post answered 200 has the very body it brought in the log exactly once, and the log holds nothing else |
| HttpAnswers.AdmittedIffRoom | clients/mcp/src/http-transport.ts:249-257 | An initialize is admitted if and only if sessions and reservations leave room, and then holds a slot at once |
| HttpAnswers.GatesTellHistory | clients/mcp/src/http-transport.ts:265-327 | In every run a gate is open if and only if its prepare succeeded, and a handler has the session id that was reported for it |
| HttpAnswers.SessionBegins | clients/mcp/src/http-transport.ts:278-281 | A session begins under an unused id with the build of its handler and the time it was reported, and its reservation ends |
| HttpAnswers.SessionEndsExactlyWhen | clients/mcp/src/http-transport.ts:177-210 | A session leaves the map if and only if it is closed, idle at a sweep or not prepared; else its build stays and only its own requests move its stamp |
| HttpAnswers.RequestOutlivesSweeps | clients/mcp/src/http-transport.ts:186-210 | A request keeps its session alive through every continuation whose sweeps have a cutoff no later than the request |
| HttpTransport.Transport.FreeSlot | clients/mcp/src/http-transport.ts:258-264 | Releases the reservation at most once |
| HttpTransport.Transport.DisposeSession | clients/mcp/src/http-transport.ts:177-182 | Unmaps the session first, so a second call disposes nothing |
| HttpTransport.Transport.SweepIdle | clients/mcp/src/http-transport.ts:186-191 | The loop over the snapshot takes exactly the sweep step |
| HttpTransport.Transport.BeginInitialize | clients/mcp/src/http-transport.ts:249-275 | Refused with 503 at capacity; otherwise a slot is reserved before the factory runs |
| HttpTransport.Transport.OnSessionInitialized | clients/mcp/src/http-transport.ts:278-281 | The reservation becomes the session |
| HttpTransport.Transport.IsRegistered | clients/mcp/src/http-transport.ts:291-292 | Whether the handler's session id is set and mapped |
| HttpTransport.Transport.ConnectReturned | clients/mcp/src/http-transport.ts:294-295 | From connecting to handling, nothing else changed |
| HttpTransport.Transport.InitializeThrew | clients/mcp/src/http-transport.ts:296-304 | Slot released, gate rejected, an unregistered build disposed |
| HttpTransport.Transport.HandleReturned | clients/mcp/src/http-transport.ts:312-326 | Slot released; a registered build starts preparing, any other is rejected and disposed |
| HttpTransport.Transport.PrepareSettles | clients/mcp/src/http-transport.ts:313-322 | Opens the gate, or rejects it and disposes the session |
| HttpTransport.Transport.RequestArrives | clients/mcp/src/http-transport.ts:208-210 | Any request refreshes the activity stamp of the session it names, if there is one |
| HttpTransport.Transport.PostArrivesFor | clients/mcp/src/http-transport.ts:208-213 | Refreshes the stamp and looks the session up before the body is read |
| HttpTransport.Transport.BodyExceedsLimit | clients/mcp/src/http-transport.ts:214-222 | An oversized body is answered 413, with or without a session |
| HttpTransport.Transport.BodyArrived | clients/mcp/src/http-transport.ts:223-247 | Without a session 400 once the body is read; otherwise a body with a request waits for the gate and any other is delivered |
| HttpTransport.Transport.GateSettles | clients/mcp/src/http-transport.ts:229-243 | Answers 503 on a rejected gate and 404 when the session is gone, else delivers |
| Text.UnescapeInverts | contracts/controlplane/conformance/runner.py:57-73 | Unescaping inverts escaping for every key, as section 4 of RFC 6901 demands |
| Text.EscapeHasNoSlash | contracts/controlplane/conformance/runner.py:57-58 | An escaped key is a single pointer token |
| Text.SortKeys | contracts/controlplane/conformance/runner.py:127 | The sorted listing of a key set |
| Text.SortedAscends | contracts/controlplane/conformance/runner.py:127 | The listing ascends strictly and has every key once |
| Text.OrderedWhereTheyPart | contracts/controlplane/conformance/runner.py:127 | The order is that of the first character in which two keys differ, a prefix coming first |
| JsonMasking.Normalize | contracts/controlplane/conformance/runner.py:95-99 | The loop masks the keys, then every pointer in order |
| JsonMasking.MasksCommute | contracts/controlplane/conformance/runner.py:70-92 | Any two pointer masks commute, nested and wildcard ones included |
| JsonMasking.MaskIdempotent | contracts/controlplane/conformance/runner.py:70-92 | Masking a pointer twice changes nothing more |
| JsonMasking.KeyMaskCommutes | contracts/controlplane/conformance/runner.py:61-92 | Key masks and pointer masks commute |
| JsonMasking.KeyMaskIdempotent | contracts/controlplane/conformance/runner.py:61-67 | Masking keys twice changes nothing more |
| JsonMasking.NormalizeIgnoresPointerOrder | contracts/controlplane/conformance/runner.py:95-99 | The normalized body depends only on which pointers there are, not on their order or repetition |
| JsonMasking.NormalizeIdempotent | contracts/controlplane/conformance/runner.py:95-99 | Normalizing a normalized body changes nothing |
| JsonPlaces.ShapesDetermine | contracts/controlplane/conformance/runner.py:61-99 | Two documents that look the same at every place are the same |
| JsonPlaces.KeysMasked | contracts/controlplane/conformance/runner.py:61-67 | At every place of any document: the marker under a named key wherever it stands, nothing below it, and all else as it was |
| JsonPlaces.TokensMasked | contracts/controlplane/conformance/runner.py:70-92 | At every place: the marker exactly where the tokens lead, `*` taking any key or index, and all else as it was |
| JsonPlaces.NormalizedPlaceByPlace | contracts/controlplane/conformance/runner.py:61-99 | What stands at every place of a normalized body, for any keys and pointers |
| JsonPlaces.NormalizedAlikeIffSameOutside | contracts/controlplane/conformance/runner.py:95-99 | Two bodies normalize to the same value if and only if they look the same at every place that is not masked or below a mask |
| JsonDiff.RunDiff | contracts/controlplane/conformance/runner.py:106-149 | The loops with the growing list of lines produce the specified diff, in order |
| JsonDiff.EmptyDiffIsEquivalence | contracts/controlplane/conformance/runner.py:106-149 | The diff is empty if and only if the values are equal up to numeric equality of non-boolean numbers |
| JsonDiff.NumbersCompareByValue | contracts/controlplane/conformance/runner.py:110-126 | An integer and a float agree exactly when their values do, a NaN agrees with nothing, and a boolean is not a number |
| JsonPlaces.DiffTellsEveryPlace | contracts/controlplane/conformance/runner.py:106-149 | The diff holds a line if and only if the place it points to differs as it says: another value with these two values, another type, or present in one document alone |
| JsonDiff.EquivalentSymmetric | contracts/controlplane/conformance/runner.py:106-149 | That relation is symmetric |
| JsonDiff.EquivalentTransitive | contracts/controlplane/conformance/runner.py:106-149 | It is transitive |
| JsonDiff.EquivalentReflexive | contracts/controlplane/conformance/runner.py:117-120 | It is reflexive exactly on values without NaN |
| JsonDiff.MaskKeysRespectsEquivalence | contracts/controlplane/conformance/runner.py:61-67 | Key masking preserves the relation |
| JsonDiff.MaskAtRespectsEquivalence | contracts/controlplane/conformance/runner.py:75-90 | Pointer masking preserves the relation |
| JsonDiff.NormalizeRespectsEquivalence | contracts/controlplane/conformance/runner.py:95-99 | Normalizing preserves the relation |
| JsonReplay.PrintedPointerReadsBack | contracts/controlplane/conformance/runner.py:73-139 | The pointer a diff line prints is read back by the mask as the very path it was printed for, the root included |
| JsonReplay.BadIsReported | contracts/controlplane/conformance/runner.py:106-149 | Every value or type difference is reported at its pointer |
| JsonReplay.ReportedIsBad | contracts/controlplane/conformance/runner.py:106-149 | Every reported value or type difference is one, at the place its pointer names |
| JsonReplay.MaskedBadIsGone | contracts/controlplane/conformance/runner.py:70-92 | When the masked paths include that of every difference, the masked documents differ nowhere in value or type: masking makes no new difference |
| JsonReplay.MaskingReportedPointersSilencesThem | contracts/controlplane/conformance/runner.py:57-149 | Masking both documents at every reported value or type difference leaves none |
| JsonReplay.RecordOne | contracts/controlplane/conformance/runner.py:342-359 | What recording writes into a case: its base lane, or an edition that opted in, and nothing else |
| JsonReplay.ReplayOne | contracts/controlplane/conformance/runner.py:342-374 | A case passes exactly when the statuses agree and the normalized bodies have an empty diff |
| JsonReplay.RecordCases | contracts/controlplane/conformance/runner.py:326-359 | The record loop writes each case once and counts skipped and recorded cases |
| JsonReplay.ReplayCases | contracts/controlplane/conformance/runner.py:326-375 | The replay loop counts exactly the skipped and the failing cases |
| JsonReplay.RecordedGoldenReplays | contracts/controlplane/conformance/runner.py:337-374 | A golden recorded from a response passes against that response if and only if no NaN is left in it, in the base lane and in editions |
| JsonReplay.ReplayIgnoresMaskedPlaces | contracts/controlplane/conformance/runner.py:337-374 | A response that differs from the golden at masked places alone passes exactly if no NaN is left, whatever stands at those places |
| JsonReplay.EditionReplaysOverrides | contracts/controlplane/conformance/runner.py:331-360 | An edition replays like a base-lane case with the overridden fields, is skipped with its variant, and without one replays the base lane |
| JsonReplay.RecordingStoresOneLane | contracts/controlplane/conformance/runner.py:331-359 | Recording stores the normalized response in its own lane, leaves unrecorded cases as they were, and changes no other lane that has a golden of its own |
| JsonReplay.RecordedLaneReplaysClean | contracts/controlplane/conformance/runner.py:316-375 | For any edition, recording a lane and replaying it at once fails only cases that recording left alone, when no response to a recorded case keeps a NaN |
| JsonReplay.NaNGoldenFails | contracts/controlplane/conformance/runner.py:117-120 | A response of NaN: the golden just recorded from it fails |
| LazyBackend.Holder.CurrentCooldownMs | clients/mcp/src/backend.ts:203-206 | The doubled cooldown under its cap |
| LazyBackend.Holder.Get | clients/mcp/src/backend.ts:208-240 | Takes exactly the specified step and hands out the memo, or nothing once disposed |
| LazyBackend.Holder.AttemptFulfilled | clients/mcp/src/backend.ts:225-230 | A success of the memoized attempt clears the failures |
| LazyBackend.Holder.AttemptRejected | clients/mcp/src/backend.ts:231-236 | A failure of the memoized attempt is stamped and counted |
| LazyBackend.Holder.BeginDispose | clients/mcp/src/backend.ts:242-246 | Marks the holder disposed and starts waiting for the memo |
| LazyBackend.Holder.FinishDispose | clients/mcp/src/backend.ts:245-250 | Disposes the backend if the attempt succeeded |
| LazyBackend.InvariantKept | clients/mcp/src/backend.ts:189-252 | Every event keeps the invariant of the holder |
| LazyBackend.RunKeeps | clients/mcp/src/backend.ts:189-252 | It holds in every run with a non-decreasing clock |
| LazyBackend.OneLiveAttempt | clients/mcp/src/backend.ts:212-239 | All attempts but the last have failed: never two unsettled, never two successful, and the memo is the last |
| LazyBackend.AttemptStartsWhenDue | clients/mcp/src/backend.ts:208-223 | A new attempt starts, at once, if and only if the holder is not disposed and there was none yet or the cooldown of the last failure is over |
| LazyBackend.OutcomesAreReported | clients/mcp/src/backend.ts:224-237 | In every run each attempt has the outcome, and the time of it, that its promise reported, and a pending one was not reported |
| LazyBackend.AttemptsBackOff | clients/mcp/src/backend.ts:203-223 | Attempt n starts no earlier than the sum of all cooldowns before it |
| LazyBackend.DefaultBackoff | clients/mcp/src/backend.ts:168-171 | With the default base and cap the cooldowns sum to 465 s and 300 s for each further failure |
| LazyBackend.DefaultAttemptsBackOff | clients/mcp/src/backend.ts:168-223 | With the defaults, attempt n (n at least 6) starts at least 465,000 + 300,000 (n - 6) ms after the first |
| LazyBackend.DisposedIffCalled | clients/mcp/src/backend.ts:242-243 | In every run the holder is disposed if and only if dispose was called |
| LazyBackend.NothingStartsAfterDispose | clients/mcp/src/backend.ts:208-243 | From the first dispose call of a run on, no attempt starts and no get changes anything |
| LazyBackend.EachDisposeReleases | clients/mcp/src/backend.ts:242-251 | Conservation in every run: each dispose call awaits the attempt and returns once, and each that returned released the backend exactly if the attempt succeeded |
| LazyBackend.DisposalIsComplete | clients/mcp/src/backend.ts:242-251 | In every run with a dispose call, once all such calls have returned no attempt is pending and the successful one, if any, was disposed; nothing is disposed without a call |
| StatusSubscriptions.ClampInterval | clients/mcp/src/subscriptions.ts:82-85 | Unchanged between 20 ms and 60 s, the nearer bound outside, the default when absent or not positive |
| StatusWatches.StatusWatch.ClearTimeout | clients/mcp/src/subscriptions.ts:116 | Removes the pending timer, if any |
| StatusWatches.StatusWatch.StopWatching | clients/mcp/src/subscriptions.ts:112-118 | Takes the stop step: flag, timer and map entry |
| StatusWatches.StatusWatch.PollOnce | clients/mcp/src/subscriptions.ts:120-125 | Begins an activation for the mapped object unless it is stopped |
| StatusWatches.StatusWatch.OnBackend | clients/mcp/src/subscriptions.ts:124-135 | A degraded backend stops the object; otherwise the status is fetched |
| StatusWatches.StatusWatch.OnFetched | clients/mcp/src/subscriptions.ts:133-152 | Re-checks the flag, then notifies on a difference or stores |
| StatusWatches.StatusWatch.OnSent | clients/mcp/src/subscriptions.ts:143-162 | Stores after a sent notification, and treats a failed send as an error |
| StatusWatches.StatusWatch.Remember | clients/mcp/src/subscriptions.ts:146-162 | Stores the snapshot, then stops on a terminal one or schedules |
| StatusWatches.StatusWatch.GiveUp | clients/mcp/src/subscriptions.ts:157-160 | Stops the object and ends the activation |
| StatusWatches.StatusWatch.OnError | clients/mcp/src/subscriptions.ts:153-161 | Stops on a permanent status, else schedules |
| StatusWatches.StatusWatch.Schedule | clients/mcp/src/subscriptions.ts:162 | Arms the timer unless stopped meanwhile |
| StatusWatches.StatusWatch.OnTimer | clients/mcp/src/subscriptions.ts:120-162 | The timer callback looks its object up again by URI |
| StatusWatches.StatusWatch.OnSubscribe | clients/mcp/src/subscriptions.ts:169-185 | A no-op on an active URI, a fresh object on a new or stopped one |
| StatusWatches.StatusWatch.OnDispose | clients/mcp/src/subscriptions.ts:194-196 | The loop over the keys stops every mapped object and clears its timer, in any order |
| StatusSubscriptions.InvariantKept | clients/mcp/src/subscriptions.ts:110-198 | Every event keeps the invariant between map, objects, timers and activations |
| StatusRuns.OneWatchPerUri | clients/mcp/src/subscriptions.ts:112-185 | In every run at most one object per URI is unstopped, and it is the mapped one |
| StatusRuns.OneContinuation | clients/mcp/src/subscriptions.ts:120-163 | An unstopped object has exactly one continuation, an activation or a timer; a stopped one has no timer; no object has two activations |
| StatusRuns.TimersAreBounded | clients/mcp/src/subscriptions.ts:82-162 | Every pending timer belongs to an unstopped mapped object and its delay is within the bounds |
| StatusRuns.NotesAreJustified | clients/mcp/src/subscriptions.ts:136-145 | A step begins at most one notification, for an unstopped mapped object and a snapshot that differs from the stored one |
| StatusRuns.NotesAreChanges | clients/mcp/src/subscriptions.ts:141-145 | In every run each notification was about a change, and the baseline never is one |
| StatusRuns.NoChangeGoesUnannounced | clients/mcp/src/subscriptions.ts:140-146 | If the stored snapshot differs between two points of a run, the later one was announced |
| StatusRuns.StopIsForever | clients/mcp/src/subscriptions.ts:112-160 | No event restarts a stopped object |
| StatusRuns.StoppedSendsNothing | clients/mcp/src/subscriptions.ts:136-145 | Once an object is stopped its chain begins no notification, whatever was in flight and whoever re-subscribes |
| StatusRuns.UnsubscribeUnwatches | clients/mcp/src/subscriptions.ts:187-196 | Unsubscribing a URI, or disposing, leaves no unstopped object for it |
| StatusRuns.UnwatchedIsQuiet | clients/mcp/src/subscriptions.ts:112-196 | From then on nothing is sent or scheduled for the URI until it is subscribed again |
| StatusRuns.EndedChainsStayOver | clients/mcp/src/subscriptions.ts:126-160 | After a degraded backend, a permanent failure or a terminal snapshot, the object never again has a timer or an activation |
| StatusRuns.OtherwiseKeepsWatching | clients/mcp/src/subscriptions.ts:153-162 | Any other settling leaves an unstopped object watched: still polling, or with its next poll scheduled |
| StatusProgress.SubscribeWatches | clients/mcp/src/subscriptions.ts:169-185 | After subscribing a status URI, in any state, it is mapped to an unstopped object with one continuation: the old one untouched, or a new one with nothing stored and its first poll begun; any other URI changes nothing |
| StatusProgress.WatchedIffUnstopped | clients/mcp/src/subscriptions.ts:110-125 | A URI is watched if and only if it has an unstopped object |
| StatusProgress.StopsExactlyWhen | clients/mcp/src/subscriptions.ts:112-161 | A watched object stops if and only if it is unsubscribed, all are disposed, or its chain ends |
| StatusProgress.StaysWatched | clients/mcp/src/subscriptions.ts:110-198 | From its subscription on a URI stays watched by the same object in every continuation until one of these |
| StatusProgress.FailureEndsIffPermanent | clients/mcp/src/subscriptions.ts:153-161 | A failed call ends the watch for 403, 404, 409, 422 and 501 and for no other failure |
| StatusProgress.StoredSnapshotEndsIffTerminal | clients/mcp/src/subscriptions.ts:146-152 | A stored snapshot ends the watch if and only if it has a terminal status or one of the final states |
| StatusProgress.TimerPolls | clients/mcp/src/subscriptions.ts:120-162 | A timer that fires starts one poll of the mapped object |
| StatusProgress.HealthyBackendIsAsked | clients/mcp/src/subscriptions.ts:124-135 | A healthy backend is asked for the status by the same activation |
| StatusProgress.ReadIsAnnouncedOrStored | clients/mcp/src/subscriptions.ts:136-146 | A snapshot read for a watched object is announced if something else is stored, else stored silently |
| StatusProgress.SentIsStored | clients/mcp/src/subscriptions.ts:143-146 | An announced snapshot is stored exactly once it was sent |
| StatusProgress.NextPollIsAdvised | clients/mcp/src/subscriptions.ts:123-162 | The next poll of a watched object comes after the advised, clamped cadence, or the default when none was read |
| TaskLedger.Ledger.Decode | tools/project_graph/records.py:34-50 | Accepts exactly the chained journals, unchanged |
| TaskLedger.Ledger.Append | tools/project_graph/records.py:57-80 | Succeeds exactly on a chained journal and an accepted event, extends it by exactly that record, and changes nothing otherwise |
| TaskLedger.Ledger.ReadBack | tools/project_graph/records.py:138-153 | For any records the loop keeps the last state and the last payload of each effect key, and fails exactly on a missing field or a key that cannot be one |
| TaskLedger.Ledger.Resume | tools/project_graph/records.py:134-164 | Answers exactly the resumable journals, built by append or not, with the current state and exactly the effects whose last record is pending |
| TaskLedger.GrownIsResumableIffHashable | tools/project_graph/records.py:97-154 | A journal built by append can be resumed if and only if every effect key in it can be a dictionary key |
| TaskLedger.ListKeyBlocksResume | tools/project_graph/records.py:97-143 | Two accepted events, whatever the digest, after which the journal cannot be resumed |
| TaskLedger.GrownIsKeyed | tools/project_graph/records.py:104-111 | In a journal built by append the search for the last effect of a key never meets an effect without a key |
| TaskLedger.GrownIsChained | tools/project_graph/records.py:34-80 | Every journal grown by append decodes, and so does every whole-record prefix |
| TaskLedger.LastDigestFixesJournal | tools/project_graph/records.py:34-50 | Two chained journals with the same last digest are equal record for record, or a record of the one and a different record of the other have the same digest |
| TaskLedger.EffectAcceptedIffProtocol | tools/project_graph/records.py:97-123 | An effect record is accepted exactly when its key is given, it has a receipt where one is needed, and the key's states still follow the protocol |
| TaskLedger.JournalFollowsProtocol | tools/project_graph/records.py:97-123 | In every grown journal each key's states are a prefix of (pending, not-applied)* pending confirmed |
| TaskLedger.PendingIsUnreconciled | tools/project_graph/records.py:97-154 | In every grown journal the pending effects are exactly those with an odd number of events |
| TaskLedger.CreateComesFirst | tools/project_graph/records.py:82-131 | A grown journal begins with its one create, and its verifications are local with a known result |
| TaskLedger.JournalIsTaskPath | tools/project_graph/records.py:14-96 | The task states form a path of the transition table from planned to the current state |
| TaskLedger.TransitionAcceptedIffEntered | tools/project_graph/records.py:14-96 | A transition is accepted if and only if the state it names can be entered from the current one, each state listing its entries |
| TaskLedger.AcceptanceIsReviewed | tools/project_graph/records.py:14-22 | In every grown journal acceptance comes straight after review-ready, and that straight after validating |
| TaskLedger.TaskCanStillBeAccepted | tools/project_graph/records.py:14-96 | Every grown journal can be continued to acceptance by events that append accepts |
| TaskLedger.AcceptedIsLast | tools/project_graph/records.py:14-22 | Accepted is the last state, and no transition is accepted after it |
| ImpactWalk.BuildAdjacency | tools/project_graph/queries.py:10-19 | The adjacency holds exactly the edges in their permitted directions, in order |
| ImpactWalk.Walks | tools/project_graph/queries.py:22-38 | The queue loop terminates and returns a walk result for any graph, seeds and bound |
| ImpactWalk.VisitHead | tools/project_graph/queries.py:26-37 | One turn of the queue keeps the breadth-first invariant and makes progress |
| ImpactWalk.LookAround | tools/project_graph/queries.py:30-37 | The neighbour loop records each new neighbour with a chain one longer |
| ImpactWalk.HandledReaches | tools/project_graph/queries.py:22-38 | A finished walk has found everything a permitted walk reaches, by a chain no longer |
| ImpactWalk.ImpactIsReachability | tools/project_graph/queries.py:22-38 | In impact mode exactly the nodes reachable from a seed are found |
| ImpactWalk.ContextIsBoundedReachability | tools/project_graph/queries.py:27-34 | In context mode exactly those within the bound by walks that never enter a file through part_of |
| ImpactWalk.ImpactIsLeastClosure | tools/project_graph/queries.py:10-38 | Impact is the least set with the seeds that is closed under each relation in its own direction, `verifies` in both |
| ImpactWalk.ContextFollowsEveryEdge | tools/project_graph/queries.py:22-38 | Context takes every edge both ways up to the bound, except into a file through part_of |
| ImpactWalk.ContextEntersNoSiblings | tools/project_graph/queries.py:33-37 | Whatever context adds was entered by an edge, and a file never by part_of |
| ImpactWalk.ChainsAreShortest | tools/project_graph/queries.py:22-38 | Each chain is a real one from a seed, and no permitted walk is shorter |
| ImpactReport.Seeds | tools/project_graph/queries.py:104-106 | The changed files the graph knows |
| ImpactReport.ReportTellsKinds | tools/project_graph/queries.py:103-117 | Of what a changed file reaches in either revision, checks are reported and all but files and externals affected, and nothing else is reported |
| ImpactReport.ChangedIsLeast | tools/project_graph/queries.py:88-92 | The changed files are the least set apart from which both revisions have equal inputs, additions and deletions included |
| ImpactReport.EqualInputsReportNothing | tools/project_graph/queries.py:88-149 | Revisions with equal inputs report nothing |
| ImpactReport.TouchedNodes | tools/project_graph/queries.py:104-107 | The walk of one revision finds exactly the nodes a changed file reaches |
| ImpactReport.Collect | tools/project_graph/queries.py:108-117 | The loop adds exactly the touched entities and checks of one revision |
| ImpactReport.Impact | tools/project_graph/queries.py:88-149 | A check is recommended if and only if a changed file reaches it in the base or in the head |
| ImpactReport.ImpactIsSymmetric | tools/project_graph/queries.py:88-149 | Swapping the revisions changes neither the changed files nor what is affected nor the checks |
| ImpactReport.BaseChecksOutlastTheHead | tools/project_graph/queries.py:88-149 | Against one base, a check reached there by a file some head changes is missing for another head only if that head restores every such file to its base content; so changing more, declarations included, never drops it |
| ImpactReport.FindJob | tools/project_graph/ci.py:167-178 | A successful job is found exactly when exactly one job has the identity and it succeeded |
| ImpactReport.OneMoreJob | tools/project_graph/ci.py:167-178 | One more job proves a name exactly if it is the first requested and succeeded, a second requested one disproves it, and a job of another name, run, attempt or revision changes nothing |
| ImpactReport.IdentityBinds | tools/project_graph/ci.py:145-163 | An accepted run names one run, attempt and head, and for a pull request one base |
| ImpactReport.CheckNames | tools/project_graph/ci.py:166-186 | One result per name in order, and the conjunction of them all |
| ImpactReport.Aggregate | tools/project_graph/ci.py:134-199 | Refused unless the run binds the expected revisions; passed exactly when every name either revision requires has exactly one matching job and it succeeded |
| CompositionChain.Composer.Enter | clients/console/src/governance.ts:167-176 | The recursive visit, with its visited set and chain changed in place, takes the specified step and terminates on any graph |
| CompositionChain.ComposeChain | clients/console/src/governance.ts:163-179 | Returns the definitions of the chain, which is complete, without repetition and ends with the root |
| CompositionChain.ChainIsComplete | clients/console/src/governance.ts:163-179 | Lists each known policy reachable through known policies exactly once, a known root last |
| CompositionChain.LayersComeFirst | clients/console/src/governance.ts:156-176 | On any graph an extended policy stands before the extending one unless a cycle joins them |
| CompositionChain.AncestorsComeFirst | clients/console/src/governance.ts:156-176 | Where no cycle lies upstream of a listed policy, all its transitive ancestors stand before it |
| CompositionChain.AncestorsFirstIffAcyclic | clients/console/src/governance.ts:156-176 | All ancestors come first throughout if and only if no cycle lies among what the root extends |
| CompositionChain.WalksAreShort | clients/console/src/governance.ts:163-179 | Where no cycle lies upstream, no extends chain into a listed policy has more steps than policies stand before it |
| CompositionChain.ChainIsUnfolding | clients/console/src/governance.ts:156-179 | Where no cycle lies among what the root extends, the chain is the fully unfolded extends tree in declaration order, keeping first occurrences |
| CompositionChain.TwoPolicyCycle | clients/console/src/governance.ts:156-179 | Two policies that extend each other are listed once each, the root last |
| CompositionChain.CycleDisplacesAncestor | clients/console/src/governance.ts:156-179 | An input on which a policy that is on no cycle stands after one that it is an ancestor of |
| BatchFraming.FirstNewline | tools/project_graph/repository.py:91 | The first newline at or after the offset, none exactly when there is none |
| BatchFraming.ReadBatch | tools/project_graph/repository.py:89-98 | The loop succeeds or fails as specified, and each file holds the blob of its entry |
| BatchFraming.SizeReadsBack | tools/project_graph/repository.py:92-98 | The announced size is one word and parses back to the content's length |
| BatchFraming.ReadsOne | tools/project_graph/repository.py:91-98 | A framed answer is recognised wherever it stands: blob, other kind and missing object each with its outcome |
| BatchFraming.BatchReadsBack | tools/project_graph/repository.py:89-98 | For any contents, header-like ones included, every blob is recovered exactly and reading ends at the end |
| BatchFraming.BatchReadsIffBlobs | tools/project_graph/repository.py:92-95 | Reading succeeds if and only if every requested object exists and is a blob |
| BatchFraming.DistinctPathsKeepEveryBlob | tools/project_graph/repository.py:90-97 | With one entry per path the files are exactly the blobs |
| Fence.FenceDelimiter | clients/mcp/src/prompts.ts:84-88 | The loop finds a fence of at least three backticks longer than any run in the content, and no longer than that takes |
| Fence.FenceIsUnique | clients/mcp/src/prompts.ts:77-88 | That determines the fence |
| Fence.ShortRunsDoNotClose | clients/mcp/src/prompts.ts:77-83 | Text without a run of n backticks has no line that closes a fence of n |
| Fence.ReadsBackIffNoCloser | clients/mcp/src/prompts.ts:77-99 | For any fence length, a CommonMark reader recovers the content exactly if and only if none of its lines closes that fence |
| Fence.SignalReadsBack | clients/mcp/src/prompts.ts:91-99 | With the computed fence every content, and whatever follows the block, is recovered exactly |
| Fence.SignalBlock | clients/mcp/src/prompts.ts:95-99 | The block is heading, fence, content, fence, and reads back as its content |

## Left out

- Topology: SVG path strings, label anchors, `forwardOffset` and the horizontal bounds of routes; `activity` and `workflow` fields; per-lane exit and entry offsets.
- HTTP: sockets, authentication, body parsing and size limits (their outcome is an event), the MCP SDK, GET and DELETE beyond the activity stamp and the session-closed callback, closing the listener.
- HttpSessions.RunKeeps: a session id is a number and unused when it arrives; the source relies on `randomUUID` for this.
- Conformance: an empty edition name, which counts as none; the HTTP request itself (a function from request to response), JSON text syntax, how a diff line prints the values, `DIFF_LIMIT`, file writing, `_ManagedSignals` and process supervision; case validation on load.
- JsonMasking.MaskAt: `isdigit` is modelled for the digits 0 to 9; Python also takes other Unicode digits there, some of which `int` then refuses, and limits the length of a number.
- LazyBackend.Cooldown: integers do not overflow; in the source a very long run of failures makes the power infinite, which the cap absorbs except for a base of zero.
- LazyBackend: spawning, configuration resolution and `/meta` are the outcome of an attempt.
- StatusSubscriptions: parsing a status URI is an input of the subscribe event, because it is a regular expression over one string; `active()` only lists the map's keys.
- TopologyLayout.RouteOne: the path data, label anchors and forward offset of an edge are not in its contract.
- TopologyLayout.LayoutTopology: boxes, routes as kinds with channel and lane heights, lanes and size; not the SVG paths, label anchors, activity and workflow fields.
- TaskLedger: file locking, `fsync`, partial lines and JSON syntax; payload values other than strings and lists; the `verification` list and `inputsChanged` of `resume`, each settled by one comparison.
- ImpactReport.Impact: the `via` chains are those of `ImpactWalk.Walks`; rename hints, deleted and added maps, and the reasons for broad validation are flat filters over the same sets and are left out.
- ImpactReport.Aggregate: the required names of the two revisions are inputs; the classification text of a failed job is left out.
- Graph queries `context` and `explain`: a bounded selection from, and a lookup in, the walk proved here.
- Governance: `policySections`, `isUnsetRuleValue` and `extendsProvenance` are filters and rollups over the chain proved here.
- BatchFraming: running git, listing the tree, symlinks and gitlinks, the working-tree branch; Python's limit on the length of an integer.
- Fence: `JSON.stringify` and where the content comes from; only backtick fences are read, and titles are single lines in `SignalReadsBack` (the fence and what follows it need no such condition).
