# Aether client: verified model of the connection, event and protocol core

The project models the parts of the Aether C++ client whose correctness depends on the order of
events: which cloud servers are connected, how events reach their handlers, what the binary codec
and the RPC layer put on the wire and read back, how pending responses, requests and pings are
retried and given up, and how clouds are resolved and stored.  Most parts come as two modules: one
describes the behaviour on values, as states and steps, with the theorems about every run; the
other is the object the client has, updated in place, each of its methods proved to make exactly
the step described.

| files | part of the client |
|---|---|
| `ServerSelection`, `InterruptedSelection`, `CloudServerConnections` | selection, quarantine and reselection of servers |
| `EventList`, `Events` | events, emissions, subscriptions |
| `Mstream`, `MstreamRoundTrip`, `MstreamWire`, `MstreamTruncation`, `MstreamForeign`, `MstreamBuffers` | the binary codec, its wire format and its buffers |
| `ApiProtocol`, `ApiRoundTrip`, `ApiWire`, `ApiPackParser` | packing and parsing of API calls |
| `PendingRegistry`, `PendingResponses`, `ApiOverRegistry` | the bounded registry of pending responses, and packets of results over it |
| `RequestRetries`, `RequestHistory`, `CloudRequest` | retries of a request sent to cloud servers |
| `SuspendBlocking`, `Pinging`, `PingHistory`, `ServerPing` | suspend blockers and the periodic ping |
| `StageQueue`, `ActionsQueue` | the queue of actions |
| `CloudResolution`, `ResolvedServers`, `ServerResolving` | resolving server ids to servers |
| `CloudVersions`, `CloudUpdates`, `ClientCloudManager` | cloud configurations and their versions |
| `StorageHistory`, `DomainStorage` | the overlay of two stores |
| `Options` | a value that may be absent |

Main results:

- In every state the server selection can reach, by any interleaving of link errors, quarantine
  releases and reselects, the selected servers are exactly the connected ones, in strict priority
  order and ahead of all others, and work that is left has a task queued for it; a reselect never
  touches a healthy selected server; and once link errors stop every run drains to the full
  selection (`ServerSelection.EveryReachableStateIsInv`, `ReselectKeepsHealthyServers`,
  `CalmRunsConverge`).
- An emission calls, once each and in subscription order, the handlers present at its start that
  are alive at their turn, under any interleaving of threads and re-entrant handlers, and no node
  in use is erased (`EventList.EmissionIsExact`, `ErasedNodesAreUnused`); with 65536 handlers it
  calls nobody (`FullListCallsNobody`).
- Every representable value of every type built from the codec's constructors is read back as it
  was written, with the reader exactly behind it (`MstreamRoundTrip.RoundTrip`), from bytes described
  one by one (`MstreamWire.EncodingIsWire`); a packed tree of calls, results and errors is dispatched
  as it was packed (`ApiRoundTrip.PackThenParse`).
- The registry keeps creation order, completes each entry once and accounts for every pool slot,
  whatever callbacks do (`PendingRegistry.EveryReachableStateIsInv`), and a packet of results is
  framed by it although results carry no length (`ApiOverRegistry.ResultsAreFramed`).
- Over every run, the state tells the history and the history the state: which stages were dropped,
  when a ping is to come and suspending allowed, when a request sends again and why a server is given
  up, which versions were built and announced (`StageQueue.DroppedIff`, `PingHistory.PingGoesOnIff`,
  `SuspendIff`, `RequestHistory.ExhaustedIff`, `CloudUpdates.CacheTellsHistory`).

The source's ProtocolContext is split by concern: `ApiPackParser.ProtocolContext` has the stacks and
the pending responses as the parser looks them up, `PendingResponses.ResponseRegistry` the list and
the pool behind them; `ApiOverRegistry` puts the two together.

## Where a promise fails

Each of these is kept as the code has it, with a concrete input and the exact condition.

- Allocating a pending response fails exactly when its id is not pending, the list has room, and
  running callbacks hold the rest of the pool (`PendingRegistry.AllocationFailsIff`,
  `NestedCreateFails`, `FullPoolFails`).  The comment in the code expects a free slot there.
- Two pending entries share an id exactly when an eviction callback registers again the id that
  its eviction makes room for (`PendingRegistry.DistinctIdsIff`, `DuplicateIds`).
- Servers come back in the requested order exactly if equal ids were requested side by side
  (`CloudResolution.ResolutionIsExact`, `ScatteredIds`), and a descriptor request succeeds exactly if
  no id is missing twice and each is answered (`RequestSucceedsIff`, `MissingTwice`).
- A suspend-block count in eight bits is exact exactly up to 255 handles
  (`SuspendBlocking.StepExactIff`, `TooManyHandles`).
- A duration survives the codec exactly if it is a whole, non-negative number of microseconds below
  2^32, a time point exactly if it is a whole number of microseconds in [-2^63, 2^63)
  (`MstreamRoundTrip.DurationRoundTripIff`, `TimePointRoundTripIff`, `BeforeTheEpoch`).
- A truncated pair or structure of numbers is noticed exactly if its last number does not find enough
  bytes (`MstreamTruncation.StructNoticesIff`, `PairAlwaysNoticesIff`, `TruncationCanGoUnnoticed`);
  types whose readers stop at the first failed read always notice (`TruncationIsNoticed`).
- Link errors that come while the selection loop creates a connection break the invariant exactly if
  they hit a server before its turn that then survives its turn
  (`InterruptedSelection.InterruptedPassIff`, `SelectedInQuarantine`).
- An emission over 65536 handlers calls nobody, and covers the list exactly below that
  (`EventList.SnapshotCoversList`, `FullListCallsNobody`).
- A configuration for a subject being finalized ends its whole batch, which loses something exactly if
  one behind it would have changed the state (`CloudVersions.BatchIsWholeIff`, `CutLosesIff`,
  `DroppedWithAnother`), and a failed build leaves its subject in that state for good
  (`FailureIsForGood`, `NeverBuiltAgain`).
- Storing one class or version of a removed object makes the read-only data of the others visible
  again (`StorageHistory.RemovedEntryResurfaces`).

## Where code and documentation differ

The model follows the code.

- `aether/events/event_list.h:52-57` says removed elements are deleted when no iterator is left;
  the code deletes only those behind the last alive one, and none if no handler is alive.
- `aether/cloud_connections/cloud_request.h:30-33` says a failed request restreams the connection;
  after a failed write the code only sends again.  It also says the request moves on to the next
  server, which the code leaves to the policy.
- `aether/connection_manager/client_cloud_manager.cpp:262-264` calls a configuration for a subject
  being finalized a duplicate; the code returns and drops the rest of the batch with it.
- `aether/api_protocol/protocol_context.cpp:38-45` announces that parsing is cancelled for an
  unknown request id and then uses the missing response; the model marks this as `fault`.

## Model

| member | source | states |
|---|---|---|
| ServerSelection.InvSpelledOut | aether/cloud_connections/cloud_server_connections.cpp:122-274 | The invariant in plain terms: selected servers are distinct, strictly increasing in priority and below the limit, connected iff selected, never quarantined or without client, ahead of every other candidate; quarantined servers have a release pending; the selection is full or a reselect is pending |
| ServerSelection.LinkErrorDemotes | aether/cloud_connections/cloud_server_connections.cpp:178-186 | A server with a link error ranks behind every server of the last pass, failing servers keep their order among each other, and nothing else changes |
| ServerSelection.LinkErrorKeepsInv | aether/cloud_connections/cloud_server_connections.cpp:178-186 | A link error of a server keeps the invariant |
| ServerSelection.ReleaseKeepsInv | aether/cloud_connections/cloud_server_connections.cpp:241-249 | The end of a quarantine keeps the invariant |
| ServerSelection.SelectedComeFirst | aether/cloud_connections/cloud_server_connections.cpp:253-274 | In any order the sort may produce the selected servers come first, in their order |
| ServerSelection.PassEffect | aether/cloud_connections/cloud_server_connections.cpp:133-174 | The two loops of SelectServers in closed form: rank, connection, quarantine and selection of every server after the pass, for any outcome of every new connection |
| ServerSelection.SelectServersEffect | aether/cloud_connections/cloud_server_connections.cpp:133-174 | A pass over the candidates of a sound state gives a sound state, full or with a reselect pending |
| ServerSelection.InitServersInv | aether/cloud_connections/cloud_server_connections.cpp:122-131 | InitServers establishes the invariant from any sound state |
| ServerSelection.NextKeepsInv | aether/cloud_connections/cloud_server_connections.cpp:122-251 | Every step, with any sort order and any outcome of new connections, keeps the invariant; interrupted passes are in InterruptedSelection.StepKeepsInvIff |
| ServerSelection.EveryReachableStateIsInv | aether/cloud_connections/cloud_server_connections.cpp:122-274 | The invariant holds in every state of every run; runs with interrupted passes are in InterruptedSelection.EveryStateIsInv |
| ServerSelection.FullReselectIsIdle | aether/cloud_connections/cloud_server_connections.cpp:122-131 | A reselect of a full selection changes nothing but its own flag |
| ServerSelection.ReselectKeepsHealthyServers | aether/cloud_connections/cloud_server_connections.cpp:213-222 | A reselect never drops, reorders or reconnects a selected server that is healthy |
| ServerSelection.CalmStepUsesWork | aether/cloud_connections/cloud_server_connections.cpp:213-251 | Without link errors every step uses up pending work |
| ServerSelection.IdleIsConverged | aether/cloud_connections/cloud_server_connections.cpp:122-131 | With no work left there is no quarantine and the selection is as large as it can be |
| ServerSelection.WorkLeftCanProceed | aether/cloud_connections/cloud_server_connections.cpp:213-251 | As long as work is left a step is possible |
| ServerSelection.CalmRunsConverge | aether/cloud_connections/cloud_server_connections.cpp:122-251 | Every calm run is no longer than its work, and when the work is used up it has converged |
| InterruptedSelection.HitsEffect | aether/cloud_connections/cloud_server_connections.cpp:178-186 | What a series of link errors does to selection, releases and the pending reselect |
| InterruptedSelection.LoopHolds | aether/cloud_connections/cloud_server_connections.cpp:156-166 | With link errors of any servers coming while connections are created, the loop keeps an exact account of who is selected, quarantined and ranked where |
| InterruptedSelection.InterruptedPassIff | aether/cloud_connections/cloud_server_connections.cpp:133-174 | A pass so interrupted keeps the invariant iff no server hit before its turn survives its turn |
| InterruptedSelection.StepKeepsInvIff | aether/cloud_connections/cloud_server_connections.cpp:122-251 | A step, interrupted or not, keeps the invariant iff it is not such a pass |
| InterruptedSelection.EveryStateIsInv | aether/cloud_connections/cloud_server_connections.cpp:122-274 | The invariant holds in every state of every run without such a pass |
| InterruptedSelection.LateErrorsAreClean | aether/cloud_connections/cloud_server_connections.cpp:156-166 | Errors that hit only servers already taken do no harm |
| InterruptedSelection.NoErrors | aether/cloud_connections/cloud_server_connections.cpp:156-166 | Without errors the interrupted pass is the plain one |
| InterruptedSelection.BothReleasedIsReached | aether/cloud_connections/cloud_server_connections.cpp:178-251 | The state of the failing input is reached by two link errors and two releases |
| InterruptedSelection.SelectedInQuarantine | aether/cloud_connections/cloud_server_connections.cpp:156-166 | An input for which a server ends up selected and in quarantine |
| CloudServerConnections.CloudServerConnection.constructor | aether/cloud_connections/cloud_server_connection.cpp:24-30 | A new server connection is neither connected nor quarantined, with priority 0 |
| CloudServerConnections.CloudServerConnection.BeginConnection | aether/cloud_connections/cloud_server_connection.cpp:43-55 | The new state is the one specified; the result tells whether a connection was begun |
| CloudServerConnections.CloudServerConnection.EndConnection | aether/cloud_connections/cloud_server_connection.cpp:57-62 | The new state is the one specified |
| CloudServerConnections.CloudServerConnections.constructor | aether/cloud_connections/cloud_server_connections.cpp:66-76 | The object starts in a state satisfying the invariant |
| CloudServerConnections.CloudServerConnections.SortByPriority | aether/cloud_connections/cloud_server_connections.cpp:263-271 | The result is a permutation of the servers sorted by priority |
| CloudServerConnections.CloudServerConnections.ServerCandidates | aether/cloud_connections/cloud_server_connections.cpp:253-274 | The result holds exactly the servers not in quarantine, sorted by priority |
| CloudServerConnections.CloudServerConnections.UnselectServer | aether/cloud_connections/cloud_server_connections.cpp:224-232 | The server is erased from the selection, the others keep their order |
| CloudServerConnections.CloudServerConnections.BadServer | aether/cloud_connections/cloud_server_connections.cpp:178-186 | A bad server is ended, made least prioritized, quarantined, unselected, and a reselect queued |
| CloudServerConnections.CloudServerConnections.QuarantineTimer | aether/cloud_connections/cloud_server_connections.cpp:234-251 | The server is quarantined with a release pending |
| CloudServerConnections.CloudServerConnections.ReselectServers | aether/cloud_connections/cloud_server_connections.cpp:213-222 | A reselect is pending, at most one |
| CloudServerConnections.CloudServerConnections.SubscribeToServerState | aether/cloud_connections/cloud_server_connections.cpp:176-211 | A connection that is missing or broken at once makes the server bad; any other is watched from then on |
| CloudServerConnections.CloudServerConnections.SelectServers | aether/cloud_connections/cloud_server_connections.cpp:133-174 | The loops, with the link errors that interrupt them, yield the state specified for the pass, and the update event is emitted once |
| CloudServerConnections.CloudServerConnections.InitServers | aether/cloud_connections/cloud_server_connections.cpp:122-131 | For some sorted order of the candidates: nothing if enough are selected, else the pass |
| CloudServerConnections.CloudServerConnections.OnLinkError | aether/cloud_connections/cloud_server_connections.cpp:194-210 | The link error of a watched server makes the specified step and keeps the invariant |
| CloudServerConnections.CloudServerConnections.OnRelease | aether/cloud_connections/cloud_server_connections.cpp:241-249 | The release task makes the specified step and keeps the invariant |
| CloudServerConnections.CloudServerConnections.OnReselect | aether/cloud_connections/cloud_server_connections.cpp:218-221 | The deferred task, with any link errors meanwhile, makes the specified step and keeps the invariant iff the pass is clean |
| CloudServerConnections.CloudServerConnections.SelectedHaveClients | aether/cloud_connections/cloud_server_connections.cpp:276-286 | Every selected server has a client connection, as the API call asserts |
| CloudServerConnections.CloudServerConnections.ForServers | aether/cloud_connections/cloud_server_connections.h:107-137 | Which servers a request policy visits, in which order |
| EventList.StepKeepsInv | aether/events/event_list.cpp:63-107 | Every locked section, iterator move, call and unlocked decrement keeps the invariant |
| EventList.EveryReachableStateIsInv | aether/events/event_list.cpp:20-107 | The invariant holds in every state of every interleaving |
| EventList.UseCounterIsExact | aether/events/event_list.cpp:70-77 | The counter holds the number of active iterators iff those are fewer than 65536, reads so as a signed number iff they are fewer than 32768, and is zero iff there is none while they are fewer than 65536 |
| EventList.OnlyCleanUpErases | aether/events/event_list.cpp:94-107 | Nothing but a clean-up without active iterators erases a node |
| EventList.ErasedNodesAreUnused | aether/events/event_list.cpp:94-107 | An erased node is dead, in no iterator's window and owned by no subscription |
| EventList.CleanUpEndsAlive | aether/events/event_list.cpp:94-107 | A clean-up without active iterators leaves a list that ends in an alive node and lacks only the dead ones behind it; it erases nothing if no node is alive |
| EventList.LastEmissionCleansUp | aether/events/event_list.cpp:73-77 | A clean-up comes up exactly when the last active iterator ends, and stays until it has run |
| EventList.RemoveHitsItsNode | aether/events/event_list.cpp:84-87 | A subscription removes exactly its own node, which is still in the list and alive |
| EventList.EmissionIsExact | aether/events/events.h:80-88 | The calls are in subscription order, none twice, only of handlers present at the start; each of these has one turn, and is called iff it is alive in that step |
| EventList.TurnIsUnique | aether/events/event_list.cpp:33-44 | A position has at most one turn in an emission |
| EventList.EmissionBounds | aether/events/events.h:80-88 | A handler still alive at the end was called, one dead at the start was not, and the nodes covered are where they were all through |
| EventList.SnapshotCoversList | aether/events/event_list.cpp:63-71 | A snapshot covers the whole list iff it has fewer than 65536 nodes |
| EventList.FullListCallsNobody | aether/events/event_list.cpp:63-71 | An emission over exactly 65536 handlers calls none of them |
| Events.TrimTail | aether/events/event_list.cpp:99-106 | The trailing dead nodes are cut off, unless no node is alive |
| Events.EventHandlersList.constructor | aether/events/event_list.h:112-112 | A new list is empty |
| Events.EventHandlersList.Insert | aether/events/event_list.h:119-124 | The handler is appended alive and its index is its position |
| Events.EventHandlersList.Remove | aether/events/event_list.cpp:84-87 | The node at the index is dead, all others are as they were |
| Events.EventHandlersList.CleanUp | aether/events/event_list.cpp:94-107 | The list makes exactly the clean-up step |
| Events.Iterator.constructor | aether/events/event_list.cpp:20-32 | The iterator stands on the first alive node, or at its end |
| Events.Iterator.Next | aether/events/event_list.cpp:33-44 | The iterator stands on the next alive node within its size, or at its end |
| Events.Event.Subscribe | aether/events/events.h:69-72 | A new subscription owns the index of its handler |
| Events.Event.Reset | aether/events/event_subscription.cpp:45-50 | The subscription is given up and exactly its handler removed; resetting an empty one changes nothing |
| Events.Event.BeginEmission | aether/events/event_list.cpp:79-82 | The snapshot step, with the iterator where the snapshot starts |
| Events.Event.EndEmission | aether/events/event_list.cpp:73-77 | The finishing step and, at counter zero, the clean-up step; subscriptions stay valid |
| Events.Event.EmitLoop | aether/events/events.h:82-87 | The loop ends with every covered handler passed and has called what the model records |
| Events.Event.Emit | aether/events/events.h:60-88 | The steps taken form one emission of the model, nested emissions included, and the calls made are those it records |
| Events.MultiSubscription.CleanUp | aether/events/multi_subscription.cpp:31-35 | Exactly the deleters whose event and handler are still there are kept, in order |
| Events.MultiSubscription.Push | aether/events/multi_subscription.cpp:37-46 | The new deleter is held behind the alive ones |
| Events.MultiSubscription.Reset | aether/events/multi_subscription.cpp:22-29 | Exactly the handlers of held deleters that are alive are removed, none if the event is gone |
| Mstream.LittleEndianRoundTrip | aether/mstream.h:151-165 | A number of a width is its little-endian bytes, and back |
| MstreamWire.LittleEndianDigits | aether/mstream.h:151-165 | Byte i of a written number is its digit i in base 256 |
| MstreamWire.CastDigits | aether/mstream.h:462-498 | The same for a number cast to its width, in two's complement if it is negative |
| MstreamWire.Uint32OnWire | aether/mstream_buffers.h:28-30 | The default size type writes four bytes, least significant first, for every size below 2^32 |
| MstreamWire.MaskOnWire | aether/types/nullable_type.h:57-95 | Bit i of the mask is set iff member i is absent |
| MstreamWire.MicrosAreTruncated | aether/mstream.h:462-498 | A time is written as whole microseconds, cut towards zero |
| MstreamWire.EncodingIsWire | aether/mstream.h:151-685 | For every type and value the bytes written are those of a format described byte by byte: digits, four-byte sizes, tags |
| MstreamWire.WireIsRead | aether/mstream.h:151-685 | Every representable value is read back from these bytes, wherever they lie |
| MstreamForeign.StrayTags | aether/mstream.h:500-586 | What is read for tags that are never written: false, absent, the default alternative, or a failure |
| MstreamForeign.RepeatedKeys | aether/mstream.h:356-374 | Of map rows with repeated keys exactly the first of each key is kept, and the reader is behind all |
| MstreamForeign.EarlyEnd | aether/mstream.h:272-288 | A list keeps exactly the elements that could be read, vectors and deques their size with these in front; the loop reports success iff all could be |
| MstreamForeign.BlockIsOneCall | aether/mstream.h:242-260 | A block of scalars is one write call, elements of a deque are one each |
| MstreamRoundTrip.Uint32IsLawful | aether/mstream_buffers.h:29-68 | The default size type reads back what it wrote, below 2^32; its bytes are given by MstreamWire.Uint32OnWire |
| MstreamRoundTrip.ScalarRoundTrip | aether/mstream.h:151-207 | Numbers, enums and bools are read back |
| MstreamRoundTrip.BlockRoundTrip | aether/mstream.h:242-260 | A block of scalars written as a whole is read back element by element |
| MstreamRoundTrip.DurationRoundTripIff | aether/mstream.h:462-478 | A duration is read back iff it is a whole, non-negative number of microseconds below 2^32 |
| MstreamRoundTrip.TimePointRoundTripIff | aether/mstream.h:480-498 | A time point is read back iff it is a whole number of microseconds in [-2^63, 2^63) |
| MstreamRoundTrip.BeforeTheEpoch | aether/mstream.h:462-498 | An instant before the epoch that is lost as a duration and kept as a time point |
| MstreamRoundTrip.RoundTrip | aether/mstream.h:151-685 | For every type and representable value, wherever its bytes lie in the data, reading yields the value and leaves the reader exactly behind it |
| MstreamRoundTrip.SeqRoundTrip | aether/mstream.h:242-288 | The case of vectors, deques and lists |
| MstreamRoundTrip.ArrayRoundTrip | aether/mstream.h:290-336 | The case of arrays |
| MstreamRoundTrip.MapRoundTrip | aether/mstream.h:339-393 | The case of maps |
| MstreamRoundTrip.OptRoundTrip | aether/mstream.h:500-526 | The case of optionals and owning pointers |
| MstreamRoundTrip.VariantRoundTrip | aether/mstream.h:528-586 | The case of variants |
| MstreamRoundTrip.NullableRoundTrip | aether/types/nullable_type.h:49-115 | The case of structures with a mask of absent members |
| MstreamRoundTrip.ReadBackWhatWasWritten | aether/mstream.h:151-685 | The theorem for a value written between any other bytes |
| MstreamTruncation.TruncationIsNoticed | aether/mstream.h:224-336 | For every type whose readers stop at the first failed read (numbers, strings, times, sequences, arrays, optionals, variants, pointers of such) reading any strict prefix of an encoding reports failure |
| MstreamTruncation.EachCut | aether/mstream.h:272-288 | An element loop over an input that ends inside it reports failure |
| MstreamTruncation.Uint32Notices | aether/mstream_buffers.h:55-64 | The default size type reports an input that ends inside a size |
| MstreamTruncation.StructNoticesIff | aether/mstream.h:662-672 | On any input a structure of numbers reports success iff its last number finds enough bytes after those before it took or skipped theirs |
| MstreamTruncation.PairNoticesIff | aether/mstream.h:400-404 | A pair of numbers lets a truncation pass iff the second fits and the first does not |
| MstreamTruncation.PairAlwaysNoticesIff | aether/mstream.h:400-404 | It notices every truncation iff the second is no narrower than the first |
| MstreamTruncation.TruncationCanGoUnnoticed | aether/mstream.h:400-404 | One byte of five that is read without an error |
| MstreamBuffers.LimitVectorWriter.Write | aether/mstream_buffers.h:80-90 | The bytes are appended if the total stays below the limit, else writing ends |
| MstreamBuffers.OutStream.Write | aether/mstream.h:69-76 | The bytes go to the buffer as one write call: appended, or taken as the limit allows |
| MstreamBuffers.StoppedStaysStopped | aether/mstream_buffers.h:81-85 | Once stopped, nothing is ever written again |
| MstreamBuffers.LongestPrefixBelowLimit | aether/mstream_buffers.h:74-95 | The writer holds the longest prefix of chunks whose total size stays below the limit |
| MstreamBuffers.LimitedIsPrefixOfUnlimited | aether/mstream_buffers.h:74-95 | What it holds is a prefix of what the unlimited writer would hold, and all of it unless it stopped |
| MstreamBuffers.LimitRunConcat | aether/mstream_buffers.h:74-95 | Writing two lists of chunks is writing their concatenation |
| MstreamBuffers.RepIsShaped | aether/mstream.h:151-685 | Values that survive the trip are values of their type, so the operators write them |
| MstreamBuffers.Save | aether/mstream.h:151-685 | For any value of the type, those that do not survive the trip included, the operators make exactly the specified write calls |
| MstreamBuffers.SaveSeq | aether/mstream.h:242-270 | The size, then a block of scalars or the elements one by one |
| MstreamBuffers.SaveMap | aether/mstream.h:339-353 | The size, then the rows |
| MstreamBuffers.SaveNullable | aether/types/nullable_type.h:57-95 | The mask of absent members, then those present |
| MstreamBuffers.SaveVariant | aether/mstream.h:528-541 | The tag of the alternative, then its value; tag 255 alone for a valueless one |
| MstreamBuffers.SaveInto | aether/mstream_buffers.h:30-43 | A value written into an unlimited buffer appends its encoding |
| MstreamBuffers.SaveLimited | aether/mstream_buffers.h:74-95 | Values written into a limited buffer leave the longest prefix of their write calls that stays below the limit |
| MstreamBuffers.VectorReader.ReadBytes | aether/mstream_buffers.h:55-64 | Bytes are read and the offset moved, or nothing is read and the result is no |
| MstreamBuffers.Load | aether/mstream.h:151-685 | The operators compute exactly what decoding specifies, on any input, complete or not |
| MstreamBuffers.LoadSeq | aether/mstream.h:250-288 | The case of vectors, deques and lists on any input |
| MstreamBuffers.LoadRows | aether/mstream.h:356-374 | The rows of a map on any input |
| MstreamBuffers.LoadVariant | aether/mstream.h:543-586 | The case of variants on any input |
| MstreamBuffers.LoadMembers | aether/types/nullable_type.h:97-115 | The members of a structure with a mask on any input |
| ApiProtocol.MessageMonotone | aether/api_protocol/api_pack_parser.h:43-50 | Parsing a message never moves the reader back, so the parser's loop ends |
| ApiRoundTrip.FindIsPick | aether/api_protocol/api_class_impl.h:193-231 | Looking an id up goes through the methods of the API and of its extensions in order |
| ApiRoundTrip.EveryMethodIsFound | aether/api_protocol/api_class_impl.h:193-231 | With distinct ids every registered method is found under its id |
| ApiWire.InvokeOnWire | aether/api_protocol/api_pack_parser.h:83-87 | A call is the id of its method and its arguments |
| ApiWire.AskOnWire | aether/api_protocol/api_method.h:76-94 | A call with a result has its request id in four bytes before the arguments |
| ApiWire.EnterOnWire | aether/api_protocol/api_context.h:67-74 | The calls of a sub-API stand behind the arguments with their length before them |
| ApiWire.ResultOnWire | aether/api_protocol/send_result.h:62-68 | A result is message 0: request id and value, without a length |
| ApiWire.ErrorOnWire | aether/api_protocol/return_result_api.h:29-59 | An error is message 1: request id, type in one byte, code in four |
| ApiRoundTrip.ErrorCodeIsExact | aether/api_protocol/protocol_context.cpp:58-58 | The code delivered is a signed 32-bit number with the bits of the code written, and equal to it below 2^31 |
| ApiRoundTrip.ExpectedMatches | aether/api_protocol/protocol_context.cpp:36-60 | Event by event, the expected ones are the calls made: same method, arguments, nesting, request, value, error type and code |
| ApiRoundTrip.MessageRead | aether/api_protocol/api_class_impl.h:63-147 | A packed message is dispatched to its method with its arguments, and the reader stands behind it |
| ApiRoundTrip.EnterRead | aether/api_protocol/api_class_impl.h:128-147 | The calls inside a sub-packet are dispatched, nested as they were packed |
| ApiRoundTrip.ResultRead | aether/api_protocol/send_result.h:54-67 | A result without length is read with the type its request is registered with |
| ApiRoundTrip.PacketRead | aether/api_protocol/api_pack_parser.h:43-50 | A packet is dispatched as the same calls with the same arguments, order and nesting, each promise gets the value or the error type and code written for it, and the parser ends exactly at the end |
| ApiRoundTrip.PrefixRead | aether/api_protocol/api_pack_parser.h:43-50 | The same wherever the packet stands in the data, and the parser then goes on behind it |
| ApiRoundTrip.UnknownIdCancels | aether/api_protocol/api_class_impl.h:246-254 | An unknown id behind any packet: its calls are dispatched, nothing of what follows is |
| ApiRoundTrip.UnknownRequestFaults | aether/api_protocol/protocol_context.cpp:36-60 | A result or error for a request that is not pending: the calls before it are dispatched, then the missing response is used |
| ApiRoundTrip.PackThenParse | aether/api_protocol/api_context.h:38-74 | The theorem for a whole packet, for any size type that reads back what it wrote, and whatever methods and promise callbacks do to the pending responses meanwhile |
| ApiRoundTrip.Uint32Qualifies | aether/mstream_buffers.h:29-68 | The default size type is one of them; its bytes are given by MstreamWire.Uint32OnWire |
| ApiOverRegistry.ResultsAreFramed | aether/api_protocol/protocol_context.cpp:36-60 | Over any run of the bounded registry, evictions and callbacks included, each result is read with the type pending at its turn, its callback finds the list without the entry, each promise gets the value or the error type and code written for it, and the parser ends at the end |
| ApiOverRegistry.DeliveryErases | aether/api_protocol/protocol_context.cpp:96-110 | The registry's delivery leaves exactly the list the parser hands to the callback |
| ApiOverRegistry.MessagesCompleteDistinctEntries | aether/api_protocol/protocol_context.cpp:36-60 | No two messages of a packet complete the same entry |
| ApiRoundTrip.PackableIff | aether/api_protocol/protocol_context.h:60-69 | The packers' stack suffices iff the calls are nested at most four deep |
| ApiPackParser.FoundDepth | aether/api_protocol/api_class_impl.h:193-231 | Dispatching a method needs no more parsers than its API is nested |
| ApiPackParser.DepthIsBounded | aether/api_protocol/api_pack_parser.h:43-50 | Whatever its bytes, no packet makes parsing go deeper than the API is nested |
| ApiPackParser.ApiContext.CallMethod | aether/api_protocol/api_context.h:94-113 | A method called in a context puts its message into the context's packet and leaves the stack of packet stacks as it was |
| ApiPackParser.ApiContext.Pack | aether/api_protocol/api_context.h:115-122 | The packet holds the calls made, the context is emptied and the packers' stack is as it was |
| ApiPackParser.PackPacket | aether/api_protocol/api_context.h:44-49 | The data are the packed calls and the packers' stack is as it was |
| ApiPackParser.PackMessage | aether/api_protocol/api_pack_parser.h:83-87 | The bytes of the call are appended |
| ApiPackParser.PackPayload | aether/api_protocol/api_context.h:67-74 | A child packet is packed by a packer of its own and written with its length |
| ApiPackParser.ParsePacket | aether/api_protocol/api_pack_parser.h:43-50 | On any input that nests no deeper than the parsers allow, the loop makes exactly the events specified, and the parsers' stack is as it was |
| ApiPackParser.ParseNext | aether/api_protocol/api_class_impl.h:246-254 | One message is dispatched; an unknown id cancels the rest |
| ApiPackParser.LoadMethod | aether/api_protocol/api_class_impl.h:201-221 | The message is read and the method found is invoked with it |
| ApiPackParser.TakePending | aether/api_protocol/protocol_context.cpp:96-110 | The first entry of the id is found and erased, the others keep their order; none iff no entry has the id |
| ApiPackParser.SetSendResultResponse | aether/api_protocol/protocol_context.cpp:36-47 | The registered type is read, the entry is off the list when its callback is called, and an unknown id is a fault |
| ApiPackParser.SetSendErrorResponse | aether/api_protocol/protocol_context.cpp:49-60 | The same for an error, delivered with its type and the signed number that has the bits of its code |
| PendingRegistry.StepKeepsInv | aether/api_protocol/protocol_context.cpp:36-122 | Every create, completion and return of a callback keeps the invariant |
| PendingRegistry.EveryReachableStateIsInv | aether/api_protocol/protocol_context.cpp:36-122 | In every state entries are in creation order, each created entry is pending or was called exactly once, and the pool holds exactly the pending ones and those whose callback runs |
| PendingRegistry.CompletionIsFinal | aether/api_protocol/protocol_context.cpp:36-67 | An entry leaves the list only by its callback being called, once and for all |
| PendingRegistry.DeliveryIsLogged | aether/api_protocol/protocol_context.cpp:36-60 | A delivery takes the first entry of its id and no other, and calls it with the outcome given |
| PendingRegistry.LogTellsOutcomes | aether/api_protocol/protocol_context.cpp:36-67 | In every state each callback was called by the one step that took its entry off the list, with the outcome delivered, or as evicted by a creation |
| PendingRegistry.EvictionChoice | aether/api_protocol/protocol_context.cpp:75-88 | Eviction takes the entry of the same id, else the oldest of a full list, else none |
| PendingRegistry.AllocationFailsIff | aether/api_protocol/protocol_context.h:83-90 | A step fails to allocate iff the id is not pending, the list has room and pending entries and running callbacks fill the pool |
| PendingRegistry.NestedCreateFails | aether/api_protocol/protocol_context.h:83-90 | Subscribing a new id from the callback of an entry of a full list fails, for every full state |
| PendingRegistry.FullPoolFails | aether/api_protocol/protocol_context.h:83-90 | A concrete run of three steps that fails |
| PendingRegistry.CreateCompletes | aether/api_protocol/protocol_context.h:74-90 | Whatever its eviction callback does, a creation from outside callbacks succeeds and ends with its entry at the back, and another entry has the same id iff the callback registered it |
| PendingRegistry.DeliverForgetsId | aether/api_protocol/protocol_context.cpp:96-110 | A completion takes exactly its own id from what the parser finds iff no other entry has that id |
| PendingRegistry.DistinctIdsIff | aether/api_protocol/protocol_context.cpp:75-81 | A step makes two entries share an id iff it allocates an id its eviction callback has registered again |
| PendingRegistry.IdsStayDistinct | aether/api_protocol/protocol_context.cpp:75-81 | Without such a step ids are distinct in every state of a run |
| PendingRegistry.DuplicateIds | aether/api_protocol/protocol_context.cpp:75-81 | A concrete run that leaves two entries with one id |
| PendingResponses.ResponseRegistry.constructor | aether/api_protocol/protocol_context.cpp:28-28 | A new registry is empty |
| PendingResponses.ResponseRegistry.TakePending | aether/api_protocol/protocol_context.cpp:96-110 | The first entry of the id is found and erased, or none is |
| PendingResponses.ResponseRegistry.TakeOldestPending | aether/api_protocol/protocol_context.cpp:112-122 | The first entry is erased |
| PendingResponses.ResponseRegistry.SetResponse | aether/api_protocol/protocol_context.cpp:36-60 | The delivery step up to the callback |
| PendingResponses.ResponseRegistry.CreatePendingResponse | aether/api_protocol/protocol_context.h:74-90 | The creation step up to the eviction callback, or to its end; it fails exactly under the stated condition |
| PendingResponses.ResponseRegistry.CallbackReturned | aether/api_protocol/protocol_context.cpp:62-73 | The slot is returned and an interrupted creation completed, which never fails |
| PendingResponses.ResponseRegistry.Drain | aether/api_protocol/protocol_context.cpp:29-34 | The destructor leaves no entry and no slot in use |
| RequestRetries.AskAllServers | aether/cloud_connections/cloud_request.cpp:85-101 | A pass keeps known servers as they are and adds unknown ones fresh |
| RequestRetries.AskAllSent | aether/cloud_connections/cloud_request.cpp:85-101 | Requests go, in order, to the visited servers that are not exhausted |
| RequestRetries.FailsByItselfIff | aether/cloud_connections/cloud_request.cpp:103-114 | The request fails on its own account iff it knows servers, all are exhausted and none else is visited |
| RequestRetries.StepKeepsInv | aether/cloud_connections/cloud_request.cpp:84-254 | Every step keeps the budgets, and a request whose servers are all exhausted has its task queued |
| RequestRetries.EveryReachableStateIsInv | aether/cloud_connections/cloud_request.cpp:179-228 | In every state a server in use has at most the maximum of retries, an exhausted one at least that |
| RequestRetries.ExhaustedIsFinal | aether/cloud_connections/cloud_request.cpp:95-97 | An exhausted server stays exhausted and nothing is sent to it again |
| RequestRetries.ChargesAreBounded | aether/cloud_connections/cloud_request.cpp:196-228 | The retry counter of a server in use is the number of timeouts and failed writes that hit it, and at most maximum + 1 hit any server before it is exhausted |
| RequestRetries.TimeoutsUseBudget | aether/cloud_connections/cloud_request.cpp:211-228 | The bound is reached: maximum timeouts leave a server in use, one more exhausts it |
| RequestHistory.StepEffect | aether/cloud_connections/cloud_request.cpp:84-254 | A step ends the request iff it is the listener's, with the result given, or a pass that gives up; it queues a pass iff the servers changed, a write failed, a channel changed or a server timed out once too often; it restreams iff it is a timeout within the budget |
| RequestHistory.PassQueuedIff | aether/cloud_connections/cloud_request.cpp:179-230 | In every state of a running request a pass is queued iff one was asked for since the last |
| RequestHistory.EndedIff | aether/cloud_connections/cloud_request.cpp:103-114 | A request has ended iff its last step was the listener's or a pass that gave up, with that result |
| RequestHistory.ExhaustedIff | aether/cloud_connections/cloud_request.cpp:179-228 | A server is exhausted iff a timeout or a changed channel hit it with its retries used up, or a failed write used up the last |
| RequestHistory.RestreamsAreBounded | aether/cloud_connections/cloud_request.cpp:211-228 | No server is restreamed more often than the maximum of retries |
| CloudRequest.CloudRequest.constructor | aether/cloud_connections/cloud_request.cpp:30-62 | All servers of the cloud are known and fresh, and sending is queued |
| CloudRequest.CloudRequest.MakeRequest | aether/cloud_connections/cloud_request.cpp:84-115 | The queued pass makes its step, sends to exactly the servers specified and ends the request exactly under the stated condition |
| CloudRequest.CloudRequest.CheckExhausted | aether/cloud_connections/cloud_request.cpp:103-110 | True iff servers are known and all are exhausted |
| CloudRequest.CloudRequest.OnChannelChanged | aether/cloud_connections/cloud_request.cpp:179-194 | The step of a changed channel, which is not charged |
| CloudRequest.CloudRequest.OnWriteFailed | aether/cloud_connections/cloud_request.cpp:196-209 | The step of a failed write |
| CloudRequest.CloudRequest.OnServerRequestTimeout | aether/cloud_connections/cloud_request.cpp:211-228 | The step of a timeout |
| CloudRequest.CloudRequest.ServersChanged | aether/cloud_connections/cloud_request.cpp:230-230 | Sending is queued |
| CloudRequest.CloudRequest.Finish | aether/cloud_connections/cloud_request.cpp:247-254 | No server, no task, and the result |
| SuspendBlocking.StepExactIff | aether/client_connectivity_policy.cpp:51-78 | A step on handles keeps the count exact iff at most 255 are alive after it; the event fires exactly when the last is given up |
| SuspendBlocking.CountIsExact | aether/client_connectivity_policy.cpp:140-155 | Over any run with at most 255 live handles the count is their number, suspending is allowed iff there is none, and the event fired once per one-to-zero change |
| SuspendBlocking.ReplaceFiresNothing | aether/client_connectivity_policy.cpp:63-71 | Assigning a fresh blocker to a holder fires nothing and leaves the policy as it was if one was held |
| SuspendBlocking.TooManyHandles | aether/client_connectivity_policy.cpp:140-150 | With one handle more the count is zero while handles are alive |
| Pinging.StepKeepsInv | aether/cloud_connections/ping_cloud_servers.cpp:62-225 | Every step keeps each thing waited for covered by a blocker, and a stopped ping without any |
| Pinging.EveryReachableStateIsInv | aether/cloud_connections/ping_cloud_servers.cpp:32-225 | This holds in every state of every run with a nondecreasing clock |
| Pinging.WindowBlocksSuspend | aether/cloud_connections/ping_cloud_servers.cpp:203-209 | Before the window of the last ping has passed, and while a ping is in flight, suspending is not allowed |
| Pinging.StoppedIsSilent | aether/cloud_connections/ping_cloud_servers.cpp:62-72 | After Stop no blocker is held in any later state, and nothing is sent or restreamed |
| Pinging.PingsKeepTheirDistance | aether/cloud_connections/ping_cloud_servers.cpp:129-179 | Successive pings are at least one interval apart, and the policy was told when the next is due |
| PingHistory.SentIff | aether/cloud_connections/ping_cloud_servers.cpp:103-179 | A ping is sent iff a start or the link finds a channel and the ping was not stopped, and then the next start is scheduled one interval later, the policy told, and the window opened |
| PingHistory.PingGoesOnIff | aether/cloud_connections/ping_cloud_servers.cpp:129-179 | In every state that is not stopped a ping is to come iff every start so far found client and channel; its start is one interval after the last ping, or the link is waited for |
| PingHistory.FirstStart | aether/cloud_connections/ping_cloud_servers.cpp:47-58 | The first start is at the announced time if that is to come, else at once and blocked |
| PingHistory.FirstPingIsNotEarly | aether/cloud_connections/ping_cloud_servers.cpp:47-58 | No ping is sent before the first start |
| PingHistory.RestreamIff | aether/cloud_connections/ping_cloud_servers.cpp:181-225 | A restream is queued iff a ping has failed since the last restream task and the stop, and each task with a client restreams once |
| PingHistory.HeldAt | aether/cloud_connections/ping_cloud_servers.cpp:62-216 | Each blocker is held iff its reason is there: a ping in flight or the first to come, an open window, a queued restream |
| PingHistory.SuspendIff | aether/cloud_connections/ping_cloud_servers.cpp:32-225 | Suspending is allowed iff nobody else blocks it and the ping has no such reason |
| ServerPing.ClientConnectivityPolicy.IncrementSuspendBlock | aether/client_connectivity_policy.cpp:140-143 | The count goes up in eight bits and suspending is not allowed |
| ServerPing.ClientConnectivityPolicy.DecrementSuspendBlock | aether/client_connectivity_policy.cpp:145-155 | The count goes down, and at zero suspending is allowed and the event fires |
| ServerPing.SuspendBlocker.Acquire | aether/client_connectivity_policy.cpp:51-55 | The handle refers to the policy, which counts it |
| ServerPing.SuspendBlocker.MoveFrom | aether/client_connectivity_policy.cpp:59-61 | The new handle refers to what the other did, the other to nothing, and no count changes |
| ServerPing.SuspendBlocker.Reset | aether/client_connectivity_policy.cpp:73-78 | The handle refers to nothing, and a policy it referred to counts one less |
| ServerPing.SuspendBlocker.Assign | aether/client_connectivity_policy.cpp:63-71 | What was held is given up and the other's policy taken over; assigning to itself changes nothing |
| ServerPing.ServerPing.constructor | aether/cloud_connections/ping_cloud_servers.cpp:32-58 | The ping waits for its time, or holds a blocker for its first ping |
| ServerPing.ServerPing.Stop | aether/cloud_connections/ping_cloud_servers.cpp:62-72 | All tasks are cancelled and all three blockers given up, the policy counting each |
| ServerPing.ServerPing.MakePing | aether/cloud_connections/ping_cloud_servers.cpp:103-179 | A ping is sent with its blocker, window, next start and report to the policy, unless the ping is stopped or there is no channel |
| ServerPing.ServerPing.Start | aether/cloud_connections/ping_cloud_servers.cpp:87-101 | Without client the chain ends, without link it waits, else a ping is made |
| ServerPing.ServerPing.OnPingResult | aether/cloud_connections/ping_cloud_servers.cpp:124-127 | The ping's blocker is given up, after a failure only once the restream has its own |
| ServerPing.ServerPing.OpenRxWindow | aether/cloud_connections/ping_cloud_servers.cpp:203-209 | The window's blocker is held anew and its end scheduled at the sending time plus the window |
| ServerPing.ServerPing.ScheduleRestream | aether/cloud_connections/ping_cloud_servers.cpp:211-216 | Unless stopped, a restream is queued under a blocker of its own |
| StageQueue.StepKeepsInv | aether/actions/actions_queue.h:176-210 | Every push, stop, return of a start and finish keeps the invariant |
| StageQueue.EveryReachableStateIsInv | aether/actions/actions_queue.h:176-210 | Stages are started in push order, once each, at most the last is unfinished, nothing is queued while none runs, and each stage pushed is in exactly one place |
| StageQueue.DroppedIsNeverStarted | aether/actions/actions_queue.h:185-193 | A stage dropped by Stop is not started in any later state |
| StageQueue.DroppedIff | aether/actions/actions_queue.h:185-193 | Exactly the stages queued when the queue was stopped are dropped |
| StageQueue.StoppedIsNeverStarted | aether/actions/actions_queue.h:185-193 | A stage pushed before a stop and not started by then is never started |
| StageQueue.LastStartedIsConcerned | aether/actions/actions_queue.h:185-210 | A stage finishes, is waited for and is asked to stop exactly when it is the one started last, in the steps that say so |
| StageQueue.IdleIsComplete | aether/actions/actions_queue.h:196-210 | When nothing runs, every stage pushed has finished or was dropped |
| ActionsQueue.FollowsInv | aether/actions/actions_queue.h:196-210 | A sequence of queue steps keeps the invariant and what was started |
| ActionsQueue.ActionsQueue.Push | aether/actions/actions_queue.h:176-183 | The stage is pushed under its number, and if none was running the stages with the numbers the queue prescribes are started until one is left unfinished or none is queued |
| ActionsQueue.ActionsQueue.RunStage | aether/actions/actions_queue.h:196-210 | The loop ends, whatever the stages push or stop while they start, and starts exactly the stages the queue prescribes, in that order |
| ActionsQueue.ActionsQueue.StartStage | aether/actions/actions_queue.h:130-133 | What a stage does while it starts is a sequence of pushes and stops of the queue |
| ActionsQueue.ActionsQueue.Stop | aether/actions/actions_queue.h:185-193 | The queue is dropped and exactly the running stage is asked to stop |
| ActionsQueue.ActionsQueue.OnFinished | aether/actions/actions_queue.h:200-203 | The running stage is done and the next ones are started as the queue prescribes |
| CloudResolution.SplitCoversRequest | aether/connection_manager/client_cloud_manager.cpp:75-100 | Cached servers and missing ids together are the request |
| CloudResolution.CollectedProperties | aether/ae_actions/get_servers.cpp:63-85 | Collected descriptors have distinct ids, all of them asked for |
| CloudResolution.CollectedIsMissing | aether/ae_actions/get_servers.cpp:82-84 | A successful request has collected exactly the missing ids |
| CloudResolution.RequestSucceedsIff | aether/ae_actions/get_servers.cpp:63-85 | The request succeeds iff no id is missing twice and each has been answered |
| CloudResolution.MissingTwice | aether/ae_actions/get_servers.cpp:72-84 | A request for an id missing twice never succeeds, whatever the answers |
| CloudResolution.BuildEffect | aether/connection_manager/client_cloud_manager.cpp:45-73 | Every descriptor yields a server with its id; servers known are kept, the others are stored |
| CloudResolution.SortedIsUnique | aether/connection_manager/client_cloud_manager.cpp:131-144 | Sorting by first occurrence has one result only, however the sort treats equal ranks |
| CloudResolution.ResolutionIsExact | aether/connection_manager/client_cloud_manager.cpp:45-144 | Whatever is cached and answered, the result has exactly the requested ids, in the requested order iff equal ids were side by side, so always for distinct ids |
| CloudResolution.ScatteredIds | aether/connection_manager/client_cloud_manager.cpp:131-144 | A request for which the order is not kept |
| ResolvedServers.LoadedAreCached | aether/connection_manager/client_cloud_manager.cpp:88-95 | The servers found are those the cache has under their ids |
| ResolvedServers.EndpointsDescribe | aether/connection_manager/client_cloud_manager.cpp:57-62 | Port p of address a has its endpoint, with ip, port and protocol, behind those of the addresses before it, and there is no other |
| ResolvedServers.CollectedIsFirst | aether/ae_actions/get_servers.cpp:63-85 | A collected descriptor is the first answer for its id |
| ResolvedServers.BuiltFromDescriptor | aether/connection_manager/client_cloud_manager.cpp:45-73 | A server that was not known has the id and the endpoints of its descriptor |
| ResolvedServers.ResolvedAreStored | aether/connection_manager/client_cloud_manager.cpp:45-144 | The servers resolved are those stored under their ids afterwards, what was stored is as it was, and each new one is made from the first answer for it |
| ServerResolving.Aether.StoreServer | aether/aether.cpp:113-116 | The server is stored unless its id is taken |
| ServerResolving.Aether.SplitMissingLoaded | aether/connection_manager/client_cloud_manager.cpp:84-96 | The loop yields the specified split, and the servers found are the cached ones |
| ServerResolving.Aether.BuildNewServers | aether/connection_manager/client_cloud_manager.cpp:45-73 | The loop yields the specified servers and cache |
| ServerResolving.MakeEndpoints | aether/connection_manager/client_cloud_manager.cpp:58-63 | One endpoint for each port of each address, in order, with ip, port and protocol in their places |
| ServerResolving.GetServersAction.GetResponse | aether/ae_actions/get_servers.cpp:63-85 | An answer is collected as specified; the request succeeds with the answer that leaves no id open |
| ServerResolving.SortNewServers | aether/connection_manager/client_cloud_manager.cpp:131-144 | The result is a permutation of the servers in the order of first occurrence |
| ServerResolving.Resolve | aether/connection_manager/client_cloud_manager.cpp:222-231 | With any servers stored meanwhile, the pipeline yields the requested ids, in order for distinct ids, exactly if the request can succeed; the servers are those stored afterwards, no stored one changes, and a new one has the endpoints of the first descriptor for it |
| CloudVersions.StepKeepsInv | aether/connection_manager/client_cloud_manager.cpp:233-309 | A batch or the end of a build keeps the invariant and lowers no version |
| CloudVersions.EveryReachableStateIsInv | aether/connection_manager/client_cloud_manager.cpp:233-309 | In every state a subject has at most one build in flight, and its builds were for ever newer versions |
| CloudVersions.VersionsNeverDecrease | aether/connection_manager/client_cloud_manager.cpp:254-261 | The cached version of a subject never decreases over a run |
| CloudUpdates.BuiltIffNewer | aether/connection_manager/client_cloud_manager.cpp:233-309 | A configuration that is taken starts a build of its subject and version iff the subject is new or cached with an older version; what is cached, confirmed and announced then, and that no other subject changes |
| CloudUpdates.ReachedIsBuiltIffNewer | aether/connection_manager/client_cloud_manager.cpp:233-270 | The same for each configuration of a batch before the cut, in the state the ones before it have left |
| CloudUpdates.CacheTellsHistory | aether/connection_manager/client_cloud_manager.cpp:233-309 | In every state a subject is cached iff it is the own one or was built, with the version built last; it has a cloud iff it is the own one or a build succeeded; each build was announced once or is running |
| CloudVersions.BatchIsCut | aether/connection_manager/client_cloud_manager.cpp:262-264 | A batch ends in the state of its first configuration for a subject being finalized |
| CloudVersions.BatchIsWholeIff | aether/connection_manager/client_cloud_manager.cpp:262-264 | All of a batch is taken iff no configuration comes to a subject being finalized by then |
| CloudVersions.CutLosesIff | aether/connection_manager/client_cloud_manager.cpp:262-264 | The cut loses something iff a configuration behind it would have changed the state |
| CloudVersions.DroppedWithAnother | aether/connection_manager/client_cloud_manager.cpp:262-264 | Two batches for which an unrelated subject is dropped |
| CloudVersions.FailureIsForGood | aether/connection_manager/client_cloud_manager.cpp:289-293 | After a failed build the subject's entry never changes again |
| CloudVersions.NeverBuiltAgain | aether/connection_manager/client_cloud_manager.cpp:289-293 | A failed build after which a newer version is not built |
| ClientCloudManager.ClientCloudManager.constructor | aether/connection_manager/client_cloud_manager.cpp:148-163 | The cache holds the client's own cloud, confirmed, with version 0 |
| ClientCloudManager.ClientCloudManager.CloudConfigs | aether/connection_manager/client_cloud_manager.cpp:233-270 | The loop makes the specified step and keeps the invariant |
| ClientCloudManager.ClientCloudManager.FinalizeCloudConfig | aether/connection_manager/client_cloud_manager.cpp:272-295 | A build is started, and completed if it ends at once |
| ClientCloudManager.ClientCloudManager.BuildCompleted | aether/connection_manager/client_cloud_manager.cpp:281-309 | A cloud is registered and finalizing is over, or the failure is recorded, and the update event is emitted with the outcome |
| StorageHistory.LoadTellsHistory | aether/domain_storage/ram_domain_storage.cpp:95-158 | Load returns the last payload stored since the latest removal or clean-up, and "removed" iff the object was removed and nothing of it stored since |
| StorageHistory.OverlayTellsHistory | aether/domain_storage/sync_domain_storage.cpp:37-43 | The overlay returns this, and the read-only entry where the history has none |
| StorageHistory.RemovedEntryResurfaces | aether/domain_storage/sync_domain_storage.cpp:37-43 | Storing one class or version of a removed object shows the read-only data of the others again |
| DomainStorage.RamDomainStorage.SaveData | aether/domain_storage/ram_domain_storage.cpp:147-158 | The payload is stored for the query, everything else is as it was |
| DomainStorage.RamDomainStorage.Load | aether/domain_storage/ram_domain_storage.cpp:95-132 | The result specified for the state |
| DomainStorage.RamDomainStorage.Remove | aether/domain_storage/ram_domain_storage.cpp:134-143 | The object is marked removed |
| DomainStorage.RamDomainStorage.CleanUp | aether/domain_storage/ram_domain_storage.cpp:145-145 | The store is empty |
| DomainStorage.SyncDomainStorage.Store | aether/domain_storage/sync_domain_storage.cpp:24-27 | The history grows by the store, the read-only store does not change |
| DomainStorage.SyncDomainStorage.Remove | aether/domain_storage/sync_domain_storage.cpp:45-47 | The history grows by the removal, the read-only store does not change |
| DomainStorage.SyncDomainStorage.CleanUp | aether/domain_storage/sync_domain_storage.cpp:49-49 | The history grows by the clean-up, the read-only store does not change |
| DomainStorage.SyncDomainStorage.Load | aether/domain_storage/sync_domain_storage.cpp:37-43 | The result the history tells |

## Left out

- Sockets, DNS, pollers, radio and modem drivers, AT commands and the C API: input and output, which appear as steps or parameters only.
- Crypto providers, key derivation and nonces.
- The scheduler: a bag of tasks that run once they are due, in any order; tasks dropped by a full task pool are not modelled.
- Clocks: the time is a parameter that never decreases; the overflow of a duration's 64-bit count is not modelled.
- ApiRoundTrip.PackThenParse: holds for every size type that reads back what it wrote, such as the 32-bit one of the default buffers; that the tiered one of the message buffers is such is not proved, because numeric/tiered_int.h is not part of this model.
- Codec values left by failed reads of uninitialised variables are taken as zero; vectors of bool and of raw pointers are left out.
- Codec structures with absent members: only up to eight members, as the selection of a wider mask type does not compile.
- Maps are written in a given order of their rows, which is the iteration order of the container.
- API dispatch: a sub-API's method is taken to parse its sub-packet exactly once, and calls collected in a child packet after the parent call was pushed are given as a finished tree.
- ApiPackParser.ParsePacket: requires that the packet nests no deeper than the parsers' stack allows, because the code asserts it.
- PendingResponses.ResponseRegistry.SetResponse: requires the request id to be pending, because the code uses a missing response otherwise.
- CloudRequest.CloudRequest.MakeRequest: does not cover callbacks that end the request while it is being sent, because the code goes on to use the entry they have cleared.
- Cloud requests: `RequestRetries` allows timeouts, failed writes and channel changes of any server at any time.
- Events.MultiSubscription: the deleters of one event; one whose node was erased after being removed through another copy is not covered, because the code uses a dangling iterator then.
- Time points with ticks longer than a microsecond: reading them does not compile.
- Server ping: a step is not interrupted, so Stop does not come in the middle of sending; resumed pinging of a server that was stopped and selected again is not modelled.
- Sorting by the standard library: any result that is sorted; the objects use an insertion sort.
- Server resolution: the retries of the descriptor request, which are those of a cloud request; `ServerResolving.Resolve` gets the answers, and the servers stored meanwhile, as lists.
- Object enumeration of the storage overlay, and storage on file systems.
- Write actions, replicated writes, telemetry, registration and compile-time reflection.
