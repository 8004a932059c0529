# OpenHost: a verified model

OpenHost composes the resources that independent participants offer into logical nodes, leases
what it takes from each, runs virtual machines on the result and talks to the participants over a
small binary protocol. This project models that behaviour in Dafny and proves what it guarantees.
`dafny verify dfyconfig.toml` checks all of it.

## What is modelled

**From offers to machines.** `Resource` and `CompositionLaws` hold resource fragments and their
addition (saturating in the integer dimensions, shortest lifetime). `Scheduler` is the greedy
planner, its loops proved equal to the recursive `Greedy`; `SchedulerLaws` says when a plan exists
and what it looks like. `Participants` has the participant lifecycle and the registry that feeds
the planner, `RegistryRuns` its whole histories. `Leases`, `VirtualMachines`, `Execution` and `LeaseBinding` turn a plan into leases, a
machine and an execution plan. `Control` is the control plane: three maps and the operations on
them, each a function on the plane's state that a method of the class `Plane` is proved to perform.
`ControlLaws`, `ControlOutcomes` and `LeaseTerms` are about one call.

**The wire.** `Wire` defines encoders and parsers; `WireStreams` has the cursor `Reader` and the
appending `Writer`, proved to compute exactly those. `WireLaws` and `WireMessages` prove that
encoding and decoding undo each other, byte for byte where they do; `WireMeaning` ties the tests on
CPU bit patterns to the numbers they stand for, and `Unicode` says what text is.

**Protocols.** `ControlRuns` proves the invariant of every serial run of the control plane.
`ControlLives` proves that whole lives leave no trace. `ControlInterleaving` splits execution into
its snapshot and its write-back and allows other operations in between; `ControlOverlaps` builds
the runs in which that matters. `Examples` and `WireExamples` give concrete inputs. `Dispatch` is the concurrent dispatcher, `WorkerPool` the server's bounded
queue and workers, both as step machines in any interleaving; `PoolLoad` drives the pool to its
limit. `Allowlist` is the index of client
certificates and `Discovery` the membership store.

Text and byte strings are sequences of bytes; identifiers are canonical version-4 UUIDs (RFC 9562,
sections 4 and 5.4); text is UTF-8 when it is well formed in the sense of RFC 3629, section 4.
Fresh identifiers, the clock, the execution backend and the transport's answers are parameters; a
request is given one identifier per lease it draws (`ControlLaws.Fresh`).

## Where the code does less than one might expect

- A requirement without a lifetime takes shares that forget their offers' lifetimes
  (src/scheduler.rs:95). ARCHITECTURE.md says that a lease cannot outlast its allocation; that
  holds, but a lease can outlast the *offer* behind the allocation.
  `LeaseTerms.FitIsGuaranteedIff` gives the exact condition: it cannot exactly when the requirement
  bounds its lifetime.
- A runtime without a name or version is refused only after the leases are stored
  (src/control.rs:312-313). `Examples.OrphanedLease` is a concrete case and
  `ControlLaws.FailedCreationIsCleanIff` the exact condition.
- An execution writes back the machine it took, so a start, a stop or a destroy that happens in
  between is lost (src/control.rs:232-235): `OverlappedStartIsLost`, `OverlappedStopIsLost`,
  `OverlappedDestroyIsUndone`, and the runs in `ControlOverlaps`. `WriteBackIsAtomicIff` says exactly when a write-back is as good as
  an uninterrupted execution, and `ExclusiveRunsAreSerial` that runs which never touch a machine
  while it is executed are serial runs.
- Reading a request normalises its lifetime: nanoseconds of a second or more are carried into the
  seconds, so `LongRequestsHaveTwoPayloads`. `WireMessages.RequestDecodingIsCanonical` says that decoding is canonical exactly when
  there is nothing to carry, and `OnlyLifetimeBytesDiffer` that otherwise only those twelve bytes
  change.

## Model

| member | source | states |
|---|---|---|
| Identities.Parse | src/identity.rs:41-56 | accepts exactly the canonical version-4 texts and keeps text and kind |
| Identities.CanonicalIff | src/identity.rs:41-56 | the accepted texts are exactly the 32-digit version-4 values written in lower case with hyphens |
| Strings.Utf8Concatenates | src/transport.rs:941-945 | well-formed texts concatenate to well-formed text, so a request id built from two identifiers can be read back |
| Strings.AtMostIff | src/scheduler.rs:109 | identifiers are ordered by prefix and by the first byte in which they differ |
| Unicode.Utf8Iff | src/transport.rs:941-945 | a byte string is text exactly when it encodes some sequence of Unicode scalar values |
| Resource.Compose | src/resource.rs:153-179 | the loop over `seen` and `capacity` reports the earliest fault, or composes the accumulated capacity |
| Resource.AllocationFor | src/resource.rs:193-197 | finds an allocation of the participant, and none only if there is none |
| CompositionLaws.SatisfiesIff | src/resource.rs:108-118 | covering means enough in every dimension and, where both are bounded, at least as long |
| CompositionLaws.RequirementOutcome | src/resource.rs:85-106 | a requirement is refused for a negative CPU amount, else for asking for nothing |
| CompositionLaws.AddCommutes | src/resource.rs:121-150 | addition of fragments is commutative, saturation and lifetimes included |
| CompositionLaws.AddAssociates | src/resource.rs:121-150 | addition of fragments is associative, although it saturates |
| CompositionLaws.AddZero | src/resource.rs:41-52 | the default fragment is its neutral element, so an unbounded lifetime never shortens another |
| CompositionLaws.CapacityOfConcatenation | src/resource.rs:153-179 | the capacity of two lists of allocations together is the sum of their capacities |
| CompositionLaws.CapacityIgnoresOrder | src/resource.rs:153-179 | the capacity is the same for every order of the allocations |
| CompositionLaws.CapacityIsClampedSum | src/resource.rs:124-150 | each integer dimension is the exact sum cut off at the type's maximum; CPU is the exact sum |
| CompositionLaws.CapacityLifetimeIsShortest | src/resource.rs:144-147 | the composite lasts as long as its shortest bounded part, and is unbounded only if all parts are |
| CompositionLaws.CompositionSucceedsIff | src/resource.rs:153-179 | composing succeeds exactly for non-empty lists of sound allocations by distinct, named participants |
| CompositionLaws.CompositionOutcome | src/resource.rs:153-179 | what is reported: nothing to compose, or the first allocation that cannot join those before it, and why |
| CompositionLaws.ValidCompositeIgnoresOrder | src/resource.rs:181-187 | a composite validates exactly when its capacity is the composed one; then so does every reordering |
| Scheduler.CheckOffers | src/scheduler.rs:111-121 | the loop over `seen_participants` accepts exactly the sets of named, sound, distinct offers |
| Scheduler.Allocate | src/scheduler.rs:123-141 | the loop with its early exit makes the greedy allocations and total |
| Scheduler.Plan | src/scheduler.rs:103-159 | the planner returns the specified plan or error |
| SchedulerLaws.SortSorts | src/scheduler.rs:109 | sorting orders the offers by participant and loses and adds none |
| SchedulerLaws.SortedOrderIsUnique | src/scheduler.rs:109 | distinct participants have only one sorted order |
| SchedulerLaws.PlanIgnoresOrder | src/scheduler.rs:103-159 | the plan, or the error, is the same for every order in which the offers arrive |
| SchedulerLaws.ShareStep | src/scheduler.rs:39-99 | a share fits its offer and brings each dimension to the lesser of what is required and what is there; adding it never saturates |
| SchedulerLaws.GreedyTotal | src/scheduler.rs:123-141 | the running total is, in every dimension, the supply of the offers seen, cut off at the requirement |
| SchedulerLaws.GreedyAllocations | src/scheduler.rs:126-141 | each allocation is a non-empty share of its own participant's offer, at most one per participant |
| SchedulerLaws.GreedyReachesIff | src/scheduler.rs:138-145 | the loop meets the requirement exactly when the offers with at least its lifetime, or none, cover it in every dimension |
| SchedulerLaws.GreedyIsExact | src/scheduler.rs:123-141 | when it does, the allocations compose to the requirement itself |
| SchedulerLaws.GreedyComposes | src/scheduler.rs:147-151 | composing and validating the allocations then never fails |
| SchedulerLaws.PlanOutcome | src/scheduler.rs:66-159 | exactly which inputs give a plan and which give each of the three errors; an offer counts when it, or the requirement, is unbounded, or when it lasts at least as long |
| SchedulerLaws.PlanIsExact | src/scheduler.rs:126-159 | a plan's capacity is the requirement in all six fields, from distinct participants, each within its own offer |
| SchedulerLaws.PlanIsIrredundant | src/scheduler.rs:126-141 | without any one allocation the rest no longer meets the requirement |
| SchedulerLaws.PlanDrawsInOrder | src/scheduler.rs:109-141 | which participants a plan draws on and for how much: by ascending identifier, each for what it has of what is still missing |
| SchedulerLaws.AnEqualOfferIsEnough | src/scheduler.rs:70-74 | an offer equal to the requirement, lifetime included, is a plan by itself |
| Participants.Participant.New | src/participant.rs:50-72 | succeeds exactly for a participant identity, a valid capability and a valid, non-empty fragment; starts joining |
| Participants.Participant.Transition | src/participant.rs:74-94 | moves along the lifecycle and stamps the time, or refuses and changes nothing |
| Participants.Participant.Activate | src/participant.rs:95-97 | succeeds exactly from joining |
| Participants.Participant.Drain | src/participant.rs:98-100 | succeeds exactly from active |
| Participants.Participant.Leave | src/participant.rs:101-103 | succeeds exactly when not yet left, and leaves the participant left either way |
| Participants.Participant.Offer | src/participant.rs:119-124 | only an active participant has an offer |
| Participants.LifecycleOnlyAdvances | src/participant.rs:74-103 | over every sequence of requests the lifecycle never goes back, so one that left never offers again |
| Participants.Registry.Register | src/registry.rs:32-43 | adds a participant under its id unless taken; keeps the registry sound |
| Participants.Registry.Get | src/registry.rs:45-55 | finds exactly registered participants |
| Participants.Registry.Remove | src/registry.rs:57-67 | removes exactly the named participant |
| Participants.Registry.Offers | src/registry.rs:71-87 | publishes exactly the resources of the registered active participants |
| Participants.PublishedOffersAreWellFormed | src/registry.rs:71-87 | what is published is sorted, distinct, canonical and sound |
| Participants.RegistryPlansNeverRejectOffers | src/scheduler.rs:103-159 | over a registry a plan never fails with an invalid offer, and exists exactly when the offers cover a valid requirement |
| RegistryRuns.HistoriesPublishWellFormedOffers | src/registry.rs:32-87 | after every history of making, registering, removing, activating, draining and leaving, the offers are exactly those of the registered active participants, sorted and well formed, and a plan over them never rejects them |
| RegistryRuns.LeftNeverOffersAgain | src/participant.rs:74-124 | a participant that has left never offers again, whatever follows, registered again or not |
| RegistryRuns.OffersAreShown | src/registry.rs:71-87 | the registry's own offers are those of its history |
| RegistryRuns.Perform | src/registry.rs:32-67 | each event of a history, performed on the objects, does what the history says |
| Leases.New | src/lease.rs:33-80 | succeeds exactly when all six fields validate, and the lease holds just those fields |
| Leases.LeaseOutcome | src/lease.rs:53-80 | which of the five faults is reported, in order |
| LeaseBinding.LeasesMatchAllocations | src/virtual_machine.rs:106-173 | a bound machine's leases and allocations are in one-to-one correspondence, equal in participant and capacity |
| LeaseBinding.MatchedIsOneToOne | src/virtual_machine.rs:120-158 | equal counts, distinct holders and a matching allocation for each lease leave no allocation unleased |
| LeaseBinding.LeasesAddUpToMachine | src/virtual_machine.rs:106-173 | if the composite validates, the leases in any order sum to the machine's resources in every dimension |
| LeaseBinding.ReceiptsNeedActiveLeases | src/virtual_machine.rs:175-227 | a receipt comes only from a running machine on its own node while every lease is active |
| LeaseBinding.LeaseFaultOutcome | src/virtual_machine.rs:127-149 | a lease fits exactly when it is valid, for the node, running, and of its participant's first allocation's capacity; else the first thing amiss |
| LeaseBinding.BindingOutcome | src/virtual_machine.rs:94-173 | for any node and leases: the machine that is bound, or what is reported, in order |
| VirtualMachines.ExecutionOutcome | src/virtual_machine.rs:175-227 | a machine fails exactly when it was ready and its backend refused; nothing else changes it, and the answer says why |
| VirtualMachines.HolderCount | src/virtual_machine.rs:120-158 | counting the set of holders detects exactly a holder with two leases |
| VirtualMachines.FromNodeWithLeases | src/virtual_machine.rs:106-173 | the checking loop with its early returns binds the machine or reports the first fault |
| VirtualMachines.MachineRef.Start | src/virtual_machine.rs:229-235 | succeeds exactly from created, and otherwise changes nothing |
| VirtualMachines.MachineRef.Stop | src/virtual_machine.rs:237-243 | succeeds exactly from running, and otherwise changes nothing |
| VirtualMachines.MachineRef.ExecuteAt | src/virtual_machine.rs:204-227 | a ready machine gets its backend's answer and is failed by a refusal; one that is not ready is left as it is |
| Execution.FromNode | src/execution.rs:227-265 | the loop pushing units gives the specified plan or the first fault |
| Execution.UnitsKeepCapacity | src/execution.rs:267-273 | folding the units gives the capacity of the allocations |
| Execution.PlanPreservesDistribution | src/execution.rs:227-273 | when a validating node can be planned on; the plan names the workload, the node and its runtime, gives each participant its own share in order, and totals the node's capacity |
| Execution.PlanningOutcome | src/execution.rs:227-265 | for any node: the whole plan, or what is reported, in order |
| Control.Plane.PlanAndLease | src/control.rs:317-357 | plans over the registry and makes the leases without storing any |
| Control.Plane.LeaseAllocations | src/control.rs:335-357 | the loop makes one lease per allocation, or stops at the first failure |
| Control.Plane.CreateLeasedLogicalNode | src/control.rs:317-364 | makes and stores the batch, or changes nothing |
| Control.Plane.StoreLeases | src/control.rs:359-362 | the loop stores the batch in order |
| Control.Plane.RemoveLeases | src/control.rs:259-264 | the loop removes the batch's leases |
| Control.Plane.CreateLeasedLogicalNodeWithRuntime | src/control.rs:305-315 | attaches the runtime after the leases are stored |
| Control.Plane.RegisterMachine | src/control.rs:137-147 | registers node and machine, or removes the leases again |
| Control.Plane.CreateLeasedVirtualMachine | src/control.rs:123-148 | performs the whole creation |
| Control.Plane.StartVirtualMachine | src/control.rs:163-173 | starts the registered machine in place |
| Control.Plane.StopVirtualMachine | src/control.rs:175-185 | stops the registered machine in place |
| Control.Plane.ReleaseLease | src/control.rs:240-250 | releases exactly a stored lease named by a valid lease identity |
| Control.Plane.ReleaseLeases | src/control.rs:252-257 | releases in order and stops at the first lease that is missing |
| Control.Plane.DestroyVirtualMachine | src/control.rs:187-206 | removes the machine, then its leases, then its node |
| Control.Plane.ExecuteVirtualMachine | src/control.rs:208-238 | executes a copy of the machine and writes it back |
| ControlLaws.LeaseBatchIff | src/control.rs:317-364 | a batch can be made exactly when time and duration are real, the offers cover the requirement, and the requirement lasts the duration |
| ControlLaws.LeaseBatchShape | src/control.rs:338-357 | one valid lease per allocation, in order, under distinct new ids, each for exactly the duration |
| ControlLaws.LeasingIsAtomic | src/control.rs:317-364 | leasing stores one lease per allocation or leaves the lease map as it was |
| ControlLaws.BindingSucceeds | src/control.rs:137-147 | a machine is always bound to the leases just made: the rollback is never taken |
| ControlLaws.CreationSucceedsIff | src/control.rs:123-148 | creation succeeds exactly for a valid request that the offers cover, and never fails at the machine |
| ControlLaws.CreationOverRegistry | src/control.rs:123-148 | both conditions, of success and of a clean failure, with the plane's own registry as the source of offers and no premise about them |
| ControlLaws.ReceiptsFallInTheLease | src/virtual_machine.rs:204-227 | a machine created by leasing returns receipts only in [now, now + duration) |
| ControlLaws.FailedCreationIsCleanIff | src/control.rs:305-315 | a failed creation leaves no lease behind exactly when its runtime is valid or its time, duration, requirement, cover or lifetime is not |
| LeaseTerms.LeasesFitAllocations | src/control.rs:338-357 | no lease outlasts its allocation |
| LeaseTerms.BoundedRequestsFitOffers | src/scheduler.rs:66-99 | with a bounded requirement no lease outlasts the offer of its participant |
| LeaseTerms.UnboundedRequestsCanOutliveOffers | src/scheduler.rs:87-96 | for every unbounded requirement: one offer on an empty plane, with identifiers, that the lease outlasts |
| LeaseTerms.FitIsGuaranteedIff | src/scheduler.rs:66-99 | a request's leases fit their offers on every plane, for all offers and identifiers, exactly when its requirement bounds its lifetime |
| ControlRuns.LeasesAreDisjointUnion | src/control.rs:123-206 | the stored leases are the disjoint union of the registered machines' leases |
| ControlRuns.CreatedMachine | src/control.rs:123-148 | the whole state after a successful creation |
| ControlRuns.CreationKeepsConsistent | src/control.rs:123-148 | creation with a valid runtime keeps the three maps in step, also when it fails |
| ControlRuns.ReleasedIff | src/control.rs:252-257 | a batch is released exactly when all its leases are there, each listed once |
| ControlRuns.DestroyRemovesExactly | src/control.rs:187-206 | destroying a registered machine succeeds and removes it, its leases and its node, and nothing else |
| ControlRuns.RunningMachinesReachTheirBackend | src/control.rs:208-238 | a running machine with active leases hands its backend a plan whose units total its resources; the answer is returned, and the plane changes only by the machine's failing |
| ControlRuns.OperationKeepsConsistent | src/control.rs:123-238 | every operation keeps the invariant |
| ControlRuns.SerialRunsStayConsistent | src/control.rs:123-238 | so does every serial run |
| ControlOutcomes.CreationOutcome | src/control.rs:123-148 | exactly which requests are refused, with which of six errors |
| ControlOutcomes.IllFormedOffersAreRefused | src/scheduler.rs:111-121 | over ill-formed offers a valid request fails with an invalid offer and changes nothing |
| ControlOutcomes.FailedBindingRollsBack | src/control.rs:143-146 | whenever binding fails, the leases just stored are gone again and nothing else changed |
| ControlOutcomes.StartOutcome | src/control.rs:163-173 | what is answered and which single machine changes |
| ControlOutcomes.StopOutcome | src/control.rs:175-185 | what is answered and which single machine changes |
| ControlOutcomes.ReleaseStopsAt | src/control.rs:252-257 | a batch is released up to the first lease that is not there any more, and no further |
| ControlOutcomes.DestroyOutcome | src/control.rs:187-206 | on any plane: the machine goes, its node only after all its leases |
| ControlOutcomes.WriteBackOutcome | src/control.rs:230-237 | a write-back stores the machine that was taken, failed if it was ready and its backend refused, and nothing else |
| ControlOutcomes.PlaneExecutionOutcome | src/control.rs:208-238 | in a consistent plane: exactly when a machine reaches its backend, when it fails, and what is answered |
| ControlLives.DestroyUndoesCreation | src/control.rs:187-206 | destroying a created machine, in whatever state, gives back the plane from before its creation |
| ControlLives.WholeLifeRestores | src/control.rs:123-238 | from every consistent plane: creating, starting, executing with any backend at any time and destroying is a permitted run that ends where it began |
| ControlLives.CreatedMachinesRun | src/control.rs:208-238 | in between, while the leases run, any workload reaches the backend with a plan that totals the requirement |
| ControlInterleaving.StepIsFaithful | src/control.rs:208-238 | every step of an overlapping run keeps all versions of a machine equal but for their state |
| ControlInterleaving.VersionsAgree | src/control.rs:208-238 | over every interleaving, two versions stored under one id differ at most in state |
| ControlInterleaving.ExecutionKeepsLeasesAndNodes | src/control.rs:208-238 | neither half of an execution touches the leases or the nodes |
| ControlInterleaving.WriteBackIsAtomicIff | src/control.rs:214-235 | exactly when a write-back equals an execution done at that moment |
| ControlInterleaving.OverlappedStopIsLost | src/control.rs:232-235 | a stop that succeeds during an execution does not last |
| ControlInterleaving.OverlappedStartIsLost | src/control.rs:232-235 | a start that succeeds during a refused execution does not last |
| ControlInterleaving.OverlappedDestroyIsUndone | src/control.rs:232-235 | a machine destroyed during its execution comes back without leases or node |
| ControlOverlaps.QuietIsSound | src/control.rs:43-57 | a consistent plane with no execution under way satisfies every premise of the interleaved runs |
| ControlOverlaps.RunThatLosesAStop | src/control.rs:232-235 | from every consistent plane and creation: an enabled run whose stop succeeds and does not last |
| ControlOverlaps.RunThatLosesAStart | src/control.rs:232-235 | likewise for a start |
| ControlOverlaps.RunThatUndoesADestroy | src/control.rs:232-235 | likewise: the destroyed machine is back, its leases and node are not, and the plane is inconsistent |
| ControlInterleaving.OperationMoves | src/virtual_machine.rs:204-243 | every operation moves a machine only along created, running, then stopped or failed |
| ControlInterleaving.ExclusiveStepIsSound | src/control.rs:208-238 | a step that touches no machine under execution keeps every invariant |
| ControlInterleaving.ExclusiveRunsAreSerial | src/control.rs:208-238 | a run of such steps reaches the plane its operations reach one at a time |
| ControlInterleaving.TerminalStatesAreFinal | src/virtual_machine.rs:229-248 | in such a run stopped, failed and destroyed machines stay so |
| Examples.OrphanedLease | src/control.rs:312-313 | a concrete creation that fails for its runtime and leaves a lease behind |
| Examples.SuccessfulCreation | src/control.rs:123-148 | a concrete creation that is permitted on the empty plane and succeeds |
| Examples.WholeLife | src/control.rs:123-238 | the concrete run from the empty plane in which a machine is created, runs, returns its receipt and is destroyed |
| Examples.LostStop | src/control.rs:232-235 | the concrete run from the empty plane that loses a stop |
| Examples.LostStart | src/control.rs:232-235 | the concrete run from the empty plane that loses a start |
| Examples.UndoneDestroyFromEmpty | src/control.rs:232-235 | the concrete run from the empty plane that undoes a destroy |
| Dispatch.EndpointIsFirstListed | src/execution.rs:153-157 | a participant is reached at the first endpoint listed for it |
| Dispatch.Collect | src/execution.rs:181-201 | the loop over joined responses counts them all or rejects |
| Dispatch.RequestsCoverUnits | src/execution.rs:142-169 | when a dispatch is refused, with which error; otherwise one request per unit with the whole workload, the plan's node and runtime, the source, its own endpoint and an id of its own |
| Dispatch.PlansAreDispatchable | src/execution.rs:137-169 | a plan made for a workload can be dispatched with it exactly when every participant has an endpoint |
| Dispatch.CompletionOrderIsIrrelevant | src/execution.rs:171-179 | whatever order threads finish in, a finished dispatch has sent every request and holds precisely the answers |
| Dispatch.DispatchSucceedsIff | src/execution.rs:137-208 | each request is sent exactly once; the receipt names workload, node and all units, and exists exactly when every answer has its id and is dispatched, running or completed |
| Dispatch.DispatchTerminates | src/execution.rs:171-179 | no dispatch gets stuck, and every step brings it closer to its end |
| WireLaws.BytesCanonical | src/transport.rs:947-950 | a length-prefixed block re-encodes to the bytes it was read from |
| WireLaws.StringRoundTrip | src/transport.rs:941-945 | every UTF-8 text that fits its length field reads back as itself |
| WireLaws.IdentityRoundTrip | src/transport.rs:952-962 | every valid identity reads back as itself, kind included |
| WireLaws.IdentityCanonical | src/transport.rs:952-962 | what is read is valid and re-encodes to the same bytes |
| WireLaws.ResourcesRoundTrip | src/transport.rs:964-989 | every valid requirement reads back as itself |
| WireLaws.ResourcesCanonical | src/transport.rs:964-989 | what is read is valid and is what was on the wire, up to the lifetime's carry |
| WireLaws.ResourcesLayout | src/transport.rs:862-880 | at which bytes each resource field stands |
| WireMeaning.CoresCompareAsBits | src/resource.rs:85-106 | the tests on CPU bit patterns are the tests on the numbers; negative zero is zero |
| WireMeaning.WireValidationAgrees | src/resource.rs:100-106 | resources pass on the wire exactly when what they mean is a valid requirement |
| WireMeaning.CarryKeepsSpan | src/transport.rs:973-977 | the carry leaves the length of the lifetime alone |
| WireMeaning.FiniteIff | src/resource.rs:85-90 | infinities and NaNs are the patterns whose exponent bits are all ones |
| WireMeaning.CoresOfOne | src/transport.rs:937-939 | the patterns of one and minus one stand for them |
| BigEndian.DecodeEncode | src/transport.rs:929-935 | a number that fits its width reads back as itself |
| BigEndian.EncodeDecode | src/transport.rs:929-935 | bytes read as a number are written back the same |
| BigEndian.FirstByteWeighsMost | src/transport.rs:929-935 | the first byte is the most significant one |
| WireMessages.ValidationOutcome | src/transport.rs:674-704 | exactly which requests are acceptable, and what is reported of the others, in order |
| WireMessages.AcceptedIff | src/transport.rs:732-769 | the accepted payloads are exactly those of acceptable requests |
| WireMessages.UnacceptableRequestsAreRefused | src/transport.rs:766-768 | a request that can be read but is not acceptable is refused for what validation finds first |
| WireMessages.OtherVersionsAreRefused | src/transport.rs:735-738 | a first byte other than 1 is an unsupported version, whatever follows |
| WireMessages.RequestPayloadRoundTrip | src/transport.rs:709-769 | every acceptable request decodes from its own encoding |
| WireMessages.ResponsePayloadRoundTrip | src/transport.rs:771-809 | every response decodes from its own encoding |
| WireMessages.RequestDecodingIsCanonical | src/transport.rs:732-769 | re-encoding an accepted payload keeps length and meaning, and the bytes exactly when there is nothing to carry |
| WireMessages.OnlyLifetimeBytesDiffer | src/transport.rs:973-977 | otherwise only the twelve lifetime bytes change, to the carried value |
| WireMessages.PayloadsOfRequest | src/transport.rs:732-769 | the payloads that decode to a request are exactly its encoding with any raw fields that stand for its resources |
| WireMessages.LongRequestsHaveTwoPayloads | src/transport.rs:973-977 | every request for a second or more has a second payload |
| WireExamples.RequestHasTwoPayloads | src/transport.rs:973-977 | a concrete request, with a source, and its two payloads |
| WireExamples.RequestInBytes | src/transport.rs:709-730 | that request byte by byte |
| WireExamples.ResourcesInBytes | src/transport.rs:862-880 | its resources byte by byte |
| WireExamples.ResponsesInBytes | src/transport.rs:771-787 | a response of every status byte by byte |
| WireExamples.IdentityInBytes | src/transport.rs:856-889 | an identity of every kind byte by byte |
| WireExamples.FrameInBytes | src/transport.rs:811-819 | a frame byte by byte |
| WireMessages.ResponseDecodingIsCanonical | src/transport.rs:789-809 | a response has one encoding |
| WireMessages.ResponseDecodingOutcome | src/transport.rs:789-809 | what every payload decodes to: the response it encodes, or which of two errors |
| WireMessages.RequestPayloadsAreUnambiguous | src/transport.rs:991-997 | every cut and every extension of an accepted request payload is malformed |
| WireMessages.ResponsePayloadsAreUnambiguous | src/transport.rs:991-997 | every cut and every extension of an accepted response payload is malformed |
| WireMessages.AcceptedPayloadsArePrefixFree | src/transport.rs:732-769 | no accepted payload starts another |
| WireMessages.RequestEncodingIsInjective | src/transport.rs:709-730 | valid requests with one encoding a prefix of the other are equal |
| WireMessages.FrameRoundTrip | src/transport.rs:811-835 | a frame reads back as its payload and consumes nothing after it |
| WireMessages.CutFramesFail | src/transport.rs:821-835 | a frame cut anywhere is a network failure, never a shorter message |
| WireMessages.OversizedFramesAreRefused | src/transport.rs:811-835 | frames of more than 64 MiB are neither written nor read |
| WireMessages.WritingSucceedsIff | src/transport.rs:709-730 | writing succeeds exactly for payloads of at most 64 MiB: the string limits never decide |
| WireMessages.RequestStreamRoundTrip | src/transport.rs:709-769 | every acceptable request that fits a frame is read back from the stream as itself, and the rest is left |
| WireMessages.ResponseStreamRoundTrip | src/transport.rs:771-809 | the same for responses |
| WireMessages.AcceptedRequestsAreSound | src/transport.rs:674-704 | whatever bytes arrive, an accepted request is addressed to the participant it is for and asks for something |
| WireStreams.Reader.Take | src/transport.rs:912-923 | advances within bounds by exactly the length, or fails and stays |
| WireStreams.Reader.String | src/transport.rs:941-945 | reads a text and moves past it |
| WireStreams.Reader.ReadIdentity | src/transport.rs:952-962 | reads an identity and moves past it |
| WireStreams.Reader.ReadResources | src/transport.rs:964-989 | reads and checks the six fields and moves past them |
| WireStreams.ReceiveRequest | src/transport.rs:733-769 | the cursor reads of a request, step by step, decode the payload |
| WireStreams.ReceiveResponse | src/transport.rs:790-809 | the cursor reads of a response, step by step, decode the payload |
| WireStreams.Writer.WriteBlock | src/transport.rs:837-854 | appends length and bytes, or refuses what the length field cannot state |
| WireStreams.Writer.WriteIdentity | src/transport.rs:856-860 | appends an identity |
| WireStreams.Writer.WriteResources | src/transport.rs:862-880 | appends the six fields |
| WireStreams.SendRequest | src/transport.rs:709-730 | the appends in order give the request's frame or the first refusal |
| WireStreams.SendResponse | src/transport.rs:771-787 | the appends in order give the response's frame or the first refusal |
| Allowlist.BuildClientAllowlist | src/transport.rs:475-501 | the loop over two maps reports the first clash or builds the index |
| Allowlist.BuildSucceedsIff | src/transport.rs:475-501 | there is no clash exactly when no certificate is granted twice |
| Allowlist.ClashOutcome | src/transport.rs:484-490 | a clash is the first certificate granted before, to another participant or to the same one |
| Allowlist.CertificatesFollowGrants | src/transport.rs:495-498 | a participant's certificates are those of its grants, in their order |
| Allowlist.IndexAgreesWithGrants | src/transport.rs:475-501 | a lookup accepts a pair exactly when it was granted, and no certificate serves two participants |
| Allowlist.AuthorizedIffGranted | src/transport.rs:450-465 | a request passes exactly when its claimed source was granted the peer's certificate |
| Allowlist.AuthorizationOutcome | src/transport.rs:450-465 | what is answered with and without an allowlist, a source and a certificate |
| WorkerPool.WorkerCount | src/transport.rs:349-352 | the reported parallelism between 2 and 32, and 4 if there is no report |
| WorkerPool.QueueCapacity | src/transport.rs:353 | room for twice as many connections as workers, and for at least 16 |
| WorkerPool.StepIsConserved | src/transport.rs:346-411 | every step keeps order, balance and the queue's bound |
| WorkerPool.EveryConnectionIsHandledOnce | src/transport.rs:346-411 | in every interleaving accepted connections are pending, queued, in progress or handled; on return each was handled exactly once |
| WorkerPool.DrainIsBounded | src/transport.rs:400-411 | once the sender is dropped only so many steps can follow |
| WorkerPool.PoolMakesProgress | src/transport.rs:361-398 | a closing pool, or one with a blocked sender, always has a step to take |
| PoolLoad.PoolCanBeFull | src/transport.rs:346-398 | the pool's limit can be reached: every worker busy, the queue full, and one more connection accepted |
| Discovery.MembersOnlyAge | src/discovery.rs:73-93 | without news a member only goes from active to stale to expired |
| Discovery.ClassOf | src/discovery.rs:52-93 | a member is stale and expired from the policy's thresholds on, and when it cannot be classed |
| Discovery.AnnouncementOutcome | src/discovery.rs:124-149 | an announcement replaces what is known unless it is unsound, untimely or older, and touches nobody else |
| Discovery.RemovalOutcome | src/discovery.rs:151-161 | a removal forgets exactly the named member, or says why not |
| Discovery.MemoryRegistry.UpsertMember | src/discovery.rs:124-149 | stores an advertisement unless it is malformed, from the future or older than the stored one |
| Discovery.MemoryRegistry.RemoveMember | src/discovery.rs:151-161 | removes exactly the named member |
| Discovery.StoredSequenceIsHighest | src/discovery.rs:124-161 | the stored sequence is the highest accepted since the last removal, over every history |

## Left out

- SchedulerLaws.PlanOutcome: CPU amounts are exact reals, so the rounding of binary64 sums in the planner, and infinities and NaN in an offer, are not modelled; on the wire CPU is its 64-bit pattern and those are.
- CompositionLaws.AddAssociates: holds for exact CPU amounts; binary64 addition is not associative.
- CompositionLaws.CapacityOfConcatenation: its CPU part holds for exact amounts; in binary64 the two groupings can round differently.
- CompositionLaws.CapacityIgnoresOrder: its CPU part holds for exact amounts; a reordered binary64 sum can differ.
- CompositionLaws.CapacityIsClampedSum: its CPU part is the exact sum, where binary64 rounds.
- CompositionLaws.ValidCompositeIgnoresOrder: a reordered composite can be a capacity mismatch in binary64.
- SchedulerLaws.GreedyIsExact: the CPU shares sum to the requirement exactly, where binary64 rounds.
- ControlLaws.CreationSucceedsIff: assumes that the identifiers a request draws, one per lease and one each for node and machine, are canonical, new and distinct (`Fresh`), and that `now + duration` is representable; the code panics when it is not.
- ControlInterleaving.ExclusiveRunsAreSerial: the two map reads with which an execution begins are one step of the model.
- ControlRuns.SerialRunsStayConsistent: excludes `create_virtual_machine` with a caller's node and the release of a single lease, which can give two machines one node or take a lease from a machine that still holds it.
- Participants.Registry.Offers: reads the map and each participant's state at one moment, where the code takes one lock after another.
- Participants.Registry.Register: expects resources that passed `Participant::new`, the only way to make a participant outside its module.
- Identities.Parse: the two reasons for rejecting a text are one; every caller modelled here discards them.
- WireLaws.ResourcesCanonical: a lifetime whose carry overflows 64 bits panics in the code and is the error `DurationOverflow` here.
- WireMessages.FrameRoundTrip: a stream is a byte sequence; the one I/O failure is that it ends early, and lengths fit a 64-bit `usize`.
- Dispatch.DispatchSucceedsIff: transport calls return and do not panic.
- WorkerPool.EveryConnectionIsHandledOnce: handlers return and do not panic; a failing `accept` is one more way to close.
- Discovery.MembersOnlyAge: about one fixed `last_seen`, which is not claimed to be monotone.
- Offers are not reduced by leases already granted (src/registry.rs:71-87), so nothing is claimed about overcommitment across plans.
- The library sort is modelled as an insertion sort; distinct participants leave only one sorted order.
- Virtual machines and leases are values in the plane's maps; `MachineRef` is the exclusive borrow under which one is changed.
- Poisoned locks: every operation that takes a lock is assumed to get it.
- Sockets, TLS handshakes, PEM files, timeouts and `server_name_for_locator`.
- `EndpointTransport`, `LoopbackTransport`, the TCP transports' comparison of response ids, `endpoint.rs`, `runtime.rs`, `fabric.rs` and the command-line program: adapters and single checks.
