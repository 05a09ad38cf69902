# SixTrackLib: a verified model of its host-side protocols

The project models the stateful parts of the OpenCL host bindings that SixTrackLib ships
(`external/CL/cl.hpp`, `external/CL/cl2.hpp`) and three of its own loops: the MAD sequence
converter, the turn schedule of `track_io.c` with the beam monitors it sets up, and the
replication of particles. `dafny verify dfyconfig.toml` checks all of it.

| file | content |
|---|---|
| `Common.dfy` | vocabulary the other files share |
| `OnceInit.dfy` | the compare-and-swap/spin protocol of `Context::getDefault` and the queue's version that nests it: threads, steps, invariant |
| `OnceTheorems.dfy` | agreement and uniqueness, refinement of the `call_once` form, absence of deadlock, bounded work, and completion under every fair schedule |
| `Ownership.dfy` | reference counts through wrappers of both generations, over all programs of wrapper operations |
| `WrapperObjects.dfy` | wrapper objects that share a runtime, updating their fields and it in place, with conservation over the set of live objects |
| `VectorFill.dfy` | `getInfoHelper` for vectors of wrappers in both generations, and cl2's `createKernels` |
| `Defaults.dfy` | the `getDefault`/`setDefault` family of cl2 |
| `Interleavings.dfy` | the same family called by several threads |
| `Containers.dfy` | `cl::vector` and `cl::string` |
| `Version.dfy` | `getVersion` |
| `Generator.dfy` | `madseq_to_generator` and `dispatch` |
| `Monitors.dfy` | beam monitors: where they write, what their buffers hold, what `has_turn_stored` predicts |
| `Turns.dfy` | arguments, schedule and replication of `track_io.c` |

## Conventions

* Concurrency is sequentially consistent interleaving: the flag is a `std::atomic` or is
  surrounded by full fences. One step of a thread is one access to shared state. A run is a
  sequence of scheduler choices, so statements over all choice sequences are statements over all
  runs, for any number of threads and any number of calls per thread.
* The build is the one without exceptions: `errHandler` passes errors on.
* OpenCL calls are parameters: an arbitrary outcome of a constructor, an arbitrary answer to a
  query, an arbitrary refusal of a retain. Retain and release change a count by one, and a call
  on a handle without references is recorded as a fault. Counting of devices follows section 4.3
  of the OpenCL 1.2 specification, the version string section 4.1.
* A raw handle given to a wrapper comes with a reference, as the documentation of those constructors
  and assignments says ("takes ownership").
* The handles a query returns are taken to be kept alive by the queried object: each has a
  reference outside the vector being filled.
* MAD positions, lengths and strengths are reals. `int` in `track_io.c` is 32 bits wide, and
  the sums of `main` wrap as two's complement hardware leaves them.

## What the code does not guarantee

* `OnceSafety.UniqueIffFlagPrepared`: at most one construction of a default in all runs holds if
  and only if its own flag starts at `__DEFAULT_NOT_INITIALIZED` or already has one of the other two
  bits set. The definitions used with C++11 atomics, the context's (`cl.hpp:2852`) and the queue's
  (`cl.hpp:6617`), have no initialiser and start at 0, from which two threads can both construct
  (`OnceSafety.TwoConstructions` returns two different contexts). All other statements about the
  protocol start from `__DEFAULT_NOT_INITIALIZED` (`cl.hpp:2854`, `cl.hpp:6619`).
* `VectorFill.AccountedIffAllAnswered`: a vector filled by `getInfoHelper` owns the references its
  elements stand for if and only if the runtime refuses no retain of a counted handle. cl.hpp
  reports a refusal with a vector that still owes the rest (`VectorFill.RefusalIsReported`), cl2.hpp
  returns `CL_SUCCESS` with a vector that owes the refused ones (`VectorFill.RefusalIsSwallowed`).
* `Schedule.OnlyElemByElemTurnsAreTracked`: no arguments satisfy the guard
  `DUMP_ELEM_BY_ELEM_TURNS > NUM_TURNS` of the block that tracks the remaining turns and writes the
  result (`track_io.c:250`), so `main` tracks the element-by-element turns and no others. A monitor
  that gets a buffer starts at or after the first turn not tracked, and one without a buffer stores
  nothing: for no arguments and no starting turns of the particles does either monitor hold a turn
  of any particle when `main` ends (`Schedule.NothingIsRetained`).
* `Schedule.TurnByTurnFitsIffNoOverflow`: the turn-by-turn monitor stays within the run if and only if
  the two requested numbers of turns do not overflow an `int` when added.
* `Schedule.SkipMonitorWouldKeepAllIffDivisible`: were the remaining turns tracked, the rolling
  monitor would overwrite its first sample unless the skip divides their number; and it violates
  what the storing code asserts unless at least one skip fits.
* `Monitors.RecordsFitIff`: the particle-ordered layout spaces particles by their number instead of
  the number of stores. The records of a monitor are distinct and inside its buffer if and only if
  the layout is turn-ordered, or there is one particle, or as many stores as particles. With more
  stores, particles overwrite their neighbours' samples (`Monitors.NeighbourOverwrites`, and
  `Monitors.ParticleOrderLosesTurn` for two particles and three stores); with fewer, the last
  particle is written beyond the buffer (`Monitors.LastParticleLeavesBuffer`).
* `Monitors.PredictionIsRightIffLayoutFits`: under that condition, and only then, what
  `BeamMonitor_has_turn_stored` says is right for every particle in every run. Even then it does
  not know the turn a particle started at, and accepts the turn that has not run yet
  (`Monitors.NextTurnMispredictedIff` says when).
* `Interleavings.NoOrderOfTheCallsAlone`: cl2's `getDefault` of a queue is not atomic. Another thread
  can see the context it built and still provide the device it will use; no sequential run of
  the threads' calls alone explains that. With the calls the initialisers make,
  every interleaving is a sequential run (`Interleavings.InterleavingsAreSequential`).
* `ClString.ReadsInsideIff`: `cl::string(const char*, size)` is documented to leave the string empty
  for a null pointer, but copies from it. It reads inside a buffer if and only if the size is 0 or
  the pointer is not null and enough characters follow it; a null pointer with size 1 already
  fails (`ClString.NullIsRead`).
* Two defaults of the usage text of `track_io.c` differ from the code, which the model follows: both
  `NTURNS_IO_ELEM_BY_ELEM` and `NTURNS_IO_EVERY_TURN` default to 0.

## Model

| member | source | states |
|---|---|---|
| OnceInit.CellStepKeepsProtocol | external/CL/cl.hpp:1083-1112 | one access by any call keeps the cell's protocol: a single owner while the flag says so, nothing read before publication, what is published is the outcome built; and only the constructor's step builds, namely what the constructor yields |
| OnceInit.StepKeepsProtocol | external/CL/cl.hpp:5623-5682 | one step of any thread keeps the protocol of either default, including the queue's builder running a whole context call between its exchange and its stores; what a step builds is what a constructor yields or, for the queue, an inherited error |
| OnceInit.Reachable | external/CL/cl.hpp:2687-2733 | the invariant of both cells, all program counters and all logs in every reachable state |
| OnceSafety.AllReturnsAgree | external/CL/cl.hpp:2687-2733 | any two returns of any calls on one default carry the same value and error, both those of the only construction, with an error exactly when a pointer was passed |
| OnceSafety.OneConstruction | external/CL/cl.hpp:2687-2733 | construction is entered at most once per default and the flag only moves 1, 2, 4 |
| OnceSafety.PublishedIsFinal | external/CL/cl.hpp:2687-2733 | once the flag says INITIALIZED, value and error never change |
| OnceSafety.QueueInheritsContextError | external/CL/cl.hpp:5648-5673 | a queue call returns only after the context was built, and on a context error returns NULL and that error |
| OnceConstruction.ConstructedOnce | external/CL/cl.hpp:5648-5673 | in every run at most one step runs the constructor of a default, something is built if and only if one did, and it is what that constructor yielded, or NULL and the context's error for a queue whose context failed |
| OnceConstruction.ReturnsAreConstructed | external/CL/cl.hpp:2687-2733 | every return of every call carries the value and error that the constructor of its default yielded at that step, with the same exception |
| OnceSafety.TwoConstructions | external/CL/cl.hpp:2851-2855 | from a context flag that is 0, or otherwise neither NOT_INITIALIZED nor marked, a run of two threads that builds twice and returns two different contexts |
| OnceSafety.UniqueIffFlagPrepared | external/CL/cl.hpp:6616-6620 | for the context and for the queue: at most one construction in all runs if and only if that default's start flag is NOT_INITIALIZED or has one of the other bits, whatever the other flag is |
| OnceRefinement.StepRefines | external/CL/cl2.hpp:2975-2983 | every step of the spin protocol is an atomic initialisation with an outcome that a constructor has yielded (or the context's error), a return, or invisible in the `call_once` machine |
| OnceRefinement.RunRefinesCallOnce | external/CL/cl2.hpp:2975-2983 | every run of the spin protocol maps to a run of the `call_once` machine from its start, initialised with what the run's constructors yielded |
| OnceProgress.NeverDeadlocked | external/CL/cl.hpp:5623-5682 | in every reachable state with an unfinished thread some thread has a step that is not a failed spin test |
| OnceProgress.StepLowersMeasure | external/CL/cl.hpp:2700-2704 | a natural-number measure drops on every such step, and all other steps change nothing |
| OnceProgress.WorkIsBounded | external/CL/cl.hpp:5623-5682 | no run makes more such steps than the measure of its first state |
| OnceProgress.StuckMeansServed | external/CL/cl.hpp:5623-5682 | a run that cannot advance has answered every call of every thread, in order |
| OnceProgress.FairRunsFinish | external/CL/cl.hpp:5623-5682 | under every infinite schedule that never stops scheduling any thread, a state is reached in which every call of every thread is answered, in order |
| OnceProgress.ServedStaysServed | external/CL/cl.hpp:5623-5682 | from such a state on nothing changes |
| Programs.GenerationsAgree | external/CL/cl2.hpp:1746-1838 | for every program cl.hpp accepts, both generations issue the same runtime calls in the same order and end with the same wrappers |
| Programs.StepKeepsInv | external/CL/cl.hpp:1822-1901 | each operation of either generation keeps the balance of every handle, makes no faulty call and keeps device flags true |
| Programs.ReferencesAreConserved | external/CL/cl.hpp:1822-1901 | after any program a counted handle's count is its wrappers plus the references outside, no call hit a dead handle, uncounted handles saw no call, device flags are right |
| Programs.DestroyingAllLeavesOutside | external/CL/cl.hpp:1831-1834 | with every wrapper destroyed the outside references are what is left |
| Programs.HeldTwiceIsAlive | external/CL/cl.hpp:1855-1863 | two wrappers of one handle keep its count at two or more, which makes release-then-retain assignment safe |
| Programs.WrappersHold | external/CL/cl.hpp:1832-1882 | after any program of either generation every wrapper holds the handle the operations alone say: copies and copy assignments that of their source, moves pass it on and leave NULL, raw handles are stored, destroyed places are empty |
| Programs.CountIsRead | external/CL/cl.hpp:1832-1901 | the count of a counted handle after any program, read off the operations: the places that hold it plus the references obtained and neither given up nor handed over |
| Programs.TraceAccounts | external/CL/cl.hpp:1892-1900 | every handle's count is its retains minus its releases in the trace plus what the caller exchanged with the runtime |
| Programs.RetainsAreWanted | external/CL/cl.hpp:1841-1863 | the trace holds one retain of a counted handle for each copy of a wrapper that holds it and each construction that asks for one, and no others |
| WrapperObjects.Wrapper.FromObject | external/CL/cl2.hpp:1873-1882 | construction from a raw handle, with a retain or taking over a reference: the new object joins the live ones and every count is again their holders plus the outside references |
| WrapperObjects.Wrapper.CopyOf | external/CL/cl.hpp:1841-1845 | the copy joins the live objects with a reference of its own: every count is again holders plus outside |
| WrapperObjects.Wrapper.MoveOf | external/CL/cl.hpp:1848-1852 | the source is emptied and the new object holds its handle, with no runtime call and every count still explained |
| WrapperObjects.Wrapper.CopyAssign | external/CL/cl.hpp:1957-1966 | for any two of any number of live objects, the same one included: no call hits a handle without references, the target holds what the source does, and every count is holders plus outside |
| WrapperObjects.Wrapper.MoveAssign | external/CL/cl.hpp:1969-1979 | the target holds what the source did, the source is emptied, nothing happens on self-assignment, and every count is holders plus outside |
| WrapperObjects.Wrapper.RawAssign | external/CL/cl2.hpp:1927-1933 | one outside reference becomes the object's, with the flag its device calls for, and every count is holders plus outside |
| WrapperObjects.Wrapper.Destroy | external/CL/cl2.hpp:1884-1887 | the remaining objects account for every count |
| WrapperObjects.DestroyAll | external/CL/cl.hpp:1836-1839 | destroying any set of live objects in any order leaves exactly the outside references and makes no faulty call |
| VectorFill.HoldersAreOccurrences | external/CL/cl2.hpp:1074-1082 | a vector of wrappers holds each handle as often as it occurs in its contents |
| VectorFill.OwesTheRest | external/CL/cl.hpp:1206-1216 | a vector paid only up to a counted handle is not accounted for |
| VectorFill.GrantedCount | external/CL/cl2.hpp:1074-1082 | the references granted to a handle are never more than its occurrences, and as many if and only if no retain of it is refused |
| VectorFill.AccountedIffAllAnswered | external/CL/cl2.hpp:1074-1082 | a filled vector is accounted for if and only if no retain of a counted handle is refused |
| VectorFill.RefusalIsSwallowed | external/CL/cl2.hpp:1056-1085 | one refused retain: CL_SUCCESS and a vector that owes a reference |
| VectorFill.RefusalIsReported | external/CL/cl.hpp:1206-1216 | one refused retain: its error and a vector that owes a reference |
| VectorFill.ObjectVector.AssignRaw | external/CL/cl.hpp:1204-1206 | old elements give up their references once, the contents are the raw handles in order, and the debt is one reference per occurrence |
| VectorFill.ObjectVector.GetInfoCl | external/CL/cl.hpp:1190-1218 | failing queries change nothing; otherwise contents in order, counts up by the multiplicity of what was paid for and down by the old contents; success, and likewise a sound vector, if and only if no retain of a counted handle is refused |
| VectorFill.ObjectVector.GetInfoCl2 | external/CL/cl2.hpp:1056-1085 | failing queries change nothing; otherwise CL_SUCCESS, contents in order, counts up by the granted retains and down by the old contents, and a sound vector if and only if no retain of a counted handle is refused |
| VectorFill.ReplaceNext | external/CL/cl2.hpp:1078-1082 | one round of cl2's loop keeps every count explained |
| VectorFill.ObjectVector.CreateKernels | external/CL/cl2.hpp:6732-6760 | the vector takes exactly the references the runtime handed over and every previous element is released once, growing or shrinking |
| Defaults.ReportsAgree | external/CL/cl2.hpp:2975-2997 | any two calls on one class report the same default and error |
| Defaults.RunKeeps | external/CL/cl2.hpp:2117-2140 | a default never changes once it exists, through nested initialisations of other classes too |
| Defaults.InitialisedIffReached | external/CL/cl2.hpp:2739-2770 | after any run a class has its default if and only if one of the calls was on it, or was the first call on a class, a `getDefault`, whose chain of nested initialisations leads to it (a queue's stops at a failed context, all of them at a context that was set) |
| Defaults.SetWinsIffFirst | external/CL/cl2.hpp:2985-2997 | `setDefault` decides the default in force at the end of the run exactly when no earlier call reached its class; otherwise the earlier default stays |
| Defaults.RunIsWellFounded | external/CL/cl2.hpp:3094-3121 | after any run each default was provided by the user or satisfies its initialiser's equation in the defaults in force |
| Defaults.PlatformIsFirstListed | external/CL/cl2.hpp:2359-2394 | a platform default nobody provided is the first platform the runtime lists, or NULL with the failing query's error, or NULL with CL_INVALID_PLATFORM when there is none; without error if and only if one is listed |
| Defaults.ContextErrorSpreads | external/CL/cl2.hpp:6994-7019 | a device or queue default that was not provided reports NULL and the context's error when there is one |
| Defaults.OrderDoesNotMatter | external/CL/cl2.hpp:2739-2770 | two runs in which the user provided the same values agree on every class, whatever the order of calls |
| Interleavings.InterleavingsAreSequential | external/CL/cl2.hpp:2117-2140 | for any threads and any interleaving at the granularity of the once-flags: the calls in order of completion, those made by initialisers included, are a sequential run with the same defaults and reports, and each thread's own come in the order of its script |
| Interleavings.NeverDeadlocked | external/CL/cl2.hpp:6994-7019 | while a thread has calls to answer, some thread is not blocked on a once-flag: waiting only leads down the nesting of the initialisers |
| Interleavings.SetsComeBetween | external/CL/cl2.hpp:6994-7019 | an interleaving in which one thread finds the context that another's `getDefault` of the queue has built, and then provides the device of that queue |
| Interleavings.NoOrderOfTheCallsAlone | external/CL/cl2.hpp:6994-7019 | no sequential run of those three calls that keeps the second thread's two in order reports the same |
| Defaults.Statics.GetDefault | external/CL/cl2.hpp:7404-7417 | the recursive initialisers on the static members compute that semantics and terminate by rank |
| Defaults.Statics.SetDefault | external/CL/cl2.hpp:2460-2465 | the provided value is stored if the once-flag is unspent, and the default in force is returned |
| BoundedSeq.PushesKeepFirst | external/CL/cl.hpp:754-762 | clearing and pushing an overlong range keeps its first N elements in order |
| BoundedSeq.ApplyMeans | external/CL/cl.hpp:743-889 | size and elements after a push, a pop, a clear and a resize |
| BoundedVector.Execute | external/CL/cl.hpp:743-929 | any run of operations on the array refines the same run on capped sequences |
| BoundedVector.Vector.Resize | external/CL/cl.hpp:869-889 | overlarge sizes change nothing, otherwise the new size, with the old elements below the old size and the fill from there |
| BoundedVector.Vector.Assign | external/CL/cl.hpp:921-929 | the first N elements of the range |
| BoundedVector.CopiesCompareEqual | external/CL/cl.hpp:782-845 | a copy-constructed vector compares equal to its original |
| ClString.String.Resize | external/CL/cl.hpp:570-598 | the old prefix padded with NULs, in a fresh buffer that is terminated |
| ClString.ReadsInsideIff | external/CL/cl.hpp:528-541 | the copy reads inside a buffer if and only if the size is 0 or the pointer is not null and enough characters follow it |
| ClString.String.FromBuffer | external/CL/cl.hpp:534-548 | for every pointer and size that read inside a buffer, null with size 0 included: the given characters, NULs included, terminated |
| ClString.String.CopyAssign | external/CL/cl.hpp:619-648 | the other string's contents in a buffer of its own |
| Version.GetVersion | external/CL/cl.hpp:1772-1789 | the scanning loops end and pack the decimal values of the two numbers, every intermediate value being an `int` by its type |
| Version.OrOfShifted | external/CL/cl.hpp:1788-1788 | the bitwise or of a shifted number with a smaller one is their sum |
| Version.ReadsBackWhatIsWritten | external/CL/cl.hpp:1772-1789 | a version string written in decimal reads back as its two numbers, whatever follows the terminator |
| Version.ParseWritten | external/CL/cl.hpp:1772-1789 | the parser run on the version string written for M and m returns M times 65536 plus m |
| Version.ComparisonIsLexicographic | external/CL/cl.hpp:1913-1923 | comparing packed versions is comparing versions, and the test for counted devices means 1.2 or later |
| DeviceVersions.CountingFollowsVersion | external/CL/cl.hpp:1903-2020 | over every program of device wrappers, a device of a platform whose version string says less than 1.2 sees no retain or release, and every other device is counted exactly |
| Generator.MadseqToGenerator | python/sixtracklib/mad_helper.py:44-57 | the loop yields the recursive semantics, and its items and exception describe the input alone, as the next row says |
| Generator.GenerateDescribes | python/sixtracklib/mad_helper.py:14-57 | apart from drifts named as such, the items are those of the elements in order, with their names, classes and MAD attributes readable from them for every base type, up to the first element that is thick, has an empty list of strengths or lacks an attribute; then its error |
| Generator.PositionsKept | python/sixtracklib/mad_helper.py:44-57 | the drifts before element k never sum to less than its position, and to exactly that if and only if positions do not decrease from 0 up to it |
| Generator.DriftsAreRise | python/sixtracklib/mad_helper.py:49-56 | that sum is the total of the positive increments |
| Generator.StripRecoversInput | python/sixtracklib/mad_helper.py:44-57 | deleting the inserted drifts gives back names and dispatched elements in order |
| Generator.DriftsNeverAdjacent | python/sixtracklib/mad_helper.py:52-57 | inserted drifts are never adjacent, and one ends the output only when dispatch raised |
| Generator.ErrorKeepsPrefix | python/sixtracklib/mad_helper.py:50-54 | at the first bad element the output is that of the elements before it, plus the drift leading to it when dispatch raised |
| Generator.FailsIffRejected | python/sixtracklib/mad_helper.py:14-51 | the generator raises exactly when some element is thick or cannot be dispatched |
| Monitors.RecordsFitIff | sixtracklib/common/be_monitor/track.h:88-109 | the records of all slots are distinct and inside the buffer if and only if the layout is turn-ordered, or there is one particle, or as many stores as particles |
| Monitors.RecordsHold | sixtracklib/common/be_monitor/track.h:72-109 | in a layout without shared records, after any run with the particles in any order, a particle's slot holds a turn exactly when it is the last sample that particle wrote there |
| Monitors.TurnOrderedContents | sixtracklib/common/be_monitor/track.h:98-102 | after any run record slot * particles + p of a turn-ordered buffer holds the turns that the slot of particle p keeps, given in arithmetic, and no other particle's |
| Monitors.ParticleOrderedContents | sixtracklib/common/be_monitor/track.h:103-107 | the same for record p * particles + slot of a particle-ordered buffer whose records do not collide |
| Monitors.PredictionIsRight | sixtracklib/common/be_monitor/be_monitor.h:624-673 | in a fitting layout the buffer holds a turn of a particle if and only if `has_turn_stored` says so, the particle ran from there on or earlier, and it is not the turn it runs next |
| Monitors.PredictionIsRightIffLayoutFits | sixtracklib/common/be_monitor/be_monitor.h:624-673 | that prediction is right for all particles in all runs if and only if the layout fits |
| Monitors.NeighbourOverwrites | sixtracklib/common/be_monitor/track.h:103-107 | for every particle-ordered monitor with more stores than particles, of which there is more than one, a run in which particle 1 loses its first sample although it is predicted |
| Monitors.LastParticleLeavesBuffer | sixtracklib/common/be_monitor/track.h:103-107 | for every particle-ordered monitor with fewer stores than particles, a run that writes the last particle's first sample beyond the buffer although it is predicted |
| Monitors.ParticleOrderLosesTurn | sixtracklib/common/be_monitor/track.h:103-107 | two particles, three stores, three turns: particle 1's turn 0 is predicted and overwritten |
| Monitors.NextTurnMispredictedIff | sixtracklib/common/be_monitor/be_monitor.h:635-670 | in either layout, exactly when the turn a particle runs next is wrongly reported as stored |
| Schedule.TakenIfFitsOrOverflows | examples/c99/track_io.c:80-119 | which arguments are taken, in unbounded arithmetic: those that fit into the run, and those whose sum overflows |
| Schedule.OnlyElemByElemTurnsAreTracked | examples/c99/track_io.c:245-263 | for all arguments and any starting turn a particle gets to the end of the element-by-element turns and no further, and to the end of the run exactly when it starts there or all turns were asked for |
| Schedule.NothingIsRetained | examples/c99/track_io.c:200-263 | for all arguments, starting turns and orders of tracking, no turn of any particle is in the buffer of either monitor when `main` ends |
| Schedule.ScheduleIsDisjoint | examples/c99/track_io.c:200-226 | the element-by-element turns and the two monitors' turns are pairwise disjoint and within the run |
| Schedule.ScheduleIsComplete | examples/c99/track_io.c:200-226 | with skip 1 the three sets together are the whole run |
| Schedule.UnsampledTailIsShort | examples/c99/track_io.c:211-226 | fewer turns than one skip are left unsampled at the end |
| Schedule.TurnByTurnFitsIffNoOverflow | examples/c99/track_io.c:99-107 | the turn-by-turn turns lie within the run if and only if the sum does not overflow |
| Schedule.TurnByTurnWouldKeepAll | examples/c99/track_io.c:200-209 | if a particle were tracked for all NUM_TURNS turns, which `main` does not do, the buffer would hold exactly those configured turns the particle ran |
| Schedule.SkipMonitorUsableIff | examples/c99/track_io.c:211-226 | the skip monitor has a store if and only if one skip fits into the remaining turns |
| Schedule.SkipMonitorWouldKeepAllIffDivisible | examples/c99/track_io.c:211-226 | if then all NUM_TURNS turns were tracked, which `main` does not do, all its turns of all particles would be in the buffer if and only if the skip divides the remaining turns |
| Replication.Replicate | examples/c99/track_io.c:149-187 | destination i is source i mod n in both branches, and every source particle occurs as often as the shares of its indices say |
| Replication.OccurrencesAreShares | examples/c99/track_io.c:179-185 | in a block filled by index mod n, the multiplicity of a particle is the sum of the shares of the source indices holding it |
| Replication.SharesAreEven | examples/c99/track_io.c:179-185 | the shares of all source indices add up to the block, and no index has two copies more than another |

## Left out

- OpenCL objects other than their counts: devices, kernels, programs, images and enqueue calls are foreign; a constructor's outcome is arbitrary.
- Exception-enabled builds: a throw inside the spin protocol would leave the flag at BEING_INITIALIZED.
- Weak memory orders: the flag is sequentially consistent.
- The early write of a queue initialiser to the caller's `*err` (`cl.hpp:5654-5665`): it is overwritten before the call returns.
- The non-const `operator()()` that exposes `object_`: writes through it bypass ownership.
- A null `param` of cl2's `getInfoHelper` and `createKernels`: the call then only queries.
- VectorFill.ObjectVector.AssignRaw: `std::vector` is not part of this model; its `assign` is modelled as assignment over the common positions, then construction or destruction of the rest, the path on which it reallocates, copying the elements to a new block, is left out with it, and no claim is made about the order of releases.
- Builds in which the assertions of the storing code abort: they also reject a monitor without stores, which has no buffer and stores nothing otherwise.
- Particles that share an id, as the copies made by `track_io.c` do, and so share their records: only `NothingIsRetained` covers them.
- The attachment of output buffers on devices (`be_monitor_kernel_impl.h`), and runs that attach a buffer in the middle.
- The cl.hpp version of `createKernels` and the generic `getInfoHelper` for plain values.
- `cl::vector` iterators, element construction and destruction counts, and the non-const `back()`.
- BoundedVector.Vector.CopyAssign: both vectors have the same capacity, as the template parameter forces.
- Version.GetVersion: strings without both delimiters or with numbers out of range, for which the source reads out of bounds or overflows.
- Overflow of 64-bit turn and record numbers in the monitors.
- Command-line strings, files, timing and printing in `track_io.c`; a particle is an opaque value.
- Floating-point rounding in the MAD converter, and elements that lack a `length`.
- Steps inside an initialiser of cl2's defaults other than its calls of `getDefault`: what they read never changes again.
