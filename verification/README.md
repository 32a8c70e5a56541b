# SlugArch in Dafny

Machine-checked models of four parts of the SlugArch repository and of what each is for.

**Endpoints on a shared link.** A CXL Type-2 endpoint takes one job at a time: a doorbell checks the descriptor, snapshots
the input and arms a timer; three callbacks compute, send over one output link shared by every endpoint, and record.
`EndpointGate` is one endpoint as a value, `EndpointDevice` the same endpoint as a class updating registers, log and RAM
in place, and `EndpointSystem` any number of them on one virtual clock with one timer list and one link, driven by any
interleaving of MMIO writes, host stores, waits and callbacks. A callback runs at its deadline and equal deadlines run in
the order they were armed. The main result is that this event-driven system computes exactly the host's sorted-FIFO
schedule oracle (`LinkSchedule`). `EndpointEvidence`, `EndpointOutcome` and `EndpointEffects` say what a log proves, what
a job comes to and which bytes it changes, over whole runs. On top, `EndpointDrain` steps the clock until nothing is armed, `EndpointMmio`
reads registers and records back as bytes, and `EndpointJob`, `EndpointRound` and `EndpointWorkload` are the host's
experiment from power-on to the validation of its record: none of its assertions can fail.

**Token order and the fabric.** `AssignTokens` is Kahn's algorithm over hash maps and a FIFO queue; it keeps only the
largest predecessor token of each op. `Fabric` is the event loop that scans a list it permutes by swap-removal and fires
a command as soon as that one token is retired; the done lines of hardware IPs are left entirely open. For streams bound
to the emulation core every edge of the graph is nevertheless respected (`FabricOrder`). The pass judges a graph by
the length of its sort; with edges naming undeclared ops that test can go either way, and `TokenOrder` says exactly when.

**Replay-checked barriers.** `Certificate` has the 64-byte certificates, the injected faults and the tile groups;
`Barrier` runs the barrier over device memories that may answer a read with anything; `BspRun` is the epoch loop with
scoped recovery, compared with the serial workload of `SerialOracle`. The hash is an arbitrary function to 32 bytes;
binding results hand back two colliding strings among those the two certificates in question hash, or equality.

**FLITs.** `Wire` is the 64-byte codec, `Guest` the guest's request handler over its matrices, `Gemm` the host's stream
builder, result decoder and validator, `GemmRun` all of them composed, and `EndpointRtl` the generated endpoint state
machine and monitor clocked under an arbitrary environment.

Times, counters, sequence numbers and token numbers are unbounded naturals; 64-bit kernel, reduction and monitor
arithmetic wraps as in the code. The endpoint configuration has a positive bandwidth and a positive compute time
(`targets/splash-endpoint/qemu/integration.patch` refuses others). The FLIT layout is the repository's own, not that of
a CXL revision.

`dafny verify dfyconfig.toml` checks everything.

## Model

| member | source | states |
|---|---|---|
| EndpointSystem.RefinesScheduleOracle | targets/splash-endpoint/qemu/cxl_slugarch.c:79-128 | from any quiet system, under any interleaving of writes, stores, waits and callbacks on any number of endpoints, every settled job's six timing registers equal the schedule oracle on the admitted jobs in submission order |
| EndpointSystem.DrainedLinkIdle | targets/splash-endpoint/driver.py:73-78 | after any run, once nothing is armed the link is idle no later than now, so the oracle may start the next round from an idle link |
| EndpointDrain.DrainSettles | targets/splash-endpoint/driver.py:73-78 | from any state at most three callbacks per endpoint leave nothing armed, nobody BUSY and the link idle |
| EndpointDrain.Drain | targets/splash-endpoint/driver.py:73-78 | the drain loop drains everything, at strictly rising clock steps of which the last is the final time, and gives up only past a thousand steps |
| EndpointDrain.DrainFate | targets/splash-endpoint/qemu/cxl_slugarch.c:87-126 | draining ends every job in flight as its admission fixed it, output in RAM, and touches no other endpoint |
| EndpointDrain.DrainEndsAtFinish | targets/splash-endpoint/experiment.py:133 | the clock stops at the moment some job in flight finishes |
| LinkSchedule.ScheduleOracle | targets/splash-endpoint/driver.py:87-105 | the oracle's loop computes, per tile, the timing declared by position in the stable deadline order |
| LinkSchedule.OrderIsStableSort | targets/splash-endpoint/driver.py:96 | every job exactly once, in strict order of compute deadline and then submission index |
| LinkSchedule.SharedLinkDiscipline | targets/splash-endpoint/qemu/cxl_slugarch.c:93-97 | served in turn, serialization intervals are disjoint, and each starts at its own deadline or as the one before it ends |
| EndpointSystem.LinkIsShared | targets/splash-endpoint/qemu/cxl_slugarch.c:93-97 | after any run, the transfers any two endpoints report in their link registers do not overlap, and the one whose computation was due first went first |
| EndpointSystem.LinkNeverIdles | targets/splash-endpoint/qemu/cxl_slugarch.c:93-97 | after any run, a reported transfer started when its computation ended or the moment the transfer served before it did |
| LinkSchedule.EqualBatchTiming | targets/splash-endpoint/experiment.py:111-117 | the k-th of equal jobs released together waits k occupancies and finishes after 2r + w*c + (k+1)*ceil(8w/b) + link |
| LinkSchedule.SerialNeverQueues | targets/splash-endpoint/experiment.py:110-117 | jobs released no earlier than their predecessor finished never queue, and finish where the validator expects the next release |
| EndpointEvidence.EvidenceAlways | targets/splash-endpoint/qemu/cxl_slugarch.c:53-77 | in every reachable enforced state: records alternate request and completion, sequences count up, epochs are current, times rise, a completion carries the digest of the kernel's output on its request's input, an open request exactly while BUSY or POSTFAIL, a reserved slot while BUSY, and requests = completions + lost completions + the job in flight |
| EndpointInvariant.InvWrite | targets/splash-endpoint/qemu/cxl_slugarch.c:278-321 | any MMIO write of any size, address and value keeps the record, job and outcome invariant |
| EndpointInvariant.InvComplete | targets/splash-endpoint/qemu/cxl_slugarch.c:79-128 | every callback keeps it |
| EndpointOutcome.DoorbellOutcome | targets/splash-endpoint/qemu/cxl_slugarch.c:136-184 | a doorbell either admits the job or ends in PREFAIL with the first tripped guard, a kind-3 diagnostic, and no store, log record or timer |
| EndpointEffects.RefusalHasNoEffect | targets/splash-endpoint/qemu/cxl_slugarch.c:142-167 | over any run after a refused doorbell, until a larger epoch is written: PREFAIL, the tripped guard, a kind-3 diagnostic, the log as it was, and no byte of memory changed that the host does not store |
| EndpointOutcome.FailurePersists | targets/splash-endpoint/qemu/cxl_slugarch.c:285-319 | over any run a failed endpoint keeps state, error, log and diagnostic until a strictly larger epoch is written |
| EndpointOutcome.CommitWrites | targets/splash-endpoint/qemu/cxl_slugarch.c:101-113 | the commit callback stores exactly the kernel's output in [dst, dst + 8*words); no other callback touches RAM |
| EndpointEffects.MemoryInFlight | targets/splash-endpoint/qemu/cxl_slugarch.c:101-113 | over any run of a job, each byte the host leaves alone is as at admission until the commit, and then the kernel output inside [dst, dst + 8*words) and unchanged outside |
| EndpointEffects.MemoryAtEnd | targets/splash-endpoint/qemu/cxl_slugarch.c:101-126 | when the job is over the output is out in exactly that range, whether or not its completion was recorded |
| EndpointOutcome.JobMeetsItsFate | targets/splash-endpoint/qemu/cxl_slugarch.c:87-126 | whatever peers, host and the endpoint's own MMIO page do, an admitted job ends as it would alone on an idle link, link and record times aside |
| EndpointOutcome.NonInterference | targets/splash-endpoint/qemu/cxl_slugarch.c:278-284 | two runs from one admission end in gates that differ at most in link times, record times, rejected writes and RAM |
| EndpointOutcome.DriverAcceptsEveryDone | targets/splash-endpoint/driver.py:108-116 | every fresh-epoch job at the driver's addresses released as submitted ends DONE with a log the host's record check accepts, or in the completion loss it asked for |
| EndpointMmio.MmioRead | targets/splash-endpoint/qemu/cxl_slugarch.c:215-276 | the read handler, byte assembly included, returns registers, log and diagnostic bytes, and 0 past the written records |
| EndpointMmio.LogReadsBack | targets/splash-endpoint/qemu/cxl_slugarch.c:221-237 | in whatever access sizes it is read, the log region yields the records' 128-byte forms |
| EndpointMmio.Records | targets/splash-endpoint/driver.py:50-59 | the host unpacks from it every field and digest of every record, and can pack the same bytes again |
| EndpointMmio.BytesValidateAsValues | targets/splash-endpoint/driver.py:108-116 | on those bytes the host accepts exactly the logs it accepts as values, unless the hash confuses a recorded digest with the expected one |
| EndpointMmio.DriverAcceptsBytes | targets/splash-endpoint/driver.py:108-116 | every fresh-epoch job ends DONE with a log whose bytes pass every clause of the host's check, or in the completion loss it asked for |
| EndpointJob.Prepare | targets/splash-endpoint/experiment.py:50-53 | epoch, input and filler change exactly that endpoint, in exactly those ways |
| EndpointJob.SubmitJob | targets/splash-endpoint/driver.py:61-66 | eight descriptor writes and the doorbell admit the job, with one timer and one job more |
| EndpointJob.JobFinishes | targets/splash-endpoint/experiment.py:66-74 | a settled job is DONE without error, committed, its output the kernel's, its log the two expected records or none |
| EndpointRound.SubmitAll | targets/splash-endpoint/experiment.py:54-63 | for any permutation and either schedule every endpoint settles, clock steps rise to the final time, and only a concurrent drain of more than 333 endpoints may be given up |
| EndpointRound.SerialFinish | targets/splash-endpoint/experiment.py:110-115 | in a serial round each job finishes exactly one uncontended span after its release, which is the next release |
| EndpointRound.FinishedTimes | targets/splash-endpoint/experiment.py:64-70 | every endpoint's six timing registers equal the oracle on the round's declared jobs |
| EndpointWorkload.RunRound | targets/splash-endpoint/experiment.py:46-79 | no assertion of a round fails, its record validates, it ends at the largest finish time, and the endpoints can be used again |
| EndpointWorkload.CheckDevices | targets/splash-endpoint/experiment.py:65-76 | accepts exactly when every device is right, and sums the kernel's output words modulo 2^64 |
| EndpointWorkload.Workload | targets/splash-endpoint/experiment.py:41-80 | three rounds, each scaled by the reduction before, leave a record that validates |
| EndpointWorkload.ValidateRun | targets/splash-endpoint/experiment.py:98-135 | accepts exactly three consecutive rounds with the declared releases, oracle timings, outputs, records, reduction, end and clock steps |
| EndpointWorkload.Experiment | targets/splash-endpoint/experiment.py:41-135 | from power-on, for any number of endpoints, words, inputs, configuration, schedule and orders, the workload ends and its record validates |
| EndpointWorkload.PowerOnStarts | targets/splash-endpoint/qemu/cxl_slugarch.c:186-199 | endpoints as initialised form a quiet system, from which every run result applies |
| EndpointDevice.Device.Callback | targets/splash-endpoint/qemu/cxl_slugarch.c:79-128 | the in-place timer callback turns registers, buffers, log, RAM and shared link into what the value model says |
| EndpointDevice.Device.Submit | targets/splash-endpoint/qemu/cxl_slugarch.c:136-184 | the in-place doorbell refines the value model, guard by guard |
| EndpointDevice.Device.MmioWrite | targets/splash-endpoint/qemu/cxl_slugarch.c:278-321 | the in-place write handler refines the value model for every address, value and size |
| EndpointDevice.Device.FailJob | targets/splash-endpoint/qemu/cxl_slugarch.c:69-77 | a failure before commit leaves PREFAIL and a kind-3 record without digest, after it POSTFAIL and a kind-4 record over the output |
| EndpointDevice.RunKernel | targets/splash-endpoint/qemu/cxl_slugarch.c:89-92 | the byte loop computes the host oracle's vector function modulo 2^64 |
| AssignTokens.Run | crates/slugarch-ir/src/passes/assign_tokens.rs:16-84 | succeeds exactly when the undeclared ids that get listed are as many as the declared ops that do not; the order is the unique Kahn order of what is neither on or behind a cycle nor behind an undeclared source, with its tokens; on failure nothing changes and exactly the declared ops left out are reported; with known endpoints that is success exactly on acyclic graphs |
| AssignTokens.RunModule | crates/slugarch-ir/src/passes/assign_tokens.rs:16-84 | functions are numbered one after another up to the first refusal, whose report it is, and none after it changes |
| AssignTokens.Kahn | crates/slugarch-ir/src/passes/assign_tokens.rs:19-53 | the FIFO loop lists a Kahn order of the graph, whatever order the hash maps yield |
| AssignTokens.NumberTokens | crates/slugarch-ir/src/passes/assign_tokens.rs:65-81 | token_out is the one-based place, token_in the largest token among the predecessors |
| TokenOrder.KahnOrderUnique | crates/slugarch-ir/src/passes/assign_tokens.rs:27-53 | the order, strictly increasing in (token_in, op), is determined by the edge relation alone: not by map iteration, edge order or duplicates |
| TokenOrder.LeftOutIsBlocked | crates/slugarch-ir/src/passes/assign_tokens.rs:27-53 | for any edges, the ids left out are exactly those on or reachable from a cycle, or from an id neither declared nor any edge's target |
| TokenOrder.AcceptedExactly | crates/slugarch-ir/src/passes/assign_tokens.rs:54 | the length test passes exactly when as many undeclared ids are listed as declared ops are left out |
| TokenOrder.LengthTestIsRight | crates/slugarch-ir/src/passes/assign_tokens.rs:54-62 | passing means every declared op is listed exactly when no undeclared id is listed, or some op is lost and the two numbers differ |
| TokenOrder.AcceptedIffAcyclic | crates/slugarch-ir/src/passes/assign_tokens.rs:54-62 | passing coincides with acyclicity exactly when, on a cyclic graph those two numbers differ, on an acyclic one the listed undeclared ids are as many as the orphaned ops |
| TokenOrder.CompleteIffAcyclic | crates/slugarch-ir/src/passes/assign_tokens.rs:54-62 | with every endpoint declared the test passes exactly on acyclic graphs, and what is left out is exactly what is on or behind a cycle |
| TokenOrder.UnknownEndpointHidesCycle | crates/slugarch-ir/src/passes/assign_tokens.rs:23-24 | a cyclic graph with an edge to an undeclared op that passes under every order the pass can return |
| CpuSchedule.RetiredIsLeastFixpoint | crates/slugarch-fabric/src/engine.rs:73-111 | for any CPU stream the retired tokens are the least set holding 0 and closed under token_in to token_out, and exactly the commands outside it are stuck |
| CpuSchedule.SameVerdict | crates/slugarch-fabric/src/engine.rs:73-111 | any way of running a stream until nothing more can fire retires that same set and strands as many commands |
| Fabric.Fabric.Run | crates/slugarch-fabric/src/engine.rs:55-152 | against any IP behaviour the run ends; Ok only with every command completed within 4097 cycles apiece, stuck exactly with the number of commands no scan could fire, timeouts only at 4097 cycles of one hardware command; on CPU streams it retires commands exactly as the plain scan does and costs their sum |
| Fabric.WithinGlobalBudget | crates/slugarch-fabric/src/engine.rs:70-148 | pending, in flight and completed always add up to the stream, and the global budget is never reached |
| FabricOrder.NumberedStreamCompletes | crates/slugarch-fabric/src/engine.rs:73-111 | a token-numbered CPU stream fires every command once, each with all tokens up to its token_in already retired, at the stream's summed cost |
| FabricOrder.NumberedOrderIsTokenStream | crates/slugarch-backend/src/emit.rs:24-71 | dispatching a function numbered along its Kahn order yields such a stream |
| FabricOrder.EveryEdgeIsRespected | crates/slugarch-fabric/src/engine.rs:76-91 | for every edge the source is retired before the target although only the largest predecessor token is tested |
| FabricOrder.Compile | crates/slugarch-backend/src/emit.rs:24-71 | refused exactly when the length test fails, stopped in the dispatcher exactly when it passes with an undeclared op in the order, otherwise the numbered stream of the whole function |
| FabricOrder.CompileAndRun | crates/slugarch-cli/src/main.rs:19-27 | a kernel routed to the emulation core runs exactly when every declared op and nothing else can be listed, and then completes every op after all its predecessors; with known endpoints, exactly when acyclic |
| Certificate.UnpackPacked | targets/splash-bsp/experiment.py:28-28 | the 64-byte form gives back every field |
| Certificate.FaultIsAttributed | targets/splash-bsp/experiment.py:55-77 | each injectable fault makes the certificate fail its check under that fault's own name |
| Certificate.FirstDifference | targets/splash-bsp/experiment.py:70-77 | two different certificates always differ in a field, and the report names the first in layout order |
| Certificate.MaskInjective | targets/splash-bsp/experiment.py:50 | the membership mask determines the members |
| Certificate.CertifyBinds | targets/splash-bsp/experiment.py:49-52 | equal certificates have equal epoch, kind, owner, members and count, and equal hash lists unless the two digests' own messages collide |
| Certificate.GroupsPartition | targets/splash-bsp/experiment.py:80-82 | the groups are consecutive, nonempty, no larger than the mode's size, and together every tile once; only the last holds the last tile |
| BarrierPlan.ParentBinds | targets/splash-bsp/experiment.py:126-136 | equal group certificates have equal epoch and members, and equal ordered output hashes of every member unless two colliding strings, one hashed below each certificate, are handed back |
| BarrierPlan.ParentIdentifies | targets/splash-bsp/experiment.py:126-136 | when the hash separates the finitely many strings hashed below them, two group certificates are equal exactly for the same epoch, members and ordered output hashes |
| BarrierPlan.ReleasedAccounting | targets/splash-bsp/experiment.py:278-295 | reads, writes and bytes of a released barrier for every tile count, block count and mode |
| Barrier.Barrier.Execute | targets/splash-bsp/experiment.py:107-142 | released exactly by the complete planned transcript with every receipt equal to the expected certificate; otherwise stopped at the first differing receipt, blaming its tile and first differing field, with nothing released; on honest devices the outcome is exactly what the injected fault demands |
| Barrier.Barrier.Get | targets/splash-bsp/experiment.py:98-105 | a receipt is counted and logged as read, and accepted only if it equals the expected certificate |
| Barrier.WrittenCheck | targets/splash-bsp/experiment.py:116-119 | a certificate as written fails its check exactly when it is the sabotaged one |
| SerialOracle.Run | targets/splash-bsp/experiment.py:145-151 | the serial loops compute each epoch's reduction and digest from the previous reduction |
| SerialOracle.JoinedSum | targets/splash-bsp/experiment.py:225-226 | summing the lanes of the joined bytes equals summing block by block |
| BspRun.CellRun.Recover | targets/splash-bsp/experiment.py:199-223 | recovery proceeds only on the injected fault reported for the last tile, rewrites exactly its group's blocks, leaves every other tile's outputs untouched, checks all of them, and then releases |
| BspRun.CellRun.RunEpoch | targets/splash-bsp/experiment.py:163-233 | an accepted epoch wrote n*blocks outputs, retried the faulty group exactly in the faulted epoch, released a barrier with the mode's reads and writes, and left every tile's serial bytes in memory and table; entered with the serial entry it never fails for disagreeing with it |
| BspRun.CellRun.Run | targets/splash-bsp/experiment.py:154-235 | whatever the devices did, a passing cell leaves the serial run's bytes in every device memory and in the table after every epoch, with its reduction and digest, and neither the serial comparison nor an early release is ever what fails; on honest devices every cell passes, for every device count, block count, step count, mode and injected fault |
| BspRun.FaultVerdict | targets/splash-bsp/experiment.py:117-118 | from epoch 1 on every injectable fault is rejected on the last tile under its own name |
| Wire.EncodeFlit | crates/slugarch-cxl-wire/src/encode.rs:6-38 | the buffer-filling encoder produces the layout |
| Wire.DecodeEncode | crates/slugarch-cxl-wire/src/decode.rs:10-121 | decoding an encoded message gives it back, absent response data coming back as zeros |
| Wire.EncodeDecode | crates/slugarch-cxl-wire/src/encode.rs:26-37 | re-encoding an accepted FLIT clears exactly the fields its class ignores, changes nothing a second time, and leaves the FLIT alone exactly when those fields were zero |
| Wire.RejectsExactly | crates/slugarch-cxl-wire/src/decode.rs:11-20 | a FLIT is refused exactly for a nonzero reserved byte, else an unknown class, else an opcode the class lacks |
| Wire.AcceptedIffEncodable | crates/slugarch-cxl-wire/src/decode.rs:10-121 | a FLIT is accepted exactly when its header byte and reserved bytes are those of some encoded message |
| Guest.SlugState.HandleRequest | targets/qemu-type2/slugarch_type2_guest.c:409-461 | the in-place handler updates matrices, flag and counters and writes the reply as the value model says; its reply bytes are the host codec's |
| Guest.SlugState.ComputeIfNeeded | targets/qemu-type2/slugarch_type2_guest.c:370-385 | the triple loop leaves the 16x16 product, once |
| Gemm.BuildDispatchStream | crates/slugarch-host/src/dispatch.rs:45-108 | the four phases push exactly the 49 requests in order under wrapping sequential tags |
| Gemm.LoadFields | crates/slugarch-host/src/dispatch.rs:17-24 | every field of a load token is read back as written |
| Gemm.Matmul | crates/slugarch-host/src/qemu_type2.rs:179-191 | the triple loop computes the 4x4 product, every entry below 2^24 |
| Gemm.DecodeResults | crates/slugarch-host/src/result.rs:8-46 | sixteen MemData replies give their low 24 bits cell by cell; anything else is an error under the first offender's tag |
| Gemm.ValidateResponses | crates/slugarch-host/src/qemu_type2.rs:80-143 | an error exactly on a ragged or undecodable file, and a pass exactly for 49 well-tagged, well-phased replies carrying the job's product |
| GemmRun.Serve | targets/qemu-type2/slugarch_type2_guest.c:580-590 | the guest's loop answers request by request from the zeroed state |
| GemmRun.ResponseGood | targets/qemu-type2/slugarch_type2_guest.c:409-461 | for every job the reply to each of the 49 requests decodes to what the host wants in its place |
| GemmRun.GuestRunConforms | crates/slugarch-host/src/qemu_type2.rs:97-143 | whatever the zeroed guest answers to a job's encoded stream validates as that job's product |
| GemmRun.RunJob | crates/slugarch-host/src/qemu_type2.rs:42-51 | encode, serve and validate pass for every job |
| EndpointRtl.Endpoint.Clock | crates/slugcxl-gen/src/emit_endpoint.rs:97-223 | the clocked block updates the registers as the transition function says |
| EndpointRtl.Pipeline.Clock | crates/slugcxl-gen/src/emit_hj_pipeline.rs:104-145 | the monitor's clocked block updates its counters as the transition function says |
| EndpointRtl.SingleInFlight | crates/slugcxl-gen/src/emit_endpoint.rs:95-223 | on every trace from reset accepted minus delivered is 0 when idle and 1 otherwise, reply k answers request k with its tag and the datum sampled for it, and input-ready never meets output-valid |
| EndpointRtl.OutputIsStable | crates/slugcxl-gen/src/emit_endpoint.rs:173-217 | a reply on offer stays, unchanged, until taken |
| EndpointRtl.AnsweredInTime | crates/slugcxl-gen/src/emit_endpoint.rs:109-217 | with wrapper and host ready a load is answered after 3 clocks, a compute or read after 4, an unclaimed request after 2 |
| EndpointRtl.MonitorCounts | crates/slugcxl-gen/src/emit_hj_pipeline.rs:69-145 | on every trace the monitor counts each FLIT once: 64 bytes apiece, one record per started stride, every stalled clock and dropped record, each modulo 2^64 |
| EndpointRtl.Simulate | crates/slugcxl-gen/src/emit_endpoint.rs:97-223 | the two clocked blocks run together over any trace obey both results on their own registers |

## Left out

- QEMU, qtest, QMP, PCI enumeration, files, JSON, checksums, plots and command lines.
- EndpointGate: a stored record is the value of its fields and its digest what was hashed; EndpointMmio gives their bytes.
- EndpointWorkload.Experiment: the pseudo-random inputs and shuffles are parameters; the last finish must fit 64 bits, the width of the release register.
- Overflow of times, sequence numbers and event counters, which the model keeps unbounded; token numbers are likewise not wrapped at 32 bits.
- EndpointDevice.Device.Callback: cache invalidation and the coherency notice of a commit.
- Verilated IPs: in the fabric a hardware command sees an arbitrary done signal. No edge ordering is claimed for hardware streams.
- Host memory of the fabric, which emulated commands never touch.
- FabricOrder.CompileAndRun: one function per stream; in a module of several, token numbering restarts at 1 in each.
- AssignTokens.Run: bucket order of the hash maps is an arbitrary choice of the next key.
- `fuse_decode_ops`, whose dependency preservation is not a theorem of the code, and the other compiler passes.
- Barrier.Barrier.Execute: device memory is a map of 64-byte cells; at most 64 tiles, the width of the membership mask, and at most 0x20000 blocks a tile, where the output region meets the certificates.
- BspRun.CellRun.Run: wall-clock fields of the result, and the order in which kept blocks are read back.
- SHA-256 itself; the hash is a parameter.
- Gemm.BuildDispatchStream: bitwise or of disjoint token fields is written as a sum.
- EndpointRtl.Pipeline.Clock: the epoch register, payload hash, capture size and metadata byte counter.
- EndpointRtl.Endpoint.Clock: the six unused encodings of the 4-bit state register, and dispatch bases other than 0x2000.
- PTX lowering, backend bindings other than the emulation core's, serialization derives and report text.
