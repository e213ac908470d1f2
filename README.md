# UCX wire-up stub endpoint, owning endpoint and whitespace fixer in Dafny

This project models three parts of the UCX communication library.

- **The wire-up stub endpoint** (`src/ucp/wireup/stub_ep.c`). A stub stands in for the transport endpoint of one operation category of a protocol endpoint while the connection is negotiated.
  - It holds back send requests in a FIFO queue.
  - It forwards wire-up messages to an auxiliary endpoint. Once both connection flags are set, it forwards them to the endpoint being wired up (`next_ep`).
  - Its progress callback then does the switchover. It installs `next_ep` in the owner's dispatch table. It destroys the temporary endpoints. It replays the held-back requests on the new endpoint.
- **The owning endpoint** (`src/ucp/core/ucp_ep.c`):
  - creation with its field defaults and insertion into the worker's endpoint hash;
  - find-or-create by the peer's uuid;
  - the retry loop that hands a request to a transport endpoint's pending queue;
  - the purge/flush/destroy sequence.
- **The whitespace fixer** (`contrib/checkpatch.py`). This covers the trailing-whitespace line check, the line pass, the missing-final-newline check, the file pipeline that threads one check's fixed text into the next, and the reduction of per-file results.

Files:
- `wrappers.dfy` holds `Option`.
- `ucs.dfy` holds status codes, endpoint identities and pending requests.
- `ucp_ep.dfy` holds the `Worker`, `Ep` and `Request` classes.
- `stub_state.dfy` holds the stub's two-flag state word.
- `stub_ep.dfy` holds the `StubEndpoint` class, the switchover and the auxiliary-transport qualification.
- `checkpatch.dfy` holds the text functions and the two loops of the fixer as methods.

How the model is built:
- **Transport calls are oracles.** A single call such as `uct_ep_connect_to_ep` becomes a parameter holding the status that call returns. The endpoint-creation calls become function-typed parameters from a resource index to a status and an endpoint identity. A retry loop (`ucp_ep_add_pending`, the flush loop, the replay loop) consumes a sequence of statuses, one per call.
- **Ghost state records the effects of calls into code that is not modelled.** The worker holds:
  - the count of progress registrations;
  - the async-block nesting depth;
  - the log of `uct_ep_destroy` and `uct_ep_pending_purge` arguments;
  - the endpoints released with `ucs_free`;
  - the requests replayed after a switchover.
- **State with a fixed width keeps it.** `pending_count` is a 32-bit counter and is modelled modulo 2^32. The state word is a `bv32`.
- **Constants from other headers.** `UCP_EP_OP_LAST`, `UCP_EP_OP_AM`, `UCP_AM_ID_WIREUP` and `UCP_NULL_RESOURCE` are declared in headers that are not part of this model. They are taken as 4, 0, 1 and 255 (`(uint8_t)-1`, also the unset `cfg_index`). No proof depends on these values.
- **Where the code and its own comments and names disagree, the model follows the code:**
  - The struct comment calls `pending_count` the number of pending wire-up operations (stub_ep.c:41), and the guard's comment says that all of them must have been sent before the switch (stub_ep.c:94). The code only increments the counter (stub_ep.c:180) and never decrements it. So a stub that ever queued a request never switches, as `QueuedStubNeverSwitches` states, unless its queue length reaches a multiple of 2^32 and the counter wraps to 0.
  - The switchover's comment "Take out next_ep" (stub_ep.c:105) hands next_ep to the dispatch table. The stub's cleanup then destroys that same next_ep (stub_ep.c:356), and it destroys aux_ep a second time (Findings).
  - The function `ucp_stub_ep_remote_connected` sets a flag of a stub, but its assertion (stub_ep.c:377) demands a handle that is not a stub (Findings).
  - The switchover installs next_ep in the stub's own slot and in every slot whose `dups[]` entry names the stub's category (stub_ep.c:119-123). It does not search the table for the stub. `SwitchedDropsStub` states the condition under which no slot refers to the stub afterwards: every slot holding the stub is its own slot or a duplicate of it.

## Model

| member | source | states |
|---|---|---|
| StubState.EventsStayInFlags | src/ucp/wireup/stub_ep.c:19-24 | no sequence of connect/remote-connected events sets a bit of the state word outside the two flags |
| StubState.EventsSetFlagsIff | src/ucp/wireup/stub_ep.c:56-68 | after any events, LOCAL_CONNECTED is set iff it was set before or some connect_to_ep returned OK; REMOTE_CONNECTED is set iff it was set before or remote_connected was called; so no flag is ever cleared |
| StubState.ConnectedIff | src/ucp/wireup/stub_ep.c:96-100 | a fresh stub is connected iff a connect returned OK and remote_connected was called, in either order, and once connected it stays connected under further events |
| StubState.WireupTargetSticks | src/ucp/wireup/stub_ep.c:156-167 | wire-up messages go to aux_ep until both flags are set and to next_ep from then on, whatever events follow |
| StubEp.Switched | src/ucp/wireup/stub_ep.c:118-124 | the switched dispatch table has the same number of slots as the old one |
| StubEp.SwitchedDropsStub | src/ucp/wireup/stub_ep.c:118-124 | after the switch no slot refers to the stub (when every slot holding the stub is its own or a duplicate of it, and next_ep is not the stub); non-aliased slots keep their contents; the stub's own slot holds next_ep |
| StubEp.ReplayCount | src/ucp/wireup/stub_ep.c:133-139 | the number of replayed requests is at most the number held back and at most the number of OK returns, and equals one of the two |
| StubEp.ReplayCompletes | src/ucp/wireup/stub_ep.c:134-139 | with at least one OK per held-back request, every request is replayed; with no OK, none is |
| StubEp.OkCountPrefix | src/ucp/wireup/stub_ep.c:135-137 | a prefix of the call results holds no more OK returns than the whole |
| StubEp.SwitchoverAsWrittenDestroysPromoted | src/ucp/wireup/stub_ep.c:126-128 | the written switchover destroys the promoted next_ep, destroys aux_ep at least twice when present, and destroys NULL when it is absent |
| StubEp.SwitchoverKeepsPromoted | src/ucp/wireup/stub_ep.c:126-128 | the corrected switchover destroys no NULL, no endpoint twice, and not the promoted endpoint unless it is the auxiliary one |
| StubEp.StubEndpoint.Alloc | src/ucp/wireup/stub_ep.c:314-321 | a new stub has state 0, pending_count 0, an empty queue, no aux_ep and aux_rsc_index UCP_NULL_RESOURCE |
| StubEp.StubEndpoint.Create | src/ucp/wireup/stub_ep.c:272-348 | describes every outcome. With no configuration, the stub gets no endpoints. A failed next_ep creation returns its status. A category other than AM gets next_ep only. For AM, a failed selection or a failed auxiliary connect destroys next_ep and returns that status; otherwise the stub gets next_ep, aux_ep and the selected resource index. A successful stub is valid and fresh |
| StubEp.StubEndpoint.GetAddress | src/ucp/wireup/stub_ep.c:50-54 | the address request is forwarded to next_ep and its status returned unchanged |
| StubEp.StubEndpoint.ConnectToEp | src/ucp/wireup/stub_ep.c:56-68 | the connect goes to next_ep and its status is returned unchanged; LOCAL_CONNECTED is set afterwards iff it was set before or the connect returned OK; no bit is cleared |
| StubEp.StubEndpoint.RemoteConnected | src/ucp/wireup/stub_ep.c:373-379 | REMOTE_CONNECTED is set afterwards; no bit is cleared; the stub stays valid |
| StubEp.StubEndpoint.PendingAdd | src/ucp/wireup/stub_ep.c:169-190 | a wire-up request goes to the wire-up message endpoint with its status returned and nothing else changed. Any other request is appended at the tail; pending_count (mod 2^32), stub_pend_count, the worker's progress registrations and the stub's own registrations each grow by one; the result is OK and the invariant holds |
| StubEp.StubEndpoint.Flush | src/ucp/wireup/stub_ep.c:217 | a stub's flush always reports IN_PROGRESS |
| StubEp.StubEndpoint.PendingPurge | src/ucp/wireup/stub_ep.c:207-211 | a stub may be purged only with an empty queue; the purge hands no request to the callback and leaves the queue empty |
| StubEp.StubEndpoint.ReadyToSwitch | src/ucp/wireup/stub_ep.c:96-100 | the switchover guard holds exactly when both connection flags are set and pending_count is 0 |
| StubEp.StubEndpoint.WireupMsgEp | src/ucp/wireup/stub_ep.c:156-167 | the stub's wire-up message endpoint is next_ep when both flags are set and aux_ep otherwise, as WireupMsgTarget gives it |
| StubState.WireupMsgTarget | src/ucp/wireup/stub_ep.c:156-167 | the wire-up message endpoint is next_ep when both flags are set and aux_ep otherwise; WireupTargetSticks states its value over event sequences |
| StubEp.StubEndpoint.Destroy | src/ucp/wireup/stub_ep.c:350-357 | destroying a stub with an empty queue destroys the stub, then aux_ep if present, then next_ep, in that order, and releases the stub |
| StubEp.StubEndpoint.DrainPending | src/ucp/wireup/stub_ep.c:111-116 | the queue moves, in FIFO order, to the temporary queue and is left empty, with one progress unregistration per moved request |
| StubEp.StubEndpoint.InstallNext | src/ucp/wireup/stub_ep.c:118-124 | the dispatch table becomes `Switched`: next_ep in the stub's slot and in every slot whose dups[] names the stub's category, every other slot unchanged |
| StubEp.StubEndpoint.Replay | src/ucp/wireup/stub_ep.c:133-139 | the first ReplayCount requests are resubmitted in FIFO order, each retried until a call returns OK, and stub_pend_count drops by one per request |
| StubEp.StubEndpoint.Progress | src/ucp/wireup/stub_ep.c:70-140 | the corrected switchover changes nothing unless both flags are set and pending_count is 0. Otherwise the queue is drained and replayed, the table is switched, aux_ep alone is destroyed, the stub is released, registrations drop by the queue length and the async block is balanced |
| StubEp.StubEndpoint.ProgressAsWritten | src/ucp/wireup/stub_ep.c:70-140 | the same switchover as written: the destroy log grows by aux_ep, the stub, aux_ep again (when present) and next_ep |
| StubEp.StubEndpoint.Send | src/ucp/wireup/stub_ep.c:142-154 | every send operation other than am_bcopy runs the progress callback as written, with the effect of ProgressAsWritten (destroy log aux_ep, the stub, aux_ep again when present, next_ep), and returns UCS_ERR_NO_RESOURCE |
| StubEp.StubEndpoint.AmBcopy | src/ucp/wireup/stub_ep.c:192-205 | a wire-up message goes to the wire-up message endpoint with its result returned and nothing else changed; any other message runs the progress callback as written, with the effect of ProgressAsWritten, and returns UCS_ERR_NO_RESOURCE |
| StubEp.GuardMeansEmptyQueue | src/ucp/wireup/stub_ep.c:96-116 | on a valid stub with fewer than 2^32 queued requests, the switchover guard implies an empty queue, so the drain moves nothing |
| StubEp.QueuedStubNeverSwitches | src/ucp/wireup/stub_ep.c:179-180 | while requests are queued (fewer than 2^32), pending_count is nonzero and the switchover cannot happen |
| StubEp.GetAuxRscIndex | src/ucp/wireup/stub_ep.c:361-371 | a non-stub endpoint gets UCP_NULL_RESOURCE, a stub (which must have aux_ep) its aux_rsc_index |
| StubEp.RemoteConnectedAssertInverted | src/ucp/wireup/stub_ep.c:377 | when the written assertion is enforced, no remote_connected call reaches a stub, so a fresh stub is never connected: it fails the switchover guard and sends its wire-up messages to aux_ep for ever |
| StubEp.RemoteConnectedOn | src/ucp/wireup/stub_ep.c:373-379 | with the intended assertion (the handle is a stub), remote_connected sets REMOTE_CONNECTED on it and keeps it valid |
| StubEp.AuxQualificationAsWritten | src/ucp/wireup/stub_ep.c:248-266 | the written checks qualify a transport iff it has AM_BCOPY and CONNECT_TO_IFACE, giving "am_bcopy for wireup" exactly when AM_BCOPY is missing and "connecting to iface" exactly when only CONNECT_TO_IFACE is |
| StubEp.AuxChecksDead | src/ucp/wireup/stub_ep.c:258-266 | the written checks never give "async am callback" or "pending", and they qualify a transport with neither synchronous callbacks nor pending support |
| StubEp.AuxQualification | src/ucp/wireup/stub_ep.c:248-266 | the intended checks qualify a transport iff it has AM_BCOPY, CONNECT_TO_IFACE, AM_CB_SYNC and PENDING, and give each reason exactly when its flag is the first one missing |
| StubEp.AuxQualificationRefines | src/ucp/wireup/stub_ep.c:248-266 | the two versions differ exactly on transports that have AM_BCOPY and CONNECT_TO_IFACE but lack AM_CB_SYNC or PENDING; elsewhere they agree |
| StubEp.SelfIfaceQualifies | src/uct/self/self_iface.c:31-46 | the loopback transport's flag set qualifies under both versions; under the intended one this assumes the AM_CB_SYNC reading of the third check |
| UcpEp.Ep.constructor | src/ucp/core/ucp_ep.c:21-39 | a new endpoint has the five limits at SIZE_MAX, rsc_index and dst_pd_index at -1, state 0, no uct_ep, no wire-up aux_ep or next_ep, and a zeroed cfg_index and dispatch table |
| UcpEp.Worker.EpNew | src/ucp/core/ucp_ep.c:16-50 | on allocation success the status is OK and the fresh endpoint, with its defaults, is added to the hash under dest_uuid; on failure the status is UCS_ERR_NO_MEMORY and the hash is unchanged |
| UcpEp.Worker.EpCreateAsWritten | src/ucp/core/ucp_ep.c:97-135 | same outcomes as EpCreate except on wire-up failure, where the released endpoint stays in the hash |
| UcpEp.Worker.EpCreate | src/ucp/core/ucp_ep.c:97-135 | an existing endpoint for the uuid is returned with OK and nothing is created; an allocation or wire-up failure returns its status with no endpoint and the hash unchanged; success adds one fresh endpoint; the async block is balanced on every path and the hash keeps no released endpoint |
| UcpEp.Ep.AddPending | src/ucp/core/ucp_ep.c:74-95 | the request's endpoint is set first; the loop ends exactly at the first round where pending_add is not BUSY (queued) or forced progress returns OK (completed), and every earlier round was a retry |
| UcpEp.Ep.DestroyUctEpSafe | src/ucp/core/ucp_ep.c:60-72 | the pending queue is purged first; the endpoint is destroyed iff some flush returns OK |
| UcpEp.Ep.Destroy | src/ucp/core/ucp_ep.c:137-143 | the transport endpoint is purged, then destroyed and the endpoint released once a flush returns OK; without an OK flush neither happens |
| StubEp.DestroyStubSafe | src/ucp/core/ucp_ep.c:60-72 | destroying a stub safely purges it, which finds its queue empty; after any number of flushes, all IN_PROGRESS, the stub is not destroyed and the destroy log is unchanged, so the loop never ends on a stub |
| Checkpatch.RStrip | contrib/checkpatch.py:13 | rstrip gives a prefix of the line with no trailing whitespace, and what it removed is all whitespace |
| Checkpatch.RStripEmptyIff | contrib/checkpatch.py:35 | rstrip gives "" exactly for a line that is all whitespace |
| Checkpatch.LineEnd | contrib/checkpatch.py:29 | the end of the first line is a position with no line boundary before it, and a boundary at it unless the text ends there |
| Checkpatch.LineEndIsFirstBoundary | contrib/checkpatch.py:29 | that position is the first line boundary of the text |
| Checkpatch.SplitLines | contrib/checkpatch.py:29 | no line produced by splitlines contains a line boundary |
| Checkpatch.SplitJoin | contrib/checkpatch.py:29-41 | splitting the "\n"-join of boundary-free lines gives the lines back, except a final empty line |
| Checkpatch.SplitAppendNewline | contrib/checkpatch.py:45-47 | appending "\n" to a text adds at most one empty line to its splitlines |
| Checkpatch.CheckTrailingW | contrib/checkpatch.py:12-17 | (None, None) exactly when the line is empty or ends in a non-space; otherwise the message "trailing witespace" and the rstripped line |
| Checkpatch.RewrittenIff | contrib/checkpatch.py:34-38 | a line is rewritten iff it has trailing whitespace and is not all whitespace, and then it becomes its rstrip; other lines stay |
| Checkpatch.WhitespaceOnlyLineKept | contrib/checkpatch.py:35 | a whitespace-only line is flagged with fixed text "", which is falsy, so it is neither rewritten nor counted |
| Checkpatch.FixLineIsFinal | contrib/checkpatch.py:34-38 | a fixed line needs no further fix and gains no line boundary |
| Checkpatch.FixLines | contrib/checkpatch.py:30-39 | fixing keeps the number of lines and fixes each line independently |
| Checkpatch.CountRewrittenZero | contrib/checkpatch.py:39-43 | no error is counted iff no line needs rewriting |
| Checkpatch.ChecksLines | contrib/checkpatch.py:27-43 | the in-place loop over the lines computes the line pass's result, and its error is always None |
| Checkpatch.FixLinesRewrites | contrib/checkpatch.py:34-39 | a line changes iff it is rewritten; rewritten lines end without whitespace; whitespace-only and clean lines are unchanged |
| Checkpatch.ChecksLinesResult | contrib/checkpatch.py:40-43 | the line pass returns (None, None) iff no line is rewritten, and otherwise non-empty fixed text |
| Checkpatch.CheckTrailingNl | contrib/checkpatch.py:45-49 | non-empty text not ending in "\n" gets exactly one "\n" appended; empty text or text ending in "\n" gives (None, None) |
| Checkpatch.RunChecks | contrib/checkpatch.py:71-77 | threading the checks counts at most one error per check |
| Checkpatch.CheckFile | contrib/checkpatch.py:60-85 | a missing file gives 0; otherwise the result is -1 iff the pipeline counted an error, and with --fix the fixed text is written back exactly then |
| Checkpatch.PipelineSteps | contrib/checkpatch.py:70-77 | the pipeline applies the line pass and then the newline check to the line pass's output, counting one error per check that returned fixed text |
| Checkpatch.PipelineOutputCorrect | contrib/checkpatch.py:27-49 | the pipeline's output has no rewritable line and is empty or ends in "\n" |
| Checkpatch.CorrectTextIsFixpoint | contrib/checkpatch.py:27-49 | correct text goes through the pipeline unchanged with no error |
| Checkpatch.PipelineIdempotent | contrib/checkpatch.py:27-49 | a second pipeline run on the fixed text changes nothing and counts no error |
| Checkpatch.PipelineErrorCount | contrib/checkpatch.py:70-85 | the pipeline counts at most two errors; it counts none iff the text is already correct, and then leaves it unchanged |
| Checkpatch.ReduceMin | contrib/checkpatch.py:113 | the min-reduction is at most its start and at most every result, and is one of them |
| Checkpatch.MainResult | contrib/checkpatch.py:112-113 | main's result is -1 iff some file's result is -1 and 0 otherwise |

## Left out

- src/uct/self/self_iface.c is loopback-transport plumbing (memory pools, configuration tables, registration). Only its capability flags are used, as an input to the qualification check.
- src/ucs/memory/rcache_int.h holds only declarations and an inline call into a slow path that is not part of this model.
- The floating-point score of `ucp_wireup_aux_score_func` (stub_ep.c:268-269) is left out; only qualified versus zero is modelled. The loopback transport reports latency 0 (self_iface.c:60), so its score divides by zero.
- `ucp_select_transport` is not part of this model. Its tie-break is not visible, so it is an oracle that returns a status, a resource index and an address index.
- Concurrency is modelled sequentially. This covers `sched_yield`, `ucs_async_check_miss`, the memory fence, the atomic add and `volatile`. Only the async block/unblock nesting is kept, as a ghost counter.
- The progress and async calls inside the flush loop are left out (ucp_ep.c:68-69).
- Concrete transport behaviour, `ucs_calloc`/`ucs_free`, the UCS class machinery and the stub's interface operation table are left out. Each table entry is a method of `StubEndpoint`.
- `ucp_wireup_start`, `ucp_wireup_stop`, the address unpacking, peer names and debug logging are not part of this model. The wire-up start is an oracle status.
- The wire-up protocol code that first installs a stub in the dispatch table is not part of this model. `SwitchedDropsStub` takes where the stub was installed as a hypothesis.
- checkpatch I/O is left out: argument parsing, the `git diff` subprocess, printing of messages, and opening, seeking, truncating and writing the file. The file's text is an input, and the text written back is an output.
- Python's `str.isspace` and `str.splitlines` are modelled by their fixed character sets, not by the Unicode database.
- Checkpatch.IsSpace, Checkpatch.IsLineBoundary: the model follows Python 3, where the file is read as text (`str`, universal newlines on read). The script names only `python` (checkpatch.py:1). Under Python 2, `f.read()` gives a byte string: `rstrip()` strips only ASCII whitespace and `splitlines()` breaks only at "\n", "\r" and "\r\n". For the text "a\x0c\n", Python 3 and the model split it into "a" and "" and return 0. Python 2 rewrites the single line "a\x0c" to "a", appends "\n" and returns -1. The newline translation that text mode applies on reading and writing is not modelled either: the text given to the model is the text after reading.
- UcpEp.Ep.AddPending: when its rounds run out, it reports Unfinished where the source would keep looping.
- UcpEp.Ep.DestroyUctEpSafe: when no flush returns OK, it stops and destroys nothing, where the source would keep flushing.
- UcpEp.Ep.Destroy: on the same condition, the endpoint is not released. ucs_free is never reached in the source either.
- StubEp.StubEndpoint.Replay: when its statuses run out, it replays fewer requests where the source would keep retrying. The log records the replayed requests, not the endpoint they went to, which is the promoted next_ep passed by the switchover.
- `stub_pend_count` is an unbounded integer because its width is declared in ucp_worker.h, which is not part of this model.
- StubEp.StubEndpoint.Create: the initialiser never assigns next_ep when the endpoint has no configuration (stub_ep.c:324). The model takes that field as NULL.
- StubEp.StubEndpoint.Create: the assertion that the auxiliary address is non-empty (stub_ep.c:296) refers to address data that is not modelled.
- StubEp.AuxQualification: the flag that "async am callback" was meant to test is not visible in the source. The model takes UCT_IFACE_FLAG_AM_CB_SYNC. An asynchronous-callback flag is not modelled, and under that reading the loopback transport would be rejected.
- The corrected `StubEp.StubEndpoint.Progress` is not reachable from the stub's operations: `Send` and `AmBcopy` run the switchover as written, as the source does.
- Endpoint identities created by the oracles are not required to be distinct. The lemmas about the destroy log therefore state their conclusions relative to aux_ep and the stub's own identity.

## Findings

| source | as written | input that shows it | evidently intended | confidence | as-written member | corrected member |
|---|---|---|---|---|---|---|
| src/ucp/wireup/stub_ep.c:258-266 | the third and fourth qualification checks re-test CONNECT_TO_IFACE, so "async am callback" and "pending" are never returned | a transport with flags {AM_BCOPY, CONNECT_TO_IFACE} and neither AM_CB_SYNC nor PENDING qualifies | check UCT_IFACE_FLAG_PENDING for "pending" and a callback flag for "async am callback"; the model guesses UCT_IFACE_FLAG_AM_CB_SYNC, the only callback flag visible (self_iface.c:46), although the reason's text names an asynchronous callback | not executed | StubEp.AuxChecksDead | StubEp.AuxQualificationRefines |
| src/ucp/wireup/stub_ep.c:377 | `remote_connected` asserts that its argument is not a stub, then treats it as one | any stub handle fails the assertion; with assertions enforced, a stub therefore never becomes connected and never switches over | assert that the argument is a stub | not executed | StubEp.RemoteConnectedAssertInverted | StubEp.RemoteConnectedOn |
| src/ucp/wireup/stub_ep.c:126-128, 350-357 | the switchover destroys aux_ep, then the stub, whose cleanup destroys aux_ep again and next_ep, which was just installed in the dispatch table | an AM stub with aux_ep 7 and next_ep 9: the destroy log gains 7, the stub, 7, 9, while the table holds 9; a non-AM stub destroys NULL | destroy aux_ep once if present and release the stub without destroying next_ep | not executed | StubEp.StubEndpoint.ProgressAsWritten | StubEp.StubEndpoint.Progress |
| src/ucp/core/ucp_ep.c:41, 130-131 | when wire-up fails to start, the new endpoint is freed while the hash still holds it | a new uuid, successful allocation, `ucp_wireup_start` failing: the hash maps the uuid to a released endpoint | remove the endpoint from the hash before freeing it | not executed | UcpEp.Worker.EpCreateAsWritten | UcpEp.Worker.EpCreate |
