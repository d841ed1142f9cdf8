# Emulator host runtime: a Dafny model

A Dafny 4.11 model of the parts of this repository where state is shared, can be lost or
can be overrun: the server's bridge to the core child process, the frame and audio path to
the encoders, the TURN probe, the two-binary upgrade, the allocators and limiters, and the
save stack. `dafny verify dfyconfig.toml` checks the whole project.

Two shapes recur.

* **Protocols between threads or processes** are step machines. A `State` holds every shared
  variable and each party's program point; `Next` performs one shared load or store; a
  schedule picks the next party and supplies whatever the outside world decides (deadlines,
  panics, a dying child, results of foreign calls). The main lemmas quantify over every
  schedule. Fields called history are only written, never read, by the steps.
* **Sequential code that changes state** is a method or a class. Each is proved equal to a
  specification function, and the lemmas that follow say what that function means: against a
  reference that does the job in the simplest way, against its inverse, or over whole runs.

| module | what it models |
|---|---|
| `Mailbox` | the command and response mailbox in shared memory, the final SRAM snapshot and the shutdown path |
| `CrashNotice` | the crash sentinel on its way through a one-slot channel to the player |
| `ShutdownRegistry` | the registry of running bridges and the global shutdown that waits for them |
| `StartStop` | stopping a session while its core may still be loading |
| `ImageKernels`, `VideoEncoder` | integer scaling, general resizing, line doubling, and the encoder that picks between them |
| `Resampler`, `AudioStream` | the child's resampler and rate reports, and the streaming loop's 20 ms accumulator |
| `Stun`, `TurnProbe` | the STUN codec (sections 6 and 15 of RFC 5389, section 6.1 of RFC 5766) and the probe's event machine |
| `Upgrade`, `UpgradeSignals` | the two-binary install and the termination signals deferred during it |
| `PcPool` | the pool of pre-built peer connections |
| `RateLimit`, `RateWindows`, `Lockout`, `Seats` | the request limiter, its growing windows, the login limiter and the seat allocator |
| `SavePaths`, `Saves`, `SaveRace`, `SaveSteps` | the save directory layout, the save stack on a failing disk, and two pushes at once, write by write and operation by operation |
| `Covers` | percent-encoded cover addresses (section 2.1 of RFC 3986) |

`Base` and `Arithmetic` hold shared types and facts about division.

Where the code and its own comments differ, the model follows the code:

* `sc-web/lib/peer-tokens.ts:10-11` says a preview never consumes a player slot. Its seat
  raises the maximum that the next join reads, so one preview closes all remaining player
  seats: `Seats.PreviewCostsASeat` shows it, `Seats.NewGuestPlaysIff` gives the exact condition.
* `sc-server/src/webrtc.rs:630` calls "notified but still empty" a bug. By
  `PcPool.NotifiedButEmptyIff` every pool that built anything can get there.
* `sc-server/src/webrtc.rs:597-601` says an acquirer of an empty pool waits for the next push.
  Two pushes with nobody registered leave one notification, so one of two acquirers can wait out
  its timeout beside a stack: `PcPool.WaitsBesideAStackIff` says for which pools.
* `sc-server/src/streaming.rs:285-290` means to clean up and leave the loop after the notice. On
  the tick branch it re-locks a mutex it holds (`sc-server/src/streaming.rs:266-287`): the player
  has been told, but the server's loop hangs with `core_frame_rx` locked. The model calls that
  state `Wedged`: `CrashNotice.WedgeIsReachable`, `CrashNotice.WedgedForever`, and
  `CrashNotice.RelayedLoopLeavesIff` for exactly when the loop leaves instead.
* `sc-server/src/player_server.rs:804-828` is a barrier only when core loading has been
  entered before the call; `StartStop.StopIsABarrierIffEntered` proves both directions.
* `sc-web/lib/auth.ts:85-103` awaits a database lookup and a password hash between the check
  and the recorded failure, so five failures do not mean five guesses:
  `Lockout.SixOverlappingGuesses`, with the exact bounds in `Lockout.AtMostAdmittedIff` and
  `Lockout.GuessBoundIff`.
* `sc-server/src/saves.rs:21` says state files are never reused. A push whose list write fails
  leaves a state file that the next push writes over, with no two pushes at once:
  `Saves.FailedListWriteReusesTheFile`, and exactly when in `Saves.StateFileIsReusedIff`.
  Returned indices are distinct and keep their bytes as long as pushes to a slot do not overlap,
  which no lock ensures: `SaveRace.SameIndexIffOverlapped`, `SaveSteps.SecondReadDecides`.
* `sc-web/lib/rate-limit.ts:16` speaks of the longest window ever used. Until a wider one is
  used, admissions are pruned at the narrower one: `RateWindows.AlwaysRightIffWindowsNeverGrow`
  says for which lists of windows every answer is right. Every route uses one window per key.
* `sc-server/src/core_bridge.rs:1199-1207` cuts a frame to the shared buffer, which looks like
  protection, but keeps its dimensions: the resize can read past the cut and panic
  (`VideoEncoder.GstVideoEncoder.CutFrameCanBeUnreadable`; exactly when in
  `VideoEncoder.GstVideoEncoder.CutFrameReadableIff`).

## Model

| member | source | states |
|---|---|---|
| Mailbox.PersistedIsFresh | sc-server/src/core_bridge.rs:36-76 | over every interleaving, SRAM that reaches the save file is exactly what the one SAVE_SRAM handler run for this request produced, cut to the response buffer; never an earlier command's response |
| Mailbox.RequestOverwritesNoTakenCommand | sc-server/src/core_bridge.rs:46-59 | a child with a command in hand keeps `cmd_ready` set; while the bridge rewrites reply and command fields no command is taken; the reply stays cleared until the handler runs |
| Mailbox.SramStoresAnswer | sc-core/src/main.rs:232-246 | the SRAM handler's stores leave a reply that reads as present exactly when the core has SRAM, with its bytes |
| Mailbox.FinishedLog | sc-server/src/core_bridge.rs:378-398 | a bridge that finished saved the acknowledged SRAM exactly when there was some, nothing else, and then did the whole teardown |
| Mailbox.UnacknowledgedIffGaveUp | sc-server/src/core_bridge.rs:46-66 | a bridge with a ROM ends without an acknowledged SRAM request if and only if at some step it found its command still pending and its deadline passed or the child dead |
| Mailbox.UndisturbedShutdownSaves | sc-server/src/core_bridge.rs:378-398 | once the loop is left with a living child, on any schedule without a deadline, panic or death, a bridge that has ended fetched the core's SRAM exactly once, saved it if it is not empty, and then did the whole teardown, whatever was in the mailbox |
| Mailbox.UndisturbedShutdownEnds | sc-server/src/core_bridge.rs:46-66 | and on every such schedule it has ended after 120 rounds in which child and bridge both move |
| Mailbox.ShutdownOrder | sc-server/src/core_bridge.rs:1061-1281 | on cancel, crash, stall, lost consumer or panic: save precedes terminate precedes both unlinks precedes `stopped`, each at most once; `stopped` is signalled only after all of them, with the child dead |
| CrashNotice.NoticeIsGenuine | sc-server/src/streaming.rs:195-224 | `core_died` is relayed at most once, never without a sentinel, and with the reason the bridge recorded |
| CrashNotice.EnqueuedSentinelIsRelayed | sc-server/src/streaming.rs:245-291 | a sentinel enqueued while the loop is selecting or draining is relayed within four loop steps, whichever select branch wins |
| CrashNotice.RelayedIffEncoderSucceeds | sc-server/src/streaming.rs:292-299 | a sentinel enqueued while the loop works with its encoders is relayed exactly when that work does not fail |
| CrashNotice.CrashReachesThePlayer | sc-server/src/core_bridge.rs:1152-1159 | the cancellation after a crash never outruns its notice: undisturbed, the loop leaves only after relaying the recorded reason, and within five loop steps of the bridge finishing with a failed core the player has been told |
| CrashNotice.CrashIsToldIff | sc-server/src/core_bridge.rs:1150-1159 | when the core fails after any past that left the bridge forwarding and the session uncancelled, the player has been told that reason after ten undisturbed rounds if and only if the loop had not left already: a frame in the channel, the order of moves and the branches taken make no difference |
| CrashNotice.CalmCrashIsTold | sc-server/src/core_bridge.rs:224-255 | with an undisturbed past as well, every crash is told |
| CrashNotice.RelayedLoopLeavesIff | sc-server/src/streaming.rs:245-291 | a loop that relayed the notice has left exactly when the select that drained the sentinel took its cancel branch with the cancellation already visible; otherwise it hangs |
| CrashNotice.WedgedForever | sc-server/src/streaming.rs:266-287 | a loop that hangs on the mutex it holds does so on every schedule, relays nothing more and never drops its receiver |
| CrashNotice.WedgeIsReachable | sc-server/src/streaming.rs:281-291 | a crash whose sentinel the tick branch drains ends there, with the reason relayed |
| ShutdownRegistry.Registry.Retain | sc-server/src/core_bridge.rs:149 | keeps exactly the handles that have not stopped, in order |
| ShutdownRegistry.Registry.Register | sc-server/src/core_bridge.rs:140-151 | prunes the stopped handles, then appends the new one |
| ShutdownRegistry.Registry.CancelAll | sc-server/src/core_bridge.rs:163-165 | cancels every snapshotted bridge and no other |
| ShutdownRegistry.RunningBridgesStayRegistered | sc-server/src/core_bridge.rs:134-151 | whatever is registered and pruned concurrently, a registered bridge that has not stopped is in the registry |
| ShutdownRegistry.ShutdownIsABarrier | sc-server/src/core_bridge.rs:153-182 | a bridge registered before `cancel_and_wait` began has been cancelled or had stopped when it returns; when it returns true that bridge has finished its whole cleanup |
| ShutdownRegistry.CompletedIff | sc-server/src/core_bridge.rs:167-182 | a call reports failure if and only if it timed out on a bridge that had not stopped |
| ShutdownRegistry.StoppedBridgesComplete | sc-server/src/core_bridge.rs:167-182 | once the bridges it took have stopped, a call reports completion after finitely many of its own steps, whatever its clock and the others do |
| StartStop.StopIsABarrierIffEntered | sc-server/src/player_server.rs:804-828 | a true result always means that no bridge of the session runs or ever will if and only if core loading was entered before the call |
| StartStop.FalseIffTimedOut | sc-server/src/player_server.rs:811-827 | a stop answers false if and only if its deadline passed while it could not answer |
| StartStop.StopSucceeds | sc-server/src/player_server.rs:811-827 | once no bridge can run any more, a stop whose deadline does not pass answers true after at most seven of its steps |
| StartStop.EarlyStopMissesTheBridge | sc-server/src/core_bridge.rs:780-788 | a stop before core loading is entered can return true and a bridge start afterwards |
| StartStop.NoBridgeIsFinal | sc-server/src/core_bridge.rs:1039-1061 | once no bridge can run, none ever starts |
| ImageKernels.NearestNeighborResize | sc-server/src/gst_video.rs:342-365 | fills the destination with the nearest source pixel of each position; every index is in bounds when the last read is |
| ImageKernels.NearestNeighborScale | sc-server/src/gst_video.rs:304-337 | repeats each source pixel by the two factors, leaves bytes beyond the whole multiples black, in bounds when the source is complete or a factor is zero |
| ImageKernels.LineDoubleVertical | sc-core/src/main.rs:73-87 | doubles every row that is completely present in the input and stops at the first that is not |
| ImageKernels.ResizedPixel | sc-server/src/gst_video.rs:350-361 | pixel (x, y) of a resize is source pixel (x*sw/dw, y*sh/dh) |
| ImageKernels.NearestIsFloor | sc-server/src/gst_video.rs:350-356 | for any two sizes the sampled coordinate n of destination i is the one with n*to <= i*from < (n+1)*to |
| ImageKernels.ReadsUpToLast | sc-server/src/gst_video.rs:355-360 | no resize iteration reads past the source index of the last pixel |
| ImageKernels.ScaleIsResize | sc-server/src/gst_video.rs:300-337 | for every image and factors kx, ky >= 1, integer scaling equals general resizing to (kx*w, ky*h) |
| ImageKernels.ResizeUndoesScale | sc-server/src/gst_video.rs:339-365 | resizing a scaled image back gives the original bytes |
| ImageKernels.LineDoublingIsScaling | sc-core/src/main.rs:69-87 | for a complete frame, line doubling equals integer scaling and general resizing to (w, 2h) |
| VideoEncoder.GstVideoEncoder.constructor | sc-server/src/gst_video.rs:34-45 | the output size is the core size times a factor between 1 and the configured maximum, and within that range the largest whose height fits the configured height |
| VideoEncoder.GstVideoEncoder.Push | sc-server/src/gst_video.rs:119-184 | hands the pipeline the prepared frame and counts it only if accepted |
| VideoEncoder.GstVideoEncoder.PreparedSamplesTheFrame | sc-server/src/gst_video.rs:125-170 | whatever the incoming dimensions, the prepared frame has the fixed output size and each of its pixels is the nearest pixel of the incoming frame |
| VideoEncoder.GstVideoEncoder.CutFrameReadableIff | sc-server/src/core_bridge.rs:1199-1207 | preparing a frame that was cut to the shared buffer stays in bounds exactly when: at the core's size, it is not scaled or was not cut; at another size, the last pixel the resize samples is still there |
| VideoEncoder.GstVideoEncoder.CutFrameCanBeUnreadable | sc-server/src/core_bridge.rs:1199-1207 | an 800 x 600 frame, cut to the shared buffer and resized for a 320 x 240 core, is read past its end |
| Resampler.ResampleAudio | sc-core/src/main.rs:34-67 | passes degenerate input through and otherwise interpolates every output frame; the early break is never taken |
| Resampler.FrameCountIsExact | sc-core/src/main.rs:43-55 | outside the pass-through cases the output has exactly round(frames*out/in) frames, each starting at an existing input frame |
| Resampler.ResampledBetweenNeighbours | sc-core/src/main.rs:56-64 | every read is in bounds and every output sample lies between its two neighbouring input samples |
| Resampler.OutputIsOnTheLine | sc-core/src/main.rs:49-65 | every output sample is within half a step of the straight line through its two input samples, at position j*in/out |
| Resampler.WholeFactorKeepsInput | sc-core/src/main.rs:43-64 | upsampling by a whole factor keeps every input frame, at its multiple |
| AudioStream.RateReporter.constructor | sc-core/src/main.rs:166-180 | the first published rate is within 8000..96000 |
| AudioStream.RateReporter.Report | sc-core/src/main.rs:306-327 | the published rate stays within 8000..96000 and moves only to an in-band measurement over a full second that drifts more than 2% |
| AudioStream.AudioLoop.PushAudio | sc-server/src/streaming.rs:101-124 | caps the buffer, hands over whole chunks and keeps the remainder; the loop ends |
| AudioStream.AudioLoop.DrainAudio | sc-server/src/streaming.rs:273-301 | the audio kept from a drain is that of its last two frames, in order |
| AudioStream.ChunksSplit | sc-server/src/streaming.rs:117-122 | the chunks followed by the remainder are the buffer, each chunk has the chunk length, less than one chunk remains |
| AudioStream.ChunkingEndsIff | sc-server/src/streaming.rs:116-121 | on any buffer the chunking loop reaches less than a chunk after finitely many rounds exactly for rates of at least 25 Hz |
| AudioStream.PushIsLossless | sc-server/src/streaming.rs:108-123 | at rates the child reports the drop cap is never hit, chunks are 20 ms and whole stereo pairs, nothing is lost |
| AudioStream.TickIsLossless | sc-server/src/streaming.rs:268-301 | one tick, with or without an encoder rebuild, adds exactly the kept audio to what was handed over or waits |
| AudioStream.StreamIsLossless | sc-server/src/streaming.rs:101-124 | over every run with an encoder, emitted chunks followed by the accumulator are all kept audio in order, in whole stereo pairs |
| AudioStream.KeptIsTheEnd | sc-server/src/streaming.rs:269-301 | a drain of at most two frames keeps all their audio; a longer one all but that of the earlier frames |
| AudioStream.EverySampleIsHeard | sc-server/src/streaming.rs:101-124 | if no tick finds more than two frames, emitted chunks followed by the accumulator are every sample of every frame, in order |
| AudioStream.EncoderFollowsTheRate | sc-server/src/streaming.rs:310-325 | a tick changes the encoder's rate only to the last frame's, only if they are more than 5% apart; unless its rebuild fails they no longer are |
| AudioStream.JitterRebuildsOnce | sc-server/src/streaming.rs:303-317 | over every run whose reported rates lie within 2% of one rate the encoder is rebuilt at most once, and never if it starts within them: it does not oscillate |
| AudioStream.CappedIsTheEnd | sc-server/src/streaming.rs:108-115 | the cap drops the oldest samples and no more than it must |
| Stun.ParseStunMessage | sc-web/lib/turn-probe.ts:159-177 | on arbitrary bytes the parser ends, reads in bounds and computes the reference parse |
| Stun.RoundTrip | sc-web/lib/turn-probe.ts:76-88 | parsing a serialised message gives back type, transaction id and, per attribute type, the last value; the header length is the body length, a multiple of four |
| Stun.CollectedIsLast | sc-web/lib/turn-probe.ts:166-175 | the attribute map holds a type exactly when some attribute has it, with the last such value |
| Stun.AnyBytesParse | sc-web/lib/turn-probe.ts:159-177 | any bytes are read if and only if they hold a whole header with the magic cookie; of each type the message has the last value on the bytes, cut where the datagram ends, and no other types |
| Stun.BuildStunHeader | sc-web/lib/turn-probe.ts:81-88 | fills the 20 header bytes of section 6 of RFC 5389 |
| Stun.PushAttr | sc-web/lib/turn-probe.ts:141-146 | appends one padded attribute; refuses exactly the values too long for the length field |
| Stun.BuildAllocateRequest | sc-web/lib/turn-probe.ts:90-139 | assembles the Allocate request, signed exactly when username, realm and credential are present |
| Stun.IntegrityCoversTheMessage | sc-web/lib/turn-probe.ts:116-132 | MESSAGE-INTEGRITY comes last and its digest covers all bytes before it, with a header length that already counts it (section 15.4 of RFC 5389) |
| Stun.RequestParses | sc-web/lib/turn-probe.ts:99-114 | a server that parses the request finds exactly the transport, username, realm and nonce put in, and a digest exactly when signed |
| Stun.ErrorCodeRoundTrip | sc-web/lib/turn-probe.ts:179-186 | every code from 300 to 699 is read back, whatever the reserved bits and reason phrase |
| TurnProbe.ProbeSocket.OnEvent | sc-web/lib/turn-probe.ts:231-330 | timers, errors and datagrams settle or continue the probe as the reference machine does |
| TurnProbe.OutcomeIsJustified | sc-web/lib/turn-probe.ts:249-309 | a relay is reported only on a success response to the awaited request; credentials are sent at most once, only to a 401 challenge for the first request, with its realm and nonce and a fresh awaited id |
| TurnProbe.OutcomeIff | sc-web/lib/turn-probe.ts:231-330 | for each of the seven outcomes, over every run: the probe ends with it if and only if some event settles it so: the timer, a socket or send error, an awaited success, a full challenge after credentials, a 401 without realm or nonce, another error with its code, any other awaited type |
| TurnProbe.CredentialsAreSentIff | sc-web/lib/turn-probe.ts:265-294 | credentials are sent if and only if an awaited 401 with a realm and a nonce came |
| TurnProbe.FirstRequestIsAnonymous | sc-web/lib/turn-probe.ts:319-320 | the first request parses as an Allocate without username, realm, nonce or digest |
| TurnProbe.StraysAreInvisible | sc-web/lib/turn-probe.ts:249-251 | an unreadable datagram, or one with another transaction id, such as a late repeat of the first challenge, changes nothing in the rest of any run |
| TurnProbe.ThrowsIff | sc-web/lib/turn-probe.ts:265-292 | over every run the message handler throws exactly when a first challenge's realm and nonce make a retry that does not fit its length fields |
| TurnProbe.OutcomeIsFinal | sc-web/lib/turn-probe.ts:218-229 | after an outcome no event changes anything |
| Upgrade.InstallDir.BackupBinary | sc-server/src/upgrade.rs:127-140 | copies an installed binary to a fresh name, does nothing without one, and touches nothing else even when the copy fails halfway |
| Upgrade.InstallDir.RollbackCore | sc-server/src/upgrade.rs:142-151 | puts the backup back or removes the new core; changes nothing if it fails |
| Upgrade.InstallDir.InstallStagedPair | sc-server/src/upgrade.rs:218-265 | succeeds exactly when both staged files exist, neither rename is refused and neither is the backup of a binary that is there, and then both binaries are new; reports a failed rollback exactly when the core went in, the server did not and the rollback is refused; an error means both are as before, absent ones included, unless it reports a failed rollback, and then the old core is in its backup; in every intermediate state each old binary is at its destination or backup until both are replaced |
| UpgradeSignals.DropRestoresAndRaisesTheFirst | sc-server/src/upgrade.rs:200-216 | after the guard drops the three prior handlers are back and exactly the first deferred signal has been raised, once; nothing is raised before |
| UpgradeSignals.FailedBlockRestores | sc-server/src/upgrade.rs:170-198 | if a handler cannot be installed the earlier ones are put back and nothing is raised |
| UpgradeSignals.DeferredSignalIsRaisedIff | sc-server/src/upgrade.rs:170-216 | when the guard is gone, the first deferred signal has been raised if and only if the guard came to exist or nothing was deferred |
| UpgradeSignals.InstallIsNotInterrupted | sc-server/src/upgrade.rs:152-158 | while the guard is active no signal reaches a prior handler and all are deferred in order |
| UpgradeSignals.EverySignalIsAccountedFor | sc-server/src/upgrade.rs:152-216 | at any time signals handled and deferred are those that arrived and the one raised; after the drop the prior handler of the first deferred signal has run on it |
| PcPool.New | sc-server/src/webrtc.rs:559-595 | the pool starts with one stack per successful pre-build |
| PcPool.PoolConserves | sc-server/src/webrtc.rs:602-667 | over every interleaving queued stacks, pending replenishers and failed builds add up to the pool size, the over-fill check never fires, and stacks are handed out once each in build order |
| PcPool.NotificationWakesAWaiter | sc-server/src/webrtc.rs:618-655 | after any run a permit is stored only while nobody waits, and a notification sent while somebody waits wakes exactly one |
| PcPool.FailedBuildsDrainThePool | sc-server/src/webrtc.rs:652-665 | each failed build loses a slot for good: at any later time stacks and pending replenishers number at most the size less the failures so far, and after as many failures as slots no acquire succeeds again |
| PcPool.NotifiedButEmptyIff | sc-server/src/webrtc.rs:618-655 | for any pool, some schedule wakes an acquirer to an empty queue if and only if at least one pre-build succeeded |
| PcPool.WaitsBesideAStackIff | sc-server/src/webrtc.rs:602-640 | for any pool, some schedule leaves an acquirer waiting beside a queued stack with nothing under way to notify it if and only if at least two pre-builds succeeded |
| PcPool.NotifiedButEmptyCanHappen | sc-server/src/webrtc.rs:618-630 | a schedule of the one-slot pool that does so, with no build failing |
| RateLimit.RateLimiter.CheckRateLimit | sc-web/lib/rate-limit.ts:54-93 | one check: prune, count, decide, record |
| RateLimit.RateLimiter.Cleanup | sc-web/lib/rate-limit.ts:23-31 | the sweep keeps exactly the retained timestamps and the entries that have any |
| RateLimit.CleanupKeepsTheLive | sc-web/lib/rate-limit.ts:23-31 | a sweep keeps of each key the timestamps younger than its retention, as often as they occur, and drops the key if and only if there are none |
| RateLimit.AnswersMatchTheFullLog | sc-web/lib/rate-limit.ts:23-93 | for a key whose windows never grow, every answer equals that of a log that is never pruned, whatever cleanups and other keys come between |
| RateLimit.AllowedIff | sc-web/lib/rate-limit.ts:70-92 | over every run, a check is allowed if and only if the window ending with it holds fewer than `limit` admissions, and `remaining` is what that leaves |
| RateLimit.ResetIsTheOldest | sc-web/lib/rate-limit.ts:83-92 | `reset` is one window after the oldest admission still in the window, the check's own if there is none, and `retryAfter` the seconds until then, rounded up, at least 1 |
| RateLimit.LogIsWhatWasAllowed | sc-web/lib/rate-limit.ts:70-81 | the admissions are the times of the checks that were answered allowed |
| RateWindows.AlwaysRightIffWindowsNeverGrow | sc-web/lib/rate-limit.ts:14-93 | for every list of positive windows: every run that checks a key with these windows, in any company, answers the next check as the full log would if and only if no window is wider than one before it |
| RateWindows.WiderWindowForgets | sc-web/lib/rate-limit.ts:66-92 | after an admission under 10 ms and a sweep, a check under 100 ms reports one request more remaining than there is |
| RateLimit.AtMostLimitPerWindow | sc-web/lib/rate-limit.ts:70-81 | any half-open interval of one window's length holds at most the limit of admissions |
| RateLimit.AtMostLimitAllowed | sc-web/lib/rate-limit.ts:54-93 | in any half-open interval of one window's length at most `limit` checks of the key are answered allowed |
| RateLimit.RefusedIsFull | sc-web/lib/rate-limit.ts:75-76 | a refusal means the window holds exactly the limit of admissions |
| RateLimit.WaitingRetryAfterSuffices | sc-web/lib/rate-limit.ts:83-92 | a refused caller who waits `retryAfter` seconds, with no other admission meanwhile, is admitted |
| Lockout.LoginGuard.CheckRateLimit | sc-web/lib/auth.ts:40-64 | one login check: forget an expired block or window, then refuse or allow |
| Lockout.LoginGuard.Cleanup | sc-web/lib/auth.ts:33-38 | the sweep drops exactly the entries whose window started over ten minutes ago |
| Lockout.SweepsAreInvisible | sc-web/lib/auth.ts:33-64 | over every run in clock order each check is answered as if nothing had ever been swept |
| Lockout.LockoutLastsExactly | sc-web/lib/auth.ts:47-62 | after a refusal the address is refused until `blockedUntil` and allowed from then on, whatever happens in between; no cleanup removes it while blocked |
| Lockout.WaitIsUntilTheEnd | sc-web/lib/auth.ts:47-62 | a refusal reports the whole seconds, rounded up, to the end of the block |
| Lockout.AllowedIffFewFailures | sc-web/lib/auth.ts:55-69 | in the minute of its window an unblocked address is allowed exactly while fewer than five failures have been recorded, whatever checks, failures and cleanups interleave |
| Lockout.AfterTheMinute | sc-web/lib/auth.ts:47-63 | once the minute is over an address is allowed exactly from the end of its block on, at once if it has none, and starts with no failures |
| Lockout.AtMostAdmittedIff | sc-web/lib/auth.ts:79-105 | over every interleaving of checks and recorded failures, at most n guesses get through in a window if and only if the check after the n-th comes after the fifth recorded failure |
| Lockout.GuessBoundIff | sc-web/lib/auth.ts:79-105 | with at most c admitted guesses awaiting their failure at any check, 5 + c is the exact bound on guesses that get through: no smaller number bounds every such run |
| Lockout.SixOverlappingGuesses | sc-web/lib/auth.ts:85-103 | six checks before the first recorded failure are all allowed, and so is the next |
| Lockout.BurstIsAdmitted | sc-web/lib/auth.ts:85-103 | however many guesses overlap, all are allowed: the limiter sets no bound on them |
| Lockout.FiveGuessesThenBlocked | sc-web/lib/auth.ts:55-69 | of guesses made one at a time within a minute exactly the first five get through and the sixth blocks for five minutes |
| Seats.PeerTokens.SelectExisting | sc-web/lib/peer-tokens.ts:43-50 | finds the client's first row in the session, if any |
| Seats.PeerTokens.SelectMaxSeat | sc-web/lib/peer-tokens.ts:78-81 | the session's largest seat, 0 without rows |
| Seats.PeerTokens.IssueRoomPeer | sc-web/lib/peer-tokens.ts:32-98 | one transaction: the client's existing row, or one new row |
| Seats.SeatsAreExclusive | sc-web/lib/peer-tokens.ts:27-31 | at most `maxSeats` players, in distinct seats 1..maxSeats; guests that are not previews have distinct seats; one row per client |
| Seats.NewGuestPlaysIff | sc-web/lib/peer-tokens.ts:78-96 | a new guest plays exactly when the session has had no preview and fewer than `maxSeats` guests, which the table shows as a largest seat below `maxSeats`; without previews the k-th guest gets seat k |
| Seats.PreviewCostsASeat | sc-web/lib/peer-tokens.ts:61-85 | after one preview the guest who would have played in seat 1 becomes a viewer |
| Seats.RejoinIsStable | sc-web/lib/peer-tokens.ts:52-59 | rejoining at any later time returns the same token, seat and role and adds no row |
| SavePaths.NumberReadsBack | sc-server/src/saves.rs:107-109 | the zero-padded file number determines the index |
| SavePaths.PathsAreDistinct | sc-server/src/saves.rs:97-114 | every file of every account and ROM has its own path, and no file is the temporary file of another |
| Saves.SaveDir.WriteAtomic | sc-server/src/saves.rs:181-200 | a write that works installs exactly the data; one that fails at any step leaves every file but the temporary one as it was |
| Saves.FailedWriteKeepsTargetIff | sc-server/src/saves.rs:175-200 | a failed write leaves its target as it was for all contents if and only if the target is not its own temporary file |
| Saves.EveryLoad | sc-server/src/saves.rs:150-154 | after any run with any faults, every index loads: its push's bytes if listed, the orphan of a failed list write if it is the next one, nothing beyond |
| Saves.StateFileIsReusedIff | sc-server/src/saves.rs:137-148 | the state file a push is about to write exists already if and only if, since the slot's last success, an earlier push wrote its state and failed on the list |
| Saves.FailedListWriteReusesTheFile | sc-server/src/saves.rs:141-145 | two pushes, one after the other, of which the second writes over the state file of the first |
| Saves.BatteryWriteIsSeparate | sc-server/src/core_bridge.rs:1250-1256 | a battery save, however it ends, changes no listing, no saved state and no other battery file |
| Saves.PushKeepsBattery | sc-server/src/saves.rs:101-114 | a push, however it ends, changes no battery file |
| Saves.SaveDir.Push | sc-server/src/saves.rs:137-148 | reads the stack, writes the state, then the stack; reports the index only if both writes worked |
| Saves.StackIsTheLog | sc-server/src/saves.rs:118-171 | after any run of pushes failing anywhere, the list is exactly this slot's successful pushes with indices 1, 2, ... below `next_index`, each loads its bytes, and the latest load is the last of them |
| Saves.PushAnswers | sc-server/src/saves.rs:46-73 | a push succeeds exactly when the disk works for it, and returns the number of successful pushes so far |
| Saves.LaterIndexIsLarger | sc-server/src/saves.rs:54-68 | indices returned for a slot strictly increase |
| Saves.ReturnedIndexIsPermanent | sc-server/src/saves.rs:141-153 | an index a push returned loads that push's bytes at any later time |
| Saves.OthersDoNotMatter | sc-server/src/saves.rs:7-11 | every read of an account and ROM, at every index and listed or not, is what it would be had no other account or ROM ever been saved |
| SaveRace.SameIndexIffOverlapped | sc-server/src/commands/save_handlers.rs:48-53 | over every interleaving of two pushes to one slot, both report the same index if and only if at some moment both had read the stack and neither had finished; then the list gains only one of them, otherwise the slot holds both |
| SaveRace.AlternatingPushesClash | sc-server/src/saves.rs:137-148 | two pushes taking turns step by step return one index, and the bytes under it are those of the later state write |
| SaveSteps.SecondReadDecides | sc-server/src/saves.rs:137-200 | with create, fill, sync and rename as single steps that may fail: returned indices keep their pushes' bytes in every continuation if and only if the earlier push is over when the later one reads the list |
| SaveSteps.SameIndexIffOverlapped | sc-server/src/saves.rs:137-200 | at that grain and under any faults, two pushes that report success return the same index if and only if they overlapped; if not, the slot holds both |
| SaveSteps.SuccessWithTheOthersBytes | sc-server/src/saves.rs:181-200 | two overlapping pushes share a temporary file: one reports success for an index that loads the bytes of the other, which reports an error |
| Covers.UrlEncoding | sc-server/src/covers.rs:214-236 | the byte loop with its listed exceptions is the uniform rule: unreserved bytes as they are, all others as upper-case triplets |
| Covers.RoundTrip | sc-server/src/covers.rs:209-236 | decoding gives back any bytes, and the encoding is in normal form |
| Covers.NormalIsEncoded | sc-server/src/covers.rs:214-236 | a text in normal form is the encoding of what it decodes to, so each byte string has one normal encoding |
| Covers.UrlsAreDistinct | sc-server/src/covers.rs:111-115 | different folders or names never share an address |
| Covers.AddressReadsBack | sc-server/src/covers.rs:111-115 | splitting the path of an address and decoding gives the folder, then the box-art directory, then the name, in this order |

## Left out

- Heap-level threads: `Mailbox`, `CrashNotice`, `StartStop`, `PcPool` and `UpgradeSignals` are step machines on values, not methods on shared objects; loads and stores are sequentially consistent, and a copy of a buffer is one step.
- Mailbox.PersistedIsFresh: the model starts after the startup SRAM load, which clears `cmd_ready` itself after 50 ms (sc-server/src/core_bridge.rs:1006-1010); a child still in that handler is not covered.
- Mailbox.RequestOverwritesNoTakenCommand: covers the SRAM request only; ordinary input commands may overwrite a pending command, and save/load state wait 100 ms instead of for an acknowledgement (sc-server/src/core_bridge.rs:1083-1127), so neither is claimed lossless.
- Mailbox.ShutdownOrder: the persisting call itself may fail on disk; the event records the call.
- Frames in shared memory: the child overwrites a frame without looking at `frame_ready`, so no whole-frame claim is made; input payload fields and the 1-9 slot number are not modelled.
- CrashNotice.CrashIsToldIff: undisturbed means no other cancellation, encoder error or passed retry deadline; `CrashNotice.RelayedIffEncoderSucceeds` covers the encoder error.
- CrashNotice.EnqueuedSentinelIsRelayed: relaying means taking the recorded reason and sending it if a data channel exists; the 200 ms retry deadline is a free choice of the schedule.
- ShutdownRegistry.ShutdownIsABarrier: "cleaned" is one step there; that it covers saving, terminating and unlinking is `Mailbox.ShutdownOrder`.
- StartStop.StopIsABarrierIffEntered: one loader and one stopper per session; `shutdown_local_session`, `register_local_session_cleanup` and `stop_game` around them close peer connections and edit the session map.
- Floating point: rates, positions and 20 ms chunks are exact rationals; no bit equality with f32 or f64 is claimed.
- Image sizes: u32 and usize are unbounded naturals; a frame for which an index would leave the source is excluded by the precondition, where the program panics (`VideoEncoder.GstVideoEncoder.CutFrameReadableIff` says which).
- AudioStream.StreamIsLossless: frames dropped by a full channel, audio older than the last two frames of a tick, and ticks without an encoder are not part of the kept audio.
- Stun.BuildAllocateRequest: HMAC-SHA1, the MD5 key and UTF-8 conversion are opaque functions over bytes; a request too long for its length field is None here, and `TurnProbe.ThrowsIff` says when the exception it stands for is raised.
- TurnProbe.OutcomeIsJustified: what UTF-8 decoding makes of the realm and nonce is an opaque function; latency, timestamps, error texts, relay family, URL parsing and the result cache are not modelled.
- Upgrade.InstallDir.InstallStagedPair: download, checksum, staging, permissions and restart are not modelled; backup names are fresh, and whether a best-effort removal works is left open.
- UpgradeSignals.DeferredSignalIsRaisedIff: sigaction failing on restoration is not modelled.
- PcPool.PoolConserves: builds are opaque, and tasks of a kind at the same point are interchangeable.
- RateLimit.AnswersMatchTheFullLog: under a clock that does not run back; times are integers. `RateWindows.AlwaysRightIffWindowsNeverGrow` speaks of all runs with the same windows; a particular run with growing ones can still be answered right.
- RateLimit.AtMostLimitAllowed: one window and one limit per key, as the routes use it.
- Lockout.LockoutLastsExactly: assumes checks between the refusal and the end of the block in clock order.
- Seats.SeatsAreExclusive: `maxSeats` is fixed per session; the advisory lock is taken as given, so a run is a sequence of whole transactions; rows are never deleted.
- Saves.StackIsTheLog: pushes are one after another (two at once are `SaveRace`); `next_index` does not wrap at 32 bits; account and ROM names are single path components; JSON is any codec that reads back what it wrote.
- SaveRace.SameIndexIffOverlapped: each file write is one step and works; single operations that may fail are `SaveSteps`.
- SaveSteps.SecondReadDecides: two pushes with different bytes, the first operation of the earlier one named `first`; the mirrored case is the same lemma with the two saves exchanged. What a list file that was cut short does to later readers is not followed.
- Covers.UrlsAreDistinct: takes the platform's folder after the name table, which maps an unknown platform to itself.
- Foreign code: libretro, GStreamer, WebRTC, HTTP, SQL, React, and the command poll route.
- Small functions that would add only easy members: crash classification, ROM hashing, PNG and size checks, configuration and platform tables.
