# A verified model of the deterministic core of a record/replay hypervisor

The hypervisor runs a guest under KVM so that a run can be repeated bit for bit. KVM is foreign code; what
makes runs repeatable is the code around it. It counts retired instructions and stops the guest exactly where
it wants to, delivers interrupts at exact counts, keeps virtual time as a function of the count, logs every
input, and chains hashes of the machine's state so that two runs can be compared. This project models that
code in Dafny and proves what it promises.

The guest is a deterministic machine of micro-steps (`Machine.dfy`). A step retires an instruction, or retires
nothing (an iteration of a REP instruction), or waits for an exit to be serviced. What is not deterministic
about KVM is a `Schedule`: entry by entry, how far the guest runs, how late the counter's overflow arrives,
whether a signal kicks the vCPU out, and which calls fail. Theorems about runs hold for every schedule, every
guest and every choice of margins.

## What is proved

- **Landing** (`Boundary.dfy`). `LandAt` never reports success anywhere but at the target, and every failure names a
  call that failed or an exit that was refused. If the overflow arrives less than the margin late, or the entry ends
  after one micro-step anyway, and no vector is pending, then whatever the margins, kicks and exits, it lands in one
  state: the first with that many retirements; and if no call fails, it does land there, unless the guest takes an
  exit on the way that the handler refuses.
- **Injection** (`Inject.dfy`). A vector goes in at the first boundary, from the requested one on, at which the
  guest can take it.
- **Runs** (`RunModel.dfy`, `RunLaws.dfy`, `LinkLaws.dfy`, `RunControl.dfy`). A run is a function of the boundary
  engine and its schedule, and the methods are proved equal to it. Every run accounts for each link that it pushes,
  stops at the first point that asks it to, fires a timer that comes due, and completes if nothing stands in its way;
  and it is known of which guests and segments a run can link a boundary twice.
- **Agenda** (`Agenda.dfy`). The streaming five-way merge and the compiler that it replaced produce the same
  agenda, point by point. Both are proved against a plan: for every instruction count, what is due there.
- **Quantization** (`Itineraries.dfy`, `Quantization.dfy`, `Pieces.dfy`). Running a segment in one go or in any number
  of pieces, each under margins and a host schedule of its own, lands the same inputs, pushes the same links and ends
  in the same state.
- **Virtual time** (`VirtualTime.dfy`). The conversion from time to instructions is the exact lower adjoint of
  the conversion back. Each restore makes the guest's clock lag by one nanosecond at most.
- **Hash chain** (`StateHash.dfy`). Equal chain values mean equal histories, or else a collision of the hash is
  exhibited.
- **Block device** (`BlockDevice.dfy`, `BlockSnapshot.dfy`). The copy-on-write overlay is a flat disk under
  every sequence of requests, also when requests fail half-way; snapshots do not depend on the order of the
  overlay's map and can be inverted.
- **Input log** (`LogFormat.dfy`, `LogHeader.dfy`, `RecordBodies.dfy`, `LogReader.dfy`, `LogWriter.dfy`,
  `Lineage.dfy`, `DeviceRail.dfy`). What is written, sealed and parsed comes back; the parser accepts exactly
  the sealed images; checking a lineage incrementally is checking it whole; and the log accounts for the pad.
- **Dirty pages** (`DirtyRing.dfy`, `DirtyPages.dfy`). No interleaving of kernel and harvester loses a page, and
  the bitmap is a set.
- **Codecs** (`Cmdline.dfy`, `MachineConfig.dfy`, `Container.dfy`, `Evtc.dfy`, `DetChannel.dfy`). Each decoder
  accepts exactly the layouts of its format: what its encoder writes and, for the container, the other minor
  versions, and for EVTC, version 1 as well.

## Where the code does less than its documentation says

Each comes with the exact condition, and with an input at which the code falls short (`RunSamples.dfy` and the modules
themselves).

- `land_at` documents that single-step is off when it returns. The early returns through `?` skip the cleanup.
  `Boundary.OffExactly`: it is off under every schedule in which no call fails if and only if the guest takes no exit
  that the handler refuses within the margins of the target. `Boundary.LandAt` says which results leave it on in
  general, and `Boundary.LeftOn` is a schedule that does.
- `finish` documents exactly one link per boundary. A stop off the counter passes `already_hashed = false`, and a run
  of no instructions or of no frames links the start once more. `RunLaws.WalkAccounts`: the links of every run are its
  marks, strictly ascending, and one at the stop if the end is linked; by `RunLaws.OnePerBoundary` a run that is not
  unwound and stops past its start links no count twice. `LinkLaws.LinkedTwiceExactly`: over all schedules in which no
  call fails and the overflow arrives within the margin, a run without vectors can link a count twice if and only if
  final links are on and one of two things holds. Either the guest, at an epoch that the run hashed and went on from,
  or at a start that the caller linked, takes an exit that unwinds the run before it retires another instruction; or
  the final stop is the start and the caller linked it. `LinkLaws.NoFramesTwice` has the same for a frame budget of
  zero. `RunSamples.LinksTwice` halts right after an epoch, `LinksStart` has a budget of zero and `LinksStartAgain` a
  frame budget of zero.
- A piece that runs with `hash_final_epoch = false` loses one link if the cut after it is on the epoch grid.
  `Quantization.RunSplit` states it both ways for one cut: otherwise the links are equal, and then exactly the link at
  the cut is missing, as in `RunSamples.DropsLink`. `Pieces.RunPieces` puts back, for any number of cuts, each missing
  link at its cut, and by `Pieces.SameLinksExactly` the links are equal if and only if there is no such cut;
  `RunSamples.DropsTwoLinks` has two.
- Rolling forward to honour a pause may pass the final stop. `RunLaws.WalkStops` says where a paused run stops: on the
  epoch where it was paused, else at the least positive multiple of the epoch length from there on. By
  `RunLaws.PausePasses` it passes the end if and only if it was paused off the epochs with no such multiple left
  before the end; `RunSamples.PausesBeyond` stops at 100 with a budget of 10.
- `apply_pad_set` documents that the latch and the record change together. If the writer refuses the record, the latch
  has moved already. `DeviceRail.Rail.ApplyPadSet` states when it refuses, and that the log then accounts for the pad
  if and only if the buttons did not change; `DeviceRail.MovesUnrecorded` is a case where they did.
- `seal` accepts a clock with denominator zero, and `parse` rejects the image. That is the only thing a reader has
  against a sealed log: `LogWriting.WriteAndRead` states it as an equivalence, and `SealsUnreadable` is such a log.
- A block snapshot writes its cluster count in 32 bits. `BlockSnapshot.SnapshotThenRestore` states that it can be
  restored if and only if there are fewer than 2^32 clusters; `SnapshotsUnrestorable` has as many. `restore` accepts
  clusters in any order and even twice: `RestoreThenSnapshot` states that the bytes come back if and only if the
  indices ascend, and `RestoresReordered` has them descend.
- A boundary harvest documents that it resets as much as it harvested. `DirtyRing.HarvestAtBoundary` states that this
  is so if and only if no earlier harvest left released slots behind, and `DirtyRing.ResetsMore` is a ring where one
  did. Such a ring needs a lone `harvest_into` or a failed reset before it: every caller in the repository uses
  `harvest_at_boundary`, which resets what it released.

## What the code needs of its callers

- `start / len + 1` overflows for the one point `start = u64::MAX`, `len = 1`; agendas exclude it.
- `timer_slot == injection_idx` also holds when both are absent, and then the source panics. A segment
  without a timer must not have inputs that queue vectors.
- `timer_to_injection` adds one to the start, so a segment with a timer starts below `u64::MAX`.
- An EVTC name is shorter than the marker for an absent one, and there are at most `u32::MAX` pending queries.

## Model

| member | source | states |
|---|---|---|
| Machine.LandingUnique | crates/dh-vmm/src/boundary.rs:1-27 | from one state there is at most one micro-step at which a given count is first reached |
| Machine.BoundaryCompose | crates/dh-vmm/src/boundary.rs:1-27 | boundaries add: the boundary `k` past the boundary at `j` is the boundary at `j + k` |
| Boundary.Advance | crates/dh-vmm/src/boundary.rs:151-164 | a free flight follows the guest's own steps, never past its quota of retirements, and stops early only at an exit |
| Boundary.PathRun | crates/dh-vmm/src/boundary.rs:150-214 | one entry follows the guest's own path from micro-state to micro-state, counts what it retires, and meets a refused exit only as the last thing it does |
| Boundary.FarOnTrack | crates/dh-vmm/src/boundary.rs:150-164 | the far leg, whose overflow and skid end short of the target, stays on the guest's path and cannot reach the target |
| Boundary.StepOnTrack | crates/dh-vmm/src/boundary.rs:165-214 | a stepping round stays on the path and can reach the target only by retiring the last instruction |
| Boundary.KeepsLand | crates/dh-vmm/src/boundary.rs:123-223 | whatever the host does: success is exactly at the target, overshoot is reported with the count, every stepping entry has single-step in force, and it stays on exactly for the results that bypass the cleanup |
| Boundary.CalmLand | crates/dh-vmm/src/boundary.rs:123-223 | a calm landing ends at the landing, at the first refused exit before it, or in a fault; without faults in nothing else, and within one round per micro-step |
| Boundary.LandsOk | crates/dh-vmm/src/boundary.rs:123-223 | on every schedule with a pick per micro-step and no failing call, a landing with no refused exit before it succeeds, at that micro-state, with single-step off |
| Boundary.LandsRefused | crates/dh-vmm/src/boundary.rs:123-223 | and one with a refused exit before it stops right there, with that refusal |
| Boundary.OffExactly | crates/dh-vmm/src/boundary.rs:113-223 | single-step is off on return under every schedule in which no call fails, if and only if no refused exit lies within the margins of the target |
| Boundary.BlamesLand | crates/dh-vmm/src/boundary.rs:123-223 | a counter, run, register or debug error names a call of the schedule that failed |
| Boundary.NeverRefused | crates/dh-vmm/src/boundary.rs:123-223 | a refusal is reported only if the handler refuses some exit |
| Boundary.LeftOn | crates/dh-vmm/src/boundary.rs:165-214 | a guest whose first exit is refused returns with single-step on |
| Boundary.LandAt | crates/dh-vmm/src/boundary.rs:123-223 | success is exactly at the target and overshoot is reported, whatever the skid; every other error names a failed call or a refusal; every stepping entry is armed; single-step stays on exactly for the results that bypass the cleanup; a calm landing ends at the first state with that count and never overshoots; it succeeds with single-step off whenever no call fails, the schedule suffices and no exit on the way is refused, and is refused whenever one is |
| Boundary.LandTwice | crates/dh-vmm/src/boundary.rs:123-223 | any two choices of margins and any two calm schedules land in the same guest state; both do land if no call fails, the schedules suffice and no exit on the way is refused |
| Boundary.StepOneEntry | crates/dh-vmm/src/boundary.rs:251-291 | one entry makes at least one micro-step and, with no vector pending, retires at most one; single-step is off afterwards unless turning it off failed, also after a refused exit, which is then still the reported reason |
| Inject.WindowOpens | crates/dh-vmm/src/inject.rs:82-160 | if the window opens within the deferral budget, no call fails and the schedule suffices, the vector goes in |
| Inject.InjectAt | crates/dh-vmm/src/inject.rs:82-160 | success means the first injectable boundary from the requested one on; running out means that none of the `max_defer_steps + 1` boundaries was; exception vectors are refused; it succeeds whenever the window opens in time and no call fails |
| VirtualTime.Adjunction | crates/dh-vmm/src/vt.rs:43-55 | the ceiling conversion is the lower adjoint of the floor conversion |
| VirtualTime.IcountForVnsIsLeast | crates/dh-vmm/src/vt.rs:51-55 | the count returned is the least that reaches the time, and there is none exactly when no 64-bit count does |
| VirtualTime.FloorMonotone | crates/dh-vmm/src/vt.rs:43-49 | time never runs backwards in the count |
| VirtualTime.TimerIsLeast | crates/dh-vmm/src/runctl.rs:221-234 | a timer fires at the least count past the start that reaches its deadline, and is dropped exactly when no count does |
| VirtualTime.FloorSum | crates/dh-devices/src/clock.rs:71-86 | splitting an interval loses at most one nanosecond |
| VirtualTime.RestoreLag | crates/dh-devices/src/clock.rs:71-86 | with `k` restores the sum over the segments lags the unsplit clock by between 0 and `k` nanoseconds |
| VirtualTime.PvClock.constructor | crates/dh-devices/src/clock.rs:58-66 | a new clock has no base and no deadline, and the default vector |
| VirtualTime.PvClock.Vns | crates/dh-devices/src/clock.rs:82-86 | guest time is the base plus the exact rational floor, saturated once and never wrapped |
| VirtualTime.PvClock.SetVnsBase | crates/dh-devices/src/clock.rs:71-73 | the base is replaced and nothing else |
| VirtualTime.PvClock.Armed | crates/dh-devices/src/clock.rs:97-99 | something is armed exactly if the deadline is not zero, and then it is that deadline with the vector |
| VirtualTime.PvClock.Disarm | crates/dh-devices/src/clock.rs:102-104 | nothing is armed afterwards |
| VirtualTime.PvClock.Restore | crates/dh-devices/src/clock.rs:71-86 | across a snapshot and a restore guest time neither jumps nor goes back |
| VirtualTime.PvClock.RunLineage | crates/dh-devices/src/clock.rs:71-86 | over a whole lineage without saturation the clock is the sum over segments, so it lags the unsplit clock by at most the number of restores |
| Agenda.FinalPoint | crates/dh-vmm/src/agenda.rs:157-176 | the final stop is never before the start; of an instruction budget it is the sum, and there is none exactly if that overflows; it is a hard cap exactly if the stop is one |
| Agenda.VnsBudgetIsLeast | crates/dh-vmm/src/agenda.rs:157-176 | a positive time budget ends at the least count past the start that reaches it |
| Agenda.AgendaUnique | crates/dh-vmm/src/agenda.rs:82-97 | a plan has one agenda: ascending, with every due point and no other |
| Agenda.FirstMultiple | crates/dh-vmm/src/agenda.rs:197-207 | the first epoch is the least multiple strictly past the start |
| Agenda.Windowed | crates/dh-vmm/src/agenda.rs:179-195 | a cursor holds exactly the events in the window, sorted by count and then by index |
| Agenda.PopAt | crates/dh-vmm/src/agenda.rs:263-270 | popping yields all indices at the count, in order, and leaves those beyond it |
| Agenda.FirstEpoch | crates/dh-vmm/src/agenda.rs:197-207 | the epoch cursor starts at the next grid point in range, if there is one |
| Agenda.FirstGoal | crates/dh-vmm/src/agenda.rs:208-216 | the poll cursor starts one period past the start, if that is in range |
| Agenda.AdvanceGrid | crates/dh-vmm/src/agenda.rs:271-282 | a grid cursor hits exactly at its grid points and moves on to the next one in range without overflow |
| Agenda.MergeMinimum | crates/dh-vmm/src/agenda.rs:239-253 | nothing is due between the last point and the minimum of the five heads |
| Agenda.TakePoint | crates/dh-vmm/src/agenda.rs:255-288 | the point taken is the plan's at that count, and every cursor moves past it |
| Agenda.AgendaIter.constructor | crates/dh-vmm/src/agenda.rs:146-229 | all cursors are at the start of the window and the final stop is ahead |
| Agenda.AgendaIter.Next | crates/dh-vmm/src/agenda.rs:235-288 | each call yields the plan's next due point, skipping none, and nothing after the final stop |
| Agenda.Compile | crates/dh-vmm/src/agenda.rs:114-116 | collecting the iterator terminates with the plan's agenda, or fails exactly when the final point overflows |
| Agenda.FinalStopIsLast | crates/dh-vmm/src/agenda.rs:82-97 | an agenda has exactly one final stop, its last point, and stays within the window |
| Agenda.BinarySearch | crates/dh-vmm/src/agenda.rs:646-648 | finds the point at a count, or the place where it belongs |
| Agenda.Push | crates/dh-vmm/src/agenda.rs:645-662 | one event more in the plan is one edit or one insertion in the agenda |
| Agenda.PushInputs | crates/dh-vmm/src/agenda.rs:666-670 | the agenda has the scheduled inputs in range |
| Agenda.PushInjections | crates/dh-vmm/src/agenda.rs:672-676 | and the injections in range |
| Agenda.PushEpochs | crates/dh-vmm/src/agenda.rs:678-689 | and every epoch boundary in range |
| Agenda.PushPolls | crates/dh-vmm/src/agenda.rs:691-701 | and every goal poll in range |
| Agenda.CompileReference | crates/dh-vmm/src/agenda.rs:618-704 | the materializing compiler yields the plan's agenda, with the same failure condition |
| Agenda.CompileBoth | crates/dh-vmm/src/agenda.rs:114-704 | streaming and materializing give equal results on every input outside the overflow point |
| StateHash.PreimageInjective | crates/dh-vmm/src/hash.rs:95-128 | what is hashed for a link determines the previous value, blob, sections, pages, count and time |
| StateHash.ChainIdentifies | crates/dh-vmm/src/hash.rs:70-128 | equal values after equally many links mean equal configuration, base and links, or two colliding preimages are returned |
| StateHash.StateHashChain.constructor | crates/dh-vmm/src/hash.rs:70-79 | a new chain stands for the empty history of its configuration and base |
| StateHash.StateHashChain.PushLink | crates/dh-vmm/src/hash.rs:95-128 | the value commits to the old history and this link |
| StateHash.StateHashChain.PushFinalLink | crates/dh-vmm/src/hash.rs:130-156 | the same as pushing a link over all pages of memory |
| StateHash.DeviceSections | crates/dh-vmm/src/hash.rs:356-367 | the bytes built are those of these sections and of no others |
| StateHash.SectionsInjective | crates/dh-vmm/src/hash.rs:356-367 | framed device sections determine every device's id, version and contents |
| Itineraries.BusyWalk | crates/dh-vmm/src/runctl.rs:771-873 | stops at which nothing happens can be left out of a walk |
| Itineraries.WalkJoin | crates/dh-vmm/src/runctl.rs:771-873 | walking a list of stops is walking its two parts |
| Itineraries.SameBusySameWalk | crates/dh-vmm/src/runctl.rs:771-873 | walks with the same busy stops that end at the same count are equal: state, links and inputs |
| Itineraries.BusyOfAgenda | crates/dh-vmm/src/agenda.rs:179-229 | the busy stops of an agenda are the inputs and epochs of its window, whatever its polls and final stop |
| Itineraries.CutStops | crates/dh-vmm/src/agenda.rs:179-229 | the busy stops over a window are those over its two halves, joined |
| Itineraries.FinalOptions | crates/dh-vmm/src/runctl.rs:852-908 | the two hashing options change nothing but the link at the final stop |
| RunModel.WalkerIsLawful | crates/dh-vmm/src/runctl.rs:771-782 | settling at one boundary and then at another is settling at the second |
| RunModel.NextMultiple | crates/dh-vmm/src/runctl.rs:924-960 | the roll-forward target is the least positive multiple of the epoch length from the point on |
| RunLaws.AppliesInOrder | crates/dh-vmm/src/runctl.rs:791-796 | inputs land in order, up to the first that the sink refuses, and each queues its vectors after those before it |
| RunLaws.FirstWindow | crates/dh-vmm/src/runctl.rs:807-846 | a vector goes in at the first open window: from the boundary on, or from the entry after the vector before it |
| RunLaws.KeepsAll | crates/dh-vmm/src/runctl.rs:807-846 | delivering counts every vector, leaves the last one pending, fires the timer if it is among them, and can fire no other |
| RunLaws.KeepsVisit | crates/dh-vmm/src/runctl.rs:771-873 | a visit lands at the point's count or further, pushes one link and one mark exactly where the options say, and none if it breaks off |
| RunLaws.VisitFires | crates/dh-vmm/src/runctl.rs:807-846 | a timer that is due at a visited point has fired |
| RunLaws.CalmVisit | crates/dh-vmm/src/runctl.rs:771-873 | a calm visit without vectors performs the point's act on the one state with its count |
| RunLaws.KeepsJudge | crates/dh-vmm/src/runctl.rs:878-960 | after a visit: goal, then final stop, then pause; a run goes on exactly if none of them asks it to stop; a pause stops on the epoch or at the next multiple, and an unwound run where the counter is |
| RunLaws.WalkAccounts | crates/dh-vmm/src/runctl.rs:771-1040 | every run that ends without an error has pushed one link per mark, the marks ascending strictly up to the stop, and one more at the stop exactly if the end is linked; that one lies past every mark unless the run was unwound |
| RunLaws.OneLinkExactly | crates/dh-vmm/src/runctl.rs:967-1040 | for any run that accounts for its links: no count is linked twice if and only if the end is not linked where the last mark, or else the caller's last link, is already |
| RunLaws.OnePerBoundary | crates/dh-vmm/src/runctl.rs:852-963 | a run that is not unwound and stops past its start links no count twice, the caller's links counted in |
| RunLaws.NothingRun | crates/dh-vmm/src/runctl.rs:967-1040 | a run that ends where it starts marks nothing, and links the start exactly if final links are on |
| RunLaws.WalkStops | crates/dh-vmm/src/runctl.rs:771-963 | a run stops at the first point that asks it to: the first poll at which the goal holds, the final stop, or the first pause, and there at the count that the reason says |
| RunLaws.PausePasses | crates/dh-vmm/src/runctl.rs:924-960 | a paused run passes the end of its agenda if and only if it was paused off the epochs with no positive multiple of the epoch length left before it |
| RunLaws.CalmWalk | crates/dh-vmm/src/runctl.rs:771-963 | a completed calm run without vectors has performed exactly the acts of its points |
| RunLaws.WalkFires | crates/dh-vmm/src/runctl.rs:807-846 | a completed run has fired a timer that came due at any of its points |
| RunLaws.LiveWalk | crates/dh-vmm/src/runctl.rs:771-963 | an undisturbed run completes, if the guest retires an instruction every so many micro-steps, no call fails, and the schedule has a pick for each micro-step and point |
| RunLaws.RunKeepsAll | crates/dh-vmm/src/runctl.rs:487-1040 | all of this for the run of a segment over its own agenda |
| LinkLaws.QuietWalk | crates/dh-vmm/src/runctl.rs:771-1040 | if no call fails and the overflow arrives within the margin, a run without vectors that is unwound stops past every link, or at the first refused exit past a route of points that it went on from |
| LinkLaws.RouteRun | crates/dh-vmm/src/runctl.rs:771-963 | a route of points at which nothing keeps the run from going on is walked by every such schedule that has a pick for each micro-step and point |
| LinkLaws.TwiceOnlyThen | crates/dh-vmm/src/runctl.rs:771-1040 | whichever such schedule links a count twice: final links are on, and the guest unwinds the run where it stands linked, or there is nothing to run from a linked start |
| LinkLaws.TwiceByUnwinding | crates/dh-vmm/src/runctl.rs:1003-1040 | a guest that unwinds the run where it stands linked has a schedule that links that count twice |
| LinkLaws.TwiceAtStart | crates/dh-vmm/src/runctl.rs:967-996 | and so has a segment that ends where it starts, if the caller linked the start |
| LinkLaws.LinkedTwiceExactly | crates/dh-vmm/src/runctl.rs:771-1040 | over all schedules in which no call fails and the overflow arrives within the margin, a run without vectors, from a start where the clock has a value, can link a count twice if and only if final links are on and the guest takes an exit that unwinds it right after a hashed point or a linked start, or the final stop is a start that the caller linked; a condition on the guest, the segment and the caller's links |
| LinkLaws.NoFramesTwice | crates/dh-vmm/src/runctl.rs:1003-1040 | a frame budget of zero links a count twice if and only if final links are on and the caller linked the start |
| RunControl.ApplyInputs | crates/dh-vmm/src/runctl.rs:791-796 | all inputs of a point land, in order, unless the sink refuses one, and exactly their vectors are queued, in order |
| RunControl.DeliverVector | crates/dh-vmm/src/runctl.rs:807-846 | one vector, after one entry if another is queued; delivered it is pending, counted, and fires the timer exactly if it is the timer's |
| RunControl.DeliverVectors | crates/dh-vmm/src/runctl.rs:807-846 | every vector is delivered, one entry apart, the last one is left pending, and a timer among them has fired |
| RunControl.VisitPoint | crates/dh-vmm/src/runctl.rs:771-873 | a visit is its function of engine and schedule; it lands at the point's count and pushes a link and a mark exactly where the options say |
| RunControl.Finish | crates/dh-vmm/src/runctl.rs:967-996 | the stop is linked unless it was linked already or the option is off |
| RunControl.FinishAtCounter | crates/dh-vmm/src/runctl.rs:1003-1040 | a run that unwinds stops where the counter is, with a link there exactly if the option is on, and no mark |
| RunControl.RollForward | crates/dh-vmm/src/runctl.rs:924-960 | a pause stops at the least positive multiple of the epoch length from the point on, with exactly one link there, marked exactly if epochs are on; or it unwinds on the way |
| RunControl.Conclude | crates/dh-vmm/src/runctl.rs:878-960 | goal, final stop and pause, in this order; where the run stops, with which reason and which link |
| RunControl.WalkAgenda | crates/dh-vmm/src/runctl.rs:771-963 | the walk is its function of engine and schedule, and stops at the first point that asks it to |
| RunControl.RunSegment | crates/dh-vmm/src/runctl.rs:487-1040 | a segment that cannot start says why and changes nothing; one without frames ends at the counter; any other compiles its own agenda and walks it, accounts for every link, stops at the first point that asks it to, fires a due timer, equals the abstract walk over its window when it completes, and completes if nothing stands in its way |
| Quantization.CutRuns | crates/dh-vmm/src/runctl.rs:771-908 | a run and its two halves, under any margins, meet in state, inputs and links |
| Quantization.RunSplit | crates/dh-vmm/src/runctl.rs:487-996 | one run against two: same state, the inputs concatenated, and the same links unless the cut is on an epoch that the first half was told not to hash, and then exactly the link at the cut is missing; all three do complete if nothing stands in their way |
| Pieces.PieceMore | crates/dh-vmm/src/runctl.rs:771-908 | one more piece continues the walk over the busy stops of the whole, its own links and the one it left out added |
| Pieces.PieceLast | crates/dh-vmm/src/runctl.rs:771-908 | after any pieces, the last one ends as the run in one piece does: state, inputs and links |
| Pieces.RunPieces | crates/dh-vmm/src/runctl.rs:487-996 | one run against any number of pieces, each under its own margins and schedule: same state, the inputs of the pieces in order, and the same links once those of epochs that a piece was told not to hash are put back at their cuts; all do complete if nothing stands in their way |
| Pieces.SameLinksExactly | crates/dh-vmm/src/runctl.rs:852-908 | the pieces push as many links fewer as there are cuts on an epoch that the piece before was told not to hash, and the same links if and only if there is no such cut |
| RunSamples.LinksTwice | crates/dh-vmm/src/runctl.rs:1003-1040 | a guest that halts right after an epoch has that boundary linked twice |
| RunSamples.LinksStart | crates/dh-vmm/src/runctl.rs:967-996 | a budget of zero links a start again that the caller linked |
| RunSamples.LinksStartAgain | crates/dh-vmm/src/runctl.rs:1003-1040 | a frame budget of zero links a start again that the caller linked |
| RunSamples.PausesBeyond | crates/dh-vmm/src/runctl.rs:924-960 | with a budget of 10, an epoch length of 100 and a pause at 5, the run stops at 100 |
| RunSamples.DropsLink | crates/dh-vmm/src/runctl.rs:852-908 | a run cut on an epoch that the first half does not hash lacks exactly that link |
| RunSamples.DropsTwoLinks | crates/dh-vmm/src/runctl.rs:852-908 | a run in three pieces, cut on two epochs that are not hashed, lacks two links |
| RunSamples.LandsBoth | crates/dh-vmm/src/boundary.rs:123-223 | two landings under different margins that both succeed, in one state |
| RunSamples.InjectsLate | crates/dh-vmm/src/inject.rs:82-160 | an injection that waits for the window, and succeeds |
| BlockDevice.FlatAt | crates/dh-devices/src/blk.rs:154-178 | the disk that the guest sees, byte by byte: the overlay where it has the cluster, else the base |
| BlockDevice.StopsAtFirst | crates/dh-devices/src/blk.rs:154-213 | a transfer stops at its first faulting chunk with that chunk's status, and at none if no chunk faults |
| BlockDevice.ReadsFlat | crates/dh-devices/src/blk.rs:154-178 | a chunk read returns the flat disk's bytes from either source |
| BlockDevice.PopulateInvisible | crates/dh-devices/src/blk.rs:180-213 | populating a cluster from the base changes nothing that the guest sees |
| BlockDevice.WritesFlat | crates/dh-devices/src/blk.rs:180-213 | a write within a cluster is a write to the flat disk |
| BlockDevice.ReadChunks | crates/dh-devices/src/blk.rs:154-178 | the read loop copies exactly the bytes before the first fault |
| BlockDevice.WriteChunks | crates/dh-devices/src/blk.rs:180-213 | the write loop applies exactly the chunks before the first fault, and populates those and at most the faulting one |
| BlockDevice.PvBlk.constructor | crates/dh-devices/src/blk.rs:102-112 | a new device shows its base |
| BlockDevice.PvBlk.RequestRange | crates/dh-devices/src/blk.rs:137-152 | a request is refused exactly when it is empty or ends beyond the device |
| BlockDevice.PvBlk.DoRead | crates/dh-devices/src/blk.rs:154-178 | the flat device's read, which populates nothing |
| BlockDevice.PvBlk.DoWrite | crates/dh-devices/src/blk.rs:180-213 | the flat device's write; only the clusters it touched are populated |
| BlockDevice.PvBlk.Execute | crates/dh-devices/src/blk.rs:124-134 | every command is one step of the flat device; only writes populate; host failures are counted |
| BlockDevice.FlatRunUnique | crates/dh-devices/src/blk.rs:124-213 | the flat device is deterministic over whole request sequences |
| BlockDevice.RunRequests | crates/dh-devices/src/blk.rs:124-213 | under every sequence of requests and host failures the device is the flat device, whose host faults are exactly the chunks that the request would read from the image where its read fails |
| BlockDevice.RunBoth | crates/dh-devices/src/blk.rs:124-213 | two devices with the same flat contents cannot be told apart, however they are populated |
| BlockDevice.MemRead | crates/dh-devices/src/ctx.rs:158-164 | a read outside guest memory fails, any other returns the bytes |
| BlockDevice.MemWrite | crates/dh-devices/src/ctx.rs:165-173 | a write outside guest memory fails, any other replaces exactly its range |
| BlockSnapshot.SectionInjective | crates/dh-devices/src/blk.rs:251-269 | a section determines its registers and its list of clusters |
| BlockSnapshot.ListingUnique | crates/dh-devices/src/blk.rs:251-269 | an overlay has one ascending list of clusters |
| BlockSnapshot.SortKeys | crates/dh-devices/src/blk.rs:259-261 | the keys sorted: strictly ascending, and the same set |
| BlockSnapshot.Snapshot | crates/dh-devices/src/blk.rs:251-269 | the bytes appended are the section of the ascending list, for any iteration order of the map |
| BlockSnapshot.SnapshotTwice | crates/dh-devices/src/blk.rs:251-269 | the bytes depend on the registers and the map alone |
| BlockSnapshot.RestoreEntries | crates/dh-devices/src/blk.rs:286-298 | the entries are accepted exactly when every digest is right |
| BlockSnapshot.Restore | crates/dh-devices/src/blk.rs:271-306 | accepted are exactly the sections of this version, and what is restored is what they say |
| BlockSnapshot.SnapshotThenRestore | crates/dh-devices/src/blk.rs:251-306 | restore after snapshot is the identity if and only if there are fewer than 2^32 clusters |
| BlockSnapshot.RestoreThenSnapshot | crates/dh-devices/src/blk.rs:251-306 | snapshot after restore is the identity if and only if the section's indices strictly ascend |
| BlockSnapshot.SnapshotsUnrestorable | crates/dh-devices/src/blk.rs:251-306 | 2^32 clusters do not restore |
| BlockSnapshot.RestoresReordered | crates/dh-devices/src/blk.rs:251-306 | two descending clusters restore, and snapshot to other bytes |
| LogFormat.FrameInjective | crates/dh-inputlog/src/dhilog.rs:414-453 | bytes start with the frame of at most one record |
| LogFormat.BodyInjective | crates/dh-inputlog/src/dhilog.rs:414-453 | a body is that of one list of records |
| LogFormat.PrefixOf | crates/dh-inputlog/src/dhilog.rs:414-453 | a body that starts another one holds the first of its records |
| LogHeader.HeaderReads | crates/dh-inputlog/src/reader.rs:457-504 | every field of a laid-out header reads back |
| LogHeader.HeaderBack | crates/dh-inputlog/src/reader.rs:457-504 | bytes of the right shape are the layout of what is read from them |
| RecordBodies.BodyRoundTrip | crates/dh-inputlog/src/reader.rs:173-232 | the payload that a record method writes is accepted and decodes to the body it was made from |
| LogReader.ParseHeaderExact | crates/dh-inputlog/src/reader.rs:457-504 | the header parser accepts exactly the layouts of good headers |
| LogReader.ValidateKindExact | crates/dh-inputlog/src/reader.rs:641-715 | the kind check accepts exactly the records with their kind's class and layout; unknown kinds only as auxiliary |
| LogReader.ScanExact | crates/dh-inputlog/src/reader.rs:579-637 | the scan yields a record exactly when the bytes start with its frame and it may follow the ones before |
| LogReader.ScanNext | crates/dh-inputlog/src/reader.rs:579-637 | one step of the scan: the end, the one record that follows, or an error when none can |
| LogReader.ValidateRecords | crates/dh-inputlog/src/reader.rs:506-571 | a body is accepted exactly when it is that of a log as the header promises it, END once and last |
| LogReader.Parse | crates/dh-inputlog/src/reader.rs:327-337 | total on all bytes, and accepting exactly the sealed images |
| LogReader.ImageUnique | crates/dh-inputlog/src/reader.rs:327-337 | re-framing what was accepted gives the image back: it determines its header and records |
| LogReader.Inspect | crates/dh-inputlog/src/reader.rs:384-401 | inspecting an unsealed log yields its longest well-formed run of records, and stops without cause nowhere |
| LogReader.ReadFrame | crates/dh-inputlog/src/reader.rs:426-442 | the unchecked reads of a frame give its record and its length |
| LogReader.NextRecord | crates/dh-inputlog/src/reader.rs:426-442 | the unchecked iterator stays within the body and yields the next validated record |
| LogReader.AllRecords | crates/dh-inputlog/src/reader.rs:344-349 | iterating yields exactly the validated records, END once and last |
| LogWriting.MakeRecord | crates/dh-inputlog/src/dhilog.rs:159-363 | every record method lays out a record that a reader accepts and decodes to the call's arguments |
| LogWriting.LogWriter.constructor | crates/dh-inputlog/src/dhilog.rs:134-143 | a new writer holds no records |
| LogWriting.LogWriter.Record | crates/dh-inputlog/src/dhilog.rs:414-453 | appends exactly one frame with the next sequence number, whatever its payload holds, or reports the first of three violations and changes nothing |
| LogWriting.LogWriter.Append | crates/dh-inputlog/src/dhilog.rs:159-363 | a call adds the one record that carries it, or fails for a stated reason and changes nothing |
| LogWriting.LogWriter.Seal | crates/dh-inputlog/src/dhilog.rs:370-410 | the image is the header, with flags, count and hash matching the contents, then the records and END; it fails exactly as a record would |
| LogWriting.SealedIsImage | crates/dh-inputlog/src/dhilog.rs:370-410 | what is sealed is an image as the reader defines it |
| LogWriting.WriteAll | crates/dh-inputlog/src/dhilog.rs:133-453 | after any calls the writer holds exactly those that succeed, each judged after the ones kept before it |
| LogWriting.SealAndRead | crates/dh-inputlog/src/dhilog.rs:370-410 | sealing and parsing gives the writer's records and then END, and the header that the segment, the seal and the contents determine |
| LogWriting.WriteAndRead | crates/dh-inputlog/src/dhilog.rs:133-453 | any calls, a seal and a parse: the reader gets the successful calls in order and then END, under a header whose flags, count and hashes are those of the segment and of the calls kept; sealing and parsing fail exactly when stated |
| LogWriting.SealsUnreadable | crates/dh-inputlog/src/dhilog.rs:370-410 | a clock with denominator zero seals, and does not parse |
| Lineage.New | crates/dh-inputlog/src/splice.rs:67-99 | a lineage is accepted with its headers, or rejected with its first fault in the order of the three passes |
| Lineage.Extend | crates/dh-inputlog/src/splice.rs:101-123 | one child is checked against the first segment and the last only |
| Lineage.VerdictUnique | crates/dh-inputlog/src/splice.rs:67-99 | segments have at most one first fault |
| Lineage.LineageIsNotFaulty | crates/dh-inputlog/src/splice.rs:67-99 | a lineage has none |
| Lineage.ExtendedLineage | crates/dh-inputlog/src/splice.rs:101-123 | a valid prefix with a child that fits is a lineage |
| Lineage.ExtendedFault | crates/dh-inputlog/src/splice.rs:101-123 | a child that does not fit is the first fault of the whole, with the same index |
| Lineage.ExtendOrNew | crates/dh-inputlog/src/splice.rs:67-123 | extending a valid prefix and validating the whole give the same lineage or the same error |
| DeviceRail.PvPad.constructor | crates/dh-devices/src/pad.rs:61-68 | a new pad has nothing pressed |
| DeviceRail.PvPad.ApplyPadSet | crates/dh-devices/src/pad.rs:72-82 | the port's latch is replaced and no other; a vector only if it changed and is enabled; a bad port changes nothing |
| DeviceRail.PvPad.MmioWrite | crates/dh-devices/src/pad.rs:117-139 | only a four-byte write of the frame counter moves it, and that is logged as it happens; it faults exactly as the writer refuses the mark |
| DeviceRail.NetAnswer | crates/dh-devices/src/net.rs:146-172 | a frame that the device takes is one that the log takes; one that no log takes is refused as too big, unless there is no buffer |
| DeviceRail.DevCtx.Log | crates/dh-devices/src/ctx.rs:94-141 | a record more with the context's stamp, or nothing and the writer's error, of which the first sticks |
| DeviceRail.TracksMore | crates/dh-vmm/src/recording.rs:222-239 | a record moves the log's account of the pad as its body says |
| DeviceRail.Rail.ServicePadWrite | crates/dh-vmm/src/recording.rs:106-200 | fails exactly as the writer refuses the mark; the log accounts for the pad afterwards exactly if it did not fail or the counter did not change |
| DeviceRail.Rail.ServiceOther | crates/dh-vmm/src/recording.rs:106-200 | other devices' records and vectors leave the account intact; the error is that of the first record refused, and there is none exactly if none is |
| DeviceRail.Rail.ApplyPadSet | crates/dh-vmm/src/recording.rs:222-239 | latch, record and vector together, exactly if the port is good and the writer takes the record; on a refused record the latch has moved and the log has not, and the log accounts for the pad exactly if the buttons did not change |
| DeviceRail.Rail.ApplyNetRx | crates/dh-vmm/src/recording.rs:241-270 | fails exactly as the device refuses the frame or else the writer the record, and then neither log nor vectors have changed; else adds the one record and queues exactly the vector that the device answers with |
| DeviceRail.Rail.ApplyOther | crates/dh-vmm/src/recording.rs:273-387 | the records that run control lands itself, device events, epoch hashes, timer fires and checkpoints, are added exactly if the writer takes them, and leave the account intact |
| DeviceRail.Rail.Do | crates/dh-vmm/src/recording.rs:106-410 | every step fails exactly as its function says, and else leads to that function's state |
| DeviceRail.RecordAndReplay | crates/dh-vmm/src/recording.rs:106-410 | the error of a whole recording, if any, is that of its first failing step, of vectors left over, or of the seal, as a function of the steps; without one the pad's final state is what the steps did to it, and equally the fold of the parsed sealed log over its initial state |
| DeviceRail.MovesUnrecorded | crates/dh-vmm/src/recording.rs:222-239 | a button at count 4 after a record at count 5 moves the latch and is not logged |
| DirtyRing.PublishKeeps | crates/dh-vmm/src/dirty.rs:110-147 | a kernel publish keeps the ring's invariant |
| DirtyRing.HarvestKeeps | crates/dh-vmm/src/dirty.rs:110-147 | so does one step of the harvester |
| DirtyRing.ResetKeeps | crates/dh-vmm/src/dirty.rs:163-175 | and a reset of a slot |
| DirtyRing.AlwaysLossFree | crates/dh-vmm/src/dirty.rs:110-147 | after every interleaving, on every ring size, each published page is in the set or waits ahead of the cursor, and reset index <= cursor <= publish index <= reset index + entries |
| DirtyRing.HarvestInto | crates/dh-vmm/src/dirty.rs:110-147 | it fails exactly if a waiting entry names a foreign slot or a page out of range, and then at the first such entry; else it ends within `entries` steps, the vCPU being stopped, with every published page in the set, and adds no other |
| DirtyRing.HarvestAtBoundary | crates/dh-vmm/src/dirty.rs:208-220 | fails exactly as the harvest does, and then resets nothing; else, if it finds anything, it re-arms everything released and leaves the ring empty; that is as much as it harvested exactly if nothing was left released before |
| DirtyRing.ResetsMore | crates/dh-vmm/src/dirty.rs:208-220 | after a lone harvest of one page, a boundary harvest of one more resets two |
| DirtyRing.PlaceMeans | crates/dh-vmm/src/dirty.rs:110-147 | the slot of a free-running index is its remainder |
| DirtyPages.SetBit | crates/dh-vmm/src/dirty.rs:250-262 | setting a bit sets that bit and no other |
| DirtyPages.Mark | crates/dh-vmm/src/dirty.rs:250-262 | the bitmap then holds one page more, and the page was new exactly if it was not held |
| DirtyPages.DirtyPageSet.constructor | crates/dh-vmm/src/dirty.rs:241-248 | a new set is empty and has room for all pages |
| DirtyPages.DirtyPageSet.Insert | crates/dh-vmm/src/dirty.rs:250-262 | set insertion; a page beyond memory is refused |
| DirtyPages.DirtyPageSet.Contains | crates/dh-vmm/src/dirty.rs:264-266 | membership |
| DirtyPages.DirtyPageSet.Len | crates/dh-vmm/src/dirty.rs:268-270 | the cached count is the cardinality |
| DirtyPages.DirtyPageSet.Clear | crates/dh-vmm/src/dirty.rs:277-280 | the empty set |
| DirtyPages.DirtyPageSet.Iter | crates/dh-vmm/src/dirty.rs:283-290 | exactly the members, in ascending order |
| Cmdline.WrittenParses | crates/dh-vmm/src/config.rs:122-184 | extras in canonical form parse to themselves |
| Cmdline.ComposeIs | crates/dh-vmm/src/config.rs:168-184 | a composed command line is the baseline and the extras, and within the length limit |
| Cmdline.CanonicalExact | crates/dh-vmm/src/config.rs:105-120 | a command line is canonical exactly if it is composed from some extras |
| Cmdline.FixedPoint | crates/dh-vmm/src/config.rs:100-120 | canonicalizing what was canonicalized changes nothing |
| MachineConfig.HeadExact | crates/dh-vmm/src/config.rs:369-380 | the fixed head is read exactly from its layout |
| MachineConfig.BootExact | crates/dh-vmm/src/config.rs:381-392 | a boot specification is read exactly from its layout |
| MachineConfig.LeavesExact | crates/dh-vmm/src/config.rs:399-416 | CPUID leaves are read exactly from their layout |
| MachineConfig.DevicesExact | crates/dh-vmm/src/config.rs:417-426 | device ids are read exactly from their layout |
| MachineConfig.DecodeEncode | crates/dh-vmm/src/config.rs:313-450 | decoding an encoding gives the configuration with the landing knobs at their defaults |
| MachineConfig.EncodeDecode | crates/dh-vmm/src/config.rs:313-450 | encoding what was decoded gives the same bytes, for every accepted input |
| MachineConfig.SameEncoding | crates/dh-vmm/src/config.rs:313-366 | two valid configurations have the same identity exactly if they differ in landing knobs only |
| Container.ScanExact | crates/dh-snapshot/src/dhsnap.rs:221-256 | a section is read exactly when the bytes start with its frame, its tag is known and it is not a repetition |
| Container.BodyInjective | crates/dh-snapshot/src/dhsnap.rs:125-151 | a body is that of one list of sections |
| Container.ScanBody | crates/dh-snapshot/src/dhsnap.rs:217-259 | the walk accepts exactly the bodies, and never reads outside |
| Container.Parse | crates/dh-snapshot/src/dhsnap.rs:201-268 | total on all bytes, and accepting exactly the images |
| Container.ContainerWriter.constructor | crates/dh-snapshot/src/dhsnap.rs:117-123 | a new writer holds no sections |
| Container.ContainerWriter.Push | crates/dh-snapshot/src/dhsnap.rs:125-151 | a section more, or the first reason against it and nothing changed |
| Container.FewSections | crates/dh-snapshot/src/dhsnap.rs:56-151 | a writer holds eleven sections at most |
| Container.ContainerWriter.Finish | crates/dh-snapshot/src/dhsnap.rs:153-159 | the bytes are an image of the sections pushed |
| Container.Rewrite | crates/dh-snapshot/src/dhsnap.rs:125-268 | writing the parsed sections again reproduces the image up to its version field |
| Evtc.OptExact | crates/dh-devices/src/detchannel.rs:348-363 | a present flag is read exactly from its layout, an absent payload being zero |
| Evtc.AttachmentExact | crates/dh-devices/src/detchannel.rs:348-386 | so is the attachment |
| Evtc.PrefixBack | crates/dh-devices/src/detchannel.rs:365-386 | an accepted prefix is the layout of what it says, and its status agrees with its attachment |
| Evtc.EntriesRead | crates/dh-devices/src/detchannel.rs:387-443 | ascending entries read back |
| Evtc.EntriesBack | crates/dh-devices/src/detchannel.rs:387-443 | accepted entries ascend and are the layout of what they say, to the last byte |
| Evtc.EntryAt | crates/dh-devices/src/detchannel.rs:411-438 | one entry at the cursor, as the reader of the remaining bytes sees it; no read is out of range |
| Evtc.PendingInjects | crates/dh-devices/src/detchannel.rs:387-443 | the cursor loop reads what the recursive reader does, and insists on the last byte |
| Evtc.ParseSection | crates/dh-devices/src/detchannel.rs:445-480 | validating and reading a section refines its recursive reader, for both versions |
| Evtc.SectionReads | crates/dh-devices/src/detchannel.rs:302-344 | a good section's bytes validate and read back |
| Evtc.SectionBack | crates/dh-devices/src/detchannel.rs:445-452 | accepted bytes are the layout of a good section |
| DetChannel.ListUnique | crates/dh-devices/src/detchannel.rs:302-344 | a pending table has one ascending list |
| DetChannel.Host.constructor | crates/dh-devices/src/detchannel.rs:239-260 | a new host is detached and satisfies the invariant |
| DetChannel.Host.ChannelInit | crates/dh-devices/src/detchannel.rs:656-684 | the status and attachment after an init, case by case; attached exactly if the status is Ok or AlreadyAttached |
| DetChannel.Mirror | crates/dh-devices/src/detchannel.rs:744-765 | the mirror loop adds the drained queries, the later of two with one number winning, and takes them out of the restored ones |
| DetChannel.Host.Drain | crates/dh-devices/src/detchannel.rs:725-767 | the drained queries become pending with their names, on an attached host whose drain succeeded and on no other |
| DetChannel.Host.InjectAnswer | crates/dh-devices/src/detchannel.rs:689-721 | the latched query is answered once and leaves both tables; the answer is Proceed if nothing is latched or attached, the plan's decision by the live or restored name for a restored query, and else the responder's |
| DetChannel.Host.Snapshot | crates/dh-devices/src/detchannel.rs:302-344 | the section of the state, which validates in every state that satisfies the invariant |
| DetChannel.Host.Restore | crates/dh-devices/src/detchannel.rs:467-514 | all of an accepted section whose channel attaches, else nothing at all |
| DetChannel.RestoreThenSnapshot | crates/dh-devices/src/detchannel.rs:302-514 | restoring an accepted version 2 section and snapshotting again gives the same bytes |
| DetChannel.RunHost | crates/dh-devices/src/detchannel.rs:576-767 | in every state reachable by any events, attachment agrees with the status, restored queries are pending ones with equal values, and the snapshot validates |

## Left out

- KVM, perf counters, signals, memory mapping, thread pinning and the TSC: their behaviour is the schedule, the guest machine and the ring's publish step.
- Termination of a landing for a guest that exits for ever without retiring: schedules are finite and a run that uses one up ends as in flight. `LandAt` bounds the entries by the micro-steps on the way.
- Boundary.LandAt: the vCPU with its counter is a value that the loops reassign, not an object; the count is not bounded to 64 bits, and the `rcx` of a boundary is not modelled.
- Inject.InjectAt: any failure of the host's event query is possible at every step, also where the ready flag alone would have decided.
- RunControl.RunSegment: collects its agenda before the walk instead of pulling points from the iterator; `Agenda.AgendaIter` models the iterator.
- RunControl.RunSegment: the exit wrapper is part of the guest's exit step, so frame marks, frame-scheduled and live inputs and the sinks' errors are not told apart from other exits and event stops.
- RunControl.RollForward: a target beyond 64 bits is an error, where the source's multiplication overflows.
- RunControl.VisitPoint: an epoch mark holds the count and the number of links, not the epoch index, and whether it may be checkpointed is not modelled.
- RunControl.RunSegment: the `?` of setting the TSC at the start and of pushing a hash is not modelled; the counter read at the start is.
- RunLaws.LiveWalk: a run with vectors, a goal or a clock that overflows is not promised to complete.
- LinkLaws.LinkedTwiceExactly: is about runs without vectors; with vectors, `RunLaws.WalkAccounts` and `RunLaws.OneLinkExactly` hold, and the condition stays one on the run's outcome.
- Quantization.RunSplit: is about runs without vectors that complete, and with the pause flag of the run as a whole; two halves of a paused or halted run are not compared. So is Pieces.RunPieces, whose last piece is not empty.
- BLAKE3 is a function parameter; nothing is assumed about it, which is why chain equality ends in a collision. The hash as a streaming object is the buffer of what it was fed.
- The vCPU blob, XSAVE, CPUID masks and MSR filters: the blob is an opaque byte sequence.
- BlockDevice.ReadChunks: the chunk loops thread the overlay and guest memory as values; the device object takes the results over at the end of a request, so that no state in the middle of a request is visible.
- BlockDevice.PvBlk.Execute: the error counter is not bounded to 64 bits, and the MMIO register file is not modelled.
- BlockSnapshot.Restore: the digest is the whole 32 bytes of the hash function given.
- LogWriting.LogWriter.Append: a PIO answer is a device event like any other, and digests of data are given by the caller.
- Lineage.New: parsing is a function parameter.
- DeviceRail.Rail.ServiceOther: other devices are what they log and queue; entropy, serial, the transmit half of net, the local APIC and MSR exits are not modelled, nor is a bus error.
- DeviceRail.Rail.ApplyNetRx: the net device is its receive registers; the frame's copy into guest memory and RX_LEN, which have changed already when the writer refuses the record, are not modelled, nor is a rail without the device.
- DirtyRing.HarvestInto: the ring is a value that the loop reassigns; the set is a mathematical one, and memory ordering between kernel and harvester is the atomicity of its steps. `DirtyPages` proves the bitmap separately.
- DirtyPages.SetBit: words are numbers and bits are stated by division, since the source's shifts stay within a word.
- MachineConfig.DecodeEncode: the reader's cursor is the bytes that remain.
- Evtc.SectionReads: UTF-8 validity is an uninterpreted predicate.
- DetChannel.Host.Drain: the guest-sdk channel is its producer sequence numbers and its names; ring contents, manifests and metrics are not modelled, and the plan and the responder are function parameters.
- The fixed sections of the snapshot container (TIME, LAPC, ENTR) and their version upgrades: straight-line field maps.
- gRPC, the worker, the command line tools, boot loading, file-backed images, the local APIC, the serial and entropy devices, the net device but for its receive path, the device bus, and the slot state machine.
