# Remote-driven vehicle: a verified model of its fail-safe path and diagnostics

The vehicle is driven over the network.  A PC sends control packets to the gateway **MAIN**, which
turns them into CAN frames for the drive controller **ACT** and the body controller **BODY**; a
tester reaches all of them through MAIN's DoIP server, and the media node **MEDIA** by a DoIP server
of its own.  This project models the four programs and proves what their design rests on.

Everything is proved for all environments: the interrupt of ACT may fire at any microsecond and
between any two calls of its main loop (and, in `ActInterleaving`, inside a call), the encoder line is an arbitrary function of time, frames
may be lost, repeated, reordered or delayed, packets may arrive at any time and in any mode.

## Main results

* **Distributed fail-safe** (`FailSafe`).  In any run of MAIN and ACT the motor is powered only if
  MAIN received a packet asking for exactly this motion less than 500 ms + d + c + 400 ms before, where
  d is the time from MAIN's timeout check to the transmission in the same pass and c bounds the delay of
  a frame, or if ACT received a request for the motor test less than two seconds before.  This holds on
  every path through remote, default and diagnostic mode.
* **Stop latency of ACT** (`ActSafety`).  The watchdog counts calls, not time.  Ten calls are made per
  pass, but every 20th pass also spends 20 ms on a servo pulse, so 2000 calls take exactly 400 ms.
  The bound is reached.
* **Drive authorisation** (`ActSafety`, `ActMain`).  Every powered microsecond of a run is licensed.  Either an
  accepted command that asks for this motion is less than 400 ms old; or the motor test is running in this
  pass, started by an accepted request in an extended session less than two seconds before, and the motor
  turns forward in the first 300 us of a cycle, which is 30 %.  Here the interrupt is atomic with respect to
  a watchdog call; a command that waits at the beginning of a pass is then obeyed in that pass.
* **Interrupt inside a watchdog call** (`ActInterleaving`, `ActTearing`).  With the interrupt free to land between
  any two accesses of the call, the stop bound still holds, counted from the commands whose fields drive the
  motor.  Obedience does not: where an interrupt lands decides exactly whether its command is obeyed, torn,
  swallowed or refused, and it is stated exactly which two commands move the motor when torn although neither
  asks for it.
* **Delay conservation** (`Motor`, `Servo`).  A motor update takes exactly 1000 us with each channel on
  for the first 10 us per percent; a servo pulse takes exactly 20 ms, whatever is asked for.  In every such
  microsecond the brake is on if and only if the motor is stopped, and no microsecond of a run is powered
  with the brake on.
* **From packet to pins** (`MainCom`, `FailSafe`, `ActCan`).  In every pass MAIN receives exactly the packets among
  its events, and the last one decides; byte by byte it is proved which microseconds of which wheel, which
  direction, brake and steering pulse, and which lamps a packet leads to.
* **A tester reads the truth** (`UdsTester`, `BodyTester`).  A reader that does not know the service tables reads
  from the frames of ACT and BODY the status of each code, speed, angle, distance and lamps as they were, the
  session in force, and for each refusal its reason; a refusal is read if and only if there is one.
* **Encoder sampling** (`EncoderDriver`, `ActCpu`).  No wait of the program is longer than 50 us, hence
  every edge of a line whose edges are further apart is counted, and a speed window counts half of them.
* **Freshness in MAIN** (`MainCom`).  A frame that enables driving carries the most recent packet, less
  than 500 ms old by the 32-bit clock; exactly when that clock is fooled is stated, with an example.
* **Routines** (`UdsService`, `UdsResults`).  A started routine runs for exactly 1000 or 2400 calls whatever is
  requested meanwhile, and never overlaps another.  The tester's bus carries exactly one result of it if
  and only if the controller is free at its last call; otherwise none, since nothing sends it again.
* **Trouble codes** (`DtcMonitor`, `DtcRule`, `DtcLatency`, `MainDcm`, `BodyDtc`).  One rule over the history of
  evaluations and clears, refined by three programs.  For any pattern of a fault and of clears ACT stores its
  code iff since the last clear three consecutive evaluations each had the fault present in as many calls
  before them as the threshold; closed form of the time to confirmation.
* **Diagnostic relay** (`Relay`).  Requests and responses cross the gateway byte for byte, if and only if
  they fit a single frame; a request is dispatched if and only if no other one overwrites it in the slot.
* **BODY** (`BodyMain`, `BodySafety`, `BodyLamps`).  A lamp was only ever lit by the self-test at start-up, in the
  first second of a call that took a request for the lamp test, or by a remote command that asks for it and
  is fewer than 200 calls old.  Every debounced press of the collision button is on the bus after the first later
  pass whose offer finds the controller free, and no event is invented (`BodyEvents`).  Everything a pass does
  follows from the state before it and what the sensors report (`BodyPass`).  The debouncer is a rule about 22 samples (`BodyButton`); the collision level
  cannot chatter within a spread of 10 cm (`BodyCollision`); the blink phase has a closed form (`BodyBlink`).
* **MEDIA** (`MediaStream`, `MediaServer`, `MediaDtcStore`).  Framing is inverted however the bytes are
  chunked; an address is activated on one connection at a time, and only it is served; each row of the
  trouble-code store summarises the episodes of its fault.

## Where the code differs from what it says

* ACT/ActCan.c:39 calls the timeout 200 ms.  It is 2000 calls, which take up to 400 ms
  (`ActSafety.StopLatency`).  A command accepted during the 500 ms start-up is kept until 379 ms after
  the main loop begins, since no watchdog call is made before; the bounds therefore count from the
  beginning of the loop for such commands.
* The command fields of ACT are copied one by one and then the flag is cleared (ACT/ActCan.c:496-503) while the
  interrupt may run.  A torn copy can drive the motor although no command asked for it
  (`ActTearingExamples.TornCommandMoves`; exactly when: `ActTearing.TornMovesIff`); a command that arrives after
  the first field and before the flag is cleared is lost, be it a forced stop (`ActTearingExamples.SwallowedStop`);
  one that arrives between reading and writing tick 1999 waits and is refused
  (`ActTearingExamples.RefusedCommand`; exactly when a command is obeyed: `ActTearing.ObeyedIff`).
* ACT/Motor.c:400-406 lets the motor coast without the brake.  The next motor update brakes whenever the motor is
  stopped (ACT/Motor.c:466-470), so coasting ends before the first microsecond (`Motor.CycleShape`).
* A response of ACT or BODY that finds the controller busy is dropped, be it the result of a routine
  (`UdsResults.ResultOnBus`).
* BODY's lamp test needs no session and no command: one request lights every lamp for a second
  (`BodyMain.LampTestWithoutCommand`).
* While MAIN is in diagnostic mode its timeout check rests.  After a stay of 2^32 ms a return to remote
  mode repeats the old drive command as if it were new (`MainCom.StaleCommandAfterOneTurn`); a run of 49
  days is too short for that (`FailSafe.ReachableRun`).
* MAIN acknowledges a diagnostic request before it checks whether it fits a single frame.  A request of
  0 or of more than 7 bytes is acknowledged and dropped (`Relay.RequestReachesEcuIff`).
* The confirmation of a trouble code looks at evaluations only: a fault that vanishes for one
  call right after each evaluation is confirmed like a lasting one (`DtcLatency.InterruptedFaultIsStoredToo`;
  exactly when: `DtcRule.FaultMonitor.StoredExactly`).
* BODY evaluates its sensor fault every 3001st call, not every 3000th, and measures every 61st.
* BODY/BodyControl.c:1474-1482 makes both turn signals blink for a collision warning, and the next lines
  overwrite it.  The warning is shown as intended only in a dark phase or when both turn signals are
  requested anyway, and alone it lights nothing (`BodyLamps.Lamps.WarningShownIff`).
* MAIN/BSW/Interface/cantp.c:26-30 names BODY for identifier 0x708 and ACT for 0x718; the code has them
  the right way round.
* The payload of a frame that MEDIA refuses is not skipped; its bytes are read as the next header
  (`MediaStream.InStepIff`).
* MEDIA treats an episode that began at clock time zero as one without a beginning
  (`MediaDtcStore.EpisodeFromZero`; exactly when: `MediaDtcStore.FinishedEpisodeIff`).

## Reading guide

Programs are classes with the fields of the original; ghost fields remember what an observer outside
would have seen (`Cpu.trace`, `RxMailbox.accepted`, `Com.sent`, histories of evaluations).  `Valid`
predicates are the invariants; every method keeps them, so a lemma about a `Valid` object speaks of
every reachable state.  `ActCpu` is the one place where time passes: `WaitTime` adds microseconds to
the trace and lets the interrupt run after each; `BodyCpu` is the same for BODY.  Environment inputs are functions given at power-on:
which frames arrive at the k-th interruption point, the encoder line, the measured angles and distances, the
collision button, and whether a transmission finds the controller busy.

## Model

| member | source | states |
|---|---|---|
| `EncoderDriver.TwoSamplesSuffice` | ACT/Encoder.c:79-98 | two samples at most 50 us apart see every edge of a line whose edges are further apart, and its direction |
| `EncoderDriver.SampleIsExactIff` | ACT/Encoder.c:79-83 | for any line, comparing two samples counts the edges between them iff there is at most one; otherwise they are lost in pairs |
| `EncoderDriver.PollSeesAll` | ACT/Encoder.c:70-109 | a poll that is not late brings the count of edges of one kind up to date |
| `EncoderDriver.Encoder.Poll` | ACT/Encoder.c:70-109 | counts the level change since the previous poll and its direction, and keeps the counters equal to the true edges |
| `EncoderDriver.Encoder.WindowCountsPulses` | ACT/Encoder.c:100-102 | the larger of rising and falling edges is half of all edges, rounded up |
| `EncoderDriver.Encoder.Update1ms` | ACT/Encoder.c:111-135 | every 100th call publishes ten times the pulses of the window that ends, which is the true number on a spaced line |
| `EncoderDriver.Encoder.CloseWindow` | ACT/Encoder.c:121-134 | speed is pulses times ten; all window counters restart |
| `EncoderDriver.Encoder.ResetCount` | ACT/Encoder.c:142-159 | counting restarts without inventing an edge |
| `ActCanRx.Decode` | ACT/ActCan.c:325-341 | a frame is a command only with id 0x100, FD format, length code 6 and all six fields in range |
| `ActCanRx.CaughtStep` | ACT/ActCan.c:287-358 | what one more interruption adds to the commands and requests delivered since power-on; the invariant of `Cpu` is that exactly these have been accepted and received |
| `ActCanRx.RxMailbox.Receive` | ACT/ActCan.c:306-358 | a valid command is stored, everything else only counted; the timeout restarts exactly for an accepted command |
| `ActCanRx.RxMailbox.Store` | ACT/ActCan.c:343-358 | the command becomes the newest one and the timeout restarts |
| `ActCanRx.RxMailbox.CountTickAndTake` | ACT/ActCan.c:477-505 | time has run out iff 2000 calls have been made since the last accepted command; otherwise a new command is taken once |
| `UdsSlot.RequestSlot.Store` | ACT/UdsDiag.c:936-947 | the request takes the one slot, whatever was in it |
| `UdsSlot.RequestSlot.Take` | ACT/UdsDiag.c:957-966 | the newest request that has arrived since the last look, once |
| `ActCpu.Cpu.RxIsr` | ACT/ActCan.c:250-359 | by its id a frame goes to the command mailbox or to the request slot |
| `ActCpu.Cpu.Interrupt` | ACT/ActCan.c:109-109 | the receive interrupt, an atomic step, handles the frames that have arrived, in order: exactly their commands are accepted and exactly their requests received; none delivered so far has been lost |
| `ActCpu.Cpu.WaitTime` | ACT/Motor.c:98-99 | exactly so many microseconds pass with the pins held, the interrupt free to run after each |
| `ActCpu.Cpu.DelayUs` | ACT/Motor.c:94-109 | the same, with the encoder polled at least every 50 us and at the end |
| `Motor.PwmTraceInStretches` | ACT/Motor.c:231-300 | one period is: both channels, the longer one, none |
| `Motor.CycleShape` | ACT/Motor.c:447-472 | microsecond by microsecond, in pins: channel A for the first 10 us per percent of the right wheel, channel B for the left one, neither when stopped; brake on iff stopped; direction by the state |
| `Motor.MotorDrive.constructor` | ACT/Motor.c:346-357 | stopped with the brake on, all duties 90 |
| `Motor.MotorDrive.Brake` | ACT/Motor.c:392-398 | stopped, unpowered, brake on |
| `Motor.MotorDrive.Coast` | ACT/Motor.c:400-406 | stopped, unpowered, brake off |
| `Motor.MotorDrive.SetDutyPercent` | ACT/Motor.c:408-415 | base and wheel duties become the same limited value |
| `Motor.MotorDrive.SetWheelDutyPercent` | ACT/Motor.c:422-435 | wheel duties limited to 100; the base duty follows only if both are equal |
| `Motor.MotorDrive.HoldShorterThenLonger` | ACT/Motor.c:261-299 | the shorter channel drops first, the other at its own time, then both stay off for the rest of the period |
| `Motor.MotorDrive.HoldThenLow` | ACT/Motor.c:246-260 | equal channels: on, then off |
| `Motor.MotorDrive.SendPwmOneCycleChannels` | ACT/Motor.c:231-300 | takes 1000 us, each channel on for exactly the first 10 us per percent |
| `Motor.MotorDrive.Update` | ACT/Motor.c:447-472 | one millisecond of the current state: the brake is on throughout iff the motor is stopped, a running motor has its direction, right wheel on channel A, left on B, nothing powered when stopped |
| `Servo.LimitPulse` | ACT/Servo.c:78-91 | every request ends up between 900 and 1500 us, and one between them is unchanged |
| `Servo.PulseShape` | ACT/Servo.c:281-293 | microsecond by microsecond: servo line high first, then whole motor cycles, then the rest unpowered; 20 ms in all; from the first cycle on the brake is on iff the motor is stopped |
| `Servo.PulseIsSeen` | ACT/Servo.c:281-293 | every pulse trace has this shape, from wherever in a record it starts |
| `Servo.Steering.SetTargetPulse` | ACT/Servo.c:121-150 | the pulse is limited and the position is the nearest of the three |
| `Servo.Steering.SetKey` | ACT/Servo.c:205-229 | key, pulse and position agree |
| `Servo.Steering.Center` | ACT/Servo.c:236-239 | middle position, no key |
| `Servo.Steering.DelayLow` | ACT/Servo.c:63-76 | low/1000 motor cycles, each with an encoder update, then low%1000 us |
| `Servo.Steering.SendOnePulse` | ACT/Servo.c:281-293 | exactly one pulse trace of the limited width |
| `Servo.Steering.Update` | ACT/Servo.c:253-260 | one pulse of the width of the current key, 19 or 18 encoder updates inside |
| `Servo.Steering.UpdateForMs` | ACT/Servo.c:262-279 | one pulse of the width of the current key per 20 ms, at least one, and never any power if the motor is stopped |
| `ActCan.ActCan.constructor` | ACT/ActCan.c:437-465 | stopped, coasting, base duty 90, steering centred, no command applied; reports standby, gear P and no override |
| `ActCan.CommandToCycle` | ACT/ActCan.c:164-222 | from the bytes of a command to microsecond i of a motor cycle: which wheel is powered, in a turn the inner one for 300 us and the outer one throughout, 900 us each when straight; direction and brake |
| `ActCan.CommandToPulse` | ACT/ActCan.c:164-186 | and to the width of the steering pulse: 900, 1500 or 1200 us |
| `ActCan.ActCan.ApplySteering` | ACT/ActCan.c:164-186 | key from the field, inner wheel 30 and outer 100 in a turn, 90 each when straight |
| `ActCan.ActCan.ApplyDrive` | ACT/ActCan.c:188-222 | brake before accelerator; only gears D and R move |
| `ActCan.ActCan.EnterSafeState` | ACT/ActCan.c:224-235 | braked, unpowered, centred, base duty 90 |
| `ActCan.ActCan.EnterModeInhibitState` | ACT/ActCan.c:237-248 | the same, reporting the mode |
| `ActCan.ActCan.ApplyCommand` | ACT/ActCan.c:496-522 | the motor moves iff the command is REMOTE, NORMAL, accel 1, brake 0 and in gear; a forced stop or another mode stands still with the brake on; and what is reported of it |
| `ActCan.ActCan.OnTimeout` | ACT/ActCan.c:482-492 | stands still; the timeout is counted once |
| `ActCan.ActCan.Act` | ACT/ActCan.c:482-522 | stop, carry out, or leave everything as it was |
| `ActCan.ActCan.Update100us` | ACT/ActCan.c:468-523 | one watchdog call: stop when expired, apply the last accepted command if it is new, otherwise change nothing |
| `ActInterleaving.StepKeepsInvariant` | ACT/ActCan.c:477-503 | one access or interrupt keeps the invariant: the tick never lags behind the calls, even when the interrupt's reset is overwritten; a copy names the commands its fields are from; the drive follows the fields applied last |
| `ActInterleaving.RunKeepsInvariant` | ACT/ActCan.c:468-523 | the same in every run |
| `ActInterleaving.StopBoundOfSources` | ACT/ActCan.c:477-503 | in every run, between calls the motor is driven only by fields of accepted commands each at most 2000 ticks old; a swallowed command does not prolong the motion |
| `ActTearing.UntornIsAccepted` | ACT/ActCan.c:496-501 | a copy whose first and last field are of one command is that command |
| `ActTearing.UntornIff` | ACT/ActCan.c:496-501 | in every run, all six fields of a copy are of one command iff no interrupt landed between the first and the sixth |
| `ActTearing.AppliesNewestIff` | ACT/ActCan.c:494-503 | in every run, what a call applies is the newest accepted command iff no interrupt landed from its first copied field to the clearing of its flag |
| `ActTearing.ObeyedIff` | ACT/ActCan.c:468-523 | in every run, a command is obeyed by the end of the next call iff it landed neither in a copy after its first field, nor before the flag was cleared, nor between reading and writing tick 1999 |
| `ActTearing.RefusedCall` | ACT/ActCan.c:477-492 | a command in the last tick waits for ever with its flag set while the motor is stopped |
| `ActTearing.TearIsMix` | ACT/ActCan.c:496-501 | an interrupt after k fields makes the call apply exactly the first k fields of the one command and the rest of the other |
| `ActTearing.TornMovesIff` | ACT/ActCan.c:188-222 | exactly which two commands move the motor when torn after k fields although neither asks for it, for each k |
| `ActTearing.QuietCall` | ACT/ActCan.c:468-523 | a call without interrupt and without a new command only counts |
| `ActTearingExamples.SwallowedStop` | ACT/ActCan.c:501-503 | a reachable state in which an accepted forced stop is lost, the motor is driven and the watchdog has just been restarted |
| `ActTearingExamples.RefusedCommand` | ACT/ActCan.c:477-480 | a reachable state in which a command waits and is refused |
| `ActTearingExamples.TornCommandMoves` | ACT/ActCan.c:496-503 | a reachable state in which a torn copy drives the motor although no command asked for motion |
| `ActSafety.TwoThousandCalls` | ACT/Cpu0_Main.c:300-322 | 2000 consecutive calls span exactly 400 ms |
| `ActSafety.StopLatency` | ACT/Cpu0_Main.c:112-120 | a command is dropped at most 400 ms after its acceptance, and the bound is met |
| `ActSafety.PassStep` | ACT/Cpu0_Main.c:315-321 | every 20th pass is 20 ms longer |
| `ActSafety.CycleLicensed` | ACT/Motor.c:447-472 | a motor cycle powers the motor only as its licence says: by a command in its direction and time, or by the running motor test forward in the first 300 us |
| `ActSafety.PulseLicensed` | ACT/Servo.c:281-293 | the same for the cycles inside a servo pulse |
| `ActSafety.FreshCovers` | ACT/ActCan.c:477-492 | a command that the watchdog still honours covers the whole pass that begins now |
| `ActSafety.SafeExtend` | ACT/Cpu0_Main.c:300-322 | safety of the whole trace is kept by adding licensed microseconds |
| `ActSafety.CycleIsSafe` | ACT/Cpu0_Main.c:231-239 | a covered motor cycle keeps the whole record safe and the rest of the pass covered |
| `ActSafety.PulseIsSafe` | ACT/Cpu0_Main.c:315-321 | the same for a servo pulse with the motor running underneath |
| `ActSafety.ThousandPasses` | ACT/Cpu0_Main.c:300-322 | the 1000 passes of the motor test span exactly two seconds |
| `ActSafety.TestWasRequested` | ACT/UdsDiag.c:565-614 | a running motor test goes back to a start request taken in an extended session at most 998 passes before |
| `ActSafety.TestPowerIsRequested` | ACT/UdsDiag.c:801-823 | every microsecond powered by the motor test goes back to such a request frame received less than two seconds before |
| `ActMain.ActMain.StartUp` | ACT/Cpu0_Main.c:289-298 | 500 ms of centring pulses, nothing powered, encoder restarted, then the invariant holds |
| `ActMain.ActMain.TickOnce` | ACT/Cpu0_Main.c:118-118 | after an undisturbed call a running motor obeys the last accepted command and that command is fresh |
| `ActMain.ActMain.UpdateCanRxFor1ms` | ACT/Cpu0_Main.c:112-120 | ten calls at the same time; a waiting command is obeyed afterwards |
| `ActMain.ActMain.UpdateDiagnostics` | ACT/Cpu0_Main.c:229-229 | the motor test drives forward at 30 %; when it ends the motor is stopped with duty 90; otherwise the drive is untouched |
| `ActMain.ActMain.DecideOnTime` | ACT/UdsDiag.c:949-968 | the request that a pass takes was received since the pass before |
| `ActMain.ActMain.Decide` | ACT/Cpu0_Main.c:218-234 | before every motor update: forward at 30 % by the motor test, or the direction of a fresh command that asks for it |
| `ActMain.ActMain.DriveCycle` | ACT/Cpu0_Main.c:231-239 | one licensed millisecond: the record shows a motor cycle as state and duties ask for it, and the encoder has had its update |
| `ActMain.ActMain.SteeringPulse` | ACT/Cpu0_Main.c:315-321 | one licensed servo pulse for the steering key, with the motor cycles and the encoder updates inside it |
| `ActMain.ActMain.SteerIfDue` | ACT/Cpu0_Main.c:315-321 | one licensed servo pulse in every 20th pass, nothing in the others |
| `ActMain.ActMain.Pass` | ACT/Cpu0_Main.c:300-322 | one pass keeps the invariant: schedule, authorisation, requests on time, and every powered microsecond so far licensed; a waiting command is obeyed, wheel by wheel and in the steering; the record of the pass is a motor cycle, and a servo pulse if one is due; every interruption point has been offered |
| `ActMain.ActMain.EncoderCountsEveryEdge` | ACT/Encoder.c:70-135 | in every reachable state the encoder count equals the true number of edges since the reset |
| `ActMain.PowerOn` | ACT/Cpu0_Main.c:269-288 | the initialised program in an arbitrary environment |
| `UdsService.Answer` | ACT/UdsDiag.c:362-614 | every request but a routine start is answered at once, with 1 to 11 bytes, positively or with 7F, its own service and a code; what the answers tell is stated by `UdsTester` |
| `UdsService.RunningRoutineAdvances` | ACT/UdsDiag.c:801-892 | a running routine comes one call nearer to its end whatever is requested |
| `UdsService.RoutineRunsThrough` | ACT/UdsDiag.c:565-614 | exactly 1000 or 2400 calls, alone, and one result, produced at the end |
| `UdsService.ResultImpliesStart` | ACT/UdsDiag.c:616-631 | a result is produced only by a routine started its full duration before |
| `UdsService.NoOverlap` | ACT/UdsDiag.c:588-593 | a start during a routine changes nothing and is answered "busy" |
| `UdsTester.RefusedIff` | ACT/UdsDiag.c:346-614 | a refusal is read iff there is a reason for it, with the code of the first reason in the order service, length, subfunction, session, busy, range |
| `UdsTester.StartedIff` | ACT/UdsDiag.c:565-614 | a start that is not refused starts the routine asked for and is answered by nothing else |
| `UdsTester.DataIsRead` | ACT/UdsDiag.c:395-459 | a reader that does not know the service table reads speed, angle and name under their own identifiers |
| `UdsTester.CodesAreRead` | ACT/UdsDiag.c:461-509 | and each trouble code with its own status |
| `UdsTester.SessionIsRead` | ACT/UdsDiag.c:362-393 | a session change reports the session that is then in force |
| `UdsTester.OthersKeepTheSession` | ACT/UdsDiag.c:511-540 | nothing else changes the session, and "cleared" is read iff the codes are cleared |
| `UdsTester.ResultIsRead` | ACT/UdsDiag.c:616-631 | a result is read under the identifier of its routine |
| `UdsTester.AnswerTells` | ACT/UdsDiag.c:636-693 | all this of the frame that a call offers, byte for byte as the reader finds it on the bus |
| `UdsResults.AnswerIsNoResult` | ACT/UdsDiag.c:346-614 | no immediate response looks like the result of a routine |
| `UdsResults.OneResultIsOffered` | ACT/UdsDiag.c:616-631 | from the start of a routine to its end exactly one result is offered to the controller, last, whatever else is answered |
| `UdsResults.ResultOnBus` | ACT/UdsDiag.c:323-343 | the tester's bus carries exactly one result iff the controller is free when the last call offers it, and none otherwise |
| `UdsTransport.Transmitter.SendSingleFrame` | ACT/UdsDiag.c:260-344 | 8-byte frame up to 7 bytes, 12-byte frame up to 11, zero padded; sent, and the buffers alternated, only if the controller is not busy; never offered again |
| `UdsDiag.UdsDiag.StartMotorRoutine` | ACT/UdsDiag.c:542-553 | old duty put aside, 30 % set, encoder restarted |
| `UdsDiag.UdsDiag.StartServoRoutine` | ACT/UdsDiag.c:555-563 | routine started at its first step, steering left |
| `UdsDiag.UdsDiag.Respond` | ACT/UdsDiag.c:511-540 | the response is offered; a clear empties both histories and nothing else does |
| `UdsDiag.UdsDiag.Carry` | ACT/UdsDiag.c:636-693 | one dispatched request: state, response and monitors as the service table says |
| `UdsDiag.UdsDiag.Parse` | ACT/UdsDiag.c:648-662 | the payload of a single frame of 1 to 7 bytes, else nothing |
| `UdsDiag.UdsDiag.ProcessRequest` | ACT/UdsDiag.c:636-693 | a malformed frame changes nothing; a request has its effect |
| `UdsDiag.UdsDiag.UpdateMotorRoutine` | ACT/UdsDiag.c:801-823 | forward at 30 % until the last call, which stops, restores the duty and reports |
| `UdsDiag.UdsDiag.UpdateServoRoutine` | ACT/UdsDiag.c:825-871 | left, centre, right for 800 calls each, then centre and report |
| `UdsDiag.UdsDiag.UpdateRoutine` | ACT/UdsDiag.c:873-892 | one step of the routine machine and its effect on the actuators |
| `UdsDiag.UdsDiag.UpdateDtcMonitor` | ACT/UdsDiag.c:723-796 | both faults observed once: motor running with no pulses; angle above -25 in a left turn, below 25 in a right one, outside -10 to 10 straight on |
| `UdsDiag.UdsDiag.TakeRequest` | ACT/UdsDiag.c:957-967 | the waiting request is taken once |
| `UdsDiag.UdsDiag.ProcessTaken` | ACT/UdsDiag.c:957-967 | what was taken is processed, and nothing else |
| `UdsDiag.UdsDiag.Update1ms` | ACT/UdsDiag.c:949-978 | request, then routine, then monitors; exactly the frames that follow are offered, and the tester reads from the answer the status of each code, the speed and the angle as they were, the session, or the reason of a refusal; drive, steering and encoder change only as a routine says; the state follows from all frames taken so far, and both faults are observed |
| `UdsDiag.AngleWord` | ACT/UdsDiag.c:429-450 | the word that is sent is the angle in two's complement |
| `UdsDiag.ClampAngle` | ACT/UdsDiag.c:216-233 | angles beyond 45 degrees count as 45, others as they are |
| `DtcMonitor.ConfirmedStep` | ACT/UdsDiag.c:707-715 | the history bit is due iff three failing evaluations in a row have happened since the last clear |
| `DtcMonitor.SpecStep` | ACT/UdsDiag.c:698-721 | what each evaluation and each clear does to the specification |
| `DtcMonitor.UpdateOneDtcStatus` | ACT/UdsDiag.c:698-721 | status byte and counter keep saying what the history says |
| `DtcMonitor.ClearHistory` | ACT/UdsDiag.c:526-529 | a clear drops the history bit and the counter and keeps the current fault |
| `DtcLatency.LastingFault` | ACT/UdsDiag.c:723-796 | timer, period, counter and stored bit of a lasting fault in closed form |
| `DtcLatency.ConfirmationLatency` | ACT/UdsDiag.c:723-796 | stored from one definite call on, between threshold + 6000 and threshold + 8999 calls after the onset |
| `DtcLatency.EncoderConfirmation` | ACT/UdsDiag.c:730-748 | 8000 to 10999 calls for the encoder fault |
| `DtcLatency.SteeringConfirmation` | ACT/UdsDiag.c:750-768 | 7000 to 9999 calls for the steering fault |
| `DtcLatency.LatencyIsTight` | ACT/UdsDiag.c:770-796 | both ends of the range occur |
| `DtcLatency.Recovery` | ACT/UdsDiag.c:716-720 | once the fault is gone nothing more is stored, and the counter is zero within one period |
| `DtcLatency.SingleFaultStoredIff` | ACT/UdsDiag.c:698-796 | a single fault is stored iff it lasted at least that long |
| `DtcLatency.InterruptedFaultIsStoredToo` | ACT/UdsDiag.c:770-796 | a concrete intermittent fault that is stored all the same |
| `DtcRule.TrailingIsWindow` | ACT/UdsDiag.c:730-768 | the fault timer's trailing run decides whether the fault was present in the last n calls |
| `DtcRule.FailRunMeans` | ACT/UdsDiag.c:698-721 | the run of failing evaluations is at least k iff the last k evaluations failed with no clear since |
| `DtcRule.MonitorIsRule` | ACT/UdsDiag.c:698-796 | for any pattern of the fault and of clears: timer, period, counter and stored bit are those of the rule |
| `DtcRule.FaultMonitor.StoredExactly` | ACT/UdsDiag.c:698-796 | a code is stored iff since the last clear three consecutive evaluations each had the fault present in as many calls before them as the threshold |
| `DtcRule.FaultMonitor.Observe` | ACT/UdsDiag.c:723-796 | one millisecond of one code's variables, which stay those of the rule over all calls |
| `DtcRule.FaultMonitor.ClearStored` | ACT/UdsDiag.c:526-529 | the history of the code ends with a clear |
| `DtcMonitors.Monitors.Observe` | ACT/UdsDiag.c:723-796 | both codes see the call, and the period timer they share evaluates every 3000th |
| `MainDcm.PeerMonitor.CommLoss` | MAIN/BSW/Service/dcm.c:28-35 | a failing evaluation in the books of MAIN, whose counter saturates at 255 |
| `MainDcm.PeerMonitor.Recovered` | MAIN/BSW/Service/dcm.c:59-63 | a passing evaluation |
| `MainDcm.PeerMonitor.Clear` | MAIN/BSW/Service/dcm.c:77-86 | a clear that forgets the current fault as well |
| `MainDcm.Dcm.ClearAll` | MAIN/BSW/Service/dcm.c:77-86 | all three peers are cleared |
| `MainCom.EventKeepsConsistent` | MAIN/BSW/Service/com.c:107-124 | override NORMAL implies that the receive time is that of the latest packet, and no packet implies default mode |
| `MainCom.CheckKeepsConsistent` | MAIN/BSW/Service/com.c:262-286 | the timeout check keeps this, and leaves remote and NORMAL only for a packet less than 500 ms old |
| `MainCom.ElapsedIsTrue` | MAIN/BSW/Service/com.c:267-267 | the 32-bit comparison is the true one for ages below a turn of the clock |
| `MainCom.DiagnosticsSuspendTheCheck` | MAIN/BSW/Service/com.c:267-273 | in diagnostic mode the check leaves control data and their age alone |
| `MainCom.DiagnosticsHold` | MAIN/Cpu0_Main.c:74-85 | through any passes in diagnostic mode without a control packet, the control data and their age stay as they are |
| `MainCom.ReturnFromDiagnostics` | MAIN/BSW/Service/swc.c:19-26 | back in remote mode the first pass drives iff the age of the last packet, modulo 2^32 ms, is under 500 ms |
| `MainCom.StaleCommandAfterOneTurn` | MAIN/BSW/Service/com.c:262-273 | whatever the passes in between do, an old drive command is repeated as new after 2^32 ms of diagnostics |
| `MainCom.WithoutEvent` | MAIN/Cpu0_Main.c:76-78 | for any events of a pass: what no event of its kind occurs for stays as it was, and routing decides the mode |
| `MainCom.EventsSplit` | MAIN/Cpu0_Main.c:76-78 | the events of a pass act one after the other |
| `MainCom.LastEventDecides` | MAIN/BSW/Service/com.c:107-190 | the last packet decides controls, receive time and override, the last ignition with the routing after it the mode, the last sign of life its age, the last buzzer request the warning |
| `MainCom.PacketToFrames` | MAIN/BSW/Service/com.c:201-223 | byte by byte, what becomes of a control packet in the frames for ACT and BODY |
| `MainCom.CheckDecides` | MAIN/BSW/Service/com.c:262-286 | what the timeout check changes and when, for all three peers, and that it changes nothing else |
| `MainCom.Com.UdpCtrProcessRx` | MAIN/BSW/Service/com.c:107-124 | controls, mode from the ignition, receive time, override ended, PC recovered |
| `MainCom.Com.CanStatProcessRx` | MAIN/BSW/Service/com.c:174-183 | ACT is alive |
| `MainCom.Com.CanBodyProcessRx` | MAIN/BSW/Service/com.c:185-190 | BODY is alive |
| `MainCom.Com.DiagRoutingActivated` | MAIN/BSW/Service/swc.c:7-14 | remote becomes diagnostic mode |
| `MainCom.Com.DiagRoutingDeactivated` | MAIN/BSW/Service/swc.c:19-26 | diagnostic becomes remote mode |
| `MainCom.Com.BuzzerControlIndication` | MAIN/BSW/Service/swc.c:36-39 | the collision warning follows the request |
| `MainCom.Com.CheckPc` | MAIN/BSW/Service/com.c:267-273 | a silent PC in remote mode forces the brake and the hazard lights and is recorded |
| `MainCom.Com.TimeOut` | MAIN/BSW/Service/com.c:262-286 | all three peers checked; what remains enabled is fresh |
| `MainCom.Com.TxMainFunction` | MAIN/BSW/Service/com.c:201-251 | one frame to ACT and one to BODY with the current state iff 20 ms of clock have passed since the last, none otherwise; every frame sent is recent |
| `MainCom.Com.Dispatch` | MAIN/Cpu0_Main.c:76-78 | one event of a pass has its effect |
| `MainCom.Com.Receive` | MAIN/Cpu0_Main.c:76-78 | all events of a pass have their effects in order; exactly the packets among them are received, and each peer is heard as often as it spoke |
| `MainCom.Com.PollOnce` | MAIN/Cpu0_Main.c:74-85 | one pass: exactly the packets among its events are received, the state is that of the events and then of the check, each peer's history grows by what was heard and by a loss if it was silent, and one frame goes to ACT and one to BODY iff 20 ms have passed; every frame ever sent was recent |
| `FailSafe.FrameReachesAct` | ACT/ActCan.c:325-341 | ACT reads from a frame what MAIN wrote, and accepts it iff all fields are in range |
| `FailSafe.FrameReachesBody` | BODY/BodyCan.c:838-866 | the same for BODY |
| `FailSafe.PacketDrives` | MAIN/BSW/Service/com.c:107-124 | from the bytes of a control packet with the ignition on, through both programs, to microsecond i of the wheels, brake, direction and steering pulse |
| `FailSafe.PacketLights` | MAIN/BSW/Service/com.c:214-223 | and to head lamp, turn signal, brake lamp, horn and warning as BODY reads them |
| `FailSafe.YoungIff` | MAIN/BSW/Service/com.c:201-211 | of the frames that look recent by the 32-bit clock, exactly those carry a packet truly less than 500 ms old whose packet has not seen a whole turn of the clock |
| `FailSafe.ReachableRun` | MAIN/Cpu0_Main.c:74-85 | every frame of every run is such a frame, for 49 days at least, and else as long as no packet is left for a turn of the clock |
| `FailSafe.LostPcStopsAndWarns` | MAIN/BSW/Service/com.c:267-273 | 500 ms after the last packet in remote mode the next frames are a stop for ACT and hazard lights for BODY, and the ECUs accept them iff the fields of the packet were in range |
| `FailSafe.OnlyAPacketEndsTheOverride` | MAIN/BSW/Service/com.c:120-123 | and stays so until the next control packet |
| `FailSafe.PoweredOnRequest` | ACT/ActCan.c:468-523 | every powered microsecond goes back to a request for the motor test in the last two seconds, or to a packet at most 900 ms + d + c old that asks for this motion |
| `FailSafe.MotorStops` | MAIN/BSW/Service/com.c:262-273 | without such a packet and without such a request the motor is off |
| `FailSafe.MotorStopsInAnyRun` | ACT/Cpu0_Main.c:300-322 | the same for the two programs in any state they can reach |
| `SingleFrame.PackedIsRead` | ACT/UdsDiag.c:648-662 | packing and reading single frames are inverse |
| `MainRouting.RouteRx` | MAIN/BSW/Routing/pdur.c:5-21 | the first table entry with the id decides; none means no route |
| `MainRouting.RoutesAreUnambiguous` | MAIN/Configurations/pdur_cfg.c:61-73 | no id occurs twice in the table |
| `MainDoip.GetDlc` | MAIN/candrv.c:65-93 | the smallest length code that holds the payload, exact up to 8 bytes |
| `MainDoip.AddressedFrameIsRead` | MAIN/BSW/Interface/doip.c:278-312 | an independent reader gets type, addresses and data back, with a correct length field |
| `MainDoip.ActivationBytes` | MAIN/BSW/Interface/doip.c:144-180 | byte by byte: the tester is activated and told 0x10; anyone else is told 0x00 and loses the connection; a short request is ignored |
| `MainDoip.RelayIsByBytes` | MAIN/BSW/Interface/doip.c:222-260 | byte by byte: which acknowledgement or refusal a diagnostic message gets, and where it goes |
| `MainDoip.NackBytes` | MAIN/BSW/Interface/doip.c:188-270 | byte by byte: a wrong length ends the connection, other kinds are refused, stubs are ignored |
| `MainDoip.DoipGateway.SendDiagAck` | MAIN/BSW/Interface/doip.c:39-86 | acknowledgement frames |
| `MainDoip.DoipGateway.ProcessRoutingActivation` | MAIN/BSW/Interface/doip.c:144-180 | only the tester's address is activated; others lose the connection |
| `MainDoip.DoipGateway.CanTpTransmit` | MAIN/BSW/Interface/cantp.c:51-79 | one padded single frame for 1 to 7 bytes, nothing otherwise |
| `MainDoip.DoipGateway.Forward` | MAIN/Configurations/pdur_cfg.c:11-23 | the routing table leads each target address to its ECU |
| `MainDoip.DoipGateway.RelayDiagnostic` | MAIN/BSW/Interface/doip.c:222-260 | address checks, acknowledgement, request |
| `MainDoip.DoipGateway.ProcessRx` | MAIN/BSW/Interface/doip.c:188-270 | the whole reaction to one delivery, errors included |
| `MainDoip.DoipGateway.ProcessTx` | MAIN/BSW/Interface/doip.c:278-312 | a response frame from the ECU's address to the tester, if it fits the buffer |
| `MainDoip.DoipGateway.CanTpRxIndication` | MAIN/BSW/Interface/cantp.c:6-43 | the payload of a single frame goes up under the right address; other frames are dropped |
| `MainDoip.DoipGateway.Return` | MAIN/Configurations/pdur_cfg.c:30-38 | the routing table knows the address of the responding ECU |
| `BodyUds.TakeRequest` | BODY/BodyCan.c:649-674 | the request bytes of a single frame of 1 to 7 bytes |
| `BodyUds.SendUdsPayload` | BODY/BodyCan.c:316-355 | a padded frame of 8 bytes, or none |
| `BodyUds.Answer` | BODY/BodyCan.c:386-707 | every request is answered in 1 to 7 bytes, positively or with 7F, its own service and a code; one with an effect positively; what the answers tell is stated by `BodyTester` |
| `BodyTester.RefusedIff` | BODY/BodyCan.c:386-707 | a refusal is read iff there is a reason for it, with the code of the first reason; no session is asked for |
| `BodyTester.DataIsRead` | BODY/BodyCan.c:428-502 | distance, turn signal, button, warning and name are read under their own identifiers |
| `BodyTester.CodeIsRead` | BODY/BodyCan.c:504-542 | the sensor's trouble code is read with its status |
| `BodyTester.SessionIsRead` | BODY/BodyCan.c:386-426 | the session asked for is confirmed |
| `BodyTester.DoneIffRead` | BODY/BodyCan.c:544-647 | a clear, a tone, a lamp test and a measurement have been done iff the response says so |
| `BodyTester.ResponseTells` | BODY/BodyCan.c:316-355 | all this of the response frame, as the reader finds it on the bus |
| `BodyDiag.BodyDiag.Respond` | BODY/BodyCan.c:316-355 | a response is offered once and dropped by a busy controller |
| `BodyDiag.BodyDiag.CarryOut` | BODY/BodyCan.c:578-647 | only the lamp test touches the lamps, for exactly a second; a measurement replaces the distance and takes its time; only a clear touches the code |
| `BodyDiag.BodyDiag.HandleUdsRequest` | BODY/BodyCan.c:649-707 | a malformed frame does nothing; a request is carried out in any session, with its effect on record, sensor and code, and then answered once |
| `BodyDiag.BodyDiag.ProcessUdsRequestIfNeeded` | BODY/BodyCan.c:709-726 | the newest request since the last call is taken once, carried out and answered |
| `Relay.RequestReachesEcuIff` | MAIN/BSW/Interface/doip.c:222-260 | a request is always acknowledged and reaches the slot of its ECU byte for byte iff it has 1 to 7 bytes |
| `Relay.FoundIffLast` | ACT/UdsDiag.c:936-966 | a request frame is the one found in the slot iff no other request frame arrived after it |
| `Relay.BatchOfAct` | ACT/ActCan.c:287-304 | an interruption point of ACT extends the slot in this way |
| `Relay.BatchOfBody` | BODY/BodyCan.c:820-837 | and one of BODY |
| `Relay.DispatchedByActIff` | ACT/UdsDiag.c:936-967 | a request in the slot of ACT is dispatched by the next call, byte for byte, iff no other request frame arrives in between; else the last one is |
| `Relay.DispatchedByBodyIff` | BODY/BodyCan.c:709-726 | the same for BODY |
| `Relay.OnlyTheTesterReachesEcus` | MAIN/BSW/Interface/doip.c:230-243 | no other delivery produces a frame for an ECU, and the frame carries exactly the tester's bytes to the addressed one |
| `Relay.ActResponseReturns` | MAIN/BSW/Interface/cantp.c:6-43 | every response of 1 to 11 bytes of ACT arrives unchanged under its address |
| `Relay.BodyResponseReturns` | MAIN/BSW/Interface/cantp.c:6-43 | the same for BODY and 1 to 7 bytes |
| `BodyRx.Decode` | BODY/BodyCan.c:838-866 | a frame is a command only with id 0x110, length code 6 and all six fields in range |
| `BodyEvents.EventsStandForReports` | BODY/BodyCan.c:1111-1120 | collision events are merged, never invented |
| `BodyEvents.ReportIsSent` | BODY/BodyCan.c:773-791 | every report is sent with the next event the controller takes, under its own or an earlier time |
| `BodyEvents.NothingIffNoReport` | BODY/BodyCan.c:773-791 | nothing is sent or pending iff nothing was reported |
| `BodyEvents.EventWaits` | BODY/BodyCan.c:773-791 | while the controller is busy a pending event waits, with its time |
| `BodyEvents.PressIsSent` | BODY/BodyCan.c:773-791 | a press is sent by the first later offer that finds the controller free, and not before, with its own time or that of an earlier one not sent either |
| `BodyEvents.PressReachesBus` | BODY/Cpu0_Main.c:49-63 | the same for any two passes of any run |
| `BodyEvents.EventIsRead` | BODY/BodyCan.c:1081-1109 | a reader of the event frame gets its time back |
| `BodyRx.CommandBox.Receive` | BODY/BodyCan.c:839-882 | a valid command becomes the newest and restarts the timeout; anything else changes nothing |
| `BodyRx.CommandBox.CountAndTake` | BODY/BodyCan.c:1035-1055 | timed out iff 200 calls have been made since the newest command; a new command is taken once, iff there is one, and is then the one in force, if it is in remote mode |
| `BodyCpu.BodyCpu.RxIsr` | BODY/BodyCan.c:793-882 | by its id a frame goes to the command box or to the request slot |
| `BodyCpu.BodyCpu.Interrupt` | BODY/BodyCan.c:793-882 | exactly the commands and requests that have arrived are accepted and received, in order; none delivered so far has been lost |
| `BodyCan.BodyCan.EnterSafeState` | BODY/BodyCan.c:209-219 | every request off and every lamp dark |
| `BodyCan.BodyCan.ApplyBodyCommand` | BODY/BodyCan.c:221-248 | the lamps are requested as the command says in remote mode and off otherwise |
| `BodyCan.BodyCan.UpdateCommand` | BODY/BodyCan.c:1035-1063 | the lamps are requested by the command in force: remote mode and fewer than 200 calls old; otherwise off; a new command sets turn signals and warning, an old one leaves them |
| `BodyEvents.EventSender.SendPendingCollisionEventIfNeeded` | BODY/BodyCan.c:773-791 | a pending event is offered: a free controller has its frame, a busy one leaves it pending; without one nothing is offered |
| `BodyEvents.EventSender.ReportCollisionOccurred` | BODY/BodyCan.c:1111-1120 | the event keeps the time of the first report that has not been sent |
| `BodyMain.BodyMain.UpdateCan` | BODY/BodyCan.c:1024-1067 | one call: exactly the commands that have arrived are taken and one of them is in force, the newest request is carried out and answered, and a pending event is on the bus iff the controller is free |
| `BodySafety.HoldIsSafe` | BODY/Cpu0_Main.c:49-63 | waiting keeps the record safe if the lamps that shine are licensed |
| `BodySafety.LampTestFrame` | BODY/BodyCan.c:625-632 | the request that lights the lamps in every session |
| `BodyMain.BodyMain.UpdateCommands` | BODY/BodyCan.c:1033-1063 | what has arrived, the clock, and the command in force, with the turn signals and the warning that follow |
| `BodyMain.BodyMain.UpdateDiagnostics` | BODY/BodyCan.c:709-726 | the request's effect on sensor, trouble code, record and response; the test's light is licensed by the request of this very call, any other by the command in force |
| `BodyMain.BodyMain.UpdateControl` | BODY/BodyControl.c:2074-2113 | button sampled, distance measured if due, sensor checked if due, turn signals advanced by a millisecond, with the lamps lawful throughout |
| `BodyMain.BodyMain.UpdateUltrasonic` | BODY/BodyControl.c:622-673 | the warning's millisecond, with a measurement and its time if one is due |
| `BodyMain.BodyMain.UpdateDtc` | BODY/BodyControl.c:2037-2052 | every 3001st call a measurement of its own and an evaluation, and the announcement of a confirmation |
| `BodyMain.BodyMain.UpdateLamps` | BODY/BodyControl.c:2083-2110 | the blink phase advances by a millisecond and the pins show it |
| `BodyMain.BodyMain.ReportPress` | BODY/Cpu0_Main.c:54-58 | a press that the last sample completed is reported, with the time of the pass |
| `BodyMain.BodyMain.Pass` | BODY/Cpu0_Main.c:49-63 | one pass keeps the invariant, and from the state before it follow the lamps, the warning, the trouble code, the events, the responses and the whole record of the pass; it takes exactly the newest request |
| `BodyMain.BodyMain.Passes` | BODY/Cpu0_Main.c:49-63 | any number of passes: the events are those of the run in which the controller was free as it was and the presses were those of the samples |
| `BodyMain.BodyMain.PressIsOnTheBus` | BODY/Cpu0_Main.c:54-58 | in any run every press is on the bus, as the next event frame, after the first later pass whose offer finds the controller free |
| `BodyPass.PassAnswers` | BODY/BodyCan.c:649-707 | from the response frame of a pass the tester reads the distance measured for it, the turn signal and warning of the command in force, the button, the status of the code, or why the request is refused |
| `BodyPass.OffForgets` | BODY/BodyControl.c:2083-2110 | turn signals and a warning that are off forget their timers |
| `BodyPass.OldCommandOnlyTicks` | BODY/BodyCan.c:1057-1063 | without a new command the blink phase only counts on |
| `BodyMain.BodyMain.LitForAReason` | BODY/BodyControl.c:1466-1504 | in every reachable state: a lamp was lit only by the self-test, by a lamp test requested for this call, or by a remote command that asks for it and is fewer than 200 calls old |
| `BodyMain.BodyMain.EventsStandForPresses` | BODY/Cpu0_Main.c:54-58 | no more events than debounced presses, and none, sent or pending, iff there was no press |
| `BodyMain.PowerOn` | BODY/BodyControl.c:877-930 | the self-test lights everything for a second, then the invariant holds, in an arbitrary environment |
| `BodyMain.LampTestWithoutCommand` | BODY/BodyCan.c:625-632 | a run in which every lamp is lit and no command has ever arrived |
| `BodyButton.RunIsWindow` | BODY/BodyControl.c:379-390 | counting equal samples decides whether the last n agree |
| `BodyButton.SampleStep` | BODY/BodyControl.c:379-406 | what one more sample changes: run, level, press |
| `BodyButton.PressesAreSeparated` | BODY/BodyControl.c:392-406 | between two press events lie 22 consecutive released samples |
| `BodyButton.PressedSample` | BODY/BodyControl.c:392-406 | a press needs 22 pressed samples |
| `BodyButton.CollisionButton.constructor` | BODY/BodyControl.c:1611-1615 | the first sample is the first stable level and raises no event |
| `BodyButton.CollisionButton.Update1ms` | BODY/BodyControl.c:371-407 | the level is the window rule over all samples; an event exactly at a completed press |
| `BodyButton.CollisionButton.ConsumePressedEvent` | BODY/BodyControl.c:1809-1818 | each event is handed out once |
| `BodyCollision.ComputeLevel` | BODY/BodyControl.c:511-611 | the level moves just far enough to lie between the strict and the loose level of the distance |
| `BodyCollision.TowardsCommonLevel` | BODY/BodyControl.c:670-672 | a level that suits all distances attracts the levels from both sides |
| `BodyCollision.NoChatter` | BODY/BodyControl.c:670-672 | distances within less than 10 cm move the level in one direction only |
| `BodyCollision.ChattersIff` | BODY/BodyControl.c:526-532 | alternating between two distances chatters iff no level suits both; 15 and 25 cm do |
| `BodyCollision.CollisionWarning.SetCollisionWarningLamp` | BODY/BodyControl.c:1762-1790 | switching on makes the next call measure; switching off resets |
| `BodyCollision.MeasuresEvery61` | BODY/BodyControl.c:622-640 | switched on, the warning measures in the first millisecond and then in every 61st; in between only its timers run |
| `BodyCollision.CollisionWarning.UpdateUltrasonic1ms` | BODY/BodyControl.c:622-673 | the level is the level function over the distances since the last reset; a measurement gives distance and validity, a failed one is bridged for 300 ms and then resets |
| `BodyCollision.CollisionWarning.RunUltrasonicDiagnosticRoutine` | BODY/BodyControl.c:1936-1978 | replaces the distance, reports millimetres, computes no level |
| `BodyBlink.ClosedForm` | BODY/BodyControl.c:2083-2110 | n ms after the last change the timer is n mod 500 and the lamp is lit iff n/500 is even, whatever identical commands arrive |
| `BodyBlink.OffStaysDark` | BODY/BodyControl.c:1132-1136 | switched off means dark |
| `BodyLamps.Lamps.SetTurnSignal` | BODY/BodyControl.c:1730-1760 | left, right, hazard or off; the pins follow at once |
| `BodyLamps.Lamps.SetBlinkRequest` | BODY/BodyControl.c:1113-1144 | only a changed request restarts the phase |
| `BodyLamps.Lamps.ApplyOutputs` | BODY/BodyControl.c:1466-1504 | head and brake lamp show their requests, a requested turn signal the blink phase, with or without the collision warning |
| `BodyLamps.Lamps.WarningShownIff` | BODY/BodyControl.c:1474-1496 | with the warning on, both turn signals show the blink phase iff the phase is dark or both are requested anyway; alone it lights nothing |
| `BodyLamps.Lamps.AllOff` | BODY/BodyControl.c:1822-1859 | every request off, every lamp dark, the warning reset |
| `BodyLamps.Lamps.RunStartupSelfDiagnosis` | BODY/BodyControl.c:877-930 | all lamps lit for exactly a second, then dark |
| `BodyLamps.Lamps.RunLedDiagnosticRoutine` | BODY/BodyControl.c:1911-1934 | all lamps lit for exactly a second whatever is requested, then the requests shown again |
| `BodyLamps.Lamps.Update1ms` | BODY/BodyControl.c:2083-2110 | one millisecond of the blink machine |
| `BodyDtc.UltrasonicDtc.Evaluate` | BODY/BodyControl.c:2001-2035 | the common rule, and whether this evaluation confirms |
| `BodyDtc.UltrasonicDtc.UpdateStatus` | BODY/BodyControl.c:2001-2035 | the lamp starts to blink exactly when the fault becomes confirmed, once per confirmation, and else shows the current fault |
| `BodyDtc.UltrasonicDtc.UpdateStatus1ms` | BODY/BodyControl.c:2037-2052 | one evaluation every 3001 calls |
| `BodyDtc.UltrasonicDtc.UpdateBlink1ms` | BODY/BodyControl.c:845-875 | three flashes of 251 ms, and then the lamp shows whether a fault is present |
| `BodyDtc.UltrasonicDtc.Update1ms` | BODY/BodyControl.c:2037-2057 | timer, history, blinking and lamp after one millisecond |
| `BodyDtc.UltrasonicDtc.ClearDtcHistory` | BODY/BodyControl.c:2059-2070 | history bit and counter gone, current fault kept, blinking ended |
| `BodyDtc.UltrasonicDtc.SetLampFault` | BODY/BodyControl.c:815-833 | the lamp is lit while any fault is present, unless it blinks |
| `MediaHeader.DecodeEncodeIff` | MEDIA/doip/header.py:30-47 | decoding inverts encoding for version 2 and rejects what the encoder writes for any other |
| `MediaHeader.HeaderBytes` | MEDIA/doip/header.py:30-36 | the fields by their places, most significant byte first |
| `MediaHeader.ParseBuilt` | MEDIA/doip/header.py:50-64 | parsing inverts building, whatever follows the frame |
| `MediaStream.FramesAreDispatched` | MEDIA/doip/tcp_handler.py:65-88 | the frames of any list are dispatched in order |
| `MediaStream.RefusedPayloadIsReadAsHeader` | MEDIA/doip/tcp_handler.py:75-82 | after a refused header the loop goes on with the next byte |
| `MediaStream.InStepIff` | MEDIA/doip/tcp_handler.py:75-82 | the loop stays in step after a refused frame iff it had no payload |
| `MediaStream.StreamReader.ReadExactly` | MEDIA/doip/tcp_handler.py:232-238 | exactly the next n bytes however they were chunked, or nothing at the end |
| `MediaStream.ReadFrame` | MEDIA/doip/tcp_handler.py:69-88 | one turn of the loop |
| `MediaStream.Run` | MEDIA/doip/tcp_handler.py:65-95 | what is dispatched depends on the bytes only, not on the chunks |
| `MediaServer.DoipServer.OnClient` | MEDIA/doip/tcp_handler.py:275-283 | a session is added iff the registry is not full |
| `MediaServer.DoipServer.FindHolder` | MEDIA/doip/tcp_handler.py:161-166 | finds another session activated for the address iff there is one |
| `MediaServer.DoipServer.HandleRoutingActivation` | MEDIA/doip/tcp_handler.py:143-173 | success iff the address is allowed and no other session holds it; a refusal changes nothing |
| `MediaServer.DoipServer.Activate` | MEDIA/doip/tcp_handler.py:168-169 | no two activated sessions share an address |
| `MediaServer.DoipServer.HandleDiagnostic` | MEDIA/doip/tcp_handler.py:110-205 | acknowledged iff the session is activated for the sender's address and the target is this node; exact refusals |
| `MediaServer.DoipServer.Resume` | MEDIA/doip/tcp_handler.py:205-215 | when served, the session is still the only one activated for the sender, the sender is allowed, and the reply carries the response of the UDS server to it |
| `MediaServer.ResponseIsRead` | MEDIA/doip/tcp_handler.py:211-215 | the tester reads the response unchanged, from this node and addressed to itself |
| `MediaServer.DoipServer.Dispatch` | MEDIA/doip/tcp_handler.py:101-137 | for each kind of message and each of its conditions the reply in codes and addresses, and the session afterwards; only an activation request activates, only a diagnostic message is served |
| `MediaServer.DoipServer.Cleanup` | MEDIA/doip/tcp_handler.py:247-255 | the address becomes free |
| `MediaDtcStore.FinishedEpisodeIff` | MEDIA/doip/dtc_store.py:130-139 | the stored duration is the length of the finished episode iff the clock did not read zero at its beginning or it has no length; it is never negative |
| `MediaDtcStore.EpisodesRunForwards` | MEDIA/doip/dtc_store.py:91-143 | no episode ends before it began if the clock does not run backwards |
| `MediaDtcStore.DtcStore.SetActive` | MEDIA/doip/dtc_store.py:91-121 | each row keeps summarising the log: episodes, times, bits |
| `MediaDtcStore.DtcStore.ClearActive` | MEDIA/doip/dtc_store.py:123-139 | the same for a withdrawn fault |
| `MediaDtcStore.DtcStore.ClearAll` | MEDIA/doip/dtc_store.py:141-143 | the same when the store is erased |
| `MediaDtcStore.EpisodeFromZero` | MEDIA/doip/dtc_store.py:130-139 | a store in which an episode from time 0 to 5 has the duration 0 |

## Left out

- ActCpu.Cpu.Interrupt: the receive interrupt is atomic with respect to a watchdog call and to the copy of a request.  `ActInterleaving` and `ActTearing` model the finer interleaving for commands, with time counted in ticks.
- ActCanRx.RxMailbox.CountTickAndTake: atomic, for the same reason; so are the members built on it:
- ActCan.ActCan.Update100us: a command that lands inside the call is in `ActTearing`, not here.
- ActMain.ActMain.TickOnce: obedience is that of a call without an interrupt inside it.
- ActMain.ActMain.UpdateCanRxFor1ms: the same for ten calls.
- ActMain.ActMain.Pass: the same for a pass, and the licence of a command is that of an untorn one.
- FailSafe.MotorStops: commands are untorn; for torn ones `ActInterleaving.StopBoundOfSources` bounds the motion by the commands its fields come from.
- FailSafe.MotorStopsInAnyRun: the same.
- UdsSlot.RequestSlot.Take: the copy of a request is atomic in both ECUs.
- BodyCpu.BodyCpu.Interrupt: the receive interrupt of BODY is atomic with respect to the 1 ms task.
- BodyRx.CommandBox.CountAndTake: the 200 ms of BODY are 200 calls; a call takes as long as its tests and measurements do.
- Time passes in waits only; the instructions between them take no time, so all bounds are in modelled waiting.
- Encoder, fault and frame counters are unbounded integers; the 32-bit wrap of debug counters and of the encoder count is not modelled.  The clocks of MAIN do wrap.
- Speed in km/h (ACT/UdsDiag.c:183-214) is floating point; the reported speed word is an arbitrary function of the pulse rate, and the potentiometer angle an arbitrary input.
- The status frames of ACT (ACT/Cpu0_Main.c:152-193), MAIN's status packets to the PC and the SOME/IP parts of com.c and sd.c: constant layouts.
- MAIN's own diagnostic service table (MAIN/BSW/Service/dcm.c:114-320), a smaller one than that of ACT; requests for MAIN are handed over unchanged.
- MainCom.Com.UdpCtrProcessRx: assumes control packets of at least 9 bytes, which the code does not check.
- MainDoip.DoipGateway.ProcessRx: assumes that one TCP delivery holds one frame, as the code does.
- MainDoip.DoipGateway.ProcessTx: assumes that the total length fits 16 bits; no caller has more than 64 bytes.
- Whether CAN transmission succeeds in MAIN: a failed one is a lost frame.
- BODY: heartbeat, horn and warning tones (the test tone is a wait of any length), and the feedback of the lamps during self-test and use, which decides only about the danger lamp.  A measurement is an arbitrary distance or a failure and takes an arbitrary time.
- BodyDtc.UltrasonicDtc.UpdateStatus: the fault mask bit is also set by a failed warning measurement, which belongs to another class here.
- MEDIA: SQLite is a map of rows that starts empty; the UDS server behind a session is an arbitrary function; alive checks, UDP discovery, ring buffer and web pages.
- MediaStream.Run: the bytes of the connection are given as a whole; a reset in the middle is an end.
