# Rescue-robot relay: a Dafny model

The system is a search-and-rescue robot setup. A Java backend relays messages between four parties:

- the robot, which sends sensor readings, speech transcripts and PIR events, and receives drive commands and text-to-speech;
- the operator console (the desktop client), which sends key, gamepad and manual-trigger lines and receives sensor snapshots, vision events, LLM guidance and the camera feed;
- a camera, which streams length-prefixed JPEG frames;
- a vision server and an LLM, which the backend asks about frames and about the situation.

The backend keeps one shared sensor record (`SensorState`). It uses that record to grade the hazard, to decide when the LLM may be asked, and to follow a detected person by sending LEFT / RIGHT / FORWARD / STOP commands.

This project models that core as pure functions over immutable data:

- the state record and its update rules (`SensorState`, `StateUpdater`);
- the two hazard classifiers (`Hazard`);
- the LLM gate and the prompt-string escaping (`PromptRules`);
- the person follower (`FollowController`);
- the frame protocol (`Framing`) and the base64 encoding of frames (`Base64`);
- the per-frame vision pipeline (`ImagePipeline`);
- the robot, console and video channels (`RobotChannel`, `GuiChannel`, `VideoChannel`) and the socket supersession rules (`Connections`);
- the speech filter (`AudioHeuristic`) and the transcript buffer (`SttBuffer`);
- the two LLM decision loops and their reply dispatch (`DecisionEngine`, `MainLoop`, `DecisionDispatcher`);
- the OpenAI reply parser (`OpenAiParser`) and the `.env` loader (`EnvLoader`);
- in the desktop client, keyboard and gamepad input (`DesktopInput`), the LiDAR map and chart (`LidarView`), and the black-box replay panel (`BlackBox`).

The modelling conventions are:

- JSON values are an algebraic datatype (`Json`). A number keeps its lexeme, because Gson's `getAsString` on a number returns it. A failing Gson accessor is `None`.
- Every inbound line is its raw text together with its parse result.
- Each message sent is a value in a returned list, addressed to the robot or to the console.
- Time (`now`) is a parameter, and so are the answers of the vision server and the LLM (`Answered` / `Failed`) and the random draws.
- Where a Java method throws part-way through, the model returns the state as it was at the throw, marked as having thrown.

Where the code and its design notes disagree, the model follows the code:

- `rewriteBestToCenterMost` takes the first of `all` / `boxes` / `dets` that is an array, even an empty one.
- The robot and video services clear their current-socket field on exit without checking which socket it holds (`Connections.SupersededExitDropsNewer`). The console service checks.
- `DecisionEngine` always asks in the CONFIRMED_CONTACT phase, while the polling loop in `Main` switches to RESCUE_GUIDE when speech is present.
- `Main` stamps the call time before asking, so a failed call still starts the cooldown. `DecisionEngine` stamps only after success, so it retries on the next tick (`MainLoop.FailureStartsCooldown`).
- The callers invoke three setters that `state/SensorState.java` does not declare: `setVisionTs` (StateUpdater.java:79), `setLastLlmCallAtMs` (DecisionEngine.java:58, Main.java:83) and `setLastLlmRaw` (DecisionEngine.java:59, ImageSocketService.java:216). The class has no `lastLlmCallAtMs` or `lastLlmRaw` field either. The model adds the two LLM fields and all three setters, each a plain write that touches nothing else.

All source paths below are relative to the repository root.

## Model

| member | source | states |
|---|---|---|
| SensorState.SetVisionPerson | backend-server/src/main/java/org/example/state/SensorState.java:47-51 | stores the person flag, stamps `visionTs` and the any-update time with `now`, and touches no other group of the record |
| SensorState.IsVisionPerson | backend-server/src/main/java/org/example/state/SensorState.java:63-65 | a never-set (null) flag reads as no person |
| SensorState.VisionPersonAfterSet | backend-server/src/main/java/org/example/state/SensorState.java:47-65 | `isVisionPerson` after `setVisionPerson(v)` is true exactly for a non-null true; a fresh record sees no person |
| SensorState.SetVisionConf | backend-server/src/main/java/org/example/state/SensorState.java:54-58 | stores the confidence, also refreshing the shared `visionTs`; no other group changes |
| SensorState.SetVisionTs | backend-server/src/main/java/org/example/state/StateUpdater.java:79 | the vision timestamp is overwritten with the event's `ts`, and nothing else changes |
| SensorState.SetFlame | backend-server/src/main/java/org/example/state/SensorState.java:69-73 | stores the flame reading with `flameTs = now` and the any-update stamp; every other group is untouched |
| SensorState.SetCo2 | backend-server/src/main/java/org/example/state/SensorState.java:78-82 | stores the CO2 reading with `co2Ts = now`; every other group is untouched |
| SensorState.SetDust | backend-server/src/main/java/org/example/state/SensorState.java:96-102 | pm2.5, pm10, the source tag and `dustTs` change together in one step, and nothing else does |
| SensorState.SetPir | backend-server/src/main/java/org/example/state/SensorState.java:108-112 | stores the PIR flag with `pirTs = now`; every other group is untouched |
| SensorState.SetUltrasonic | backend-server/src/main/java/org/example/state/SensorState.java:117-121 | stores the distance with its timestamp; every other group is untouched |
| SensorState.SetLastStt | backend-server/src/main/java/org/example/state/SensorState.java:128-132 | stores the utterance and its time; every other group is untouched |
| SensorState.SetLastLlmCallAtMs | backend-server/src/main/java/org/example/service/DecisionEngine.java:58 | only the LLM bookkeeping changes: the call time becomes the given time |
| SensorState.SetLastLlmRaw | backend-server/src/main/java/org/example/service/DecisionEngine.java:59 | only the LLM bookkeeping changes: the raw reply is stored |
| SensorState.KeptSource | backend-server/src/main/java/org/example/state/SensorState.java:135-140 | the tag a compatibility setter writes: the current tag when there is one, otherwise "ROBOT" |
| SensorState.SetPm25 | backend-server/src/main/java/org/example/state/SensorState.java:135-137 | pm2.5 is replaced while pm10 is kept and an existing tag is kept; only the dust group changes |
| SensorState.SetPm10 | backend-server/src/main/java/org/example/state/SensorState.java:138-140 | pm10 is replaced while pm2.5 is kept, with the same tag rule |
| SensorState.DustStaleness | backend-server/src/main/java/org/example/state/SensorState.java:143-146 | never-set dust is stale; after `SetDust` at `t0` it is stale exactly when `now - t0 > staleMs` |
| SensorState.DemoTagSurvivesRobotReading | backend-server/src/main/java/org/example/state/SensorState.java:135-137 | a DEMO tag written by the snapshot task survives a later single real pm2.5 reading |
| SensorState.FlameCo2Commute | backend-server/src/main/java/org/example/state/SensorState.java:69-82 | setting flame then CO2 gives the same record as the other order |
| StateUpdater.Apply | backend-server/src/main/java/org/example/state/StateUpdater.java:34-41 | a failed Gson accessor throws and leaves the record as it was; a readable value is applied |
| StateUpdater.ApplyJson | backend-server/src/main/java/org/example/state/StateUpdater.java:8-27 | non-JSON, non-object and untyped lines are ignored, and the LLM bookkeeping is never touched |
| StateUpdater.ApplySensor | backend-server/src/main/java/org/example/state/StateUpdater.java:29-66 | a SENSOR line never changes the vision, speech or LLM groups, and a named FLAME, CO2, DUST, PIR or ULTRASONIC message changes only that sensor's group |
| StateUpdater.ApplyNamed | backend-server/src/main/java/org/example/state/StateUpdater.java:31-44 | an unreadable name throws and an unknown name changes nothing; FLAME, CO2, PIR and ULTRASONIC store a readable reading with `now` and throw on an unreadable one; DUST stores pm25 before reading pm10, so a bad pm10 leaves pm25 stored; a missing member changes nothing |
| StateUpdater.NamedReadingStored | backend-server/src/main/java/org/example/state/StateUpdater.java:34-41 | a typed SENSOR line naming FLAME, CO2, PIR or ULTRASONIC with a readable reading stores exactly that reading |
| StateUpdater.ApplyComposite | backend-server/src/main/java/org/example/state/StateUpdater.java:46-65 | the composite dialect never changes vision, speech, LLM, PIR or ultrasonic |
| StateUpdater.ApplyFire | backend-server/src/main/java/org/example/state/StateUpdater.java:47-52 | a composite `fire` changes only the flame group |
| StateUpdater.ApplyGas | backend-server/src/main/java/org/example/state/StateUpdater.java:54-59 | only CO2 changes; a readable non-null `co2_ppm` wins over `gas`, and with neither present nothing changes |
| StateUpdater.ApplyDustObject | backend-server/src/main/java/org/example/state/StateUpdater.java:61-65 | the nested `dust` object changes only the dust group |
| StateUpdater.ApplyVision | backend-server/src/main/java/org/example/state/StateUpdater.java:68-80 | only the vision group changes; without `yolo.person` the flag is kept, with it the flag is its boolean reading; the confidence becomes `yolo.best.conf` when present and is kept otherwise; `ts` becomes the vision timestamp |
| StateUpdater.ApplyYolo | backend-server/src/main/java/org/example/state/StateUpdater.java:69-78 | only the vision group changes; a present `person` is stored as its boolean reading, an absent one keeps the flag; `best.conf` (when `best` is an object carrying it) becomes the confidence, otherwise the confidence is kept |
| StateUpdater.OtherTypesIgnored | backend-server/src/main/java/org/example/state/StateUpdater.java:20-26 | a readable type other than SENSOR, STT or VISION leaves the record unchanged |
| StateUpdater.SttNeedsText | backend-server/src/main/java/org/example/state/StateUpdater.java:22-24 | STT without `text` is a no-op; with a readable `text` it stores exactly that utterance |
| StateUpdater.NamedNeedsReading | backend-server/src/main/java/org/example/state/StateUpdater.java:34-41 | named FLAME, CO2, PIR and ULTRASONIC without their reading member leave the record unchanged |
| StateUpdater.NamedDustKeepsMissingReading | backend-server/src/main/java/org/example/state/StateUpdater.java:36-39 | named DUST with no reading is a no-op; with one reading the other is preserved |
| StateUpdater.NamedIgnoresCompositeMembers | backend-server/src/main/java/org/example/state/StateUpdater.java:31-44 | two messages with `name` that agree on the named members give the same result, whatever their composite members |
| StateUpdater.CompositeMemberRules | backend-server/src/main/java/org/example/state/StateUpdater.java:47-65 | JSON-null `fire` is skipped, `co2_ppm` is preferred to `gas`, and null dust members are skipped |
| StateUpdater.CompositeMatchesNamedSequence | backend-server/src/main/java/org/example/state/StateUpdater.java:46-65 | the composite message sets flame, CO2, pm2.5 and pm10 to the values of the named FLAME, CO2 and DUST messages applied in turn |
| StateUpdater.VisionFromYolo | backend-server/src/main/java/org/example/state/StateUpdater.java:68-80 | a VISION line copies `yolo.person` and `yolo.best.conf` when present and keeps each otherwise, stores `ts` as the vision timestamp, and touches only the vision group |
| Hazard.Safe | backend-server/src/main/java/org/example/hazard/HazardEvaluator.java:21-23 | a null reading counts as 0.0, anything else is itself |
| Hazard.Classify | backend-server/src/main/java/org/example/hazard/HazardEvaluator.java:15-18 | CRITICAL exactly when a CRITICAL threshold is reached; LOW exactly when no HIGH or MEDIUM threshold is; MEDIUM only with flame below 0.5 |
| Hazard.Compute | backend-server/src/main/java/org/example/hazard/HazardEvaluator.java:8-19 | CRITICAL exactly when a null-as-zero reading reaches a CRITICAL threshold; an all-null record is LOW |
| Hazard.ClassifyBands | backend-server/src/main/java/org/example/hazard/HazardEvaluator.java:15-18 | each level holds exactly when its own thresholds are reached and no higher band's are |
| Hazard.ClassifyMonotone | backend-server/src/main/java/org/example/hazard/HazardEvaluator.java:15-18 | raising any readings never lowers the level |
| Hazard.FlameNeverMedium | backend-server/src/main/java/org/example/hazard/HazardEvaluator.java:17 | MEDIUM depends only on co2, pm25 and pm10: the flame reading cannot produce it |
| Hazard.EmptyRecordIsLow | backend-server/src/main/java/org/example/hazard/HazardEvaluator.java:8-19 | a freshly constructed record is LOW |
| Hazard.Pm25NeverCritical | backend-server/src/main/java/org/example/agent/audio/evaluator/HazardEvaluator.java:10-12 | pm2.5 alone never yields CRITICAL |
| Hazard.StrictBounds | backend-server/src/main/java/org/example/agent/audio/evaluator/HazardEvaluator.java:10-22 | the bounds are strict: CO2 of exactly 3000 is HIGH and exactly 1000 is LOW |
| Hazard.EvaluateMonotone | backend-server/src/main/java/org/example/agent/audio/evaluator/HazardEvaluator.java:8-23 | the speech module's classifier is monotone in flame, CO2 and pm2.5 |
| Hazard.ClassifiersDiffer | backend-server/src/main/java/org/example/agent/audio/evaluator/HazardEvaluator.java:10-12 | the two classifiers disagree: 2600 ppm CO2 is CRITICAL for one and HIGH for the other |
| Hazard.Evaluate | backend-server/src/main/java/org/example/agent/audio/evaluator/HazardEvaluator.java:8-23 | CRITICAL exactly when CO2 > 3000 or flame > 0.9; LOW exactly when CO2 <= 1000, pm2.5 <= 80 and flame <= 0.7 |
| PromptRules.ShouldCallLlm | backend-server/src/main/java/org/example/service/PromptBuilder.java:18-28 | false on CRITICAL hazard and inside the cooldown, otherwise true exactly on CONFIRMED evidence |
| PromptRules.GateStaysOpen | backend-server/src/main/java/org/example/service/PromptBuilder.java:18-28 | once the gate opens it stays open as time passes, other inputs being equal |
| PromptRules.N | backend-server/src/main/java/org/example/service/PromptBuilder.java:297-299 | null renders as "null", anything else as its string form |
| PromptRules.B | backend-server/src/main/java/org/example/service/PromptBuilder.java:301-303 | "true" exactly for a non-null true, "false" otherwise |
| PromptRules.Q | backend-server/src/main/java/org/example/service/PromptBuilder.java:305-311 | `q(null)` is "", the result has no CR, and text without backslash, quote, CR or LF is returned unchanged |
| PromptRules.ReplaceChar | backend-server/src/main/java/org/example/service/PromptBuilder.java:307-310 | `String.replace` on one character: with no target left in the replacement, none remains; a string without the target is unchanged |
| PromptRules.QIsEscape | backend-server/src/main/java/org/example/service/PromptBuilder.java:305-311 | the four chained replaces agree on every input with a one-pass character escaping |
| PromptRules.ChainAppend | backend-server/src/main/java/org/example/service/PromptBuilder.java:307-310 | the replace chain distributes over concatenation |
| PromptRules.ChainOnChar | backend-server/src/main/java/org/example/service/PromptBuilder.java:307-310 | the chain maps backslash to two, quote to backslash-quote, CR and LF to a space, other characters to themselves |
| PromptRules.EscapeHasNoLineBreak | backend-server/src/main/java/org/example/service/PromptBuilder.java:309-310 | the escaped text contains no CR or LF |
| PromptRules.EscapeIsEscaped | backend-server/src/main/java/org/example/service/PromptBuilder.java:307-308 | every quote in the escaped text is preceded by an escaping backslash |
| PromptRules.UnescapeEscape | backend-server/src/main/java/org/example/service/PromptBuilder.java:307-310 | reading the escaped text back gives the input with line breaks turned into spaces |
| PromptRules.QProperties | backend-server/src/main/java/org/example/service/PromptBuilder.java:305-311 | `q(null)` is empty; `q` never emits a line break or an unescaped quote |
| FollowController.NewController | backend-server/src/main/java/org/example/service/FollowController.java:17-28 | a new controller has the given size and remembers STOP at time 0 |
| FollowController.UpdateFrameSize | backend-server/src/main/java/org/example/service/FollowController.java:31-39 | the size changes only when both sides are positive; the command memory is kept |
| FollowController.Steer | backend-server/src/main/java/org/example/service/FollowController.java:59-91 | STOP for a degenerate box or frame and for area ratio >= 0.20; LEFT only below -0.12, RIGHT only above 0.12, FORWARD only within the dead band |
| FollowController.Decide | backend-server/src/main/java/org/example/service/FollowController.java:42-92 | STOP for a null result, a missing or false `person` or no usable box; for a person with a readable box, the `Steer` command on the controller resized by `w`/`h`; throws exactly on an unreadable `w`/`h`, `person` or coordinate; the command memory is never touched |
| FollowController.DecideFollowsBox | backend-server/src/main/java/org/example/service/FollowController.java:45-91 | for every numeric box and size, sent as numbers or as decimal text, `decide` equals `Steer` of that box on the controller resized to that size |
| FollowController.DecideThrottled | backend-server/src/main/java/org/example/service/FollowController.java:95-107 | suppressed exactly when the command repeats the last one within 250 ms; a passed command is recorded with `now`, a suppressed one leaves the memory alone |
| FollowController.ExampleLeft | backend-server/src/main/java/org/example/service/FollowController.java:82-91 | 640x480 with box [100,100,200,300] steers LEFT |
| FollowController.CloseBoxStopsAnywhere | backend-server/src/main/java/org/example/service/FollowController.java:68-79 | a box covering at least 20 % of the frame stops the robot wherever it is shifted horizontally |
| FollowController.SteerIsSymmetric | backend-server/src/main/java/org/example/service/FollowController.java:82-91 | mirroring the box left-right mirrors LEFT and RIGHT and keeps FORWARD and STOP |
| FollowController.ReportedSizeWins | backend-server/src/main/java/org/example/service/FollowController.java:45-47 | sizes reported in the result override the cached size, so two controllers differing only in size decide alike |
| FollowController.RepeatWithinCooldownSuppressed | backend-server/src/main/java/org/example/service/FollowController.java:100-103 | the same command again less than 250 ms after it was sent is suppressed |
| FollowController.ChangedCommandPasses | backend-server/src/main/java/org/example/service/FollowController.java:100-106 | a command different from the last one always passes and is recorded with `now` |
| Framing.Int32BE | backend-server/src/main/java/org/example/socket/ImageSocketService.java:85 | `readInt` yields a 32-bit two's-complement value, negative exactly when the first octet's top bit is set |
| Framing.NextFrame | backend-server/src/main/java/org/example/socket/ImageSocketService.java:83-99 | a delivered frame consumes bytes, so the read loop makes progress |
| Framing.Frames | backend-server/src/main/java/org/example/socket/ImageSocketService.java:82-99 | every frame the loop delivers has a length in (0, 5 000 000] |
| Framing.Encode | backend-server/src/main/java/org/example/socket/VideoSocketService.java:66-80 | the stream a reader accepts: 4 header octets per frame plus the payload bytes, and the first header reads back as the first frame's length |
| Framing.HeaderRoundTrip | backend-server/src/main/java/org/example/socket/VideoSocketService.java:66-71 | reading back the big-endian header of any non-negative 32-bit length gives that length |
| Framing.HeaderOfFrame | backend-server/src/main/java/org/example/socket/ImageSocketService.java:83-99 | an accepted frame is exactly header, payload and rest, with a valid length |
| Framing.NextOfEncoded | backend-server/src/main/java/org/example/socket/ImageSocketService.java:83-99 | the reader's step on a well-formed frame returns that payload and the remaining bytes |
| Framing.FramesOfEncode | backend-server/src/main/java/org/example/socket/VideoSocketService.java:64-91 | reading what a sender wrote returns the same payloads in order, then a quiet end of stream |
| Framing.BadHeaderEndsConnection | backend-server/src/main/java/org/example/socket/VideoSocketService.java:73-77 | a header announcing 0, a negative length or more than 5 000 000 bytes ends the connection with no frame |
| Framing.HighBitIsNegative | backend-server/src/main/java/org/example/socket/ImageSocketService.java:90-92 | a header whose first octet has its top bit set is a negative length and ends the connection |
| ImagePipeline.PickFrom | backend-server/src/main/java/org/example/socket/ImageSocketService.java:281-300 | loop invariant form: the pick is the first candidate of minimal centre distance, and the loop throws exactly on an unreadable shaped candidate |
| ImagePipeline.CenterMost | backend-server/src/main/java/org/example/socket/ImageSocketService.java:278-300 | picks the first valid candidate of minimal distance to the frame centre; none only if no candidate is valid; throws exactly on an unreadable coordinate |
| ImagePipeline.RewriteBest | backend-server/src/main/java/org/example/socket/ImageSocketService.java:265-307 | unchanged unless `person` is true and a centre-most candidate exists, in which case `best` becomes it; throws exactly on an unreadable `person` or coordinate |
| ImagePipeline.RewriteKeepsPerson | backend-server/src/main/java/org/example/socket/ImageSocketService.java:265-307 | the rewrite never changes `person` |
| ImagePipeline.LlmPhase | backend-server/src/main/java/org/example/socket/ImageSocketService.java:191-204 | SEARCHING without person and speech, CONFIRMED_CONTACT with person only, RESCUE_GUIDE whenever speech is present |
| ImagePipeline.FollowStep | backend-server/src/main/java/org/example/socket/ImageSocketService.java:150-180 | STOP during the 800 ms warm-up, the throttled controller's command after it, one STOP on losing the person, at most one command per frame |
| ImagePipeline.ToRobotCmds | backend-server/src/main/java/org/example/socket/ImageSocketService.java:253-258 | each command becomes exactly one robot-bound CMD message, in order |
| ImagePipeline.LlmStep | backend-server/src/main/java/org/example/socket/ImageSocketService.java:185-236 | asked exactly when a person is seen and 2000 ms have passed; a call is stamped before asking, and a failure reports `llm_call_failed` without touching the record |
| ImagePipeline.ProcessFrame | backend-server/src/main/java/org/example/socket/ImageSocketService.java:106-241 | a vision failure reports and continues with the record unchanged and the controller resized to the decoded image; a frame that ends the connection sends nothing and asks nothing; a completed frame records its person flag and forwards VISION exactly when it sees a person |
| ImagePipeline.FollowUsesFrameSize | backend-server/src/main/java/org/example/socket/ImageSocketService.java:104-113 | once a person is tracked past the warm-up, the robot is sent exactly the throttled decision of the controller resized to the decoded image, and without a reported `w`/`h` the controller keeps that size |
| ImagePipeline.VisionFailureContinues | backend-server/src/main/java/org/example/socket/ImageSocketService.java:119-133 | a vision failure reports `yolo_infer_failed` to the console, keeps the edge, cooldown and command memory, and leaves the controller resized to the decoded image |
| ImagePipeline.LastPersonTracksFrame | backend-server/src/main/java/org/example/socket/ImageSocketService.java:182 | after a completed frame `lastPerson` equals that frame's person flag |
| ImagePipeline.PersonAppearsStops | backend-server/src/main/java/org/example/socket/ImageSocketService.java:151-164 | on a false-to-true edge the warm-up starts now and the robot gets exactly one STOP |
| ImagePipeline.WarmupStops | backend-server/src/main/java/org/example/socket/ImageSocketService.java:161-164 | inside the warm-up the controller is not consulted and the robot gets exactly one STOP |
| ImagePipeline.PersonLostStopsOnce | backend-server/src/main/java/org/example/socket/ImageSocketService.java:173-179 | true-to-false sends exactly one STOP; false-to-false sends nothing to the robot |
| ImagePipeline.LlmGate | backend-server/src/main/java/org/example/socket/ImageSocketService.java:185-188 | the LLM is asked exactly when the frame sees a person and the 2000 ms cooldown has passed |
| ImagePipeline.NeverSearchingWhenAsked | backend-server/src/main/java/org/example/socket/ImageSocketService.java:146-204 | because the vision event was just applied, the LLM is never asked in the SEARCHING phase |
| ImagePipeline.VisionForwardedIffPerson | backend-server/src/main/java/org/example/socket/ImageSocketService.java:239-241 | the VISION event reaches the console exactly when the frame sees a person |
| RobotChannel.RouteRobotLine | backend-server/src/main/java/org/example/socket/RobotSocketService.java:81-121 | only SENSOR, STT, VISION and PIR lines reach the state updater; every line not typed SENSOR, unparsable ones included, is forwarded raw to a connected console |
| RobotChannel.Clamp | backend-server/src/main/java/org/example/socket/RobotSocketService.java:246-248 | the result lies in [lo, hi] and equals the input when the input already does |
| RobotChannel.DemoStep | backend-server/src/main/java/org/example/socket/RobotSocketService.java:135-142 | the demo tick advances; values change only on ticks divisible by 5 and stay in range |
| RobotChannel.Fresh | backend-server/src/main/java/org/example/socket/RobotSocketService.java:171-182 | a reading is reported stale when never set or older than the limit, and as true only when fresh and true |
| RobotChannel.Compose | backend-server/src/main/java/org/example/socket/RobotSocketService.java:145-220 | fire iff flame > 0.5; CO2 defaults to 450; dust falls back to demo values; PIR and person are forced false when stale |
| RobotChannel.SnapshotTick | backend-server/src/main/java/org/example/socket/RobotSocketService.java:123-229 | a report only when console and robot are both connected; stale dust is refilled from the demo with tag DEMO; only the dust group changes |
| RobotChannel.SensorNotForwardedPirInert | backend-server/src/main/java/org/example/socket/RobotSocketService.java:99-111 | a SENSOR line is never forwarded; a PIR line is routed but leaves the record unchanged |
| RobotChannel.UnparsedLineForwarded | backend-server/src/main/java/org/example/socket/RobotSocketService.java:91-111 | a non-JSON line is forwarded raw to a connected console and the record is unchanged |
| RobotChannel.DemoStaysInRange | backend-server/src/main/java/org/example/socket/RobotSocketService.java:35-37 | from an in-range start, the demo pm2.5 stays in [12, 35] and pm10 in [18, 50] for any number of ticks |
| RobotChannel.FirstDrift | backend-server/src/main/java/org/example/socket/RobotSocketService.java:136-140 | tick 5 is the first change: odd, so both values go down (18.0 to 17.8, 28.0 to 27.7) |
| RobotChannel.StaleReadingsForcedFalse | backend-server/src/main/java/org/example/socket/RobotSocketService.java:171-182 | PIR and vision readings set 4000 ms ago are reported false and stale whatever their value |
| RobotChannel.DemoDustWhenNeverSet | backend-server/src/main/java/org/example/socket/RobotSocketService.java:135-167 | with dust never reported, the first connected tick tags the record DEMO and reports the demo values with CO2 450 |
| RobotChannel.DemoFillThenFresh | backend-server/src/main/java/org/example/socket/RobotSocketService.java:129-142 | right after a demo fill the dust is fresh, so a tick within 3000 ms keeps record and demo unchanged |
| Connections.Deliver | backend-server/src/main/java/org/example/socket/RobotSocketService.java:231-240 | one delivery exactly when the current socket exists and is open, otherwise nothing and no failure |
| Connections.AcceptClosingPrevious | backend-server/src/main/java/org/example/socket/RobotSocketService.java:60-73 | the new socket becomes current and connected; only the previous current socket may be closed |
| Connections.AcceptKeepingPrevious | backend-server/src/main/java/org/example/socket/GUISocketService.java:53-55 | the new socket becomes current and nothing is closed |
| Connections.ExitUnguarded | backend-server/src/main/java/org/example/socket/RobotSocketService.java:116-119 | the exiting socket is closed and the current field is nulled, whoever holds it |
| Connections.ExitGuarded | backend-server/src/main/java/org/example/socket/GUISocketService.java:103-108 | the exiting socket is closed; the field is cleared only if it still holds that socket |
| Connections.SupersededExitDropsNewer | backend-server/src/main/java/org/example/socket/VideoSocketService.java:95-99 | an old robot or video worker exiting after a newer accept leaves the channel disconnected, although the newer socket is open |
| Connections.GuardedExitKeepsNewer | backend-server/src/main/java/org/example/socket/GUISocketService.java:103-108 | an old console worker exiting after a newer accept keeps the newer socket current |
| Connections.AcceptPolicies | backend-server/src/main/java/org/example/socket/GUISocketService.java:53-55 | a console accept leaves the previous socket open; a robot or video accept closes it |
| Connections.GuardedCurrentIsLive | backend-server/src/main/java/org/example/socket/GUISocketService.java:26-29 | under any interleaving of console accepts and exits, a non-empty current socket is never a closed one |
| GuiChannel.RouteGuiLine | backend-server/src/main/java/org/example/socket/GUISocketService.java:60-97 | a trigger sets the flag if present and is not relayed; every other line is relayed raw to the robot exactly once |
| GuiChannel.Handle | backend-server/src/main/java/org/example/socket/GUISocketService.java:60-97 | non-JSON, non-object and untyped lines throw; a line not thrown has a readable type; a trigger exactly when that type is MANUAL_LLM_TRIGGER |
| GuiChannel.TriggerIff | backend-server/src/main/java/org/example/socket/GUISocketService.java:84-88 | a line is a trigger exactly when its readable `type` is MANUAL_LLM_TRIGGER |
| GuiChannel.MalformedStillRelayed | backend-server/src/main/java/org/example/socket/GUISocketService.java:89-97 | malformed PAD and KEY lines, untyped lines and non-JSON lines are still relayed once |
| GuiChannel.SessionRelaysInOrder | backend-server/src/main/java/org/example/socket/GUISocketService.java:50-115 | over a session the robot receives exactly the non-trigger lines in order, the console nothing, and the flag is set iff some trigger came |
| VideoChannel.RelayFrame | backend-server/src/main/java/org/example/socket/VideoSocketService.java:82-90 | one IMAGE carrying the base64 of the frame to a connected console, nothing otherwise |
| VideoChannel.RelayMatchesFrames | backend-server/src/main/java/org/example/socket/VideoSocketService.java:64-91 | a connection relays exactly the frame reader's frames, encoded, for the frames a console was there for, and ends for the same reason |
| VideoChannel.ImageDecodesToFrame | backend-server/src/main/java/org/example/socket/VideoSocketService.java:83 | every relayed IMAGE decodes back to exactly its frame's bytes |
| VideoChannel.CameraStreamRelayed | backend-server/src/main/java/org/example/socket/VideoSocketService.java:64-91 | what a well-behaved camera writes is relayed frame for frame, then the connection ends quietly |
| Base64.ValueOf | backend-server/src/main/java/org/example/socket/VideoSocketService.java:83 | the inverse of the alphabet: defined exactly on the 64 digits, and padding is not a digit |
| Base64.Encode | backend-server/src/main/java/org/example/socket/VideoSocketService.java:83 | four characters per started group of three octets |
| Base64.DecodeGroup | desktop-client/src/main/java/org/example/MainFx.java:457 | a decoded group holds one to three octets, and padding is accepted only in the last group |
| Base64.DecodeShort | desktop-client/src/main/java/org/example/MainFx.java:457 | a final unit of two or three characters decodes as if padded, to one or two octets; a lone character is rejected |
| Base64.Decode | desktop-client/src/main/java/org/example/MainFx.java:457 | a length of 1 modulo 4 is rejected, and at most three octets come from every four characters |
| Base64.DecodeUnpadded | desktop-client/src/main/java/org/example/MainFx.java:457 | an encoding with its trailing `=` removed still decodes to the original octets |
| Base64.UnpaddedFoob | desktop-client/src/main/java/org/example/MainFx.java:457 | "Zm9vYg" decodes to "foob" |
| Base64.DecodeEncode | desktop-client/src/main/java/org/example/MainFx.java:457 | decoding undoes encoding for every octet string (section 4 of RFC 4648) |
| Base64.EncodeAlphabet | backend-server/src/main/java/org/example/socket/VideoSocketService.java:83 | every encoded character is a digit of the alphabet or padding |
| Base64.FoobExample | backend-server/src/main/java/org/example/socket/VideoSocketService.java:83 | "foob" encodes as "Zm9vYg==", the test vector of section 10 of RFC 4648 |
| Messages.RobotBoundAppend | backend-server/src/main/java/org/example/socket/RobotSocketService.java:231-240 | the robot-bound share of a send sequence distributes over concatenation |
| Messages.GuiBoundAppend | backend-server/src/main/java/org/example/socket/GUISocketService.java:118-130 | the console-bound share of a send sequence distributes over concatenation |
| AudioHeuristic.RemoveSpeechClass | backend-server/src/main/java/org/example/agent/audio/evaluator/AudioHeuristic.java:60-62 | removing the class leaves no character of the class behind |
| AudioHeuristic.IsHumanLikeSpeech | backend-server/src/main/java/org/example/agent/audio/evaluator/AudioHeuristic.java:36-84 | rejects a UTF-16 length below 2, blank text, noise tokens, one repeated character and symbol-only text; acceptance needs a keyword, or a trimmed UTF-16 length of at least 6 with a Hangul syllable |
| AudioHeuristic.SpeechClassLength | backend-server/src/main/java/org/example/agent/audio/evaluator/AudioHeuristic.java:60-62 | nothing is removed exactly when no character is in the speech class |
| AudioHeuristic.KeywordAccepts | backend-server/src/main/java/org/example/agent/audio/evaluator/AudioHeuristic.java:65-72 | past every rejection, a distress keyword in the trimmed or space-free form accepts |
| AudioHeuristic.FallbackRule | backend-server/src/main/java/org/example/agent/audio/evaluator/AudioHeuristic.java:78-82 | without a keyword the answer is exactly: trimmed UTF-16 length >= 6 and a Hangul syllable present |
| AudioHeuristic.SupplementaryCountsTwice | backend-server/src/main/java/org/example/agent/audio/evaluator/AudioHeuristic.java:78-82 | a Hangul syllable and three emoji (four characters, seven UTF-16 units) pass the length-6 fallback |
| AudioHeuristic.NoiseRejects | backend-server/src/main/java/org/example/agent/audio/evaluator/AudioHeuristic.java:46-51 | a noise token in the lower-cased trimmed text rejects |
| AudioHeuristic.NoiseBeatsKeyword | backend-server/src/main/java/org/example/agent/audio/evaluator/AudioHeuristic.java:46-51 | noise wins over a distress keyword in the same transcript |
| AudioHeuristic.SpacedPleaAccepted | backend-server/src/main/java/org/example/agent/audio/evaluator/AudioHeuristic.java:65-72 | a plea split by spaces is recognised through its space-free form |
| AudioHeuristic.NoKeywordNoHangulRejected | backend-server/src/main/java/org/example/agent/audio/evaluator/AudioHeuristic.java:78-82 | without a keyword and without Hangul nothing is accepted, whatever the length |
| AudioHeuristic.UpperCaseHelpRejected | backend-server/src/main/java/org/example/agent/audio/evaluator/AudioHeuristic.java:68-72 | the keyword test is case-sensitive: "HELP ME" is not accepted |
| SttBuffer.NewBuffer | backend-server/src/main/java/org/example/agent/audio/SttBuffer.java:15-17 | a new buffer is empty and keeps the given window |
| SttBuffer.Evict | backend-server/src/main/java/org/example/agent/audio/SttBuffer.java:25-28 | removes only a prefix, every removed entry is expired, and the first survivor is not |
| SttBuffer.Add | backend-server/src/main/java/org/example/agent/audio/SttBuffer.java:19-29 | the loop computes the reference eviction of the buffer with the new entry at the tail |
| SttBuffer.Texts | backend-server/src/main/java/org/example/agent/audio/SttBuffer.java:31-33 | the texts of the entries, in insertion order |
| SttBuffer.Joined | backend-server/src/main/java/org/example/agent/audio/SttBuffer.java:34-36 | empty for no entries and the sole text for one |
| SttBuffer.NewestRetained | backend-server/src/main/java/org/example/agent/audio/SttBuffer.java:25 | with a non-negative window the new text is always the last entry |
| SttBuffer.NegativeWindowEmpties | backend-server/src/main/java/org/example/agent/audio/SttBuffer.java:25-28 | with a negative window even the new entry is evicted |
| SttBuffer.SurvivorsInWindow | backend-server/src/main/java/org/example/agent/audio/SttBuffer.java:25-28 | on a chronological buffer and a clock that does not go back, every survivor is within the window and order is kept |
| SttBuffer.JoinedAfterAdd | backend-server/src/main/java/org/example/agent/audio/SttBuffer.java:19-36 | when `add` evicts nothing, the joined text of the buffer it returns is the old joined text, ", " and the new text |
| DecisionDispatcher.ReadField | backend-server/src/main/java/org/example/service/DecisionDispatcher.java:26-38 | absent, readable as text, or unreadable, according to the member and its `getAsString` |
| DecisionDispatcher.GuiPart | backend-server/src/main/java/org/example/service/DecisionDispatcher.java:26-35 | one GUI_MESSAGE with the text exactly when it is non-blank |
| DecisionDispatcher.RobotPart | backend-server/src/main/java/org/example/service/DecisionDispatcher.java:38-47 | one TTS with the text exactly when it is non-blank |
| DecisionDispatcher.Dispatch | backend-server/src/main/java/org/example/service/DecisionDispatcher.java:18-48 | always logs; non-JSON throws and sends nothing; one GUI_MESSAGE iff `gui_message` is non-blank; one TTS iff the speech is non-blank and the GUI field read did not throw |
| DecisionDispatcher.AtMostOnePerChannel | backend-server/src/main/java/org/example/service/DecisionDispatcher.java:25-47 | at most one message per channel, GUI_MESSAGE to the console and TTS to the robot only |
| DecisionDispatcher.UnreadableGuiMessageSilencesSpeech | backend-server/src/main/java/org/example/service/DecisionDispatcher.java:26-35 | a JSON-null `gui_message` throws before the speech is read, so nothing is sent |
| DecisionEngine.Tick | backend-server/src/main/java/org/example/service/DecisionEngine.java:31-62 | asks exactly when a person is seen and 60 000 ms have passed, always as CONFIRMED_CONTACT; on success stamps call time and raw reply and dispatches once |
| DecisionEngine.CooldownAfterCall | backend-server/src/main/java/org/example/service/DecisionEngine.java:37 | after a completed call every tick within the next minute does nothing |
| DecisionEngine.FailureRetriesAtOnce | backend-server/src/main/java/org/example/service/DecisionEngine.java:56-59 | a failed call changes nothing, so the next tick asks again |
| MainLoop.JStr | backend-server/src/main/java/org/example/Main.java:14-17 | "" for a null object, absent key or JSON null; a non-empty answer is the member's string form |
| MainLoop.Request | backend-server/src/main/java/org/example/Main.java:51-66 | person passed as true, gas as the CO2 reading; RESCUE_GUIDE iff speech is present, else CONFIRMED_CONTACT |
| MainLoop.ReplySends | backend-server/src/main/java/org/example/Main.java:98-117 | one TTS to the robot iff `survivor_speech` is non-blank, one GUI_MESSAGE iff `gui_message` is non-blank |
| MainLoop.Tick | backend-server/src/main/java/org/example/Main.java:48-129 | asks exactly when the gate is open, stamping before asking; a failed call or unparsable reply sends nothing; a parsed reply object sends exactly its TTS and GUI_MESSAGE as `ReplySends` gives them |
| MainLoop.JStrIsLenientRead | backend-server/src/main/java/org/example/Main.java:14-17 | `jstr` equals the dispatcher's field reading with every failure turned into "" |
| MainLoop.FailureStartsCooldown | backend-server/src/main/java/org/example/Main.java:83-86 | a failed call still starts the cooldown here, while the engine's tick would ask again |
| MainLoop.AgreesWithDispatcher | backend-server/src/main/java/org/example/Main.java:98-117 | where both fields are readable, this tick and the dispatcher send the same texts on each channel |
| OpenAiParser.PrimitiveString | backend-server/src/main/java/org/example/openai/OpenAiParser.java:33-36 | a string answers itself; null, arrays and objects have no primitive string |
| OpenAiParser.ArrayAt | backend-server/src/main/java/org/example/openai/OpenAiParser.java:22-31 | missing iff the member is absent, items iff it is an array |
| OpenAiParser.ErrorOf | backend-server/src/main/java/org/example/openai/OpenAiParser.java:14-19 | an API error carries the readable `message`; anything else is malformed |
| OpenAiParser.Extract | backend-server/src/main/java/org/example/openai/OpenAiParser.java:10-37 | malformed unless a JSON object; a non-null `error` raises; a missing or empty `output` is NoOutput, a missing or empty `content` of an object `output[0]` is NoContent; on an error-free reply the result is exactly the primitive `text` of `output[0].content[0]` when there is one, and only then Extracted |
| OpenAiParser.ExtractWrap | backend-server/src/main/java/org/example/openai/OpenAiParser.java:33-36 | extraction recovers the text a minimal well-formed reply was built around |
| OpenAiParser.ErrorRules | backend-server/src/main/java/org/example/openai/OpenAiParser.java:14-19 | a JSON-null `error` is ignored; an error object raises with its message, a null code included |
| OpenAiParser.MissingCodeIsMalformed | backend-server/src/main/java/org/example/openai/OpenAiParser.java:14-19 | an error without `code` is not reported as an API error |
| OpenAiParser.EmptyContent | backend-server/src/main/java/org/example/openai/OpenAiParser.java:27-31 | an empty `content` is reported as missing content, not missing output |
| EnvLoader.FirstIndex | backend-server/src/main/java/org/example/config/EnvLoader.java:18 | none iff the character is absent; otherwise the position of its first occurrence |
| EnvLoader.ParseLine | backend-server/src/main/java/org/example/config/EnvLoader.java:15-21 | blank, comment and '='-free lines contribute nothing; others split at the first '=' |
| EnvLoader.Load | backend-server/src/main/java/org/example/config/EnvLoader.java:12-26 | an unreadable file gives the empty map; otherwise each key maps to its last definition and nothing else is present |
| EnvLoader.Get | backend-server/src/main/java/org/example/config/EnvLoader.java:28-30 | null (none) exactly for an absent key, otherwise the stored value |
| EnvLoader.KeyHasNoEquals | backend-server/src/main/java/org/example/config/EnvLoader.java:18-20 | a parsed key contains no '=' and is already trimmed |
| EnvLoader.ValueKeepsEquals | backend-server/src/main/java/org/example/config/EnvLoader.java:18-20 | " TOKEN = a=b= " parses to key TOKEN and value "a=b=" |
| EnvLoader.LaterLineWins | backend-server/src/main/java/org/example/config/EnvLoader.java:20 | a later definition of a key replaces an earlier one; other keys are untouched |
| EnvLoader.TrimIdempotent | backend-server/src/main/java/org/example/config/EnvLoader.java:15 | trimming twice is trimming once |
| DesktopInput.KeyCommand | desktop-client/src/main/java/org/example/MainFx.java:522-542 | exactly W, S, A, D and SPACE map to a drive command |
| DesktopInput.SendDriveCommand | desktop-client/src/main/java/org/example/MainFx.java:518-547 | one KEY line iff connected and a drive key; the line names the key's command |
| DesktopInput.KeyLinesDistinct | desktop-client/src/main/java/org/example/MainFx.java:523-527 | different commands give different KEY lines |
| DesktopInput.DeadZone | desktop-client/src/main/java/org/example/MainFx.java:646-648 | 0 below the threshold in magnitude, the value unchanged otherwise |
| DesktopInput.PollGamepad | desktop-client/src/main/java/org/example/MainFx.java:578-643 | nothing without pad or server; a PAD iff some filtered axis moved by >= 0.01, the memory moving only then; a zoom iff a button goes from released to pressed |
| DesktopInput.HeldButtonFiresOnce | desktop-client/src/main/java/org/example/MainFx.java:629-642 | holding a zoom button across two polls zooms once |
| DesktopInput.SteadyStickIsQuiet | desktop-client/src/main/java/org/example/MainFx.java:616-626 | repeating the sample just sent sends nothing |
| DesktopInput.ReleaseSendsZero | desktop-client/src/main/java/org/example/MainFx.java:610-626 | a stick released into the dead zone after a movement sends all zeros |
| DesktopInput.AdjustZoom | desktop-client/src/main/java/org/example/MainFx.java:764-771 | the zoom stays within [0.2, 10.0] for any multiplier, and equals the product when that is in range |
| DesktopInput.ApplyZooms | desktop-client/src/main/java/org/example/MainFx.java:629-637 | after any non-empty series of zoom steps the zoom is within [0.2, 10.0] |
| DesktopInput.ZoomSaturates | desktop-client/src/main/java/org/example/MainFx.java:766-768 | zooming in at the maximum and out at the minimum change nothing |
| LidarView.NumberOf | desktop-client/src/main/java/org/example/MainFx.java:433-438 | a value exactly for a JSON number |
| LidarView.DecodePoint | desktop-client/src/main/java/org/example/MainFx.java:427-444 | arrays shorter than 2 and non-array non-objects are skipped; a decoded point carries the elements' numbers |
| LidarView.DecodePoints | desktop-client/src/main/java/org/example/MainFx.java:425-446 | keeps at most one point per element, and one for each when all are well formed |
| LidarView.DecodeScan | desktop-client/src/main/java/org/example/MainFx.java:416-450 | a message without a `points` array is dropped; otherwise the points are the decoded elements and the pose defaults to 0.0 |
| LidarView.PairsRoundTrip | desktop-client/src/main/java/org/example/MainFx.java:430-434 | points written as [x, y] pairs decode back to themselves |
| LidarView.MalformedSkipped | desktop-client/src/main/java/org/example/MainFx.java:432-443 | malformed elements are skipped without disturbing the others |
| LidarView.AddScan | desktop-client/src/main/java/org/example/MainFx.java:733-762 | the cloud keeps the newest 20 000 points with the oldest dropped first, and the last scan is exactly this scan |
| LidarView.HugeScanReplaces | desktop-client/src/main/java/org/example/MainFx.java:754-757 | a scan of 20 000 points or more replaces the whole cloud by its newest 20 000 |
| LidarView.TwoScansKeepNewest | desktop-client/src/main/java/org/example/MainFx.java:745-757 | two scans in a row keep the newest 20 000 points of everything |
| LidarView.AddValue | desktop-client/src/main/java/org/example/MainFx.java:906-911 | the x index advances by one and the sample joins a window of at most 300 |
| LidarView.AddValueKeepsValid | desktop-client/src/main/java/org/example/MainFx.java:906-911 | at most 300 samples with strictly increasing x below the next index, and the new value is the newest |
| BlackBox.Clamp | desktop-client/src/main/java/org/example/BlackBoxPanel.java:423 | the result lies in the range, and equals the input when the input already does |
| BlackBox.DataTick | desktop-client/src/main/java/org/example/BlackBoxPanel.java:419-460 | nothing while paused; playing keeps temperature in [18, 32] and CO2 in [350, 700] for any draw, and each series is the newest 15 samples |
| BlackBox.DataTickConsistent | desktop-client/src/main/java/org/example/BlackBoxPanel.java:436-457 | each tick keeps both series' x values consecutive up to the counter, with the axis showing exactly them |
| BlackBox.PointsOnAxis | desktop-client/src/main/java/org/example/BlackBoxPanel.java:450-455 | in a consistent panel every plotted point lies inside the visible axis range |
| BlackBox.WalkStepBounded | desktop-client/src/main/java/org/example/BlackBoxPanel.java:422-426 | from in-range values a tick moves temperature by at most 1 and CO2 by at most 15 |
| BlackBox.SetSlider | desktop-client/src/main/java/org/example/BlackBoxPanel.java:195-200 | a changed slider value sets the video time to its integer part |
| BlackBox.Back | desktop-client/src/main/java/org/example/BlackBoxPanel.java:219 | the -5 s button keeps the slider within [0, 300] |
| BlackBox.Forward | desktop-client/src/main/java/org/example/BlackBoxPanel.java:228 | the +5 s button keeps the slider within [0, 300] |
| BlackBox.NextVideoTime | desktop-client/src/main/java/org/example/BlackBoxPanel.java:476-477 | counts up and wraps to 0 once past 300 |
| BlackBox.VideoTick | desktop-client/src/main/java/org/example/BlackBoxPanel.java:473-483 | nothing while paused; playing advances the clock and moves the slider to it |
| BlackBox.ClockCycles | desktop-client/src/main/java/org/example/BlackBoxPanel.java:473-483 | n ticks from t reach (t + n) mod 301 |
| BlackBox.ClockPeriod | desktop-client/src/main/java/org/example/BlackBoxPanel.java:476-477 | after 301 ticks the clock is back where it started |
| BlackBox.TogglePlayPause | desktop-client/src/main/java/org/example/BlackBoxPanel.java:462-471 | flips the playing flag and nothing else |
| BlackBox.Play | desktop-client/src/main/java/org/example/BlackBoxPanel.java:487-489 | afterwards the panel is playing and nothing else changed |
| BlackBox.Pause | desktop-client/src/main/java/org/example/BlackBoxPanel.java:491-493 | afterwards the panel is paused and nothing else changed |
| BlackBox.PlayPauseLaws | desktop-client/src/main/java/org/example/BlackBoxPanel.java:462-493 | play and pause are idempotent and toggling twice changes nothing |
| BlackBox.TimeLabel | desktop-client/src/main/java/org/example/BlackBoxPanel.java:196-199 | "m:ss": a colon before two digits of the seconds, and a one-digit minute below 600 s |
| BlackBox.LabelsAgree | desktop-client/src/main/java/org/example/BlackBoxPanel.java:193-208 | the initial 120 s reads "2:00" and the end 300 s reads "5:00" |
| JavaText.Trim | backend-server/src/main/java/org/example/config/EnvLoader.java:15 | the result is a slice with no trimmable character at either end, and empty exactly for all-trimmable input |
| JavaText.RemoveRegexSpace | backend-server/src/main/java/org/example/agent/audio/evaluator/AudioHeuristic.java:65 | no `\s` character remains |
| JavaText.Utf16Length | backend-server/src/main/java/org/example/agent/audio/evaluator/AudioHeuristic.java:37 | `length()` in UTF-16 units: between the number of characters and twice it, and equal to it exactly when no character lies beyond U+FFFF |
| JavaText.Utf16LengthAppend | backend-server/src/main/java/org/example/agent/audio/evaluator/AudioHeuristic.java:78 | the UTF-16 length of a concatenation is the sum of the lengths |
| JavaText.ToLowerAscii | backend-server/src/main/java/org/example/agent/audio/evaluator/AudioHeuristic.java:47 | same length; exactly the ASCII capitals change |
| Json.TruncateToInt | desktop-client/src/main/java/org/example/BlackBoxPanel.java:196 | rounds toward zero |
| Json.ParseLong | backend-server/src/main/java/org/example/state/StateUpdater.java:79 | `Long.parseLong`: defined exactly on an optional sign followed by ASCII digits, with the sign of the result following the text |
| Json.AsInt | backend-server/src/main/java/org/example/service/FollowController.java:46 | a number reads as its value truncated toward zero, a string as its decimal parse; null, booleans and objects fail |
| Json.ParseLongOfLexeme | backend-server/src/main/java/org/example/state/StateUpdater.java:79 | the decimal text of any integer parses back to that integer, so a `ts` or `w` sent as text reads like the number |
| Json.AsBool | backend-server/src/main/java/org/example/state/StateUpdater.java:72 | a boolean reads as itself, a number as false, null and objects fail |
| Json.AsString | backend-server/src/main/java/org/example/state/StateUpdater.java:18 | a string reads as itself and a number as its lexeme; null and objects fail |
| Capped.PushAll | desktop-client/src/main/java/org/example/MainFx.java:906-911 | pushing elements one at a time keeps the same window as taking the newest of everything |
| Capped.NewestAppend | desktop-client/src/main/java/org/example/MainFx.java:754-757 | trimming to the newest before appending does not change the newest of the whole |

## Left out

- Text-to-JSON parsing (Gson `JsonParser`, org.json) is not modelled. A line arrives with its parse result, or `None` when it is not JSON.
- Sockets, threads, accept loops, `PrintWriter` flushing and `Platform.runLater` are not modelled. A connection is an id, and a channel's state is its current id and the set of closed ids. Concurrent interleavings are modelled only as sequences of accept and exit events.
- Database and log persistence are not modelled. This covers `saveImage`, the decision log repository and `System.out` lines; a dispatch returns its log record instead.
- JPEG decoding (`ImageIO`) is not modelled: the frame size is a parameter of the image pipeline.
- The vision server, `AgentService`, `OpenAiClient` and the LLM are not modelled. Their answers are parameters (`Answered` / `Failed`). The prompt text itself is not built; the model keeps the phase, the flags and the escaping rule `q` it relies on.
- Rendering, layout, styling and JavaFX properties are not modelled. The LiDAR rotation and translation into map coordinates (trigonometry on doubles) are also out: `LidarView.AddScan` takes the transformed points as given.
- Randomness (`Random.nextDouble` in the black-box panel) enters as draws in [0, 1) passed to each step.
- Each step reads the clock once (`now`). Two reads within one Java method are taken as equal.
- Doubles and floats are unbounded reals, with no rounding, NaN or infinity. Java `long` arithmetic does not overflow. `readInt` is modelled as a 32-bit two's-complement value; other `int` values are unbounded.
- String case folding and regular expressions are modelled for ASCII and the explicit character classes only. A Dafny `char` is a Unicode scalar value, so a character beyond U+FFFF is one character where Java holds two UTF-16 units. `JavaText.Utf16Length` restores Java's count where the relay compares `length()` (the speech heuristic); elsewhere only whole strings are compared or copied.
- The older `service/` generation of the socket and state classes, the `agent/` orchestration, and the Python robot and AI scripts are not part of this model.
- The slider's mouse-press handler (BlackBoxPanel.java:202-206) toggles only while playing, so it is exactly `BlackBox.Pause`. It has no member of its own.
- Json.AsDouble: a numeric string counts as unreadable, although Gson's `getAsDouble` parses it.
- Json.AsInt: no 32- or 64-bit range or overflow check, and only ASCII digits are parsed, whereas `Integer.parseInt` also accepts other Unicode digits.
- LidarView.NumberOf: a numeric string counts as malformed, although org.json's `getDouble` parses it. LiDAR points are accepted only as JSON numbers.
- JavaText.ToLowerAscii: lower-cases ASCII letters only, whereas `toLowerCase` also folds non-ASCII letters.
- SttBuffer.SurvivorsInWindow: stated only for entries added in time order with a clock that does not go back; the buffer itself evicts only from the front.
- LidarView.AddScan: the points are taken already transformed by the robot pose.
- DesktopInput.PollGamepad: stick values are reals, not 32-bit floats.
- BlackBox.DataTick: the readings are reals, not doubles.
