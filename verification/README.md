# Gateway protocols and reconcilers

A Dafny model of the small stateful protocols inside the camera gateway, and proofs about every run of
them. Each module follows one source file; a class stands for an object or module whose fields the
source updates in place, its methods are tied to a function on values, and the `...Laws` module beside it
proves what the source promises about that function: over every run, every interleaving or every input.

| files | what they model |
|---|---|
| `ClickToDepth.dfy` | the click-to-depth round trip as one state machine: browser tabs, relay topic, sink, event streams, and networks that lose, repeat and reorder |
| `Relay.dfy`, `DepthTab.dfy`, `DepthHub.dfy` | its three programs: per-topic queue and worker, pending queries and timers, per-session queues |
| `Firewall.dfy`, `FirewallLaws.dfy` | the INPUT chain reconciler, first-match semantics, every intermediate chain |
| `RateLimit.dfy`, `RateLimitLaws.dfy` | the token-bucket limiter with eviction |
| `Allocator.dfy`, `AllocatorLaws.dfy` | mountpoint ids and RTP port pairs over the state file |
| `Template.dfy`, `EnvFiles.dfy`, `Frames.dfy` | transformations that must keep meaning: placeholder substitution, env-file printing and parsing, frame rotation against coordinate mapping |
| `Quiesce.dfy`, `ModeEnforcer.dfy`, `ModeOverlap.dfy`, `AuditLog.dfy`, `JanusSweep.dfy` | fault handling: the quiesce gate, operating modes and the encoder, log rotation, the mountpoint sweep |
| `Options.dfy`, `Decimal.dfy` | optional values; numbers as text, texts joined by a colon |

`dafny verify dfyconfig.toml` checks everything.

## Where the code falls short of its own description

These are proved of the code as it is, each with a concrete input or with the exact condition:

- The relay acknowledges a rate-limited or repeated message twice (`textroom_relay.py:227`, `:232` and
  `:277`). The second acknowledgement is at some point one too many; it raises inside `finally`, and the
  topic's worker is gone: `RelayLaws.TwoClicksKillTheWorker`, `RelayLaws.AliveIff`. Both the code
  as written and the single acknowledgement that the comments intend are modelled, and the queue,
  accounting, order and pacing laws hold of both.
- The firewall diff compares tags only, so a moved host under an unchanged tag is not repaired
  (`MovedHostNotRepaired`); the very first apply drops the whole range before it lets anything in
  (`FirstApplyHasAWindow`); a lost backstop comes back above the ACCEPTs that were kept
  (`LostBackstopIff`).
- Mode listeners run after the lock is released, so their calls can overtake each other and overlap: SAFE
  can end with a running encoder, and a history entry can be lost (`OvertakenSafeStreams`,
  `OverlappingCallsStream`). What holds in every interleaving is `OverlapLaws.AtRestIff`; for calls one at
  a time, `SafeAtRestIff`.
- A recovery restarts the encoder without asking for the mode (`app/services/recovery_executor.py:158-164`).
  After a SAFE call it streams in SAFE (`RecoveryStreamsInSafe`), and since a promotion straight to NOMINAL
  does not restart a running encoder, the stale profile survives that (`StaleProfileAtRest`). The exact
  condition is `ModeLaws.AtRestIff`; `AtRest` holds if nobody restarts while SAFE is enforced.
- A status query without an answer reads as inactive, so SAFE then does not try to stop a running encoder
  (`EnforceHonoursIff`).
- The allocator's health probe calls a missing or blank file, or one without an `allocations` key, healthy
  or missing, while the write path tries to quarantine it (`ReadsAndWritesAgree`).
- The limiter forgets idle clients. Where its cleanup period does not refill a bucket, forgetting shows and
  lets a client overdraw its window (`EvictionUnobservableIff`, `WindowBoundIff`).
- Substitution is order-dependent when a value or a literal between two placeholders is a placeholder name
  (`ValueCanBeAName`, with the exact condition in `EveryStepFillsIff`).
- A `quiesced` block with a time that is not positive disarms without having armed, and takes whatever arm
  is there when it exits (`BlockEndsAnother`, with the exact condition in `BlockIsNeutralIff`).
- Log rotation with no backups to keep overwrites one (`NoBackupsOverwrites`); the instance-name pattern
  accepts a final line feed (`LineFeedIsValidIff`); the `flip` rotation agrees with
  quarter turns, and so with the browser's mapping, only on symmetric frames (`FlipIsTurnIff`,
  `FlippedSourceIff`); `read_env` is stable under a
  rewrite only for clean values (`RewriteNotStable`, `RewriteStableIff`); the `_legacy` bucket can receive
  (`LegacyCanReceive`).

## Model

| member | source | states |
|---|---|---|
| RateLimit.TokenBucket.Consume | app/middleware/rate_limit.py:53-67 | Refills by elapsed time up to the capacity and spends one token exactly when a whole one is there |
| RateLimit.Limiter.Cleanup | app/middleware/rate_limit.py:80-87 | Past the cleanup period, forgets exactly the clients idle longer than it; keeps every other bucket object |
| RateLimit.Limiter.BucketFor | app/middleware/rate_limit.py:89-93 | A known client keeps its bucket; a new one gets a full bucket; nobody else is touched |
| RateLimit.Limiter.RequireRateLimit | app/middleware/rate_limit.py:75-103 | One dependency call: cleanup, lookup, spend; the table and the decision after it as one step of the specification |
| RateLimitLaws.SpendIs | app/middleware/rate_limit.py:59-67 | A bucket left alone for a time holds min(burst, tokens + rate x time); a request is admitted exactly when that is at least one, and costs one |
| RateLimitLaws.StepKeepsSane | app/middleware/rate_limit.py:59-67 | Every step of every client keeps all token counts in [0, burst] |
| RateLimitLaws.EvictionUnobservableIff | app/middleware/rate_limit.py:27-33 | The limiter that forgets makes the same decisions as one that never does, over every multi-client run on a monotone clock, if and only if a cleanup period refills a bucket (or the capacity admits nobody) |
| RateLimitLaws.DefaultsUnobservable | app/middleware/rate_limit.py:27-33 | Both default configurations satisfy that condition |
| RateLimitLaws.EvictionShows | app/middleware/rate_limit.py:80-87 | When a cleanup period does not refill a bucket, a run on which the two limiters differ |
| RateLimitLaws.KeptWindowBound | app/middleware/rate_limit.py:53-67 | A limiter that never forgets admits one client at most burst + rate x window length in any window of any run, among any other clients |
| RateLimitLaws.WindowBoundIff | app/middleware/rate_limit.py:53-87 | The limiter as it is, which forgets, keeps that bound in every window of every run if and only if a cleanup period refills a bucket, or the capacity is below one |
| RateLimitLaws.ForgettingOverdraws | app/middleware/rate_limit.py:80-87 | For every other configuration, a run that overdraws: drain, idle until forgotten, drain again |
| RateLimitLaws.DefaultsBounded | app/middleware/rate_limit.py:27-33 | Both default configurations keep the bound |
| RateLimitLaws.PacedNeverRefused | app/middleware/rate_limit.py:59-67 | With burst at least 1, a client whose requests are at least 1/rate apart is never refused |
| Firewall.DesiredRules | app/services/firewall_sync.py:62-82 | Two ACCEPTs for each remote binding whose node has a host, then the one range DROP |
| Firewall.Reconciler.DeleteStale | app/services/firewall_sync.py:166-175 | Deletes, in chain order, exactly the tagged rules that one listing shows as stale |
| Firewall.Reconciler.ApplyPlan | app/services/firewall_sync.py:149-175 | The commands one apply issues, in order, and the chain they leave |
| Firewall.Reconciler.Reconcile | app/services/firewall_sync.py:128-177 | The plan diffs desired against current tags; a dry run changes nothing |
| FirewallLaws.AcceptRulesAre | app/services/firewall_sync.py:62-82 | The desired ACCEPTs are exactly the RTP and RTCP ports of remote bindings of nodes with a host, from that host |
| FirewallLaws.TagsNameRules | app/services/firewall_sync.py:53-60 | Within one configuration a tag determines its rule |
| FirewallLaws.TagTextsTellApart | app/services/firewall_sync.py:58-60 | Comparing the comment texts is comparing binding and port, whatever a binding is called |
| FirewallLaws.ShapedVerdict | app/services/firewall_sync.py:149-165 | In a chain of tagged ACCEPTs, one backstop, then foreign rules, the tagged rules alone decide every packet of the remote range, whatever lies below |
| FirewallLaws.OutsideIsPassedOn | app/services/firewall_sync.py:79-82 | The range is UDP 5100 to 6699: any other packet that no tagged ACCEPT matches is decided as if the reconciler had no rules |
| FirewallLaws.StaysShaped | app/services/firewall_sync.py:149-175 | That shape holds in every intermediate chain of an apply, from the first command on |
| FirewallLaws.MidwayRules | app/services/firewall_sync.py:149-175 | No intermediate chain loses a kept rule or holds a rule that is neither old nor wanted; additions end before removals begin |
| FirewallLaws.TagsConverge | app/services/firewall_sync.py:134-177 | From any chain at all, one apply leaves exactly the desired tags |
| FirewallLaws.SecondPlanIsNoop | app/services/firewall_sync.py:119-126 | A second plan right after an apply is empty and issues nothing |
| FirewallLaws.RunsStayShaped | app/services/firewall_sync.py:128-177 | From a chain with no tagged rule, every sequence of applies with changing bindings keeps the shape and ends with the last tags |
| FirewallLaws.ExactIffNoneMoved | app/services/firewall_sync.py:136-139 | An apply installs exactly the desired rules if and only if no tag already present carries an outdated rule |
| FirewallLaws.AlwaysExactIff | app/services/firewall_sync.py:128-177 | Every apply of a run installs exactly the desired rules if and only if consecutive configurations agree on the tags they share |
| FirewallLaws.StableRunsAreExact | app/services/firewall_sync.py:128-177 | A run whose consecutive configurations agree on shared tags ends with exactly the desired rules; a node may leave and come back elsewhere |
| FirewallLaws.OnlyOwnNodesGetIn | app/services/firewall_sync.py:128-177 | After every such run a UDP packet of the remote range is accepted exactly when its source and port are desired, and dropped otherwise, whatever foreign rules and policy say |
| FirewallLaws.NoDropWindowIff | app/services/firewall_sync.py:149-175 | A packet accepted before an apply is accepted in every intermediate chain if and only if a rule that accepts it survives the apply |
| FirewallLaws.RetaggingDropsNothing | app/services/firewall_sync.py:149-175 | With no host moved, a flow in the chain and still desired, under whatever tag, is accepted in every intermediate chain |
| FirewallLaws.MovedHostNotRepaired | app/services/firewall_sync.py:136-139 | A change of hosts under unchanged tags is not repaired: the plan is empty and the old flows stay in force |
| FirewallLaws.HostsDoMove | app/services/firewall_sync.py:136-139 | Such a change: one node gets a new address |
| FirewallLaws.FirstApplyHasAWindow | app/services/firewall_sync.py:149-165 | On a chain with no tagged rule, the first command drops every packet of the range, desired or not |
| FirewallLaws.LostBackstopIff | app/services/firewall_sync.py:155-165 | A chain that lost its backstop is shaped again after an apply if and only if none of its tags is still wanted |
| Allocator.FindFree | app/services/mountpoint_allocator.py:187-202 | The two scans find the lowest free id and the lowest free even port pair, or say which pool is exhausted |
| Allocator.Store.Allocate | app/services/mountpoint_allocator.py:222-244 | Idempotent per key; otherwise records the lowest free id and pair, or raises leaving the file as it was |
| Allocator.Store.Ensure | app/services/mountpoint_allocator.py:247-278 | Registers a given id and pair, refusing any clash with another key; a refusal or an unreadable file leaves the file as it was |
| Allocator.Store.MigrateColorKey | app/services/mountpoint_allocator.py:107-127 | Moves the legacy record to the serial key unless that is held; an unreadable file stays as it was |
| AllocatorLaws.PickIsFree | app/services/mountpoint_allocator.py:187-202 | What is picked clashes with nothing held and nothing lower was free |
| AllocatorLaws.AllocateRecords | app/services/mountpoint_allocator.py:222-244 | What allocation returns is recorded under its key, new ones with the flag down, a free id and a free pair; every other key stays, and a second call returns the same and changes nothing |
| AllocatorLaws.EnsureRecords | app/services/mountpoint_allocator.py:247-278 | The same for the id and port asked for; refused if and only if another key is in the way, and then nothing changes |
| AllocatorLaws.OthersRecord | app/services/mountpoint_allocator.py:281-309 | Setting the flag, releasing and migrating: what each answers and what is recorded after it |
| AllocatorLaws.KeysTellApart | app/services/mountpoint_allocator.py:94-95 | Different cameras or sensors have different keys, unless a sensor's name has a colon |
| AllocatorLaws.RunsStayDisjoint | app/services/mountpoint_allocator.py:171-184 | Over every run of operations, on readable, missing and damaged files and through unreadable moments, distinct keys hold distinct ids and disjoint RTP/RTCP pairs |
| AllocatorLaws.HandedOutApart | app/services/mountpoint_allocator.py:222-278 | Over every run, what two calls return under different keys, the first not taken away in between, differs in id and shares no port |
| AllocatorLaws.HeldUntilRemoved | app/services/mountpoint_allocator.py:222-309 | A held key keeps id and ports through every operation but its own release or migration, and through unreadable moments; its flag is the last one set |
| AllocatorLaws.MigrationCarriesRecord | app/services/mountpoint_allocator.py:107-127 | Migration carries the whole record, touches nothing else, and a second one does nothing |
| AllocatorLaws.AllocateSucceedsIff | app/services/mountpoint_allocator.py:222-244 | For a new key, allocation succeeds if and only if some id and some even-aligned pair are free |
| AllocatorLaws.RoomLeft | app/services/mountpoint_allocator.py:50-53 | Fewer than 24 held pairs always leave room, fewer than 47 if all are even-aligned |
| AllocatorLaws.BoundsAreTight | app/services/mountpoint_allocator.py:50-53 | 24 odd-aligned or 47 even-aligned disjoint pairs exhaust the pool with ids to spare |
| AllocatorLaws.ReadsAndWritesAgree | app/services/mountpoint_allocator.py:130-168 | Writes start from what reads report; the health probe and the quarantine disagree exactly on a missing file, a blank file and one without `allocations` |
| Template.Apply | app/services/jcfg_renderer.py:153-158 | One `str.replace` after another over the dict |
| TemplateLaws.OneReplacementIff | app/services/jcfg_renderer.py:153-158 | One replacement fills exactly the holes of its name if and only if the name is not a literal between two holes, the left one of another name |
| TemplateLaws.EveryStepFillsIff | app/services/jcfg_renderer.py:153-158 | From every partly filled template, every next replacement fills exactly its holes, if and only if no name is ever the text between two remaining holes in that way |
| TemplateLaws.AnyOrderFillsAll | app/services/jcfg_renderer.py:153-158 | Under that condition, sequential replacement in any order equals filling all holes at once |
| TemplateLaws.UnambiguousIsEnough | app/services/jcfg_renderer.py:127-150 | It is enough that no stretch of literals and values between two holes is a name |
| TemplateLaws.OrderIrrelevant | app/services/jcfg_renderer.py:127-158 | Two orders of the same dict render the same text |
| TemplateLaws.RenderedIsFinal | app/services/jcfg_renderer.py:153-158 | A rendered text contains no known placeholder anywhere and rendering it again changes nothing |
| TemplateLaws.ValueCanBeAName | app/services/jcfg_renderer.py:153-158 | Values and literals without `@` are not enough: a value equal to a name makes the order matter |
| Frames.CameraService.UpdateDepth | realsense_mux.py:88-96 | Stores the scaled frame, rotated, and turned by half if so configured |
| Frames.CameraService.GetDepth | realsense_mux.py:124-142 | The pixel read is, on each axis, the nearest to the coordinate, mirrored or not, the even one of two, and the end for a coordinate outside [0, 1]; always in bounds |
| FrameLaws.MirrorRound | realsense_mux.py:124-142 | Rounding the mirrored coordinate equals mirroring the rounded one except at ties on an odd maximum, and then differs by one |
| FrameLaws.StoredIsTurned | realsense_mux.py:88-96 | The stored frame is the sensor frame, upside down in the `flip` mode, turned by the quarter turns its settings add up to |
| FrameLaws.StoredPixel | realsense_mux.py:35-42 | The sensor pixel behind every stored pixel, for each rotation, with or without the half turn |
| FrameLaws.BrowserUnturns | templates/depth_features.js:159-173 | The browser maps a click back through exactly the sum of both rotations, for negative angles too |
| FrameLaws.UnturnsCompose | templates/depth_features.js:159-173 | Undoing two rotations one after the other is undoing their sum |
| FrameLaws.ClickReadsSensorPixel | templates/depth_features.js:159-173 | The pixel under a click came from the sensor pixel at the mapped coordinate, except that a tie on a mirrored even-sized axis moves that one index by one |
| FrameLaws.RotatedFrameAnswersAlike | templates/depth_features.js:121-173 | Sampling the rotated frame at the click and the sensor frame at the mapped click read the same value, all indices in bounds, unless such a tie is hit |
| FrameLaws.FlipIsTurnIff | realsense_mux.py:35-42 | The `flip` mode shows a frame as k quarter turns would if and only if the frame has the matching mirror symmetry |
| FrameLaws.FlippedSourceIff | templates/depth_features.js:159-173 | Which pixels the mapping for k turns still gets right in that mode: exactly a middle row, a middle column, or a diagonal of a square |
| FrameLaws.StoredFlipIsTurnIff | realsense_mux.py:88-96 | The same for what the service stores, with or without the configured half turn |
| Quiesce.QuiesceGate.Quiesce | app/services/fdir_quiesce.py:50-66 | The first arm sets the clamped deadline; later arms add domains and never move it |
| Quiesce.QuiesceGate.Unquiesce | app/services/fdir_quiesce.py:69-77 | The last disarm clears everything |
| QuiesceLaws.ArmedGate | app/services/fdir_quiesce.py:50-77 | In every run an armed gate has the deadline of the arm that began its epoch and the domains named since |
| QuiesceLaws.SuppressedIff | app/services/fdir_quiesce.py:44-77 | In every run, a domain is suppressed if and only if the epoch's first arm has not reached its clamped deadline and some arm of the epoch named it |
| QuiesceLaws.EpochUnique | app/services/fdir_quiesce.py:50-77 | An epoch has one first arm |
| QuiesceLaws.EpochBound | app/services/fdir_quiesce.py:50-66 | No suppression 120 s or more after an epoch's first arm, however it is nested or chained |
| QuiesceLaws.ClearedIffBalanced | app/services/fdir_quiesce.py:69-77 | Without surplus disarms, the gate is cleared if and only if arms and disarms balance |
| QuiesceLaws.BlockIsNeutralIff | app/services/fdir_quiesce.py:79-87 | With anything going on while it is open, a `quiesced` block leaves the count alone if and only if its time is positive and no surplus disarm took its arm, or nobody holds an arm at its exit; otherwise its exit takes another caller's arm |
| QuiesceLaws.BlockAmongBalancedIff | app/services/fdir_quiesce.py:79-87 | Among callers who disarm only what they armed: if and only if its time is positive or nobody holds an arm at its exit |
| QuiesceLaws.BlockEndsAnother | app/services/fdir_quiesce.py:79-87 | A block entered with no time at an idle gate ends the suppression another caller armed meanwhile |
| AuditLog.AuditDir.MoveBackups | app/services/audit_log.py:37-51 | The descending loop, wherever it fails; no rename hits an occupied slot, whatever gaps the numbering has |
| AuditLog.AuditDir.RotateIfNeeded | app/services/audit_log.py:37-55 | Rotates exactly when the live file has reached the size; a failure leaves the slots above it moved; overwrites only with no backups to keep |
| AuditLog.AuditDir.Emit | app/services/audit_log.py:91-98 | Rotation, whole or failed, then the line at the end of the live file, if it can be appended |
| AuditLaws.EmitIs | app/services/audit_log.py:37-98 | Slot by slot, what is there after an emit in which nothing fails |
| AuditLaws.EmitConserves | app/services/audit_log.py:91-98 | Whatever fails: old content and what was appended equal what was lost and what is there now; only the oldest backup is ever lost |
| AuditLaws.RunConserves | app/services/audit_log.py:37-98 | Over every run from every directory, with failures anywhere, what is there is a suffix of everything there was and was written, and the missing front is the dropped oldest backups in order |
| AuditLaws.Retention | app/services/audit_log.py:37-55 | From an empty directory, when nothing fails: at most the maximum of backups, no file over the size plus a line, and either nothing lost or the maximum of full files kept |
| AuditLaws.NeverAboveKeep | app/services/audit_log.py:37-55 | Whatever fails, no backup is ever numbered above the maximum |
| AuditLaws.NoBackupsOverwrites | app/services/audit_log.py:37-55 | With zero backups to keep, the live file overwrites backup 1 and one backup stays |
| EnvFiles.ReadEnvFile | app/services/encoder_env.py:39-55 | Line by line over the text's lines; a missing file reads as empty; the store's reader is the same loop with its own value rule |
| EnvFiles.WriteEnvAtomic | app/services/env_store.py:31-33 | One `key=value` line per entry, in order |
| EnvFiles.EnvDir.WriteEnvFiles | app/services/encoder_env.py:58-90 | Refuses a bad instance name; otherwise replaces exactly the two files and leaves no temporary |
| EnvLaws.ParsesToKey | app/services/encoder_env.py:45-52 | A clean key's line parses to that key and the value as its reader sees it |
| EnvLaws.RoundTripIff | app/services/encoder_env.py:39-90 | For each writer and reader: everything comes back if and only if every key is clean, every value stays on its line, and every value survives alone |
| EnvLaws.StoreRoundTripIff | app/services/env_store.py:13-55 | `read_env` after `write_env_atomic` is the identity if and only if every key is clean and every value has no line break, outer space or outer quote |
| EnvLaws.QuotedRoundTripIff | app/services/encoder_env.py:39-90 | Quoted lines give back every value exactly, quotes and outer spaces included, if and only if keys are clean and no value has a line break |
| EnvLaws.PairGoes | app/services/encoder_env.py:49-51 | One pair of equal quotes of either kind around a value goes, and a quote alone reads as nothing; every other value on one line reads as itself if and only if it is not so quoted |
| EnvLaws.TuningRoundTripIff | app/services/encoder_env.py:67-80 | The tuning file reads back as exactly the operator's settings if and only if no text setting has a line break, even under an instance name that ends in a line feed |
| EnvLaws.TuningReadsBack | app/services/encoder_env.py:67-80 | Key by key: each text under its own key, and under each number's key digits that denote that number |
| EnvLaws.ContractRoundTrip | app/services/encoder_env.py:81-83 | The contract file always reads back as its port, in digits that denote it |
| EnvLaws.LineFeedIsValidIff | app/services/encoder_admin.py:18 | A name followed by one line feed is valid exactly when the name is; two are never |
| EnvLaws.ValidNameIs | app/services/encoder_admin.py:18 | A name without line breaks is valid exactly when it is 1 to 32 letters, digits, underscores and hyphens and starts with a letter or digit |
| EnvLaws.ReadersAgreeOnQuotedIff | app/services/env_store.py:39-55 | On quoted files the two readers agree if and only if no value has quotes of its own at its ends |
| EnvLaws.ReadersAgreeOnCleanStore | app/services/env_store.py:39-55 | On the store's clean files the two readers agree |
| EnvLaws.RewriteNotStable | app/services/env_store.py:54-54 | A value that reads differently after being read and rewritten |
| EnvLaws.RewriteStableIff | app/services/env_store.py:13-55 | Whatever the text, rewriting what was read reads the same again if and only if every value read is clean |
| ModeEnforcer.Enforcer.OnModeTransition | app/services/mode_enforcer.py:42-77 | What one call alone leaves of profile file, encoder and history, whichever of its queries, commands and writes fail |
| ModeSteps.AloneIsEnforce | app/services/mode_enforcer.py:42-77 | The steps of a call that nothing interrupts add up to exactly that |
| ModeLaws.DecideIs | app/services/system_mode.py:204-254 | Commits are real changes; degrading stops exactly at SAFE; promotion only upwards |
| ModeLaws.ProfilesAre | app/services/mode_enforcer.py:202-230 | Which profile is on file after each mode is enforced: low at 15 fps and 1500 kbps, local at 15 and 2000, none, or the one before |
| ModeLaws.CommandsAre | app/services/mode_enforcer.py:42-77 | What one call does to the encoder when nothing fails: stops it for SAFE, else starts or restarts it with the profile on file, but for a running one on a promotion straight from SAFE |
| ModeLaws.EnforceHonoursIff | app/services/mode_enforcer.py:42-77 | From any world and with any failures, exactly when enforcing a change establishes its mode; an unanswered status query keeps SAFE from stopping anything |
| ModeLaws.HonouredAfterCallIff | app/services/mode_enforcer.py:42-77 | When nothing fails, exactly which modes hold right after a call |
| ModeLaws.HonouredIffNoneStray | app/services/mode_enforcer.py:56-73 | Calls one at a time in commit order, nothing failing, crashes and restarts anywhere: the enforced mode is honoured if and only if no encoder is stray, that is, restarted under SAFE and neither stopped nor restarted since |
| ModeLaws.AtRestIff | app/services/mode_enforcer.py:56-73 | So at rest the current mode is honoured if and only if no encoder is stray |
| ModeLaws.InOrderRunsHonour | app/services/mode_enforcer.py:42-77 | Under the hypothesis that nobody restarts the encoder while SAFE is enforced: the enforced mode is honoured in every such run, and is the current one when no call is outstanding |
| ModeLaws.AtRest | app/services/mode_enforcer.py:42-77 | Under the same hypothesis, at rest: SAFE means stopped, and a running encoder has loaded the current mode's profile |
| ModeLaws.StoppedIff | app/services/mode_enforcer.py:80-152 | Calls one at a time in any order, crashes and restarts anywhere: the encoder is stopped if and only if a crash or a SAFE call was the last to touch it |
| ModeLaws.StoppedIffLastCallSafe | app/services/mode_enforcer.py:80-124 | The same without outages: if and only if the last call to run was for SAFE |
| ModeLaws.RestartStaysStoppedIff | app/services/recovery_executor.py:158-164 | Had the recovery asked for the enforced mode, which it does not: its next restart would leave the encoder stopped if and only if the last call was for SAFE |
| ModeLaws.SafeAtRestIff | app/services/system_mode.py:169-201 | SAFE at rest, calls one at a time in any order: nothing streams if and only if a crash or a SAFE call was the last to touch the encoder; without outages, if and only if the last call was for SAFE |
| ModeLaws.AnyOrderRuns | app/services/mode_enforcer.py:233-254 | Calls one at a time, in any order and with any failures: the history file holds the last fifty changes that could be written |
| ModeLaws.HistoryIsCommitted | app/services/mode_enforcer.py:233-254 | In order, history is the last fifty committed changes |
| ModeLaws.OvertakenSafeStreams | app/services/system_mode.py:169-201 | Listeners run after the lock is released: two steps down whose calls swap leave SAFE with a running encoder |
| ModeLaws.RecoveryStreamsInSafe | app/services/recovery_executor.py:158-164 | A recovery restart after the SAFE call streams in SAFE |
| ModeLaws.StaleProfileAtRest | app/services/mode_enforcer.py:58-65 | A restart between a promotion to NOMINAL and its call leaves NOMINAL at rest with an encoder under the degraded profile |
| OverlapLaws.HonouredIff | app/services/system_mode.py:169-201 | Calls overlapping step by step, with any failures and outages: at any moment, exactly when a mode is honoured, by the last profile write and the last encoder command to take effect |
| OverlapLaws.AtRestIff | app/services/system_mode.py:169-201 | At rest after any order and overlap: a running encoder has the current mode's profile, and SAFE none, if and only if the last start or stop to take effect fits the current mode |
| OverlapLaws.WriteAddsIff | app/services/mode_enforcer.py:233-254 | A history write adds its change to the file as it is if and only if what the call read is still there, as far as it is kept |
| OverlapLaws.HistoryIsKept | app/services/mode_enforcer.py:233-254 | With no other kind of write, the history file holds the last fifty changes written, whatever overlaps |
| OverlapLaws.OneAtATime | app/services/system_mode.py:169-201 | Runs of calls one at a time are the overlapping runs in which the steps of a call follow each other |
| OverlapLaws.OverlappingCallsStream | app/services/mode_enforcer.py:42-77 | Two overlapping calls, nothing failing, the SAFE one last to finish: SAFE streams, and the other change is missing from the history |
| JanusSweep.Gateway.EnsureJanus | app/services/binding_provision.py:81-102 | Creates a missing mountpoint; judges an existing one by its listed port; other errors fail or escape |
| JanusSweep.Gateway.ReconcileExisting | app/services/binding_provision.py:60-78 | Conflict exactly on a known other port; an unlistable Janus counts as existing; a port that is no number raises |
| JanusSweep.Gateway.ReconcileJanus | app/services/binding_provision.py:118-175 | The sweep over all bindings: live mountpoints, counts and outcomes |
| JanusSweepLaws.SweepTouches | app/services/binding_provision.py:141-169 | Whatever fails, a sweep removes and alters nothing and creates only wanted ids, none below the remote range |
| JanusSweepLaws.CreatedOnItsPort | app/services/binding_provision.py:141-169 | What a sweep creates is on the port of a remote binding that is desired up and has that id, 2000 or above |
| JanusSweepLaws.SkippedAreStopped | app/services/binding_provision.py:141-149 | Skipped counts exactly the remote bindings that are stopped or below the remote range |
| JanusSweepLaws.HasOutcomeIff | app/services/binding_provision.py:141-169 | A binding has an outcome if and only if it is remote, desired up and in the remote range |
| JanusSweepLaws.OutcomeIs | app/services/binding_provision.py:60-102 | The outcome and the mountpoint of every wanted binding, from what was live before and its own fault |
| JanusSweepLaws.CountsPartition | app/services/binding_provision.py:139-175 | The counts split the remote bindings and each is the number of outcomes of its kind |
| JanusSweepLaws.Isolated | app/services/binding_provision.py:158-170 | A binding's outcome and mountpoint depend on its own id's entry and its own fault only |
| JanusSweepLaws.SweepProvides | app/services/binding_provision.py:118-175 | Every wanted binding is live after a sweep unless its own create failed, even with shared ids |
| JanusSweepLaws.SecondSweepCreatesNone | app/services/binding_provision.py:122-123 | If no create failed, a second sweep creates nothing and changes nothing, whatever fails in it |
| JanusSweepLaws.RecoversAfterLoss | app/services/binding_provision.py:122-127 | After any loss, a fault-free sweep restores each wanted binding on its own port, and leaves and reports those live on another |
| JanusSweepLaws.RestartRestoresExactly | app/services/binding_provision.py:122-127 | After a Janus restart the live mountpoints are exactly the wanted ones |
| JanusSweepLaws.FaultFreeOkIff | app/services/binding_provision.py:105-115 | A fault-free sweep is ok if and only if no wanted id is live on a known other port |
| JanusSweepLaws.SharedIdConflicts | app/services/binding_provision.py:60-78 | Two bindings sharing an id: the second meets the first one's port |
| Relay.Channel.Enqueue | textroom_relay.py:369-391 | Validation, drop-oldest overflow, append, counters |
| Relay.Relay.TextroomHook | textroom_relay.py:330-394 | A message reaches the channel of its own topic and leaves every other topic as it was |
| Relay.Channel.WorkerTake | textroom_relay.py:218-235 | Rate limit, then dedupe, then the POST; each early exit with its acknowledgements |
| Relay.Channel.WorkerReplied | textroom_relay.py:235-270 | Success counts, timestamps, session re-attachment, and what of the answer can be published; failures count as errors |
| RelayLaws.TakeIs | textroom_relay.py:218-235 | A message taken is posted if and only if (no rate, or time since the last success times the rate is at least one) and (no dedupe, or its timestamp is above the last one forwarded); otherwise which counter moves |
| RelayLaws.QueueIsSuffix | textroom_relay.py:377-391 | In every run the queue is a contiguous suffix of the accepted stream and never over its maximum |
| RelayLaws.EverythingIsAccounted | textroom_relay.py:218-277 | seen = dropped + forwarded + errors + dedupe-skipped + queued + in flight, but for at most one message that a refused acknowledgement counts twice as the worker dies |
| RelayLaws.ForwardsInOrder | textroom_relay.py:218-240 | Successful forwards are an in-order subsequence of the accepted stream |
| RelayLaws.ForwardsArePaced | textroom_relay.py:209-240 | Each forward starts at least the minimum interval after the previous success |
| RelayLaws.RateBound | textroom_relay.py:207-240 | n forwards take at least (n - 1) / rate |
| RelayLaws.DueIsInFlight | textroom_relay.py:218-235 | In every run, a message taken when at least 1/rate has gone by since the end of the last forward, and newer under dedupe, is in flight |
| RelayLaws.TimestampsIncrease | textroom_relay.py:229-238 | Under dedupe, forwarded timestamps strictly increase from zero |
| RelayLaws.SingleAckIsBalanced | textroom_relay.py:218-277 | With one acknowledgement a message, the unfinished count is queue plus in hand, and the worker never dies |
| RelayLaws.AsWrittenIsShort | textroom_relay.py:223-277 | As written, in every run: count and early exits equal queue, in hand and the overflows that met an empty count, or exceed them by one or two once the worker is dead |
| RelayLaws.AliveIff | textroom_relay.py:223-277 | As written, at every moment of every run: the worker is alive if and only if that equation holds |
| RelayLaws.SameUntilEarly | textroom_relay.py:223-277 | Until a message leaves early the two ways of acknowledging are the same |
| RelayLaws.DrainedAliveIff | textroom_relay.py:223-277 | As written, a worker that has served everything is alive if and only if overflows made up for every early exit; without overflow, if and only if there was none |
| RelayLaws.DeadIsForGood | textroom_relay.py:276-277 | A dead worker forwards nothing more |
| RelayLaws.TwoClicksKillTheWorker | textroom_relay.py:71-85 | On the default depth topic, two clicks two milliseconds apart underflow the count |
| DepthTab.DepthClicks.FetchDepthTextroom | templates/depth_features.js:206-240 | Timer, prune, insert, publish or settle at once; the invariant of all handlers is kept |
| DepthTab.DepthClicks.OnMessage | templates/depth_features.js:256-269 | A message settles the query it names, if that is pending |
| DepthTabLaws.EachClickSettlesOnce | templates/depth_features.js:206-267 | In every run each promise resolves at most once; unresolved, pending and timer armed coincide; at most 64 are pending |
| DepthTabLaws.PruneTakesOldest | templates/depth_features.js:216-222 | Only a full map prunes, and it resolves exactly the oldest outstanding query |
| DepthTabLaws.ClickIs | templates/depth_features.js:206-240 | A published click waits as the newest query; one not published resolves with null at once; the others keep their order, but for the oldest of 64 |
| DepthTabLaws.MessageIs | templates/depth_features.js:256-269 | A message settles exactly the unresolved query it names, with its depth, or with null if it has none; any other message changes nothing |
| DepthTabLaws.TimeoutIs | templates/depth_features.js:210-214 | A timer that fires does what a message without a depth would: it settles its own query with null |
| DepthTabLaws.DepthNeedsMessage | templates/depth_features.js:256-267 | A depth comes only from a message about that query |
| DepthHub.DepthEvents.Subscribe | app/routes/depth_events.py:69-91 | Validates the session id, registers a new queue in place of any older |
| DepthHub.DepthEvents.Disconnect | app/routes/depth_events.py:105-111 | Takes the registration along only if it is still its own |
| DepthHub.DepthEvents.InternalDepthBroadcast | app/routes/depth_events.py:149-161 | Routes by session id; says no session, no subscriber, full or delivered |
| DepthHub.DepthEvents.NextMessage | app/routes/depth_events.py:99-101 | A stream yields its queue's head, which is of its own session |
| DepthHubLaws.ConnectIs | app/routes/depth_events.py:78-89 | Who may connect: at most 64 letters, digits, hyphens and underscores, or no id at all, which is `_legacy`; each gets an empty queue in place of any older, and anyone else nothing |
| DepthHubLaws.RunRouted | app/routes/depth_events.py:88-161 | In every run no queue holds a payload of another session, and none is over 64 |
| DepthHubLaws.NewestStaysRegistered | app/routes/depth_events.py:88-111 | A session is registered exactly while its newest stream is open, and to that one: closing an older one never removes it |
| DepthHubLaws.BroadcastReachesNewest | app/routes/depth_events.py:149-161 | A broadcast changes at most the newest stream of the session it names |
| DepthHubLaws.OutcomeIs | app/routes/depth_events.py:149-161 | What a broadcast answers, by whether the newest stream of the session it names is open and has fewer than 64 waiting |
| DepthHubLaws.GivenInOrder | app/routes/depth_events.py:88-161 | In every run an open stream has given its client exactly what it was sent, in that order, but for what still waits |
| DepthHubLaws.LegacyCanReceive | app/routes/depth_events.py:78-81 | A payload that names `_legacy` is delivered to the shared bucket |
| ClickToDepthLaws.RunSound | textroom_relay.py:218-277 | The invariant of the whole round trip in every interleaving |
| ClickToDepthLaws.ClicksWereMade | templates/depth_features.js:209-232 | What a tab is waiting for was clicked in that tab, and its message carries the click's own id and rounded coordinates |
| ClickToDepthLaws.AnswersWereGiven | textroom_relay.py:235-240 | Every recorded answer was given by the sink to the message the relay was posting |
| ClickToDepthLaws.ClickGetsItsAnswer | templates/depth_features.js:206-267 | A number that resolves a click is the sink's answer to a message with that tab's session, that click's id and time, and its coordinates to within half a hundredth, in every interleaving and under every relay setting |
| ClickToDepthLaws.PublishedNearby | templates/depth_features.js:226-229 | The published coordinate is the clicked one to within half a hundredth |
| ClickToDepthLaws.QueuesHoldTheirOwn | app/routes/depth_events.py:88-109 | In the whole system, what a stream's queue holds is of its session and genuine |
| ClickToDepthLaws.RoundTrip | templates/depth_features.js:206-267 | A run in which one click is answered |

## Left out

- HTTP, WebSocket and event-stream framing, client libraries and the Janus wire format: abstract sends, receives and a map of live mountpoints stand for them.
- iptables text: rules and listings are values, so quoting and the parsing of `iptables-save` output are not modelled, nor tagged rules in other chains; a failed iptables command is not modelled.
- File locks, `fsync` and crashes in the middle of a write: every locked section is one step.
- Floats are reals, except for the explicit rounding of `get_depth`; NaN and infinities are left out.
- Limiter and hub concurrency beyond atomic handlers: the source's handlers do not await inside the modelled sections.
- ClickToDepthLaws.ClickGetsItsAnswer: assumes that no other client publishes under a tab's random session id, and covers the text-room path only, not the HTTP fallback of `fetchDepth`.
- DepthHub.DepthEvents.Subscribe: accepts ASCII letters and digits; the source's `isalnum` also accepts other alphabets. A stream whose generator never starts, and so never unregisters, is a stream that is never closed here.
- Allocator.Store.Allocate: records that do not parse (a missing or non-numeric id or port) are not modelled; the source raises on them.
- Allocator.Store.Ensure: its two refusal messages are one outcome here, as are the details of quarantine file names.
- TemplateLaws.AnyOrderFillsAll: templates are texts of plain literals and holes; an unpaired `@` in a literal is not modelled. Where the dict's names and values come from, and the loop that writes the rendered files, are left out; names and values are parameters.
- EnvLaws.TuningRoundTripIff: takes a family name without line breaks; the callers check it against a fixed list.
- ModeEnforcer.Enforcer.OnModeTransition: is one call alone; overlapping calls are `OverlapLaws`. A command that fails leaves the encoder as it was (a crash may follow), and a status query that answers answers truly. Events, metrics and timestamps are left out. The thermal service, which writes the same profile file, is not part of this model.
- AuditLog.AuditDir.Emit: an append that writes only part of a line is left out. Lines are ASCII, so their length is their size.
- JanusSweep.Gateway.ReconcileJanus: Janus creates any id that is free; a port it cannot bind is the fault of a refused create. The run-once variant driven by the drift report is left out.
- `pyrealsense2`, pixel formats, capture and the encoder process: frames are matrices, the encoder is stopped or running with the profile it loaded.
- Authentication, tokens, secrets, metrics, logging and settings parsing.
- Routes, templates, the design system, the console and the camera bring-up checks: adapters and probes with no protocol of their own.
