# MacOSMiddleWareSoundProducer, modelled in Dafny

MacOSMiddleWareSoundProducer is a macOS background program that turns
desktop activity into sound cues. Sensors watch several things:
- disk writes (FSEvents);
- the focused application's accessibility notifications;
- on-screen windows (a 0.1 s poll);
- clicks on window controls;
- the network traffic of the frontmost process (`nettop`).

The sensors forward named events to one sound dispatcher. The dispatcher
throttles events, looks up their configured sound files and drives one-shot
and looping players. A JSON configuration is found among three candidate
locations, and relative sound paths in it are resolved against the file's
own directory.

This project models the decision layer between the sensors and the audio
device, one Dafny module per source file, and proves what each part
promises:

| module | file | source |
|---|---|---|
| `Common` | common.dfy | shared vocabulary: `Option`, time in milliseconds (`None` is the distant past), the calls a monitor makes into the dispatcher as `SoundRequest` values |
| `Text` | text.dfy | the string operations the code relies on: substring test, ASCII lower-casing, trimming of blanks, 64-bit integer parsing and printing |
| `Sounds` | sounds.dfy | `SoundManager`: throttle ledger, key lookup with fallback, mute, continuous players with delayed fade-out teardown |
| `Disk` | disk.dfy | `FileMonitor.handleEvent`: the strict 100 ms gate |
| `Observer` | observer.dfy | `AppObserver`: the role-group ignore set built from four environment variables, and the title/content/window notification decisions |
| `Windows` | windows.dfy | `WindowManager.checkWindows`: window filter, first-run baseline, closed/moved/resized diff and continuous start/stop |
| `Config` | config.dfy | `ConfigLoader`: candidate order, first loadable file, `./` and `../` resolution with `.`/`..` normalisation |
| `Accessibility` | accessibility.dfy | `AccessibilityUtils`: subrole table, walk up at most three ancestors, title/description keyword fallback |
| `Network` | network.dfy | `NetworkMonitor`: CSV row parsing, summation, first-sample baseline, 1024-byte activity threshold |

Time is whole milliseconds. A `Date.distantPast` timestamp is `None`, which
passes every throttle. Window bounds are integers. Reads from the operating
system are parameters of the operations. These include accessibility
attributes, the window list, a chunk of `nettop` output, file existence,
decode success and the current clock. A call from a monitor into
`SoundManager.shared` is returned as a `SoundRequest`; it is not performed.

The sound dispatcher is modelled twice:
- as a value, `Sounds.Dispatcher`, with one transition function per
  operation;
- as the class `Sounds.SoundManager`, whose methods are proved to make
  exactly those transitions.

Every block the source hands to a dispatch queue is one atomic step. There
are two delayed steps of their own:
- the stop-and-remove block that `stopContinuous` schedules 0.25 s ahead;
- the cleanup of a finished one-shot player.

A player is a value whose `id` stands for the identity of the
`AVAudioPlayer` object. The set `sounding` holds the looping players the
device is playing, which is what `isPlaying` reports. The runtime frees a
player once nothing references it, which stops it; the teardown block is
the only step that can drop the last reference to a player still sounding,
and there the model frees it.

## Model

| member | source | states |
|---|---|---|
| `Text.ContainsIffOccurrence` | Sources/AccessibilityUtils.swift:94 | `contains` holds exactly when the needle occurs at some index of the text |
| `Text.LowerChar` | Sources/AccessibilityUtils.swift:94 | the lower-case form of a character is never a capital; it equals the character exactly when that is not a capital, and a capital becomes the small letter at the same place in the alphabet |
| `Text.Lower` | Sources/AccessibilityUtils.swift:94 | lower-cased text has the input's length and no capital, and it equals the input exactly when the input has no capital |
| `Text.LowerIdempotent` | Sources/AppObserver.swift:84 | lower-casing twice is lower-casing once |
| `Text.LowerNoUpper` | Sources/AppObserver.swift:84 | text without capitals is its own lower-case form |
| `Text.TrimStartSpec` | Sources/AppObserver.swift:84 | trimming the front yields a suffix that starts with a non-blank, having cut only blanks |
| `Text.TrimEndSpec` | Sources/AppObserver.swift:84 | trimming the back yields a prefix that ends with a non-blank, having cut only blanks |
| `Text.TrimSlice` | Sources/AppObserver.swift:84 | `trimmingCharacters(in: .whitespaces)` returns a slice of the input with blanks cut from both ends only, and the result has no blank at either end |
| `Text.TrimUnpadded` | Sources/AppObserver.swift:107 | a piece with no blank at either end is unchanged by trimming |
| `Text.TrimIdempotent` | Sources/AppObserver.swift:107 | trimming twice is trimming once |
| `Text.ParseInt64` | Sources/SoundManager.swift:39 | `Int(k)` succeeds only when the text is an optional `+` or `-` followed by one or more digits and nothing else, and its result lies in the 64-bit range |
| `Text.DecimalRoundTrip` | Sources/SoundManager.swift:56 | parsing the decimal form of a 64-bit integer gives the integer back |
| `Text.DecimalStringInjective` | Sources/SoundManager.swift:56 | distinct 64-bit integers have distinct decimal forms |
| `Sounds.Without` | Sources/SoundManager.swift:161 | `removeAll(where:)` keeps exactly the other players and never grows the list |
| `Sounds.WithoutKeepsOrder` | Sources/SoundManager.swift:161 | `removeAll(where:)` keeps the order of what it keeps: it distributes over concatenation, drops the player itself and keeps every other one |
| `Sounds.PlayUnconfiguredIsNoOp` | Sources/SoundManager.swift:78 | `play` of an event without a configured path changes nothing, not even the throttle ledger |
| `Sounds.PlayThrottle` | Sources/SoundManager.swift:84-90 | `play` proceeds exactly when the ledger has no entry or the entry is at least 50 ms (`key_down`) or 100 ms (others) old; proceeding records `now`, a suppressed call changes nothing; unmuted and with a loadable file, a call that proceeds appends exactly one new one-shot player for the event's path and changes nothing else |
| `Sounds.PlayWithoutPlayerStillRecords` | Sources/SoundManager.swift:133-139 | muted, or with a missing or undecodable file, a `play` that passes the throttle creates no player but has already recorded its time |
| `Sounds.PlayKeyLookup` | Sources/SoundManager.swift:55-73 | `playKey` throttles on `key_<code>` and records the time before any lookup; it plays the key's own sound, else the `key_down` sound, else nothing |
| `Sounds.PlayKeyThrottled` | Sources/SoundManager.swift:55-62 | a press of a key within 50 ms of that key's last recorded press changes nothing, not even the ledger |
| `Sounds.PlayKeyWithoutPlayerStillRecords` | Sources/SoundManager.swift:55-73 | muted, or with a file that cannot be loaded, a key press that passes the throttle creates no player but has already recorded its time |
| `Sounds.KeyLedgerKeysDistinct` | Sources/SoundManager.swift:56 | two key codes share a ledger entry only when they are equal, and no key code shares `key_down`'s entry |
| `Sounds.BurstFiresTwice` | Sources/SoundManager.swift:84-92 | an event played at 0, 30, 60, 90 and 150 ms creates exactly two players, at 0 and at 150 |
| `Sounds.StartContinuousCases` | Sources/SoundManager.swift:96-105 | `startContinuous` does nothing when the event's player reports playing or no path is configured; otherwise it stores one new looping player under the event and starts it |
| `Sounds.StartContinuousIdempotent` | Sources/SoundManager.swift:100 | starting the same event twice in a row is starting it once |
| `Sounds.StopContinuousCases` | Sources/SoundManager.swift:107-123 | a playing player is faded and a stop of that player is scheduled 250 ms later with the entry kept; a silent player's entry is removed at once; without an entry nothing happens |
| `Sounds.RestartDuringFadeIsNoOp` | Sources/SoundManager.swift:100-117 | a start while the player fades out is a no-op, and the scheduled stop of that player stays queued |
| `Sounds.SetMutedCases` | Sources/SoundManager.swift:22-31 | `setMuted(true)` stops every continuous player and empties the map, keeping one-shot players; `setMuted(false)` keeps the continuous players |
| `Sounds.TrackedOnePlayerPerEvent` | Sources/SoundManager.swift:147-151 | while every sounding loop is the one stored under its event, at most one loop sounds per event |
| `Sounds.TrackedMuteSilencesAll` | Sources/SoundManager.swift:25-30 | while every sounding loop is stored under its event, muting silences all loops |
| `Sounds.StepKeepsTracked` | Sources/SoundManager.swift:96-123 | with the corrected teardown, every operation and device step keeps every sounding loop stored under its own event |
| `Sounds.ScheduledStopEvictsRestartedPlayer` | Sources/SoundManager.swift:114-117 | the teardown as written, fed by idle window ticks, removes the entry of a loop restarted 50 ms earlier; nothing else holds that player, so it is freed and cut off without a fade while the window still moves, and the next moving tick starts the sound again from its beginning; the corrected teardown keeps the restarted loop sounding and stored |
| `Sounds.CheckedStopKeepsRestartedPlayer` | Sources/SoundManager.swift:114-117 | the corrected teardown silences only the player it captured and leaves a restarted player's entry in place |
| `Sounds.SoundManager.constructor` | Sources/SoundManager.swift:8-20 | the dispatcher starts unmuted with empty tables, ledger and player collections |
| `Sounds.SoundManager.SetMuted` | Sources/SoundManager.swift:22-31 | the loop over `activePlayers` stops every continuous player, then the map is emptied; the new state is `SetMuted` of the old |
| `Sounds.SoundManager.Configure` | Sources/SoundManager.swift:33-46 | the event table is replaced; every key that parses as an integer adds or overwrites that code's path, and other codes keep their earlier paths |
| `Sounds.SoundManager.PlaySoundOnMain` | Sources/SoundManager.swift:133-167 | muted or unloadable: nothing; otherwise a new player is stored under its event when looping or appended to the one-shot list |
| `Sounds.SoundManager.Play` | Sources/SoundManager.swift:77-94 | the new state is the `play` transition: configured-path guard, then the throttle, then the one-shot player |
| `Sounds.SoundManager.PlayKey` | Sources/SoundManager.swift:48-75 | the new state is the `playKey` transition: per-key throttle, then key lookup with `key_down` fallback |
| `Sounds.SoundManager.StartContinuous` | Sources/SoundManager.swift:96-105 | the new state is the `startContinuous` transition |
| `Sounds.SoundManager.StopContinuous` | Sources/SoundManager.swift:107-123 | the new state is the `stopContinuous` transition |
| `Sounds.SoundManager.RunScheduledStop` | Sources/SoundManager.swift:114-117 | the delayed block as written: stop the captured player, remove whatever entry holds the event's key, and the player that entry held is freed, and stops, unless a later pending block captured it |
| `Sounds.SoundManager.RunScheduledStopChecked` | Sources/SoundManager.swift:114-117 | the delayed block corrected: stop the captured player, remove the entry only when it still holds that player |
| `Sounds.SoundManager.CleanupOneShot` | Sources/SoundManager.swift:160-162 | the one-shot cleanup removes the finished player from the list |
| `Disk.FirstEventTriggers` | Sources/FileMonitor.swift:8-9 | the first event always triggers, because the initial timestamp is the distant past |
| `Disk.GateIsStrict` | Sources/FileMonitor.swift:53 | an event exactly 100 ms after the last trigger is dropped; one 101 ms after it triggers |
| `Disk.Triggers` | Sources/FileMonitor.swift:50-58 | a storm of events produces no more sounds than events |
| `Disk.TriggersAreSpaced` | Sources/FileMonitor.swift:50-58 | any sequence of events produces sounds spaced strictly more than 100 ms apart, the first strictly more than 100 ms after the previous trigger |
| `Disk.TriggersAreEvents` | Sources/FileMonitor.swift:53-56 | every sound is played at the time of one of the events |
| `Disk.FileMonitor.constructor` | Sources/FileMonitor.swift:8 | no trigger has happened yet |
| `Disk.FileMonitor.HandleEvent` | Sources/FileMonitor.swift:50-58 | triggers exactly when more than 100 ms have passed since the last trigger, recording `now` and asking for `disk_write`; a dropped event changes nothing; `numEvents` plays no part |
| `Observer.ParseGroup` | Sources/AppObserver.swift:57-64 | a key found in `roleGroups` is that group's name |
| `Observer.ParseGroupIffName` | Sources/AppObserver.swift:57-64 | a key is found exactly when it is one of the six group names, and each name finds its own group |
| `Observer.DefaultsAreTheGroups` | Sources/AppObserver.swift:67-75 | a role is ignored by default exactly when one of the six groups holds it |
| `Observer.GroupKeys` | Sources/AppObserver.swift:84 | one key per group-name piece, in order, and no key contains a capital letter |
| `Observer.SubtractGroups` | Sources/AppObserver.swift:83-91 | the loop over enabled group names removes exactly the roles of the known groups named |
| `Observer.AddGroups` | Sources/AppObserver.swift:94-102 | the loop over disabled group names adds exactly the roles of the known groups named |
| `Observer.BuildIgnoredRoles` | Sources/AppObserver.swift:78-117 | the loops of `init` produce defaults − enabled groups ∪ disabled groups ∪ ignored roles − included roles |
| `Observer.SinglePieceEnv` | Sources/AppObserver.swift:78-117 | one enabled name, one ignored and one included role give the defaults minus the named group, plus the trimmed ignored role, minus the trimmed included role |
| `Observer.IncludedRolesNeverIgnored` | Sources/AppObserver.swift:113-117 | a role named in MW_INCLUDE_ROLES is never ignored, whatever the other variables say |
| `Observer.NamedGroupRolesMembers` | Sources/AppObserver.swift:85-90 | the roles the named groups contribute are exactly those of some named, known group |
| `Observer.DisableWinsOverEnable` | Sources/AppObserver.swift:94-102 | a role of a group named in MW_DISABLE_GROUP is ignored even when MW_ENABLE_GROUP names it too, unless it is included by name |
| `Observer.DefaultRoleIgnoredUnless` | Sources/AppObserver.swift:78-117 | a default role stops being ignored exactly when it is included by name, or an enabled group holds it and neither a disabled group nor MW_IGNORE_ROLES adds it back |
| `Observer.UnknownGroupNamesSkipped` | Sources/AppObserver.swift:86 | a name that is not a group contributes nothing |
| `Observer.PaddedMenusKey` | Sources/AppObserver.swift:84 | the group name " Menus " is looked up as "menus" |
| `Observer.GroupNamesNormalised` | Sources/AppObserver.swift:84 | the group name " Menus " selects the menus group |
| `Observer.RoleNamesCaseSensitive` | Sources/AppObserver.swift:114-115 | including "axbutton" does not un-ignore "AXButton" |
| `Observer.MenusExample` | Sources/AppObserver.swift:78-117 | enabling menus, ignoring AXCustomRole and including AXMenu leaves no menu role ignored, ignores AXCustomRole and keeps the other defaults |
| `Observer.TitleChangeCases` | Sources/AppObserver.swift:198-212 | a title equal to the last one has no effect; a new one within 100 ms of the last change has no effect and is not recorded; otherwise both fields update and `app_activity` is asked for |
| `Observer.ValueChangeCases` | Sources/AppObserver.swift:215-236 | an ignored role (a missing role reads "Unknown") or a change within 250 ms has no effect; otherwise the timestamp moves first, and only a role not containing "Unknown" asks for `app_activity` |
| `Observer.SharedTimestamp` | Sources/AppObserver.swift:191-226 | after a title or content cue at `t`, a title change before `t + 100` and a content change before `t + 250` stay silent |
| `Observer.WindowCreatedAlwaysPlays` | Sources/AppObserver.swift:239-241 | a new window always asks for `window_open` and changes no state |
| `Observer.TitleExample` | Sources/AppObserver.swift:203-210 | titles "A", "A", "B" at 0, 50 and 60 ms play once; "B" again at 100 ms plays |
| `Observer.React` | Sources/AppObserver.swift:193-242 | a title or content cue sounds only 100 ms or more after the last recorded change and records `now`; only a title notification changes the known title; a content cue needs a role outside the ignore set that does not contain "Unknown"; a new window asks for `window_open`; any other notification does nothing |
| `Observer.AppObserver.ShouldIgnore` | Sources/AppObserver.swift:244-246 | for the set built from the environment, a role included by name is never ignored, and a role ignored by name and not included is |
| `Observer.AppObserver.constructor` | Sources/AppObserver.swift:66-117 | the effective ignore set is the set algebra over the four variables; no app is watched and no title is known |
| `Observer.AppObserver.WatchApp` | Sources/AppObserver.swift:138-152 | the current pid is a no-op; another pid becomes current and is forwarded to the network monitor |
| `Observer.AppObserver.HandleNotification` | Sources/AppObserver.swift:193-242 | the request and new title state are the notification's reaction under the effective ignore set |
| `Windows.SnapshotContents` | Sources/WindowManager.swift:36-49 | an id is in the snapshot exactly when some record with layer 0, an id and bounds at least 50 × 50 carries it, and the last such record's bounds win |
| `Windows.SnapshotDomain` | Sources/WindowManager.swift:36-49 | an id is in the snapshot exactly when some admitted record carries it |
| `Windows.SnapshotValue` | Sources/WindowManager.swift:36-49 | an id in the snapshot maps to the bounds of the last admitted record carrying it |
| `Windows.ClassifyCases` | Sources/WindowManager.swift:80-90 | a changed size is a resize, the same size at a new origin is a move, identical bounds are neither, and no window is both |
| `Windows.Closes` | Sources/WindowManager.swift:60-66 | `n` vanished windows make exactly `n` `window_close` plays |
| `Windows.VanishedStep` | Sources/WindowManager.swift:60-66 | each previous id that is absent now adds exactly one close |
| `Windows.TickRequestsShape` | Sources/WindowManager.swift:60-103 | a later tick asks for one close per vanished window, then exactly one start or stop of `window_resize`, then exactly one of `window_move` |
| `Windows.ChangedIgnoresNewIds` | Sources/WindowManager.swift:80-90 | a window absent from the previous snapshot never counts as moving or resizing |
| `Windows.VanishedIgnoresNewIds` | Sources/WindowManager.swift:60-66 | a new id does not change the set of vanished windows |
| `Windows.AppearingWindowsAreSilent` | Sources/WindowManager.swift:68-74 | adding a newly appeared window to the current snapshot changes none of the tick's requests |
| `Windows.StillScreenStopsBoth` | Sources/WindowManager.swift:93-103 | an unchanged screen asks to stop both continuous sounds |
| `Windows.WindowManager.constructor` | Sources/WindowManager.swift:9-10 | no previous snapshot, first run pending |
| `Windows.WindowManager.FilterWindows` | Sources/WindowManager.swift:34-49 | the filter loop builds exactly the snapshot of the admitted records |
| `Windows.WindowManager.RemovedWindows` | Sources/WindowManager.swift:60-66 | the loop over previous ids asks for one close per id absent now |
| `Windows.WindowManager.ScanChanges` | Sources/WindowManager.swift:77-90 | the flags are set exactly when some window present in both snapshots resized, respectively moved |
| `Windows.WindowManager.CheckWindows` | Sources/WindowManager.swift:25-106 | no window list: nothing changes; first run: baseline recorded silently; later: the tick's requests, and the snapshot replaces the previous one |
| `Config.PiecesNoSlash` | Sources/Config.swift:62 | a piece without `/` splits into itself |
| `Config.PiecesSlash` | Sources/Config.swift:62 | splitting at the first `/` gives the first piece, then the split of the rest |
| `Config.Render` | Sources/Config.swift:62 | a standardized file path always starts with `/` |
| `Config.JoinRoundTrip` | Sources/Config.swift:62 | joining path components and splitting them again gives the components back |
| `Config.RenderRoundTrip` | Sources/Config.swift:62 | an absolute path rendered from components splits back into those components |
| `Config.ParentOfRender` | Sources/Config.swift:56 | the directory of a file path is the path without its last component |
| `Config.NormalizeClean` | Sources/Config.swift:62 | standardizing leaves no `.`, `..` or empty component |
| `Config.NormalizeConcat` | Sources/Config.swift:62 | standardising a joined list of components is standardising the first part, then the rest onto the result |
| `Config.NormalizeCleanPushes` | Sources/Config.swift:62 | components with no `.`, `..` or empty entry are kept as they are by standardising |
| `Config.NormalizeSteps` | Sources/Config.swift:62 | a name is pushed, `.` is skipped, `..` pops one component |
| `Config.Resolve` | Sources/Config.swift:58-66 | a value starting with neither `./` nor `../` is returned unchanged |
| `Config.ResolvedIsAbsolute` | Sources/Config.swift:58-63 | for any config directory, a relative value becomes the directory joined with the value, the whole path standardised: an absolute path with no `.`, `..` or empty component |
| `Config.ResolveStandardisesDir` | Sources/Config.swift:62 | the result depends only on the standardised directory: `.` and `..` in the directory are resolved like those in the value |
| `Config.ExampleOnDir` | Sources/Config.swift:58-63 | `./sounds/x.wav` resolves onto the directory `/a/b` as `/a/b/sounds/x.wav` |
| `Config.ResolveInSteps` | Sources/Config.swift:58-63 | a `./` value on a standard directory resolves to the rendering of its components standardised onto the directory |
| `Config.ResolveCanonicalDir` | Sources/Config.swift:62 | on an already standard directory, resolution standardises the value's components onto the directory |
| `Config.ResolveIdempotent` | Sources/Config.swift:58-66 | resolving a resolved value changes nothing |
| `Config.ConfigPathComponents` | Sources/Config.swift:56 | the directory of `/a/b/config.json` is `/a/b` |
| `Config.SoundPathComponents` | Sources/Config.swift:62 | `./sounds/x.wav` has components `.`, `sounds`, `x.wav` |
| `Config.ExampleNormalize` | Sources/Config.swift:62 | `/a/b` joined with `./sounds/x.wav` normalises to `a/b/sounds/x.wav` |
| `Config.ExampleRender` | Sources/Config.swift:62 | those components render as `/a/b/sounds/x.wav` |
| `Config.ResolveExample` | Sources/Config.swift:56-63 | `./sounds/x.wav` in `/a/b/config.json` resolves to `/a/b/sounds/x.wav` |
| `Config.ResolveAll` | Sources/Config.swift:68-79 | rewriting a table keeps its keys, leaves every value that starts with neither `./` nor `../` unchanged, and makes every relative value an absolute path: the directory joined with the value, with the whole joined path standardised |
| `Config.ResolvedKeepsShape` | Sources/Config.swift:68-81 | the events and keys tables keep their keys, values are resolved, and a missing keys table stays missing |
| `Config.ResolveAllIdempotent` | Sources/Config.swift:68-71 | resolving a resolved table changes nothing |
| `Config.ResolvedIdempotent` | Sources/Config.swift:55-82 | resolving a resolved configuration changes nothing |
| `Config.ResolveEntries` | Sources/Config.swift:68-71 | the loop over a table's entries yields the resolved table |
| `Config.ResolveRelativePaths` | Sources/Config.swift:55-82 | `resolveRelativePaths` yields the resolved configuration |
| `Config.Candidates` | Sources/Config.swift:16-30 | candidates are the working directory, then the executable's directory when known, then the Documents subfolder when known |
| `Config.FirstLoadable` | Sources/Config.swift:34-52 | the chosen path is one of the candidates and both exists and decodes |
| `Config.FirstLoadableSpec` | Sources/Config.swift:34-52 | nothing is chosen exactly when no candidate loads; otherwise the chosen candidate is the first that does |
| `Config.DecodeFailureFallsThrough` | Sources/Config.swift:36-47 | a candidate that exists but does not decode passes the choice to the next ones |
| `Config.LoadConfig` | Sources/Config.swift:14-53 | the result is the resolved configuration of the first loadable candidate, or nothing when none loads |
| `Accessibility.RawValueInjective` | Sources/AccessibilityUtils.swift:5-9 | the raw names `window_close`, `window_min`, `window_zoom` are distinct |
| `Accessibility.IsWindowControlIffMapped` | Sources/AccessibilityUtils.swift:74-87 | `isWindowControl` holds exactly when `mapSubrole` gives an event, and each of the three subroles maps to its own event |
| `Accessibility.CheckAttributesOrder` | Sources/AccessibilityUtils.swift:89-109 | a title keyword decides; the description is read only when the title is missing or matches nothing |
| `Accessibility.KeywordPriority` | Sources/AccessibilityUtils.swift:93-106 | close beats minimize beats zoom in both fields |
| `Accessibility.FullscreenOnlyInTitle` | Sources/AccessibilityUtils.swift:96-105 | "fullscreen" means zoom in a title and nothing in a description |
| `Accessibility.KeywordsIgnoreCase` | Sources/AccessibilityUtils.swift:93-105 | the keyword match depends only on the lower-cased title and description |
| `Accessibility.AncestorControlFirst` | Sources/AccessibilityUtils.swift:47-68 | the walk up returns the event of the first ancestor, within the given depth, whose subrole is a control; none exactly when no such ancestor exists before a missing parent |
| `Accessibility.AncestorControlLocal` | Sources/AccessibilityUtils.swift:47-68 | the walk up reads nothing beyond the given number of ancestors |
| `Accessibility.ClassifyOrder` | Sources/AccessibilityUtils.swift:39-71 | the target's own control subrole decides first, then the first of at most three ancestors, then the target's title/description; nothing above the third ancestor matters |
| `Accessibility.FallbackReadsTargetOnly` | Sources/AccessibilityUtils.swift:71 | a "Close" title on an ancestor does not classify a target without keywords |
| `Accessibility.CheckElement` | Sources/AccessibilityUtils.swift:18-72 | the loop returns the classification; a failed hit test gives nothing |
| `Network.SplitAcc` | Sources/NetworkMonitor.swift:107 | `components(separatedBy:)` always returns at least one piece |
| `Network.SplitNoSep` | Sources/NetworkMonitor.swift:107 | a text without commas is one field |
| `Network.SplitAtSep` | Sources/NetworkMonitor.swift:107 | a comma ends a field and splitting resumes after it |
| `Network.FieldsRoundTrip` | Sources/NetworkMonitor.swift:107 | splitting comma-joined fields without commas gives the fields back |
| `Network.RowAsWritten` | Sources/NetworkMonitor.swift:104-134 | as written, a row with fewer than 5 fields or a header is skipped; a row traps only with exactly 5 fields and a parsable field 4; a row adds only with 6 or more fields and exactly the values of fields 4 and 5 |
| `Network.RowTrapsIff` | Sources/NetworkMonitor.swift:107-135 | the row loop as written traps exactly on a five-field row whose first field lacks "time" and whose fifth parses |
| `Network.MissingFirstChar` | Sources/NetworkMonitor.swift:111 | a text without the needle's first character does not contain the needle |
| `Network.FiveFieldRowJoined` | Sources/NetworkMonitor.swift:107 | the five fields `12:00:00`, `en0`, `Established`, `1234`, `5678` join into one row |
| `Network.FiveFieldRowFields` | Sources/NetworkMonitor.swift:107 | that five-field row splits back into its five fields |
| `Network.ParseFieldFour` | Sources/NetworkMonitor.swift:131 | the field `5678` parses as 5678 |
| `Network.SampleRowValues` | Sources/NetworkMonitor.swift:111-131 | the first field `12:00:00` is no header and the field `5678` parses |
| `Network.FiveFieldRowTraps` | Sources/NetworkMonitor.swift:107-131 | the five-field row `12:00:00,en0,Established,1234,5678` (the comment's sample row at line 98 without its trailing `,...`) makes the row loop as written trap |
| `Network.SampleRowJoined` | Sources/NetworkMonitor.swift:98 | the six fields of the sample row, the last being `...`, join into the row as the comment prints it |
| `Network.SampleRowFields` | Sources/NetworkMonitor.swift:98-107 | the sample row as printed at line 98 splits into six fields, the last being `...` |
| `Network.SampleRowSkipped` | Sources/NetworkMonitor.swift:98-134 | the sample row as printed at line 98 splits into six fields; field 5 (`...`) does not parse, so both the row as written and the guarded row skip it |
| `Network.RowBytes` | Sources/NetworkMonitor.swift:106-135 | a row contributes only when it has six fields, its first lacks "time", and fields 4 and 5 parse, and then it contributes those two values |
| `Network.RowBytesAgrees` | Sources/NetworkMonitor.swift:106-135 | on every row the code does not trap on, the guarded row gives the same outcome; on a trapping row it contributes nothing |
| `Network.TotalsAppend` | Sources/NetworkMonitor.swift:106-136 | the totals of two chunks of lines combine: sums add, data found in either counts |
| `Network.TotalsSkipLine` | Sources/NetworkMonitor.swift:106-136 | a line that yields no bytes changes no total |
| `Network.ActivityNeedsGrowth` | Sources/NetworkMonitor.swift:147-154 | activity needs more than 1024 bytes of growth in one direction, so shrinking totals never fire |
| `Network.NetworkMonitor.constructor` | Sources/NetworkMonitor.swift:7-15 | no pid, zero totals, first sample pending |
| `Network.NetworkMonitor.UpdateTarget` | Sources/NetworkMonitor.swift:21-37 | the current pid changes nothing; another pid becomes current with both totals 0 and the first sample pending |
| `Network.NetworkMonitor.SumRows` | Sources/NetworkMonitor.swift:100-136 | the loop over lines computes the chunk's totals |
| `Network.NetworkMonitor.ParseOutput` | Sources/NetworkMonitor.swift:90-160 | without data nothing changes; the first sample records the baseline silently; later samples move the baseline and ask for `network_activity` exactly when either total grew by more than 1024 |

## Left out

- Concurrency: every block handed to a dispatch queue is one atomic step. The interleavings of `queue`, the main queue and `monitorQueue` are not modelled.
- `playSound` only re-dispatches to the main queue, so `Play` and `PlayKey` call `PlaySoundOnMain` directly. `play` reads the event's path before it dispatches; in the model that read and the throttle happen in one step.
- The audio device is abstract: `AVAudioPlayer`, `prepareToPlay`, volume and `numberOfLoops` are not modelled. A fade is recorded in `fadedOut` but not computed. Object lifetime is modelled only where it stops a looping player: the teardown as written frees the player whose entry it removes unless a pending teardown still holds it (`Release`); the other operations only drop references to players that are already stopped. The device ending a player on its own is a value-level step (`PlayerEnded`) only.
- The duration of a one-shot player is not modelled. Its cleanup is a step the environment may take at any time.
- `playSystemBeep` (a call to `NSSound.beep`) is not modelled.
- Swift `lowercased()` is modelled for the ASCII letters only; Unicode case mapping is not modelled. `trimmingCharacters(in: .whitespaces)` trims the whole set `.whitespaces`, the Unicode category Zs plus tab (`Text.IsBlank`).
- `Int(String)` is modelled as an optionally signed decimal numeral within the 64-bit range.
- `Network.Totals`: the sums are unbounded integers, so the model does not capture the overflow trap of `Int64` additions on absurdly large totals.
- Dictionary iteration order is not modelled. `resolveRelativePaths`, the removal loop of `checkWindows` and `setMuted` give the same result in any order. `configure` does not when two keys parse to the same code (`"5"` and `"05"`): Swift keeps the path of whichever key its dictionary order visits last. `Sounds.SoundManager.Configure` is therefore stated as a relation (`KeysMerged`): the entry holds the path of one such key, which is all that holds for every order.
- The four environment variables of `AppObserver.init` are given as the pieces `split(separator: ",")` makes of them. The edge cases of Swift's `split` (dropped empty pieces) are left to the caller. `Network.Fields` keeps empty pieces, as `components(separatedBy:)` does.
- `components(separatedBy: .newlines)` splits at every character of the newline set (U+000A to U+000D, U+0085, U+2028, U+2029), each one separately, so `\r\n` leaves an empty line between, as in Swift.
- AXObserver creation, registration and run-loop sources in `watchApp` are not modelled. `WatchApp` keeps the pid guard and returns the pid it forwards to the network monitor.
- The role of a hit-tested element is read only for logging in `checkElement`, so it is not modelled.
- The FSEvents stream, the window-list call and its 0.1 s timer, the `nettop` subprocess with its pipe and chunk boundaries, the event tap, the menu bar, permission prompts, logging and the launcher in `main.swift` are not modelled. Their results are parameters.
- Window bounds are integers rather than `CGFloat`. The "added windows" loop of `checkWindows` only logs, so it adds no requests.
- Swift compares `String` values (`==`, `hasPrefix`, `contains`, `Set<String>` membership and dictionary keys) by canonical equivalence of grapheme clusters. The model compares sequences of Unicode scalars, so a precomposed and a decomposed "é" are equal in Swift and different in the model. This affects the title comparison in `handleNotification`, the role and group-name lookups, the `./` prefix test in `resolve` and the header test in `parseOutput`.
- `URL.standardizedFileURL` is modelled as POSIX normalisation on `/`-separated components: `..` at the root stays at the root, and symbolic links are not resolved. The directory of the executable is the rendered parent of its path.
- File existence and JSON decoding in `loadConfig` are one input map: a missing key means the file does not exist; `None` means it exists but does not decode.
- `Network.NetworkMonitor.ParseOutput` uses the six-field guard of `Network.RowBytes`. The five-field row on which the code traps is modelled separately by `Network.RowAsWritten` (see Findings).
- `Sounds.SoundManager.RunScheduledStop` models the teardown as written. The invariant `Tracked` is proved only for the corrected `RunScheduledStopChecked` (see Findings).

## Findings

| source | as written | input that shows it | evidently intended | confidence | as-written member | corrected member |
|---|---|---|---|---|---|---|
| Sources/SoundManager.swift:114-117 | the delayed teardown stops the player it captured, then removes the map entry for the event's key, whichever player that entry now holds | `window_move` starts at 0 ms; idle window ticks at 100 and 200 ms schedule two teardowns, due at 350 and 450; the window moves again at 400 and a new loop starts; the 450 teardown removes the new loop's entry, the only reference to it, so the loop is freed and cut off without a fade while the window moves, and the next moving tick starts it again from the beginning | remove the entry only when it still holds the captured player, so that a teardown silences only the player it captured | not executed | `Sounds.ScheduledStopEvictsRestartedPlayer` | `Sounds.CheckedStopKeepsRestartedPlayer` |
| Sources/NetworkMonitor.swift:108 | rows with fewer than 5 fields are skipped, but line 131 reads `parts[5]`, which does not exist in a five-field row; Swift traps on the out-of-range index once `parts[4]` parses | a hypothetical five-field row `12:00:00,en0,Established,1234,5678`: the comment's sample row at line 98 without its trailing `,...` (the row as printed has six fields and is skipped) | skip rows with fewer than 6 fields | not executed | `Network.FiveFieldRowTraps` | `Network.RowBytesAgrees` |
