# bear-alarm: alert decision logic in Dafny

bear-alarm watches a Dexcom continuous glucose monitor and sounds an alarm when glucose
goes low or high. This project models the part of it that decides, and proves properties
of the model:

- the configuration models and their validation. This covers both generations: the
  current one with schedules, persistence and emergency contacts, and the older flat
  `Config`/`load_config` with its environment overrides;
- the alarm state machine with its repeating sound loop;
- the headless monitor's polling and error counter;
- the SQLite store, on in-memory tables;
- the path resolution for sounds and data files;
- the macOS helpers: FaceTime, iMessage and AppleScript escaping, volume, sleep;
- the CLI start-up;
- the colour bands of both themes;
- the threshold, snooze and contact-message decisions of the two desktop interfaces (the
  Flet one in `src/ui/app.py` and the Qt one in `src/ui_qt/app.py`).

Conventions:

- Times are integer seconds. The wall clock used for schedules is a separate
  `Config.WallClock` (weekday, microsecond of day).
- Glucose values are `real`.
- A Python exception becomes the `Err` of a `Result`, and `None` becomes `Option`.

Objects whose fields the source updates are classes:

- `Alerts.AlertSystem`
- `Monitor.GlucoseMonitor`
- `Database.Store`
- `HostSystem.SleepGuard`
- `FletApp.App`
- `QtApp.App`

Each method is proved against a pure step function of the old state. The properties are
lemmas about those functions.

Everything the program receives from outside is a parameter of the call that uses it:
the clock, the operating system's name, the outcome of each subprocess or pygame call,
what the file system says about a sound file, the Dexcom reading and the environment.

## Model

| member | source | states |
|---|---|---|
| Models.TrendFromValue | src/data/models.py:9-22 | `TrendDirection(s)` finds the member whose value is exactly `s`, and fails for any other text |
| Models.TrendValueRoundTrip | src/data/models.py:9-22 | a trend's stored value reads back as that trend |
| Models.ArrowsDistinct | src/data/models.py:24-35 | the seven directions have seven different arrows |
| Models.ReadingFromRow | src/data/models.py:48-57 | a row with an empty or NULL trend reads as NONE; any other trend text must be a trend value; every field of a row that reads is copied |
| Models.LowHighExclusive | src/data/models.py:59-67 | a reading is never both low (<= 3.9) and high (>= 10.0); every reading outside (3.9, 10.0) is one of the two |
| Models.ActiveWindow | src/data/models.py:89-99 | a snooze is active exactly while fewer than `duration` minutes have passed since its start, so once inactive it stays inactive; one of zero or fewer minutes is never active from its start on |
| Config.ValidateThresholds | src/core/config.py:33-55 | a `ThresholdsConfig` is built exactly when every field bound holds and, if the low bound held, high > low |
| Config.AcceptsConfig | src/core/config.py:139-193 | an `AlertsConfig` is accepted exactly when every field bound holds and, when the high threshold was supplied, high > low; a default high is never compared |
| Config.DefaultsAccepted | src/core/config.py:139-193 | the default alert settings pass validation whether or not the high threshold is supplied |
| Config.ParseTime | src/core/config.py:81-89 | text with fewer than two ":"-separated parts is an error; otherwise the first two parts, stripped, must both be integers with the hour in 0-23 and the minute in 0-59, and any other text is an error; a parsed time is that hour and minute as an offset into the day |
| Config.ParseTimeFormatted | src/core/config.py:81-89 | every well-formed "HH:MM" parses to its own hour and minute |
| Config.InWindowShape | src/core/config.py:106-112 | a plain window is the closed interval; one that wraps past midnight is the complement of the open gap from end to start |
| Config.OvernightSchedule | src/core/config.py:106-112 | a 22:00-06:00 window covers late evening and early morning |
| Config.IsActiveNow | src/core/config.py:91-112 | a disabled schedule, or one on another weekday, is inactive without parsing; otherwise active exactly when the time falls in its window; it raises exactly when such a schedule has a start or end time that does not parse |
| Config.ActiveSchedules | src/core/config.py:205 | succeeds exactly when every enabled schedule for today's weekday has a window that parses (the others are not parsed); its members are exactly the active schedules |
| Config.ActiveSchedulesKept | src/core/config.py:205 | the list comprehension keeps the active schedules in configuration order: it is the in-order filter by the activity flags |
| Config.KeptFirstMaximal | src/core/config.py:205-209 | a schedule that no flagged one outranks and that strictly outranks every flagged one before it is the first maximal entry of the filtered list |
| Config.MaxByPriorityFirst | src/core/config.py:209 | `max(key=priority)` returns the first schedule of maximal priority |
| Config.GetActiveSchedule | src/core/config.py:203-209 | `None` when nothing is active, otherwise an active schedule that no active one outranks |
| Config.GetActiveScheduleFirstOnTies | src/core/config.py:203-209 | if `schedules[k]` is active, no active schedule outranks it, and every active one before it in the configuration ranks strictly lower, then it is the schedule returned |
| Config.GetEffectiveThresholds | src/core/config.py:211-229 | without an active schedule, the validated defaults; with one, each field it gives overrides the default, and the result is validated |
| Config.NoSchedulesUsesDefaults | src/core/config.py:211-221 | without schedules, the effective thresholds are the defaults, validated |
| Config.InvertedThresholdsAccepted | src/core/config.py:146-193 | as written, a low threshold of 16.0 with the high left at its default is accepted, yet resolving the thresholds then fails |
| Config.StrictAcceptsResolvable | src/core/config.py:187-193 | under the strict check, an accepted configuration's defaults always resolve when no schedule applies |
| Config.StrictRejectsInverted | src/core/config.py:187-193 | the strict check rejects the configuration the written check lets through |
| LegacyConfig.BuildAlerts | src/config.py:22-47 | `AlertsConfig(**section)`: the `gt=0` bounds, then high > low only when high was supplied and low passed its bound |
| LegacyConfig.BuildMonitoring | src/config.py:50-60 | the poll interval must be positive and the start-up delay non-negative |
| LegacyConfig.BuildDexcom | src/config.py:11-19 | username and password are required; `ous` defaults to false |
| LegacyConfig.BuildConfig | src/config.py:68-73 | the `dexcom` section is required; the other two sections default to the models built from nothing |
| LegacyConfig.LoadConfig | src/config.py:76-106 | the path defaults to config.yaml; a missing file, then an empty one, then validation, each fails in that order |
| LegacyConfig.DefaultsAccepted | src/config.py:22-60 | both default sections validate whether or not their values are written out |
| LegacyConfig.InvertedThresholdsAccepted | src/config.py:41-47 | a low threshold above the default high is accepted on its own, so the loaded thresholds are inverted |
| LegacyConfig.ApplyEnv | src/config.py:126-132 | each non-empty variable replaces its field; `ous` is true exactly when the lower-cased value is "true" |
| LegacyConfig.LoadWithEnvOverride | src/config.py:109-134 | a load error propagates; otherwise the loaded configuration with the environment applied |
| LegacyConfig.EnvOverrideProperties | src/config.py:126-132 | overriding twice is overriding once; an environment without the variables changes nothing |
| LegacyConfig.OusSpellings | src/config.py:131-132 | any spelling of "true" sets `ous`, while "1" and "yes" clear it |
| Paths.ParsePath | src/core/paths.py:70-72 | `Path(s)` is absolute exactly when `s` starts with "/"; its components are exactly the "/"-separated parts other than "" and "." |
| Paths.ComponentsAppend | src/core/paths.py:70-72 | dropping the "" and "." parts keeps the others in their order: it distributes over concatenation |
| Paths.Join | src/core/paths.py:80 | joining an absolute path keeps only that path; joining a relative one appends its components |
| Paths.ResourcesUnderBundle | src/core/paths.py:15-27 | the resources directory is the bundle directory with one more component, "resources" |
| Paths.ConfigAndDatabaseSiblings | src/core/paths.py:30-85 | config.yaml and bear_alarm.db are different files, both inside the per-platform data directory |
| Paths.ResolveSoundPath | src/core/paths.py:60-80 | as written: an absolute path is kept; otherwise one leading "resources/" is stripped and the rest joined onto the resources directory |
| Paths.ResolveRelativeUnder | src/core/paths.py:75-80 | a name whose remainder after the prefix is relative resolves inside the resources directory |
| Paths.ResolveIgnoresResourcesPrefix | src/core/paths.py:75-78 | "sounds/x.wav" and "resources/sounds/x.wav" name the same file |
| Paths.ResolveEscapesResources | src/core/paths.py:75-80 | as written, the relative "resources//tmp/x.wav" resolves to /tmp/x.wav, outside the resources directory |
| Paths.ResolveSoundPathContained | src/core/paths.py:60-80 | corrected resolution: an absolute name is kept and every relative name lands lexically inside the resources directory (its components extend the directory's) |
| Paths.ContainedAgrees | src/core/paths.py:60-80 | wherever the written resolution stays inside, the corrected one picks the same path |
| Alerts.StopLoop | src/core/alerts.py:165-171 | stopping signals the running loop and forgets it; the alarm state is unchanged |
| Alerts.TriggerEffect | src/core/alerts.py:173-205 | triggering the kind already active changes nothing; any other trigger stops the old loop and starts exactly one loop of the new kind |
| Alerts.ClearEffect | src/core/alerts.py:207-214 | clearing from NORMAL changes nothing; from an alarm it stops the loop and returns to NORMAL |
| Alerts.ConsistentPreserved | src/core/alerts.py:33-58 | every operation keeps the invariant that a running loop is of the current alarm state's kind and not stopped, and that no loop runs in NORMAL; after a shutdown an alarm state may have no loop |
| Alerts.ShutdownThenTriggerSilent | src/core/alerts.py:234-242 | after shutdown the state stays, so re-triggering the same kind starts no loop and the alarm is silent while it reports alerting |
| Alerts.IsAlerting | src/core/alerts.py:225-232 | alerting exactly in LOW_ALERT or HIGH_ALERT |
| Alerts.Suffix | src/core/alerts.py:99-101 | `PurePath.suffix`: from the last dot of the last component, unless that dot is its first or last character |
| Alerts.UpperCaseMp3 | src/core/alerts.py:99-101 | MP3 detection ignores case |
| Alerts.HiddenNameHasNoSuffix | src/core/alerts.py:99-101 | a file named ".mp3" has no suffix and is not an MP3 |
| Alerts.PlaySound | src/core/alerts.py:103-136 | the guards in order: mixer down, then an invalid file; MP3 plays through the music module, which must be available, and other files through a `Sound` object; the result is success exactly when playing started |
| Alerts.AlertSystem.constructor | src/core/alerts.py:33-77 | both sound paths are resolved as written by `Paths.ResolveSoundPath`; the alarm starts NORMAL; the music module is available only when the mixer came up |
| Alerts.AlertSystem.TriggerLowAlert | src/core/alerts.py:173-188 | the alarm becomes the low trigger's result |
| Alerts.AlertSystem.TriggerHighAlert | src/core/alerts.py:190-205 | the alarm becomes the high trigger's result |
| Alerts.AlertSystem.ClearAlert | src/core/alerts.py:207-214 | the alarm becomes the clear's result |
| Alerts.AlertSystem.ShutdownSystem | src/core/alerts.py:234-242 | the loop stops and the state stays |
| Alerts.AlertSystem.GetState | src/core/alerts.py:216-223 | returns the current state and changes nothing |
| Alerts.AlertSystem.IsAlertingNow | src/core/alerts.py:225-232 | true exactly in an alarm state; changes nothing |
| Alerts.AlertSystem.AlertLoop | src/core/alerts.py:138-163 | one play attempt at once, then one after every wait that timed out, until the first interrupted wait; the attempts are spaced by the interval; every attempt plays the low sound for LOW_ALERT and the high sound otherwise |
| Monitor.Classify | src/core/monitor.py:51-85 | low is checked first and wins when the thresholds overlap; otherwise high, otherwise normal |
| Monitor.VerdictSetsState | src/core/monitor.py:51-85 | after a check the alarm state is the verdict |
| Monitor.NextErrors | src/core/monitor.py:87-124 | a reading resets the error counter, a missing reading leaves it, and an exception adds one |
| Monitor.ErrorsCountTrailingFailures | src/core/monitor.py:87-124 | after any run of polls, the counter is the number of failures since the last reading |
| Monitor.GlucoseMonitor.CheckGlucoseLevel | src/core/monitor.py:51-85 | the alarm moves to the verdict: trigger low, trigger high, or clear |
| Monitor.GlucoseMonitor.PollOnce | src/core/monitor.py:87-124 | true exactly when a reading arrived and was checked; the counter moves as `NextErrors` says |
| Monitor.GlucoseMonitor.RunOnce | src/core/monitor.py:183-197 | returns the reading, checked, or `None`; the counter is untouched |
| Monitor.GlucoseMonitor.Stop | src/core/monitor.py:173-181 | does nothing when not running; otherwise stops and shuts the alarm down |
| Database.SelectReadingsSpec | src/data/database.py:161-191 | the query returns only rows of the window, newest first, at most a positive limit; without a limit, every row of the window |
| Database.StoredReadingReadsBack | src/data/database.py:98-141 | a stored row reads back as exactly the reading `add_reading` returned |
| Database.ChartOldestFirst | src/data/database.py:193-208 | the chart is the readings oldest first, as (time, mmol) pairs |
| Database.StatsOf | src/data/database.py:318-345 | no readings give empty stats; otherwise the count, a min and a max that are readings and bound every reading, and a time in range of 100 times the number of readings in 3.9..10.0 over the count |
| Database.InRangeCounts | src/data/database.py:337 | the in-range count is the number of positions whose value lies in 3.9..10.0 |
| Database.InRangeAppend | src/data/database.py:337 | the in-range count of two runs of values is the sum of their counts |
| Database.Percent | src/data/database.py:344 | `(part / whole) * 100` is 100 times part over whole, between 0 and 100 |
| Database.LatestIgnoresDurations | src/data/database.py:247-257 | which snooze counts as latest depends only on start times |
| Database.ActiveSnooze | src/data/database.py:247-267 | the latest-started snooze, exactly when it is still active |
| Database.OnlyLatestConsulted | src/data/database.py:247-267 | an older snooze still running is not reported once a later one has ended |
| Database.TruncMinutes | src/data/database.py:280 | `int(seconds / 60)` truncates toward zero |
| Database.CancelledIsInactive | src/data/database.py:280-290 | cutting a snooze to its elapsed whole minutes ends it |
| Database.CancelEndsSnooze | src/data/database.py:269-294 | after a cancellation no snooze is active |
| Database.CancelledSnoozes | src/data/database.py:269-294 | the table after a cancellation: unchanged when nothing is active, otherwise the active row shortened to its elapsed whole minutes, after which no snooze that had started is active |
| Database.SettingRoundTrip | src/data/database.py:296-316 | a setting reads back as written; other keys are untouched |
| Database.Store.constructor | src/data/database.py:21-96 | the tables start empty |
| Database.Store.AddReading | src/data/database.py:98-141 | the row is appended with the next id, and the reading returned has trend NONE when none was given |
| Database.Store.GetReadings | src/data/database.py:161-191 | the readings the query selects, converted; changes nothing |
| Database.Store.GetReadingsForChart | src/data/database.py:193-208 | the chart points of the window's readings |
| Database.Store.GetStats | src/data/database.py:318-345 | the statistics of the window's readings: their count and, when there are any, 100 times the number in 3.9..10.0 over the count |
| Database.Store.AddSnooze | src/data/database.py:210-245 | a snooze starting now is appended with the next id |
| Database.Store.GetActiveSnooze | src/data/database.py:247-267 | the active snooze, as `ActiveSnooze` defines it |
| Database.Store.CancelSnooze | src/data/database.py:269-294 | false and no change when nothing is active; otherwise the active row's duration becomes the elapsed whole minutes |
| Database.Store.GetSetting | src/data/database.py:296-304 | the stored value, or the default |
| Database.Store.SetSetting | src/data/database.py:306-316 | insert or replace the one key |
| Database.Store.CleanupOldData | src/data/database.py:347-370 | deletes exactly the readings older than the cutoff and returns how many there were |
| Emergency.CleanPhoneProperties | src/core/emergency.py:28 | cleaning keeps the count of every character other than space and dash, and cleaning twice is cleaning once |
| Emergency.CallFaceTime | src/core/emergency.py:11-38 | off macOS nothing runs and the result is false; on macOS one `open facetime://…` runs and the result is whether it succeeded |
| Emergency.EscapedQuotesAreEscaped | src/core/emergency.py:92-93 | every quote in the fallback escaping's output is preceded by a backslash |
| Emergency.BackslashBreaksLiteral | src/core/emergency.py:57-58 | as written, a trailing backslash breaks the literal, and "\n" in the text arrives as a line break |
| Emergency.EscapeRoundTrip | src/core/emergency.py:57-58 | corrected escaping (backslashes, then quotes): every message reads back exactly |
| Emergency.SendIMessage | src/core/emergency.py:41-106 | off macOS nothing runs; on macOS the primary script runs with the as-written escaping, and a non-zero exit, and only that, runs the fallback script, whose success is the result |
| Emergency.OpenMessagesApp | src/core/emergency.py:109-131 | a non-empty phone opens its conversation, otherwise the app; true exactly on macOS when the command succeeded |
| HostSystem.CheckVolumeStatus | src/core/system.py:96-116 | muted wins, then a known volume below the minimum; an unknown volume counts as adequate |
| HostSystem.ParseAmixerVolume | src/core/system.py:50-66 | the number inside the leftmost "[N%]" of the amixer output, or `None` |
| HostSystem.MatchPercent | src/core/system.py:61-64 | a bracketed percentage reads back as its number |
| HostSystem.SleepGuard.PreventSleep | src/core/system.py:119-155 | only on macOS; a held process is kept and reported as success |
| HostSystem.SleepGuard.AllowSleep | src/core/system.py:158-170 | the handle is dropped whether or not terminating succeeds |
| Cli.CheckSound | src/cli.py:76-95 | missing, then not a file, then a suffix other than .wav/.mp3/.mpeg in any case; no complaint exactly when all pass |
| Cli.Mp3IsSupported | src/cli.py:81-82 | every file the alarm plays as MP3 passes the start-up suffix check |
| Cli.Complaints | src/cli.py:70-96 | the low sound's complaint, then the high sound's, and exactly those |
| Cli.CollectSoundErrors | src/cli.py:70-96 | the list built one check at a time is `Complaints` |
| Cli.NormaliseDelay | src/cli.py:110-133 | empty or non-numeric input keeps the configured delay; a negative one becomes 0 |
| Cli.TypedNumberKept | src/cli.py:110-133 | typing a non-negative number gives that number |
| Cli.Startup | src/cli.py:44-135 | unconfigured exits first, and a configured installation never exits for that; sounds resolved as written with complaints exit with exactly those complaints, low then high; otherwise monitoring starts with the typed delay, and it starts whenever both checks pass; a non-negative configured delay gives a non-negative delay in seconds |
| FletTheme.GlucoseColor | src/ui/theme.py:63-73 | low is checked first, then very high (>= 13.0), then high |
| FletTheme.DefaultBands | src/ui/theme.py:63-73 | with the defaults: red to 3.9, green below 10.0, amber below 13.0, orange from 13.0 |
| FletTheme.ColorMonotone | src/ui/theme.py:63-73 | when low < high, a higher reading never gets a colour lower on the scale |
| QtTheme.GlucoseColor | src/ui_qt/theme.py:15-21 | red up to low, orange from high, green between |
| QtTheme.AgreesWithFlet | src/ui_qt/theme.py:15-21 | both themes agree on low and normal; Qt's orange is exactly Flet's amber or orange |
| AppState.PersistedIsElapsedMinutes | src/ui/app.py:510-512 | the integer persistence test equals the source's `total_seconds() / 60 >= minutes` |
| AppState.SnoozeWindow | src/ui/app.py:598-632 | a snooze runs exactly until its deadline, and a cancellation ends it at once |
| FletApp.Evaluate | src/ui/app.py:473-545 | as written: a running snooze ignores the reading; a threshold error makes no change; the urgent low sounds at once; low and high sound once their persistence has passed; normal clears |
| FletApp.LowPersistence | src/ui/app.py:504-519 | the first low tick records its time; later ones keep it and sound exactly once the persistence minutes have passed |
| FletApp.NormalRestartsPersistence | src/ui/app.py:540-545 | a normal reading restarts the persistence clock |
| FletApp.UrgentLowSuppressedBySnooze | src/ui/app.py:481-501 | as written, a reading of 2.0 during a snooze is ignored |
| FletApp.EvaluateUrgentFirst | src/ui/app.py:481-501 | corrected: an urgent low alerts before anything else and leaves the snooze running; otherwise it agrees with `Evaluate` |
| FletApp.UrgentFirstNeverSuppressed | src/ui/app.py:481-501 | no snooze and no unresolvable schedule silences an urgent low |
| FletApp.SnoozeKeyInjective | src/ui/app.py:564 | different phones or kinds never share a message-snooze key |
| FletApp.SendFrame | src/ui/app.py:547-587 | only contacts that want this kind are messaged; only their entries change; none is removed; no success leaves the map unchanged |
| FletApp.DistinctContacts | src/ui/app.py:547-587 | with distinct phones, a contact is messaged exactly when it wants the kind and is due, and a success moves its entry to the snooze minutes from now |
| FletApp.SharedPhoneMessagedOnce | src/ui/app.py:559-583 | two contacts sharing one phone: once the first message succeeds, the second is not sent |
| FletApp.SendAll | src/ui/app.py:556-587 | the loop's final map and attempts are those of the contact-by-contact specification |
| FletApp.App.constructor | src/ui/app.py:28-59 | fresh tracking state, an empty message-snooze map, and no current glucose |
| FletApp.App.SendAlertMessages | src/ui/app.py:547-587 | the message-snooze map becomes the specification's result |
| FletApp.App.CheckThresholds | src/ui/app.py:473-545 | the tracking state, alarm and message map follow `FletApp.Evaluate`, as written, and the messages of the kind it sounds |
| FletApp.App.OnReading | src/ui/app.py:416-463 | the reading becomes the current glucose and is checked as `FletApp.Evaluate` says, with the messages of the kind it sounds |
| FletApp.App.HandleSnooze | src/ui/app.py:598-615 | snoozed until the minutes from now, the alarm cleared; the snooze row is appended with the next id, and the readings, the settings and the reading id stay |
| FletApp.App.HandleCancelSnooze | src/ui/app.py:617-632 | the snooze is dropped; the database's snoozes become `Database.CancelledSnoozes` of the old table and its readings, settings and id counters stay; a current reading other than 0.0 is checked again by `FletApp.Evaluate` with its messages, otherwise nothing else changes |
| QtApp.Evaluate | src/ui_qt/app.py:331-391 | the urgent low sounds whatever the snooze and restarts the low clock; otherwise a running snooze ends the check and an expired one is cleared; the default thresholds decide; a condition still inside its persistence window clears the alarm |
| QtApp.SchedulesIgnored | src/ui_qt/app.py:362-385 | schedules play no part in the evaluation |
| QtApp.UrgentLowBypassesSnooze | src/ui_qt/app.py:345-359 | an urgent low sounds while snoozed and leaves the snooze as it was |
| QtApp.LowPersistence | src/ui_qt/app.py:362-372 | the first low tick records its time and clears the alarm unless no persistence is set; a later tick sounds exactly once the minutes have passed |
| QtApp.UrgentRestartsLowClock | src/ui_qt/app.py:345-372 | a low that follows an urgent tick counts its persistence from the urgent tick |
| QtApp.AgreesWithFlet | src/ui_qt/app.py:331-391 | without schedules and above the urgent low, both interfaces reach the same state and alarm, except that Qt clears inside the persistence window where Flet does nothing |
| QtApp.TrendArrowAsWritten | src/ui_qt/app.py:286-304 | the arrow as written: a trend value's arrow, or the table looked up on the lower-cased description |
| QtApp.CamelCaseKeysUnreachable | src/ui_qt/app.py:294-304 | as written, a table key with a capital letter is never found |
| QtApp.SingleUpShowsSteady | src/ui_qt/app.py:294-304 | as written, "singleUp" shows "→" instead of its listed arrow |
| QtApp.TrendArrow | src/ui_qt/app.py:286-304 | corrected: a trend value gives its trend and arrow; otherwise the lowered table's arrow, "→" when missing, and no trend |
| QtApp.EveryListedSpellingReached | src/ui_qt/app.py:294-304 | corrected: every spelling the table lists shows its listed arrow |
| QtApp.MergeSection | src/ui_qt/app.py:441-449 | fails exactly on a dict over a non-dict; a dict is merged with given keys winning; anything else replaces; other sections are unchanged |
| QtApp.MergeFromSpec | src/ui_qt/app.py:441-449 | the merge fails exactly when some given dict meets a non-dict; otherwise untouched sections are kept, dicts are shallow-updated and other values replace |
| QtApp.MergeSettings | src/ui_qt/app.py:437-449 | the loop's result is the merge over the given sections in order |
| QtApp.App.constructor | src/ui_qt/app.py:32-48 | fresh tracking state and no current glucose |
| QtApp.App.CheckThresholds | src/ui_qt/app.py:331-391 | the tracking state and alarm follow `QtApp.Evaluate` |
| QtApp.App.FetchGlucose | src/ui_qt/app.py:273-321 | no reading changes nothing; a reading becomes the current glucose, is stored with the trend `TrendArrowAsWritten` gives, and is checked; returns that arrow; the snooze table, the settings and the snooze id stay, and the reading id moves by one exactly when a reading was stored |
| QtApp.App.HandleSnooze | src/ui_qt/app.py:414-423 | snoozed until the minutes from now, and the alarm cleared |
| QtApp.App.HandleCancelSnooze | src/ui_qt/app.py:425-430 | the snooze is dropped and nothing is checked again |
| Text.JoinSplit | src/core/config.py:83 | joining the parts of a split with the separator gives back the text |
| Text.ParseIntToString | src/cli.py:122 | `int()` of an integer's decimal form gives the integer |

## Left out

- `dexcom_client` and the network are outside the model. A reading, or its absence, is an input; a client error is an input outcome.
- The not-configured and `None` guards (`if not self.db`, `if self.alert_system`, and so on) are left out: every object is present in the model.
- `_emergency_triggered` in the Flet interface is left out. It is initialised but never consulted in the decision code.
- Each evaluation reads the clock once (`now`). The source calls `datetime.now()` separately for the snooze test, the schedules and the persistence test.
- Threads are not modelled: the monitor loops, the Qt timers, and the alert thread's join with its timeout. A stop is taken to take effect at once.
- `Alerts.AlertSystem.AlertLoop`: the file kind and the player outcome are fixed for the whole loop. Time is the attempt index times the interval. Only runs that end with a stop are modelled (`waits` holds an interrupted wait); a loop that is never stopped is left out.
- `Alerts.AlertSystem.ShutdownSystem`: `pygame.mixer.quit()` is not modelled.
- `Database.Store`: tables start empty and timestamps compare as integers, not ISO strings. Rows with equal timestamps are ordered in one fixed way. `get_latest_reading`, the schema version table and `close` are left out.
- `Database.StatsOf` does not state the average (`avg`), because sums of reals add nothing to the decision model.
- YAML reading and writing, `save_config`, `_load_yaml` and the file existence checks are outside the model. Their results are inputs.
- `HostSystem`: the Darwin and Windows volume probes, `is_muted`'s subprocess, and the `atexit` hook are left out. Their outputs are inputs; only the Linux amixer parse is modelled as text.
- `Text.Strip` strips ASCII whitespace only; Python's `str.strip()` also strips the separators `\x1c`-`\x1f`, `\x85`, `\xa0` and the other Unicode spaces.
- `FletApp.SendAll` records which contacts are messaged and the snooze map, not the phone number or the text sent; `Emergency.SendIMessage` models one send.
- `Text.ParseInt` accepts only ASCII digits with an optional sign; it does not strip whitespace, so its callers (`Cli.NormaliseDelay`, `Config.ParseTime`) strip first. Python's `int()` also accepts underscores and Unicode digits.
- `Text.Lower` lower-cases ASCII letters only; Python's `str.lower` also folds other Unicode letters.
- `Paths` parses every path with POSIX rules, including a Windows `LOCALAPPDATA` value and a leading "//".
- `HostSystem.ParseAmixerVolume` reads ASCII digits; the source's `\d` also matches other Unicode digits.
- Paths.ResolveSoundPathContained: containment is lexical. The corrected resolution keeps ".." components, so a name such as "../x.wav" lies inside the resources directory as a sequence of components while the file it names may not.
- `Emergency.ReadLiteral` assumes that AppleScript reads an escaped character it does not know as that character.
- `QtApp.MergeSettings` covers only the merge loop. `Config(**current)` validation, `save_config`, and re-initialising the client and alarm are left out.
- `FletApp.App.OnReading` leaves out the database row that `_poll_glucose` writes, and the UI update.
- `Monitor.GlucoseMonitor`: `_max_consecutive_errors` only changes a log message, so only the counter is modelled. `start`, with its startup delay and thread, is left out.
- All widgets, dialogs, views, the tray, the `styled_button`/`card`/`section_title` helpers, and logging are left out.
- The classes and helpers follow the code as written: `FletApp.App` uses `FletApp.Evaluate`, `QtApp.App.FetchGlucose` uses `QtApp.TrendArrowAsWritten`, the iMessage scripts use `Emergency.EscapePrimary` and `Emergency.EscapeFallback`, and the alarm and the CLI resolve sounds with `Paths.ResolveSoundPath`. Each finding's corrected member stands beside them as the partner its property is proved about.

## Findings

| source | as written | input that shows it | evidently intended | confidence | as-written member | corrected member |
|---|---|---|---|---|---|---|
| src/ui/app.py:481-501 | the snooze returns before the urgent-low test, whose comment says it alerts regardless | snoozed for 30 minutes, reading 2.0 a minute later: no alarm | an urgent low alerts whatever the snooze | not executed | FletApp.UrgentLowSuppressedBySnooze | FletApp.EvaluateUrgentFirst |
| src/core/config.py:187-193 | the high-threshold check is a field validator, which pydantic skips for a default | `low_threshold: 16.0` with the high left at 15.0: accepted, then every threshold resolution fails | high > low for every accepted configuration | not executed | Config.InvertedThresholdsAccepted | Config.StrictAcceptsResolvable |
| src/ui_qt/app.py:294-304 | camel-case keys are looked up with a lower-cased description | trend description "singleUp": shows "→" | every listed spelling maps to its listed arrow | not executed | QtApp.SingleUpShowsSteady | QtApp.EveryListedSpellingReached |
| src/core/emergency.py:57-58 | backslashes are not escaped before quotes | message "\\" ends the literal early; "\n" arrives as a line break | the message arrives as typed | not executed | Emergency.BackslashBreaksLiteral | Emergency.EscapeRoundTrip |
| src/core/paths.py:75-80 | after stripping "resources/" the remainder may be absolute and replace the join | "resources//tmp/x.wav" resolves to /tmp/x.wav | relative names resolve lexically inside the resources directory | not executed | Paths.ResolveEscapesResources | Paths.ResolveSoundPathContained |
