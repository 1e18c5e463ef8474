# Minecraft server monitor: a verified model of one status check

The monitor polls a public status API for one Minecraft server (Bedrock or
Java) every few minutes. It compares the answer with what it saw last time
and posts a Discord notification for each thing that changed:

- the server went ONLINE or OFFLINE;
- the version changed;
- the Bedrock gamemode changed;
- players joined or left (by name on Java, by count otherwise).

It keeps the last snapshot in a small JSON data file so that a restart does
not repeat notifications. This project models the heart of that program,
`check_server` in `monitor.py`, together with the shapes of the data file
that `load_previous_data` reads and `save_current_data` writes.

The model has six modules:

- `Text`: Python's `str.strip()`, `"sep".join(...)`, splitting a message
  back into lines, and the decimal text an f-string gives for a count.
- `Names`: Python's `sorted()` on player names. It defines code-point
  string order (`Below`) with its order laws, a specification sort
  `SortedOf`, and an executable insertion sort `SortNames` proved equal to it.
- `State`: the fetched observation, the fetch errors, the five-value
  snapshot passed from one check to the next, and the data file's record.
- `Compose`: the exact notification texts. The leading marks are the
  mis-decoded emoji that `monitor.py` really holds, written code point by
  code point. Each notification is the newline-join of its lines.
- `Detect`: what one check decides, as functions:
  - the list of changes in the order they are sent (status or version,
    then gamemode, then players);
  - the snapshot it returns;
  - lemmas for each rule, for a series of checks, and for two concrete
    scenarios.
- `Monitor`: the program itself, as a class `ServerMonitor`. It holds:
  - `state`, the snapshot;
  - `outbox`, every notification handed to the webhook;
  - `saved`, the data file's content.

  `CheckServer` updates all three step by step, section by section, as the
  source does. It is proved to send exactly the specified notifications, to
  rewrite the data file exactly when it sent something, and to return the
  specified snapshot.

Two consequences of `monitor.py` worth knowing:

- There is no offline debounce: one offline answer reports OFFLINE at once.
- The defaults hold an empty gamemode and a count of 0, so a first check
  that finds a Bedrock server up with players and a non-blank gamemode also
  sends a gamemode and a count notification (`Detect.FirstBedrockCheck`).

The notification marks are the constants `OnlineMark` (monitor.py:176),
`OfflineMark` (199), `VersionMark` and `Arrow` (206), `InfoMark` (213),
`NoteMark` (194), `JoinMark` (231, 253, 255), `LeaveMark` (237, 259, 261) and
`StatsMark` (241, 253-261) of module `Compose`.

## Model

| member | source | states |
|---|---|---|
| Monitor.ServerMonitor.CheckServer | monitor.py:93-279 | A failed fetch changes nothing. Otherwise the outbox grows by exactly the specified notifications, in order. The data file is rewritten, with the returned snapshot under the configured type, exactly when a notification was sent; otherwise it keeps its old content. The state becomes the specified next snapshot. |
| Monitor.ServerMonitor.Report | monitor.py:167-264 | Running the status, gamemode and player sections in turn sends the notifications of the whole check. `data_changed` is set exactly when there are any. |
| Monitor.ServerMonitor.ReportStatus | monitor.py:170-208 | Sends the ONLINE/OFFLINE or version notification as the status rule specifies, and reports whether it sent one. |
| Monitor.ServerMonitor.ReportGamemode | monitor.py:210-215 | Sends the gamemode notification as the gamemode rule specifies, and reports whether it sent one. |
| Monitor.ServerMonitor.ReportPlayers | monitor.py:217-264 | Sends the roster or count notification as the player rule specifies, and reports whether it sent one. |
| Monitor.ServerMonitor.Commit | monitor.py:266-279 | The returned snapshot is the specified next state. When data changed, the data file holds exactly that snapshot under the configured type; otherwise the file is untouched. |
| Monitor.ServerMonitor.Save | monitor.py:60-76 | The data file is replaced by the five values with the known status and the configured server type. |
| Monitor.ServerMonitor.Send | monitor.py:78-91 | One message is appended to what the webhook received. |
| Monitor.ServerMonitor.constructor | monitor.py:42-58 | At start-up the snapshot is the stored one, or the defaults when there is no usable file. Nothing has been sent yet. |
| Monitor.OnlineMessage | monitor.py:173-197 | The ONLINE message is the newline-join of: the header (with the version unless it is empty or "Unknown"); Java's software/plugins/mods line when any is present; the message of the day when non-empty. |
| Monitor.AppendNameLines | monitor.py:228-237 | The loop over the sorted names appends exactly one line per name, in order, after the lines already collected. |
| Monitor.NameParts | monitor.py:224-237 | The name lines are one "joined!" line per joined name in ascending order, then one "left." line per departed name in ascending order; there are as many lines as names. |
| Monitor.RosterMessage | monitor.py:219-245 | No message when nobody joined or left. Otherwise the message is the name lines followed by the population line, joined by newlines. |
| Monitor.CountMessage | monitor.py:246-264 | The count message's four literal forms ("A player joined!", "N players joined!", "A player left.", "N players left.", each followed by the population line) are exactly the rendering of the count change. |
| Names.SortNames | monitor.py:230 | The result is strictly ascending in code-point order, holds exactly the set's names, has the set's size, and is the unique sorted listing `SortedOf`. |
| Names.SortedOf | monitor.py:236 | The specification of `sorted()` on a set of names: strictly ascending, the same names, the same count. |
| Names.SortedUnique | monitor.py:230 | Two strictly ascending sequences with the same names are equal, so the sorted order of a set of names is unique. |
| Names.Insert | monitor.py:230 | Inserting a new name into a strictly ascending sequence keeps it strictly ascending, adds exactly that name, and grows it by one. |
| Names.LeastExists | monitor.py:230 | Every non-empty set of names has a least element in code-point order. |
| Names.BelowMeaning | monitor.py:230 | `a` sorts before `b` exactly when `a` is a proper prefix of `b`, or at the first differing position `a` has the smaller code point. |
| Names.BelowIrreflexive | monitor.py:230 | No name sorts before itself. |
| Names.BelowTransitive | monitor.py:230 | Code-point order is transitive. |
| Names.BelowTotal | monitor.py:230 | Of two different names, one sorts before the other. |
| Names.BelowAsymmetric | monitor.py:230 | Two names never sort before each other. |
| Text.Strip | monitor.py:139 | The stripped gamemode neither starts nor ends with Python whitespace. |
| Text.StripSlice | monitor.py:139 | The stripped gamemode is a slice of the raw one, and only whitespace is cut away on either side. |
| Text.StripFixed | monitor.py:139 | A string with no whitespace at either end is its own strip. |
| Text.StripIdempotent | monitor.py:139 | Stripping twice is stripping once. |
| Text.SkipSpace | monitor.py:139 | The first index at or after `i` that is not whitespace; everything skipped is whitespace. |
| Text.SkipSpaceBack | monitor.py:139 | The end of the slice once trailing whitespace is dropped; everything dropped is whitespace. |
| Text.Join | monitor.py:195 | Joining no parts gives the empty string; joining one part gives that part. |
| Text.JoinTwo | monitor.py:195 | Joining two parts puts the separator once between them. |
| Text.Split | monitor.py:195 | Splitting always yields at least one part. |
| Text.SplitJoin | monitor.py:195 | Splitting a newline-join at the newline gives back its parts when no part holds a newline. |
| Text.SplitNoSeparator | monitor.py:195 | A string without the separator splits into itself alone. |
| Text.SplitAtSeparator | monitor.py:195 | A separator-free part followed by the separator and a rest splits into that part followed by the split of the rest. |
| Text.DecimalString | monitor.py:241 | An int in an f-string is non-empty, all digits, and has no leading zero unless it is 0. |
| Text.DecimalRoundTrip | monitor.py:253 | Reading the rendered digits back gives the number. |
| Text.DigitValue | monitor.py:253 | A digit character's value is below ten. |
| Text.DigitRoundTrip | monitor.py:253 | Each digit character reads back as its digit. |
| State.DefaultSnapshot | monitor.py:56 | The defaults have an unknown status and no player names. |
| State.LoadPrevious | monitor.py:42-58 | No usable file gives the defaults with the configured type. A stored record gives its own server type. |
| State.RecordOf | monitor.py:60-76 | Loading what was saved gives back the same snapshot and the configured type. |
| Compose.NameLines | monitor.py:230-237 | One line per name, the i-th line made from the i-th name. |
| Compose.NameLinesSnoc | monitor.py:230-237 | One more name adds one line at the end. |
| Compose.Lines | monitor.py:176-264 | Every notification has at least one line. |
| Compose.RenderAll | monitor.py:197 | One notification per change. |
| Compose.RenderAllAt | monitor.py:197 | The i-th notification is the i-th change's text. |
| Compose.RenderAllAppend | monitor.py:197 | Rendering distributes over concatenation of changes. |
| Compose.Reassociate | monitor.py:197 | A helper, not a behaviour of monitor.py: sequence concatenation reassociates, which lets `Report` show that the outbox grown section by section equals the whole check's notifications. |
| Compose.RenderSplits | monitor.py:195 | A notification splits back into exactly its lines when no line holds a newline. |
| Compose.RosterLayout | monitor.py:224-245 | A roster notification has one line per joined name in the given order, then one per departed name, then the population line last. |
| Compose.CountedSingular | monitor.py:187 | "plugin"/"mod" get a plural "s" exactly when the number is not 1. |
| Compose.ExtraInfoShape | monitor.py:179-192 | The extra line has at most three parts. It is empty exactly when there is no software, plugin or mod. Software comes first, mods last, and a plugin count appears whenever there are plugins. |
| Compose.CountLineWording | monitor.py:251-261 | A change of one says "A player joined!" or "A player left.". Otherwise the text between the mark and "players joined!"/"players left." reads back as the size of the change. |
| Detect.NotificationsInSections | monitor.py:167-264 | A check's notifications are the status section's, then the gamemode section's, then the player section's. |
| Detect.FailureChangesNothing | monitor.py:105-125 | Each fetch error returns the previous snapshot and sends nothing. |
| Detect.NextStateFields | monitor.py:273-279 | A successful check leaves the status known and takes the count from the fetch. Online, it also takes gamemode, version and names from the fetch. Offline, it keeps the previous gamemode and version and empties the roster. |
| Detect.StatusRule | monitor.py:171-201 | A status notification goes out exactly when the online flag differs from the previous status (including the first check). It is then the first notification and announces the new status. |
| Detect.StatusText | monitor.py:173-201 | ONLINE carries the version header, Java's extra line and the message of the day (Bedrock: the header alone). OFFLINE is the single fixed line. |
| Detect.VersionRule | monitor.py:204-208 | A version notification goes out exactly when the status is unchanged, the server is online, and the new version differs and is not "Unknown". It is first and names both versions. It never accompanies a status notification. |
| Detect.GamemodeRuleHolds | monitor.py:211-215 | A gamemode notification goes out exactly for Bedrock, online, when the stripped gamemode differs from the previous one, and every gamemode notification names the stripped gamemode. Java never gets one. |
| Detect.RosterRule | monitor.py:219-245 | Java with a roster on either side: the count is never reported. A roster notification goes out exactly when someone joined or left. It is last and lists exactly the joined and the departed names, each strictly ascending, with the new count and maximum. |
| Detect.CountRule | monitor.py:246-264 | Bedrock, or Java with both rosters empty: no roster notification. A count notification goes out exactly when the count changed; it is last and carries the signed difference. |
| Detect.OfflineOnlyStatus | monitor.py:198-201 | An offline answer produces only OFFLINE, and only when the status changed. |
| Detect.NotificationOrder | monitor.py:170-264 | At most three notifications per check, in the order status/version, gamemode, players. |
| Detect.DefaultConsistent | monitor.py:56 | The defaults are consistent for either server type. |
| Detect.ConsistentPreserved | monitor.py:266-279 | Every check keeps the snapshot consistent: Bedrock holds no names and an already-stripped gamemode, and Java holds no gamemode. |
| Detect.RepeatIsQuiet | monitor.py:167-279 | The same answer twice in a row: the second check sends nothing and returns the same snapshot. |
| Detect.FailuresInvisible | monitor.py:293-297 | In the poll loop, any run of failed fetches before later checks changes neither the later snapshots nor the later notifications. |
| Detect.FirstBedrockCheck | monitor.py:127-264 | A first Bedrock check that finds the server up with three players and gamemode " Survival\n" yields ONLINE, "Gamemode changed to: Survival" and a count change of +3, and stores the stripped gamemode. |
| Detect.RosterExample | monitor.py:219-245 | Alex stays, Notch joins, Steve leaves: one roster notification naming Notch as joined and Steve as departed, and nothing else. |
| Detect.GamemodeOf | monitor.py:133-139 | Defines the gamemode a check compares: Bedrock's reported gamemode stripped of whitespace; Java's stays empty. |
| Detect.MotdOf | monitor.py:133-145 | Defines the message of the day: Java's first clean line; Bedrock's stays empty. |
| Detect.NamesOf | monitor.py:135-152 | Defines the current roster: Java's reported names as a set; Bedrock's stays empty. |
| Detect.ExtraOf | monitor.py:180-190 | Defines Java's extra parts (software, plugin count, mod count); Bedrock has none. |
| Detect.TracksRoster | monitor.py:219 | Defines when players are compared by name: Java with names in the previous or the current roster. |
| Detect.StatusOrVersion | monitor.py:171-208 | Defines the first section: ONLINE/OFFLINE when the status differs, else a version change when online with a new, known version. |
| Detect.GamemodeRule | monitor.py:211-215 | Defines the gamemode section: Bedrock, online, stripped gamemode different from the stored one. |
| Detect.PlayerRule | monitor.py:218-264 | Defines the player section: online only; by name when the roster is tracked, else by count. |
| Detect.Changes | monitor.py:167-264 | Defines a successful check's changes: the three sections in order. |
| Detect.Notifications | monitor.py:167-264 | Defines what a check sends: nothing on a failed fetch, else one rendered text per change. |
| Detect.NextState | monitor.py:273-279 | Defines the returned snapshot: the previous one on a failed fetch, else the fetched status, count, names, gamemode and version (offline keeps gamemode and version and empties names). |
| Detect.Run | monitor.py:293-297 | Defines the poll loop's snapshot after a series of fetches, each check starting from the one before. |
| Detect.RunNotifications | monitor.py:293-297 | Defines everything the poll loop sends over a series of fetches, in order. |
| Compose.OnlineHeader | monitor.py:175-176 | Defines the ONLINE header, with the version in parentheses unless it is empty or "Unknown". |
| Compose.ExtraInfo | monitor.py:179-192 | Defines the parts of Java's extra line: software, plugins, mods, each when present. |
| Compose.Counted | monitor.py:187 | Defines "N plugin(s)" / "N mod(s)" with the plural "s" unless N is 1 (also line 190). |
| Compose.MotdLine | monitor.py:194 | Defines the message-of-the-day line. |
| Compose.VersionLine | monitor.py:206 | Defines the version-change text, old version then arrow then new version. |
| Compose.GamemodeLine | monitor.py:213 | Defines the gamemode-change text. |
| Compose.JoinedLine | monitor.py:231 | Defines the line for one joined player. |
| Compose.LeftLine | monitor.py:237 | Defines the line for one departed player. |
| Compose.PopulationLine | monitor.py:241 | Defines "count/max players online" (also lines 253-261). |
| Compose.CountLine | monitor.py:249-261 | Defines the count fallback's first line: joins for a rise, departures otherwise, "A player" for one. |
| Compose.Render | monitor.py:195 | Defines a notification's text as its lines joined by newlines (also line 242). |
| Names.Below | monitor.py:230 | Defines Python's code-point string order used by `sorted()` (also line 236). |
| Text.IsSpace | monitor.py:139 | Defines the characters Python's `str.strip()` removes. |

## Left out

- The HTTP request: the session, headers, URL, timeout and `raise_for_status`. A fetch is a parameter of `CheckServer`: either one of the five error kinds check_server catches, or an observation. The log text of each error is not modelled.
- JSON navigation of the API answer. The observation holds the values after check_server's `.get(..., default)` lookups, and counts and plugin/mod lists are reduced to their lengths. Answers whose values have other JSON types are not modelled.
- The message of the day when the API sends a `motd` object whose `clean` list is empty. The source's `[0]` then raises an uncaught IndexError and the check stops. The model takes the message of the day as an already-extracted string.
- Logging and timestamps (`log`, `datetime`): no clock enters the notifications.
- The Discord webhook. Sending appends to `outbox`; its HTTP call and status-code logging are not modelled, nor is the skip when no webhook URL is configured.
- File I/O and JSON encoding of the data file. The file is `saved`, with no file meaning `None`.
- State.LoadPrevious: a data file that is valid JSON but lacks some keys (load_previous_data then defaults each missing key) is not modelled; a record has all fields.
- The order of `player_names` inside the data file: the model keeps the names as a set, as load_previous_data does.
- Environment configuration, the `MC_SERVER` check with `sys.exit`, the URL building, the main `while True` loop with `time.sleep`, and the server-type-change warning. `Detect.Run` and `Detect.FailuresInvisible` describe the loop as a series of checks over a list of fetches.
- `server_info` (monitor.py:140, 155-165), which is built but never used.
- Monitor.CountMessage: it never receives a difference of 0 from `CheckServer`. Like check_server's `else`, it would word 0 as "0 players left.".
