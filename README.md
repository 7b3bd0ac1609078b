# combined-aio settings and task core, in Dafny

This project models the parts of the combined-aio Telegram music bot that keep state and
make decisions, leaving out the chat plumbing:

- `TaskManager`, the registry of running downloads: create, cancel, cancel all, finish, get, list;
- the progress reporter: its clamped counters, its rate-limited edit, and the lines it renders;
- the per-user conversation store (`ConversationState`) and the Apple-wrapper setup
  conversation that runs on it (`handle_text_input`, `/cancel`, `_run_wrapper_setup_flow`);
- the access check and the anti-spam busy list of bot/helpers/message.py;
- the line-based YAML editor of the `/config` command: masking, key lookup, key rewrite;
- the `--flag value` parser and the link routing of `/download`;
- the Apple Music provider: the downloader's command line, the URL check and the content id;
- the utilities: placeholder substitution, the size-bounded zip split, the zip name, the
  progress bar;
- the typed settings table, the per-user settings table and the download history of
  bot/helpers/database/pg_impl.py, over maps in place of SQL;
- the global `bot_set` object: what it loads at startup, the upload-mode choice, the base 64
  "encryption" of stored secrets;
- the settings, Telegram and provider panels: each button's cycle or toggle and what it saves.

Each module follows one source file. Where the source mutates an object (`TaskManager`,
the reporter, the conversation store, `bot_set`, the settings tables, the Tidal session) the
model is a class whose methods state the whole new state; pure string and option logic
becomes functions with lemmas. The decoders have their round trips proved (base 64 as in
section 4 of RFC 4648, UTF-8, decimal integers, the YAML key rewrite, the callback data).

The bot's clock, uuid generation, the setup script's output and exit code, the existence of an
rclone config and the database's current time are parameters of the methods that use them.

## Model

| member | source | states |
|---|---|---|
| Tasks.Cancelled | bot/helpers/tasks.py:59-61 | one cancellation sets the event and the status "cancelling" on a task whose event was unset, leaves a task already cancelled untouched, and never changes user, chat, label, subprocess or reporter |
| Tasks.Terminations | bot/helpers/tasks.py:62-66 | a cancellation asks for a terminate exactly when the event was unset and a subprocess is attached, and then for that subprocess only |
| Tasks.CancelIdempotent | bot/helpers/tasks.py:54-68 | cancelling a task twice leaves it as cancelling once does, and the second time terminates nothing |
| Tasks.CancelAllTable | bot/helpers/tasks.py:70-86 | after a bulk cancel the table has the same ids; tasks of the given user (every task when no user is given) are cancelled and every other task is unchanged |
| Tasks.CountIsCardinality | bot/helpers/tasks.py:72-84 | walking ids without repeats, the counter equals the number of distinct walked tasks that were owned and still unset |
| Tasks.CancelAllCount | bot/helpers/tasks.py:70-86 | the number `cancel_all` returns is the number of owned tasks whose cancel event was not yet set |
| Tasks.CancelAllAgainIsQuiet | bot/helpers/tasks.py:70-86 | a second bulk cancel for the same owner counts zero and terminates no process |
| Tasks.Select | bot/helpers/tasks.py:101-105 | the filtered listing holds only entries of the table owned by the user, holds every such entry among the walked ids, and has no repeated id |
| Tasks.Without | bot/helpers/tasks.py:94 | deleting an id from the insertion order keeps every other id, drops that one, and keeps the order free of repeats |
| Tasks.TableToKeys | bot/helpers/tasks.py:73-85 | the partial bulk cancel never adds or removes an id |
| Tasks.TableToAt | bot/helpers/tasks.py:73-85 | after walking a prefix, a task is cancelled exactly when it was walked and is owned |
| Tasks.TableToAll | bot/helpers/tasks.py:73-86 | walking the whole insertion order is the bulk cancel of the table |
| Tasks.CancelWalk | bot/helpers/tasks.py:72-86 | the loop of `cancel_all` yields the bulk-cancelled table, the count and the terminate requests of the specification functions |
| Tasks.TaskManager.constructor | bot/helpers/tasks.py:22-24 | a new manager has no tasks and has terminated nothing |
| Tasks.TaskManager.Create | bot/helpers/tasks.py:26-32 | the new task is running, not cancelled, with no subprocess or reporter, stored under its id and appended to the insertion order |
| Tasks.TaskManager.RegisterSubprocess | bot/helpers/tasks.py:34-39 | a known task gets the process and nothing else changes; an unknown id changes nothing |
| Tasks.TaskManager.ClearSubprocess | bot/helpers/tasks.py:41-45 | a known task loses its process and nothing else changes; an unknown id changes nothing |
| Tasks.TaskManager.AttachProgress | bot/helpers/tasks.py:47-52 | a known task gets the reporter and nothing else changes; an unknown id changes nothing |
| Tasks.TaskManager.Cancel | bot/helpers/tasks.py:54-68 | returns true exactly for a known id; then that task alone is cancelled and its terminate request, if any, is logged; otherwise nothing changes |
| Tasks.TaskManager.CancelAll | bot/helpers/tasks.py:70-86 | the table becomes the bulk cancel for the user, the count is the walk's count and the terminate requests are appended in insertion order |
| Tasks.TaskManager.Finish | bot/helpers/tasks.py:88-95 | the id leaves the table and the insertion order; nothing else changes |
| Tasks.TaskManager.Get | bot/helpers/tasks.py:97-99 | the stored task for a known id, None for an unknown one |
| Tasks.TaskManager.List | bot/helpers/tasks.py:101-105 | exactly the tasks owned by the user (all tasks when no user is given), each with its stored state, no id twice |
| Progress.ClampPercent | bot/helpers/progress.py:35 | the clamped percent lies in 0..100, equals the input inside that range and the nearer bound outside it |
| Progress.AtLeastZero | bot/helpers/progress.py:52 | a counter stored by the updaters is the input when non-negative and 0 otherwise |
| Progress.MakeBar | bot/helpers/progress.py:33-37 | the bar has ten cells; cell i is filled exactly when i is below a tenth of the clamped percent, and empty otherwise |
| Progress.MakeBarClamps | bot/helpers/progress.py:35-36 | out-of-range percents draw the bar of the nearer bound; below 10 percent nothing is filled and at 100 or more everything is |
| Progress.MakeBarMonotone | bot/helpers/progress.py:33-37 | a larger percent never empties a cell a smaller one filled |
| Progress.Marked | bot/helpers/progress.py:106 | a section line starts with its emoji mark and keeps the body's length and last character |
| Progress.Display.DownloadLine | bot/helpers/progress.py:100-106 | the download line starts with the music mark |
| Progress.Display.ZipLine | bot/helpers/progress.py:109-112 | the zip line starts with the zip mark |
| Progress.Display.UploadLine | bot/helpers/progress.py:115-119 | the upload line starts with the upload mark and ends in the "(i/N)" suffix exactly when both file index and file count are non-zero |
| Progress.Display.RenderLines | bot/helpers/progress.py:86-121 | the header comes first; a download line appears exactly when the stage is Downloading or Processing or some progress was made, a zip line exactly when a zip total is set, and an upload line exactly when an upload total is set |
| Progress.LinesMarked | bot/helpers/progress.py:97-119 | which section lines appear can be read back from their marks |
| Progress.ProgressReporter.constructor | bot/helpers/progress.py:12-31 | a new reporter is at stage "Preparing" with every counter zero, no totals, no index and no edit sent |
| Progress.ProgressReporter.View | bot/helpers/progress.py:86-121 | the fields the renderer reads are within the bounds the updaters keep |
| Progress.ProgressReporter.MaybeUpdate | bot/helpers/progress.py:74-84 | an unforced call within the minimum interval changes nothing; otherwise the clock is stored and exactly one edit with the current rendering is sent; the displayed fields never change |
| Progress.ProgressReporter.SetStage | bot/helpers/progress.py:39-41 | the stage is replaced and a forced edit is always sent; every other field is kept |
| Progress.ProgressReporter.SetTotalTracks | bot/helpers/progress.py:43-46 | a given non-negative total replaces the track total, a missing or negative one is ignored; the edit follows the rate limit |
| Progress.ProgressReporter.UpdateDownload | bot/helpers/progress.py:48-53 | a given percent is stored clamped to 0..100 and a given track count clamped at 0; missing arguments keep the old values; the edit follows the rate limit |
| Progress.ProgressReporter.UpdateZip | bot/helpers/progress.py:55-58 | both zip counters are stored clamped at 0; the edit follows the rate limit |
| Progress.ProgressReporter.UpdateUpload | bot/helpers/progress.py:60-69 | the upload counters are stored clamped at 0, a given index and count replace the old ones, a non-empty label becomes the stage; the edit follows the rate limit |
| State.DataEntry | bot/helpers/state.py:35-39 | `set_data` writes into the existing entry, or a blank one with stage "", sets exactly the one key and keeps the stage and every other key |
| State.UpdatedEntry | bot/helpers/state.py:41-48 | `update` sets the stage only when one is given (a new entry starts with `stage or ""`), adds every keyword argument and keeps every other data key |
| State.UpdateNothing | bot/helpers/state.py:41-48 | an update with no stage and no data only creates the blank entry when it is missing |
| State.SetDataIsUpdate | bot/helpers/state.py:35-48 | setting one key is the one-keyword update that leaves the stage alone |
| State.ConversationState.constructor | bot/helpers/state.py:5-7 | a new store holds no conversation |
| State.ConversationState.Start | bot/helpers/state.py:9-14 | the user's entry is replaced by the stage and the given data, an empty bag when none is given; other users are untouched |
| State.ConversationState.Clear | bot/helpers/state.py:16-21 | the user's entry is gone and no other entry changes, also for an unknown user |
| State.ConversationState.Get | bot/helpers/state.py:23-28 | the stored entry of a known user, None for an unknown one |
| State.ConversationState.SetStage | bot/helpers/state.py:30-33 | only an existing entry is restaged and its data kept; an unknown user changes nothing |
| State.ConversationState.SetData | bot/helpers/state.py:35-39 | the user's entry becomes the `set_data` entry of the old one; other users are untouched |
| State.ConversationState.Update | bot/helpers/state.py:41-48 | the user's entry becomes the `update` entry of the old one; other users are untouched |
| Message.CheckUser | bot/helpers/message.py:43-56 | a restricted check passes exactly for admins; an unrestricted one always passes on a public bot and otherwise exactly when the sender or the chat is an admin, an authorised chat or an authorised user |
| Message.AdminPasses | bot/helpers/message.py:43-56 | an admin passes both the restricted and the unrestricted check from any chat |
| Message.CheckUserMonotone | bot/helpers/message.py:51-55 | authorising more users or chats never makes a passing check fail |
| Message.TrackedId | bot/helpers/message.py:60-77 | the busy list tracks the chat id in "CHAT+" mode, the user id in "USER" mode and nothing in any other mode |
| Message.RemoveFirst | bot/helpers/message.py:62-66 | removing a listed id drops exactly one occurrence of it; an unlisted id leaves the list unchanged |
| Message.TailNoDuplicates | bot/helpers/message.py:59-78 | the tail of a list without repeats has none and does not hold its head |
| Message.ConsNoDuplicates | bot/helpers/message.py:59-78 | prefixing a new id keeps a list free of repeats |
| Message.RemoveFirstNoDuplicates | bot/helpers/message.py:62-66 | in a list without repeats, removing an id removes every occurrence and keeps the list free of repeats |
| Message.RemoveFirstNoDuplicatesOf | bot/helpers/message.py:62-66 | the same, for callers that do not know the list is free of repeats |
| Message.AcquireThenRevoke | bot/helpers/message.py:59-78 | appending an unlisted id and then removing it restores the list |
| Message.AntiSpam.constructor | bot/helpers/message.py:14 | the busy list starts empty |
| Message.AntiSpam.Acquire | bot/helpers/message.py:67-78 | in "USER" or "CHAT+" mode the answer is busy exactly when the tracked id is listed, and a free id is appended; in any other mode the answer is false and the list is unchanged; the list never gains a repeat |
| Message.AntiSpam.Revoke | bot/helpers/message.py:60-66 | the tracked id, if listed, is removed once; in any other mode nothing changes; a list without repeats no longer holds the id |
| ConfigYaml.MaskValue | bot/modules/config_yaml.py:45-50 | masking keeps the length; other keys and empty values are shown as they are; a secret of eight characters or fewer becomes all '*', a longer one keeps only its first and last four characters |
| ConfigYaml.MaskIdempotent | bot/modules/config_yaml.py:45-50 | masking a masked value changes nothing |
| ConfigYaml.ParseKv | bot/modules/config_yaml.py:53-58 | a blank, comment or colon-free line has no key; otherwise the stripped line splits at its first colon and the key and value are those two halves, each stripped |
| ConfigYaml.Fmt | bot/modules/config_yaml.py:75-78 | a value not starting with a quote that holds ':', '#' or a space is wrapped in double quotes; any other value is written as it is |
| ConfigYaml.LineValue | bot/modules/config_yaml.py:98 | the value read from a line holds no '#' and is stripped |
| ConfigYaml.FoundIsAny | bot/modules/config_yaml.py:64-69 | the `found` flag after the loop says whether some line holds the key |
| ConfigYaml.MapLines | bot/modules/config_yaml.py:66-81 | the loop emits one line per line walked |
| ConfigYaml.MapLinesAt | bot/modules/config_yaml.py:66-81 | the emitted line at each position is made from the input line at that position |
| ConfigYaml.FirstPassing | bot/modules/config_yaml.py:92-94 | when some line matches there is a first one |
| ConfigYaml.FirstNone | bot/modules/config_yaml.py:92-100 | the scan finds nothing exactly when no line matches |
| ConfigYaml.FirstAt | bot/modules/config_yaml.py:92-99 | the scan returns what the first matching line gives |
| ConfigYaml.SetKeyShape | bot/modules/config_yaml.py:61-88 | with a matching line the output has as many lines and every matching line is rewritten with the key, the formatted value and its old comment; without one the input is followed by one new `key: value` line; every other line is kept in place |
| ConfigYaml.SetKey | bot/modules/config_yaml.py:61-88 | the loop with its `found` flag computes `_set_key` |
| ConfigYaml.GetKeyNone | bot/modules/config_yaml.py:91-100 | `_get_key` gives None exactly when no line holds the key |
| ConfigYaml.GetKeyFirst | bot/modules/config_yaml.py:91-99 | `_get_key` gives the comment-free, stripped value of the first line holding the key |
| ConfigYaml.GetKey | bot/modules/config_yaml.py:91-100 | the loop with its early return computes `_get_key` |
| ConfigYaml.CommandValue | bot/modules/config_yaml.py:147-149 | `/config_set` keeps a value that already starts with a quote, wraps any other sensitive value in double quotes, and hands a non-sensitive value on as typed |
| ConfigYaml.StripWritten | bot/modules/config_yaml.py:53-58 | a written `key: value` line strips to the key, the colon and the value |
| ConfigYaml.ParseWritten | bot/modules/config_yaml.py:53-58 | a line `_set_key` writes parses back to its key and formatted value |
| ConfigYaml.ReadWritten | bot/modules/config_yaml.py:79-98 | a written line holds its key and reads back as the formatted value when no '#' is involved |
| ConfigYaml.SetThenGet | bot/modules/config_yaml.py:61-100 | reading a key after setting it gives the value, double-quoted when it holds ':' or a space, provided key and value are stripped, hold no '#' and no old matching line has a comment |
| ConfigYaml.SetSecretThenGet | bot/modules/config_yaml.py:136-157 | a secret set through `/config_set` is stored and read back in double quotes |
| Download.FlagValue | bot/modules/download.py:85-89 | a flag takes the next token as its value when that token exists and is not a flag, and True otherwise |
| Download.ParseOptions | bot/modules/download.py:69-91 | the while loop computes the parse; its keys are distinct and are exactly the names of the "--" tokens |
| Download.ParseWellFormed | bot/modules/download.py:78-91 | the parse never stores a key twice |
| Download.ParseKeys | bot/modules/download.py:80-90 | a key is in the result exactly when it was there before or a later token is a flag for it; a flag token is never consumed as a value |
| Download.PutKeys | bot/modules/download.py:85-89 | storing an option adds exactly its key |
| Download.FlagForLater | bot/modules/download.py:80-90 | a flag found from a later position is found from an earlier one |
| Download.ParseUntouched | bot/modules/download.py:80-90 | a key no later token flags keeps its value |
| Download.LastFlagWins | bot/modules/download.py:85-89 | a repeated key ends with the value its last flag gives |
| Download.ParseValue | bot/modules/download.py:69-91 | every parsed option holds the value of the last flag naming it |
| Download.CommandLink | bot/modules/download.py:31-34 | the link of an unreplied command is the last token, and there is none without tokens |
| Download.LinkAfterFlag | bot/modules/download.py:85-87 | a link right after a flag becomes that flag's value and is still taken as the link |
| Download.FirstGroup | bot/modules/download.py:109-125 | the chosen provider is unsupported exactly when no group has a prefix of the link, and otherwise owns a group with such a prefix |
| Download.FirstGroupAt | bot/modules/download.py:109-122 | a matching group is chosen when no earlier group matches |
| Download.Route | bot/modules/download.py:103-125 | the link is reported unsupported exactly when it starts with none of the tidal, deezer, qobuz, spotify or apple prefixes |
| Download.PrefixesNest | bot/modules/download.py:109-118 | two prefixes of one link nest |
| Download.DifferAt | bot/modules/download.py:103-107 | texts that differ at a common position are not prefixes of each other |
| Download.ApartByWitness | bot/modules/download.py:103-107 | prefixes that differ pairwise at some position are apart |
| Download.GroupsApart | bot/modules/download.py:103-107 | no prefix of one provider group is a prefix of, or extends, a prefix of another group |
| Download.RouteUnambiguous | bot/modules/download.py:103-118 | no link matches two provider groups |
| Download.RouteIsTheMatchingGroup | bot/modules/download.py:109-122 | a link matching a group is routed to that group's provider, so the order of the tests does not matter |
| Apple.OptionMapFlags | bot/providers/apple.py:92-104 | every downloader flag is "--" followed by its option's name |
| Apple.Emit | bot/providers/apple.py:107-111 | an unknown option adds nothing, an option set to exactly True adds its flag alone, any other value adds the flag and the value's text |
| Apple.BuildOptions | bot/providers/apple.py:86-113 | missing options give no flags; otherwise the loop yields the flags of the options in dict order |
| Apple.FlagsAppend | bot/providers/apple.py:106-111 | the flags follow the options' order |
| Apple.FlagsLength | bot/providers/apple.py:106-111 | the number of flag tokens is one per True option plus two per other known option |
| Apple.UnmappedDropped | bot/providers/apple.py:107 | options the downloader does not know add no flag |
| Apple.FlagsAreKnown | bot/providers/apple.py:106-111 | every emitted token starting with "--" is the flag of a given known option or the value following one |
| Apple.ValidateNeedsHost | bot/providers/apple.py:22-23 | an accepted link starts with "https://music.apple.com/" and has a further path segment, so any other host or scheme is rejected |
| Apple.ValidateAlbumLink | bot/providers/apple.py:22-23 | a typical album link is accepted |
| Apple.KindOf | bot/providers/apple.py:27 | the kind found at a position is the one of album, song, playlist, artist that starts there, and none is reported only when none starts there |
| Apple.SegmentEnd | bot/providers/apple.py:27 | the segment scan consumes only non-"/" characters and stops at a "/" or the end |
| Apple.DigitEnd | bot/providers/apple.py:27 | the digit scan consumes only digits and stops at a non-digit or the end |
| Apple.MatchAt | bot/providers/apple.py:27 | a match reported at a position is a real match of the pattern there, and its id is the captured digits |
| Apple.KindsDistinct | bot/providers/apple.py:27 | at most one kind starts at any position |
| Apple.MatchAtComplete | bot/providers/apple.py:27 | any match of the pattern at a position is reported there, with the same id |
| Apple.MatchAtFound | bot/providers/apple.py:27 | a kind word, a non-empty segment and a maximal digit run found at a position make the match there report those digits as the id |
| Apple.SegmentEndAt | bot/providers/apple.py:27 | the segment scan stops exactly at the first "/" |
| Apple.DigitEndAt | bot/providers/apple.py:27 | the digit scan stops exactly at the first non-digit |
| Apple.SearchFinds | bot/providers/apple.py:27 | the search returns the match at the leftmost matching position |
| Apple.SearchMisses | bot/providers/apple.py:27-28 | the search finds nothing when the pattern matches nowhere |
| Apple.SearchHits | bot/providers/apple.py:27 | the search finds something when the pattern matches anywhere |
| Apple.SearchSound | bot/providers/apple.py:27 | what the search finds is a match at some position |
| Apple.MatchDigits | bot/providers/apple.py:27 | a match's id is a non-empty run of digits |
| Apple.SearchDigits | bot/providers/apple.py:27-28 | what the search finds is a non-empty run of digits |
| Apple.ContentIdSpec | bot/providers/apple.py:25-28 | the id is "unknown" exactly when the pattern matches nowhere, and otherwise the digits of a match |
| Apple.ContentIdOfFirstMatch | bot/providers/apple.py:25-28 | the id is the digit run of the leftmost match |
| Apple.ContentType | bot/providers/apple.py:59 | a download is recorded as a track exactly when one file came back, and as an album otherwise |
| Utils.Placeholder | bot/helpers/utils.py:73-92 | every placeholder is a non-empty text opening with '{' |
| Utils.FieldValue | bot/helpers/utils.py:73-92 | a metadata field that is missing is replaced by the empty text |
| Utils.Replacements | bot/helpers/utils.py:73-96 | no replacement key is empty, so every replace is well defined |
| Utils.FormatString | bot/helpers/utils.py:63-101 | the loop applies every replacement to the text once, in the dict's order |
| Utils.ApplyAllAppend | bot/helpers/utils.py:98-99 | replacing with two runs of pairs is replacing with the first run and then the second |
| Utils.ApplyAllAbsent | bot/helpers/utils.py:98-99 | a text holding none of the keys comes back unchanged |
| Utils.FormatWithoutPlaceholders | bot/helpers/utils.py:63-101 | a caption without placeholders is returned as it is |
| Utils.UserPlaceholders | bot/helpers/utils.py:94-96 | `{user}` and `{username}` are replaced exactly when a user is given |
| Utils.MissingFieldIsEmpty | bot/helpers/utils.py:73-92 | the placeholder of a missing metadata field is replaced by the empty text |
| Utils.FormatTitleAlone | bot/helpers/utils.py:63-101 | the caption "{title}" becomes the title, unless the title itself holds a later placeholder |
| Utils.PartNames | bot/helpers/utils.py:203-225 | part 1 is written to "name.zip" and part n after it to "name.partN.zip", numbered one up per part |
| Utils.FlattenSnoc | bot/helpers/utils.py:224-235 | closing a part appends its files after those of earlier parts |
| Utils.AddFile | bot/helpers/utils.py:222-231 | adding the next file either extends the open part or closes it and opens a new one, keeping the walk's invariant |
| Utils.SplitZipFolder | bot/helpers/utils.py:198-237 | the parts, in order, hold exactly the files in walk order; a part of two or more files stays within the size limit; only the first part can be empty, and only when the first file alone is over the limit; every part was closed because the next file did not fit; no files give no parts |
| Utils.Finish | bot/helpers/utils.py:233-235 | closing the open part at the end keeps every property of the parts |
| Utils.CloseStep | bot/helpers/utils.py:223-227 | closing a part keeps what holds of the closed parts |
| Utils.PartNamesDistinct | bot/helpers/utils.py:203-208 | different part numbers are written to different files |
| Utils.RemoveForbidden | bot/helpers/utils.py:736 | the result holds none of the deleted characters, is no longer than the input, and a name without them is kept |
| Utils.Underscored | bot/helpers/utils.py:737 | every space becomes an underscore and nothing else changes |
| Utils.SafeName | bot/helpers/utils.py:736-737 | the sanitised name has at most 100 characters, none of them forbidden or a space |
| Utils.SafeNameKeepsSafe | bot/helpers/utils.py:736-737 | a short name that is already safe is kept |
| Utils.SafeNameIdempotent | bot/helpers/utils.py:736-737 | sanitising twice changes nothing more |
| Utils.Capitalize | bot/helpers/utils.py:731 | capitalising keeps the length |
| Utils.CapitalizeLower | bot/helpers/utils.py:731-742 | the type test does not depend on how the type was capitalised |
| Utils.ZipName | bot/helpers/utils.py:730-745 | the whole name: the provider in brackets ("Apple Music" by default), a space, the sanitised title ("Unknown" by default), and " (Playlist)" exactly when the type, whatever its capitalisation, is playlist ("album" by default); any other type adds nothing |
| Utils.ZipNameKeepsSafeTitle | bot/helpers/utils.py:730-745 | a title already free of forbidden characters and spaces, of at most 100 characters, appears in the name unchanged |
| Utils.CandidateInjective | bot/helpers/utils.py:749-754 | different attempts try different file names |
| Utils.CandidatesBelow | bot/helpers/utils.py:752-755 | the first n attempts are all among the names tried so far |
| Utils.CandidatesBelowCard | bot/helpers/utils.py:752-755 | n attempts try n different names |
| Utils.CandidatesBelowOnly | bot/helpers/utils.py:752-755 | the names tried so far are the first n candidates, and the next candidate is new |
| Utils.SubsetCard | bot/helpers/utils.py:753 | a subset of the existing names is no larger than they are, so the loop stops |
| Utils.UniqueZipName | bot/helpers/utils.py:751-755 | the loop returns a name that does not exist yet, and every earlier candidate exists: the first free one of name.zip, name_1.zip, name_2.zip, … |
| Utils.FloorDiv | bot/helpers/utils.py:367 | the floor of the quotient is the unique integer between the bounds |
| Utils.ProgressBar | bot/helpers/utils.py:367-373 | a total of 0 is the division-by-zero error; within range the bar has ten segments |
| Utils.ProgressBarFills | bot/helpers/utils.py:367-373 | segment k is filled exactly when k is below ten times done over total, and a larger done never empties a filled segment |
| PgImpl.VType | bot/helpers/database/pg_impl.py:32-39 | the stored tag is "bool" for bools (tested before ints), "int" for ints, "str" for anything else, and "blob" whenever a blob is written |
| PgImpl.StoredText | bot/helpers/database/pg_impl.py:46-55 | the value column receives NULL exactly for None, and a string as it is |
| PgImpl.SetRow | bot/helpers/database/pg_impl.py:41-60 | an update keeps the row's date and the column it does not write; an insert is stamped with the current time and leaves the other column NULL; the tag is always the inferred one |
| PgImpl.ReadValue | bot/helpers/database/pg_impl.py:69-82 | an "int" row reads as its number and fails when the text is not one; a "str" row reads as its text, "None" for NULL; a "bool" row reads true exactly when its stripped, lower-cased text is true, 1, yes or on; any other tag reads raw |
| PgImpl.GetVariable | bot/helpers/database/pg_impl.py:64-84 | an unknown name gives (None, None); a known one gives its converted value and its blob, and fails exactly when the conversion does |
| PgImpl.Upsert | bot/helpers/database/pg_impl.py:41-60 | setting a variable adds or rewrites exactly its own row, so there is one row per name and every other row is unchanged |
| PgImpl.SetGetInt | bot/helpers/database/pg_impl.py:31-82 | an int that was set reads back as the same int |
| PgImpl.SetGetStr | bot/helpers/database/pg_impl.py:31-82 | a string that was set reads back as the same string |
| PgImpl.SetGetBool | bot/helpers/database/pg_impl.py:31-82 | a bool that was set reads back as the same bool |
| PgImpl.BoolTextReadsBack | bot/helpers/database/pg_impl.py:79-80 | the stored texts "true" and "false" read back as the bools they came from |
| Strings.StripTrimmed | bot/helpers/database/pg_impl.py:79 | text without surrounding whitespace is its own strip |
| PgImpl.SetNoneGetsNoneText | bot/helpers/database/pg_impl.py:31-82 | None is stored as NULL under the "str" tag and reads back as the text "None" |
| PgImpl.BlobInsert | bot/helpers/database/pg_impl.py:54-60 | a blob stored under a new name reads back with no value beside it |
| PgImpl.BlobUpdateKeepsValue | bot/helpers/database/pg_impl.py:46-52 | a blob update keeps the old text value, which then reads back raw under the "blob" tag |
| PgImpl.SettingsTable.constructor | bot/helpers/database/pg_impl.py:13-20 | a new table has no rows |
| PgImpl.SettingsTable.SetVariable | bot/helpers/database/pg_impl.py:31-62 | the table becomes the upsert of the old table |
| PgImpl.UserSettingsTable.constructor | bot/helpers/database/pg_impl.py:171-177 | a new table has no values |
| PgImpl.UserSettingsTable.SetUserSetting | bot/helpers/database/pg_impl.py:183-193 | the text of the value is stored under (user, name), replacing any earlier one, and reads back as that text |
| PgImpl.UserSettingsTable.GetUserSetting | bot/helpers/database/pg_impl.py:195-204 | the stored text for a known (user, name), None otherwise |
| PgImpl.DownloadHistory.constructor | bot/helpers/database/pg_impl.py:98-111 | a new history holds no records |
| PgImpl.DownloadHistory.RecordDownload | bot/helpers/database/pg_impl.py:117-139 | at most two attempts are made; the record is appended exactly when one of them succeeds; otherwise the second failure is raised and the history is unchanged |
| BotSettings.GetValue | bot/settings.py:18-20 | a truthy stored value is returned as it is and anything falsy becomes False, so the result is truthy exactly when the stored value is |
| BotSettings.Encrypt | bot/settings.py:22-25 | the text is the base 64 form of the UTF-8 bytes of the argument: decoding it gives those bytes back |
| BotSettings.Decrypt | bot/settings.py:27-33 | a text that is not base 64, or whose bytes are not UTF-8, is returned unchanged; otherwise the result is the decoded text, whose UTF-8 bytes are the decoded bytes |
| BotSettings.DecryptEncrypt | bot/settings.py:22-33 | decrypting what was encrypted gives back the original text, for every text |
| BotSettings.UploadModes | bot/modules/settings.py:223-225 | the modes are Local then Telegram, and RCLONE is offered exactly when rclone is configured |
| BotSettings.UploadModeFor | bot/settings.py:96-102 | the mode is always one on offer; RCLONE is chosen exactly when rclone is configured and RCLONE is stored; a stored Telegram is kept; anything else, including RCLONE without rclone, gives Local |
| BotSettings.Stored | bot/settings.py:18-20 | a name with no row reads as None |
| BotSettings.Initial | bot/settings.py:36-73 | the startup settings: the upload mode is the one `check_upload_mode` chooses from the stored UPLOAD_MODE (so one on offer); anti-spam defaults to 'OFF' and the language to 'en'; the link option is the stored value with rclone and a truthy stored value, and 'False' in every other case; each toggle is its stored value when truthy and False otherwise; the admin and auth lists are the ones given and the rclone and video choices start unset |
| BotSettings.BotSet.constructor | bot/settings.py:35-73 | the object starts with the startup settings, and its upload mode is one the upload button can find |
| BotSettings.BotSet.CheckUploadMode | bot/settings.py:76-102 | a found rclone config switches rclone on, never off; the mode becomes the one chosen from the stored value; nothing else changes and the mode stays on offer |
| SettingsHandlers.NextUploadMode | bot/modules/settings.py:221-229 | the press succeeds exactly when the current mode is on offer, and the next mode is on offer too |
| SettingsHandlers.UploadModesDistinct | bot/modules/settings.py:221-225 | no upload mode is offered twice |
| SettingsHandlers.UploadOrder | bot/modules/settings.py:221-229 | the presses go Local, Telegram, then RCLONE when rclone is configured, then back to Local |
| SettingsHandlers.UploadCycle | bot/modules/settings.py:227-229 | as many presses as there are modes bring the mode back to where it was |
| SettingsHandlers.StartupModeCycles | bot/settings.py:96-102 | the mode chosen at startup is always found by the upload button's lookup |
| SettingsHandlers.UploadButton | bot/modules/settings.py:218-234 | an admin's press moves the mode to the next one and saves it, changing nothing else; a mode not on offer is the lookup error and changes nothing; a non-admin changes nothing; a consistent object stays consistent and never hits the error |
| SettingsHandlers.NextLinkOption | bot/modules/settings.py:255-257 | the press succeeds exactly when the current option is one of the four, and the next option is one of them too |
| SettingsHandlers.LinkOptionsDistinct | bot/modules/settings.py:255 | no link option is listed twice |
| SettingsHandlers.LinkOrder | bot/modules/settings.py:255-258 | the presses go False, Index, RCLONE, Both, then False again |
| SettingsHandlers.LinkCycle | bot/modules/settings.py:255-258 | four presses bring the link option back to where it was |
| SettingsHandlers.LinkOptionButton | bot/modules/settings.py:252-263 | an admin's press moves to the next option and saves it, changing nothing else; an option not among the four is the lookup error and changes nothing; a non-admin changes nothing |
| SettingsHandlers.Flip | bot/modules/settings.py:269-271 | a toggle gives a bool whose truth is the opposite of the old value's |
| SettingsHandlers.FlipTwice | bot/modules/settings.py:269-271 | two presses restore the truth value, and the value itself once it is a bool |
| SettingsHandlers.ToggleButton | bot/modules/settings.py:266-364 | an admin's press flips exactly the one option and saves the new value under its name; a non-admin changes nothing |
| SettingsHandlers.VideoTypeButton | bot/modules/settings.py:237-249 | an admin's press sets the opposite of the current choice, an unset choice counting as False, and saves it; a non-admin changes nothing |
| SettingsHandlers.NextScope | bot/modules/settings.py:208-209 | the next scope is FOLDER exactly when the current one, FILE when unset, is FILE in any case, and FILE otherwise |
| SettingsHandlers.ScopeAlternates | bot/modules/settings.py:208-210 | the unset scope goes to FOLDER, FOLDER to FILE and FILE to FOLDER |
| SettingsHandlers.ScopeButton | bot/modules/settings.py:204-215 | an admin's press sets and saves the next scope and changes nothing else; a non-admin changes nothing |
| SettingsHandlers.RemoteOf | bot/modules/settings.py:155 | the remote is the text after the first '\|', and callback data without '\|' has none |
| SettingsHandlers.DestForRemote | bot/modules/settings.py:157-162 | a chosen remote gives "remote:suffix", plain "remote:" when there is no suffix, and an empty remote gives the empty destination |
| SettingsHandlers.DestForPath | bot/modules/settings.py:188-193 | with a remote the destination is "remote:text", plain "remote:" for no text, and without one it is the bare text |
| SettingsHandlers.DestinationsAgree | bot/modules/settings.py:155-193 | both ways of setting the destination agree when a remote is set, and differ when none is set and a path is given |
| SettingsHandlers.ApplyRemoteButton | bot/modules/settings.py:151-167 | an admin's choice stores the remote and the destination built from the kept path and saves both; data without '\|' is the reported failure and changes nothing; a non-admin changes nothing |
| SettingsHandlers.LowerTwice | bot/modules/settings.py:59 | lower-casing twice is lower-casing once |
| SettingsHandlers.AcceptIgnoresCase | bot/modules/settings.py:59-61 | the rclone.conf name rule does not depend on case |
| SettingsHandlers.RcloneWaits.constructor | bot/modules/settings.py:42 | nobody is awaited at first |
| SettingsHandlers.ImportButton | bot/modules/settings.py:44-48 | an admin's press adds them to the senders awaited for a document; a non-admin changes nothing; only admins are ever awaited |
| SettingsHandlers.ConfUpload | bot/modules/settings.py:50-74 | a document is installed exactly when its sender is awaited, it is a document, its lower-cased name contains "rclone" or ends in ".conf", and saving succeeds; only then is the sender no longer awaited |
| SettingsHandlers.DestPathButton | bot/modules/settings.py:172-176 | an admin's press adds them to the senders awaited for a path; a non-admin changes nothing; only admins are ever awaited |
| SettingsHandlers.DestPathText | bot/modules/settings.py:178-202 | an awaited sender's stripped text becomes the path, the destination is built from it and the remote, both are saved and the sender is no longer awaited; any other text changes nothing |
| SettingsHandlers.IdOf | bot/modules/settings.py:396 | a command without a space has no id; an id is the integer of the text after the first space |
| SettingsHandlers.ChatIdNegative | bot/modules/settings.py:401 | every id treated as a chat is negative |
| SettingsHandlers.FirstIsDigit | bot/modules/settings.py:401 | the text of a natural number starts with a digit, so only negative ids can start with "-100" |
| SettingsHandlers.ListText | bot/modules/settings.py:405 | the saved text of a list is bracketed |
| SettingsHandlers.Authorised | bot/modules/settings.py:426-433 | after /auth the id is listed; it is appended only when absent, so a list without repeats keeps none |
| SettingsHandlers.AuthThenBan | bot/modules/settings.py:401-434 | banning an id that was just authorised gives the earlier list back |
| SettingsHandlers.BanRemoves | bot/modules/settings.py:403-410 | in a list without repeats a ban removes the id completely |
| SettingsHandlers.WithList | bot/modules/settings.py:404 | only the chosen list changes |
| SettingsHandlers.AddId | bot/modules/settings.py:425-434 | the id is appended to the chosen list and the list saved when absent; otherwise nothing changes and "already exists" is replied |
| SettingsHandlers.RemoveId | bot/modules/settings.py:402-411 | a listed id is removed once from the chosen list and the list saved; otherwise nothing changes and "does not exist" is replied |
| SettingsHandlers.AuthCommand | bot/modules/settings.py:415-435 | a non-admin changes nothing; a malformed id only gets the format reply; otherwise the id is authorised in the chats list for "-100" ids and the users list for others, and the confirmation is always sent |
| SettingsHandlers.BanCommand | bot/modules/settings.py:392-412 | a non-admin changes nothing; a malformed id only gets the format reply; otherwise the id is removed from the chats or users list when listed, and the confirmation is always sent |
| TelegramSetting.BotPublicButton | bot/modules/telegram_setting.py:34-42 | an admin's press flips the bot-public flag and saves it under BOT_PUBLIC; a non-admin changes nothing |
| TelegramSetting.NextAntiSpam | bot/modules/telegram_setting.py:48-51 | the press succeeds exactly when the current mode is OFF, USER or CHAT+, and the next mode is one of them too |
| TelegramSetting.AntiSpamModesDistinct | bot/modules/telegram_setting.py:48 | no anti-spam mode is listed twice |
| TelegramSetting.AntiSpamOrder | bot/modules/telegram_setting.py:48-51 | the presses go OFF, USER, CHAT+, then OFF again |
| TelegramSetting.AntiSpamCycle | bot/modules/telegram_setting.py:48-51 | three presses bring the mode back to where it was |
| TelegramSetting.AntiSpamButton | bot/modules/telegram_setting.py:45-56 | an admin's press moves to the next mode and saves it, changing nothing else; a mode not among the three is the lookup error and changes nothing; a non-admin changes nothing |
| TelegramSetting.Future.constructor | bot/modules/telegram_setting.py:151 | a new future is not done and holds no result |
| TelegramSetting.Future.SetResult | bot/modules/telegram_setting.py:113 | resolving a pending future marks it done with the code |
| TelegramSetting.HandleTextInput | bot/modules/telegram_setting.py:85-114 | a sender with no conversation changes nothing; the username stage moves to the password stage storing the stripped text as the username; the password stage moves to the running stage storing the password and starts the setup; the 2FA stage moves to the running stage storing the code and resolves the pending future only when it is not done; any other stage changes nothing |
| TelegramSetting.CancelFlow | bot/modules/telegram_setting.py:116-119 | /cancel removes the user's conversation whatever its stage, and touches no other user's |
| TelegramSetting.LastChars | bot/modules/telegram_setting.py:174 | the tail holds the last 2000 characters of the output, or all of it when shorter |
| TelegramSetting.SetupFlow | bot/modules/telegram_setting.py:121-178 | every way out of a run that found a conversation clears the user's entry; without username, password or a started script the run is an error; a 2FA prompt with no answer is the timeout; otherwise exit code 0 is success and any other code is a failure reported with the last 2000 characters of output; the code is written to the script, with a newline, exactly once when a prompt was answered |
| ProviderSettings.SplitThree | bot/modules/provider_settings.py:117 | callback data made of three parts with no '_' inside them splits back into exactly those three parts |
| ProviderSettings.AppleQualitySetting | bot/modules/provider_settings.py:117-120 | the data unpacks exactly when it splits into three parts, naming the setting APPLE_<FORMAT>_QUALITY for the upper-cased second part and taking the third part as the quality |
| ProviderSettings.AppleQualityRoundTrip | bot/modules/provider_settings.py:114-120 | the data a quality button carries, "appleSQ_<format>_<quality>", reads back as that format's setting and that quality |
| ProviderSettings.AppleFormatOf | bot/modules/provider_settings.py:79 | a format is found exactly when the data has at least two '_'-separated parts |
| ProviderSettings.ConfigOverrides.constructor | bot/modules/provider_settings.py:82 | no Config attribute is overwritten yet |
| ProviderSettings.AppleQualityButton | bot/modules/provider_settings.py:114-121 | an admin's well-formed press stores the quality under its setting both in the table and in Config; a malformed press is the unpacking error; otherwise nothing changes |
| ProviderSettings.AppleFormatButton | bot/modules/provider_settings.py:76-83 | an admin's press stores the format as APPLE_DEFAULT_FORMAT in the table and in Config; data without a second part is the index error; otherwise nothing changes |
| ProviderSettings.KeyFor | bot/modules/provider_settings.py:192-194 | no key is found exactly when no entry carries the label; a key found is one whose entry carries the label |
| ProviderSettings.KeyForLabel | bot/modules/provider_settings.py:192-194 | with no label used twice, the lookup of an entry's label returns that entry's key |
| ProviderSettings.QobuzLookupInverse | bot/modules/provider_settings.py:192-194 | the Qobuz label lookup inverts the code-to-label table: each of 5, 6, 7 and 27 is found again from its label |
| ProviderSettings.TidalLookup | bot/modules/provider_settings.py:254-255 | the Tidal label MAX gives HI_RES, and LOW, HIGH and LOSSLESS give themselves |
| ProviderSettings.SpatialOptions | bot/modules/provider_settings.py:239-243 | OFF and ATMOS AC3 JOC come first; ATMOS AC4 is offered exactly with mobile Atmos and Sony 360RA exactly with either mobile session |
| ProviderSettings.SpatialOptionsDistinct | bot/modules/provider_settings.py:239-243 | no spatial option is offered twice |
| ProviderSettings.SpatialIndex | bot/modules/provider_settings.py:245-248 | a current value among the options gives its position; any other value gives 0 |
| ProviderSettings.SpatialNextAsWritten | bot/modules/provider_settings.py:250-251 | the press as written fails exactly when position (current + 1) mod 4 is past the options |
| ProviderSettings.SpatialAsWrittenFailsIff | bot/modules/provider_settings.py:239-251 | the written press fails exactly when fewer than four options are offered and the current value is the last of them |
| ProviderSettings.SpatialAsWrittenFails | bot/modules/provider_settings.py:250-251 | with only the TV session, a press from ATMOS AC3 JOC fails; with mobile Hi-Res alone, a press from Sony 360RA fails |
| ProviderSettings.SpatialNext | bot/modules/provider_settings.py:245-251 | the corrected press always lands on an offered option: the one after the current value, wrapping at the number of options, or the second option when the current value is not offered |
| ProviderSettings.SpatialNextAgrees | bot/modules/provider_settings.py:250-251 | whenever the written press does not fail, it gives the same option as the corrected one |
| ProviderSettings.SpatialCycle | bot/modules/provider_settings.py:239-251 | pressing the corrected button once per offered option brings the spatial setting back to where it started |
| ProviderSettings.TidalSession.constructor | bot/modules/provider_settings.py:240-242 | the session holds the given spatial value, quality and mobile session flags |
| ProviderSettings.TidalSession.SpatialButton | bot/modules/provider_settings.py:233-252 | an admin's press moves the spatial value to the corrected next option and saves it as TIDAL_SPATIAL; a non-admin's press changes nothing; the quality and the session flags are never changed |
| ProviderSettings.TidalSession.QualityButton | bot/modules/provider_settings.py:233-257 | an admin's press with a known label sets the quality to its key and saves it as TIDAL_QUALITY; an admin's unknown label is the index error and changes nothing; a non-admin's press changes nothing |
| Cycle.IndexOf | bot/modules/settings.py:227 | a position is found exactly when the value is in the list, and it is the first position holding it |
| Cycle.Next | bot/modules/settings.py:227-229 | a press succeeds exactly when the current value is in the list, and it lands on a listed value |
| Cycle.IndexOfDistinct | bot/modules/settings.py:227 | in a list with no repeats, each position is the one found for its value |
| Cycle.PressesFrom | bot/modules/settings.py:227-229 | in a list with no repeats, k presses from position i reach position (i + k) mod the length |
| Cycle.FullCircle | bot/modules/settings.py:227-229 | pressing once per option brings every option back to itself |
| Cycle.PressFails | bot/modules/settings.py:227 | a value not in the list makes the presses fail, as list.index raises |
| Base64.DecodeEncode | bot/settings.py:22-33 | decoding the base 64 text of any bytes gives those bytes back |
| Utf8.DecodeEncode | bot/settings.py:22-33 | decoding the UTF-8 encoding of any text gives the text back |
| Utf8.EncodeDecode | bot/settings.py:27-33 | bytes that decode as UTF-8 are the encoding of the text they decode to |
| Decimal.IntRoundTrip | bot/helpers/database/pg_impl.py:74 | reading back the decimal text of any integer gives the integer |

## Left out

- The job queue: `enqueue`, `list_pending`, `cancel_pending` and `start_worker` are called but defined nowhere in bot/helpers/tasks.py, so no queue is modelled.
- Async locks and the event loop: every method is one atomic step; `asyncio.Event` is a flag and `terminate()` is a counted request.
- Chat I/O: `send_message`, `edit_message`, `fetch_user_details`, the button and menu builders and the panels that only display; a progress render is an "edit with text T" event in the reporter's log.
- Concurrency of the setup conversation: the reply to the 2FA prompt and the setup run interleave in the bot; `SetupFlow` takes the code (or its absence, for the 180-second timeout) as a parameter and `HandleTextInput` is modelled separately.
- TaskState aliasing: `get` hands out the live record; here records are values kept in the table, so changes through a held reference are not modelled.
- Subprocesses, files and the network: the downloader, the rclone shell-outs (`listremotes`, copy, delete, remote selection), the wrapper setup script itself, `os.walk` and zip writing, the YAML file's read, write and backup.
- `SettingsHandlers.ConfUpload`: whether the uploaded rclone.conf was saved is a parameter.
- SQL and connection handling: the tables are maps; exceptions raised by the database inside the handlers' try blocks are not modelled, nor are column width limits.
- `get_user_history` and the `re_establish` reconnect of bot/helpers/database/pg_impl.py.
- Floating point: `MAX_SIZE`, the float 1.9 times 2 to the 30th, is the integer bound 2040109465, which gives the same comparisons on whole byte counts.
- Progress.Display.ZipLine: the percent shown is the exact integer floor of `100 * done / total`, where the source truncates the float `(done / total) * 100`; rounding can make the source show one less (29 of 100 files shows 28% there, 29% here).
- Progress.Display.UploadLine: the same for the upload percent: the model shows the exact floor of `100 * current / total`, the source the truncated float, which can be one less.
- Utils.ProgressBar: uses exact integer floor of 10 * done / total where the source floors the float `(done / total) * 10`, which can be one segment lower by rounding.
- Case mapping: `lower`, `upper` and `title` act on ASCII letters only.
- `int()` parsing: underscores between digits and non-ASCII digits are not accepted by the model.
- Apple.DigitEnd, Apple.MatchDigits: the content-id pattern's `\d` is ASCII 0-9 here; on a `str`, Python's `\d` also matches other Unicode decimal digits, so an id written in, for example, Arabic-Indic digits is extracted by the source and is "unknown" in the model.
- Base 64 decoding is strict: `b64decode` silently drops characters outside the alphabet, the model rejects them.
- UTF-8: surrogate code points are treated as unencodable.
- BotSettings.Encrypt: returns the base 64 text, where the source returns the same characters as `bytes`.
- BotSettings.Stored: requires every stored row to convert; the source raises when the row read is not convertible.
- JSON: the auth user and chat lists are given decoded; `str(list)` on save is not modelled as JSON text.
- `format_string` with a non-string placeholder value raises TypeError in the source; placeholder values are texts here.
- `initialize_apple`, the language panel (`set_language_cb`, `langSet`) and the apple wrapper start, stop and confirmation panels.
- The Tidal login and session-removal flows; bot/helpers/tidal/tidal_api.py is not part of this model, and `TidalSession` holds only the fields the quality and spatial buttons use.
- The Qobuz quality button: `bot_set.qobuz` is False unless a Qobuz client is set up, so the handler raises AttributeError; only its label lookup is modelled.
- The `_sync` variants of `ConversationState` do the same as the locked methods and are not modelled separately.
- Metadata extraction with mutagen and `uuid4` generation (the new task id is a parameter).

## Findings

| source | as written | input that shows it | evidently intended | confidence | as-written member | corrected member |
|---|---|---|---|---|---|---|
| bot/modules/provider_settings.py:250-251 | the next spatial option is at `(current + 1) % 4` whatever the number of options | only the TV session (two options) with the spatial setting at ATMOS AC3 JOC, or mobile Hi-Res without Atmos (three options) at Sony 360RA: index 2 or 3 is past the list and the button raises IndexError | wrap at the number of options offered | high, not executed | ProviderSettings.SpatialNextAsWritten, ProviderSettings.SpatialAsWrittenFails | ProviderSettings.SpatialNext, ProviderSettings.SpatialNextAgrees, ProviderSettings.SpatialCycle |
