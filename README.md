# Download pipeline of discord-downloader-go, in Dafny

This project models the download pipeline of discord-downloader-go, a Discord
bot that saves the media linked in channel messages. The pipeline lives in
`downloads.go` and has these parts:

- **Statuses.** Every download ends in one of 19 statuses. Their integer
  values (`iota`) order them by severity: success, ignored, six skips, then
  eleven failures. Each status has a display text.
- **Link collection (`getRawLinks`).** A message's candidate links are its
  attachments (with their filenames), then the URLs found in its text, then
  the URL, image and video of each embed.
- **Resolver dispatch (`getDownloadLinks`).** Each candidate is resolved
  into direct links by a priority list of site resolvers. Emoji CDN links
  are dropped. Otherwise dispatch runs once more on the URL without its
  query string, and failing that the link stands for itself.
- **File links (`getFileLinks`).** The resolved links are gathered, an
  attachment's own filename overrides the suggested one, and repeated links
  are removed keeping the first (`trimDuplicateLinks`).
- **One attempt (`tryDownload`).** A chain of checks, in this order:
  - enrolment;
  - source URL, destination path, destination folder;
  - the HTTP exchange and the 404 test;
  - the extension allow/block lists;
  - the category fix-up table and the filename-extension fix;
  - the domain allow/block lists and the category gate;
  - the near-duplicate image filter;
  - nested subfolders (server, channel, user, type);
  - the existing-path test and the `-1`, `-2`, … renaming probe;
  - the file write, the database row and the reaction.
- **Retries and logging (`startDownload`).** A bounded retry loop, the
  failure notice, and the link log: its file path, the decision to log, and
  the appended line. The retry loop's result is logged with the decision as
  the source writes it; `Retry.LinkLogCorrected` gives the intended one.

Everything outside the pipeline is a parameter of the model, not a call.
That covers the HTTP client, the filesystem, the Discord state cache,
perceptual hashing, MIME sniffing and the clock:

- `Executor.World` holds one attempt's answers from the outside world.
- A set of strings holds the paths that already exist.
- `Retry.LogEnv` holds what the link log sees.
- `ResolverDispatch.Dispatcher` holds the site resolvers, query stripping
  and the "already downloaded" trimmer, as functions.

The modules are:

- `Wrappers`: `Option`.
- `Text`: Go's `filepath.Ext`, `strings.ToLower` (ASCII), `strings.ReplaceAll`
  for a blacklist, `strings.Contains`, `strconv.Itoa`, on a system whose
  path separator is `/`.
- `Status`: statuses, codes, texts.
- `Chat`: messages, users, channels.
- `Policy`: configuration.
- `ResolverDispatch`: `getDownloadLinks`.
- `LinkCollection`: `trimDuplicateLinks`, `getRawLinks`, `getFileLinks`.
- `Executor`: `tryDownload`.
- `Retry`: `startDownload`.

These loops of the source are methods with loop invariants:

- the trim loop (`LinkCollection.TrimDuplicateLinks`);
- the three collection loops (`LinkCollection.GetRawLinks`);
- the resolve-and-append loops (`LinkCollection.GetFileLinks`);
- the renaming probe (`Executor.ProbeFreePath`);
- the retry loop (`Retry.RetryLoop`).

The other modelled loops are recursive functions. The loops over `pathBlacklist`
(downloads.go:837, 857, 877) are `Text.Sanitize`. The loop that builds the
subfolder path is `Executor.Segments`, joined by `Text.JoinDirs`.

`TrimDuplicateLinks`, `GetRawLinks`, `ProbeFreePath` and `RetryLoop` are
proved equal to a function of their inputs, and the properties are proved
about that function. `GetFileLinks` and its inner loop `AppendResolved` are
proved directly against the properties: no duplicate links, exactly the
resolved links, the first candidate's filename for each, and the order of
those first candidates. The decision chains are functions.

## Model

| member | source | states |
|---|---|---|
| Status.Code | downloads.go:35-60 | The `iota` value of each status is below 19. Success is 0, ignored is 1, the skips are exactly 2..7 and the failures exactly 8..18, with the generic skip and failure first in their ranges. Decoding the value gives the status back. |
| Status.CodeBijective | downloads.go:35-60 | Distinct statuses have distinct values, and every value 0..18 decodes to a status that encodes back to it. |
| Status.SeverityOrder | downloads.go:35-60 | Ordering by value is strict, total and transitive. Success < ignored < every skip < generic failure <= every failure. |
| Status.FromCode | downloads.go:35-60 | An integer names a status exactly when it lies in 0..18. |
| Status.StatusText | downloads.go:80-125 | The text is "Unknown Error" exactly for integers that name no status. |
| Status.StatusTextNamesClass | downloads.go:80-125 | No status has the fallback text. Success reads "Download Succeeded", every skip starts "Download Skipped", every failure starts "Download Failed". |
| Status.StatusTextDecodes | downloads.go:80-125 | A status's text determines its integer value: reading the value back from the text gives it. |
| Status.StatusTextInjective | downloads.go:80-125 | Distinct statuses have distinct texts. |
| LinkCollection.TrimDuplicateLinks | downloads.go:128-142 | The single pass with a seen-set returns exactly the reference trim: an item is kept iff no earlier item has its link. |
| LinkCollection.TrimLinks | downloads.go:128-142 | The trimmed list repeats no link and has exactly the links of the input. |
| LinkCollection.TrimKeepsFirst | downloads.go:128-142 | Every kept item is the first item of the input with its link. |
| LinkCollection.TrimKeepsOrder | downloads.go:128-142 | Kept items stand in the order of their first occurrences in the input. |
| LinkCollection.TrimNoDuplicates | downloads.go:128-142 | A list without repeated links is left unchanged. |
| LinkCollection.TrimIdempotent | downloads.go:128-142 | Trimming twice is the same as trimming once. |
| LinkCollection.GetRawLinks | downloads.go:144-196 | The three loops produce exactly: attachment items, then found-URL items, then embed items. The author returned is the message's author, or the empty user when it has none. |
| LinkCollection.RawLinksLayout | downloads.go:151-193 | Attachments come first, in order, with their own filenames. The found URLs follow, in order. Every item after the attachments has no filename, and no embed contributes an empty link. |
| LinkCollection.EmbedLinksNamed | downloads.go:165-193 | An embed contributes only non-empty links, and none with a filename. |
| LinkCollection.FirstResolving | downloads.go:387-404 | Finds the first candidate whose resolution contains a link. It is past the end exactly when no candidate produced the link. |
| LinkCollection.AppendResolved | downloads.go:393-403 | The inner loop only extends the list. It adds exactly the resolved links, each named by the attachment's filename when set, else by the resolver's filename. |
| LinkCollection.GetFileLinks | downloads.go:379-409 | The result repeats no link and holds exactly the links some candidate resolved to. Each link carries the filename chosen by the first candidate that produced it: the attachment's filename when set, else the resolver's. The links stand in the order of those first candidates. |
| ResolverDispatch.FirstWinner | downloads.go:207-360 | Finds the first resolver, in priority order, whose pattern matches and that returns at least one link. No earlier resolver does both. |
| ResolverDispatch.DownloadLinks | downloads.go:198-377 | An emoji CDN link that no resolver claims yields no links. Every other result has been through the already-downloaded filter. |
| ResolverDispatch.FirstWinnerDecides | downloads.go:207-360 | The first winning resolver's links, trimmed of already-downloaded ones, are the result, whatever follows in the list. |
| ResolverDispatch.EmojiLinksSuppressed | downloads.go:362-364 | With no winning resolver, an emoji CDN link yields no links. |
| ResolverDispatch.QueryStrippedRerun | downloads.go:366-374 | With no winner and no emoji prefix, a URL whose query strip gives a different URL is dispatched again on that URL. The result of that run goes through the already-downloaded filter once more. |
| ResolverDispatch.FallbackToItself | downloads.go:366-376 | With no winner, no emoji prefix, and a query strip that fails or changes nothing, the link maps to itself with no filename. |
| ResolverDispatch.NoRecursionAtFixpoint | downloads.go:366-374 | At a URL without a query, dispatch does not recurse, so the re-run budget does not matter. |
| ResolverDispatch.OneHopSuffices | downloads.go:366-374 | If stripping the query is idempotent, any re-run budget of at least one gives the same links as the source's unbounded recursion bounded at one re-run. |
| Executor.NormalizePath | downloads.go:607-614 | The empty path and the bare separator are refused. Any other path gets a trailing separator, and one that has it is unchanged. |
| Executor.ChosenName | downloads.go:657-674 | A requested filename wins. Otherwise a non-empty Content-Disposition filename wins. Otherwise, with no such header or an empty filename in it, the name is the one derived from the URL. |
| Executor.Category | downloads.go:678-680 | The category is the prefix of the MIME type before its first `/`. |
| Executor.AllowListDecides | downloads.go:687-712 | When an allow-list is set, it alone decides, so it beats the block-list. Otherwise only a block-list entry refuses. |
| Executor.NamesOf | downloads.go:796-828 | An unknown channel gives "UNKNOWN" and the channel ID. A guild text channel's server name is its guild's name in quotes when the guild is known and named, else "UNKNOWN". Its channel name is the parent's name, " - " and its own name when the parent is known and named, else its own name (its ID when unnamed). DMs and group DMs get fixed server names, any other kind "UNKNOWN". |
| Executor.TypeFolder | downloads.go:893-911 | image, video, audio, text and application get the folders images, videos, audio, text and applications. Every other category gets none. |
| Executor.ServerFolder | downloads.go:832-851 | The server folder exists only with division by server and a known server. It is then the server name with the blacklisted substrings removed, and no single-character blacklist entry occurs in it. |
| Executor.ChannelFolder | downloads.go:852-870 | The channel folder exists only with division by channel. It is then the channel name with the blacklisted substrings removed, and no single-character blacklist entry occurs in it. |
| Executor.UserFolder | downloads.go:872-890 | The user folder exists only with division by user. It is the raw user ID for a user without a name. Otherwise it is "name#discriminator" with the blacklisted substrings removed. |
| Executor.KindFolder | downloads.go:893-911 | The type folder exists exactly with division by type and one of the five known categories, and is then that category's folder. |
| Executor.Segments | downloads.go:830-917 | A message without an author gets no subfolders. Otherwise the segments are the server, channel, user and type folders in that order, each only when not empty. A channel with every division off gets none. There are at most four, none empty. |
| Executor.SegmentsLayout | downloads.go:830-917 | The server folder is first. The channel folder comes right after it, the user folder after those, and the type folder last. Every segment other than a raw user ID and the type folder is free of the single-character blacklist entries. |
| Executor.MkdirFailure | downloads.go:841-916 | Creating the nested folders fails exactly when some prefix of the segments is a failing folder. The error is that of the first failing folder. |
| Executor.FolderEndsWithSeparator | downloads.go:842-909 | Every nested folder path ends with the separator. |
| Executor.CandidateInjective | downloads.go:942-943 | Distinct probe indices give distinct names. |
| Executor.TakenBound | downloads.go:940-948 | Finding the first n candidates all taken needs at least n existing paths, so the probe ends. |
| Executor.FreeIndexFrom | downloads.go:939-948 | The probe's index is the least index from 1 whose candidate name does not exist. |
| Executor.Stem | downloads.go:942 | The path is its stem followed by its extension. |
| Executor.FreePath | downloads.go:938-948 | The renamed path does not exist. |
| Executor.ProbeFreePath | downloads.go:938-948 | The probing loop returns exactly the path with the least free index. |
| Executor.ProbeStaysInFolder | downloads.go:933-948 | The renamed file stays in the destination folder, and its path does not exist. |
| Executor.ChooseReaction | downloads.go:1004-1032 | A configured emoji is used exactly when set. Otherwise a random guild emoji is picked exactly when the guild is known and has more than one emoji. The reaction name is empty exactly when the guild lookup fails. The default reaction is used exactly outside a guild, or in a guild with at most one emoji. |
| Executor.TryDownload | downloads.go:581-1078 | The attempt's status, file written, database row and reaction are exactly those of `Attempted`. |
| Executor.PlanOutcome | downloads.go:591-655 | Before a body is in hand, the attempt can only be ignored or one of the seven early failures, and it touches nothing. After that, the filters decide. |
| Executor.ScreenOutcome | downloads.go:687-958 | The filters stop with one of the skips or a subfolder failure, touching nothing. Otherwise the file goes under the destination folder with the fixed-up name. An existing path reaches the store step only when possible duplicates are saved. |
| Executor.PlaceOutcome | downloads.go:830-958 | A subfolder failure and an unsaved duplicate touch nothing. Otherwise the path is the folder, the time stamp and the name, in a folder that extends the destination and ends with the separator. |
| Executor.FinishOutcome | downloads.go:960-1042 | A write error leaves nothing written. A database error leaves the file written and no row. Success writes the file and the row. A reaction only follows success with an author and permission. |
| Executor.AttemptStages | downloads.go:933-992 | A stored attempt writes at the computed path when it is free, and at the probed path when it exists. |
| Executor.EarlyChecksInOrder | downloads.go:591-655 | Each early status holds exactly when all earlier checks passed and its own fails: ignored, invalid source, invalid path, 404. Attempts that never got a body touch nothing. |
| Executor.FiltersInOrder | downloads.go:687-772 | The filters run in order: extension first, then domain, then category. Each skip happens exactly when its own filter refuses and the earlier ones pass. |
| Executor.NoGenericStatus | downloads.go:581-1078 | An attempt never returns the generic failed or skipped status. |
| Executor.WrittenOnlyWhenStored | downloads.go:960-1042 | A file is written exactly on success or a database failure, and a row is stored exactly on success. |
| Executor.TargetIsNew | downloads.go:933-958 | The written path does not exist beforehand and lies under the destination folder. |
| Executor.WritesOnlyNewFiles | downloads.go:581-1078 | No attempt overwrites an existing path or writes outside the destination folder. |
| Executor.ExtensionOverridesSniffing | downloads.go:714-772 | Once the extension and domain filters pass, a `.mov`, `.mp4` or `.webm` file is refused by the category gate exactly when videos are not saved, and a `.psd`, `.nef`, `.dng`, `.tif` or `.tiff` file exactly when images are not saved, whatever type the body was sniffed as. |
| Executor.ReactionRule | downloads.go:994-1042 | A reaction follows exactly a successful download of a message with an author, where the bot may react and the channel's setting (else the global one) asks for it. A history download in a channel that opts out of history reactions gets none. The reaction is the one ChooseReaction picks. |
| Executor.StoredRecord | downloads.go:727-733 | The database row of a stored download holds the request URL, the path written, the channel and the author (the bot for a message without one). The stored name gains the first registered extension of the sniffed type exactly when it has no extension and one is registered. The file keeps the planned path unless that path exists. |
| Executor.RequestFailureReported | downloads.go:628-633 | With the request check corrected, a request that cannot be built ends the attempt with the "Error Requesting URL Data" status and the construction error, writing nothing. No other attempt has that status. |
| Executor.AttemptedAsWritten | downloads.go:628-633 | As written, an attempt panics exactly when it reaches the request step and the request cannot be built. Every other attempt is the one `Attempted` describes. |
| Executor.FailedRequestingUnreachable | downloads.go:628-633 | As written, no attempt can end in the "Error Requesting URL Data" status: the attempts that would report it panic. |
| Retry.AttemptsShape | downloads.go:426-433 | The loop makes between one and the budget of attempts (none when the budget is not positive). Every attempt but the last asked for a retry. An early stop happens only on success, a skip, ignore or 404. |
| Retry.AttemptsNeverGeneric | downloads.go:426-433 | If no attempt returns the generic failure, neither does any attempt in the loop. |
| Retry.RetriesNeverOverwrite | downloads.go:426-433 | If each attempt writes only paths that do not exist, the loop's writes are new and pairwise distinct. |
| Retry.TryDownloadFnFacts | downloads.go:581-1078 | `tryDownload` writes only new paths and never returns the generic failure. |
| Retry.RunOutcome | downloads.go:423-433 | The final status is the generic failure exactly when the retry maximum is not positive, and then it carries no error. At most the budget of attempts is made. A retryable final status means the budget was used up. No file is overwritten. |
| Retry.LoopStep | downloads.go:426-433 | Each turn of the loop adds the next attempt that `Attempts` lists. |
| Retry.RetryLoop | downloads.go:423-433 | The loop makes exactly the specified attempts and returns the last attempt's status, or the generic failure when none is made. |
| Retry.NoticeBody | downloads.go:442-447 | The failure notice quotes the URL. |
| Retry.FailureReport | downloads.go:435-464 | The bot gives up exactly on a failure outside history and emoji commands. A notice is posted exactly when giving up in a registered channel with error messages on and send permission, and it quotes the URL. An error log entry is made exactly when giving up in a registered channel with an error. |
| Retry.ServerTag | downloads.go:479-496 | A divided log's server part names the guild ID. Outside a guild it is " DM" exactly for a direct message channel, " GroupDM" exactly for a group one, and " Unknown" otherwise, including when the channel lookup fails. |
| Retry.LogStem | downloads.go:478-503 | A log name starts with "Log_Links". It continues with the server part when logs are divided by server, else with the channel ID part when they are divided by channel. It contains the channel ID part when logs are divided by channel, and ends with the user ID part when they are divided by user. With no division it is "Log_Links" alone. |
| Retry.StatusTag | downloads.go:504-513 | A divided log's status part is " - FAILED", " - SKIPPED", " - IGNORED" or " - DOWNLOADED", exactly for its class. |
| Retry.LogFolder | downloads.go:473-476 | The log folder is the destination with a trailing separator. A destination that already ends with the separator is used as is; otherwise exactly one separator is added. |
| Retry.LogFilePath | downloads.go:472-517 | A file destination is used as is. A folder destination gives a `.txt` file inside the folder. When the folder cannot be made, that file is the folder followed by ".txt". Otherwise it is the folder, the log name, the status tag when logs are divided by status, and ".txt". |
| Retry.StatusSplitsLogs | downloads.go:504-516 | With logs divided by status, two downloads share a log file exactly when their statuses are in the same class. |
| Retry.LogDownloadsSettingIgnored | downloads.go:533-540 | As written, a success is logged even when logging downloads is off. |
| Retry.ShouldLogDecides | downloads.go:533-548 | Corrected decision: a success is logged as the download setting says, anything else as the failure setting says. The duplicate filter vetoes a URL already in the log. This differs from the source only for successes with downloads off. |
| Retry.LogLine | downloads.go:549-568 | The line is a newline, the prefix, the user details when user data is asked for, the URL and the suffix. |
| Retry.LoggedUrlFound | downloads.go:544-568 | After the line is appended, the log contains the URL. |
| Retry.Entry | downloads.go:471-568 | The entry for a download goes to its log file path. Its line is the download's log line, so it ends with the URL and the suffix. |
| Retry.LinkLog | downloads.go:466-573 | As written: an entry is appended exactly when the channel is registered with a log destination, the file opens, the append succeeds, and the source's decision accepts the URL against the file's current contents. The entry is the log file path and the line. |
| Retry.LinkLogCorrected | downloads.go:466-573 | The same entry and conditions, with the corrected decision. |
| Retry.LinkLogDiffers | downloads.go:533-548 | The source's log and the corrected one differ exactly on a success with logging downloads off that the duplicate filter lets through, when the file opens and the append succeeds. |
| Retry.EntryFound | downloads.go:517-568 | After an entry is appended, the download maps to the same file, and that file contains the URL. |
| Retry.DuplicateLinksLoggedOnce | downloads.go:541-573 | With duplicates filtered, a URL once logged is not logged again by the same download, by the source's decision and by the corrected one. |
| Retry.StartDownload | downloads.go:422-579 | Runs the retry loop, the failure report and the link log as the source writes it. The attempts are those of `Attempts`, the status is `FinalStatus`, the report is `FailureReport` and the log entry is `LinkLog`. |

## Left out

- HTTP is left out: requests, redirects, timeouts and the User-Agent header. The outcome of the exchange is a parameter (`Executor.Exchange`).
- `Executor.TryDownload` follows the corrected request check, as do the retry loop and `Retry.StartDownload` built on it. The source panics on a request that cannot be built (see Findings), and a panic in a download goroutine ends the whole program. The model instead reports the requesting failure and the loop goes on. `Executor.AttemptedAsWritten` models the panic.
- MIME sniffing, `mime.ExtensionsByType` and Content-Disposition parsing are left out. They are parameters of the response.
- The filename derived from the URL is left out (`filenameFromURL` is not part of this model). It is a field of the response.
- The perceptual-hash image filter and the persistence of its store are left out. A parameter says whether a near duplicate exists. The store is never updated or saved.
- The clock, `time.Sleep` between retries and the filename date format are left out. The formatted stamp is a parameter.
- `os.Chtimes` on the saved file only logs on error, so it is left out.
- The Discord state cache, the permission checks and the message send are left out. Their answers are parameters.
- The reaction API call, the presence update and `timeLastUpdated` are left out.
- Which random guild emoji is chosen is left out (`Executor.ChooseReaction` only says a random one is picked). In the source, that loop never ends when every emoji is animated or blacklisted.
- Concurrency and the `cachedDownloadID` counter are left out. The counter gates the image-store save (downloads.go:1051). It is also the key under which each new image hash is added to the store (downloads.go:792). The store is not modelled: whether a body is a near duplicate is a parameter (`nearDuplicate`).
- Site resolvers, `trimDownloadedLinks`, the strict URL scanner and `url.Parse` are abstract functions.
- Logging to the console is left out.
- Database insertion only reports success or an error, and the row's time is dropped.
- Go map iteration order is left out. `LinkCollection.AppendResolved` adds a resolver's links in some order, and the properties hold for every order.
- `ResolverDispatch.DownloadLinks`: the source's recursion on the query-less URL is bounded at one re-run. `ResolverDispatch.OneHopSuffices` shows that more re-runs change nothing when query stripping is idempotent.
- `Retry.LinkLog`: a message without an author is read as the empty user, which `getRawLinks` installs in the source. A nil author reaching `startDownload` by another route would make the source panic.
- When the log file cannot be opened, the source writes to a nil file and only logs the error. The model writes nothing in that case. A failed append (downloads.go:569-571) is also only logged; the model writes nothing then either. Why opening or appending fails is a parameter (`openFails`, `appendFails`).
- `Text.ToLower` lower-cases ASCII letters only. Go's `strings.ToLower` also folds other Unicode letters.
- `Executor.Stem`: the source's `filepathExtension` helper is not part of this model. It is taken to behave like `filepath.Ext`.
- Error values are strings. The notice's error text uses the error as it is.

## Findings

| source | as written | input that shows it | evidently intended | confidence | as-written member | corrected member |
|---|---|---|---|---|---|---|
| downloads.go:533-540 | `shouldLog` starts true. For a success, the `LogDownloads` branch sets it to true again, so the setting changes nothing and every success is logged. | A success, with `LogDownloads` false and `FilterDuplicates` unset. | A success is logged only when `LogDownloads` is on. | not executed | Retry.LogDownloadsSettingIgnored | Retry.LinkLogCorrected |
| downloads.go:628-633 | `request.Header.Set` is called before the error of `http.NewRequest` is checked. When the request cannot be built, `request` is nil and the call panics, so the "Error Requesting URL Data" branch is never reached. | An input URL that `url.ParseRequestURI` accepts but `url.Parse` refuses, such as `http://a/?q#%zz`: the first keeps `#%zz` in the query, the second rejects the fragment's bad escape. | The construction error is checked first, and the attempt ends with the requesting failure and that error. | not executed | Executor.FailedRequestingUnreachable | Executor.RequestFailureReported |
