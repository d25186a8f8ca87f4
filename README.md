# Meet Transcript Saver — a verified model of its transcript aggregator

The extension captures Google Meet captions in every open Meet tab and keeps
one transcript for all of them. Each tab runs a content script
(`content.js`). It trims the text of every caption node its observer sees and
keeps a local, duplicate-free transcript. It pushes the lines it has not yet
pushed to the background worker and remembers how far it got in
`lastTranscriptLength`. The background worker (`background.js`) merges every
batch it receives into one global transcript. The merge keeps exact-string
deduplication and first-seen order. The worker also tracks which tabs are
capturing, holds a global capturing flag, and shows the line count on the
toolbar badge. Both write the same keys of the extension's local storage.
Exports render the transcript as txt, JSON, CSV or HTML under a file name
built from the sanitised meeting title.

The Dafny model has one module per component:

- `Text` holds the JavaScript string primitives the code relies on: `trim`
  and `\s`, `includes`, `join`, and `toString` on counts.
- `Storage` holds `LocalStore`, one shared object for `chrome.storage.local`.
- `Transcript` holds the background's merge rule as functions, with
  `NewLines` as an independent reference description.
- `Background` holds the class `Aggregator`, with the worker's state and
  handlers.
- `Export` holds the pure parts of `saveTranscript` and `getMeetingTitle`:
  the sanitiser, the file name, and the txt, CSV and JSON bodies.
- `Content` holds the class `CaptureClient`, with a tab's state machine.
- `Sync` connects a tab to the worker. It proves that what a tab pushes
  reaches the global transcript without introducing a duplicate.

Everything the page, the browser or the clock supplies is a parameter:

- whether the caption container was found;
- the text of an added node;
- the texts the title selectors matched;
- whether a message was acknowledged;
- each tab's reply to `startCapturing`;
- the date and time strings.

A message and its reply are one atomic step.

Notes on what the code does:

- Starting global capture again is not a no-op. Every Meet tab is sent
  `startCapturing` again, and the tabs that answer join the active set.
- The background keeps no per-tab offsets. The only offset is the content
  script's `lastTranscriptLength`, and nothing checks that it only grows.
- The background does not reject whitespace-only strings. Only the content
  script trims.
- HTML export does not escape lines.

## Model

| member | source | states |
|---|---|---|
| `Transcript.Accepted` | background.js:109 | definition of the entry test `line && typeof line === 'string'`; used by `Absorb`, its properties are in `Transcript.MergeMembers` |
| `Transcript.Absorb` | background.js:109-112 | definition of one turn of the `forEach`; its properties are in `Transcript.MergeAppendsNewLines` and `Transcript.MergeNoDups` |
| `Transcript.Merge` | background.js:108-113 | definition of the whole `forEach` over a batch; its properties are in `Transcript.MergeMembers`, `Transcript.MergeAppendsNewLines`, `Transcript.MergeExtends`, `Transcript.MergeNoDups`, `Transcript.MergeUnchangedIff`, `Transcript.MergeIdempotent` and `Transcript.MergeConcat` |
| `Transcript.MergeSentLines` | background.js:104-113 | when a tab sends a duplicate-free run of non-empty lines, the merge appends exactly the lines the background does not yet hold, in order |
| `Transcript.MergeMembers` | background.js:108-113 | a line is in the merged transcript iff it was there before or the batch holds it as a non-empty string |
| `Transcript.MergeAppendsNewLines` | background.js:104-113 | the merge appends to the old transcript exactly the accepted batch entries that are not yet present and are the first of their string in the batch, in batch order |
| `Transcript.MergeExtends` | background.js:107-111 | the old transcript is a prefix of the new one, and the growth equals the number of new lines |
| `Transcript.MergeNoDups` | background.js:109-110 | a duplicate-free transcript stays duplicate-free, even when the batch repeats a line |
| `Transcript.MergeUnchangedIff` | background.js:105-115 | the merge changes nothing iff every accepted entry of the batch is already present |
| `Transcript.MergeIdempotent` | background.js:109 | merging the same batch twice adds nothing the second time |
| `Transcript.MergeConcat` | background.js:108-113 | merging two batches in turn equals merging their concatenation |
| `Transcript.TwoSourcesScenario` | background.js:104-113 | ["Hello","World"] then ["World","Goodbye"] gives ["Hello","World","Goodbye"] |
| `Background.BadgeFor` | background.js:199-206 | the badge text is empty iff the count is 0; the colour is green while capturing and grey otherwise |
| `Background.BadgeShowsCount` | background.js:200-201 | a non-zero badge text is the count's decimal numeral: it reads back as the count, is all digits and has no leading zero |
| `Background.BadgeTextInjective` | background.js:201 | different non-zero counts show different badge texts |
| `Background.StartedTabs` | background.js:148-153 | definition of the tabs the `startCapturing` replies add; its properties are in `Background.StartedTabsExactly` |
| `Background.StartedTabsExactly` | background.js:148-153 | a tab is added iff one of its replies had `success` |
| `Background.Aggregator.constructor` | background.js:4-6 | the worker starts with an empty transcript, no active tab and capturing off |
| `Background.Aggregator.UpdateBadge` | background.js:199-206 | the badge becomes the one for the current count and flag |
| `Background.Aggregator.UpdateStoredActiveTabs` | background.js:192-196 | the stored active tabs become the in-memory set |
| `Background.Aggregator.LoadStoredState` | background.js:209-228 | the stored transcript and tab set replace the ones in memory; a stored true flag turns capturing on and asks for a restart; the badge is refreshed |
| `Background.Aggregator.HandleTranscriptUpdate` | background.js:104-126 | a non-array payload changes nothing; otherwise the transcript becomes the merge of the batch; `added` is the growth; duplicate-freeness is kept; storage and badge are written iff `added > 0`; the flag and active set are unchanged |
| `Background.Aggregator.StartGlobalCapture` | background.js:129-161 | the flag is on and stored; exactly the tabs that replied with `success` are added; active set and badge are written; the transcript is untouched |
| `Background.Aggregator.StopGlobalCapture` | background.js:164-181 | every active tab is sent the stop directive; the flag is off and the active set empty (both stored); the transcript is untouched |
| `Background.Aggregator.ClearGlobalTranscript` | background.js:184-189 | the transcript is empty in memory and in storage; the flag and active set are unchanged; the badge shows no count |
| `Background.Aggregator.OnTabRemoved` | background.js:48-54 | only that tab id leaves the active set; storage is written only if it was there; nothing else changes |
| `Background.Aggregator.OnMeetTabLoaded` | background.js:19-45 | while capturing, a loaded Meet tab that answered with `success` joins the active set, which is stored; otherwise nothing changes |
| `Background.Aggregator.GetGlobalStatus` | background.js:76-82 | the status reports the flag, `count` = transcript length and `activeTabs` = size of the active set |
| `Background.Aggregator.GetGlobalTranscript` | background.js:89-94 | the reply carries the transcript and its length |
| `Storage.LocalStore.constructor` | background.js:9-16 | after install, storage holds an empty transcript, capturing off and no active tabs |
| `Text.Trim` | content.js:227 | definition of `String.prototype.trim`; its properties are in `Text.TrimSplits`, `Text.TrimEmptyIffWhitespace` and `Text.TrimIdempotent` |
| `Text.Contains` | content.js:26 | definition of `includes` on strings; used by `Content.TitleUsable`, its properties are in `Content.ResolveTitleChoice` |
| `Text.Join` | content.js:74 | definition of `join` with a one-character separator; its properties are in `Text.SplitJoin` |
| `Text.DecimalString` | background.js:201 | definition of `toString()` on a count; its properties are in `Text.DecimalRoundTrip` and `Text.DecimalShape` |
| `Text.TrimSplits` | content.js:227 | `trim` removes only leading and trailing whitespace and leaves no whitespace at either end |
| `Text.TrimEmptyIffWhitespace` | content.js:233 | a text trims to empty iff it is whitespace only, so such nodes are never captured |
| `Text.TrimIdempotent` | content.js:227 | trimming twice is trimming once |
| `Text.SplitJoin` | content.js:74 | splitting the joined lines at `\n` gives the lines back when none holds a newline |
| `Text.DecimalRoundTrip` | background.js:201 | the decimal numeral of a count reads back as the count |
| `Text.DecimalShape` | background.js:201 | the numeral is non-empty and all digits, with a leading zero only for 0 |
| `Export.KeepTitleChars` | content.js:37 | definition of `replace(/[^a-zA-Z0-9\s-_]/g, '')`; its properties are in `Export.KeepTitleCharsConcat`, `Export.SanitizeDropsDisallowed` and `Export.SanitizeKeepsAllowed` |
| `Export.Sanitize` | content.js:37 | definition of the filter followed by `substring(0, 50)`; its properties are in `Export.SanitizeShape`, `Export.SanitizeCleanTitle` and `Export.SanitizeFixpoint` |
| `Export.SanitizeShape` | content.js:37 | the sanitised title has at most 50 characters, and all of them are ASCII letters, digits, whitespace, `-` or `_` |
| `Export.KeepTitleCharsConcat` | content.js:37 | the character filter works character by character: what it keeps of `a + b` is what it keeps of `a` followed by what it keeps of `b` |
| `Export.SanitizeDropsDisallowed` | content.js:37 | a disallowed character anywhere in the title is deleted: the title sanitises exactly as if it had never been there |
| `Export.SanitizeKeepsAllowed` | content.js:37 | an allowed character stays in place, between what is kept before it and what is kept after it |
| `Export.SanitizeCleanTitle` | content.js:37 | a title of allowed characters only becomes its first 50 characters (the whole title when shorter) |
| `Export.SanitizeFixpoint` | content.js:37 | a title is unchanged iff it is short enough and all its characters are allowed; sanitising is idempotent |
| `Export.FileTimestamp` | content.js:68 | the file timestamp has the ISO text's length with every `:` and `.` replaced by `-`, and no other character changed |
| `Export.ParseFormat` | content.js:72-136 | definition of the `format` switch, with `None` for the default branch; its properties are in `Export.FormatNames` |
| `Export.Filename` | content.js:143 | definition of the download name; its properties are in `Export.FilenameParts` |
| `Export.TxtBody` | content.js:74 | definition of the txt body; its properties are in `Export.TxtBodyLines` |
| `Export.JsonBody` | content.js:80-85 | definition of the record given to `JSON.stringify`; its properties are in `Export.Render` |
| `Export.EscapeQuotes` | content.js:94 | definition of `replace(/"/g, '""')`; its properties are in `Export.EscapeQuotesRoundTrip` |
| `Export.CsvRow` | content.js:94 | definition of one CSV row; its properties are in `Export.CsvRowTextField` |
| `Export.CsvRows` | content.js:92-95 | definition of the rows for all lines; its properties are in `Export.CsvRowsExtend` and `Export.BuildCsv` |
| `Export.CsvDocument` | content.js:91-95 | definition of the CSV body; its properties are in `Export.CsvEmpty` and `Export.BuildCsv` |
| `Export.FormatNames` | content.js:72-136 | exactly `txt`, `json`, `csv` and `html` are known formats, each named by its extension |
| `Export.FilenameParts` | content.js:143 | the file name starts with the sanitised title and its text after the last dot is the format's extension |
| `Export.TxtBodyLines` | content.js:74 | for at least one line, and when neither the title, the date nor any line contains `\n`, reading the txt body back line by line gives the `Meeting:` line, the `Date:` line, a blank line, then the transcript lines |
| `Export.BuildCsv` | content.js:91-95 | the loop produces the header followed by one row per line |
| `Export.CsvEmpty` | content.js:91 | an empty transcript gives only the header row `Timestamp,Speaker,Text` |
| `Export.EscapeQuotesRoundTrip` | content.js:94 | a field with its quotes doubled reads back as the original text |
| `Export.CsvRowTextField` | content.js:94 | the quoted text field of every row reads back as the transcript line and ends the row |
| `Export.CsvRowsExtend` | content.js:92-95 | each row depends only on its own line: the rows of a prefix of the transcript are a prefix of the rows |
| `Export.Render` | content.js:62-137 | there is no file iff the transcript is empty or the format unknown; otherwise the name is `title_transcript_timestamp.ext`; a JSON export carries the meeting, the ISO date and the transcript, with `totalLines` = the (non-zero) number of lines |
| `Content.NextAttempts` | content.js:202-207 | definition of the counter after one failed search; its properties are in `Content.RetriesCountRise` and `Content.CaptureClient.StartCapturing` |
| `Content.AttemptsAfter` | content.js:200-208 | definition of the counter after `n` failed searches; its properties are in `Content.RetriesCountRise` |
| `Content.RetriesScheduled` | content.js:200-208 | definition of the retries `n` failed searches schedule; its properties are in `Content.RetriesCountRise` and `Content.RetriesBounded` |
| `Content.RetriesCountRise` | content.js:200-208 | the retries scheduled by `n` failed searches are exactly how far `n` steps of the counter update raise the counter, which never passes 10 |
| `Content.RetriesBounded` | content.js:200-208 | from a counter value `a` ≤ 10, a run of `n` failed searches schedules min(n, 10 − a) retries, never more than 10 |
| `Content.Unsent` | content.js:41-43 | a push happens iff the transcript is longer than the offset, and it carries the non-empty rest after the offset |
| `Content.TitleUsable` | content.js:26 | definition of the candidate test; its properties are in `Content.FirstUsableTitle` and `Content.ResolveTitleChoice` |
| `Content.FirstUsableTitle` | content.js:22-31 | the chosen title is the trimmed text of the first candidate that is not blank and does not mention Google Meet; none is chosen iff no candidate qualifies |
| `Content.ResolveTitle` | content.js:22-35 | the stored title is the first usable candidate, else the previously found title, else the dated default |
| `Content.ResolveTitleChoice` | content.js:22-35 | the resolved title is never empty; a usable candidate always wins; the previous title is kept only when no candidate qualifies and it is usable; otherwise the dated default is used |
| `Content.ExportLines` | content.js:60 | definition of the lines exported: the background's `response?.transcript` when present, else the local transcript; its properties are in `Content.CaptureClient.SaveTranscript` |
| `Content.CaptureClient.constructor` | content.js:1-7 | a tab starts with an empty transcript, offset 0, counter 0 and capturing off |
| `Content.CaptureClient.Restore` | content.js:292-302 | the stored transcript becomes the local one, the offset becomes its length, and a stored true flag asks for a restart |
| `Content.CaptureClient.SendTranscriptUpdate` | content.js:41-53 | exactly `transcript[offset..]` is sent, and only when the transcript is longer than the offset; on acknowledgement the offset becomes the length, otherwise it is unchanged |
| `Content.CaptureClient.ObserveText` | content.js:224-246 | the trimmed text is appended iff it is non-empty and new; storage is written and the unsent lines pushed only then; duplicate-freeness and the offset bound are kept; it runs only while the observer is installed, and every other field is kept |
| `Content.CaptureClient.StartCapturing` | content.js:171-267 | already capturing: returns true and nothing changes; no container: false, and the counter rises (with a retry) only below 10; found: capturing starts and the counter resets to 0; the counter never exceeds 10 |
| `Content.CaptureClient.StopCapturing` | content.js:269-284 | always returns true and leaves capturing off without an observer, stored; nothing else changes |
| `Content.CaptureClient.ToggleCapturing` | content.js:162-169 | returns the resulting flag: off when capturing was on, otherwise on iff the container was found; the stored flag is written false when stopping, true on a successful start, and is otherwise kept; the stored transcript and tabs are unchanged |
| `Content.CaptureClient.ClearTranscript` | content.js:391-402 | transcript (also in storage) empty and offset 0; capturing state and counter unchanged; replies success |
| `Content.CaptureClient.ClearViaShortcut` | content.js:328-337 | the shortcut empties the transcript (also in storage) but keeps the offset, which is then out of range whenever it was positive |
| `Content.CaptureClient.ClearViaShortcutCorrected` | content.js:391-393 | the shortcut clear with the offset reset as well keeps the offset in range |
| `Content.CaptureClient.GetMeetingTitle` | content.js:12-38 | the stored title becomes the resolved title and the sanitised form of it is returned |
| `Content.CaptureClient.SaveTranscript` | content.js:56-159 | a failed request or an empty transcript gives no file and leaves the title alone; otherwise the title is resolved and the file is the rendering of the background's transcript (the local one if the reply has none) |
| `Sync.SendSyncsAll` | content.js:42-48 | after a delivered push every local line is in the global transcript, the old global transcript is a prefix of the new one, and no duplicate is introduced |
| `Sync.OtherTabKeepsSynced` | background.js:108-113 | what other tabs merge never undoes what a tab has synced |
| `Sync.ObserveKeepsSynced` | content.js:233-234 | appending a local line keeps the synced part synced |
| `Sync.ShortcutClearSkipsLines` | content.js:330 | after the shortcut clear, nothing is sent until the new transcript outgrows the old offset, and its first lines below the offset are never sent |
| `Sync.DeliverCaption` | content.js:233-245 | an observed caption is appended and pushed; on delivery the background merges exactly the unsent lines; the sync invariant and global duplicate-freeness are kept; the badge and stored transcript follow the global transcript when it grew; both capturing flags, the active set, the counter, the title and the stored flag and tabs are unchanged |
| `Sync.ShortcutClear` | content.js:328-337 | both transcripts are cleared but the offset stays; tab and background are then in sync iff the offset was 0; the badge shows no count and the stored transcript is empty; both capturing flags, the active set, the counter, the title and the stored flag and tabs are unchanged |
| `Sync.ShortcutClearCorrected` | content.js:328-337 | with the offset reset, tab and background restart in sync; the badge shows no count and the stored transcript is empty; both capturing flags, the active set, the counter, the title and the stored flag and tabs are unchanged |
| `Sync.ClearBoth` | content.js:391-397 | the `clearTranscript` message leaves tab and background empty and in sync; the badge shows no count and the stored transcript is empty; both capturing flags, the active set, the counter, the title and the stored flag and tabs are unchanged |
| `Sync.ShortcutClearLosesLine` | content.js:330 | captions "a", "b", the shortcut clear, then "c": "c" stays in the tab and the global transcript stays empty |
| `Sync.ShortcutClearCorrectedForwardsLine` | content.js:391-393 | the same run with the corrected clear brings "c" into the global transcript |

## Left out

- Chrome messaging, storage and scripting: each message and its reply, and each storage write, is one immediate step. A failed storage write is not modelled.
- The asynchronous gap in `sendTranscriptUpdate` is not modelled. When a push is acknowledged, the offset moves to the `transcript.length` of that moment (content.js:48). That can pass a line appended while the push was in flight. The line is still sent by its own push (content.js:245). It is lost only when that own push fails (content.js:49-51), because no later push resends it.
- Background.Aggregator.StartGlobalCapture: models all replies as arrived before the active set is stored. In the source the replies arrive asynchronously, so the stored set can miss tabs (background.js:148-159).
- Background.Aggregator.OnMeetTabLoaded: reads the capturing flag when the reply arrives. The source reads it when injection finishes, 2 s before it sends the directive (background.js:31-39).
- Background.Aggregator.HandleTranscriptUpdate: drops the `tabId` argument, which is only logged.
- Background.Aggregator.LoadStoredState: storage always holds the three keys in this model, so the "missing or not an array" branches of background.js:210 and 223 cannot occur.
- The message routers (background.js:57-101 and content.js:345-414) and the `format || 'txt'` default are routing only.
- The content script's `getStatus` reply (content.js:373-388) is not modelled. It also calls `getMeetingTitle`, so it rewrites `meetingTitle` as `Content.CaptureClient.GetMeetingTitle` does.
- Content.CaptureClient.Restore: storage always holds a transcript array in this model, so the branch of content.js:293 that keeps the in-memory transcript when the key is missing or not an array cannot occur.
- popup.js is not part of this model; it is user interface.
- DOM scraping is not modelled: the selector loops, the `MutationObserver` wiring, node types and SPA navigation. Their results are parameters.
- The Blob and anchor download is not modelled, including its failure branch (content.js:139-153).
- Timers are not modelled: the 2 s, 3 s and 5 s delays, the 3 s retry, `init`'s auto-start and the 5 s heartbeat. Each is a later call of the modelled method. The heartbeat interval that every successful start adds and that is never cleared is not modelled.
- Dates are not modelled: `toLocaleString`, `toLocaleDateString`, `toISOString` and the per-line CSV times are opaque strings. One export reads the clock once.
- The HTML page is kept only as its inputs. Its markup, and the fact that it inserts lines unescaped, are not modelled.
- The exact output of `JSON.stringify` is not modelled; the JSON body is a record.
- Export.SanitizeShape: characters are Unicode scalar values. `substring` counts UTF-16 units, but every character the sanitiser keeps is a single unit, so the two agree.

## Findings

| source | as written | input that shows it | evidently intended | confidence | as-written member | corrected member |
|---|---|---|---|---|---|---|
| content.js:330 | the Ctrl+Shift+C shortcut empties `transcript` but leaves `lastTranscriptLength` unchanged, unlike the `clearTranscript` message (content.js:392-393) | captions "a" and "b" pushed and acknowledged (offset 2), shortcut clear, caption "c": 1 ≤ 2, so "c" is never sent while the global transcript was cleared | reset the offset to 0 together with the transcript | high, not executed | `Sync.ShortcutClearLosesLine` | `Sync.ShortcutClearCorrectedForwardsLine` |
