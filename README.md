# motion-lab, modelled in Dafny

motion-lab is a Next.js showcase of motion demos with an "automation" hub of
back-office screens, and a small FastAPI server behind its chatbot. This
project models the logic of that core and proves properties about it:

- **Chat server** (`server/app.py`): tokenising a query, scoring catalog
  entries, the stable descending sort, the positive filter, the `[:limit]`
  slice and the `[:limit or 3]` fallback (`MotionCatalog`); the catalog
  prompt, the Ollama call's status handling and the `POST /chat` handler
  (`ChatServer`).
- **Chatbot client**: the `useChatbot` hook as a class over its message list,
  pending flag and error (`Chatbot`); the chat widget's panel state, the
  `URL_PATTERN` split and the rendering of lines, breaks and links
  (`ChatWidget`).
- **Automation logs**: mock log generation and its sort, the per-day
  aggregation (`AutomationLogs`), the table's filter (`LogsFilter`), the
  duration, badge, paging and footer texts (`LogsTable`), and the Excel
  export's rows and labels (`ExcelExport`).
- **Motion navigation store**: section open state, its toggle, set and
  re-initialisation (`MotionNavStore`).
- **Back-office pages**: application approval (`Approval`), the scheduling
  page with its filter, paging window, statistics and schedule creation
  (`SchedulingPage`, `SchedulingModel`), the schedule-creation dialog
  (`ScheduleDialog`), the notification dialog and its form rules
  (`NotificationDialog`), the expense form's attachments and the submission
  form (`ExpenseForm`, `ExpenseSubmission`).
- **Ecology matrix carousel** (`EcologyMatrix`).
- **Registries and navigation**: the motion demo registry and its two
  lookups (`MotionRegistry`), the automation hub's sections and item lookup
  (`Navigation`), the sidebar's derived and manual open section
  (`AutomationNav`), the shell's active item, title and header toggle
  (`AutomationShell`), and certificate issuing (`Certificates`).

`Wrappers`, `Strings`, `Lookup`, `Sorting` and `JsMath` are helper modules:
Python and JavaScript string operations, `find`/`filter`, an insertion sort,
and JavaScript's truncating `%` and floor division on integers.

Where the code and its written design disagree, the model follows the code:

- a query token typed twice counts twice in the score;
- the server's matches carry no `url`, so the widget links each to
  `/{locale}/motions/{slug}`;
- the catalog prompt's lines are joined by the two characters backslash and
  `n`, not by line breaks;
- an Ollama body without `message.content` fails with a 500, not a 502;
- `max_matches` is not checked: a negative value slices from the end, and
  can leave the answer empty;
- `raise_for_status` fails only on statuses 400 to 599;
- the custom meeting platform gets a `meet.google.com` link, and an unknown
  platform is treated as Zoom;
- the SMS length limit is checked by the field rule only, not by the form's
  send gate;
- expense amounts use `|| 0`, so an unparsable amount counts as zero;
- the carousel's active index is not bounded by the number of cards;
- an empty logs table's footer reads "1-0", and a negative duration shows
  only seconds;
- with a repeated section id the navigation store can keep a stale key.

## Model

| member | source | states |
|---|---|---|
| MotionCatalog.Tokens | server/app.py:65 | every token of the ASCII lower-cased, white-space split query is non-empty |
| MotionCatalog.Score | server/app.py:68-69 | a score counts at most one point per query token |
| MotionCatalog.RepeatedWordCountsTwice | server/app.py:65-69 | a word typed twice gives two tokens and twice its score: tokens are not de-duplicated |
| MotionCatalog.ScoredCatalog | server/app.py:66-70 | one scored entry per catalog entry, in catalog order, carrying its position and its score against the haystack |
| MotionCatalog.Insert | server/app.py:71 | inserting an entry yields a permutation of the list plus that entry |
| MotionCatalog.InsertKeepsRanked | server/app.py:71 | inserting an entry that comes later in the catalog into a strictly ranked list keeps it strictly ranked (descending score, ties in catalog order) |
| MotionCatalog.SortByScore | server/app.py:71 | the sort is a permutation of its input |
| MotionCatalog.SortRanks | server/app.py:71 | sorting entries listed in catalog order ranks them by descending score with ties in catalog order, as Python's stable sort with `reverse=True` does |
| MotionCatalog.Positives | server/app.py:72 | exactly the entries with a positive score are kept |
| MotionCatalog.Items | server/app.py:72 | the projection to demos keeps length and order |
| MotionCatalog.RankDemos | server/app.py:64-73 | the scoring loop, sort, filter, slice and fallback compute exactly `Rank` |
| MotionCatalog.CountPermutation | server/app.py:71 | how many entries outrank a given one, or score positively, does not depend on the order of the list |
| MotionCatalog.CountInRanked | server/app.py:71 | in a strictly ranked list exactly the entries in front of position i outrank it |
| MotionCatalog.RankedLength | server/app.py:72 | the matches kept before the fallback are as many as Python's `[:limit]` leaves of the positively scored entries |
| MotionCatalog.LocateInSorted | server/app.py:71 | catalog entry k sits in the sorted list at the index given by the number of entries that outrank it |
| MotionCatalog.RankPlacesEntry | server/app.py:64-73 | when some entry matches and fits the limit, the result has the slice's length and each matching entry k appears exactly at index RankOf(k) |
| MotionCatalog.RankedEntriesMatch | server/app.py:72 | when the slice keeps any match, every returned demo is a catalog entry with a positive score |
| MotionCatalog.SortedEntryFromCatalog | server/app.py:66-71 | every sorted entry is the catalog entry at its recorded position, with its score |
| MotionCatalog.RankFallback | server/app.py:73 | when the slice keeps nothing, the result is `catalog[:limit or 3]` |
| MotionCatalog.ZeroLimitGivesFirstThree | server/app.py:72-73 | a limit of 0 keeps no match and returns the first three entries whatever the query |
| MotionCatalog.RankWithinLimit | server/app.py:72-73 | with a positive limit the result never holds more than the limit, whether matches or the catalog's head are returned |
| MotionCatalog.NonNegativeLimitNeverEmpty | server/app.py:72-73 | with a non-negative limit and a non-empty catalog the result is never empty |
| MotionCatalog.NegativeLimitCanEmpty | server/app.py:72-73 | a negative limit as large as the catalog, with nothing matching, returns an empty list |
| MotionCatalog.RankWithinCatalog | server/app.py:64-73 | every returned demo is a catalog entry |
| MotionCatalog.CountMonotone | server/app.py:71 | an entry that outranks another has fewer entries outranking it |
| MotionCatalog.HigherOrEarlierComesFirst | server/app.py:71 | a higher score, or an equal score and an earlier catalog position, gives a smaller rank |
| ChatServer.CatalogLines | server/app.py:77-85 | the intro line followed by one entry per match |
| ChatServer.BuildCatalogPrompt | server/app.py:76-86 | the loop appending one entry per match builds exactly the intro and the numbered entries joined by the escape text |
| ChatServer.PromptStartsWithIntro | server/app.py:77-86 | the prompt starts with the intro line, and is only that line when there are no matches |
| ChatServer.PromptLinksEveryMatch | server/app.py:78-82 | every match's link line and its `/{locale}/motions/{slug}` path occur in the prompt |
| ChatServer.EntryContainsLink | server/app.py:81-84 | an entry contains its link line |
| ChatServer.LinkLineContainsPath | server/app.py:78-82 | the link line contains `/{locale}/motions/{slug}` |
| ChatServer.PromptIsOneLine | server/app.py:81-86 | when the locale and the demo fields hold no line break, neither does the prompt: entries and lines are separated by the two characters backslash and `n` |
| ChatServer.EntryIsOneLine | server/app.py:81-84 | an entry holds no line break when its fields hold none |
| ChatServer.CallOllama | server/app.py:89-101 | transport failures and 4xx/5xx statuses become 502 with "Ollama error: …"; a body without `message.content` becomes a 500; otherwise the content is returned |
| ChatServer.RequestOf | server/app.py:50-53 | a request keeps its messages, and takes a missing locale as "en" and a missing `max_matches` as 3 |
| ChatServer.DefaultRequestRanksUpToThree | server/app.py:50-53 | a request giving only messages ranks between one and three demos of the catalog and links under `/en/motions` |
| ChatServer.Chat | server/app.py:109-124 | an empty conversation is a 400 with nothing sent; otherwise the system message with the catalog prompt for the ranking of the last message, then the client's messages, are sent, and the reply or the upstream failure is returned with the matches |
| ChatServer.RelayKeepsConversation | server/app.py:114-121 | the relayed conversation is the client's, unchanged, behind one system message that starts with the base prompt and the intro, and the matches are non-empty for a non-negative limit |
| ChatServer.SystemMessageStartsWithIntro | server/app.py:119 | the system message starts with the base prompt, a line break and the intro line |
| Chatbot.Projection | src/features/chatbot/model/use-chatbot.ts:76 | the payload keeps every message's role and content, in order |
| Chatbot.SettlementOf | src/features/chatbot/model/use-chatbot.ts:81-106 | only an ok response with a JSON body gives an assistant message with the reply and matches; a non-ok response fails with the server's `error` when present and the fallback text otherwise; a JSON parse error, a rejected fetch and a non-Error throw fail with their own texts |
| Chatbot.EmptyServerErrorIsKept | src/features/chatbot/model/use-chatbot.ts:90 | `??` falls back only on a missing `error`: an empty error text from the server is shown as it is |
| Chatbot.TrimmedAfterAppend | src/features/chatbot/model/use-chatbot.ts:59-72 | appending an assistant message, or a trimmed non-empty user message, keeps every user message trimmed and non-empty |
| Chatbot.UserTextAppended | src/features/chatbot/model/use-chatbot.ts:59-68 | a user message made of a non-blank text, trimmed, may be appended without breaking that invariant |
| Chatbot.ProjectionEndsWith | src/features/chatbot/model/use-chatbot.ts:72-76 | the payload of a list ending in a message ends in that message's role and content |
| Chatbot.ChatbotState.constructor | src/features/chatbot/model/use-chatbot.ts:29-37 | the locale and the maximum default to the ambient locale and 3; the list is empty, nothing is pending and there is no error |
| Chatbot.ChatbotState.UpdateMessages | src/features/chatbot/model/use-chatbot.ts:39-42 | the ref and the rendered list both become the new list; nothing else changes |
| Chatbot.ChatbotState.PushMessage | src/features/chatbot/model/use-chatbot.ts:44-49 | the message is appended to what the ref holds |
| Chatbot.ChatbotState.ResetConversation | src/features/chatbot/model/use-chatbot.ts:51-55 | the list is emptied and the error cleared; the thinking flag is kept |
| Chatbot.ChatbotState.BeginSend | src/features/chatbot/model/use-chatbot.ts:57-79 | a blank text or a pending request changes nothing and sends nothing; otherwise the error is cleared, the trimmed user message appended, thinking set, and the payload is the whole conversation ending in that message |
| Chatbot.ChatbotState.Settle | src/features/chatbot/model/use-chatbot.ts:81-109 | the assistant message is appended or the error recorded, as `SettlementOf` says; either way thinking ends |
| ChatWidget.NonSpaceRun | src/widgets/chatbot/ui/chat-widget.tsx:315 | the greedy run `[^\s]+`: every character in it is not white space and it stops at white space or the end |
| ChatWidget.UrlEnd | src/widgets/chatbot/ui/chat-widget.tsx:315 | a match starting at q, when there is one, is a scheme and a non-empty run of non-white-space, ending at white space or the end; when there is none, no text starting at q is an address |
| ChatWidget.MatchEnds | src/widgets/chatbot/ui/chat-widget.tsx:315 | the table of matches holds, at every position, the match `URL_PATTERN` finds there, each ending after its start and within the line |
| ChatWidget.ScanUrls | src/widgets/chatbot/ui/chat-widget.tsx:315-323 | the split alternates text and matches (odd length, matches at odd indices) and spells the text from the last match on; each odd piece is the match found at its offset, and no match starts inside an even piece |
| ChatWidget.ScanPieces | src/widgets/chatbot/ui/chat-widget.tsx:323 | the match-free text before a match, the match, then the split of what follows form the split from the text's start |
| ChatWidget.SplitUrls | src/widgets/chatbot/ui/chat-widget.tsx:323 | `line.split(URL_PATTERN)`: pieces alternate text and matches and concatenate to the line, every match is the one the pattern finds at its offset, no match starts inside a text piece, and every odd piece is an address |
| ChatWidget.SplitPiece | src/widgets/chatbot/ui/chat-widget.tsx:315-323 | piece k is the line's text at its offset; an odd piece is exactly the match found there and no match starts inside an even piece |
| ChatWidget.EveryAddressIsFound | src/widgets/chatbot/ui/chat-widget.tsx:315-343 | every address written in a line lies inside one odd piece of the split, so the split misses none |
| ChatWidget.CoveringPieceIsMatch | src/widgets/chatbot/ui/chat-widget.tsx:315-323 | the piece covering the start of an address is a match reaching at least to the address's end |
| ChatWidget.ScanWithoutUrl | src/widgets/chatbot/ui/chat-widget.tsx:323 | with no match in the line, the split is the line alone |
| ChatWidget.Label | src/widgets/chatbot/ui/chat-widget.tsx:339 | the link text of a non-empty address is never empty |
| ChatWidget.SegmentNode | src/widgets/chatbot/ui/chat-widget.tsx:328-350 | a segment becomes text or a link, never a line break |
| ChatWidget.SegmentNodes | src/widgets/chatbot/ui/chat-widget.tsx:323-326 | the segments of a line render without line breaks |
| ChatWidget.RenderLine | src/widgets/chatbot/ui/chat-widget.tsx:323-351 | a line renders without line breaks |
| ChatWidget.RenderLinesBreaks | src/widgets/chatbot/ui/chat-widget.tsx:320-322 | every line after the first is preceded by exactly one break |
| ChatWidget.RenderedBreaksMatchLineFeeds | src/widgets/chatbot/ui/chat-widget.tsx:317-322 | a rendered message holds exactly one line break per line feed of its text |
| ChatWidget.UrlSegmentsBecomeLinks | src/widgets/chatbot/ui/chat-widget.tsx:328-343 | each matched address becomes a link to exactly that address |
| ChatWidget.UrlTextBecomesLink | src/widgets/chatbot/ui/chat-widget.tsx:328-343 | any address text becomes a link to itself, never plain text or a `www.` rewrite |
| ChatWidget.PlainLineIsOneText | src/widgets/chatbot/ui/chat-widget.tsx:323-336 | a line with no address renders as that one text, or nothing when empty |
| ChatWidget.WwwTextBecomesWholeLink | src/widgets/chatbot/ui/chat-widget.tsx:328-339 | a text segment starting with `www.` and holding no slash becomes one link to `https://` plus the whole segment, inner white space included |
| ChatWidget.LabelOfAddress | src/widgets/chatbot/ui/chat-widget.tsx:339 | the link text of `https://host/path` is `/path`, and of a bare origin the origin itself |
| ChatWidget.MatchLinkIsListedInPrompt | src/widgets/chatbot/ui/chat-widget.tsx:159-226 | since the server never sets `url`, each match links to `/{locale}/motions/{slug}`, a path the catalog prompt lists |
| ChatWidget.ChatPanel.constructor | src/widgets/chatbot/ui/chat-widget.tsx:12-14 | the panel starts closed with an empty input |
| ChatWidget.ChatPanel.ToggleOpen | src/widgets/chatbot/ui/chat-widget.tsx:106 | the launcher flips the panel and keeps the input |
| ChatWidget.ChatPanel.SetInput | src/widgets/chatbot/ui/chat-widget.tsx:89 | typing replaces the input |
| ChatWidget.ChatPanel.HandleSubmit | src/widgets/chatbot/ui/chat-widget.tsx:26-37 | a blank input changes nothing; otherwise the input is cleared even when a pending request drops the text, and a trimmed user message is appended only when nothing was pending |
| ChatWidget.ChatPanel.HandleSuggestionClick | src/widgets/chatbot/ui/chat-widget.tsx:39-45 | the input is cleared and the quick prompt sent as it is: a payload exactly when the prompt is not blank and nothing was pending |
| AutomationLogs.MockLog | src/features/automation-logs/model/logs.ts:55-83 | every generated log obeys the field rules: an end time exactly when the run has finished, equal to start plus duration seconds; an error message exactly when it failed; duration 10 to 3609 s; execution time within the duration's second; 1 to 10000 records; id `log-<i+1>`; workflow and user from the fixed lists |
| AutomationLogs.MockLogLeIsTotalPreorder | src/features/automation-logs/model/logs.ts:86-91 | the comparator (later start first, then id order) is total and transitive, so the sort is well defined |
| AutomationLogs.GenerateMockLogs | src/features/automation-logs/model/logs.ts:37-92 | one log per draw, a permutation of the generated logs, each well formed, ordered by start time descending with ties by id |
| AutomationLogs.DatesInOrder | src/features/automation-logs/model/logs.ts:118-126 | the map's keys in insertion order: distinct, at most one per log, and exactly the days some log falls on |
| AutomationLogs.TallyByDate | src/features/automation-logs/model/logs.ts:113-124 | after the `forEach`, the map holds exactly the days of the logs, in first-appearance order, each with its per-status counts |
| AutomationLogs.TallyStep | src/features/automation-logs/model/logs.ts:119-123 | one turn bumps the counter of the log's own day and status, adding the day when new, and keeps the tally invariant |
| AutomationLogs.CountsStep | src/features/automation-logs/model/logs.ts:122 | appending a log changes the counts of its own day only, by one in its own status |
| AutomationLogs.DayTotalsCoverLogs | src/features/automation-logs/model/logs.ts:112-124 | summed over the distinct days, the per-day totals count every log exactly once |
| AutomationLogs.SortedDays | src/features/automation-logs/model/logs.ts:131 | sorting the distinct days keeps the same days and puts them in strictly increasing order |
| AutomationLogs.RowsCoverDays | src/features/automation-logs/model/logs.ts:126-131 | there is a row for a day exactly when a log falls on it, and the rows' totals sum to the number of logs |
| AutomationLogs.AggregateLogsByDate | src/features/automation-logs/model/logs.ts:112-132 | one row per day that some log falls on, with that day's counts per status, days strictly increasing, totals summing to the number of logs, no more rows than logs |
| LogsFilter.EndOfLocalDay | src/features/automation-logs/lib/use-logs-table.ts:40-41 | the last millisecond of the local day: not before the instant, on the same local day, and the next millisecond starts the next day |
| LogsFilter.FilterLogs | src/features/automation-logs/lib/use-logs-table.ts:24-46 | every kept log comes from the data and passes each filled-in condition: workflow substring, status, level, from-date and to-date |
| LogsFilter.FilterLogsKeepsOrder | src/features/automation-logs/lib/use-logs-table.ts:25-45 | the kept logs are a subsequence of the data, and every log passing all conditions is kept |
| LogsFilter.EmptyFormKeepsAll | src/features/automation-logs/lib/use-logs-filter.ts:6-12 | the default form (empty strings, "all") keeps the data unchanged |
| LogsFilter.DateToDayInclusive | src/features/automation-logs/lib/use-logs-table.ts:39-43 | the to-date is inclusive of its whole local day, and a later local day is rejected |
| LogsFilter.DayMonotone | src/features/automation-logs/lib/use-logs-table.ts:41 | local days never run backwards as time goes on |
| LogsTable.DurationPartsRecombine | src/features/automation-logs/ui/logs-table.tsx:99-101 | for a non-negative duration, minutes * 60 + seconds gives it back, the seconds are below 60, and minutes are positive exactly from one minute on |
| LogsTable.DurationTextShape | src/features/automation-logs/ui/logs-table.tsx:102-106 | under a minute the cell is the seconds and "초"; from a minute on it starts with the minutes and "분 " |
| LogsTable.NegativeDurationShowsSecondsOnly | src/features/automation-logs/ui/logs-table.tsx:100-104 | a duration between -59 and -1 shows no minutes and a negative seconds count, since `%` keeps the sign |
| LogsTable.StatusBadge | src/features/automation-logs/ui/logs-table.tsx:35-42 | the badge is one of the four labels, and any other string falls back to the success label |
| LogsTable.LevelBadge | src/features/automation-logs/ui/logs-table.tsx:59-66 | the label is one of the four, and any other string falls back to the info label |
| LogsTable.StatusBadgesDistinct | src/features/automation-logs/ui/logs-table.tsx:36-41 | two statuses share a badge exactly when they are equal |
| LogsTable.LevelBadgesDistinct | src/features/automation-logs/ui/logs-table.tsx:60-65 | two levels share a label exactly when they are equal |
| LogsTable.PageRows | src/features/automation-logs/ui/logs-table.tsx:127-143 | a page holds min(pageSize, rows left) rows, row k being row pageIndex * pageSize + k |
| LogsTable.RangeMatchesPage | src/features/automation-logs/ui/logs-table.tsx:203-208 | on a non-empty page the footer's first-last range counts exactly the rows shown |
| LogsTable.EmptyTableRange | src/features/automation-logs/ui/logs-table.tsx:203-208 | an empty table's footer reads "1-0" |
| LogsTable.Body | src/features/automation-logs/ui/logs-table.tsx:179-195 | an empty row model gives one placeholder spanning all eight columns; otherwise one body row per row, in order |
| ExcelExport.StatusLabel | src/features/automation-logs/lib/use-excel-export.ts:102-110 | the four statuses get Korean labels and any other string comes back unchanged |
| ExcelExport.LevelLabel | src/features/automation-logs/lib/use-excel-export.ts:112-120 | the four levels get Korean labels and any other string comes back unchanged |
| ExcelExport.LabelsAgreeWithTable | src/features/automation-logs/lib/use-excel-export.ts:102-120 | for every real status and level the sheet shows the table's badge label; the fallbacks differ on other strings |
| ExcelExport.HeaderRow | src/features/automation-logs/lib/use-excel-export.ts:32-44 | the first row holds the eleven column headers in order |
| ExcelExport.ExportRow | src/features/automation-logs/lib/use-excel-export.ts:54-66 | each log's whole row, eleven cells in column order: id, name, status and level labels, execution time, record count, formatted start, the formatted end or "-" when missing, duration, trigger, and the error message or "-" when missing or empty |
| ExcelExport.MockRowPlaceholders | src/features/automation-logs/lib/use-excel-export.ts:62-65 | for a generated log the error cell is "-" exactly when it did not fail, and the end-time cell is "-" while it runs or waits |
| ExcelExport.Worksheet.constructor | src/features/automation-logs/lib/use-excel-export.ts:32-44 | a fresh sheet holds only the header row |
| ExcelExport.Worksheet.AddRow | src/features/automation-logs/lib/use-excel-export.ts:54 | adding a row appends it after the existing rows |
| ExcelExport.ExportRowsSnoc | src/features/automation-logs/lib/use-excel-export.ts:53-67 | the rows for one more log are the earlier rows followed by that log's row |
| ExcelExport.ExportRowsPointwise | src/features/automation-logs/lib/use-excel-export.ts:53-67 | data row k is the row of log k |
| ExcelExport.ExportToExcel | src/features/automation-logs/lib/use-excel-export.ts:10-67 | the filled sheet is the header followed by one row per log, in the given order |
| ExcelExport.DownloadNameUsesDate | src/features/automation-logs/lib/use-excel-export.ts:92 | for an ISO timestamp the file name is the base name, "-", the calendar date before the "T", then ".xlsx" |
| MotionNavStore.Reinitialized | src/features/motion-nav/model/motion-nav-store.ts:14-26 | the rebuilt record holds exactly the given ids, each as open as it was before (never-seen ids closed) |
| MotionNavStore.Toggle | src/features/motion-nav/model/motion-nav-store.ts:34-40 | the section's open state flips and every other entry stays as it was |
| MotionNavStore.SetOpen | src/features/motion-nav/model/motion-nav-store.ts:41-47 | the section takes the given state and every other entry stays as it was |
| MotionNavStore.NavStore.constructor | src/features/motion-nav/model/motion-nav-store.ts:11 | the store starts with no entries |
| MotionNavStore.NavStore.InitializeSections | src/features/motion-nav/model/motion-nav-store.ts:12-33 | the loop and the key-count test leave the state rebuilt for the ids when some id is new or the counts differ, and untouched otherwise |
| MotionNavStore.NavStore.ToggleSection | src/features/motion-nav/model/motion-nav-store.ts:34-40 | the new state is the toggled record |
| MotionNavStore.NavStore.SetSectionOpen | src/features/motion-nav/model/motion-nav-store.ts:41-47 | the new state is the record with that one entry set |
| MotionNavStore.ToggleTwice | src/features/motion-nav/model/motion-nav-store.ts:34-40 | toggling twice restores the section's state, now stored explicitly |
| MotionNavStore.SetOpenIdempotent | src/features/motion-nav/model/motion-nav-store.ts:41-47 | setting a section twice equals setting it once |
| MotionNavStore.InitializeReplaces | src/features/motion-nav/model/motion-nav-store.ts:28-32 | a replaced state holds exactly the given ids, each open iff it was open before |
| MotionNavStore.InitializeKeepsOpenState | src/features/motion-nav/model/motion-nav-store.ts:12-33 | initialization never changes whether a listed section is open |
| MotionNavStore.InitializeIdempotent | src/features/motion-nav/model/motion-nav-store.ts:12-33 | initializing twice with the same ids gives the state of initializing once |
| MotionNavStore.KeptStateHasExactlyIds | src/features/motion-nav/model/motion-nav-store.ts:22-32 | with distinct ids, a state left unchanged already has exactly those ids as keys |
| MotionNavStore.RepeatedIdKeepsStaleKey | src/features/motion-nav/model/motion-nav-store.ts:28-32 | with a repeated id the key count can match by chance, and a stale key outside the ids survives |
| Approval.Filtered | src/features/approval-management/ui/approval-page-content.tsx:26-28 | "all" keeps the list as it is; a status keeps only applications of the list with that status |
| Approval.FilteredKeepsMatches | src/features/approval-management/ui/approval-page-content.tsx:26-28 | a status filter keeps every application with that status, in the list's order |
| Approval.StatsAddUp | src/features/approval-management/ui/approval-page-content.tsx:55-63 | the pending, approved, rejected and waitlisted counters add up to the total |
| Approval.RuleLabel | src/features/approval-management/ui/approval-page-content.tsx:44-52 | the four approval rules get their Korean labels, any other string comes back unchanged |
| Approval.ApproveIn | src/features/approval-management/ui/approval-page-content.tsx:65-78 | applications with the id become approved at the given instant, reviewed by "admin", every other field kept; all other applications are unchanged and the length is kept |
| Approval.RejectIn | src/features/approval-management/ui/approval-page-content.tsx:80-94 | applications with the id become rejected at the given instant with the reason, reviewed by "admin", every other field kept; all others unchanged |
| Approval.UnknownIdChangesNothing | src/features/approval-management/ui/approval-page-content.tsx:65-94 | an id no application has leaves the list unchanged under both handlers |
| Approval.HandlersKeepIds | src/features/approval-management/ui/approval-page-content.tsx:65-94 | both handlers keep every position's id, so the order is kept |
| Approval.HandlersIgnorePriorStatus | src/features/approval-management/ui/approval-page-content.tsx:65-94 | the handlers do not look at the prior status: a rejected application can be approved and an approved one rejected |
| Approval.ApproveMovesCount | src/features/approval-management/ui/approval-page-content.tsx:55-78 | approving the single pending application with an id moves one from the pending counter to the approved counter |
| Approval.ApprovalPage.constructor | src/features/approval-management/ui/approval-page-content.tsx:14-16 | the page starts with the given applications and the "all" filter |
| Approval.ApprovalPage.HandleApprove | src/features/approval-management/ui/approval-page-content.tsx:65-78 | the new list is the approved list; the filter is kept |
| Approval.ApprovalPage.HandleReject | src/features/approval-management/ui/approval-page-content.tsx:80-94 | the new list is the rejected list; the filter is kept |
| Approval.ApprovalPage.SetFilterStatus | src/features/approval-management/ui/approval-page-content.tsx:234-237 | a filter button sets the filter and leaves the list alone |
| SchedulingModel.FindPlatform | src/features/scheduling-management/ui/scheduling-page-content.tsx:618 | a found platform is in the list and has the id; none is found exactly when no platform has it |
| SchedulingPage.Filtered | src/features/scheduling-management/ui/scheduling-page-content.tsx:43-47 | "all" keeps the list as it is; a status keeps only schedules of the list with that status |
| SchedulingPage.FilteredKeepsMatches | src/features/scheduling-management/ui/scheduling-page-content.tsx:43-47 | a status filter keeps every schedule with that status, in order |
| SchedulingPage.TotalPages | src/features/scheduling-management/ui/scheduling-page-content.tsx:50 | the fewest pages of ten that hold all the filtered schedules |
| SchedulingPage.PageItems | src/features/scheduling-management/ui/scheduling-page-content.tsx:51-53 | page p holds min(10, schedules left) schedules, item k being schedule (p-1)*10+k |
| SchedulingPage.EveryItemOnItsPage | src/features/scheduling-management/ui/scheduling-page-content.tsx:50-53 | every schedule appears on exactly the page its index gives, at its offset there, and that page exists |
| SchedulingPage.RangeCoversPage | src/features/scheduling-management/ui/scheduling-page-content.tsx:268-269 | on an existing page the "start-end" text counts exactly the schedules shown |
| SchedulingPage.Window | src/features/scheduling-management/ui/scheduling-page-content.tsx:284-294 | min(5, totalPages) buttons, button i numbered by the window rule |
| SchedulingPage.SmallWindowListsAll | src/features/scheduling-management/ui/scheduling-page-content.tsx:286-287 | up to five pages the buttons are 1 to totalPages |
| SchedulingPage.WideWindowShape | src/features/scheduling-management/ui/scheduling-page-content.tsx:288-294 | beyond five pages the buttons are five consecutive existing pages and include the current one |
| SchedulingPage.StatsOf | src/features/scheduling-management/ui/scheduling-page-content.tsx:78-85 | the total is the number of schedules, and the confirmed, draft and conflict counters are bounded by it |
| SchedulingPage.StatsMatchFilter | src/features/scheduling-management/ui/scheduling-page-content.tsx:78-85 | the confirmed and draft counters equal the sizes of those filtered lists |
| SchedulingPage.SlotOf | src/features/scheduling-management/ui/scheduling-page-content.tsx:638-641 | the slot for the k-th chosen day carries that day, the form's start and end dates, and an id from its own clock reading and k |
| SchedulingPage.SlotsOf | src/features/scheduling-management/ui/scheduling-page-content.tsx:637-642 | one slot per chosen day, in the order the days were chosen |
| SchedulingPage.NewSchedule | src/features/scheduling-management/ui/scheduling-page-content.tsx:616-652 | the created schedule: no conflicts, no students, one time slot per chosen day with the form's dates, draft or confirmed as chosen, a numeric meeting id inside the link for the platform's host, a password exactly when drawn; the schedule id, each slot id, the creation and the update instant come from their own clock readings |
| SchedulingPage.MeetingLinkHosts | src/features/scheduling-management/ui/scheduling-page-content.tsx:618-623 | the custom platform gets a meet.google.com link; an unknown platform is treated as Zoom with a zoom.us link |
| SchedulingPage.CustomPlatformChosen | src/features/scheduling-management/model/scheduling.ts:57-90 | "platform-4" is the custom platform of the list |
| SchedulingPage.AddingScheduleStats | src/features/scheduling-management/ui/scheduling-page-content.tsx:78-85 | prepending a created schedule adds one to the total and to its own status's counter and leaves the conflict count alone |
| SchedulingPage.SchedulingPageState.constructor | src/features/scheduling-management/ui/scheduling-page-content.tsx:28-32 | the page starts with the given schedules, the "all" filter and page 1 |
| SchedulingPage.SchedulingPageState.HandleFilterChange | src/features/scheduling-management/ui/scheduling-page-content.tsx:56-59 | a new filter sets the filter and goes back to page 1 |
| SchedulingPage.SchedulingPageState.PreviousPage | src/features/scheduling-management/ui/scheduling-page-content.tsx:273 | the previous-page button goes one page back, never below 1 |
| SchedulingPage.SchedulingPageState.NextPage | src/features/scheduling-management/ui/scheduling-page-content.tsx:312 | the next-page button goes one page on, never beyond the last page |
| SchedulingPage.SchedulingPageState.GoToPage | src/features/scheduling-management/ui/scheduling-page-content.tsx:296-298 | a window button sets the page to its own number |
| SchedulingPage.SchedulingPageState.AddSchedule | src/features/scheduling-management/ui/scheduling-page-content.tsx:653 | the created schedule is put in front of the list; filter and page are kept |
| ScheduleDialog.DayLeIsTotalPreorder | src/features/scheduling-management/ui/schedule-create-dialog.tsx:135 | the comparator-less `sort()` order (numbers compared as decimal strings) is total and transitive |
| ScheduleDialog.DayLeIsNumericForDigits | src/features/scheduling-management/ui/schedule-create-dialog.tsx:135 | for single digits, as every weekday number is, string order is numeric order |
| ScheduleDialog.DayToggleFlips | src/features/scheduling-management/ui/schedule-create-dialog.tsx:131-137 | toggling a day flips whether it is selected and no other day's |
| ScheduleDialog.DayToggleRemovalKeepsOrder | src/features/scheduling-management/ui/schedule-create-dialog.tsx:134 | removing a selected day keeps the other days in their order |
| ScheduleDialog.DayToggleSortsWeekdays | src/features/scheduling-management/ui/schedule-create-dialog.tsx:135 | adding a weekday (0 to 6) to weekdays leaves them in ascending numeric order |
| ScheduleDialog.EndDateError | src/features/scheduling-management/ui/schedule-create-dialog.tsx:368-373 | an end-date error exactly when the end precedes the start |
| ScheduleDialog.EndTimeError | src/features/scheduling-management/ui/schedule-create-dialog.tsx:421-426 | no end-time error while the start time is empty; otherwise an error exactly when the end time is not after the start time as strings |
| ScheduleDialog.EndTimeRuleIsTimeOrder | src/features/scheduling-management/ui/schedule-create-dialog.tsx:421-426 | on well-formed "HH:mm" values the string rule rejects exactly the end times not later than the start time |
| ScheduleDialog.CapacityBound | src/features/scheduling-management/ui/schedule-create-dialog.tsx:306-314 | the upper capacity bound is the chosen platform's capacity, or 300 when there is no such platform or its capacity is 0 |
| ScheduleDialog.MockCapacityBounds | src/features/scheduling-management/ui/schedule-create-dialog.tsx:306-314 | with the listed platforms Teams allows 300, the custom platform 50, and no choice 300 |
| ScheduleDialog.CheckConflicts | src/features/scheduling-management/ui/schedule-create-dialog.tsx:102-118 | at most one conflict, a "platform" one, exactly when the chosen platform exists and is unavailable |
| ScheduleDialog.MockPlatformsNeverConflict | src/features/scheduling-management/ui/schedule-create-dialog.tsx:102-118 | every listed platform is available, so the check reports nothing for any choice |
| ScheduleDialog.FindCourse | src/features/scheduling-management/ui/schedule-create-dialog.tsx:66 | a found course is in the list and has the id; none is found exactly when no course has it |
| ScheduleDialog.FindInstructor | src/features/scheduling-management/ui/schedule-create-dialog.tsx:70 | a found instructor is in the list and has the id; none is found exactly when no instructor has it |
| ScheduleDialog.CourseFill | src/features/scheduling-management/ui/schedule-create-dialog.tsx:64-76 | a known course fills title, instructor id and, when that instructor is known, the name; nothing else changes, and an empty or unknown course changes nothing |
| ScheduleDialog.PlatformFill | src/features/scheduling-management/ui/schedule-create-dialog.tsx:79-86 | a known platform fills the platform name and nothing else; an empty or unknown platform changes nothing |
| ScheduleDialog.DefaultsAreValid | src/features/scheduling-management/ui/schedule-create-dialog.tsx:32-50 | the default values pass the date, time and capacity rules for every choice of platform |
| ScheduleDialog.ScheduleForm.constructor | src/features/scheduling-management/ui/schedule-create-dialog.tsx:32-50 | the form starts with the default values |
| ScheduleDialog.ScheduleForm.OnCourseChange | src/features/scheduling-management/ui/schedule-create-dialog.tsx:64-76 | the course effect's `setValue` calls leave the values of CourseFill |
| ScheduleDialog.ScheduleForm.OnPlatformChange | src/features/scheduling-management/ui/schedule-create-dialog.tsx:79-86 | the platform effect leaves the values of PlatformFill |
| ScheduleDialog.ScheduleForm.HandleDayToggle | src/features/scheduling-management/ui/schedule-create-dialog.tsx:131-137 | the selected days become the toggled list; every other value is kept |
| NotificationDialog.TrimEach | src/features/notification-management/ui/notification-send-dialog.tsx:91 | one trimmed piece per piece, in order |
| NotificationDialog.RecipientsAreClean | src/features/notification-management/ui/notification-send-dialog.tsx:89-92 | every recipient is non-empty, has no white space at either end and no comma, and there is at most one more recipient than commas |
| NotificationDialog.TrimmedPiecesClean | src/features/notification-management/ui/notification-send-dialog.tsx:89-92 | trimming comma-free pieces and dropping blanks leaves clean recipients |
| NotificationDialog.RecipientsAtComma | src/features/notification-management/ui/notification-send-dialog.tsx:89-92 | the recipients of "a,b" are those of a followed by those of b: input order is kept |
| NotificationDialog.SingleRecipient | src/features/notification-management/ui/notification-send-dialog.tsx:89-92 | an input without commas is one recipient, itself trimmed, unless it is blank |
| NotificationDialog.RecipientsOfEmpty | src/features/notification-management/ui/notification-send-dialog.tsx:89-92 | an empty input names no recipient |
| NotificationDialog.RecipientsError | src/features/notification-management/ui/notification-send-dialog.tsx:180-188 | the recipients field passes exactly when at least one recipient is named |
| NotificationDialog.ContentError | src/features/notification-management/ui/notification-send-dialog.tsx:246-254 | e-mail content has no rule; SMS content passes exactly when non-empty and at most 2000 UTF-16 units long |
| NotificationDialog.SubjectError | src/features/notification-management/ui/notification-send-dialog.tsx:216-219 | a subject error exactly for e-mail with an empty subject |
| NotificationDialog.ScheduledDateError | src/features/notification-management/ui/notification-send-dialog.tsx:300-304 | a date error exactly when not sending at once and the date is empty |
| NotificationDialog.ScheduledTimeError | src/features/notification-management/ui/notification-send-dialog.tsx:319-323 | a time error exactly when not sending at once and the time is empty |
| NotificationDialog.SendGate | src/features/notification-management/ui/notification-send-dialog.tsx:94-99 | of the field rules only the SMS length limit goes beyond the button's validity test |
| NotificationDialog.ImmediateIgnoresSchedule | src/features/notification-management/ui/notification-send-dialog.tsx:94-99 | when sending at once the scheduled date and time do not matter to validity or sending |
| NotificationDialog.FindEmailTemplate | src/features/notification-management/ui/notification-send-dialog.tsx:58 | a found template is in the list and has the id; none is found exactly when no template has it |
| NotificationDialog.FindSmsTemplate | src/features/notification-management/ui/notification-send-dialog.tsx:59 | a found template is in the list and has the id; none is found exactly when no template has it |
| NotificationDialog.SelectTemplate | src/features/notification-management/ui/notification-send-dialog.tsx:54-69 | the template id is set; a known e-mail template fills subject and content, a known SMS template the content only; nothing else changes |
| NotificationDialog.EmailTemplateCompletesForm | src/features/notification-management/ui/notification-send-dialog.tsx:54-69 | choosing a known e-mail template with subject and content, with recipients entered and immediate sending, makes the form valid |
| NotificationDialog.SendDialog.constructor | src/features/notification-management/lib/use-notification-form.ts:17-26 | the form starts with the default values |
| NotificationDialog.SendDialog.HandleTemplateSelect | src/features/notification-management/ui/notification-send-dialog.tsx:54-69 | the `setValue` calls leave the form of SelectTemplate |
| ExpenseForm.Check | src/features/expense-management/ui/expense-form-section.tsx:59-78 | a file passes exactly when its type is allowed, its size is within the limit and the limit (if any) leaves room; a disallowed type is reported as such first |
| ExpenseForm.Accepted | src/features/expense-management/ui/expense-form-section.tsx:55-80 | no more files are kept than were selected |
| ExpenseForm.AcceptedOrAlerted | src/features/expense-management/ui/expense-form-section.tsx:59-79 | every selected file is either kept or raises exactly one alert |
| ExpenseForm.AcceptedAreAdmissible | src/features/expense-management/ui/expense-form-section.tsx:59-79 | kept files keep their selection order and all have an allowed type and size |
| ExpenseForm.AcceptedRespectsLimit | src/features/expense-management/ui/expense-form-section.tsx:73-76 | with a file limit, a section within it stays within it after a selection |
| ExpenseForm.AcceptedFillsToLimit | src/features/expense-management/ui/expense-form-section.tsx:73-78 | when every file has an allowed type and size, all are kept without a limit, and with one exactly as many as it leaves room for |
| ExpenseForm.RemoveAt | src/features/expense-management/ui/expense-form-section.tsx:87-88 | removing a valid index drops exactly that file and keeps the others in order; any other index changes nothing |
| ExpenseForm.AccommodationDefaultAtLimit | src/features/expense-management/ui/expense-form-section.tsx:101-114 | the 80000 filled in by the switch is not over the accommodation limit while any larger amount is; a maximum is shown for accommodation and not for the unlimited fuel |
| ExpenseForm.ExpenseSection.constructor | src/features/expense-management/ui/expense-form-section.tsx:42-46 | the section starts with the form's files, enabled unless it is an accommodation section with no amount |
| ExpenseForm.ExpenseSection.HandleFileSelect | src/features/expense-management/ui/expense-form-section.tsx:55-85 | the kept files are appended after the attached ones, the alerts are the refusals in order, and nothing else changes |
| ExpenseForm.ExpenseSection.HandleFileRemove | src/features/expense-management/ui/expense-form-section.tsx:87-92 | the files become the list without that index; nothing else changes |
| ExpenseForm.ExpenseSection.HandleAccommodationToggle | src/features/expense-management/ui/expense-form-section.tsx:101-111 | switching on fills in 80000, switching off clears the amount and the description; files are kept |
| ExpenseSubmission.OrZero | src/features/expense-management/ui/expense-submission-form.tsx:30-32 | `amount \|\| 0` is the amount for a number and 0 for undefined or NaN |
| ExpenseSubmission.TotalCountsNumbersOnly | src/features/expense-management/ui/expense-submission-form.tsx:28-34 | the total sums exactly the amounts that are numbers, and each amount adds to it independently |
| ExpenseSubmission.ValidFormTotal | src/features/expense-management/ui/expense-submission-form.tsx:47-54 | a submittable form has a total of at least the fuel and lecture amounts, both positive, and a blank or non-negative accommodation |
| ExpenseSubmission.BlankAmounts | src/features/expense-management/ui/expense-submission-form.tsx:47-54 | a blank accommodation amount counts like 0, while a blank fuel or lecture amount disables submission |
| ExpenseSubmission.AccountNumberError | src/features/expense-management/ui/expense-submission-form.tsx:227-233 | the account number passes exactly when it is non-empty and made of digits and hyphens only |
| ExpenseSubmission.AccountRulesArePattern | src/features/expense-management/ui/expense-submission-form.tsx:227-233 | the two rules accept exactly what `/^[0-9-]+$/` matches |
| ExpenseSubmission.FindCourse | src/features/expense-management/ui/expense-submission-form.tsx:79 | a found course is in the list and has the id; none is found exactly when no course has it |
| ExpenseSubmission.ChooseCourse | src/features/expense-management/ui/expense-submission-form.tsx:76-84 | the course id is set, and the title is filled from a known course only |
| ExpenseSubmission.UnknownCourseKeepsTitle | src/features/expense-management/ui/expense-submission-form.tsx:79-82 | an id not in the list keeps the last chosen title |
| ExpenseSubmission.SubmissionForm.constructor | src/features/expense-management/ui/expense-submission-form.tsx:26 | the form holds the given values |
| ExpenseSubmission.SubmissionForm.OnCourseChange | src/features/expense-management/ui/expense-submission-form.tsx:76-84 | the select's change leaves the values of ChooseCourse |
| EcologyMatrix.Dataset | src/features/motion-demos/ui/ecology-matrix.tsx:78 | the dataset is never empty: the given cards when there are some, else the nine fallback specimens |
| EcologyMatrix.NormalizedIndexIsResidue | src/features/motion-demos/ui/ecology-matrix.tsx:80 | the normalized index is the least non-negative residue of the active index, negative indices included |
| EcologyMatrix.StepWraps | src/features/motion-demos/ui/ecology-matrix.tsx:80-98 | stepping the active index by one moves the active card to its neighbour, wrapping at either end |
| EcologyMatrix.RelativeShape | src/features/motion-demos/ui/ecology-matrix.tsx:86-95 | a card's relative position is its index difference up to one turn, lies within half a turn, and is 0 only for the active card |
| EcologyMatrix.RelativeDistinct | src/features/motion-demos/ui/ecology-matrix.tsx:86-95 | two cards never share a relative position |
| EcologyMatrix.CarouselItems | src/features/motion-demos/ui/ecology-matrix.tsx:86-95 | one item per specimen, in order, carrying its index and its relative position to the normalized index |
| EcologyMatrix.OneActiveCard | src/features/motion-demos/ui/ecology-matrix.tsx:120-126 | exactly one card is active, the one at the normalized index, and it is drawn |
| EcologyMatrix.NeighboursDrawn | src/features/motion-demos/ui/ecology-matrix.tsx:184-187 | with five or more cards, the two neighbours on each side of the active card are drawn at relative positions -2 to 2 |
| EcologyMatrix.WrappedNeighbour | src/features/motion-demos/ui/ecology-matrix.tsx:80-92 | the card d places from the active one, for d from -2 to 2, is found by wrapping the index once |
| EcologyMatrix.Carousel.constructor | src/features/motion-demos/ui/ecology-matrix.tsx:79 | the active index starts at 0 |
| EcologyMatrix.Carousel.HandleCarouselChange | src/features/motion-demos/ui/ecology-matrix.tsx:97-99 | a button moves the active index by its direction, with no bound |
| EcologyMatrix.Carousel.ClickCard | src/features/motion-demos/ui/ecology-matrix.tsx:205-209 | a click on an inactive card makes it active, one on the active card changes nothing; either way that card is active afterwards |
| MotionRegistry.RegistryWellFormed | src/features/motion-demos/model/motion-demo-registry.ts:25-104 | each registry slug is its category, "/", and its demo, none of them holding another "/", and slugs and translation keys are all different |
| MotionRegistry.SlugJoinsIsConcat | src/features/motion-demos/model/motion-demo-registry.ts:25-104 | a slug split at its category is the category, "/" and the demo joined |
| MotionRegistry.ByParams | src/features/motion-demos/model/motion-demo-registry.ts:106-109 | a found demo is in the registry with slug category/demo; none is found exactly when no slug matches |
| MotionRegistry.PathByTranslationKey | src/features/motion-demos/model/motion-demo-registry.ts:111-114 | a found path is "/motions/" plus the slug of an entry with that key; null exactly when no entry has the key |
| MotionRegistry.ByParamsRoundTrip | src/features/motion-demos/model/motion-demo-registry.ts:106-109 | in a well-formed registry every entry is found from its own category and demo, and from no other route parameters |
| MotionRegistry.PathRoundTrip | src/features/motion-demos/model/motion-demo-registry.ts:111-114 | in a well-formed registry every entry's translation key leads to that entry's page |
| MotionRegistry.RegistryRoutes | src/features/motion-demos/model/motion-demo-registry.ts:25-114 | each of the registry's own entries is reachable by its route and by its translation key |
| Navigation.SectionsWellFormed | src/features/automation-nav/model/navigation.ts:16-71 | every item's page is the base path, its section slug and its item slug; section slugs and labels are distinct, as are item slugs within a section |
| Navigation.SameSectionFromPath | src/features/automation-nav/model/navigation.ts:14-71 | two item pages that are both prefixes of one path lie under the same section |
| Navigation.FindSection | src/features/automation-nav/model/navigation.ts:74-75 | a found section is in the list and has the slug; none is found exactly when no section has it |
| Navigation.FindItem | src/features/automation-nav/model/navigation.ts:76 | a found item is in the list and has the slug; none is found exactly when no item has it |
| Navigation.GetNavItem | src/features/automation-nav/model/navigation.ts:73-77 | a found item has the item slug and belongs to a section with the section slug; an unknown section slug finds nothing |
| Navigation.GetNavItemRoundTrip | src/features/automation-nav/model/navigation.ts:73-77 | in a well-formed list every item is found from its own section and item slugs |
| Navigation.GetNavItemStaysInSection | src/features/automation-nav/model/navigation.ts:73-77 | under a section slug exactly that section's item slugs are found, and only its items |
| Navigation.LogsOnlyUnderOperations | src/features/automation-nav/model/navigation.ts:16-77 | "logs" is found under "operations" only; under "platform" it is not, and nothing is found under a missing section |
| AutomationNav.FirstActiveSection | src/features/automation-nav/lib/use-automation-nav.ts:18-19 | the first section with an item whose page starts the path; none exactly when no section has one |
| AutomationNav.DerivedLabel | src/features/automation-nav/lib/use-automation-nav.ts:16-22 | the label of the first section holding an active item, else the first section's label, and none only without sections |
| AutomationNav.DerivedLabelOfItemPage | src/features/automation-nav/lib/use-automation-nav.ts:16-22 | on an item's page, or below it, only that item's section holds an active item, and it is the derived one |
| AutomationNav.HubRootOpensFirstSection | src/features/automation-nav/lib/use-automation-nav.ts:16-22 | on the hub's root page no item is active, so the first section is derived |
| AutomationNav.FirstItemHref | src/features/automation-nav/lib/use-automation-nav.ts:29-35 | a header click leads to the first item of a section with that label; an unknown label leads nowhere |
| AutomationNav.FirstItemHrefOfSection | src/features/automation-nav/lib/use-automation-nav.ts:29-35 | in a well-formed list a header leads to its own section's first item, or nowhere when the section is empty |
| AutomationNav.OneSectionOpen | src/features/automation-nav/lib/use-automation-nav.ts:24-44 | at most one section is open; with no manual choice, or one naming a section, exactly one is |
| AutomationNav.NavController.constructor | src/features/automation-nav/lib/use-automation-nav.ts:13 | no section is chosen by hand at first |
| AutomationNav.NavController.HandleSectionClick | src/features/automation-nav/lib/use-automation-nav.ts:29-37 | the router goes to the section's first item when there is one, and the clicked section is open afterwards on every path |
| AutomationShell.Flatten | src/features/automation-nav/ui/automation-shell.tsx:17-18 | every item of every section is in the flattened list, and nothing else is |
| AutomationShell.ActiveItemInFirstActiveSection | src/features/automation-nav/ui/automation-shell.tsx:16-20 | the active item is the first active item of the first section that has one: the section the sidebar derives as open |
| AutomationShell.HeaderTitleShowsActiveItem | src/features/automation-nav/ui/automation-shell.tsx:16-26 | the title is the active item's, whose page starts the path; with no active item it is "대시보드" |
| AutomationShell.ActiveItemOnItemPage | src/features/automation-nav/ui/automation-shell.tsx:16-20 | on an item's page, or below it, the active item belongs to that item's section |
| AutomationShell.HubRootTitle | src/features/automation-nav/ui/automation-shell.tsx:16-26 | on the hub's root page the title is "대시보드" |
| AutomationShell.Toggled | src/features/automation-nav/ui/automation-shell.tsx:66 | a click sets the label unless it was the manual choice, in which case the choice is cleared |
| AutomationShell.Sidebar.constructor | src/features/automation-nav/ui/automation-shell.tsx:38 | no section is chosen by hand at first |
| AutomationShell.Sidebar.ClickSectionHeader | src/features/automation-nav/ui/automation-shell.tsx:65-67 | a header click leaves the toggled manual choice |
| AutomationShell.DerivedSectionStaysOpen | src/features/automation-nav/ui/automation-shell.tsx:40-67 | as written, no click on the header of the section that holds the current page closes it |
| AutomationShell.LogsPageSectionCannotClose | src/features/automation-nav/ui/automation-shell.tsx:40-67 | on the logs page, "실행 관리" is open before, after one and after two clicks on its header |
| AutomationShell.CorrectedToggleFlips | src/features/automation-nav/ui/automation-shell.tsx:65-67 | with the corrected toggle a click flips its own section, the current page's included, and every other section is closed |
| Certificates.GenerateCertificate | src/features/certificate-management/model/certificates.ts:23-38 | the certificate copies the student and course fields, falls back to the clock's second reading and 0 for a missing completion date and grade, is issued at the third reading and numbered by the year (first reading) and draw |
| Certificates.CertificateNumberShape | src/features/certificate-management/model/certificates.ts:24 | the number is "CERT-", the year, "-", then exactly five digits that read back as the draw |
| Certificates.CertificateNumberInjective | src/features/certificate-management/model/certificates.ts:24 | within one year different draws give different numbers |
| Certificates.CertificateIdPerCourse | src/features/certificate-management/model/certificates.ts:27 | for one student, the certificate id determines the course |

## Left out

- Network and processes: the HTTP call to Ollama is an outcome parameter of `ChatServer.CallOllama`, and `fetch` in the chatbot hook one of `Chatbot.SettlementOf`; the command-line Ollama client, the Next.js `/api/chat` proxy, the Unsplash and GitHub fetches and the `apiFetch`/React Query layer are not part of this model.
- FastAPI wiring, CORS and the `/health` route: framework plumbing with no logic of its own.
- Rendering and animation: JSX, Tailwind classes, motion springs, Recharts and the rich-text editor; only the texts and structures the components compute are modelled.
- DOM side effects: `alert` becomes a returned list of alerts; the clipboard, `localStorage`, `html2pdf`, Blob creation and the download are left out.
- ExcelJS styling (fonts, fills, widths, borders): only cell values, labels and the file name are modelled.
- Randomness and clocks are inputs: the mock log draws, meeting draws, the current instant, the current year and the certificate draw; parsing an ISO date and the local time-zone offset are an explicit day function.
- Floating point: attendance rates, ratings, averages and `formatFileSize` are not modelled; amounts and durations are integers.
- Locale: `localeCompare` is modelled as code-point order, which agrees with it on the ISO dates and `log-N` ids it compares; `toLocaleString` formatting is left out.
- Asynchronous timing: requests settle in one step, and the stale `conflicts` read after an `await` in the scheduling dialog is not modelled.
- Library internals: TanStack Table's sorting and row model, react-hook-form's registration, zustand's `set` merging and React's state batching; the model uses their documented results.
- JavaScript object-literal lookups such as `labels[status]` would also find inherited keys like "constructor"; the model treats such keys as absent.
- The schedule form's `repeatType` is registered and stored but never read when a schedule is created, so it is not part of the form data modelled.
- MotionCatalog.Tokens: lower-casing maps only the ASCII letters A-Z; Python's `str.lower()` maps every cased character and can change a string's length (one "İ" becomes two code points), so for queries with non-ASCII capitals the model's tokens can differ from the server's. The catalog texts themselves are ASCII.
- The registry's descriptions, insights and demo components, the specimen colour accents, the quick prompts and the scroll-to-bottom effects carry no logic and are left out.

## Findings

| source | as written | input that shows it | evidently intended | confidence | as-written member | corrected member |
|---|---|---|---|---|---|---|
| src/features/automation-nav/ui/automation-shell.tsx:65-67 | clicking the header of the section that holds the current page never closes it: toggling the manual choice back to undefined falls back to the derived label, which is that same section | on the logs page, click "실행 관리" once and then again | each click flips that section between open and closed | medium, not executed | AutomationShell.DerivedSectionStaysOpen | AutomationShell.CorrectedToggleFlips |
