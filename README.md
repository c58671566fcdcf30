# Smart-campus room status and insights, modelled in Dafny

This project models the core logic of a smart-campus occupancy system.

- **Frontend (the two pages).** The Dashboard and RoomDetail pages hold rooms received from the backend. They classify each room as ghost, available, partially filled or occupied. When a `room_update` push arrives over the socket, they merge it into their state.
- **Backend (the insight generator).** It reads the last fifty history records of a room, newest first. It renders each record as one summary line, hands the summary to a text-generation model, strips markdown code fences from the reply, trims it and parses it as JSON. A room without history gets a sentinel string. Any failure gets an error object.

All three source files are pure or state-updater code, so the model is made of datatypes, functions and lemmas:

- `Wrappers` holds `Option`.
- `Rooms` holds the room state, the push payload, and JavaScript's `||` defaults on possibly missing numbers.
- `Dashboard` and `RoomDetail` model the two pages.
- `History` models the history record and the `find / sort / limit` query.
- `JsText` models `trim`, `join`, `split` and integer rendering, and proves their properties.
- `Insights` models `generateRoomInsights`.

Things the model cannot see are parameters:

- the model call;
- `JSON.parse`;
- `toLocaleTimeString`;
- the clock that stamps `lastUpdated`;
- the history collection, given as a sequence, or `None` when the query fails.

Three details come straight from the code:

- A room's `capacity` lives on the room, not inside `liveStatus`.
- Capacity may be missing or `0`. The pages then fall back to 50.
- Occupancy may be missing. It then counts as 0.

## Model

| member | source | states |
|---|---|---|
| Rooms.Truthy | smart-campus-frontend/src/pages/Dashboard.jsx:47 | JavaScript truthiness of a possibly missing number (missing and 0 are falsy); the defining test behind every `\|\|`, whose properties `Rooms.Or` and `Rooms.OrDefault` state |
| Rooms.Or | smart-campus-frontend/src/pages/Dashboard.jsx:47 | `a \|\| b` is truthy exactly when `a` or `b` is, and is `a` when `a` is truthy, `b` otherwise |
| Rooms.OrAbsorbs | smart-campus-frontend/src/pages/Dashboard.jsx:47 | `a \|\| (a \|\| b)` equals `a \|\| b`: merging the same pushed capacity twice keeps the first result |
| Rooms.OrDefault | smart-campus-frontend/src/pages/Dashboard.jsx:66-67 | with a non-zero default, `n \|\| d` is never 0, so `capacity / 2` always has a real divisor; the value when truthy, otherwise the default |
| Rooms.GhostFlag | smart-campus-frontend/src/pages/Dashboard.jsx:63 | `room.liveStatus?.isGhost` read as a truth value (false when the live status is missing); its use is stated by `Dashboard.GetStatus` and `RoomDetail.StatusDisplay` |
| Rooms.OccupancyOrZero | smart-campus-frontend/src/pages/Dashboard.jsx:66 | the occupancy read is 0 exactly when the live status or its occupancy is missing or 0; otherwise it is the stored occupancy |
| Rooms.CapacityOrDefault | smart-campus-frontend/src/pages/Dashboard.jsx:67 | the capacity read is never 0: the stored capacity when truthy, otherwise 50 |
| Dashboard.Status.Label | smart-campus-frontend/src/pages/Dashboard.jsx:62-80 | each status is one of the four strings `getStatus` returns |
| Dashboard.LabelInjective | smart-campus-frontend/src/pages/Dashboard.jsx:62-80 | different statuses have different strings, so a lookup keyed by the string tells the statuses apart |
| Dashboard.GetStatus | smart-campus-frontend/src/pages/Dashboard.jsx:62-80 | the ghost flag wins; otherwise zero occupancy is available. Partial holds exactly when occupancy is non-zero and below half the capacity under real division; occupied holds exactly when it is non-zero and at least half |
| Dashboard.UpdateRoom | smart-campus-frontend/src/pages/Dashboard.jsx:37-50 | a room of another id is returned unchanged. A matching room gets the pushed occupancy and ghost flag, keeps the other live-status fields (none when it had no live status) and takes the pushed capacity only when it is truthy |
| Dashboard.HandleUpdate | smart-campus-frontend/src/pages/Dashboard.jsx:35-53 | the list keeps its length and order, and each position holds the merge of the room that was there |
| Dashboard.HandleUpdateIsolation | smart-campus-frontend/src/pages/Dashboard.jsx:35-53 | the merge keeps every room's id and leaves every room of another id untouched |
| Dashboard.HandleUpdateUnknownRoom | smart-campus-frontend/src/pages/Dashboard.jsx:38-50 | a push naming no listed room leaves the list as it was |
| Dashboard.HandleUpdateIdempotent | smart-campus-frontend/src/pages/Dashboard.jsx:35-53 | delivering the same push twice gives the state one delivery gives |
| Dashboard.HandleUpdateCommutes | smart-campus-frontend/src/pages/Dashboard.jsx:35-53 | pushes for two different rooms give the same list in either order |
| Dashboard.StatusAfterUpdate | smart-campus-frontend/src/pages/Dashboard.jsx:35-80 | after a merge, a matching room's status follows from the pushed ghost flag and occupancy and the merged capacity alone |
| Dashboard.PushMakesRoomOccupied | smart-campus-frontend/src/pages/Dashboard.jsx:35-80 | room 101 at 5 of 50 is partial; after a push of 30 it holds 30 of 50 and shows occupied |
| Dashboard.GhostPushWinsOverEmptyRoom | smart-campus-frontend/src/pages/Dashboard.jsx:63 | a ghost push with zero occupancy makes the room ghost, whatever it was before |
| RoomDetail.HandleUpdate | smart-campus-frontend/src/pages/RoomDetail.jsx:72-86 | a push for another room leaves the state unchanged. A push for this room sets occupancy, ghost flag and `lastUpdated` to the handling time, keeps the room id and the live status's own id, and takes the pushed capacity only when truthy |
| RoomDetail.Category | smart-campus-frontend/src/pages/RoomDetail.jsx:103-113 | exactly the four status badges stand for a Dashboard category |
| RoomDetail.StatusDisplay | smart-campus-frontend/src/pages/RoomDetail.jsx:96-114 | a missing room shows the loading badge and a ghost shows the ghost badge. Any loaded room shows a non-loading badge whose category is the one the Dashboard's `getStatus` picks |
| RoomDetail.OtherRoomIgnored | smart-campus-frontend/src/pages/RoomDetail.jsx:74 | a push for another room changes nothing, loaded or not |
| RoomDetail.HandleUpdateIdempotent | smart-campus-frontend/src/pages/RoomDetail.jsx:72-86 | handling the same push twice at the same moment equals handling it once |
| RoomDetail.AgreesWithDashboardMerge | smart-campus-frontend/src/pages/RoomDetail.jsx:75-84 | the single-room merge changes the room as the Dashboard's list merge does, except that it also stamps `lastUpdated` |
| History.Matching | smart-campus-backend/services/geminiService.js:12 | `find({ roomId })` keeps records of that room only, each as often as the collection holds it |
| History.InsertAdds | smart-campus-backend/services/geminiService.js:13 | one insertion step adds exactly the inserted record |
| History.InsertKeepsOrder | smart-campus-backend/services/geminiService.js:13 | one insertion step keeps a newest-first sequence newest first |
| History.SortNewestFirst | smart-campus-backend/services/geminiService.js:13 | `sort({ timestamp: -1 })` returns the same records, as a multiset, newest first |
| History.Window | smart-campus-backend/services/geminiService.js:12-14 | the window holds only the room's records, newest first; there are min(50, number of the room's records) of them |
| History.WindowKeepsNewest | smart-campus-backend/services/geminiService.js:12-14 | the window is drawn from the room's records, and no record it leaves out is newer than any record it keeps |
| History.KeepNewest | smart-campus-backend/services/geminiService.js:14 | `limit(k)` on a newest-first sequence keeps it newest first and keeps the k newest |
| Insights.ShowText | smart-campus-backend/services/geminiService.js:20 | `${log.dayOfWeek}`: the text has a line break exactly when a present value has one; a missing value renders `undefined` |
| Insights.ShowNumber | smart-campus-backend/services/geminiService.js:20 | a rendered number, or `undefined`, has no line break |
| Insights.ShowFlag | smart-campus-backend/services/geminiService.js:20 | a rendered ghost flag is `true`, `false` or `undefined` |
| Insights.FormatLine | smart-campus-backend/services/geminiService.js:20 | each summary line starts with "- " and has no line break unless the day or time text brings one |
| Insights.Lines | smart-campus-backend/services/geminiService.js:19-20 | `logs.map(...)`: one line per record in window order; its properties are stated by `Insights.SummaryLines` |
| Insights.Summary | smart-campus-backend/services/geminiService.js:19-21 | `logs.map(...).join("\n")`; stated by `Insights.SummaryLines` and `Insights.SummaryAddsOnlyLineBreaks` |
| Insights.SummaryAddsOnlyLineBreaks | smart-campus-backend/services/geminiService.js:19-21 | the join adds only line breaks: a character other than a line break that no line holds is not in the summary |
| Insights.SummaryLines | smart-campus-backend/services/geminiService.js:19-21 | splitting the summary at line breaks gives back exactly one line per record, in window order |
| JsText.Join | smart-campus-backend/services/geminiService.js:21 | `parts.join(sep)`; its properties are stated by `JsText.SplitJoin` and `JsText.JoinNoSeparator` |
| JsText.SplitJoin | smart-campus-backend/services/geminiService.js:21 | joining with a separator that no part contains and splitting at it gives back the parts |
| JsText.JoinNoSeparator | smart-campus-backend/services/geminiService.js:21 | a join contains a character other than the separator only if some part does |
| JsText.IntToString | smart-campus-backend/services/geminiService.js:20 | a rendered integer is non-empty and made of digits and a minus sign |
| JsText.IntToStringRoundTrip | smart-campus-backend/services/geminiService.js:20 | reading a rendered integer back gives the integer |
| JsText.NatToStringRoundTrip | smart-campus-backend/services/geminiService.js:20 | reading the digits of a natural number back gives the number |
| JsText.Trim | smart-campus-backend/services/geminiService.js:45 | `trim()` leaves no whitespace at either end and never lengthens the text |
| JsText.TrimIsMiddle | smart-campus-backend/services/geminiService.js:45 | the trimmed text is the part of the input between whitespace-only ends |
| JsText.TrimOfPadded | smart-campus-backend/services/geminiService.js:45 | trimming a trimmed piece surrounded by whitespace gives that piece |
| JsText.TrimIgnoresPadding | smart-campus-backend/services/geminiService.js:45 | trimming ignores whitespace added at either end |
| Insights.StripFences | smart-campus-backend/services/geminiService.js:45 | the fence-removal scan never lengthens the text |
| Insights.StripFencesNoBacktick | smart-campus-backend/services/geminiService.js:45 | text without a backtick passes fence removal unchanged |
| Insights.StripFencesKeeps | smart-campus-backend/services/geminiService.js:45 | a character other than a backtick is kept, and the scan goes on after it |
| Insights.StripFencesPrefix | smart-campus-backend/services/geminiService.js:45 | a backtick-free prefix passes through fence removal unchanged |
| Insights.KeepsFirst | smart-campus-backend/services/geminiService.js:45 | text not starting with a backtick keeps its first character |
| Insights.StripFencesLeavesNoFence | smart-campus-backend/services/geminiService.js:45 | whatever the reply, fence removal leaves no three backticks in a row |
| Insights.CleanReply | smart-campus-backend/services/geminiService.js:45 | the cleaned reply has no whitespace at either end |
| Insights.CleanReplyLeavesNoFence | smart-campus-backend/services/geminiService.js:45 | the cleaned reply has no three backticks in a row |
| Insights.CleanReplyNoBacktick | smart-campus-backend/services/geminiService.js:45 | a reply without backticks is only trimmed |
| Insights.CleanReplyUnwrapsFence | smart-campus-backend/services/geminiService.js:45 | a backtick-free answer in a json-tagged fence cleans to the same text as the bare answer |
| Insights.ReturnValue | smart-campus-backend/services/geminiService.js:16-51 | the no-data outcome returns the sentinel string, the failure returns `{ error: "Failed to generate insights" }`, and a parsed reply returns the parsed value |
| Insights.GenerateRoomInsights | smart-campus-backend/services/geminiService.js:9-53 | a failing query gives the error. No data is reported exactly when the room's window is empty. Otherwise the model is asked about that window's summary |
| Insights.AskModel | smart-campus-backend/services/geminiService.js:40-51 | never no-data. The result is the parsed value exactly when the model call and the parse of the cleaned reply both succeed, and the error otherwise |
| Insights.NoHistoryNoModelCall | smart-campus-backend/services/geminiService.js:16 | a room with no history gets the sentinel whatever the model and parser would do |
| Insights.SentinelIsNotError | smart-campus-backend/services/geminiService.js:16-51 | the sentinel and the error object are different values |
| Insights.ParsedValueCanImitateOtherOutcomes | smart-campus-backend/services/geminiService.js:16-51 | a reply that parses to the sentinel string or to the error object can't be told apart from no-data or failure |

## Left out

- The socket client, React state hooks, axios fetches, effects and JSX rendering are not modelled. That includes the card component and its colours, and the initial snapshot loads. Each page's state updater is modelled as a function from old state to new state.
- Concurrency is not modelled. The order in which the snapshot and pushes reach a page, and the asynchronous `await`s, are left out.
- RoomDetail.HandleUpdate: a push for the page's room that arrives before the snapshot has loaded throws in the source, because it reads `prev.liveStatus` of `null`. The model requires the room to be present in that case instead of modelling the exception.
- `roomId` comparisons use JavaScript strict equality. The model treats ids as strings, so a numeric id compared with a string id is not modelled.
- Numbers are exact unbounded integers. Non-integer and `NaN` values, rounding above 2^53, and JSON numbers with fractions or exponents are not modelled.
- JsText.IntToString: renders every integer as a minus sign and digits. JavaScript's `${n}` does so only below 10^21 in magnitude and switches to exponent notation (`1e+21`) from there; that form is not modelled.
- Null-valued history fields are not modelled. `None` in a history record means the property is absent and renders `undefined`; a `dayOfWeek`, `occupancy`, `capacity` or `isGhost` stored as `null` renders `null` in the source.
- `JSON.parse`, the model call and `toLocaleTimeString` are function parameters; `None` means the call threw. `new Date().toISOString()` is a string parameter.
- The Gemini SDK, the API key and `dotenv`, the model name and the prompt's fixed text are not modelled. The model call receives the room id and the summary, which is all the prompt takes from its inputs.
- The analytics route, the model-listing script and the Mongoose schema machinery (validation, `Date.now` defaulting) are not modelled. A timestamp is an integer, and other fields are optional.
- History.SortNewestFirst: records with equal timestamps come out in insertion-sort order. The database does not specify their order, so the window is proved only up to that freedom: newest first, and never skipping a newer record.
- Insights.FormatLine: its contract states the "- " prefix and the absence of added line breaks, not the full template text. The day of week is rendered verbatim (`undefined` when missing).
- JsText.Split exists only to state what a join produced. The source never splits.
- The `console.error` logging in the catch block is not modelled.
