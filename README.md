# Station gate backend: error log, auth gate and catalog

A Dafny model of three parts of a FastAPI backend that serves camera streams
for station gates.

- **The MediaMTX error log** (`error_logs.py`). Its router defines a POST
  that takes an error report and writes it as one JSON line into
  `logs/mediamtx_errors/<YYYY-MM-DD>.jsonl`, where the date is the date part
  of the report's ISO timestamp. Its GET reads the log back: it visits the
  `*.jsonl` files in reverse name order, reads each file top to bottom, skips
  blank lines, and stops once `limit` values (50 by default) have been
  collected. `app/api/v1/routes.py` mounts only the ping and streams routers,
  so the application does not serve these two endpoints as it stands. The
  model treats the router as a component of its own.
- **The `/api/v1` auth gate** (`auth.py`). It extracts a bearer token from the
  `Authorization` header. It forwards requests outside `/api/v1` and those on
  the public allowlist. Any other request needs a token equal to the
  configured development token, or it gets a 401. `app/main.py` installs only
  `CORSMiddleware`, so the application does not run this gate as it stands.
  The model treats the gate as a component of its own, with the development
  token as a parameter.
- **The mock catalog** (`mock_data.py`). It holds three stations, thirteen
  gates and thirteen streams, with lookups by id and by parent.

Modules:

- `Wrappers` holds `Option` and `Result`.
- `ErrorRecords` holds the report, the JSON record it is stored as, and the
  read-back of a record.
- `Timestamps` holds the `Z` rewrite, a reduced `datetime.fromisoformat`,
  `strftime('%Y-%m-%d')` and the partition file name.
- `FileOrder` holds Python's string order and `sorted(..., reverse=True)`.
- `ErrorLogStore` holds the log directory as a class over a map from file
  name to lines. It also holds the append, the listing, the reading loops, and
  the specification functions the loops are proved against.
- `AuthGate` holds `str.strip`, `split(" ", 1)`, the bearer token and the
  decision of `dispatch`.
- `Catalog` holds the constant lists and the six lookups.

How the error log is modelled:

- The log directory is `LogStore`. Its fields are `dirExists` and
  `files: map<string, seq<Line>>`.
- A stored line is one of three things: a JSON value (`Record`), a blank line,
  or a line `json.loads` refuses together with the message it raises
  (`Malformed`).
- `LogMediamtxError` updates the map in place.
- `GetLatestLogs` lists the files (`ListLogFiles`, a loop over the key set),
  then runs the two nested loops: `ReadNewestFirst` over the files and
  `ReadFile` over the lines of one file.
- Both loops are proved against `Window`, the non-blank lines the loops
  consume, and `Decode`, `json.loads` over those lines in order.
- The lemmas then state what the read-back returns in terms of `Records`,
  every non-blank line of the log in visiting order.

One behaviour of the read-back is stated as the code has it. When
`limit <= 0`, the test `len(logs) >= limit` already holds when the newest file
is opened. The loops therefore leave that file after its first non-blank line,
which is parsed. The response has no logs and a count of 1 or 0, and that
count depends on the newest file alone.

## Model

| member | source | states |
|---|---|---|
| ErrorRecords.ToRecord | app/api/v1/endpoints/error_logs.py:48-57 | the stored record is an object with exactly the eight keys in the written order; the timestamp is stored verbatim; an absent statusCode or clientInfo is stored as null |
| ErrorRecords.RecordRoundTrip | app/api/v1/endpoints/error_logs.py:48-57 | reading a stored record back gives the report it was written from, every field included |
| ErrorRecords.RequiredFieldsStored | app/api/v1/endpoints/error_logs.py:48-52 | the stored record holds the timestamp, streamId, errorType and errorMessage of the report as strings under their own keys |
| ErrorRecords.OptionalFieldsStored | app/api/v1/endpoints/error_logs.py:53-56 | the stored record holds statusCode, whepUrl, userAgent and clientInfo under their own keys, each as its value or as null when absent |
| ErrorRecords.ToRecordInjective | app/api/v1/endpoints/error_logs.py:48-57 | two different reports are never stored as the same record |
| ErrorRecords.KeysDistinct | app/api/v1/endpoints/error_logs.py:48-57 | no key of the log entry is written twice |
| ErrorRecords.MemberAt | app/api/v1/endpoints/error_logs.py:48-57 | looking a key up in an object finds the first member that carries it |
| Timestamps.ReplaceZ | app/api/v1/endpoints/error_logs.py:43 | a timestamp with no 'Z' is passed on unchanged, and the rewrite never shortens the text |
| Timestamps.ReplaceZConcat | app/api/v1/endpoints/error_logs.py:43 | the 'Z' rewrite works character by character, so it distributes over concatenation |
| Timestamps.FirstZRewritten | app/api/v1/endpoints/error_logs.py:43 | a '+' stands at the position of the first 'Z' after the rewrite |
| Timestamps.ZFreeHeadKept | app/api/v1/endpoints/error_logs.py:43 | ten leading characters without a 'Z' are left as they are by the rewrite |
| Timestamps.ZInDatePositionFails | app/api/v1/endpoints/error_logs.py:43 | a 'Z' among the first ten characters makes fromisoformat refuse the rewritten timestamp |
| Timestamps.WrittenDateKept | app/api/v1/endpoints/error_logs.py:43 | whenever the rewritten timestamp parses, its date text is the original timestamp's first ten characters |
| Timestamps.ParseIsoDateTime | app/api/v1/endpoints/error_logs.py:43 | an accepted timestamp is at least ten characters long, and its date is the date parsed from those ten characters |
| Timestamps.ParseDate | app/api/v1/endpoints/error_logs.py:43 | a parsed date comes from text of the form YYYY-MM-DD and is a real calendar date with a year from 1 to 9999 |
| Timestamps.FormatParsedDate | app/api/v1/endpoints/error_logs.py:43-44 | strftime('%Y-%m-%d') of a parsed date gives back the text it was parsed from |
| Timestamps.ParseFormattedDate | app/api/v1/endpoints/error_logs.py:43-44 | parsing what strftime('%Y-%m-%d') writes gives back the date |
| Timestamps.NumberOfDigits | app/api/v1/endpoints/error_logs.py:44 | reading back a zero-padded field gives the number it was written from |
| Timestamps.DigitsOfNumber | app/api/v1/endpoints/error_logs.py:44 | writing back a digit field at its width gives the same digits, leading zeros included |
| Timestamps.PartitionName | app/api/v1/endpoints/error_logs.py:43-44 | the log file name is sixteen characters: a date, then ".jsonl" |
| Timestamps.FormatDate | app/api/v1/endpoints/error_logs.py:44 | strftime('%Y-%m-%d') of a valid date writes ten characters of the form YYYY-MM-DD |
| Timestamps.PartitionIsWrittenDate | app/api/v1/endpoints/error_logs.py:43-44 | an accepted timestamp is filed under its own first ten characters plus ".jsonl" |
| FileOrder.BelowIrreflexive | app/api/v1/endpoints/error_logs.py:85 | no name sorts before itself |
| FileOrder.Below | app/api/v1/endpoints/error_logs.py:85 | a proper prefix of a name sorts before that name |
| FileOrder.BelowAsymmetric | app/api/v1/endpoints/error_logs.py:85 | no two names sort before each other |
| FileOrder.BelowTransitive | app/api/v1/endpoints/error_logs.py:85 | the string order used by sorted() is transitive |
| FileOrder.BelowTotal | app/api/v1/endpoints/error_logs.py:85 | any two different names are ordered one way or the other |
| FileOrder.BelowAtFirstDifference | app/api/v1/endpoints/error_logs.py:85 | names that agree up to a position are ordered by their first differing character |
| FileOrder.SortDescending | app/api/v1/endpoints/error_logs.py:85 | sorting keeps exactly the same names (a permutation) |
| FileOrder.InsertDescending | app/api/v1/endpoints/error_logs.py:85 | inserting a new name into a descending sequence keeps it descending |
| FileOrder.SortDescendingSorted | app/api/v1/endpoints/error_logs.py:85 | sorted(names, reverse=True) of distinct names is strictly descending |
| FileOrder.HeadIsLargest | app/api/v1/endpoints/error_logs.py:85 | the first name of a descending sequence is the largest, and it occurs only once |
| FileOrder.DescendingUnique | app/api/v1/endpoints/error_logs.py:85 | only one descending sequence holds a given set of names, so the visiting order is determined by the names |
| FileOrder.NewestFirst | app/api/v1/endpoints/error_logs.py:85 | the file names, each once, in descending order |
| ErrorLogStore.LogFileOrder | app/api/v1/endpoints/error_logs.py:85 | the listing holds exactly the "*.jsonl" names of the directory, in descending order |
| ErrorLogStore.LogStore.ListLogFiles | app/api/v1/endpoints/error_logs.py:85 | the loop over the directory returns the listing LogFileOrder describes |
| ErrorLogStore.SortedListing | app/api/v1/endpoints/error_logs.py:85 | sorting any listing of the "*.jsonl" names gives the one descending order |
| ErrorLogStore.AppendResponse | app/api/v1/endpoints/error_logs.py:38-73 | the append succeeds exactly when the timestamp yields a date; on success the file is "<first ten characters>.jsonl", the path is the directory joined with it, and the message names it; otherwise the error is a 500 whose detail starts "Failed to write error log: " |
| ErrorLogStore.InvalidTimestamp | app/api/v1/endpoints/error_logs.py:43-73 | the detail for a timestamp without a 'Z' quotes that timestamp as it was sent |
| ErrorLogStore.Appended | app/api/v1/endpoints/error_logs.py:45-61 | the append adds the report's record as the last line of the file its date names, creating that file if needed, and leaves every other file unchanged |
| ErrorLogStore.LogStore.LogMediamtxError | app/api/v1/endpoints/error_logs.py:30-73 | the directory exists afterwards even when the timestamp is refused; the response is AppendResponse; the files change as Appended says on success and not at all on failure |
| ErrorLogStore.LogStore.GetLatestLogs | app/api/v1/endpoints/error_logs.py:75-108 | limit defaults to 50; with no directory the answer is no logs, no count and "No log directory found"; otherwise it is the outcome of decoding the lines the loops consume |
| ErrorLogStore.LogStore.ReadNewestFirst | app/api/v1/endpoints/error_logs.py:87-102 | the loop over the files consumes exactly the Window of the listing; it answers 500 with the parser's message, or the values, the count and the message |
| ErrorLogStore.ReadFile | app/api/v1/endpoints/error_logs.py:89-94 | the loop over one file's lines ends in FileDone: either decoding the window fails with the message it reports, or the values read so far decode the lines read, which are the whole window at the limit and otherwise the non-blank lines of this file and the files before it |
| ErrorLogStore.FileStart | app/api/v1/endpoints/error_logs.py:88-90 | opening the next file, the values read so far are those of the files before it |
| ErrorLogStore.LineStep | app/api/v1/endpoints/error_logs.py:90-94 | a blank line changes nothing; a malformed line fails the whole read with its message; a JSON line is appended, and at the limit the lines read are the whole window |
| ErrorLogStore.FileRead | app/api/v1/endpoints/error_logs.py:88-96 | a file read to its end below the limit adds all its non-blank lines to the lines read |
| ErrorLogStore.MalformedStep | app/api/v1/endpoints/error_logs.py:92 | a line json.loads refuses, once reached, makes decoding the whole window fail with its message |
| ErrorLogStore.RecordStep | app/api/v1/endpoints/error_logs.py:92-94 | a JSON line, once reached, extends the lines read and their values by itself; at the limit the lines read are the whole window |
| ErrorLogStore.Reached | app/api/v1/endpoints/error_logs.py:88-96 | the lines consumed up to any non-blank line begin the window, and are all of it once the limit is met |
| ErrorLogStore.Take | app/api/v1/endpoints/error_logs.py:93-96 | stopping after n lines keeps the first min(n, length) lines |
| ErrorLogStore.NonBlank | app/api/v1/endpoints/error_logs.py:90-91 | the lines line.strip() keeps contain no blank line, and there are no more of them than lines in the file |
| ErrorLogStore.Stream | app/api/v1/endpoints/error_logs.py:88-91 | no blank line of any file reaches json.loads |
| ErrorLogStore.Window | app/api/v1/endpoints/error_logs.py:87-96 | the loops parse at most limit lines when limit >= 1, and at most one line when limit <= 0 |
| ErrorLogStore.Decode | app/api/v1/endpoints/error_logs.py:92 | json.loads gives at most one value per line read; a failure carries the message of one of the malformed lines read |
| ErrorLogStore.Retrieved | app/api/v1/endpoints/error_logs.py:98-102 | the count is the number of values read; the logs are a prefix of those values, and all of them when limit covers them |
| ErrorLogStore.Latest | app/api/v1/endpoints/error_logs.py:75-108 | with no directory the answer has no logs and no count; with a directory a successful answer has a count; an error happens only with a directory and is a 500 whose detail starts "Failed to read error logs: " |
| ErrorLogStore.PyPrefix | app/api/v1/endpoints/error_logs.py:99 | logs[:limit] is a prefix of the values; it is all of them when limit covers them and empty when limit <= 0 and there is at most one value |
| ErrorLogStore.Decimal | app/api/v1/endpoints/error_logs.py:100-101 | str(n) is a non-empty string of digits |
| ErrorLogStore.DecimalRoundTrip | app/api/v1/endpoints/error_logs.py:100-101 | the count in the message reads back as the count, without a leading zero |
| ErrorLogStore.NonBlankStep | app/api/v1/endpoints/error_logs.py:90-91 | one more line adds itself to the consumed lines exactly when it is not blank |
| ErrorLogStore.StreamStep | app/api/v1/endpoints/error_logs.py:88-91 | one more file adds its non-blank lines after those of the files before it |
| ErrorLogStore.NonBlankPrefix | app/api/v1/endpoints/error_logs.py:90-91 | the non-blank lines of a file's first j lines are a prefix of the file's non-blank lines |
| ErrorLogStore.StreamPrefix | app/api/v1/endpoints/error_logs.py:88-91 | the lines of the first i files are a prefix of the lines of all files |
| ErrorLogStore.ConsumedIsPrefix | app/api/v1/endpoints/error_logs.py:88-91 | whatever the loops have consumed at any point is a prefix of the whole stream |
| ErrorLogStore.DecodeExtends | app/api/v1/endpoints/error_logs.py:92 | once a line fails to parse, reading further lines does not change the failure |
| ErrorLogStore.DecodeOkIff | app/api/v1/endpoints/error_logs.py:92 | decoding succeeds if and only if no line is malformed |
| ErrorLogStore.DecodeValues | app/api/v1/endpoints/error_logs.py:92 | decoding non-blank lines gives one value per line, each the line's own JSON value, in order |
| ErrorLogStore.DecodeFirstFailure | app/api/v1/endpoints/error_logs.py:92 | a failed decode reports the message of the first malformed line, and every line before it parses |
| ErrorLogStore.WindowIsPrefix | app/api/v1/endpoints/error_logs.py:87-96 | the loops consume a prefix of the newest-first stream of non-blank lines |
| ErrorLogStore.LatestReadsInOrder | app/api/v1/endpoints/error_logs.py:85-99 | the returned logs are the first records of the log in visiting order: newest file first, each file top to bottom |
| ErrorLogStore.LatestCount | app/api/v1/endpoints/error_logs.py:93-101 | with limit >= 1, min(limit, number of records) values are returned, and both the count and the message give that number |
| ErrorLogStore.LatestNonPositiveLimit | app/api/v1/endpoints/error_logs.py:93-101 | with limit <= 0 no logs are returned; the count is 1 exactly when the newest file has a non-blank line |
| ErrorLogStore.MalformedAborts | app/api/v1/endpoints/error_logs.py:92-108 | with limit >= 1 the read fails if and only if one of the first limit records is malformed; the failure is a 500 whose detail starts "Failed to read error logs: " |
| ErrorLogStore.EmptyDirectory | app/api/v1/endpoints/error_logs.py:85-102 | an existing but empty directory gives no logs, count 0 and "Retrieved 0 most recent error logs" |
| ErrorLogStore.StreamContains | app/api/v1/endpoints/error_logs.py:88-91 | every non-blank line of a listed file is visited |
| ErrorLogStore.AppendedRecordIsListed | app/api/v1/endpoints/error_logs.py:43-91 | after an append, the report's record is among the lines the read-back visits |
| ErrorLogStore.ListedLineVisited | app/api/v1/endpoints/error_logs.py:85-91 | every non-blank line of a "*.jsonl" file is among the lines the read-back visits |
| ErrorLogStore.FullReadReturnsAll | app/api/v1/endpoints/error_logs.py:85-101 | with a limit covering every record and no malformed line, the read returns every record in visiting order |
| ErrorLogStore.AppendedRecordIsRead | app/api/v1/endpoints/error_logs.py:43-101 | a report appended and then read back with a limit covering the log appears in the returned logs |
| ErrorLogStore.TwoDaysOrder | app/api/v1/endpoints/error_logs.py:85 | for two dated files, the later date is listed first |
| ErrorLogStore.NewestFileOldestLineFirst | app/api/v1/endpoints/error_logs.py:85-101 | with limit 1, the answer is the oldest line of the newest file, not the newest line overall |
| ErrorLogStore.TwoDaysReadInFull | app/api/v1/endpoints/error_logs.py:85-101 | read in full, two days of records come out as the newest day in file order, then the day before |
| AuthGate.LeadingSpaces | app/middlewares/auth.py:35 | the whitespace run at the start of a string, up to its first non-space character |
| AuthGate.TrailingSpaces | app/middlewares/auth.py:35 | the whitespace run at the end of a string, back to its last non-space character |
| AuthGate.Strip | app/middlewares/auth.py:35 | str.strip() leaves no whitespace at either end, and is empty exactly when the string is all whitespace |
| AuthGate.StripIsInnerSlice | app/middlewares/auth.py:35 | stripping keeps exactly the text between the outer whitespace runs |
| AuthGate.StripOfStripped | app/middlewares/auth.py:35 | text without surrounding whitespace is its own strip |
| AuthGate.StripPadded | app/middlewares/auth.py:35 | padding around a token is all that strip removes |
| AuthGate.AsciiLower | app/middlewares/auth.py:36 | upper-case letters map to lower case and everything else is unchanged |
| AuthGate.Lower | app/middlewares/auth.py:36 | lower() folds every character and keeps the length |
| AuthGate.FirstIndex | app/middlewares/auth.py:32 | the first occurrence of the separator, or none when it is absent |
| AuthGate.FirstIndexUnique | app/middlewares/auth.py:32 | the occurrence with no earlier occurrence is the one split(" ", 1) splits at |
| AuthGate.SplitOnce | app/middlewares/auth.py:32-34 | split(" ", 1) gives one part when there is no space; otherwise a space-free head and the rest, which rejoin with the space into the input |
| AuthGate.BearerToken | app/middlewares/auth.py:28-38 | a missing or empty header, or one without a space, gives no token; a token, when there is one, is non-empty with no whitespace at either end |
| AuthGate.SplitAfterScheme | app/middlewares/auth.py:32-35 | a header that starts with "bearer" in any case followed by a space splits right after the scheme |
| AuthGate.BearerTokenSplitsAtSix | app/middlewares/auth.py:32-38 | a header that yields a token starts with "bearer" in some case and a space, and the token is the stripped rest |
| AuthGate.BearerTokenShape | app/middlewares/auth.py:28-38 | a header yields exactly the token t when it is "bearer" in any case, a space, then t with whitespace around it |
| AuthGate.BearerTokenRoundTrip | app/middlewares/auth.py:28-38 | "Bearer " followed by a token with no surrounding whitespace yields that token |
| AuthGate.InnerSpacesKept | app/middlewares/auth.py:32-35 | only the first space splits, so a token keeps its inner spaces |
| AuthGate.SchemeCaseAndPadding | app/middlewares/auth.py:35-36 | the scheme is matched in any case, and the token is stripped |
| AuthGate.MalformedHeaders | app/middlewares/auth.py:32-37 | a blank token, a tab after the scheme and another scheme all give no token |
| AuthGate.Outcome.Detail | app/middlewares/auth.py:61-93 | every rejection carries a non-empty detail: "Missing Authorization Bearer token" or "Invalid token" |
| AuthGate.Dispatch | app/middlewares/auth.py:50-93 | paths outside "/api/v1" and allowlisted paths pass; on a protected path, no token gives MissingToken, and a token is valid exactly when it equals a non-empty configured token, invalid otherwise |
| AuthGate.Outcome.Response | app/middlewares/auth.py:55-93 | the gate sends no response of its own exactly when the request is forwarded; otherwise it sends a 401 with a non-empty detail |
| AuthGate.RejectionResponses | app/middlewares/auth.py:61-93 | on a protected path, no token gives a 401 "Missing Authorization Bearer token", and a token that does not match gives a 401 "Invalid token" |
| AuthGate.ForwardsIff | app/middlewares/auth.py:50-93 | a request is forwarded if and only if its path is unprotected or its bearer token equals a non-empty configured token |
| AuthGate.UnsetTokenLocksProtectedPaths | app/middlewares/auth.py:61-93 | with no configured token, or an empty one, no protected path is ever forwarded |
| AuthGate.PaddedTokenLocksProtectedPaths | app/middlewares/auth.py:61-93 | a configured token with whitespace at either end can never be presented, so every protected path is rejected |
| AuthGate.ConfiguredTokenPasses | app/middlewares/auth.py:54-88 | "Bearer <token>" for a usable configured token passes on every path |
| AuthGate.UnprotectedIgnoresHeaders | app/middlewares/auth.py:53-59 | outside the prefix and on the allowlist the request passes, whatever its header |
| AuthGate.PrefixQuirks | app/middlewares/auth.py:17-59 | the prefix test is textual: "/api/v1x" and "/api/v1/ping/" are protected, "/api/v1/ping" is allowlisted, and "/docs" passes as outside the prefix |
| Catalog.FirstWhere | app/mock_data.py:78-80 | next(...) finds the first element satisfying the test, or none when no element does |
| Catalog.Filter | app/mock_data.py:82-84 | a list comprehension never grows the list |
| Catalog.FilterMembers | app/mock_data.py:82-84 | the comprehension keeps exactly the elements that pass |
| Catalog.FilterConcat | app/mock_data.py:82-84 | the comprehension distributes over concatenation, so list order is kept |
| Catalog.FilterIff | app/mock_data.py:82-84 | an element is in the comprehension's result exactly when it is in the list and passes the test |
| Catalog.FilterAll | app/mock_data.py:82-84 | when every element passes, the whole list is kept |
| Catalog.FilterNone | app/mock_data.py:82-84 | when no element passes, the result is empty |
| Catalog.FilterSingle | app/mock_data.py:90-92 | when exactly one element passes, the result is that element alone |
| Catalog.AllStations | app/mock_data.py:74-76 | get_all_stations returns the three stations, station-001 to station-003, in order |
| Catalog.StationById | app/mock_data.py:78-80 | the result is None exactly when no station has the id, and otherwise a listed station with that id |
| Catalog.GatesByStation | app/mock_data.py:82-84 | the result holds exactly the listed gates of that station |
| Catalog.GateById | app/mock_data.py:86-88 | the result is None exactly when no gate has the id, and otherwise a listed gate with that id |
| Catalog.StreamsByGate | app/mock_data.py:90-92 | the result holds exactly the listed streams of that gate |
| Catalog.StreamById | app/mock_data.py:94-96 | the result is None exactly when no stream has the id, and otherwise a listed stream with that id |
| Catalog.StationIdsUnique | app/mock_data.py:27-31 | station ids are pairwise different |
| Catalog.GateIdsUnique | app/mock_data.py:34-51 | gate ids are pairwise different |
| Catalog.StreamIdsUnique | app/mock_data.py:54-71 | stream ids are pairwise different |
| Catalog.StationByIdExact | app/mock_data.py:78-80 | a station is found by its id if and only if it is listed |
| Catalog.GateByIdExact | app/mock_data.py:86-88 | a gate is found by its id if and only if it is listed |
| Catalog.StreamByIdExact | app/mock_data.py:94-96 | a stream is found by its id if and only if it is listed |
| Catalog.StreamsFollowGates | app/mock_data.py:34-71 | there is one stream per gate, listed in the order of the gates |
| Catalog.GatesReferenceStations | app/mock_data.py:34-51 | every gate names a listed station |
| Catalog.StreamsReferenceGates | app/mock_data.py:54-71 | every stream names a listed gate |
| Catalog.OneStreamPerGate | app/mock_data.py:90-92 | the streams of each gate are exactly the one stream listed at the same position |
| Catalog.SeoulGateCount | app/mock_data.py:35-39 | station-001 has its four gates, in order |
| Catalog.GangnamGateCount | app/mock_data.py:40-46 | station-002 has its six gates, in order |
| Catalog.JamsilGateCount | app/mock_data.py:47-50 | station-003 has its three gates, in order |
| Catalog.GatesOfOneStation | app/mock_data.py:82-84 | when a station's gates form one run of the gate list, that run is exactly what the lookup returns |
| Catalog.UnknownStationHasNoGates | app/mock_data.py:82-84 | an unknown station has no gates |
| Catalog.UnknownGateHasNoStreams | app/mock_data.py:90-92 | an unknown gate has no streams |

## Left out

- File I/O is modelled as a map from names to lines. Failures to open or write a file, which the code turns into a 500, are not modelled. Neither are concurrent appends or the resolution of `LOG_DIR`.
- The read-back sees each line already classified as a JSON value, a blank line, or a line `json.loads` refuses with its message. The byte format of `json.dumps(..., ensure_ascii=False)`, UTF-8 decoding and the JSON parser are not modelled.
- The directory listing keeps the names ending in ".jsonl". The glob's handling of hidden files and of directories named "*.jsonl" is not modelled.
- Timestamps.ParseIsoDateTime: accepts "YYYY-MM-DD", optionally followed by any one separator character and a time. The time is "HH", "HH:MM" or "HH:MM:SS", optionally with a 3- or 6-digit fraction and a "+HH:MM" or "-HH:MM" offset. Other forms that `datetime.fromisoformat` accepts are refused, such as week dates, the compact "YYYYMMDD", a fraction of another width and a "Z" suffix. The code never passes a "Z" on, since it rewrites every "Z" to "+00:00" first.
- ErrorLogStore.InvalidTimestamp: the detail text approximates the ValueError message. The messages for out-of-range fields and Python's repr escaping are not modelled.
- Timestamps.FormatDate: writes years with four digits. strftime's output for years below 1000 varies by platform.
- AuthGate.Lower: folds ASCII letters only. Python's `lower()` also folds other Unicode letters, which could only matter for a scheme spelt with non-ASCII letters.
- The JWT verification mode of `dispatch` is commented out in the source, so it is not modelled. The `async` call into the next handler becomes the `Forwards()` outcome.
- The error log and the auth gate are modelled as components of their own, and the development token is a parameter of `AuthGate.Dispatch`. As the repository stands, neither is wired up, and the token is not configured. `app/api/v1/routes.py` (lines 7-10) mounts only the ping and streams routers, so the error log endpoints are not served. `app/main.py` (lines 11-17) adds only `CORSMiddleware`, so `ApiV1AuthMiddleware` never runs. `app/core/config.py` (lines 3-16) declares no `DEV_AUTH_TOKEN`, so `settings.DEV_AUTH_TOKEN` at `app/middlewares/auth.py` line 68 would raise `AttributeError`. A protected request carrying a bearer token would then get a 500, not the 401 or the forwarding that `AuthGate.Dispatch` states.
- ErrorRecords.Json: a number with a fraction or an exponent is kept as an exact real. The rounding of a Python float has no counterpart, and neither do the non-standard `NaN`, `Infinity` and `-Infinity` that `json.dumps` writes and `json.loads` reads.
- The stream endpoints, the token endpoint, the ping route and the test scripts are not part of this model.
