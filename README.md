# Stream bookkeeping of the srtStreamer control plane

The control plane in `main.py` accepts start requests and picks a media file. It launches
one transmission process per destination, reads each process's diagnostic output to detect
errors and measure throughput, and tears the processes down on a timer, on an error or on
request. All of its state lives in four module-level dictionaries keyed by stream id:

- `stream_status`: the status record;
- `active_streams`: the list of process handles;
- `stream_bandwidth`: destination → latest Mbps reading;
- `stream_start_time`.

This project models those tables and every operation of the stream lifecycle that reads or
writes them (start, acquisition, launch, stop, the two monitors, stop-random-source, status
and listing). It proves what each operation does to them.

Layout:

- **`common.dfy`**: `Option` and `Result`.
- **`text.dfy`**: the string operations the code relies on: Python's `str.strip`, substring
  `in`, `startswith`, `"\n".join` and `os.path.basename`. It also defines a one-character
  `split`, which the code never calls; it serves only to state that the joined error
  message gives back its lines (`ErrorTail.ErrorMessageLines`).
- **`records.dfy`**: the status record.
  - Its `"status"` values form an enum whose labels are the literal texts.
  - The destination list is the object `Destinations`. The record, the launch step and a
    partial stop share one Python list and the partial stop removes from it in place.
  - `AfterStop` is the stop path's guard, which compares the text with exactly `"Error"`.
- **`processes.dfy`**: process handles (`Pid`) and their states `Running | Exited | Killed`.
  It also models the stop discipline: `terminate()`, a wait of 5 seconds, then `kill()`
  on timeout. Whether a process exits within the grace period is an input set `graceful`.
- **`error_tail.dfy`**: the error reader.
  - The rolling window of the last 5 stripped lines.
  - The case-sensitive keyword scan over it.
  - The `"\n"`-joined message.
- **`bitrate.dfy`**: the bandwidth monitor's parser.
  - `re.search` of `bitrate=\s*(\d+\.?\d*)`, including greedy runs and the leftmost match.
  - `float()` of the captured text, as an exact decimal.
  - `round(kbps / 1000, 2)`, as a whole number of hundredths of Mbps.
- **`bandwidth.dfy`**: the per-stream table and the effect of a sequence of diagnostic lines
  on it.
- **`listing.dfy`**: the remaining-duration computation and the `/active-streams` listing as
  a specification function.
- **`orchestrator.dfy`**: the class `Streams`.
  - Its fields are the four tables plus the table of process states.
  - Its methods are the endpoints and background steps: start, acquisition, launch, stop,
    the error and bandwidth monitors, stop-random-source, status and listing.
  - `Valid()` relates the tables:
    - every id is listed once;
    - the process-set, start-time and bandwidth keys are status keys;
    - every handle in a process set that has not been popped has a state;
    - no handle or stream id is handed out twice.
- **`scenarios.dfy`**: call sequences:
  - stopping twice;
  - an error followed by a stop;
  - a launch followed by a full stop through the partial-stop endpoint;
  - a start with a requested temporary path followed by such a full stop.

## Behaviour of the code worth knowing

The model follows `main.py` as written, including these points:

- **Admission control.** A start is refused with 429 when `len(active_streams) >= MAX_STREAMS`.
  That counts the streams whose process set was launched and not yet popped. It does not
  count all records that are not stopped; a stream that is still downloading or scheduled
  does not count (`main.py:291`).
- **A failed download is not an error sink.** A failed storage download records the status
  text `"Error: Failed to download from S3"` (`main.py:324`). The stop guard compares with
  exactly `"Error"` (`main.py:227`), so a later stop replaces that record with
  "Stream stopped". `Records.DownloadFailureNotKept` states this.
- **The error write is a blind overwrite.** The error reader writes its record whatever the
  current status is (`main.py:202`). It does not check the current state first.
- **The listing reports 0 for every other record.** It reports
  `max(0, remaining_duration − elapsed)` only for a "Streaming" record that has a start
  time, and 0 for every other record, whatever remaining duration that record stores
  (`main.py:504-511`).
- **A partial stop touches at most one process, in list order.** Stop-random-source removes
  the chosen destination from the list. It terminates the first process in the process set
  that is still running, not the one sending to that destination (`main.py:471-476`). It
  has no kill fallback: a timeout in that wait escapes as a server error.
- **The temporary file is not removed when the temporary directory contains a '/'.** The
  full stop in stop-random-source hands the record's `"file"` to the temp-file cleanup
  (`main.py:483`).
  - After a successful acquisition or a launch that field holds a base name (`main.py:139`,
    `main.py:328`).
  - A base name has no '/', so it cannot start with a directory that contains one
    (`Orchestrator.BasenameNeverRemoved`).
  - `TEMP_DIR` comes from the environment and defaults to `/app/temp` (`main.py:66`).
  - `Scenarios.LaunchThenStopSource` proves the chain for a launched stream: the full stop
    hands no file for removal.
- **A requested path under the temporary directory is removed.** Until a successful
  acquisition or a launch, the record's `"file"` is the name the client sent (`main.py:315`).
  A failed download changes only the status (`main.py:322-325`). A full stop through
  stop-random-source in either state hands that name to `os.remove` when it starts with
  `TEMP_DIR` (`main.py:234`, `main.py:483`). Nothing else is checked, so a name such as
  `/app/temp/../x` passes. `Scenarios.RequestedPathRemoved` proves this.
- **Redundancy is one process per destination.** A redundant stream launches one process
  for each destination (`main.py:142-150`). There is no relay process and no port
  allocation.

## Model

| member | source | states |
|---|---|---|
| Text.StripSpec | main.py:187 | the stripped line is the infix of the line that has only whitespace around it and neither starts nor ends with whitespace |
| Text.ContainsIff | main.py:196 | the keyword test `k in line` holds exactly when `k` occurs in the line at some offset |
| Text.SplitJoin | main.py:200 | joining lines without line breaks with "\n" and splitting the result again gives back the lines |
| Text.Basename | main.py:139 | the base name stored as the record's file contains no '/' |
| Text.BasenameSuffix | main.py:328 | the base name is the longest suffix of the path without a '/', and a '/' precedes it when it is not the whole path |
| Records.AfterStop | main.py:226-231 | a stopped record is either the untouched "Error" record or "Stream stopped" with remaining duration 0 |
| Records.LabelInjective | main.py:227 | two statuses have the same text exactly when they are equal, so the text comparison in the guard is a status comparison |
| Records.AfterStopIdempotent | main.py:226-231 | applying the stop guard twice leaves the record as the first application left it |
| Records.DownloadFailureNotKept | main.py:324 | a failed-download record is replaced by the stopped record, because its text is not exactly "Error" |
| Processes.Stopped | main.py:217-223 | after the terminate-wait-kill step a process is not running; a process that was not running keeps its state (an exited one stays exited); a running one ends exited exactly when it exits within the grace period, and killed otherwise |
| Processes.TerminateAll | main.py:215-223 | terminating a process list touches exactly the listed handles, each as `Stopped`, and keeps every other handle's state |
| Processes.TerminateAllIdempotent | main.py:213-223 | terminating the same process list a second time changes nothing |
| ErrorTail.Tail | main.py:184-192 | the window never holds more than 5 lines |
| ErrorTail.TailStep | main.py:190-192 | appending a stripped line and dropping the oldest one on overflow turns the window of the lines read so far into the window of those lines plus the new line |
| ErrorTail.TailWindow | main.py:184-192 | the reader's loop leaves exactly the last min(n, 5) lines, stripped, in arrival order |
| ErrorTail.ErrorLines | main.py:195-197 | every reported line contains a keyword and comes from the window, and there are no more of them than window lines |
| ErrorTail.ErrorLinesComplete | main.py:195-197 | every window line that contains a keyword is reported |
| ErrorTail.ErrorLinesAppend | main.py:195-197 | the scan of a window is the scan of its front followed by the scan of its back, so reported lines keep window order |
| ErrorTail.ErrorMessageIff | main.py:195-202 | an error record is written exactly when some window line contains a keyword |
| ErrorTail.ErrorMessageLines | main.py:199-200 | the recorded message split at "\n" is exactly the list of reported lines |
| Bitrate.DigitRun | main.py:246 | `\d*` takes the longest run of digits: all taken characters are digits and the next one is not |
| Bitrate.SpaceRun | main.py:246 | `\s*` takes the longest run of whitespace: all taken characters are whitespace and the next one is not |
| Bitrate.SearchFromNone | main.py:261 | the search finds nothing exactly when the pattern matches at no offset |
| Bitrate.SearchFromFound | main.py:261 | a successful search returns the match at some offset before which nothing matches |
| Bitrate.SearchFromLeftmost | main.py:261 | the search returns the leftmost match |
| Bitrate.MatchField | main.py:246 | at a throughput field the pattern matches and its group captures the field's number text, with or without a fractional part |
| Bitrate.SearchField | main.py:261 | a throughput field with no match before it is what the search returns |
| Bitrate.MatchIsField | main.py:246 | every match of the pattern is a throughput field, and the group captures that field's number text |
| Bitrate.NumberIsField | main.py:246 | whatever the group `(\d+\.?\d*)` captures is a digit block, optionally followed by a point and another digit block, that the next character does not extend |
| Bitrate.DecimalOfField | main.py:263 | `float()` of the captured text is the number the field denotes |
| Bitrate.RoundDiv | main.py:264 | the rounded quotient lies within half a unit of the exact quotient |
| Bitrate.ReadingOfField | main.py:256-264 | a line whose first match is a throughput field records that field's kbps value divided by 1000 and rounded to hundredths |
| Bitrate.ReadingIsFirstField | main.py:256-264 | every recorded reading is the first throughput field of the stripped line, its kbps value divided by 1000 and rounded to hundredths |
| Bitrate.ReadingNone | main.py:261-262 | a line records nothing exactly when the pattern matches nowhere in the stripped line |
| Bitrate.Mbps2048 | main.py:264 | 2048.0 kbps rounds to 2.05 Mbps |
| Bitrate.Reading2048 | main.py:256-264 | the line "bitrate= 2048.0kbits/s" records 2.05 Mbps |
| Bandwidth.SetAll | main.py:266-267 | after a reading every destination holds it, no other key changes, and the keys are the old keys plus the destinations |
| Bandwidth.SetAllOverwrites | main.py:266-267 | a later reading replaces an earlier one entirely |
| Bandwidth.ObserveAllIsLastReading | main.py:251-267 | after a sequence of lines the table holds the last reading under every destination, or is unchanged when no line had one |
| Listing.Remaining | main.py:504-511 | the remaining duration is never negative, never above the stored duration once time has started, and 0 unless the record is streaming with a start time; the lookup fails exactly when a streaming record lacks the stored duration |
| Listing.RemainingShrinks | main.py:509-511 | the remaining duration does not grow as time passes |
| Listing.ListSpecFails | main.py:499-511 | the listing fails exactly when some listed record is streaming with a start time and no stored duration |
| Listing.ListSpecShows | main.py:499-522 | a listing shows exactly the records that are not stopped, in table order, each with its own record and the remaining duration `Remaining` computes for it, which is at least 0 |
| Orchestrator.ResolveFile | main.py:299-306 | a non-empty requested file is used as is; otherwise one of the available objects is used; no file exactly when none is requested and none is available |
| Orchestrator.BasenameNeverRemoved | main.py:234 | a base name never passes the temp-file guard when the temporary directory contains a '/' |
| Orchestrator.RemoveFirst | main.py:467 | `list.remove` drops the first occurrence of the chosen destination and keeps the others in order |
| Orchestrator.FirstRunning | main.py:471-476 | the index found is the first one whose process is still running, and none is found exactly when no process is running |
| Orchestrator.Streams.constructor | main.py:54-61 | all tables start empty |
| Orchestrator.Streams.Register | main.py:295-316 | a new record goes under a fresh stream id at the end of the table order, and nothing else changes |
| Orchestrator.Streams.Start | main.py:287-349 | 429 exactly when the active process sets reach the maximum; 400 exactly when no file resolves; success exactly otherwise; an error changes nothing; on success a fresh id holds the initial record ("Scheduled" with the request time when the offset is positive, otherwise "Downloading"), a fresh destination list with the requested items, and the resolved file, and the reply echoes them |
| Orchestrator.Streams.Acquire | main.py:321-328 | a failed download sets the failed-download status and nothing else; a successful one sets "Downloaded" and the downloaded file's base name |
| Orchestrator.Streams.Spawn | main.py:141-150 | one fresh, distinct, running handle per destination; no earlier handle changes |
| Orchestrator.Streams.Launch | main.py:133-162 | the record gets the input's base name and becomes "Streaming" when there is a destination; the process set is the new handles; the start time is recorded |
| Orchestrator.Streams.TerminateEach | main.py:215-223 | the loop terminates the process list as `TerminateAll` does |
| Orchestrator.Streams.Stop | main.py:211-239 | the process set is popped and exactly its handles are terminated; an "Error" record is kept and any other becomes "Stream stopped" with remaining 0; an unknown id adds no record; a path is handed for removal exactly when it is non-empty and under the temporary directory |
| Orchestrator.Streams.StopStream | main.py:373-382 | 404 and no change exactly when the id is unknown; otherwise the full stop |
| Orchestrator.Streams.StatusOf | main.py:486-491 | 404 exactly when the id is unknown, otherwise the stored record |
| Orchestrator.Streams.MonitorErrors | main.py:182-203 | without a keyword line in the last 5 lines nothing changes; otherwise the record becomes the "Error" record with the joined lines and the stream's processes are stopped |
| Orchestrator.Streams.ObserveLine | main.py:252-267 | one diagnostic line updates the stream's table as `Observe` says and leaves the other streams' tables alone |
| Orchestrator.Streams.WriteAll | main.py:266-267 | the loop writes the reading under every destination, as `SetAll` does |
| Orchestrator.Streams.ObserveLines | main.py:251-267 | the read loop leaves the stream's table as `ObserveAll` of the lines |
| Orchestrator.Streams.MonitorBandwidth | main.py:242-267 | the stream's table is created empty when missing, then updated by all lines in order; other streams' tables are untouched |
| Orchestrator.Streams.TerminateFirstRunning | main.py:471-476 | only the first running process of the set is terminated, with no kill fallback; a timeout is reported instead |
| Orchestrator.Streams.StopRandomSource | main.py:447-484 | 404 for an unknown id and 400 without a destination, both changing nothing; a redundant stream with more than one destination loses the chosen destination from its shared list and at most one running process; any other stream is stopped in full, its destination list keeps its items, and the record's file is handed for removal exactly when it passes the temp-file guard |
| Orchestrator.Streams.ListActive | main.py:493-524 | the listing loop computes exactly `ListSpec` over the table order |
| Scenarios.StopTwice | main.py:211-231 | a second stop pops no process set and leaves every table as the first stop left it |
| Scenarios.LaunchThenStopSource | main.py:133-162 | after a launch, a full stop through the partial-stop endpoint hands no file for removal when the temporary directory contains a '/' |
| Scenarios.RequestedPathRemoved | main.py:309-325 | a start with a requested name that starts with the temporary directory, followed by no acquisition or a failed one, then a full stop through the partial-stop endpoint, hands that name for removal |
| Scenarios.ErrorThenStop | main.py:199-203 | after the error reader records an error, a stop request keeps the "Error" record and its message and pops the process set |

## Left out

- HTTP transport, authentication (`verify_api_key`, `/login`), CORS and static files: outside the stream bookkeeping.
- The storage collaborator (bucket listing, download) and `requests`: inputs. `Start` takes the listing as `available`, and `Acquire` takes the download outcome.
- `download_file_in_background`: the code never calls it. The playlists, file expiry, `/upload`, `/files`, `/list-media` and `get_bandwidth` (a plain table read) are outside the stream bookkeeping.
- Process spawning, pipes and OS signals: a process is a handle in a state table.
  - Processes never exit on their own, and `poll()` reads the state table.
  - Whether a process exits within the 5-second grace period is the input `graceful`.
- Threads and timers: each background step (delayed start, launch, duration timer, monitors) is a method that the caller invokes in some order. Races between them are not modelled.
- Both monitors read the same stderr pipe, so in the code each line reaches only one of them. The model gives each monitor its whole line sequence.
- The error monitor is started with two arguments but takes four (`main.py:159`, `main.py:168`), so in the code its thread fails at once. The model runs the reader it would have started.
- `ignore_keywords` (`main.py:174-177`): the code defines it but never uses it.
- `os.path.exists` and `os.remove`: `Stop` reports whether the path passes the guard and would be handed to the file system.
- Stream ids come from a counter, not `uuid4`. Times are integers (seconds) supplied by the caller, and the scheduled start time is that integer, not an ISO string.
- Bitrate.RoundDiv: Python's `round` on a binary float is stated only to the nearest hundredth. The model rounds ties up; the float representation decides them in the code.
- Bitrate.DecimalOf: the value is an exact decimal, not a binary float.
- Bitrate.IsDigit: `\d` matches only ASCII digits here, while Python's `\d` matches all Unicode decimal digits.
- UTF-8 decoding with `errors="ignore"`: lines are already strings.
- The destination strings are used as given. The code strips each one only for the process command line.
