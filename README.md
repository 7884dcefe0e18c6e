# Sensor-stream buffers, in Dafny

Three Python scripts read a stream of sensor readings and plot the most recent
ones. This project models the part of those scripts that is logic, not I/O or
drawing, and proves what that logic guarantees.

- **bed_dot.py.**
  - `parse_data` turns a `key=value;key=value` payload into a dictionary. It
    keeps only the first timestamp-like key, stored as `timestamp`, and stores
    every other value as a number when `float` accepts it and as text otherwise
    (module `Payload`, over the string helpers in `Text`).
  - `MQTTDataPipeline` forwards every payload containing `heartrate=` to a
    second broker, parses it and plots it. The plotted state is one shared
    time axis plus one list per numeric field, cut back to the last 20 entries
    (module `Pipeline`, class `DataPipeline`).
- **mqtt_subscriber.py.** `on_message` accepts decoded `heart_rate` messages
  into two lists kept in lock-step and cut to their last 20 entries (module
  `Subscriber`, class `HeartRateStream`).
- **http_querier.py.**
  - `fetch_data` appends the well-formed entries of a polled batch to two
    lists and abandons the rest of the batch at the first entry that
    raises.
  - `update_plot` shows the last 10 entries (module `Querier`, class
    `HeartRateLog`).

Shared pieces:
- `Wrappers.Option` stands for Python's `None` and for operations that raise.
- `JsonValues` holds decoded JSON values, clock labels, and `float(...)` applied to a decoded value.
- `Windows.LastN` is Python's `xs[-n:]`.

Library behaviour enters as parameters, because its code is not part of this model:
- Python's `float(str)` is a parameter `parse: string -> Option<real>`, where None means ValueError.
- The inner `json.loads` of http_querier.py is a parameter `decode`.
- `datetime.fromtimestamp(t).strftime(...)` is the label `Clock(t)`.
- Published payloads are recorded in a `published` field rather than sent.

Two facts about the code that the model keeps:
- A segment without `=` is skipped (bed_dot.py:24).
- The timestamp is always divided by 1e9, with no choice of unit (bed_dot.py:106).

## Model

| member | source | states |
|---|---|---|
| Text.TrimStart | bed_dot.py:22 | `strip()` from the left: the result is a suffix, everything removed is Python whitespace, and the result does not start with whitespace |
| Text.TrimEnd | bed_dot.py:22 | `strip()` from the right: the result is a prefix, everything removed is whitespace, and it does not end with whitespace |
| Text.StripKeepsCount | bed_dot.py:22-25 | stripping never changes how many `=` or `;` a string holds |
| Text.SplitPieces | bed_dot.py:22-25 | `split(d)` yields one piece more than there are separators, and no piece contains the separator |
| Text.JoinSplit | bed_dot.py:22-25 | joining the pieces of `split(d)` with `d` gives back the original string |
| Text.Split | bed_dot.py:22-25 | at least one piece; described by SplitPieces, JoinSplit and NoSeparator |
| Text.Strip | bed_dot.py:22-25 | no contract; `strip()` as TrimEnd of TrimStart, described by their contracts and StripKeepsCount |
| Text.Contains | bed_dot.py:89 | no contract; the substring test `in`, described by ContainsAt |
| Text.NoSeparator | bed_dot.py:22 | a string without the separator splits into itself alone |
| Text.ContainsAt | bed_dot.py:89 | the substring test `sub in s` holds exactly when `sub` occurs at some index of `s` |
| Text.Lower | bed_dot.py:27 | `lower()` keeps the length and lower-cases character by character |
| JsonValues.NumericValue | mqtt_subscriber.py:27 | a decoded value is usable as a number exactly when it is a number or a boolean; a number is itself, `True` is 1 and `False` is 0 |
| JsonValues.FloatOf | http_querier.py:43-44 | `float(v)` on a decoded value: strings go through the number parser, numbers (as exact reals) and booleans convert, null, lists and dicts raise |
| Windows.LastN | mqtt_subscriber.py:34-35 | `xs[-n:]` has length min(len, n) and is the tail of `xs` |
| Windows.WindowOfWindow | mqtt_subscriber.py:30-35 | appending then cutting to the last n keeps exactly the last n of the whole history |
| Windows.DropFirstIsWindow | bed_dot.py:123-127 | dropping the head of a list one over the limit is taking its last n |
| Payload.IsTimestampKey | bed_dot.py:27 | no contract; `'timestamp' in key.lower()`, read through Text.ContainsAt and Text.Lower; described by TimestampIsStampKey and ParseDataFields |
| Payload.Step | bed_dot.py:23-34 | no contract; one pass of the loop body, described by StepMeaning |
| Payload.Fold | bed_dot.py:23-34 | no contract; the loop over the segments, described by FoldMeaning and SkipsSegmentWithoutEquals |
| Payload.ParseData | bed_dot.py:17-43 | no contract; `parse_data` itself, described by ParseDataFails, ParseDataStamp, ParseDataFields and RejectsDoubleEquals |
| Payload.Convert | bed_dot.py:31-34 | a value is stored as a number exactly when `float` accepts it, otherwise as its raw text |
| Payload.PiecesCount | bed_dot.py:25 | `pair.strip().split('=')` has one piece more than the pair has `=` |
| Payload.Pairs | bed_dot.py:22 | no contract; `payload.strip().split(';')`, described by Text.SplitPieces, Text.JoinSplit and Text.StripKeepsCount |
| Payload.Pieces | bed_dot.py:25 | no contract; `pair.strip().split('=')`, described by PiecesCount and Scan |
| Payload.Scans | bed_dot.py:22-23 | the list the `for pair in pairs` loop walks: one scanned segment per piece, in order |
| Payload.Segments | bed_dot.py:22-23 | no contract; the scanned pieces of a payload, described by Scans and Scan |
| Payload.Scan | bed_dot.py:24-27 | a piece has no `=` exactly when `'=' in pair` is false, and unpacks into `key, value` exactly when it has one `=`. Then the stripped piece is `key=value`, with no `=` in either part |
| Payload.FoldMeaning | bed_dot.py:17-43 | the loop fails exactly when a segment has two or more `=` or the first timestamp value is not a number; otherwise it holds the first timestamp and, for each field key, the value of its last segment |
| Payload.StepMeaning | bed_dot.py:23-34 | one loop pass: when it raises, and how it extends the description of the segments read so far |
| Payload.TimestampIsStampKey | bed_dot.py:27-38 | the key `timestamp` itself is timestamp-like, so no ordinary field is ever stored under it |
| Payload.ParseDataFails | bed_dot.py:21-29 | `parse_data` returns None exactly when some segment has two or more `=` or the first timestamp value is not numeric (bed_dot.py:41-43). A segment without `=` never causes the failure |
| Payload.ParseDataStamp | bed_dot.py:26-38 | `timestamp` is in the result exactly when some segment is timestamp-like, and then holds the number of the FIRST such segment |
| Payload.ParseDataFields | bed_dot.py:26-34 | no other key of the result is timestamp-like; its keys are exactly the field keys, each with its LAST segment's value, converted |
| Payload.SkipsSegmentWithoutEquals | bed_dot.py:22-24 | removing a segment without `=`, wherever it stands, does not change the loop's outcome |
| Payload.RejectsDoubleEquals | bed_dot.py:25 | any payload `k=a=b` without `;` makes `parse_data` return None |
| Pipeline.StampLabel | bed_dot.py:106 | the label's seconds times 1e9 give back the payload timestamp: it is always read as nanoseconds |
| Pipeline.NumericKeys | bed_dot.py:111 | no contract; the keys passing `key != 'timestamp' and isinstance(value, (int, float))`, described by RecordWindows and GrownStep |
| Pipeline.Reading | bed_dot.py:111-116 | no contract; what the loop appends to one key's list, one value or nothing, described by RecordWindows and GrownStep |
| Pipeline.Grown | bed_dot.py:109-116 | no contract; the lists after the loop over `data.items()`, described by GrownStep and DataPipeline.AppendReadings |
| Pipeline.EvictedIn | bed_dot.py:123-127 | no contract; the lists after the eviction loop, described by EvictedIsWindow and DataPipeline.EvictOldest |
| Pipeline.Record | bed_dot.py:104-127 | no contract; `update_plot` on the buffer as a value, described by RecordWindows and DataPipeline.UpdatePlot |
| Pipeline.RecordWindows | bed_dot.py:104-127 | an `update_plot` keeps every list at most 20 and no longer than the time axis. The axis is the last 20 of old plus one new label; each list is the last 20 of old plus its new reading; the keys are the old ones plus the numeric non-`timestamp` keys of `data` |
| Pipeline.GrownStep | bed_dot.py:109-116 | handling one more key appends its value to its list, creating the list if new, exactly when the value is numeric and the key is not `timestamp` |
| Pipeline.EvictedIsWindow | bed_dot.py:123-127 | evicting index 0 of every list over 20 leaves the last 20 of each, keys unchanged |
| Pipeline.DataPipeline.constructor | bed_dot.py:61-62 | the buffer starts empty |
| Pipeline.DataPipeline.UpdatePlot | bed_dot.py:104-127 | succeeds exactly when `data['timestamp']` is a number, and then the new state is the one `RecordWindows` describes. The time axis is the last 20 of all labels ever recorded. On failure nothing changes |
| Pipeline.DataPipeline.AppendReadings | bed_dot.py:109-116 | the loop over `data.items()` leaves every old list plus the numeric readings of `data` |
| Pipeline.DataPipeline.EvictOldest | bed_dot.py:125-127 | the loop over `data_dict` drops the oldest entry of each list longer than 20 and no other |
| Pipeline.DataPipeline.OnMessage | bed_dot.py:83-102 | a payload is published exactly when it contains `heartrate=`, before parsing. It is plotted exactly when it also parses to a non-empty dictionary with a numeric `timestamp`, and then the label history gains its label; otherwise the buffer and the history are unchanged |
| Subscriber.ReadMessage | mqtt_subscriber.py:20-27 | a message is ignored exactly when it is an object whose `type` is not `heart_rate`. It is accepted exactly when it is a `heart_rate` object with `value` and a numeric `timestamp`. Every other case raises |
| Subscriber.HeartRateStream.constructor | mqtt_subscriber.py:14 | both lists start empty |
| Subscriber.HeartRateStream.OnMessage | mqtt_subscriber.py:16-35 | the two lists stay equal in length and at most 20. An accepted message makes each list `(old + [new])[-20:]` and each is the last 20 of everything accepted; anything else changes nothing |
| Querier.HasKeys | http_querier.py:41 | the key check `"timestamp" in entry and "value" in entry` raises exactly for an entry that is not a dict, string or list; for a dict it is key membership |
| Querier.Judge | http_querier.py:40-44 | an entry is appended exactly when it is a dict with both keys whose values `float` accepts, and then with those numbers. It is skipped exactly when the key check is false. It raises, abandoning the batch, exactly when the key check raises or passes without the entry being taken; in particular a dict with both keys raises when either `float` conversion fails (http_querier.py:43-44, 47-48) |
| Querier.Ingest | http_querier.py:40-48 | no contract; described by IngestFrom, IngestWithoutAbort and IngestStopsAtAbort |
| Querier.Batch | http_querier.py:32-39 | no contract; described by HeartRateLog.FetchData: a non-200 status, a body that is not a string or an inner value that is not a list gives no entries |
| Querier.IngestFrom | http_querier.py:40-48 | the batch from entry i on is what entry i contributes followed by the rest, or nothing once an entry raises |
| Querier.TakenAppend | http_querier.py:40-46 | the points taken from two consecutive runs of entries are those of the first, then those of the second: arrival order is kept |
| Querier.TakenFromWellFormed | http_querier.py:41-46 | every appended point comes from some entry of the batch that is a dict with both keys converting to it |
| Querier.IngestWithoutAbort | http_querier.py:40-46 | a batch in which no entry raises appends exactly its well-formed entries |
| Querier.IngestStopsAtAbort | http_querier.py:40-48 | when entry k is the first that raises, exactly the well-formed entries before k are appended and nothing after |
| Querier.TakeStep | http_querier.py:45-46 | appending one taken point keeps the batch loop's account of what remains, and extends both columns by it |
| Querier.ColumnsAppend | http_querier.py:45-46 | appending a point appends its label and its value to the two columns |
| Querier.HeartRateLog.constructor | http_querier.py:12-13 | both lists start empty |
| Querier.HeartRateLog.FetchData | http_querier.py:26-48 | both lists grow only at the end, in lock-step, by the points the batch yields. A non-200 status, a body that is not a string, or an inner value that is not a list (no entries) changes nothing |
| Querier.HeartRateLog.AppendBatch | http_querier.py:40-46 | the loop over one batch appends exactly the points taken before the first entry that raises |
| Querier.HeartRateLog.Window | http_querier.py:50-60 | nothing when either list is empty, else the last min(10, n) labels and values in arrival order |

## Left out

- Network I/O is not modelled: MQTT `connect`, `subscribe`, `publish` and `loop_forever`, and `requests.post` (bed_dot.py:150-164, mqtt_subscriber.py:55-61, http_querier.py:31). Publishing is recorded in the `published` field.
- The utf-8 decoding of payloads and the outer `json.loads` are not modelled: payloads arrive as strings and messages as decoded JSON values. The inner `json.loads` of http_querier.py is the parameter `decode`.
- `float(str)` is the parameter `parse`; its grammar, NaN and infinity are not modelled.
- JsonValues.FloatOf: JSON numbers are exact reals, so there is no rounding to a double and no OverflowError for an integer beyond the double range; in Python such an entry would raise and abandon the rest of the batch (http_querier.py:44, 47-48), while the model takes it.
- `datetime.fromtimestamp(...).strftime(...)` is not modelled. A label is the number of seconds it was made from, and an out-of-range timestamp, which raises in Python, is not modelled.
- Pipeline.StampLabel: `/ 1e9` is exact division on reals, without float rounding.
- All matplotlib drawing, including the y-limit arithmetic of http_querier.py, is not modelled.
- `color_dict` and its random colours (bed_dot.py:63, 71-73, 115) are not modelled; its keys always mirror those of `data_dict`.
- `time.sleep`, the polling `while True` loops and `KeyboardInterrupt` handling are not modelled; they have no effect on the lists.
- Argument parsing (bed_dot.py:9-15) is not modelled.
- http_publisher.py, mqtt_publisher.py and http_post_query.py are not part of this model; they only generate, send and plot values.
- Text.Lower: lower-cases ASCII letters only. Python lower-cases all of Unicode, which can only change whether a non-ASCII key is read as timestamp-like.
- Subscriber.HeartRateStream.OnMessage: an exception escapes `on_message` uncaught. The model returns `Raised` and leaves the lists as they were, which is their state when Python raises, since the lookups precede the appends.
- JSON objects are maps, so a repeated key in a message keeps its last value, as `json.loads` does; key order is not modelled.
