# mqtt2influx core, modelled in Dafny

mqtt2influx subscribes to an MQTT broker and writes every message it can
classify to InfluxDB. This project models its core, all of it in
`mqtt2influx.go`:

- **the mapper** `gatherInfluxData`. It takes a regular-expression match of a
  topic and a payload, and builds a tag map and a field map. Named capture
  groups become tags. Unnamed captures are joined with `.` into the field
  name. When that name is empty, the last `/`-segment of the topic is used.
  A numeric or boolean payload becomes the value of that field. Any other
  payload becomes a tag under the field name, next to the single field
  `occurred = true`.
- **the rule loop** of `syncCallback`. It tries the SYNC rules in order and
  appends one point, from the first rule that matched.
- **the point buffer** `pointCollection`. `syncCallback` appends to it.
  `main`'s ticker loop hands it to `writePoints`, but only when it is
  non-empty. `writePoints` empties it when the batch write succeeds and keeps
  it unchanged for the next tick when the write fails.

Files:

- `wrappers.dfy`: `Option`.
- `mapper.dfy`: module `Mapper`. It holds the specification function
  `Gather`, the imperative `GatherInfluxData` proved equal to it, and
  lemmas that describe the field name and tags without reference to the
  loop.
- `collector.dfy`: module `Collector`. It holds the rule selection
  `FirstMatch` with its lemmas, and the class `Batcher` for the buffer. The
  class carries two ghost histories. `accepted` holds every point appended
  and `delivered` every point written. Its invariant
  `delivered + points == accepted` says no point is lost, duplicated or
  reordered, for sequential use.
- `scenarios.dfy`: cases from the repository's test table, proved on `Gather`.

Inputs the model takes as parameters:

- A regular-expression match is `Option<seq<Group>>`. `None` means no
  match. Otherwise it lists groups 1, 2, … with their names (`""` when
  unnamed) and captured text. In the rule loop, matching is the function
  parameter `matcher(pattern, topic)`.
- Whether a payload parses as a 64-bit float (`isNumeric`, via
  `strconv.ParseFloat`) is the parameter `numeric`.
- `isBoolean` is modelled exactly, as the twelve spellings
  `strconv.ParseBool` accepts.
- The outcome of the InfluxDB batch write is the parameter `sinkOk`.

Behaviour of the code worth noting:

- The comment at `mqtt2influx.go:189` says the last segment is used when no
  unnamed group exists. The check at line 188 tests whether the accumulated
  field name is empty instead. So the fallback also applies when unnamed
  groups exist but all captured `""`.
- The `.` goes before a capture only when the name so far is non-empty. So
  captures `a`, `""` give `a.`, and `""`, `b` give `b`.
- Field keys and tag keys may coincide. In the numeric case a named group can
  carry the same name as the field.

## Model

| member | source | states |
|---|---|---|
| `Mapper.GatherInfluxData` | mqtt2influx.go:162-209 | the loop over the capture groups computes exactly `Gather`. The result is nil exactly when there was no match |
| `Mapper.IsBoolean` | mqtt2influx.go:157-160 | true exactly for the twelve spellings `strconv.ParseBool` accepts (`1 t T TRUE true True 0 f F FALSE false False`) |
| `Mapper.LastSegment` | mqtt2influx.go:188-192 | the result is a suffix of the topic with no `/` in it. It is either the whole topic or preceded by a `/`, i.e. the last element of `strings.Split(topic, "/")` |
| `Mapper.LastSegmentAfterSlash` | mqtt2influx.go:190-191 | for any topic whose text after its last `/` is `seg`, the last segment is `seg` |
| `Mapper.JoinUnnamedEmpty` | mqtt2influx.go:175-188 | the accumulated field name is empty exactly when every unnamed group captured the empty string |
| `Mapper.JoinUnnamedIsDotJoin` | mqtt2influx.go:175-186 | when no unnamed capture is empty, the field name is the unnamed captures in group order joined with `.`, whatever named groups lie between them. It is empty exactly when there is no unnamed group |
| `Mapper.JoinUnnamedAll` | mqtt2influx.go:175-186 | for every match, the accumulated field name is the unnamed captures in group order, with the leading empty ones dropped, joined with `.`. A later empty capture still adds a `.` |
| `Mapper.NamedTagsKeys` | mqtt2influx.go:175-186 | a key is in the collected tags exactly when it is the name of some named group |
| `Mapper.NamedTagsLastWins` | mqtt2influx.go:183 | a named group's capture is the tag under its name, unless a later group has the same name |
| `Mapper.FieldNameFallback` | mqtt2influx.go:188-192 | when no unnamed group captured text, the field name is the last `/`-segment of the topic |
| `Mapper.FieldNameFromGroups` | mqtt2influx.go:175-192 | when some unnamed group captured text, the field name is the non-empty accumulated name |
| `Mapper.MeasurementValue` | mqtt2influx.go:194-199 | a numeric or boolean payload gives exactly one field, the payload under the field name, with no `occurred` flag. The tag keys are exactly the named groups' names, each holding its (last) capture |
| `Mapper.EventMarker` | mqtt2influx.go:200-206 | any other payload gives exactly one field, `occurred = true`. The payload becomes the tag under the field name, replacing a named group of that name. Every other tag key is a named group's name with its capture |
| `Collector.FirstMatchNone` | mqtt2influx.go:131-137 | no point is produced exactly when no rule's pattern matches the topic |
| `Collector.FirstMatchWins` | mqtt2influx.go:131-149 | when rule i is the first matching rule, the point is built from rule i's measurement and the mapper's tags and fields for it. Earlier rules contribute nothing |
| `Collector.Batcher.constructor` | mqtt2influx.go:40 | the buffer starts empty with nothing accepted or delivered |
| `Collector.Batcher.Append` | mqtt2influx.go:145 | the point is added at the end. Nothing is delivered. The no-loss invariant is kept |
| `Collector.Batcher.WritePoints` | mqtt2influx.go:110-126 | the whole buffer is the batch handed to the sink. On success the buffer is empty and the batch is appended to what was delivered. On failure the buffer and the deliveries are unchanged |
| `Collector.Batcher.FlushTick` | mqtt2influx.go:102-105 | a write is attempted exactly when the buffer is non-empty, with the whole buffer. The new buffer is empty on success and unchanged on failure |
| `Collector.Batcher.SyncCallback` | mqtt2influx.go:128-150 | the buffer grows by exactly the first-match point, or by nothing when no rule matches. Nothing is delivered |
| `Scenarios.NoMatchGivesNothing` | mqtt2influx_internal_test.go:16 | a mirror of the test table's first row: with no match as the input, there are no tags and no fields |
| `Scenarios.NoGroupsUsesLastSegment` | mqtt2influx_internal_test.go:18 | with no groups, the field name is the last topic segment (`bar`) |
| `Scenarios.UnnamedGroupsJoined` | mqtt2influx_internal_test.go:26 | the unnamed captures `bazz`, `muh` give field `bazz.muh` |
| `Scenarios.NamedGroupsAreTags` | mqtt2influx_internal_test.go:29 | the named groups become tags `YOLO=bar`, `ALF=2`, and the field is `muh` |
| `Scenarios.BooleanPayloadIsValue` | mqtt2influx_internal_test.go:36 | the payload `true` is stored as the value of `muh.goo` |
| `Scenarios.TextPayloadIsEvent` | mqtt2influx_internal_test.go:38 | the payload `wat` gives tag `bar=wat` and field `occurred=true` |
| `Scenarios.EventTagBesideNamedTag` | mqtt2influx_internal_test.go:42 | the payload `wat` gives tags `foo.bar=wat`, `lol=1` and field `occurred=true` |
| `Scenarios.TrailingEmptyCapture` | mqtt2influx.go:177-181 | the unnamed captures `temp`, `""` give field `temp.` |
| `Scenarios.LeadingEmptyCapture` | mqtt2influx.go:177-181 | the unnamed captures `""`, `b` give field `b`, with no leading `.` |

## Left out

- Regular-expression compilation and matching (`regexp.MustCompile`, `FindStringSubmatch`, `SubexpNames`). These belong to Go's library. The match is an input, so a panic on an invalid pattern is not modelled.
- Float parsing in `strconv.ParseFloat`. This is library and floating-point behaviour, so `isNumeric` is the parameter `numeric`.
- `client.NewPoint` validation and its error. On an error the source logs it and still appends the (nil) point. The model appends the record built from the rule's measurement and the mapper's maps.
- Timestamps (`time.Now`), `NewBatchPoints`, the database and precision settings, and the InfluxDB network write. The write's outcome is the parameter `sinkOk`.
- The payload is a string. The source converts its bytes with `string(payload)` for classification and for the event tag, while the value field keeps the bytes. The model does not distinguish the two.
- `main`'s flag parsing, configuration loading and MQTT/InfluxDB connection setup, plus all logging and printing. These are I/O.
- The ticker's timing, and the unsynchronised sharing of `pointCollection` between the MQTT callback and the ticker loop. This is concurrency, so the buffer is modelled as a sequential object. The no-loss invariant `delivered + points == accepted` holds only for this sequential model. In the original, a point that `syncCallback` appends (mqtt2influx.go:145) while the write runs is overwritten when `main` assigns the result of `writePoints` (mqtt2influx.go:104, 123-125), on success and on failure alike.
