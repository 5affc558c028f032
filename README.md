# IoT device monitoring: ingestion, guards and token rotation in Dafny

This project models the core of a Go service that collects telemetry from
IoT devices. Devices publish samples over MQTT (CPU, memory and disk usage
and temperature). A subscriber stores each sample as a point in an InfluxDB
bucket. An HTTP endpoint can publish a sample on a device's behalf. A
monitoring use case guards range, latest, statistics and retention
requests before they reach the repository. A separate authentication use
case registers users, logs them in and rotates refresh tokens through a
key-value cache.

The model follows the program's structure, one module per component:

- `common.dfy` (`Common`): Option and Result, bytes, float64 values as
  opaque IEEE-754 bit patterns, and time as integer nanoseconds since the
  Unix epoch. Go's zero time is `ZeroTime`.
- `strings.dfy` (`Strings`): Go's `strings.Split` on a one-character
  separator and its inverse `Join`, plus decimal formatting with zero
  padding (`appendInt` of package time).
- `uuid.dfy` (`Uuids`): the canonical 36-character UUID text, `uuid.Parse`
  and `UUID.String`.
- `calendar.dfy` (`Calendar`): proleptic Gregorian dates of instants and
  the `"2006-01-02"` layout.
- `entity.dfy` (`Entity`): the telemetry records.
- `config.dfy` (`Config`): `getEnv`, `getEnvAsInt` (with `strconv.Atoi`),
  `getEnvAsDuration` (with `time.ParseDuration`) and `Load`.
- `validate.dfy` (`Validate`): `FormatValidationErrors`.
- `monitoring_repository.dfy` (`MonitoringRepository`): the bucket as a
  class whose `points` field `Store` and `DeleteOldData` update, and the
  decoding of query answers.
- `monitoring_usecase.dfy` (`MonitoringUsecase`): the five guarded
  use-case methods.
- `ingest.dfy` (`Ingest`): the subscription filter and the MQTT message
  callback.
- `trigger.dfy` (`Trigger`): the HTTP trigger's guard order, sample and
  topic, and the round trip from trigger to callback.
- `auth.dfy` (`Auth`): `Register`, `Login` and `RefreshToken` over a user
  table and a cache map.

The model treats everything outside the process as an input:

- the clock;
- the JSON decoder's verdict and the validator's verdict;
- the answers of the MQTT broker, InfluxDB, Redis and the user database;
- bcrypt's hash and comparison;
- the JWT issuer and checker.

A query to InfluxDB is represented by the records its cursor yields and
the error the cursor reports afterwards.

## Model

| member | source | states |
|---|---|---|
| `Strings.Split` | pkg/db/mqtt.go:70 | splitting a topic on '/' yields separator-free pieces, one more than there are separators, that join back to the topic |
| `Strings.SplitJoin` | pkg/db/mqtt.go:70 | splitting undoes joining whenever no piece holds the separator |
| `Uuids.Parse` | pkg/db/mqtt.go:72 | only a 36-character text without '/' parses as a UUID |
| `Uuids.ParseToString` | internal/domain/repository/monitoring_repository.go:38 | parsing the text form of a UUID gives the UUID back |
| `Uuids.ToStringParse` | pkg/db/mqtt.go:72-77 | formatting a parsed UUID gives the input text back, with hex letters in lower case |
| `Uuids.ToStringInjective` | internal/domain/repository/monitoring_repository.go:38 | different UUIDs have different device_id tags |
| `Calendar.DateOf` | internal/domain/repository/monitoring_repository.go:163 | the date of an instant is a valid calendar date whose day number counts whole days since 0001-01-01 |
| `Calendar.DayNumberInjective` | internal/domain/repository/monitoring_repository.go:163 | different valid dates have different day numbers, so the date of an instant is unique |
| `Calendar.FormatDateFields` | internal/domain/repository/monitoring_repository.go:163 | for years 0 to 9999 the "2006-01-02" layout has ten characters and each field reads back as the date's number |
| `Calendar.ZeroTimeDate` | internal/domain/usecase/monitoring_usecase.go:29 | Go's zero time falls on 0001-01-01 |
| `Calendar.UnixEpochDate` | internal/domain/repository/monitoring_repository.go:163 | the Unix epoch is labelled 1970-01-01 |
| `Config.GetEnv` | config/config.go:108-113 | a non-empty variable is returned, and an unset or empty one gives the default |
| `Config.Atoi` | config/config.go:117 | strconv.Atoi succeeds exactly on one or more digits after an optional single sign whose value fits in int64, and then returns that signed value; every failure is a syntax or a range error, and a well-formed value outside int64 is a range error |
| `Config.AtoiErrors` | config/config.go:117 | digits read left to right that pass 2^64-1 give a range error even when a non-digit follows them; any other text that is not a signed run of digits gives a syntax error |
| `Config.OverflowBeforeNonDigit` | config/config.go:117 | a run of digits above 2^64-1 followed by a non-digit, such as "99999999999999999999x", is a range error |
| `Config.DigitsValuePrefix` | config/config.go:117 | a prefix of a run of digits is a run of digits whose value is no larger |
| `Config.AtoiItoa` | config/config.go:117 | every int64 written in decimal reads back as itself |
| `Config.GetEnvAsInt` | config/config.go:115-122 | the parsed variable on success, and the default when the variable is empty or does not parse |
| `Config.ParseDuration` | config/config.go:124-132 | a parsed duration lies inside int64 |
| `Config.ParseDurationOneUnit` | config/config.go:126 | a whole number followed by a known unit parses to the number times the unit |
| `Config.UnitTable` | config/config.go:126 | the unit table holds exactly "ns", "us", both micro-sign spellings of "µs", "ms", "s", "m" and "h", with their nanosecond values |
| `Config.LeadingWhole` | config/config.go:126 | a whole number and a known unit at the head of a duration, followed by the end or by the next number, are read as one component worth the number times the unit, ending right after the unit |
| `Config.ParseDurationPlus` | config/config.go:126 | a leading "+" changes nothing |
| `Config.ParseDurationMinus` | config/config.go:126 | a leading "-" negates the value, and only the negative side reaches -2^63 |
| `Config.ParseDurationUnsigned` | config/config.go:126 | a text that starts with a digit and whose components add up to an int64 parses to that sum |
| `Config.LeadingWholeEnd` | config/config.go:126 | a whole number followed by a known unit and nothing else is one component worth the number times the unit, spanning the whole text |
| `Config.FifteenMinutes` | config/config.go:95 | the access-token default "15m" is fifteen minutes |
| `Config.SevenDaysRejected` | config/config.go:96 | the refresh default "7d" does not parse, because "d" is not a unit |
| `Config.GetEnvAsDuration` | config/config.go:124-132 | the parsed variable on success; otherwise the parsed default, with a default that does not parse giving zero |
| `Config.LoadDefaults` | config/config.go:63-106 | with nothing set: configured access duration 15 minutes, configured refresh duration 0, Redis database 0, base topic "iot/monitoring", bucket "monitoring"; the two durations are never read, since token lifetimes are fixed in the authentication use case |
| `Validate.ErrorResponses` | pkg/utils/validate.go:11-32 | nil gives no entries; a foreign error gives one entry with an empty field and its text; field errors give one entry each, in order, reading "<field> failed on the <tag> validation" |
| `Validate.FormatValidationErrors` | pkg/utils/validate.go:11-32 | the appending loop builds exactly that list |
| `MonitoringRepository.PointOf` | internal/domain/repository/monitoring_repository.go:36-46 | the stored point is a "device_monitoring" point with the single tag device_id holding the device's UUID text, exactly the four float metric fields, and the sample's time |
| `MonitoringRepository.FieldOrZero` | internal/domain/repository/monitoring_repository.go:78-89 | a float column is copied, and a missing or non-float column reads as zero |
| `MonitoringRepository.DecodeRowFields` | internal/domain/repository/monitoring_repository.go:72-89 | a decoded row carries the queried device and the record's time, and a missing metric column reads as zero |
| `MonitoringRepository.StoreDecodeRoundTrip` | internal/domain/repository/monitoring_repository.go:35-92 | a stored sample read back under its own device gives the same sample, and its tag parses back to its device |
| `MonitoringRepository.DecodeAll` | internal/domain/repository/monitoring_repository.go:70-92 | one row per record, in cursor order, each with the queried device and the record's time |
| `MonitoringRepository.RangeRows` | internal/domain/repository/monitoring_repository.go:64-98 | a query error or a cursor error gives an error and no rows; otherwise every record is decoded |
| `MonitoringRepository.LatestRow` | internal/domain/repository/monitoring_repository.go:111-140 | the first record decoded, or "no data found" when there is none |
| `MonitoringRepository.LatestIgnoresCursorError` | internal/domain/repository/monitoring_repository.go:117-140 | the latest-sample answer never depends on the cursor's error |
| `MonitoringRepository.PeriodLabelShape` | internal/domain/repository/monitoring_repository.go:163 | the period label is the start date, " to " and the end date, 24 characters for years 0 to 9999 |
| `MonitoringRepository.Stats` | internal/domain/repository/monitoring_repository.go:161-170 | the statistics carry the device, the record count and the period label, with every average and maximum zero |
| `MonitoringRepository.Surviving` | internal/domain/repository/monitoring_repository.go:179 | a delete keeps exactly the points outside the window [start, stop] |
| `MonitoringRepository.SurvivingCounts` | internal/domain/repository/monitoring_repository.go:179 | a delete keeps every copy of a point outside the window and no copy of a point inside it |
| `MonitoringRepository.SurvivingAppend` | internal/domain/repository/monitoring_repository.go:179 | the survivors keep write order: those of two consecutive runs of points are the first run's followed by the second's |
| `MonitoringRepository.DeleteWindowIsRecent` | internal/domain/repository/monitoring_repository.go:176-179 | a point written now is deleted, while one older than the cutoff survives: the recent data is the data removed |
| `MonitoringRepository.InfluxRepository.Store` | internal/domain/repository/monitoring_repository.go:35-52 | the sample's point is appended when the buffered write goes through, and nil is returned either way |
| `MonitoringRepository.InfluxRepository.GetByDeviceID` | internal/domain/repository/monitoring_repository.go:54-99 | the decoding loop returns the range rows of the query answer |
| `MonitoringRepository.InfluxRepository.GetLatestByDeviceID` | internal/domain/repository/monitoring_repository.go:101-141 | returns the latest-row answer |
| `MonitoringRepository.InfluxRepository.GetStats` | internal/domain/repository/monitoring_repository.go:143-173 | the counting loop sets the data points to the number of records; only the query error is reported |
| `MonitoringRepository.InfluxRepository.DeleteOldData` | internal/domain/repository/monitoring_repository.go:175-185 | deletes the points from now minus the retention to the second clock reading; a failed delete leaves the bucket unchanged and wraps the error |
| `MonitoringUsecase.RangeGuard` | internal/domain/usecase/monitoring_usecase.go:37-49 | the nil device is refused first; a range passes exactly when end is not before start, so end == start passes; the limit is always positive and defaults to 100 |
| `MonitoringUsecase.Stamped` | internal/domain/usecase/monitoring_usecase.go:29-31 | a zero timestamp becomes the clock reading; any other sample passes untouched |
| `MonitoringUsecase.EqualEndsAccepted` | internal/domain/usecase/monitoring_usecase.go:44-46 | a zero-length range passes the guards |
| `MonitoringUsecase.MonitoringUsecase.StoreMonitoringData` | internal/domain/usecase/monitoring_usecase.go:24-34 | a nil device is refused and nothing is stored; otherwise the stamped sample is stored |
| `MonitoringUsecase.MonitoringUsecase.GetMonitoringDataByDevice` | internal/domain/usecase/monitoring_usecase.go:37-49 | the repository is called with the guarded arguments only when the guards pass, and its answer is returned unchanged |
| `MonitoringUsecase.MonitoringUsecase.GetLatestMonitoringData` | internal/domain/usecase/monitoring_usecase.go:52-58 | a nil device is refused without a repository call; otherwise the repository's answer is returned |
| `MonitoringUsecase.MonitoringUsecase.GetMonitoringStats` | internal/domain/usecase/monitoring_usecase.go:61-70 | the same nil-device and end-before-start guards, then the repository's statistics |
| `MonitoringUsecase.MonitoringUsecase.DeleteOldMonitoringData` | internal/domain/usecase/monitoring_usecase.go:73-79 | a non-positive retention is refused and nothing is deleted |
| `Ingest.SubscriptionLevels` | pkg/db/mqtt.go:52 | the subscription filter's levels are the base topic's levels followed by "+" and "telemetry" |
| `Ingest.MatchedTopicShape` | pkg/db/mqtt.go:52 | a delivered topic has two more levels than the base, ends in "telemetry" and matches the base level by level |
| `Ingest.IngestedSample` | pkg/db/mqtt.go:60-85 | an undecodable payload is dropped; with three or more levels, level 2 must parse as a UUID and becomes the device; with fewer, the payload's device is kept; the time is always the receive time and the readings are those decoded |
| `Ingest.MqttClient.HandleTelemetryMessage` | pkg/db/mqtt.go:60-85 | the callback stores exactly that sample, or nothing, and a failed store changes nothing |
| `Ingest.TwoLevelBaseReadsWildcard` | pkg/db/mqtt.go:52-72 | with a two-level base topic, level 2 is the subscription's wildcard level |
| `Ingest.DefaultBaseReadsWildcard` | config/config.go:103 | the default base topic is such a two-level base |
| `Ingest.OneLevelBaseDropsAll` | pkg/db/mqtt.go:70-76 | with a one-level base topic every delivered message is dropped, because level 2 is "telemetry" |
| `Ingest.DeepBaseDropsAll` | pkg/db/mqtt.go:70-76 | with a deeper base whose level 2 is neither "+" nor a UUID, every delivered message is dropped |
| `Trigger.Sample` | internal/domain/handler/mqttClient.go:49-56 | the published sample has the parsed device, the request's four readings unchanged, and the clock reading |
| `Trigger.TriggerMQTT` | internal/domain/handler/mqttClient.go:28-66 | the guards run in order (empty id, then bad JSON, then validation, then the MustParse panic), each answering without publishing; otherwise the sample is published on the trigger topic, and a broker error gives 500 |
| `Trigger.TriggerTopicLevels` | internal/domain/handler/mqttClient.go:58 | the trigger topic of a slash-free id has the four levels iot, monitoring, the id and telemetry |
| `Trigger.TopicRoundTrip` | internal/domain/handler/mqttClient.go:58 | the callback reads back, at level 2, exactly the id the trigger wrote |
| `Trigger.TriggerMatchesSubscription` | internal/domain/handler/mqttClient.go:58 | trigger messages reach the subscriber exactly when the base topic has two levels matching iot and monitoring |
| `Trigger.DefaultConfigurationDelivers` | internal/domain/handler/mqttClient.go:58 | with the default base topic, every trigger message is delivered |
| `Trigger.PublishedSampleIngested` | internal/domain/handler/mqttClient.go:49-58 | a published sample for a UUID id is stored under that UUID with its readings and the receive time |
| `Auth.RefreshKeyInjective` | internal/domain/usecase/users_usecase.go:78 | different users have different refresh-token keys |
| `Auth.FindByUsername` | internal/domain/usecase/users_usecase.go:30 | a lookup finds a user with that name, or reports that none exists |
| `Auth.FindByEmail` | internal/domain/usecase/users_usecase.go:36 | a lookup finds a user with that address, or reports that none exists |
| `Auth.AddFreeUserKeepsUnique` | internal/domain/usecase/users_usecase.go:30-53 | adding a user whose name and address are free keeps names and addresses unique |
| `Auth.Authenticate` | internal/domain/usecase/users_usecase.go:57-65 | a login authenticates the named user only when the password matches its hash |
| `Auth.RotationSupersedes` | internal/domain/usecase/users_usecase.go:102-117 | right after a rotation that issues a different token, the old token cannot refresh and the new one can |
| `Auth.NeverAgain` | internal/domain/usecase/users_usecase.go:79-117 | a token that cannot refresh for a user stays so through any run of cache writes that never hands that user the same token again |
| `Auth.SupersededForever` | internal/domain/usecase/users_usecase.go:102-117 | once a rotation replaces a token with a different one, no later run of logins and refreshes revives it unless one of them issues that very token to the same user again |
| `Auth.RotationIsolatesUsers` | internal/domain/usecase/users_usecase.go:94-117 | a rotation leaves every other user's cache entry unchanged |
| `Auth.BearerPrefixNeverMatches` | internal/domain/usecase/users_usecase.go:88-104 | a "Bearer "-prefixed token never matches the raw token in the cache |
| `Auth.AuthUsecase.Register` | internal/domain/usecase/users_usecase.go:28-54 | a taken name is reported before a taken address; any failure creates nothing; a success adds one user with the hash and never the password; unique accounts stay unique |
| `Auth.AuthUsecase.Login` | internal/domain/usecase/users_usecase.go:56-85 | an unknown name and a wrong password give the same error; every failure returns empty tokens and leaves the cache alone; a success caches the refresh token under the user's key; a token that could not refresh before cannot afterwards unless it is the one just issued |
| `Auth.AuthUsecase.RefreshToken` | internal/domain/usecase/users_usecase.go:87-123 | a rejected, uncached or mismatched token gives its error and leaves the cache unchanged; only an exact match is exchanged, and the user's entry is replaced by the new token; a token that could not refresh before cannot afterwards unless it is the one just issued |
| `Auth.AuthUsecase.PresentTwice` | internal/domain/usecase/users_usecase.go:97-117 | presenting the same token again after a successful exchange is refused as a mismatch; when the first exchange fails, the second fails the same way and the cache and users stay as they were |

## Left out

- MQTT connection, subscription and publishing (pkg/db/mqtt.go:24-58, 87-91): this is network I/O. The callback is modelled; the broker's answer to a publish is an input, and the subscription is represented by its topic filter.
- Only "+" is modelled in topic filters. A "#" in the configured base topic would make the subscription filter invalid, so Start's subscribe would fail.
- JSON decoding and encoding are not modelled. The callback receives the decoder's verdict, and the end-to-end lemma takes the marshalled sample to decode back to itself.
- The validator's rules (required, gt=0) are not modelled. The trigger receives the validator's verdict.
- Trigger.TriggerMQTT: the text of the panic that uuid.MustParse raises is not modelled; the recover middleware's 500 answer is.
- Uuids.Parse: only the canonical 36-character spelling is accepted. uuid.Parse also accepts the 32-digit, braced and "urn:uuid:" forms; for those the model drops the message in the callback and answers 500 in the trigger.
- The Flux query text, the engine's filtering by measurement, device and time range, its pivot and its limit are not modelled. A query is represented by its answer, so no claim is made that the engine enforces the limit or the range.
- MonitoringRepository.RecordOf: a stored point is taken to come back as one record whose columns are its field names, which is what the pivot on `_time` and `_field` (internal/domain/repository/monitoring_repository.go:60, 107) produces. MonitoringRepository.StoreDecodeRoundTrip rests on that reading of the pivot, and two points with the same time would be merged by the engine.
- InfluxDB's buffered writer reports failures on a separate channel. The model represents this with the `written` flag.
- MonitoringRepository.InfluxRepository.DeleteOldData: the delete window is taken to include both ends. The delete call's predicate is empty, so every measurement in the bucket is affected.
- The clock is an input. Go's monotonic clock reading, time zones (dates are formatted in UTC) and the saturation of time.Add at the int64 limits are not modelled.
- Float64 metric values are opaque bit patterns and no arithmetic is done on them.
- Config.ParseDuration: the fractional part of a component is computed exactly, whereas Go computes it in float64, which can differ in the last nanosecond.
- Config.ParseDuration: the value of a duration of two or more components ("1h30m") is not stated as a lemma. Only the reading of the leading whole-number component, a single whole-number component and the sign are; the model adds the components in order with Go's 2^63 check, but that sum is not proved.
- Config.Atoi: errors are reduced to their reason text. getEnvAsInt discards them in any case.
- Loading the optional .env file is not modelled: the environment is given after the merge.
- Redis key expiry and the 7-day TTL are not modelled, and neither are the 15-minute and 7-day token lifetimes fixed at internal/domain/usecase/users_usecase.go:68-73 and 106-111. A Get failure is modelled only as a missing key, and a failed Set is taken to write nothing.
- The user database is modelled as a table. Lookups fail only when nothing is found, and the new user's id is an input. Database errors and unique constraints are not modelled.
- Auth.RotationSupersedes: this lemma requires that the newly issued refresh token differs from the presented one. HS256 tokens for the same user issued within the same second can coincide.
- Auth.AuthUsecase.PresentTwice: it requires that the newly issued refresh token differs from the presented one, for the same reason.
- Auth.SupersededForever: the freshness of issued tokens is a hypothesis, not modelled. The model has no clock inside the tokens, so it needs every later token issued to the user to differ from the superseded one.
- Token signing and checking (pkg/jwt/jwt.go) and bcrypt are oracles whose answers are inputs.
- Concurrency is not modelled, including the check-then-create race in Register and callbacks running alongside HTTP requests.
- The other handlers, the router, the middlewares, main, the device use case and repository, and the logger are not part of this model.
