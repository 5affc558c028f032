/** internal/domain/handler/mqttClient.go: TriggerMQTT, the HTTP endpoint
    that publishes a telemetry sample for the device named in the path.
    The request body's decoding, the validator's verdict, the clock and
    the broker's answer are inputs. */
module Trigger {
  import opened Common
  import opened Strings
  import opened Uuids
  import opened Entity
  import opened Validate
  import opened Ingest
  import Config

  const StatusOK := 200
  const StatusBadRequest := 400
  const StatusInternalServerError := 500

  const ErrMissingId := "Missing device ID in URL"
  const ErrInvalidJson := "Invalid JSON"
  const MsgPublished := "Published to MQTT"

  /** The JSON bodies the endpoint answers with. `Panicked` is the answer
      the recover middleware gives when uuid.MustParse panics; the text of
      the panic is not modelled. */
  datatype ResponseBody =
    | ErrorBody(error: string)
    | ErrorsBody(errors: seq<ErrorResponse>)
    | MessageBody(message: string)
    | Panicked

  datatype Response = Response(status: int, body: ResponseBody)

  /** A message handed to the broker. */
  datatype Publication = Publication(topic: string, sample: MonitoringData)

  /** The topic the trigger publishes on: fixed, whatever base topic the
      subscriber is configured with. */
  function TriggerTopic(id: string): string
  {
    "iot/monitoring/" + id + "/telemetry"
  }

  /** The sample the trigger publishes: the device, the request's four
      readings and the clock reading. */
  function Sample(deviceId: Uuid, req: MonitoringRequest, now: Time): (d: MonitoringData)
    ensures d.deviceId == deviceId && d.timestamp == now
    ensures d.cpuUsage == req.cpuUsage && d.memoryUsage == req.memoryUsage
    ensures d.diskUsage == req.diskUsage && d.temperature == req.temperature
  {
    MonitoringData(deviceId, req.cpuUsage, req.memoryUsage, req.diskUsage, req.temperature, now)
  }

  /** TriggerMQTT. `body` is the outcome of the body parser, `validation`
      the validator's verdict on the parsed request, `now` the clock and
      `publishErr` the broker's answer. `attempt` is the publication
      handed to the broker, if any. */
  method TriggerMQTT(id: string, body: Option<MonitoringRequest>, validation: ValidationOutcome,
                     now: Time, publishErr: Option<string>)
    returns (resp: Response, attempt: Option<Publication>)
    ensures id == "" ==> resp == Response(StatusBadRequest, ErrorBody(ErrMissingId)) && attempt == None
    ensures id != "" && body.None? ==> resp == Response(StatusBadRequest, ErrorBody(ErrInvalidJson)) && attempt == None
    ensures id != "" && body.Some? && !validation.Valid? ==>
      resp == Response(StatusBadRequest, ErrorsBody(ErrorResponses(validation))) && attempt == None
    ensures id != "" && body.Some? && validation.Valid? && Parse(id).None? ==>
      resp == Response(StatusInternalServerError, Panicked) && attempt == None
    ensures attempt.Some? <==> id != "" && body.Some? && validation.Valid? && Parse(id).Some?
    ensures attempt.Some? ==> attempt.value == Publication(TriggerTopic(id), Sample(Parse(id).value, body.value, now))
    ensures attempt.Some? && publishErr.Some? ==> resp == Response(StatusInternalServerError, ErrorBody(publishErr.value))
    ensures attempt.Some? && publishErr.None? ==> resp == Response(StatusOK, MessageBody(MsgPublished))
  {
    if id == "" {
      return Response(StatusBadRequest, ErrorBody(ErrMissingId)), None;
    }
    if body.None? {
      return Response(StatusBadRequest, ErrorBody(ErrInvalidJson)), None;
    }
    var payload := body.value;
    if !validation.Valid? {
      var validationErrors := FormatValidationErrors(validation);
      return Response(StatusBadRequest, ErrorsBody(validationErrors)), None;
    }
    var deviceId := Parse(id);
    if deviceId.None? {
      return Response(StatusInternalServerError, Panicked), None;
    }
    var sendData := MonitoringData(deviceId.value, payload.cpuUsage, payload.memoryUsage,
      payload.diskUsage, payload.temperature, now);
    var topic := "iot/monitoring/" + id + "/telemetry";
    attempt := Some(Publication(topic, sendData));
    if publishErr.Some? {
      return Response(StatusInternalServerError, ErrorBody(publishErr.value)), attempt;
    }
    return Response(StatusOK, MessageBody(MsgPublished)), attempt;
  }

  /** The trigger topic of a slash-free id has four levels, the id at
      level 2. */
  lemma TriggerTopicLevels(id: string)
    requires '/' !in id
    ensures Split(TriggerTopic(id), '/') == ["iot", "monitoring", id, "telemetry"]
  {
    assert TriggerTopic(id) == "iot" + ['/'] + "monitoring" + ['/'] + id + ['/'] + "telemetry";
    SplitFour("iot", "monitoring", id, "telemetry", '/');
  }

  /** Round trip: the id the trigger writes into the topic is the level
      the callback reads it back from. */
  lemma TopicRoundTrip(id: string)
    requires '/' !in id
    ensures |Split(TriggerTopic(id), '/')| >= 3 && Split(TriggerTopic(id), '/')[2] == id
  {
    TriggerTopicLevels(id);
  }

  /** The trigger's messages reach the subscriber exactly when the
      configured base topic has two levels matching "iot" and "monitoring". */
  lemma TriggerMatchesSubscription(base: string, id: string)
    requires '/' !in id
    ensures Matches(SubscriptionPattern(base), TriggerTopic(id)) <==>
      |Split(base, '/')| == 2 && LevelMatches(Split(base, '/')[0], "iot") && LevelMatches(Split(base, '/')[1], "monitoring")
  {
    TriggerTopicLevels(id);
    SubscriptionLevels(base);
    LevelsAgainstTrigger(Split(base, '/'), id);
  }

  lemma LevelsAgainstTrigger(levels: seq<string>, id: string)
    ensures LevelsMatch(levels + ["+", "telemetry"], ["iot", "monitoring", id, "telemetry"]) <==>
      |levels| == 2 && LevelMatches(levels[0], "iot") && LevelMatches(levels[1], "monitoring")
  {
    var f := levels + ["+", "telemetry"];
    var t := ["iot", "monitoring", id, "telemetry"];
    if |levels| == 2 {
      assert f[0] == levels[0] && f[1] == levels[1] && f[2] == "+" && f[3] == "telemetry";
      assert t[0] == "iot" && t[1] == "monitoring" && t[3] == "telemetry";
      assert LevelMatches(f[2], t[2]) && LevelMatches(f[3], t[3]);
    }
  }

  /** With the default configuration the subscriber receives every message
      the trigger publishes. */
  lemma DefaultConfigurationDelivers(id: string)
    requires '/' !in id
    ensures Matches(SubscriptionPattern(Config.DefaultMqttTopic), TriggerTopic(id))
  {
    TriggerTopicLevels(id);
    DefaultBaseReadsWildcard();
  }

  /** End to end: a sample the trigger publishes for a UUID id and the
      callback receives is stored under that UUID with the same readings,
      stamped with the receive time. */
  lemma PublishedSampleIngested(id: string, req: MonitoringRequest, sent: Time, received: Time)
    requires Parse(id).Some?
    ensures IngestedSample(TriggerTopic(id), Some(Sample(Parse(id).value, req, sent)), received)
      == Some(Sample(Parse(id).value, req, received))
  {
    TopicRoundTrip(id);
  }
}
