/** pkg/db/mqtt.go: the telemetry subscription and its message callback.
    The callback decodes the payload, takes the device id from level 2 of
    the topic, stamps the receive time and stores the sample. */
module Ingest {
  import opened Common
  import opened Strings
  import opened Uuids
  import opened Entity
  import opened MonitoringRepository
  import Config

  /** The filter Start subscribes with: the configured base topic, a
      single-level wildcard and "telemetry". */
  function SubscriptionPattern(base: string): string
  {
    base + "/+/telemetry"
  }

  /** The levels of the subscription filter are those of the base topic
      followed by the wildcard and "telemetry". */
  lemma SubscriptionLevels(base: string)
    ensures Split(SubscriptionPattern(base), '/') == Split(base, '/') + ["+", "telemetry"]
  {
    var tail := "+/telemetry";
    assert SubscriptionPattern(base) == base + ['/'] + tail;
    assert tail == "+" + ['/'] + "telemetry";
    SplitTwo("+", "telemetry", '/');
    SplitAppend(base, tail, '/');
  }

  /** One filter level against one topic level: "+" matches any level. */
  predicate LevelMatches(filter: string, level: string)
  {
    filter == "+" || filter == level
  }

  /** MQTT topic matching for filters whose only wildcard is "+": the same
      number of levels, each matching. */
  predicate Matches(filter: string, topic: string)
  {
    LevelsMatch(Split(filter, '/'), Split(topic, '/'))
  }

  predicate LevelsMatch(f: seq<string>, t: seq<string>)
  {
    |f| == |t| && forall i :: 0 <= i < |f| ==> LevelMatches(f[i], t[i])
  }

  /** A topic the subscription delivers has the base's level count plus
      two, and its wildcard level sits right after the base levels. */
  lemma MatchedTopicShape(base: string, topic: string)
    requires Matches(SubscriptionPattern(base), topic)
    ensures |Split(topic, '/')| == |Split(base, '/')| + 2
    ensures Split(topic, '/')[|Split(base, '/')| + 1] == "telemetry"
    ensures forall i :: 0 <= i < |Split(base, '/')| ==> LevelMatches(Split(base, '/')[i], Split(topic, '/')[i])
  {
    SubscriptionLevels(base);
    var f := Split(SubscriptionPattern(base), '/');
    var n := |Split(base, '/')|;
    assert f[n + 1] == "telemetry";
    assert forall i :: 0 <= i < n ==> f[i] == Split(base, '/')[i];
  }

  /** The sample the callback stores for a message, or None when it
      returns early: the payload did not decode, or the topic has three or
      more levels and level 2 is not a UUID. With fewer levels the
      payload's own device id is kept. */
  function IngestedSample(topic: string, payload: Option<MonitoringData>, now: Time): (r: Option<MonitoringData>)
    ensures payload.None? ==> r.None?
    ensures r.Some? ==> r.value.timestamp == now && SameMetrics(r.value, payload.value)
    ensures |Split(topic, '/')| >= 3 ==>
      (r.Some? <==> payload.Some? && Parse(Split(topic, '/')[2]).Some?)
    ensures |Split(topic, '/')| >= 3 && r.Some? ==> r.value.deviceId == Parse(Split(topic, '/')[2]).value
    ensures |Split(topic, '/')| < 3 ==> (r.Some? <==> payload.Some?)
    ensures |Split(topic, '/')| < 3 && r.Some? ==> r.value.deviceId == payload.value.deviceId
  {
    match payload
    case None => None
    case Some(telemetry) =>
      var topicParts := Split(topic, '/');
      if |topicParts| >= 3 then
        match Parse(topicParts[2])
        case None => None
        case Some(id) => Some(telemetry.(deviceId := id, timestamp := now))
      else Some(telemetry.(timestamp := now))
  }

  /** The subscriber side of the broker. */
  class MqttClient {
    const repo: InfluxRepository
    /** The configured base topic. */
    const topic: string

    constructor(repo: InfluxRepository, topic: string)
      ensures this.repo == repo && this.topic == topic
    {
      this.repo := repo;
      this.topic := topic;
    }

    /** handleTelemetryMessage. `payload` is the outcome of decoding the
        message body (None when json.Unmarshal fails), `now` the receive
        time and `written` whether the buffered write reaches the bucket.
        A failed store is only logged: the callback returns normally
        either way and never retries. */
    method HandleTelemetryMessage(msgTopic: string, payload: Option<MonitoringData>, now: Time, written: bool)
      modifies repo
      ensures IngestedSample(msgTopic, payload, now).None? || !written ==> repo.points == old(repo.points)
      ensures IngestedSample(msgTopic, payload, now).Some? && written ==>
        repo.points == old(repo.points) + [PointOf(IngestedSample(msgTopic, payload, now).value)]
    {
      if payload.None? {
        return;
      }
      var telemetry := payload.value;
      var topicParts := Split(msgTopic, '/');
      if |topicParts| >= 3 {
        var id := Parse(topicParts[2]);
        if id.None? {
          return;
        }
        telemetry := telemetry.(deviceId := id.value);
      }
      telemetry := telemetry.(timestamp := now);
      var err := repo.Store(telemetry, written);
    }
  }

  /** With a two-level base topic, the level the callback reads is the
      subscription's wildcard level. */
  lemma TwoLevelBaseReadsWildcard(a: string, b: string)
    requires '/' !in a && '/' !in b
    ensures Split(SubscriptionPattern(a + ['/'] + b), '/') == [a, b, "+", "telemetry"]
  {
    SplitTwo(a, b, '/');
    SubscriptionLevels(a + ['/'] + b);
  }

  /** The default base topic "iot/monitoring" is such a base. */
  lemma DefaultBaseReadsWildcard()
    ensures Split(SubscriptionPattern(Config.DefaultMqttTopic), '/') == ["iot", "monitoring", "+", "telemetry"]
  {
    assert Config.DefaultMqttTopic == "iot" + ['/'] + "monitoring";
    TwoLevelBaseReadsWildcard("iot", "monitoring");
  }

  /** Level 2 is read whatever the base topic. With a one-level base the
      subscription delivers topics "<base>/<id>/telemetry", whose level 2 is
      "telemetry": no such message is ever stored. */
  lemma OneLevelBaseDropsAll(base: string, topic: string, payload: Option<MonitoringData>, now: Time)
    requires |Split(base, '/')| == 1
    requires Matches(SubscriptionPattern(base), topic)
    ensures IngestedSample(topic, payload, now).None?
  {
    MatchedTopicShape(base, topic);
    assert Split(topic, '/')[2] == "telemetry";
  }

  /** With a base of three or more levels whose level 2 is neither a
      wildcard nor a UUID, every delivered message is dropped. */
  lemma DeepBaseDropsAll(base: string, topic: string, payload: Option<MonitoringData>, now: Time)
    requires |Split(base, '/')| >= 3
    requires Split(base, '/')[2] != "+" && Parse(Split(base, '/')[2]).None?
    requires Matches(SubscriptionPattern(base), topic)
    ensures IngestedSample(topic, payload, now).None?
  {
    MatchedTopicShape(base, topic);
    assert LevelMatches(Split(base, '/')[2], Split(topic, '/')[2]);
  }
}
