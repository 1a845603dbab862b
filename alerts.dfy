/**
 * The alert registry of crates/alerts/src/lib.rs: alerts keyed by id, and an
 * evaluation that flips an alert's `triggered` flag only on a transition.
 */
module Alerts {
  import opened Wrappers
  import opened Collections

  datatype AlertOperator = GreaterThan | LessThan | EqualTo

  datatype AlertConfig = AlertConfig(
    id: string,
    name: string,
    metric: string,
    threshold: real,
    operator: AlertOperator,
    enabled: bool,
    description: Option<string>)

  /** `lastTriggered` is the millisecond timestamp of the latest false -> true transition. */
  datatype Alert = Alert(config: AlertConfig, triggered: bool, lastTriggered: Option<int>)

  datatype AlertError = NotFound(id: string) | AlreadyExists(id: string)

  /** `f64::EPSILON`, 2^-52. */
  const Epsilon: real := 1.0 / 4503599627370496.0

  function Abs(x: real): real
  {
    if x < 0.0 then -x else x
  }

  /** Whether the metric value meets the alert's condition. */
  predicate Holds(op: AlertOperator, value: real, threshold: real)
  {
    match op
    case GreaterThan => value > threshold
    case LessThan => value < threshold
    case EqualTo => Abs(value - threshold) < Epsilon
  }

  /**
   * One alert after an evaluation against `data` at time `now`. Only an
   * enabled alert whose metric is present can change, and it changes only
   * when its flag disagrees with the condition.
   */
  function Evaluate(a: Alert, data: map<string, real>, now: int): (r: Alert)
    ensures r.config == a.config
    ensures !a.config.enabled || a.config.metric !in data ==> r == a
    ensures a.config.enabled && a.config.metric in data ==>
      r.triggered == Holds(a.config.operator, data[a.config.metric], a.config.threshold)
    ensures !a.triggered && r.triggered ==> r.lastTriggered == Some(now)
    ensures a.triggered && !r.triggered ==> r.lastTriggered == a.lastTriggered
    ensures r.triggered == a.triggered ==> r == a
  {
    if !a.config.enabled || a.config.metric !in data then a
    else
      var fire := Holds(a.config.operator, data[a.config.metric], a.config.threshold);
      if fire && !a.triggered then a.(triggered := true, lastTriggered := Some(now))
      else if !fire && a.triggered then a.(triggered := false)
      else a
  }

  /** A second evaluation against the same data, at any later time, changes nothing. */
  lemma EvaluateIsIdempotent(a: Alert, data: map<string, real>, now: int, later: int)
    ensures Evaluate(Evaluate(a, data, now), data, later) == Evaluate(a, data, now)
  {
  }

  /** A fresh alert for `config`, not triggered and never triggered. */
  function NewAlert(config: AlertConfig): (a: Alert)
    ensures a.config == config && !a.triggered && a.lastTriggered.None?
  {
    Alert(config, false, None)
  }

  class AlertManager {
    var alerts: map<string, Alert>

    /** Every alert is stored under its own id. */
    ghost predicate Valid()
      reads this
    {
      forall id :: id in alerts ==> alerts[id].config.id == id
    }

    constructor ()
      ensures alerts == map[]
      ensures Valid()
    {
      alerts := map[];
    }

    method AddAlert(config: AlertConfig) returns (r: Result<(), AlertError>)
      requires Valid()
      modifies this
      ensures Valid()
      ensures config.id in old(alerts) ==> r == Err(AlreadyExists(config.id)) && alerts == old(alerts)
      ensures config.id !in old(alerts) ==> r == Ok(()) && alerts == old(alerts)[config.id := NewAlert(config)]
    {
      if config.id in alerts {
        return Err(AlreadyExists(config.id));
      }
      alerts := alerts[config.id := NewAlert(config)];
      r := Ok(());
    }

    method RemoveAlert(id: string) returns (r: Result<(), AlertError>)
      requires Valid()
      modifies this
      ensures Valid()
      ensures id !in old(alerts) ==> r == Err(NotFound(id)) && alerts == old(alerts)
      ensures id in old(alerts) ==> r == Ok(()) && alerts == old(alerts) - {id}
    {
      if id in alerts {
        alerts := alerts - {id};
        r := Ok(());
      } else {
        r := Err(NotFound(id));
      }
    }

    function GetAlert(id: string): (r: Option<Alert>)
      reads this
      ensures r.Some? <==> id in alerts
      ensures r.Some? ==> r.value == alerts[id]
      ensures Valid() && r.Some? ==> r.value.config.id == id
    {
      if id in alerts then Some(alerts[id]) else None
    }

    /** Every stored alert once, in the map's iteration order. */
    method ListAlerts() returns (list: seq<Alert>)
      requires Valid()
      ensures |list| == |alerts|
      ensures Elements(list) == alerts.Values
      ensures Distinct(list)
    {
      var ids := Enumerate(alerts);
      list := [];
      var i := 0;
      while i < |ids|
        invariant 0 <= i <= |ids|
        invariant |list| == i
        invariant forall k :: 0 <= k < i ==> list[k] == alerts[ids[k]]
      {
        list := list + [alerts[ids[i]]];
        i := i + 1;
      }
      forall j, k | 0 <= j < k < |list| ensures list[j] != list[k] {
        assert list[j].config.id == ids[j] && list[k].config.id == ids[k];
      }
      forall a | a in alerts.Values ensures a in list {
        var id :| id in alerts && alerts[id] == a;
        assert id in Elements(ids);
        var k :| 0 <= k < |ids| && ids[k] == id;
        assert list[k] == a;
      }
    }

    /** Evaluates every alert against the metric values in `data`; `now` is the clock reading. */
    method EvaluateAlerts(data: map<string, real>, now: int)
      requires Valid()
      modifies this
      ensures Valid()
      ensures alerts.Keys == old(alerts).Keys
      ensures forall id :: id in alerts ==> alerts[id] == Evaluate(old(alerts)[id], data, now)
    {
      var ids := Enumerate(alerts);
      ghost var before := alerts;
      var i := 0;
      while i < |ids|
        invariant 0 <= i <= |ids|
        invariant alerts.Keys == before.Keys
        invariant forall k :: 0 <= k < i ==> alerts[ids[k]] == Evaluate(before[ids[k]], data, now)
        invariant forall k :: i <= k < |ids| ==> alerts[ids[k]] == before[ids[k]]
      {
        var id := ids[i];
        alerts := alerts[id := Evaluate(alerts[id], data, now)];
        i := i + 1;
      }
      forall id | id in alerts ensures alerts[id] == Evaluate(before[id], data, now) {
        assert id in Elements(ids);
        var k :| 0 <= k < |ids| && ids[k] == id;
      }
    }
  }

  /** Adding one alert makes it retrievable and the only one listed. */
  method RegistryScenario() returns (added: Result<(), AlertError>, found: bool, listed: nat)
    ensures added.Ok? && found && listed == 1
  {
    var manager := new AlertManager();
    var config := AlertConfig("high_cpu", "High CPU Usage", "cpu_usage", 80.0, GreaterThan, true,
                              Some("Alert when CPU usage exceeds 80%"));
    added := manager.AddAlert(config);
    found := manager.GetAlert("high_cpu").Some?;
    var list := manager.ListAlerts();
    listed := |list|;
  }

  /** Memory at 95 percent triggers an alert on "greater than 90", stamped with the evaluation time. */
  method EvaluationScenario(now: int) returns (alert: Option<Alert>)
    ensures alert.Some? && alert.value.triggered && alert.value.lastTriggered == Some(now)
  {
    var manager := new AlertManager();
    var config := AlertConfig("high_memory", "High Memory Usage", "memory_usage_percent", 90.0, GreaterThan, true, None);
    var _ := manager.AddAlert(config);
    manager.EvaluateAlerts(map["memory_usage_percent" := 95.0], now);
    alert := manager.GetAlert("high_memory");
  }

  /** Adding an id twice is refused the second time and keeps the first configuration. */
  method DuplicateScenario(first: AlertConfig, second: AlertConfig) returns (r: Result<(), AlertError>, kept: Option<Alert>)
    requires first.id == second.id
    ensures r == Err(AlreadyExists(second.id))
    ensures kept == Some(NewAlert(first))
  {
    var manager := new AlertManager();
    var _ := manager.AddAlert(first);
    r := manager.AddAlert(second);
    kept := manager.GetAlert(first.id);
  }
}
