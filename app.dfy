/** The application's MQTT handlers, the OTA trigger guard and the motion to
    LED forwarding (main/main.c). */
module App {
  import opened Wrappers
  import opened Rtos

  /** A C string read past its end yields the terminating NUL. */
  function CharAt(s: string, i: nat): char
  {
    if i < |s| then s[i] else '\0'
  }

  predicate NoNul(s: string)
  {
    forall k :: 0 <= k < |s| ==> s[k] != '\0'
  }

  /** strncmp(a, b, n) == 0, from position i on: the strings agree on every
      position below n up to and including a common terminating NUL. */
  predicate StrnEqFrom(a: string, b: string, i: nat, n: nat)
    decreases n - i
  {
    i >= n || (CharAt(a, i) == CharAt(b, i) && (CharAt(a, i) == '\0' || StrnEqFrom(a, b, i + 1, n)))
  }

  predicate StrnEq(a: string, b: string, n: nat)
  {
    StrnEqFrom(a, b, 0, n)
  }

  /** From position i on, the strings agree on every position of `a`. */
  predicate AgreeFrom(a: string, b: string, i: nat)
  {
    forall j :: i <= j < |a| ==> a[j] == CharAt(b, j)
  }

  lemma {:induction false} StrnEqFromAgree(a: string, b: string, i: nat)
    requires i <= |a| && NoNul(a) && NoNul(b)
    ensures StrnEqFrom(a, b, i, |a|) <==> AgreeFrom(a, b, i)
    decreases |a| - i
  {
    if i < |a| {
      StrnEqFromAgree(a, b, i + 1);
      assert CharAt(a, i) == a[i] != '\0';
      assert AgreeFrom(a, b, i) <==> a[i] == CharAt(b, i) && AgreeFrom(a, b, i + 1);
    }
  }

  /** The topic test of custom_handle_mqtt_event_data compares only the
      incoming topic's topic_len characters, so (for topics without NUL)
      it accepts exactly the prefixes of the configured topic, not only the
      topic itself. */
  lemma TopicMatchIsPrefix(topic: string, configured: string)
    requires NoNul(topic) && NoNul(configured)
    ensures StrnEq(topic, configured, |topic|) <==> topic <= configured
  {
    StrnEqFromAgree(topic, configured, 0);
    if AgreeFrom(topic, configured, 0) && |topic| > 0 {
      var last := |topic| - 1;
      assert topic[last] == CharAt(configured, last) != '\0';
      assert topic == configured[..|topic|];
    }
    if topic <= configured {
      assert forall j :: 0 <= j < |topic| ==> topic[j] == CharAt(configured, j);
    }
  }

  /** In particular an empty topic, or a proper prefix, matches. */
  lemma PrefixTopicMatches(configured: string)
    requires NoNul(configured) && |configured| > 0
    ensures StrnEq("", configured, 0)
    ensures StrnEq(configured[..|configured| - 1], configured, |configured| - 1)
  {
    TopicMatchIsPrefix(configured[..|configured| - 1], configured);
  }

  /** eTaskState. */
  datatype TaskState = Running | Ready | Blocked | Suspended | Deleted | Invalid

  /** The OTA entry guard: with no handle, or a handle whose task is reported
      deleted, a task is created under handle `nextId`; otherwise the trigger
      is rejected and the handle kept. Returns the new handle and whether a
      task was created. */
  function OtaGuard(handle: Option<nat>, state: TaskState, nextId: nat): (r: (Option<nat>, bool))
    ensures r.1 <==> handle == None || state == Deleted
    ensures r.0 == if r.1 then Some(nextId) else handle
  {
    if handle.Some? && state != Deleted then (handle, false)
    else (Some(nextId), true)
  }

  /** A burst of OTA triggers; `states` gives what eTaskGetState reports at
      each one. Returns how many tasks were created. */
  function Burst(handle: Option<nat>, states: seq<TaskState>, nextId: nat): nat
    decreases |states|
  {
    if states == [] then 0
    else
      var g := OtaGuard(handle, states[0], nextId);
      (if g.1 then 1 else 0) + Burst(g.0, states[1..], nextId + 1)
  }

  /** While the running OTA task is never reported deleted, a burst of N
      triggers creates exactly one task (none if a task is already live):
      one accepted, N - 1 rejected. */
  lemma {:induction false} BurstCreatesAtMostOne(handle: Option<nat>, states: seq<TaskState>, nextId: nat)
    requires forall k :: 0 <= k < |states| ==> states[k] != Deleted
    ensures Burst(handle, states, nextId) == if handle == None && |states| > 0 then 1 else 0
    decreases |states|
  {
    if states != [] {
      var g := OtaGuard(handle, states[0], nextId);
      BurstCreatesAtMostOne(g.0, states[1..], nextId + 1);
    }
  }

  /** What custom_handle_mqtt_event_data did. */
  datatype DataAction = OtaRejected | OtaStarted(handle: nat) | TelemetryRequested | Ignored

  /** What the application asked of the MQTT client and the telemetry manager. */
  datatype BusOp = Subscribe(topic: string, qos: nat) | TransmitTelemetry

  /** The MQTT error categories the error handler distinguishes. */
  datatype MqttErrorType = EspTls | ConnectionRefused | OtherErrorType(code: int)

  /** The globals of main.c: the OTA task handle (with a counter standing for
      the handles xTaskCreate allocates), the client operations issued, and
      whether esp_restart ran. */
  class Application {
    const otaTopic: string
    const telemetryTopic: string
    var otaTask: Option<nat>
    var nextHandle: nat
    var busOps: seq<BusOp>
    var restarted: bool

    constructor (otaTopic: string, telemetryTopic: string)
      ensures this.otaTopic == otaTopic && this.telemetryTopic == telemetryTopic
      ensures otaTask == None && busOps == [] && !restarted
    {
      this.otaTopic := otaTopic;
      this.telemetryTopic := telemetryTopic;
      otaTask := None;
      nextHandle := 0;
      busOps := [];
      restarted := false;
    }

    /** custom_handle_mqtt_event_connected: subscribe to the OTA topic, then
        to the telemetry-request topic, both at QoS 0. */
    method HandleMqttConnected()
      modifies this`busOps
      ensures busOps == old(busOps) + [Subscribe(otaTopic, 0), Subscribe(telemetryTopic, 0)]
    {
      busOps := busOps + [Subscribe(otaTopic, 0)];
      busOps := busOps + [Subscribe(telemetryTopic, 0)];
    }

    /** custom_handle_mqtt_event_data. The OTA topic is tested first; the
        telemetry topic only if that test fails. `otaTaskState` is what
        eTaskGetState reports for the stored handle. */
    method HandleMqttData(topic: string, otaTaskState: TaskState) returns (action: DataAction)
      modifies this`otaTask, this`nextHandle, this`busOps
      ensures StrnEq(topic, otaTopic, |topic|) ==>
        var g := OtaGuard(old(otaTask), otaTaskState, old(nextHandle));
        && otaTask == g.0 && busOps == old(busOps)
        && action == (if g.1 then OtaStarted(old(nextHandle)) else OtaRejected)
      ensures !StrnEq(topic, otaTopic, |topic|) ==> otaTask == old(otaTask)
      ensures !StrnEq(topic, otaTopic, |topic|) && StrnEq(topic, telemetryTopic, |topic|) ==>
        action == TelemetryRequested && busOps == old(busOps) + [TransmitTelemetry]
      ensures !StrnEq(topic, otaTopic, |topic|) && !StrnEq(topic, telemetryTopic, |topic|) ==>
        action == Ignored && busOps == old(busOps)
    {
      if StrnEq(topic, otaTopic, |topic|) {
        if otaTask != None {
          if otaTaskState != Deleted {
            return OtaRejected;
          }
          otaTask := None;
        }
        otaTask := Some(nextHandle);
        action := OtaStarted(nextHandle);
        nextHandle := nextHandle + 1;
      } else if StrnEq(topic, telemetryTopic, |topic|) {
        busOps := busOps + [TransmitTelemetry];
        action := TelemetryRequested;
      } else {
        action := Ignored;
      }
    }

    /** custom_handle_mqtt_event_error: whatever the error type, restart. */
    method HandleMqttError(errorType: MqttErrorType)
      modifies this`restarted
      ensures restarted
    {
      match errorType {
        case EspTls =>
        case ConnectionRefused =>
        case OtherErrorType(_) =>
      }
      restarted := true;
    }
  }

  /** motion_event_t and led_event_t. */
  datatype MotionEvent = MotionEvent(motionDetected: int)
  datatype LedEvent = LedEvent(ledAction: int)

  /** The parameters handed to the forwarding task. */
  datatype MotionLedParams = MotionLedParams(motionQueue: Queue<MotionEvent>, ledQueue: Queue<LedEvent>)

  /** One iteration of pass_motion_to_led_task: take the oldest motion event
      (an empty queue blocks the task and nothing happens), copy its value
      into an LED event and send it without waiting, so it is dropped when the
      LED queue is full. Returns the event taken, whether it was sent, and the
      delay that follows. */
  method PassMotionStep(params: MotionLedParams) returns (taken: Option<MotionEvent>, sent: bool, delayMs: nat)
    requires params.motionQueue.Valid() && params.ledQueue.Valid()
    modifies params.motionQueue, params.ledQueue
    ensures params.motionQueue.Valid() && params.ledQueue.Valid()
    ensures old(params.motionQueue.items) == [] ==>
      taken == None && !sent && delayMs == 0
      && params.motionQueue.items == [] && params.ledQueue.items == old(params.ledQueue.items)
    ensures old(params.motionQueue.items) != [] ==>
      && taken == Some(old(params.motionQueue.items)[0])
      && params.motionQueue.items == old(params.motionQueue.items)[1..]
      && delayMs == 100
      && (sent <==> |old(params.ledQueue.items)| < params.ledQueue.capacity)
      && params.ledQueue.items == old(params.ledQueue.items) +
           (if sent then [LedEvent(taken.value.motionDetected)] else [])
  {
    sent := false;
    delayMs := 0;
    taken := params.motionQueue.TryReceive();
    if taken.Some? {
      sent := params.ledQueue.TrySend(LedEvent(taken.value.motionDetected));
      delayMs := 100;
    }
  }

  /** associate_led_with_motion: the forwarding task is created, with both
      queues as parameters, only when both queues exist and the parameter
      block could be allocated. */
  method AssociateLedWithMotion(motionQueue: Queue?<MotionEvent>, ledQueue: Queue?<LedEvent>, allocOk: bool)
    returns (task: Option<MotionLedParams>)
    ensures task.Some? <==> motionQueue != null && ledQueue != null && allocOk
    ensures task.Some? ==> task.value.motionQueue == motionQueue && task.value.ledQueue == ledQueue
  {
    if motionQueue == null || ledQueue == null {
      return None;
    }
    if !allocOk {
      return None;
    }
    task := Some(MotionLedParams(motionQueue, ledQueue));
  }
}
