/** The door sensors and the door-status report (main/sensors.c). */
module Sensors {
  import opened Wrappers

  /** door_status_t. */
  datatype DoorStatus = Open | Closed | Error | Unknown

  /** Modulus of the uint64_t millisecond clock. */
  const U64: nat := 0x1_0000_0000_0000_0000
  /** Size of the payload buffer, terminator included. */
  const MessageBufferSize: nat := 50
  const MainLoopSleepMs: nat := 2000

  /** The two GPIO levels: equal and high is closed, equal and low is open,
      different is an error. Unknown is never produced. */
  function Classify(left: int, right: int): (s: DoorStatus)
    ensures s != Unknown
    ensures s == Error <==> left != right
    ensures s == Closed <==> left == right && left != 0
    ensures s == Open <==> left == right && left == 0
  {
    if left == right then (if left != 0 then Closed else Open) else Error
  }

  /** The switch at the top of publish_door_status. */
  function StatusString(s: DoorStatus): string
  {
    match s
    case Open => "OPEN"
    case Closed => "CLOSED"
    case Error => "ERROR"
    case Unknown => "UNKNOWN"
  }

  /** The four status strings are distinct, so a report names its status. */
  lemma StatusStringInjective(s: DoorStatus, t: DoorStatus)
    requires StatusString(s) == StatusString(t)
    ensures s == t
  {
  }

  /** The JSON text written into message[50]: {"door":"<status>"}. It always
      fits, terminator included, so snprintf never truncates it. */
  function Payload(s: DoorStatus): (p: string)
    ensures |p| + 1 <= MessageBufferSize
    ensures |p| == |StatusString(s)| + 11
    ensures p[..9] == "{\"door\":\"" && p[|p| - 2..] == "\"}"
    ensures p[9..|p| - 2] == StatusString(s)
  {
    "{\"door\":\"" + StatusString(s) + "\"}"
  }

  /** TRANSMIT_STATUS_INTERVAL_IN_MINUTES, which is in milliseconds. */
  function TransmitIntervalMs(intervalMinutes: nat): nat
  {
    intervalMinutes * 60 * 1000
  }

  /** The loop's publish condition: the status changed, or the uint64_t
      difference now - last publish (which wraps) reached the interval. */
  predicate PublishDue(status: DoorStatus, last: DoorStatus, nowMs: nat, lastPublishMs: nat, intervalMs: nat)
  {
    status != last || (nowMs - lastPublishMs) % U64 >= intervalMs
  }

  /** The task's bookkeeping: last_door_status and last_publish_time. */
  datatype Memory = Memory(last: DoorStatus, lastPublishMs: nat)

  const InitialMemory := Memory(Unknown, 0)

  /** What one iteration of read_sensors_task does to the bookkeeping, and the
      payload it hands to the MQTT client, if any. `loopMs` and `publishMs` are
      the two clock readings, `connected` is is_mqtt_connected. */
  datatype StepResult = StepResult(memory: Memory, sent: Option<string>)

  function Step(m: Memory, left: int, right: int, loopMs: nat, publishMs: nat, connected: bool, intervalMs: nat): StepResult
  {
    var status := Classify(left, right);
    if !PublishDue(status, m.last, loopMs, m.lastPublishMs, intervalMs) then StepResult(m, None)
    else if !connected then StepResult(Memory(status, m.lastPublishMs), None)
    else StepResult(Memory(status, publishMs), Some(Payload(status)))
  }

  /** A publish is attempted exactly when the status changed or the interval
      elapsed. An attempt always records the status, even when the client is
      disconnected and nothing is sent; the publish time moves only when the
      message is handed to the client. */
  lemma StepBookkeeping(m: Memory, left: int, right: int, loopMs: nat, publishMs: nat, connected: bool, intervalMs: nat)
    ensures var r := Step(m, left, right, loopMs, publishMs, connected, intervalMs);
      var due := PublishDue(Classify(left, right), m.last, loopMs, m.lastPublishMs, intervalMs);
      && (r.sent.Some? <==> due && connected)
      && (r.sent.Some? ==> r.sent.value == Payload(Classify(left, right)))
      && r.memory.last == (if due then Classify(left, right) else m.last)
      && r.memory.lastPublishMs == (if r.sent.Some? then publishMs else m.lastPublishMs)
  {
  }

  /** The first iteration always attempts a publish: the remembered status
      starts as Unknown and a reading is never Unknown. */
  lemma FirstStepAttemptsPublish(left: int, right: int, loopMs: nat, publishMs: nat, connected: bool, intervalMs: nat)
    ensures PublishDue(Classify(left, right), InitialMemory.last, loopMs, InitialMemory.lastPublishMs, intervalMs)
    ensures Step(InitialMemory, left, right, loopMs, publishMs, connected, intervalMs).memory.last == Classify(left, right)
    ensures connected ==> Step(InitialMemory, left, right, loopMs, publishMs, connected, intervalMs).sent.Some?
  {
  }

  /** A change observed while MQTT is disconnected is never reported as a
      change: once the connection is back, the same reading within the
      interval sends nothing. */
  lemma ChangeWhileDisconnectedIsNotResent(m: Memory, left: int, right: int, t1: nat, p1: nat, t2: nat, p2: nat, intervalMs: nat)
    requires Classify(left, right) != m.last
    requires (t2 - m.lastPublishMs) % U64 < intervalMs
    ensures Step(m, left, right, t1, p1, false, intervalMs).sent == None
    ensures var m1 := Step(m, left, right, t1, p1, false, intervalMs).memory;
      Step(m1, left, right, t2, p2, true, intervalMs).sent == None
  {
  }

  /** Before the clock has moved past the last publish time, the unsigned
      difference wraps to a huge value, so a publish is due. */
  lemma ClockBehindLastPublishWraps(status: DoorStatus, nowMs: nat, lastPublishMs: nat, intervalMs: nat)
    requires nowMs < lastPublishMs < U64 && intervalMs <= U64 - lastPublishMs
    ensures PublishDue(status, status, nowMs, lastPublishMs, intervalMs)
  {
    assert (nowMs - lastPublishMs) % U64 == nowMs - lastPublishMs + U64;
  }

  /** The globals of sensors.c, what has been handed to the MQTT client, and
      the task's delays. */
  class DoorMonitor {
    const intervalMs: nat
    var currentStatus: DoorStatus
    var lastStatus: DoorStatus
    var lastPublishMs: nat
    var sent: seq<string>
    var delays: seq<nat>

    function Bookkeeping(): Memory
      reads this
    {
      Memory(lastStatus, lastPublishMs)
    }

    constructor (intervalMinutes: nat)
      ensures intervalMs == TransmitIntervalMs(intervalMinutes)
      ensures currentStatus == Unknown && Bookkeeping() == InitialMemory && sent == [] && delays == []
    {
      intervalMs := TransmitIntervalMs(intervalMinutes);
      currentStatus, lastStatus := Unknown, Unknown;
      lastPublishMs := 0;
      sent := [];
      delays := [];
    }

    /** publish_door_status: nothing when the client is disconnected;
        otherwise the payload is handed over and the publish time updated. */
    method PublishDoorStatus(status: DoorStatus, connected: bool, publishMs: nat)
      modifies this`lastPublishMs, this`sent
      ensures !connected ==> lastPublishMs == old(lastPublishMs) && sent == old(sent)
      ensures connected ==> lastPublishMs == publishMs && sent == old(sent) + [Payload(status)]
    {
      var statusStr := StatusString(status);
      if !connected {
        return;
      }
      var message := "{\"door\":\"" + statusStr + "\"}";
      sent := sent + [message];
      lastPublishMs := publishMs;
    }

    /** One iteration of read_sensors_task, followed by its 2 s sleep. */
    method ReadSensorsStep(left: int, right: int, loopMs: nat, publishMs: nat, connected: bool)
      modifies this`currentStatus, this`lastStatus, this`lastPublishMs, this`sent, this`delays
      ensures currentStatus == Classify(left, right)
      ensures delays == old(delays) + [MainLoopSleepMs]
      ensures var r := Step(old(Bookkeeping()), left, right, loopMs, publishMs, connected, intervalMs);
        Bookkeeping() == r.memory
        && sent == old(sent) + (if r.sent.Some? then [r.sent.value] else [])
    {
      if left == right {
        currentStatus := if left != 0 then Closed else Open;
      } else {
        currentStatus := Error;
      }
      if currentStatus != lastStatus || (loopMs - lastPublishMs) % U64 >= intervalMs {
        PublishDoorStatus(currentStatus, connected, publishMs);
        lastStatus := currentStatus;
      }
      delays := delays + [MainLoopSleepMs];
    }
  }
}
