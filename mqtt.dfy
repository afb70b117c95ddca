/** The MQTT session flags, the logging-task guard and the client start-up
    retry loop (main/mqtt.c). */
module Mqtt {
  import opened Wrappers

  /** esp_mqtt_client_start is tried at most this many times... */
  const MaxStartRetries: nat := 5
  /** ...with this delay after each failure. */
  const StartRetryDelayMs: nat := 5000

  datatype MqttEvent = Connected | Disconnected | Subscribed | Unsubscribed | Published | Data | Error | OtherEvent

  /** mqtt_setup_complete, is_mqtt_connected, mqtt_message_received, whether
      logging_task_handle is set, and how many logging tasks were created. */
  datatype Flags = Flags(setupComplete: bool, isConnected: bool, messageReceived: bool,
                         loggingTaskSet: bool, loggingTasksCreated: nat)

  const InitialFlags := Flags(false, false, false, false, 0)

  /** mqtt_event_handler for one event. */
  function Handle(f: Flags, ev: MqttEvent): Flags
  {
    match ev
    case Connected =>
      var f' := f.(setupComplete := true, isConnected := true);
      if !f.loggingTaskSet then f'.(loggingTaskSet := true, loggingTasksCreated := f.loggingTasksCreated + 1)
      else f'
    case Disconnected => f.(isConnected := false)
    case Data => f.(messageReceived := true)
    case _ => f
  }

  function Run(f: Flags, evs: seq<MqttEvent>): Flags
    decreases |evs|
  {
    if evs == [] then f else Run(Handle(f, evs[0]), evs[1..])
  }

  /** CONNECTED sets both connection flags; DISCONNECTED clears only
      is_mqtt_connected; DATA sets mqtt_message_received; the other events
      change nothing. */
  lemma HandleFlags(f: Flags, ev: MqttEvent)
    ensures ev == Connected ==> Handle(f, ev).setupComplete && Handle(f, ev).isConnected
    ensures ev == Disconnected ==>
      !Handle(f, ev).isConnected && Handle(f, ev).setupComplete == f.setupComplete
      && Handle(f, ev).messageReceived == f.messageReceived
    ensures ev == Data ==> Handle(f, ev).messageReceived && Handle(f, ev).isConnected == f.isConnected
    ensures ev !in {Connected, Disconnected, Data} ==> Handle(f, ev) == f
  {
  }

  /** Once setup has completed it stays complete, whatever follows. */
  lemma {:induction false} SetupStaysComplete(f: Flags, evs: seq<MqttEvent>)
    requires f.setupComplete
    ensures Run(f, evs).setupComplete
    decreases |evs|
  {
    if evs != [] {
      SetupStaysComplete(Handle(f, evs[0]), evs[1..]);
    }
  }

  /** However many CONNECTED events arrive, at most one logging task is ever
      created, and exactly one once any CONNECTED has been seen. */
  lemma {:induction false} AtMostOneLoggingTask(f: Flags, evs: seq<MqttEvent>)
    requires f.loggingTasksCreated == (if f.loggingTaskSet then 1 else 0)
    ensures Run(f, evs).loggingTasksCreated == (if Run(f, evs).loggingTaskSet then 1 else 0)
    ensures Connected in evs ==> Run(f, evs).loggingTaskSet
    ensures f.loggingTaskSet ==> Run(f, evs).loggingTaskSet
    decreases |evs|
  {
    if evs != [] {
      AtMostOneLoggingTask(Handle(f, evs[0]), evs[1..]);
      if evs[0] != Connected {
        assert Connected in evs ==> Connected in evs[1..];
      }
    }
  }

  /** The do-while loop of mqtt_app_start: `startOk(k)` is whether the k-th
      call of esp_mqtt_client_start returns ESP_OK. It stops at the first
      success or after five failures, and waits 5 s after every failure,
      the last one included. */
  method StartWithRetries(startOk: nat -> bool) returns (calls: nat, started: bool, waits: seq<nat>)
    ensures 1 <= calls <= MaxStartRetries
    ensures forall k :: 0 <= k < calls - 1 ==> !startOk(k)
    ensures started <==> startOk(calls - 1)
    ensures !started ==> calls == MaxStartRetries
    ensures started <==> exists k :: 0 <= k < MaxStartRetries && startOk(k)
    ensures waits == seq(if started then calls - 1 else calls, _ => StartRetryDelayMs)
  {
    var retryCount := 0;
    started := false;
    calls := 0;
    waits := [];
    while !started && retryCount < MaxStartRetries
      invariant retryCount <= MaxStartRetries
      invariant calls == retryCount + (if started then 1 else 0)
      invariant forall k :: 0 <= k < retryCount ==> !startOk(k)
      invariant started ==> retryCount < MaxStartRetries && startOk(retryCount)
      invariant waits == seq(retryCount, _ => StartRetryDelayMs)
      decreases MaxStartRetries - retryCount, if started then 0 else 1
    {
      started := startOk(calls);
      calls := calls + 1;
      if !started {
        waits := waits + [StartRetryDelayMs];
        retryCount := retryCount + 1;
      }
    }
  }

  /** The globals of mqtt.c. Task and client handles are numbers standing
      for the objects the RTOS and the MQTT library allocate. */
  class Session {
    var setupComplete: bool
    var isConnected: bool
    var messageReceived: bool
    var loggingTask: Option<nat>
    var loggingTasksCreated: nat
    var clientHandle: Option<nat>
    var startCalls: nat
    var delays: seq<nat>

    function Snapshot(): Flags
      reads this
    {
      Flags(setupComplete, isConnected, messageReceived, loggingTask.Some?, loggingTasksCreated)
    }

    constructor ()
      ensures Snapshot() == InitialFlags && clientHandle == None && startCalls == 0 && delays == []
    {
      setupComplete, isConnected, messageReceived := false, false, false;
      loggingTask := None;
      loggingTasksCreated := 0;
      clientHandle := None;
      startCalls := 0;
      delays := [];
    }

    /** mqtt_event_handler; `newTask` is the handle xTaskCreate hands out
        if a logging task is created. */
    method EventHandler(ev: MqttEvent, newTask: nat)
      modifies this`setupComplete, this`isConnected, this`messageReceived, this`loggingTask, this`loggingTasksCreated
      ensures Snapshot() == Handle(old(Snapshot()), ev)
      ensures old(loggingTask).Some? ==> loggingTask == old(loggingTask)
      ensures old(loggingTask).None? && ev == Connected ==> loggingTask == Some(newTask)
    {
      match ev {
        case Connected =>
          setupComplete := true;
          isConnected := true;
          if loggingTask == None {
            loggingTask := Some(newTask);
            loggingTasksCreated := loggingTasksCreated + 1;
          }
        case Disconnected =>
          isConnected := false;
        case Data =>
          messageReceived := true;
        case _ =>
      }
    }

    /** mqtt_app_start: `client` is what esp_mqtt_client_init returned. On
        NULL nothing more happens; otherwise the handle is stored and the
        start loop runs. */
    method AppStart(client: Option<nat>, startOk: nat -> bool) returns (started: bool)
      modifies this`clientHandle, this`startCalls, this`delays
      ensures client == None ==>
        !started && clientHandle == old(clientHandle) && startCalls == old(startCalls) && delays == old(delays)
      ensures client != None ==>
        var n := startCalls - old(startCalls);
        && clientHandle == client
        && 1 <= n <= MaxStartRetries
        && (forall k :: 0 <= k < n - 1 ==> !startOk(k))
        && (started <==> startOk(n - 1))
        && (!started ==> n == MaxStartRetries)
        && delays == old(delays) + seq(if started then n - 1 else n, _ => StartRetryDelayMs)
      ensures started <==> client != None && exists k :: 0 <= k < MaxStartRetries && startOk(k)
    {
      if client == None {
        return false;
      }
      clientHandle := client;
      var calls, waits;
      calls, started, waits := StartWithRetries(startOk);
      startCalls := startCalls + calls;
      delays := delays + waits;
    }

    /** mqtt_client_is_connected. */
    method ClientIsConnected() returns (connected: bool)
      ensures connected == isConnected
    {
      connected := isConnected;
    }
  }
}
