/** Log capture (main/logging.c): every formatted log line is copied into a
    fixed 1024-character message, queued, and published by the logging task
    under the key "COOP_CONTROLLER" while an MQTT client is known. */
module Logging {
  import opened Wrappers
  import opened Rtos

  const MqttHost: string := "COOP_CONTROLLER"
  const LogQueueSize: nat := 10
  const LogMessageMaxLength: nat := 1024

  /** The C string a character buffer holds: everything before its first NUL. */
  function CString(s: string): (r: string)
    ensures r <= s && '\0' !in r
    ensures |r| < |s| ==> s[|r|] == '\0'
    decreases |s|
  {
    if s == [] || s[0] == '\0' then [] else [s[0]] + CString(s[1..])
  }

  /** A NUL-free string followed by nothing or by a NUL reads back unchanged. */
  lemma {:induction false} CStringTerminated(c: string, rest: string)
    requires '\0' !in c
    requires rest == [] || rest[0] == '\0'
    ensures CString(c + rest) == c
    decreases |c|
  {
    if c != [] {
      assert (c + rest)[0] == c[0];
      assert (c + rest)[1..] == c[1..] + rest;
      CStringTerminated(c[1..], rest);
    } else {
      assert c + rest == rest;
    }
  }

  /** `s` followed by NULs up to length n, as strncpy leaves its target. */
  function Padded(s: string, n: nat): (r: string)
    requires |s| <= n
    ensures |r| == n && r[..|s|] == s
    ensures forall k :: |s| <= k < n ==> r[k] == '\0'
  {
    s + seq(n - |s|, _ => '\0')
  }

  /** What vsnprintf leaves in the 1024-character buffer, read as a C string:
      at most the first 1023 characters of the formatted text. */
  function Truncated(formatted: string): (r: string)
    ensures r <= formatted
    ensures |r| == if |formatted| < LogMessageMaxLength then |formatted| else LogMessageMaxLength - 1
  {
    if |formatted| < LogMessageMaxLength then formatted else formatted[..LogMessageMaxLength - 1]
  }

  /** log_message_t.message built by mqtt_vprintf: the buffer's C string
      copied by strncpy into the first 1023 characters (NUL padded), and a NUL
      forced at index 1023. */
  function LogMessage(formatted: string): (m: string)
    ensures |m| == LogMessageMaxLength
    ensures m[LogMessageMaxLength - 1] == '\0'
    ensures forall k :: |CString(Truncated(formatted))| <= k < LogMessageMaxLength ==> m[k] == '\0'
  {
    Padded(CString(Truncated(formatted)), LogMessageMaxLength - 1) + ['\0']
  }

  /** The queued message reads back as the text vsnprintf kept; for a line
      without NUL that is the whole line up to 1023 characters and its first
      1023 characters beyond. */
  lemma {:induction false} LogMessageText(formatted: string)
    ensures CString(LogMessage(formatted)) == CString(Truncated(formatted))
    ensures '\0' !in formatted && |formatted| < LogMessageMaxLength ==>
      CString(LogMessage(formatted)) == formatted
    ensures '\0' !in formatted && |formatted| >= LogMessageMaxLength ==>
      CString(LogMessage(formatted)) == formatted[..LogMessageMaxLength - 1]
  {
    var text := CString(Truncated(formatted));
    var m := LogMessage(formatted);
    assert m[..|text|] == text;
    assert m == text + m[|text|..];
    CStringTerminated(text, m[|text|..]);
    if '\0' !in formatted {
      var t := Truncated(formatted);
      assert '\0' !in t;
      CStringTerminated(t, []);
      assert t + [] == t;
    }
  }

  /** The JSON object published for one message: a single key and value. */
  datatype LogRecord = LogRecord(key: string, value: string)

  /** The outcome of mqtt_vprintf's enqueue: nothing to queue (len <= 0),
      queued, or the caller left waiting on a full queue. */
  datatype SendStatus = NotQueued | Queued | Blocked

  /** The state of logging_task and mqtt_vprintf: the log queue, the MQTT
      client the task was started with, what was published, and what was
      echoed to the UART. */
  class Logger {
    const queue: Queue<string>
    const client: Option<nat>
    var published: seq<LogRecord>
    var uart: seq<string>

    ghost predicate Valid()
      reads this, queue
    {
      queue.Valid() && queue.capacity == LogQueueSize
    }

    /** logging_task's set-up once its queue has been created: mqtt_vprintf
        is installed as the log hook, and the "Custom logging initialized"
        line, formatted as `initLine`, is at once logged through it. */
    constructor (client: Option<nat>, initLine: string)
      ensures Valid() && fresh(queue)
      ensures this.client == client && published == []
      ensures queue.items == (if initLine != [] then [LogMessage(initLine)] else [])
      ensures uart == [initLine]
    {
      queue := new Queue(LogQueueSize);
      this.client := client;
      published := [];
      uart := [];
      new;
      var _ := Vprintf(Some(initLine));
    }

    /** mqtt_vprintf. `formatted` is the text vsnprintf produces, None for an
        encoding error (a negative length). A non-empty line is queued as
        LogMessage; every line is echoed to the UART. */
    method Vprintf(formatted: Option<string>) returns (status: SendStatus)
      requires Valid()
      modifies queue, this`uart
      ensures Valid()
      ensures (formatted == None || formatted == Some([])) ==>
        status == NotQueued && queue.items == old(queue.items)
      ensures formatted.Some? && formatted.value != [] ==>
        && (status == Queued <==> |old(queue.items)| < LogQueueSize)
        && (status != Queued ==> status == Blocked)
        && queue.items == old(queue.items) + (if status == Queued then [LogMessage(formatted.value)] else [])
      ensures uart == old(uart) + (if formatted.Some? then [formatted.value] else [])
    {
      status := NotQueued;
      if formatted.Some? && |formatted.value| > 0 {
        var sent := queue.TrySend(LogMessage(formatted.value));
        status := if sent then Queued else Blocked;
      }
      if formatted.Some? {
        uart := uart + [formatted.value];
      }
    }

    /** One iteration of logging_task's loop: take the oldest message (none:
        the task stays blocked) and publish it, keyed by MqttHost, when a
        client is known. */
    method LoggingTaskStep() returns (taken: Option<string>)
      requires Valid()
      modifies queue, this`published
      ensures Valid()
      ensures old(queue.items) == [] ==> taken == None && queue.items == [] && published == old(published)
      ensures old(queue.items) != [] ==>
        && taken == Some(old(queue.items)[0])
        && queue.items == old(queue.items)[1..]
        && published == old(published) +
             (if client.Some? then [LogRecord(MqttHost, CString(taken.value))] else [])
    {
      taken := queue.TryReceive();
      if taken.Some? && client.Some? {
        published := published + [LogRecord(MqttHost, CString(taken.value))];
      }
    }
  }

  /** The start of logging_task: without a queue the task ends and nothing
      is logged remotely; with one, the set-up line is the first message. */
  method StartLogging(queueCreated: bool, client: Option<nat>, initLine: string) returns (logger: Logger?)
    ensures logger != null <==> queueCreated
    ensures logger != null ==>
      && fresh(logger) && logger.Valid() && logger.client == client
      && logger.queue.items == (if initLine != [] then [LogMessage(initLine)] else [])
      && logger.uart == [initLine] && logger.published == []
  {
    if !queueCreated {
      return null;
    }
    logger := new Logger(client, initLine);
  }
}
