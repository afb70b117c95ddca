# ESP32 indicator, door-sensor and update controller — Dafny model

This project models the decision logic of an ESP-IDF firmware. The firmware
drives a tri-colour status LED and an addressable LED strip, reports a door's
state over MQTT and downloads firmware updates over HTTPS. It also keeps the
Wi-Fi and MQTT sessions alive and copies its log lines to the broker.

One Dafny module stands for each C file:

| module | C file | what it holds |
|---|---|---|
| `Led` | main/led.c, main/led.h | the `led_state_t` enumeration, duty scaling, the flash and pulsate traces, and the `Indicator` class (the shared `current_led_state` and every PWM write and delay) |
| `StateHandler` | main/state_handler.c | the command-string lookup and the store into the shared state |
| `LedHandler` | main/led_handler.c | the 10-pixel strip buffer as an `array`, and the event step |
| `Sensors` | main/sensors.c | door classification, the payload, the publish rule, and the `DoorMonitor` class over the file's globals |
| `Ota` | main/ota.c | the download loop, first as a recursive specification, then as a method with a `while` loop proved against it; also the finish and restart decision and the hh:mm:ss split |
| `Wifi` | main/wifi.c | the reconnect and back-off handler, as a function on states and as the `Station` class |
| `Mqtt` | main/mqtt.c | the session flags, the logging-task guard and the client start retry loop |
| `App` | main/main.c | the topic comparison as C `strncmp`, the OTA trigger guard, the subscriptions, the restart on error, and motion-to-LED forwarding |
| `Logging` | main/logging.c | truncation of a log line into a 1024-character message, and the queue and publish steps |

Two support modules complete the project:

- `Wrappers` holds `Option`.
- `Rtos` holds a bounded FIFO `Queue` class for FreeRTOS queues. A blocking call that would wait is reported to its caller instead.

External calls are inputs to the model:

- sensor levels;
- the result sequence of `esp_https_ota_perform`;
- Wi-Fi and MQTT events;
- the task state that `eTaskGetState` reports;
- the results of `esp_mqtt_client_start`;
- clock readings.

Outputs are traces:

- PWM duty writes and delays;
- strip operations;
- Wi-Fi actions;
- MQTT subscriptions and publishes;
- the UART echo.

`esp_restart` is a terminal flag or verdict.

A few facts about the firmware shape the model:

- The render loop reads the shared state once per cycle, and a running animation always finishes.
- The motion interrupt only logs. Nothing debounces it.
- A full LED queue drops the forwarded event, and nothing counts the loss.
- Nothing records a post-update boot.

## Model

| member | source | states |
|---|---|---|
| Led.FromCode | main/led.h:16-29 | a stored value names an enumerator exactly when it lies in 0..11, and that enumerator's value is the stored value |
| Led.CodeRoundTrip | main/led.h:16-29 | storing any state and reading it back yields the same state |
| Led.ScaleBounds | main/led.c:59-72 | for duty in [0, 8191], `(c*duty)/8191` is at most c, is 0 when c is 0, and equals c at full duty |
| Led.ScaleMonotone | main/led.c:65 | a larger duty never gives a dimmer channel |
| Led.ScaleNoWrap | main/led.c:65 | for 13-bit colours and duties the uint32_t product `c*duty` does not wrap |
| Led.RampDuties | main/led.c:64-73 | each ramp visits 164 duties; the rising ramp goes 0 … 8150 and never reaches 8191; the falling ramp goes 8191 … 41 and never reaches 0 |
| Led.PulseAt | main/led.c:58-74 | a pulsate trace has 656 entries; even entries write the colour scaled by the rising, then the falling, duty; odd entries wait 40 ms |
| Led.PulseWritesBounded | main/led.c:59-72 | every pulsate write is at most the colour, channel by channel, and a channel that is off in the colour stays off |
| Led.PulseMonotone | main/led.c:64-73 | brightness never decreases along the rising ramp and never increases along the falling ramp |
| Led.StaticStatesWriteOnce | main/led.c:78-119 | OFF, RED, GREEN and BLUE write their colour once, and an out-of-range value writes black once; every cycle then waits 100 ms |
| Led.FlashWritesTwice | main/led.c:51-56 | a flash writes exactly two colours: the colour, then black |
| Led.FlashCycleWritesTwice | main/led.c:91-119 | a whole flashing cycle, its closing delay included, writes the colour, then black, and nothing else |
| Led.CycleWritesInRange | main/led.c:76-121 | every value any cycle writes to any channel is a 13-bit duty |
| Led.Indicator.constructor | main/led.c:5 | the shared state starts as LED_OFF and nothing has been written |
| Led.Indicator.SetLedColor | main/led.c:39-49 | one write of all three channels is appended to the trace |
| Led.Indicator.FlashLedColor | main/led.c:51-56 | the trace grows by colour, 500 ms, black, 500 ms |
| Led.Indicator.PulsateLedColor | main/led.c:58-74 | the two `for` loops append exactly the rising ramp and then the falling ramp |
| Led.Indicator.Render | main/led.c:78-119 | the switch on a value already read, including the `default` arm, appends that value's cycle trace |
| Led.Indicator.RenderCycle | main/led.c:76-121 | one loop iteration renders the state as read at the top, and leaves the state alone |
| StateHandler.LookupLedState | main/state_handler.c:13-29 | the result's name is exactly the input, or no state has that name and the result is LED_OFF |
| StateHandler.NameInjective | main/state_handler.c:14-25 | the 12 accepted names belong to 12 distinct states |
| StateHandler.LookupRoundTrip | main/state_handler.c:13-25 | every state's name looks up to that state |
| StateHandler.LookupUnknownIsOff | main/state_handler.c:27-28 | any string that is not an accepted name gives LED_OFF |
| StateHandler.LookupIsExact | main/state_handler.c:14-25 | matching is exact and case-sensitive: "led_red", "LED_RED ", "LED_RE" and "" give LED_OFF |
| StateHandler.SetLedColorBasedOnState | main/state_handler.c:31-36 | the shared state becomes the lookup's result; nothing is written to the LED |
| StateHandler.CommandDuringCycle | main/led.c:76-121 | a command stored after a cycle has read the state does not change that cycle's output; it is rendered from the next cycle on |
| LedHandler.AllRed | main/led_handler.c:49-51 | the LED_ON frame is 10 pixels, all (255, 0, 0) |
| LedHandler.LedHandler.Init | main/led_handler.c:35-41 | a dark 10-pixel strip and an empty event queue of capacity 10 |
| LedHandler.LedHandler.SetPixel | main/led_handler.c:50 | a write inside the strip changes exactly that pixel; a write outside it is rejected and changes nothing |
| LedHandler.LedHandler.ClearStrip | main/led_handler.c:56 | every pixel becomes dark and a clear is sent |
| LedHandler.LedHandler.HandleNextEvent | main/led_handler.c:43-60 | the oldest event is taken; LED_ON shows ten red pixels, waits 1 s and clears the strip; any other event, or none, leaves pixels and strip operations untouched |
| Sensors.Classify | main/sensors.c:78-83 | equal readings give CLOSED when high and OPEN when low; different readings give ERROR; UNKNOWN is never produced |
| Sensors.StatusStringInjective | main/sensors.c:40-54 | the four status strings are distinct |
| Sensors.Payload | main/sensors.c:62-63 | the payload is `{"door":"<status>"}` and fits the 50-byte buffer with its terminator |
| Sensors.StepBookkeeping | main/sensors.c:85-90 | a publish is attempted exactly on a status change or an elapsed interval; an attempt records the status even when disconnected; the publish time moves only when the payload is handed to the client |
| Sensors.FirstStepAttemptsPublish | main/sensors.c:22-25 | the first iteration always attempts a publish, since UNKNOWN is never a reading |
| Sensors.ChangeWhileDisconnectedIsNotResent | main/sensors.c:56-89 | a change observed while disconnected is recorded, so after reconnection the same reading within the interval sends nothing |
| Sensors.ClockBehindLastPublishWraps | main/sensors.c:85-87 | if the clock is behind the last publish time, the uint64_t difference wraps and a publish is due |
| Sensors.DoorMonitor.constructor | main/sensors.c:15-25 | both statuses start UNKNOWN, the publish time starts at 0, and the interval is minutes × 60 × 1000 |
| Sensors.DoorMonitor.PublishDoorStatus | main/sensors.c:39-69 | disconnected: nothing is sent or recorded; connected: the payload is sent and the publish time set |
| Sensors.DoorMonitor.ReadSensorsStep | main/sensors.c:71-94 | one iteration leaves the globals and the sent messages as the step specification gives them, then sleeps 2000 ms |
| Ota.PerformLoopMeaning | main/ota.c:37-56 | from any consistent point, the loop's counters agree with the results consumed, and it stops only on ESP_OK, on the sixth error, or when the results run out |
| Ota.LoopFromStart | main/ota.c:34-56 | from zero counters, `retries` counts the errors and `loop_count` the in-progress results; progress is logged exactly at 0, 100, 200, …; an abort happens exactly when `retries` reaches 6 |
| Ota.SixthErrorAborts | main/ota.c:44-49 | six errors abort after exactly six calls; five are tolerated |
| Ota.ProgressThenDoneCompletes | main/ota.c:38-53 | any number of in-progress results followed by ESP_OK completes with no retry used |
| Ota.SplitDuration | main/ota.c:64-67 | for a non-negative duration, hours·3600 + minutes·60 + seconds is the duration, with minutes and seconds below 60 |
| Ota.OtaTask | main/ota.c:13-79 | a failed begin calls nothing else; otherwise the loop runs as specified, with a 1000 ms delay after each call that does not leave it; finish runs only if the loop left and the data is complete; incomplete data, a failed finish and a successful finish (restart, with the hh:mm:ss split of the duration) each give their own verdict |
| Wifi.BackoffDoubles | main/wifi.c:28-30 | each reconnect wait is twice the previous one |
| Wifi.RetryBounded | main/wifi.c:27-32 | `s_retry_num` never exceeds MAX_RETRY, whatever the events |
| Wifi.HandleCases | main/wifi.c:22-46 | below the cap, a disconnect waits 2^n s, connects and counts the attempt; at the cap it sets FAIL and restarts without connecting; STA_START connects once; GOT_IP resets the counter, sets CONNECTED, and is the only event that lowers it |
| Wifi.OutageBackoff | main/wifi.c:26-33 | k disconnects within the cap give waits 2^r, 2^(r+1), … seconds, each followed by a connect |
| Wifi.OutageEndsInRestart | main/wifi.c:26-38 | from a fresh counter, MAX_RETRY disconnects are retried with waits of 1, 2, 4, … seconds, and the next one restarts the device |
| Wifi.InitOutcome | main/wifi.c:110-118 | the result is connected if the CONNECTED bit is set, otherwise failed if the FAIL bit is set |
| Wifi.Station.constructor | main/wifi.c:15-20 | the counter is 0 and neither bit is set |
| Wifi.Station.EventHandler | main/wifi.c:22-46 | the handler changes the state and emits actions as the transition function gives them, and keeps the counter within the cap |
| Mqtt.HandleFlags | main/mqtt.c:40-85 | CONNECTED sets both connection flags; DISCONNECTED clears only `is_mqtt_connected`; DATA sets `mqtt_message_received`; other events change nothing |
| Mqtt.SetupStaysComplete | main/mqtt.c:42-57 | once setup has completed it stays complete, whatever follows |
| Mqtt.AtMostOneLoggingTask | main/mqtt.c:47-51 | however many CONNECTED events arrive, at most one logging task is created, and exactly one once any CONNECTED has been seen |
| Mqtt.StartWithRetries | main/mqtt.c:134-154 | start is called 1 to 5 times, stopping at the first success; it fails only after five failures; a 5 s wait follows each failure |
| Mqtt.Session.constructor | main/mqtt.c:14-33 | all flags are false and no handles are set |
| Mqtt.Session.EventHandler | main/mqtt.c:35-86 | the flags follow the flag function; a logging task is created only when no handle is stored |
| Mqtt.Session.AppStart | main/mqtt.c:124-155 | a NULL client leaves the handle unassigned and start untried; otherwise the handle is stored, start is called 1 to 5 times and stops at the first success, a 5000 ms delay follows each failure, and the client starts iff one of the first five attempts succeeds |
| Mqtt.Session.ClientIsConnected | main/mqtt.c:171-173 | returns the current `is_mqtt_connected` |
| App.TopicMatchIsPrefix | main/main.c:68 | for strings without NUL, comparing only `topic_len` characters accepts exactly the prefixes of the configured topic |
| App.PrefixTopicMatches | main/main.c:68-83 | an empty topic and a truncated topic both match the configured one |
| App.OtaGuard | main/main.c:70-81 | a task is created exactly when there is no handle or the stored task is deleted; otherwise the handle is kept |
| App.BurstCreatesAtMostOne | main/main.c:70-81 | while the OTA task is never reported deleted, any burst of triggers creates at most one task, and none if one was already live |
| App.Application.constructor | main/main.c:32 | no OTA handle, no client operations, no restart |
| App.Application.HandleMqttConnected | main/main.c:51-60 | subscribes to the OTA topic and then the telemetry topic, both at QoS 0, and nothing else |
| App.Application.HandleMqttData | main/main.c:66-87 | the OTA topic is tested first, through the guard; telemetry is requested only if the OTA test fails and the telemetry test matches; otherwise nothing happens |
| App.Application.HandleMqttError | main/main.c:89-102 | every error category ends in a restart |
| App.PassMotionStep | main/main.c:140-153 | the oldest motion event is copied unchanged into an LED event and sent without waiting, so it is dropped when the LED queue is full; a 100 ms delay follows |
| App.AssociateLedWithMotion | main/main.c:155-176 | the forwarding task is created, with both queues, exactly when both queues exist and the parameter block could be allocated |
| Logging.CString | main/logging.c:33 | the C string read from a buffer is its longest NUL-free prefix |
| Logging.Truncated | main/logging.c:29 | the 1024-byte buffer keeps the first min(len, 1023) characters of the formatted text |
| Logging.LogMessage | main/logging.c:32-34 | the message is 1024 characters long, NUL-padded after its text, with a NUL at index 1023 |
| Logging.LogMessageText | main/logging.c:29-34 | the message reads back as the kept text: a NUL-free line is whole up to 1023 characters, and cut to its first 1023 beyond |
| Logging.Logger.constructor | main/logging.c:45-53 | a queue of capacity 10 and the client the task was given; the set-up line, logged through the newly installed hook, is the only message queued and the only line echoed |
| Logging.Logger.Vprintf | main/logging.c:27-41 | only a line of positive length is queued, as its log message, at the back; a full queue leaves the caller waiting; every line is echoed to the UART |
| Logging.Logger.LoggingTaskStep | main/logging.c:54-64 | the oldest message is taken, FIFO; it is published under the key "COOP_CONTROLLER" only when a client is known |
| Logging.StartLogging | main/logging.c:43-53 | without a queue the task ends and there is no logger; otherwise the logger holds only the set-up line and has published nothing |

## Left out

- Concurrency is not modelled. This covers task scheduling, the race on `volatile current_led_state`, and the timing of `vTaskDelay`. Each task is modelled one step at a time, and delays are trace entries.
- The `ESP_LOG*` calls of the modelled code are not modelled as Logging.Logger.Vprintf calls. Once `logging_task` has installed `mqtt_vprintf` (main/logging.c:50), each of them would also queue a message. The only exception is the set-up line, which Logging.Logger.constructor does model.
- Queue calls that block are not modelled as waiting. A receive from an empty queue returns nothing. A send to a full queue with `portMAX_DELAY` is reported as `Blocked`.
- The ESP-IDF drivers and stacks are inputs or outputs only: LEDC, RMT, GPIO, esp_wifi and netif, esp_mqtt_client, esp_https_ota, NVS and the event loop.
- Hardware initialisation is not modelled: `init_led_pwm`, the strip configuration, `init_sensors_gpio` and the Wi-Fi set-up calls of `wifi_init_sta`.
- main/insights.c, main/led_strip.c, main/motion_sensor.c and main/time_sync.c are not part of this model. They are driver or vendor plumbing. The motion interrupt only logs, so it has no debounce to model.
- The `#if 0` blocks of main/main.c are not modelled, because they are dead code.
- `app_main`, `start_logging`, `setup_nvs_flash` and `start_mqtt` are not modelled. They are start-up sequencing of the calls above.
- The gecl-* managers (OTA handler, telemetry, heartbeat, motion sensor, logger) are not part of this model, because their sources are not available. `transmit_telemetry` is a trace entry.
- JSON building and escaping by cJSON is not modelled. A published log is a key-value record, and the door payload is the literal text.
- Format semantics of `vsnprintf` are left out. The formatted text is an input, and an encoding error is `None`.
- The reuse of one `va_list` by both `vsnprintf` and `vprintf` in main/logging.c is not modelled. The echo is the formatted text.
- Certificates and the random client id are not modelled.
- Wifi.Station.EventHandler models the handler while it is registered. wifi_init_sta unregisters it before returning (main/wifi.c:120-121), so later Wi-Fi events reach no handler in the source. The model does not capture that removal.
- Wifi.Station.constructor takes MAX_RETRY as a parameter, because its value is not defined in the available sources.
- Wifi.HandleCases does not model overflow of `1 << s_retry_num` or of `wait_time * 1000` in `int`. It assumes MAX_RETRY is small enough that neither overflows.
- Sensors.DoorMonitor.constructor does not model `int` overflow of `CONFIG_STATUS_TRANSMIT_INTERVAL * 60 * 1000`. The interval is computed without bounds.
- Ota.OtaTask does not model truncation of `duration_us / 1000000` to a 32-bit `int`. It models C's truncating division only.
- Ota.OtaTask models a finite result sequence. When the results run out before the loop stops, the model reports `StillDownloading`, while the source would keep calling perform.
- App.Application.HandleMqttData stores the new handle even if `xTaskCreate` fails. The model takes creation to succeed. The handle of a deleted task is modelled only through the state reported for it.
- App.AssociateLedWithMotion and Mqtt.Session.EventHandler take task creation to succeed.
- Logging.Logger.Vprintf reports a full queue as `Blocked` and leaves it unchanged. The source would wait until the logging task makes room.
