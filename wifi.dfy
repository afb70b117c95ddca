/** The Wi-Fi station's event handler and the result of wifi_init_sta
    (main/wifi.c). */
module Wifi {
  /** The events the handler reacts to; any other event is ignored. */
  datatype WifiEvent = StaStart | StaDisconnected | GotIp | OtherEvent

  /** What the handler does to the outside world. */
  datatype WifiAction = Connect | Wait(ms: nat) | Restart

  /** s_retry_num, the two event-group bits, and whether esp_restart ran. */
  datatype WifiState = WifiState(retryNum: nat, connectedBit: bool, failBit: bool, restarted: bool)

  const InitialState := WifiState(0, false, false, false)

  function Pow2(n: nat): (p: nat)
    ensures p >= 1
  {
    if n == 0 then 1 else 2 * Pow2(n - 1)
  }

  /** The wait before reconnect attempt n: (1 << n) seconds. */
  function BackoffMs(n: nat): nat
  {
    Pow2(n) * 1000
  }

  /** Each wait is twice the previous one. */
  lemma BackoffDoubles(n: nat)
    ensures BackoffMs(n + 1) == 2 * BackoffMs(n)
  {
  }

  datatype Reaction = Reaction(next: WifiState, actions: seq<WifiAction>)

  /** event_handler for one event, with MAX_RETRY as `maxRetry`. After a
      restart nothing else runs. */
  function Handle(st: WifiState, ev: WifiEvent, maxRetry: nat): Reaction
  {
    if st.restarted then Reaction(st, [])
    else match ev
      case StaStart => Reaction(st, [Connect])
      case StaDisconnected =>
        if st.retryNum < maxRetry then
          Reaction(st.(retryNum := st.retryNum + 1), [Wait(BackoffMs(st.retryNum)), Connect])
        else
          Reaction(st.(failBit := true, restarted := true), [Restart])
      case GotIp => Reaction(st.(retryNum := 0, connectedBit := true), [])
      case OtherEvent => Reaction(st, [])
  }

  /** The handler applied to a sequence of events. */
  function Run(st: WifiState, evs: seq<WifiEvent>, maxRetry: nat): Reaction
    decreases |evs|
  {
    if evs == [] then Reaction(st, [])
    else
      var r := Handle(st, evs[0], maxRetry);
      var rest := Run(r.next, evs[1..], maxRetry);
      Reaction(rest.next, r.actions + rest.actions)
  }

  /** s_retry_num never exceeds MAX_RETRY, whatever the events. */
  lemma {:induction false} RetryBounded(st: WifiState, evs: seq<WifiEvent>, maxRetry: nat)
    requires st.retryNum <= maxRetry
    ensures Run(st, evs, maxRetry).next.retryNum <= maxRetry
    decreases |evs|
  {
    if evs != [] {
      RetryBounded(Handle(st, evs[0], maxRetry).next, evs[1..], maxRetry);
    }
  }

  /** A disconnect below the cap waits 2^n seconds, reconnects and counts the
      attempt; at the cap it sets the FAIL bit and restarts without another
      connect. STA_START connects exactly once. GOT_IP resets the counter and
      sets the CONNECTED bit, and it is the only event that lowers the counter. */
  lemma HandleCases(st: WifiState, ev: WifiEvent, maxRetry: nat)
    requires !st.restarted
    ensures ev == StaDisconnected && st.retryNum < maxRetry ==>
      Handle(st, ev, maxRetry) == Reaction(st.(retryNum := st.retryNum + 1), [Wait(Pow2(st.retryNum) * 1000), Connect])
    ensures ev == StaDisconnected && st.retryNum >= maxRetry ==>
      var r := Handle(st, ev, maxRetry);
      r.next.failBit && r.next.restarted && r.actions == [Restart]
    ensures ev == StaStart ==> Handle(st, ev, maxRetry).actions == [Connect]
    ensures ev == GotIp ==> Handle(st, ev, maxRetry).next.retryNum == 0 && Handle(st, ev, maxRetry).next.connectedBit
    ensures ev != GotIp ==> Handle(st, ev, maxRetry).next.retryNum >= st.retryNum
  {
  }

  /** The actions of k disconnects in a row starting from retry count r:
      wait 2^r s, connect, wait 2^(r+1) s, connect, ... */
  function BackoffSchedule(r: nat, k: nat): seq<WifiAction>
    decreases k
  {
    if k == 0 then [] else [Wait(BackoffMs(r)), Connect] + BackoffSchedule(r + 1, k - 1)
  }

  /** Within one outage the waits double: k disconnects that stay within the
      cap give the schedule above and leave the counter at r + k. */
  lemma {:induction false} OutageBackoff(st: WifiState, k: nat, maxRetry: nat)
    requires !st.restarted && st.retryNum + k <= maxRetry
    ensures var r := Run(st, seq(k, _ => StaDisconnected), maxRetry);
      r.actions == BackoffSchedule(st.retryNum, k)
      && r.next == st.(retryNum := st.retryNum + k)
    decreases k
  {
    if k > 0 {
      var evs := seq(k, _ => StaDisconnected);
      assert evs[0] == StaDisconnected;
      assert evs[1..] == seq(k - 1, _ => StaDisconnected);
      OutageBackoff(st.(retryNum := st.retryNum + 1), k - 1, maxRetry);
    }
  }

  /** From a fresh counter, MAX_RETRY disconnects are retried with waits of
      1, 2, 4, ... seconds, and the next disconnect restarts the device. */
  lemma {:induction false} OutageEndsInRestart(maxRetry: nat)
    ensures var r := Run(InitialState, seq(maxRetry + 1, _ => StaDisconnected), maxRetry);
      && r.actions == BackoffSchedule(0, maxRetry) + [Restart]
      && r.next.failBit && r.next.restarted && !r.next.connectedBit
  {
    var evs := seq(maxRetry + 1, _ => StaDisconnected);
    RunAppend(InitialState, seq(maxRetry, _ => StaDisconnected), [StaDisconnected], maxRetry);
    assert evs == seq(maxRetry, _ => StaDisconnected) + [StaDisconnected];
    OutageBackoff(InitialState, maxRetry, maxRetry);
  }

  lemma {:induction false} RunAppend(st: WifiState, a: seq<WifiEvent>, b: seq<WifiEvent>, maxRetry: nat)
    ensures var ra := Run(st, a, maxRetry);
      var rb := Run(ra.next, b, maxRetry);
      Run(st, a + b, maxRetry) == Reaction(rb.next, ra.actions + rb.actions)
    decreases |a|
  {
    if a == [] {
      assert a + b == b;
    } else {
      assert (a + b)[0] == a[0];
      assert (a + b)[1..] == a[1..] + b;
      RunAppend(Handle(st, a[0], maxRetry).next, a[1..], b, maxRetry);
    }
  }

  /** What wifi_init_sta reports once one of the two bits is set. */
  datatype InitResult = Connected | Failed | Unexpected

  function InitOutcome(connectedBit: bool, failBit: bool): (r: InitResult)
    ensures r == Connected <==> connectedBit
    ensures r == Failed <==> !connectedBit && failBit
  {
    if connectedBit then Connected else if failBit then Failed else Unexpected
  }

  /** The static state of wifi.c and everything the handler did. */
  class Station {
    const maxRetry: nat
    var retryNum: nat
    var connectedBit: bool
    var failBit: bool
    var restarted: bool
    var actions: seq<WifiAction>

    function State(): WifiState
      reads this
    {
      WifiState(retryNum, connectedBit, failBit, restarted)
    }

    ghost predicate Valid()
      reads this
    {
      retryNum <= maxRetry
    }

    constructor (maxRetry: nat)
      ensures Valid() && this.maxRetry == maxRetry
      ensures State() == InitialState && actions == []
    {
      this.maxRetry := maxRetry;
      retryNum := 0;
      connectedBit, failBit, restarted := false, false, false;
      actions := [];
    }

    /** event_handler. */
    method EventHandler(ev: WifiEvent)
      requires Valid()
      modifies this
      ensures Valid()
      ensures State() == Handle(old(State()), ev, maxRetry).next
      ensures actions == old(actions) + Handle(old(State()), ev, maxRetry).actions
    {
      if restarted {
        return;
      }
      match ev {
        case StaStart =>
          actions := actions + [Connect];
        case StaDisconnected =>
          if retryNum < maxRetry {
            var waitMs := Pow2(retryNum) * 1000;
            actions := actions + [Wait(waitMs)];
            actions := actions + [Connect];
            retryNum := retryNum + 1;
          } else {
            failBit := true;
            actions := actions + [Restart];
            restarted := true;
          }
        case GotIp =>
          retryNum := 0;
          connectedBit := true;
        case OtherEvent =>
      }
    }
  }
}
