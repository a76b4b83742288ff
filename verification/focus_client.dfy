/** The objects of the Focus protocol: the request channel, the interface that fills it, the worker that empties it. */
module FocusClient {
  import opened Common
  import opened Focus

  /** A bounded `tokio::sync::mpsc` channel, seen from its two ends. */
  class FocusChannel {
    var queue: seq<Req>

    constructor ()
      ensures queue == []
    {
      queue := [];
    }

    method TrySend(r: Req) returns (ok: bool)
      modifies this
      ensures ok == (|old(queue)| < QUEUE_CAPACITY)
      ensures queue == if ok then old(queue) + [r] else old(queue)
    {
      if |queue| >= QUEUE_CAPACITY {
        return false;
      }
      queue := queue + [r];
      ok := true;
    }

    method TryRecv() returns (r: Option<Req>)
      modifies this
      ensures if |old(queue)| == 0 then r == None && queue == [] else r == Some(old(queue)[0]) && queue == old(queue)[1..]
    {
      if |queue| == 0 {
        return None;
      }
      r := Some(queue[0]);
      queue := queue[1..];
    }
  }

  class App {
    const focusTx: FocusChannel
    var onFocus: bool
    var locked: bool
    var editing: bool
    var signals: seq<string>
    var selected: nat
    var symbol: string
    var timeframe: string
    var loading: bool
    var data: Option<Req>

    function State(): Ui
      reads this
    {
      Ui(onFocus, locked, editing, signals, selected, symbol, timeframe, loading, data)
    }

    constructor (focusTx: FocusChannel, signals: seq<string>)
      ensures this.focusTx == focusTx && State() == Start(signals).ui
    {
      this.focusTx, this.signals := focusTx, signals;
      onFocus, locked, editing, selected := false, false, false, 0;
      symbol, timeframe, loading, data := "", "5d", false, None;
    }

    /** Set the request fields and `try_send`; a full channel drops the request silently. */
    method RequestFocus(newSymbol: string)
      modifies this, focusTx
      ensures State() == old(State()).(symbol := newSymbol, loading := true)
      ensures focusTx.queue == if |old(focusTx.queue)| < QUEUE_CAPACITY
                               then old(focusTx.queue) + [Req(newSymbol, timeframe)] else old(focusTx.queue)
    {
      symbol := newSymbol;
      loading := true;
      var _ := focusTx.TrySend(Req(symbol, timeframe));
    }

    /** The Focus branches of `handle_key`. */
    method PressKey(key: Key)
      modifies this, focusTx
      ensures var (ui, r) := HandleKey(old(State()), key);
              && State() == ui
              && focusTx.queue == (if r.Some? && |old(focusTx.queue)| < QUEUE_CAPACITY
                                   then old(focusTx.queue) + [r.value] else old(focusTx.queue))
    {
      if locked {
        locked := false;
        return;
      }
      if editing {
        return;
      }
      match key {
        case Enter =>
          if selected < |signals| {
            onFocus := true;
            RequestFocus(signals[selected]);
          }
        case CycleTimeframe =>
          if onFocus {
            timeframe := NextTimeframe(timeframe);
            if symbol != "" {
              RequestFocus(symbol);
            }
          }
        case PrevSymbol =>
          if onFocus && |signals| > 0 {
            selected := if selected > 0 then selected - 1 else |signals| - 1;
            if selected < |signals| {
              RequestFocus(signals[selected]);
            }
          }
        case NextSymbol =>
          if onFocus && |signals| > 0 {
            selected := (selected + 1) % |signals|;
            RequestFocus(signals[selected]);
          }
      }
    }

    /** `apply_focus_bundle`. */
    method ApplyFocusBundle(shown: Req)
      modifies this
      ensures State() == Apply(old(State()), FocusBundle(shown))
    {
      data := Some(shown);
      loading := false;
    }

    /** The `FocusFailed` branch of the event loop. */
    method ApplyFocusFailed()
      modifies this
      ensures State() == Apply(old(State()), FocusFailed)
    {
      loading := false;
    }

    /** The part of `apply_snapshot` that Focus depends on. */
    method ApplySnapshot(signals: seq<string>)
      modifies this
      ensures State() == Apply(old(State()), Snapshot(signals))
    {
      this.signals := signals;
      var last := if |signals| == 0 then 0 else |signals| - 1;
      selected := if selected < last then selected else last;
    }
  }

  class FocusFetcher {
    const focusRx: FocusChannel
    var connected: bool

    constructor (focusRx: FocusChannel)
      ensures this.focusRx == focusRx && !connected
    {
      this.focusRx, connected := focusRx, false;
    }

    /**
     One turn of the loop of `run_focus_fetcher` with nobody else running: the
     newest queued request is the one asked for, and exactly one event comes out.
     */
    method ServeNext(connectOk: bool, result: Option<Req>) returns (asked: Req, event: StreamEvent)
      requires |focusRx.queue| > 0
      modifies this, focusRx
      ensures asked == old(focusRx.queue)[|old(focusRx.queue)| - 1] && focusRx.queue == []
      ensures !old(connected) && !connectOk ==> event == FocusFailed && !connected
      ensures old(connected) || connectOk ==>
                event == (if result.Some? then FocusBundle(result.value) else FocusFailed) && connected == result.Some?
    {
      ghost var before := focusRx.queue;
      var first := focusRx.TryRecv();
      asked := first.value;
      var next := focusRx.TryRecv();
      while next.Some?
        invariant connected == old(connected) && |focusRx.queue| + 1 <= |before|
        invariant focusRx.queue == before[|before| - |focusRx.queue|..]
        invariant next.Some? ==> |focusRx.queue| + 2 <= |before| && next.value == before[|before| - |focusRx.queue| - 1]
        invariant next.None? ==> |focusRx.queue| == 0 && asked == before[|before| - 1]
        decreases |focusRx.queue|, next.Some?
      {
        asked := next.value;
        next := focusRx.TryRecv();
      }
      if !connected {
        if !connectOk {
          event := FocusFailed;
          return;
        }
        connected := true;
      }
      if result.Some? {
        event := FocusBundle(result.value);
      } else {
        connected := false;
        event := FocusFailed;
      }
    }
  }

  function Repeat(l: Label, n: nat): seq<Label> {
    if n == 0 then [] else Repeat(l, n - 1) + [l]
  }

  /** Uninterrupted, the drain of the step system ends on the newest request, as the loop of the object does. */
  lemma {:induction false} DrainTakesNewest(s: System, n: nat)
    requires s.worker.Draining? && n <= |s.queue|
    ensures var t := Run(s, Repeat(TryReceive, n));
            && t == s.(queue := s.queue[n..], worker := t.worker) && t.worker.Draining?
            && t.worker.connected == s.worker.connected
            && t.worker.latest == if n == 0 then s.worker.latest else s.queue[n - 1]
  {
    if n > 0 {
      DrainTakesNewest(s, n - 1);
      assert Repeat(TryReceive, n)[..|Repeat(TryReceive, n)| - 1] == Repeat(TryReceive, n - 1);
      assert s.queue[n - 1..][1..] == s.queue[n..];
    }
  }
}
