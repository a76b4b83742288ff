/**
 The Focus protocol of the terminal client (rust/terminal-client/src/app.rs and
 main.rs): key presses put requests on a bounded queue with `try_send`, one worker
 coalesces and answers them, and answers come back on the shared event channel.
 Keys, worker, other producers and the event loop interleave freely.
 */
module Focus {
  import opened Common

  datatype Req = Req(symbol: string, timeframe: string)

  const QUEUE_CAPACITY := 8
  const CHANNEL_CAPACITY := 32

  datatype StreamEvent =
    | FocusBundle(shown: Req)
    | FocusFailed
    | Snapshot(signals: seq<string>)
    | OtherEvent

  predicate IsFocus(e: StreamEvent) {
    e.FocusBundle? || e.FocusFailed?
  }

  datatype Ui = Ui(
    onFocus: bool,
    locked: bool,
    editing: bool,
    signals: seq<string>,
    selected: nat,
    symbol: string,
    timeframe: string,
    loading: bool,
    data: Option<Req>)

  /** Where `run_focus_fetcher` stands; `connected` says whether it keeps a client. */
  datatype Worker =
    | Waiting(connected: bool)
    | Draining(latest: Req, connected: bool)
    | Connecting(latest: Req)
    | Fetching(latest: Req)
    | Sending(connected: bool)

  /**
   `inbox` is the event channel in the order its senders got in line: the first
   CHANNEL_CAPACITY events are in the buffer, the senders of the others wait.
   `accepted` are the requests ever queued, `answered` the positions in it that
   the worker has answered.
   */
  datatype System = System(
    ui: Ui,
    queue: seq<Req>,
    worker: Worker,
    inbox: seq<StreamEvent>,
    accepted: seq<Req>,
    answered: seq<nat>)

  datatype Key = Enter | CycleTimeframe | PrevSymbol | NextSymbol  // f, t, [, ]

  datatype Label =
    | Press(key: Key)
    | Interface(onFocus: bool, locked: bool, editing: bool, selected: nat)  // any other key, and the idle lock
    | Produce(event: StreamEvent)                                           // the other producers
    | Receive
    | TryReceive
    | ConnectDone(ok: bool)
    | FetchDone(result: Option<Req>)
    | SendDone
    | Deliver

  // ---------- the user interface ----------

  function NextTimeframe(t: string): string {
    if t == "1d" then "5d" else if t == "5d" then "1mo" else "1d"
  }

  /** The interface after `handle_key`, and the request it tries to send, if any. */
  function HandleKey(ui: Ui, key: Key): (Ui, Option<Req>) {
    if ui.locked then (ui.(locked := false), None)
    else if ui.editing then (ui, None)
    else match key
      case Enter =>
        if ui.selected < |ui.signals| then Ask(ui.(onFocus := true, symbol := ui.signals[ui.selected])) else (ui, None)
      case CycleTimeframe =>
        if !ui.onFocus then (ui, None)
        else
          var ui' := ui.(timeframe := NextTimeframe(ui.timeframe));
          if ui.symbol != "" then Ask(ui') else (ui', None)
      case PrevSymbol =>
        if ui.onFocus && |ui.signals| > 0
        then Select(ui, if ui.selected > 0 then ui.selected - 1 else |ui.signals| - 1) else (ui, None)
      case NextSymbol =>
        if ui.onFocus && |ui.signals| > 0 then Select(ui, (ui.selected + 1) % |ui.signals|) else (ui, None)
  }

  function Select(ui: Ui, selected: nat): (Ui, Option<Req>) {
    var ui' := ui.(selected := selected);
    if selected < |ui.signals| then Ask(ui'.(symbol := ui.signals[selected])) else (ui', None)
  }

  function Ask(ui: Ui): (Ui, Option<Req>) {
    (ui.(loading := true), Some(Req(ui.symbol, ui.timeframe)))
  }

  function Apply(ui: Ui, e: StreamEvent): Ui {
    match e
    case FocusBundle(shown) => ui.(data := Some(shown), loading := false)
    case FocusFailed => ui.(loading := false)
    case Snapshot(signals) =>
      ui.(signals := signals,
          selected := if ui.selected < |signals| then ui.selected else if |signals| == 0 then 0 else |signals| - 1)
    case OtherEvent => ui
  }

  // ---------- steps ----------

  function TrySend(s: System, r: Req): System {
    if |s.queue| < QUEUE_CAPACITY then s.(queue := s.queue + [r], accepted := s.accepted + [r]) else s
  }

  function Pressed(s: System, ui: Ui, r: Option<Req>): System {
    if r.Some? then TrySend(s.(ui := ui), r.value) else s.(ui := ui)
  }

  /** The position, among the accepted requests, of the last one taken off the queue. */
  function Taken(s: System): int {
    |s.accepted| - |s.queue| - 1
  }

  predicate Enabled(s: System, l: Label) {
    match l
    case Press(_) => true
    case Interface(_, _, _, _) => true
    case Produce(e) => !IsFocus(e)
    case Receive => s.worker.Waiting? && |s.queue| > 0
    case TryReceive => s.worker.Draining?
    case ConnectDone(_) => s.worker.Connecting? && Taken(s) >= 0
    case FetchDone(_) => s.worker.Fetching? && Taken(s) >= 0
    case SendDone => s.worker.Sending? && Ahead(s.inbox) <= CHANNEL_CAPACITY
    case Deliver => |s.inbox| > 0
  }

  function Answer(s: System, e: StreamEvent, connected: bool): System
    requires Taken(s) >= 0
  {
    s.(inbox := s.inbox + [e], answered := s.answered + [Taken(s)], worker := Sending(connected))
  }

  /** One step; a label that is not enabled leaves the state alone. */
  function Step(s: System, l: Label): System {
    if !Enabled(s, l) then s
    else match l
      case Press(key) =>
        var (ui', r) := HandleKey(s.ui, key);
        Pressed(s, ui', r)
      case Interface(onFocus, locked, editing, selected) =>
        s.(ui := s.ui.(onFocus := onFocus, locked := locked, editing := editing, selected := selected))
      case Produce(e) => s.(inbox := s.inbox + [e])
      case Receive => s.(queue := s.queue[1..], worker := Draining(s.queue[0], s.worker.connected))
      case TryReceive =>
        if |s.queue| > 0 then s.(queue := s.queue[1..], worker := s.worker.(latest := s.queue[0]))
        else s.(worker := if s.worker.connected then Fetching(s.worker.latest) else Connecting(s.worker.latest))
      case ConnectDone(ok) =>
        if ok then s.(worker := Fetching(s.worker.latest))
        else Answer(s, FocusFailed, false)
      case FetchDone(result) =>
        if result.Some? then Answer(s, FocusBundle(result.value), true) else Answer(s, FocusFailed, false)
      case SendDone => s.(worker := Waiting(s.worker.connected))
      case Deliver => s.(inbox := s.inbox[1..], ui := Apply(s.ui, s.inbox[0]))
  }

  function Run(s: System, labels: seq<Label>): System {
    if |labels| == 0 then s else Step(Run(s, labels[..|labels| - 1]), labels[|labels| - 1])
  }

  /** `App::new` with whatever signals the cache held, and an idle worker. */
  function Start(signals: seq<string>): System {
    System(Ui(false, false, false, signals, 0, "", "5d", false, None), [], Waiting(false), [], [], [])
  }

  // ---------- loading is never orphaned ----------

  /** One past the position of the last Focus event in the channel; zero when there is none. */
  function Ahead(inbox: seq<StreamEvent>): nat {
    if |inbox| == 0 then 0
    else if IsFocus(inbox[|inbox| - 1]) then |inbox|
    else Ahead(inbox[..|inbox| - 1])
  }

  lemma AheadSnoc(inbox: seq<StreamEvent>, e: StreamEvent)
    ensures Ahead(inbox + [e]) == if IsFocus(e) then |inbox| + 1 else Ahead(inbox)
  {
    assert (inbox + [e])[..|inbox|] == inbox;
  }

  lemma {:induction false} AheadPop(inbox: seq<StreamEvent>)
    requires |inbox| > 0
    ensures Ahead(inbox) <= |inbox|
    ensures Ahead(inbox[1..]) == if Ahead(inbox) == 0 then 0 else Ahead(inbox) - 1
    ensures IsFocus(inbox[0]) || Ahead(inbox) != 1
  {
    var last := |inbox| - 1;
    if !IsFocus(inbox[last]) && last > 0 {
      AheadPop(inbox[..last]);
      assert inbox[1..][..last - 1] == inbox[..last][1..];
    }
  }

  predicate Busy(w: Worker) {
    w.Draining? || w.Connecting? || w.Fetching?
  }

  predicate Pending(queue: seq<Req>, worker: Worker, inbox: seq<StreamEvent>) {
    |queue| > 0 || Busy(worker) || Ahead(inbox) > 0
  }

  predicate Increasing(a: seq<nat>) {
    |a| > 1 ==> Increasing(a[..|a| - 1]) && a[|a| - 2] < a[|a| - 1]
  }

  function LastAnswered(answered: seq<nat>): int {
    if |answered| == 0 then -1 else answered[|answered| - 1]
  }

  /** The worker's books: what it holds is the newest request taken, and it answers each holding once, in order. */
  predicate Coalesces(queue: seq<Req>, accepted: seq<Req>, answered: seq<nat>, worker: Worker) {
    && |queue| <= QUEUE_CAPACITY && |queue| <= |accepted|
    && queue == accepted[|accepted| - |queue|..]
    && Increasing(answered)
    && var taken := |accepted| - |queue| - 1;
       if Busy(worker) then 0 <= taken && worker.latest == accepted[taken] && LastAnswered(answered) < taken
       else LastAnswered(answered) == taken
  }

  predicate Inv(s: System) {
    Coalesces(s.queue, s.accepted, s.answered, s.worker) && (s.ui.loading ==> Pending(s.queue, s.worker, s.inbox))
  }

  /** A key starts loading exactly when it asks for something, and never ends it. */
  lemma KeyLoads(ui: Ui, key: Key)
    ensures var (ui', r) := HandleKey(ui, key);
            && ui'.loading == (ui.loading || r.Some?)
            && (r.Some? ==> r.value == Req(ui'.symbol, ui'.timeframe))
  {
  }

  /** When a key asks: unlocked and not typing, `f` with a signal selected, the others in the Focus view, with something to ask for. */
  lemma KeyAsksIff(ui: Ui, key: Key)
    ensures HandleKey(ui, key).1.Some? <==>
              && !ui.locked && !ui.editing
              && match key
                 case Enter => ui.selected < |ui.signals|
                 case CycleTimeframe => ui.onFocus && ui.symbol != ""
                 case PrevSymbol => ui.onFocus && |ui.signals| > 0 && ui.selected <= |ui.signals|
                 case NextSymbol => ui.onFocus && |ui.signals| > 0
    ensures ui.locked ==> HandleKey(ui, key).0 == ui.(locked := false)
    ensures HandleKey(ui, key).1.Some? ==>
              var (ui', r) := HandleKey(ui, key);
              && ui'.onFocus && ui'.data == ui.data && ui'.signals == ui.signals
              && (key != CycleTimeframe ==>
                    ui'.timeframe == ui.timeframe && ui'.selected < |ui.signals| && r.value.symbol == ui.signals[ui'.selected])
              && (key == CycleTimeframe ==> r.value.symbol == ui.symbol && ui'.selected == ui.selected)
              && (key == Enter ==> ui'.selected == ui.selected)
  {
  }

  /** Neither locked nor typing, in the Focus view, on a signal that is there. */
  predicate Browsing(ui: Ui) {
    !ui.locked && !ui.editing && ui.onFocus && ui.selected < |ui.signals|
  }

  function PressNext(ui: Ui, n: nat): Ui {
    if n == 0 then ui else HandleKey(PressNext(ui, n - 1), NextSymbol).0
  }

  /** Counting up through `m` places, round and round. */
  function Around(x: nat, m: nat): (r: nat)
    requires m > 0
    ensures r < m
  {
    if x < m then x else Around(x - m, m)
  }

  lemma {:induction false} AroundStep(x: nat, m: nat)
    requires m > 0
    ensures Around(x + 1, m) == if Around(x, m) + 1 < m then Around(x, m) + 1 else 0
  {
    if x >= m {
      AroundStep(x - m, m);
    }
  }

  lemma SmallMod(x: nat, m: nat)
    requires x <= m && m > 0
    ensures x % m == if x < m then x else 0
  {
  }

  lemma NextSelects(ui: Ui)
    requires Browsing(ui)
    ensures var ui' := HandleKey(ui, NextSymbol).0;
            && Browsing(ui') && ui'.signals == ui.signals
            && ui'.selected == if ui.selected + 1 < |ui.signals| then ui.selected + 1 else 0
  {
    SmallMod(ui.selected + 1, |ui.signals|);
  }

  /** `]` goes up the list and round; so pressing it once for each signal comes back to the first. */
  lemma {:induction false} NextGoesRound(ui: Ui, n: nat)
    requires Browsing(ui)
    ensures Browsing(PressNext(ui, n)) && PressNext(ui, n).signals == ui.signals
    ensures PressNext(ui, n).selected == Around(ui.selected + n, |ui.signals|)
  {
    if n > 0 {
      NextGoesRound(ui, n - 1);
      NextSelects(PressNext(ui, n - 1));
      AroundStep(ui.selected + n - 1, |ui.signals|);
    }
  }

  /** `[` undoes `]`, and `]` undoes `[`. */
  lemma PrevUndoesNext(ui: Ui)
    requires Browsing(ui)
    ensures HandleKey(HandleKey(ui, NextSymbol).0, PrevSymbol).0.selected == ui.selected
    ensures HandleKey(HandleKey(ui, PrevSymbol).0, NextSymbol).0.selected == ui.selected
  {
    NextSelects(ui);
    NextSelects(HandleKey(ui, PrevSymbol).0);
  }

  /** `t` goes from a day to five days to a month, and back to a day; from anything else to a day. */
  lemma TimeframeCycle(t: string)
    ensures NextTimeframe("1d") == "5d" && NextTimeframe("5d") == "1mo" && NextTimeframe("1mo") == "1d"
    ensures t != "1d" && t != "5d" ==> NextTimeframe(t) == "1d"
  {
    assert "1d"[0] == '1' && "5d"[0] == '5' && |"1mo"| == 3;
  }

  /** A new list of signals keeps the selection where it still fits, and moves it to the last one where not. */
  lemma SnapshotKeepsSelection(ui: Ui, signals: seq<string>)
    ensures var ui' := Apply(ui, Snapshot(signals));
            && ui' == ui.(signals := signals, selected := ui'.selected)
            && (ui.selected < |signals| ==> ui'.selected == ui.selected)
            && (ui.selected >= |signals| > 0 ==> ui'.selected == |signals| - 1)
            && (|signals| == 0 ==> ui'.selected == 0)
  {
  }

  lemma SendKeeps(queue: seq<Req>, accepted: seq<Req>, answered: seq<nat>, worker: Worker, r: Req)
    requires Coalesces(queue, accepted, answered, worker) && |queue| < QUEUE_CAPACITY
    ensures Coalesces(queue + [r], accepted + [r], answered, worker)
  {
    assert (accepted + [r])[|accepted| - |queue|..] == queue + [r];
  }

  /** A dropped request leaves a full, hence nonempty, queue behind. */
  lemma PressedKeeps(s: System, ui: Ui, r: Option<Req>)
    requires Inv(s) && ui.loading == (s.ui.loading || r.Some?)
    ensures Inv(Pressed(s, ui, r))
  {
    if r.Some? && |s.queue| < QUEUE_CAPACITY {
      SendKeeps(s.queue, s.accepted, s.answered, s.worker, r.value);
    }
  }

  lemma PressKeeps(s: System, key: Key)
    requires Inv(s)
    ensures Inv(Step(s, Press(key)))
  {
    KeyLoads(s.ui, key);
    var (ui', r) := HandleKey(s.ui, key);
    PressedKeeps(s, ui', r);
  }

  lemma TakeKeeps(queue: seq<Req>, accepted: seq<Req>, answered: seq<nat>, worker: Worker, connected: bool)
    requires Coalesces(queue, accepted, answered, worker) && |queue| > 0
    ensures Coalesces(queue[1..], accepted, answered, Draining(queue[0], connected))
  {
    assert accepted[|accepted| - |queue|] == queue[0];
    assert accepted[|accepted| - |queue| + 1..] == queue[1..];
  }

  lemma AnswerKeeps(s: System, e: StreamEvent, connected: bool)
    requires Inv(s) && Busy(s.worker) && IsFocus(e)
    ensures Inv(Answer(s, e, connected))
  {
    AheadSnoc(s.inbox, e);
    assert (s.answered + [Taken(s)])[..|s.answered|] == s.answered;
  }

  lemma DeliverKeeps(s: System)
    requires Inv(s) && |s.inbox| > 0
    ensures Inv(Step(s, Deliver))
  {
    AheadPop(s.inbox);
  }

  lemma ReceiveKeeps(s: System)
    requires Inv(s) && Enabled(s, Receive)
    ensures Inv(Step(s, Receive))
  {
    TakeKeeps(s.queue, s.accepted, s.answered, s.worker, s.worker.connected);
  }

  lemma TryReceiveKeeps(s: System)
    requires Inv(s) && Enabled(s, TryReceive)
    ensures Inv(Step(s, TryReceive))
  {
    if |s.queue| > 0 {
      TakeKeeps(s.queue, s.accepted, s.answered, s.worker, s.worker.connected);
      assert s.worker.(latest := s.queue[0]) == Draining(s.queue[0], s.worker.connected);
    }
  }

  lemma WorkerKeeps(s: System, l: Label)
    requires Inv(s) && Enabled(s, l)
    requires l.ConnectDone? || l.FetchDone?
    ensures Inv(Step(s, l))
  {
    if l.FetchDone? && l.result.Some? {
      AnswerKeeps(s, FocusBundle(l.result.value), true);
    } else {
      AnswerKeeps(s, FocusFailed, false);
    }
  }

  lemma StepKeeps(s: System, l: Label)
    requires Inv(s)
    ensures Inv(Step(s, l))
  {
    if Enabled(s, l) {
      match l
      case Press(key) => PressKeeps(s, key);
      case Receive => ReceiveKeeps(s);
      case TryReceive => TryReceiveKeeps(s);
      case ConnectDone(_) => WorkerKeeps(s, l);
      case FetchDone(_) => WorkerKeeps(s, l);
      case Produce(e) => AheadSnoc(s.inbox, e);
      case Deliver => DeliverKeeps(s);
      case Interface(_, _, _, _) =>
      case SendDone =>
    }
  }

  /** In every reachable state, `loading` means an answer is still on its way, even after a dropped request. */
  lemma {:induction false} FocusNeverHangs(signals: seq<string>, labels: seq<Label>)
    ensures var s := Run(Start(signals), labels);
            Inv(s) && (s.ui.loading ==> |s.queue| > 0 || Busy(s.worker) || exists e <- s.inbox :: IsFocus(e))
  {
    if |labels| > 0 {
      FocusNeverHangs(signals, labels[..|labels| - 1]);
      StepKeeps(Run(Start(signals), labels[..|labels| - 1]), labels[|labels| - 1]);
    }
    AheadWitness(Run(Start(signals), labels).inbox);
  }

  lemma {:induction false} AheadWitness(inbox: seq<StreamEvent>)
    ensures Ahead(inbox) > 0 ==> exists e <- inbox :: IsFocus(e)
  {
    if |inbox| > 0 {
      AheadWitness(inbox[..|inbox| - 1]);
      assert inbox[|inbox| - 1] in inbox;
    }
  }

  // ---------- loading ends once keys stop ----------

  function Work(queue: seq<Req>, worker: Worker): nat {
    5 * |queue| + match worker
                  case Waiting(_) => 0
                  case Sending(_) => 1
                  case Fetching(_) => 2
                  case Connecting(_) => 3
                  case Draining(_, _) => 4
  }

  /** Nobody's fault but time's: neither a key, nor another producer, nor the rest of the interface. */
  predicate Advances(l: Label) {
    l.Receive? || l.TryReceive? || l.ConnectDone? || l.FetchDone? || l.SendDone? || l.Deliver?
  }

  /**
   Without further Focus keys the pair (work left, events up to the last answer)
   never grows; every worker step shrinks the first part, every delivery that is
   not past the last answer shrinks the second.
   */
  lemma QuietProgress(s: System, l: Label)
    requires Enabled(s, l) && !l.Press?
    ensures var t := Step(s, l);
            && (l.Produce? || l.Interface? ==>
                  Work(t.queue, t.worker) == Work(s.queue, s.worker) && Ahead(t.inbox) == Ahead(s.inbox))
            && (l.Deliver? ==>
                  && Work(t.queue, t.worker) == Work(s.queue, s.worker)
                  && Ahead(t.inbox) == if Ahead(s.inbox) == 0 then 0 else Ahead(s.inbox) - 1)
            && (Advances(l) && !l.Deliver? ==> Work(t.queue, t.worker) < Work(s.queue, s.worker))
  {
    match l
    case Produce(e) => AheadSnoc(s.inbox, e);
    case Deliver => AheadPop(s.inbox);
    case _ =>
  }

  predicate Quiescent(s: System) {
    |s.queue| == 0 && s.worker.Waiting? && Ahead(s.inbox) == 0
  }

  /** Until all is quiet something can always move: the step to take next. */
  function NextLabel(s: System, ok: bool, result: Option<Req>): (l: Label)
    requires Inv(s) && !Quiescent(s)
    ensures Advances(l) && Enabled(s, l) && (l.Deliver? ==> Ahead(s.inbox) > 0)
  {
    match s.worker
    case Waiting(_) => if |s.queue| > 0 then Receive else AnswerIsThere(s.inbox); Deliver
    case Draining(_, _) => TryReceive
    case Connecting(_) => ConnectDone(ok)
    case Fetching(_) => FetchDone(result)
    case Sending(_) => if Ahead(s.inbox) <= CHANNEL_CAPACITY then SendDone else AnswerIsThere(s.inbox); Deliver
  }

  lemma AnswerIsThere(inbox: seq<StreamEvent>)
    ensures Ahead(inbox) > 0 ==> |inbox| > 0
  {
  }

  ghost predicate NoKeys(labels: seq<Label>) {
    forall l <- labels :: Advances(l)
  }

  lemma {:induction false} RunCons(s: System, l: Label, rest: seq<Label>)
    ensures Run(s, [l] + rest) == Run(Step(s, l), rest)
  {
    if |rest| == 0 {
      assert ([l] + rest)[..0] == [];
      assert Run(s, []) == s;
    } else {
      var p := rest[..|rest| - 1];
      RunCons(s, l, p);
      assert ([l] + rest)[..|rest|] == [l] + p;
    }
  }

  /** Keys aside, every step taken was enabled. */
  ghost predicate Quiet(s: System, labels: seq<Label>) {
    |labels| > 0 ==>
      var p, l := labels[..|labels| - 1], labels[|labels| - 1];
      Quiet(s, p) && !l.Press? && Enabled(Run(s, p), l)
  }

  function Advancing(labels: seq<Label>): nat {
    if |labels| == 0 then 0
    else Advancing(labels[..|labels| - 1]) + if Advances(labels[|labels| - 1]) then 1 else 0
  }

  function Produced(labels: seq<Label>): nat {
    if |labels| == 0 then 0
    else Produced(labels[..|labels| - 1]) + if labels[|labels| - 1].Produce? then 1 else 0
  }

  function Measure(s: System): nat {
    2 * Work(s.queue, s.worker) + |s.inbox|
  }

  lemma MeasureStep(s: System, l: Label)
    requires Enabled(s, l) && !l.Press?
    ensures Measure(Step(s, l)) + (if Advances(l) then 1 else 0) <= Measure(s) + if l.Produce? then 1 else 0
  {
  }

  ghost predicate Stuck(s: System) {
    forall l :: Advances(l) ==> !Enabled(s, l)
  }

  lemma SomethingMoves(s: System)
    requires Inv(s) && !Quiescent(s)
    ensures exists l :: Advances(l) && Enabled(s, l)
  {
    var l := NextLabel(s, true, None);
    assert Advances(l) && Enabled(s, l);
  }

  lemma StuckIsQuiescent(s: System)
    requires Inv(s) && Stuck(s)
    ensures Quiescent(s) && !s.ui.loading
  {
    if !Quiescent(s) {
      SomethingMoves(s);
      assert false;
    }
  }

  lemma {:induction false} QuietRunIsShort(s: System, labels: seq<Label>)
    requires Quiet(s, labels)
    ensures Advancing(labels) + Measure(Run(s, labels)) <= Measure(s) + Produced(labels)
  {
    if |labels| > 0 {
      var p := labels[..|labels| - 1];
      QuietRunIsShort(s, p);
      MeasureStep(Run(s, p), labels[|labels| - 1]);
    }
  }

  lemma {:induction false} RunKeeps(s: System, labels: seq<Label>)
    requires Inv(s)
    ensures Inv(Run(s, labels))
  {
    if |labels| > 0 {
      RunKeeps(s, labels[..|labels| - 1]);
      StepKeeps(Run(s, labels[..|labels| - 1]), labels[|labels| - 1]);
    }
  }

  /**
   Once keys stop, from any reachable state and along every schedule, with any
   outcome of each connect and fetch: worker and delivery take at most as many steps
   as the measure and the events of other producers allow; and when they can take
   none, all is quiet and nothing is loading.
   */
  lemma QuietRunsEnd(s: System, labels: seq<Label>)
    requires Inv(s) && Quiet(s, labels)
    ensures Advancing(labels) <= Measure(s) + Produced(labels)
    ensures Stuck(Run(s, labels)) ==> Quiescent(Run(s, labels)) && !Run(s, labels).ui.loading
  {
    QuietRunIsShort(s, labels);
    RunKeeps(s, labels);
    if Stuck(Run(s, labels)) {
      StuckIsQuiescent(Run(s, labels));
    }
  }

  /** And there always is such a schedule, for instance one where every connect goes `ok` and every fetch ends in `result`. */
  lemma {:induction false} LoadingClears(s: System, ok: bool, result: Option<Req>) returns (labels: seq<Label>)
    requires Inv(s)
    ensures NoKeys(labels) && Quiescent(Run(s, labels)) && !Run(s, labels).ui.loading
    decreases Work(s.queue, s.worker), Ahead(s.inbox)
  {
    if Quiescent(s) {
      labels := [];
    } else {
      var l := NextLabel(s, ok, result);
      QuietProgress(s, l);
      StepKeeps(s, l);
      var rest := LoadingClears(Step(s, l), ok, result);
      RunCons(s, l, rest);
      labels := [l] + rest;
    }
  }

  // ---------- coalescing ----------

  lemma {:induction false} IncreasingAt(a: seq<nat>, i: nat, j: nat)
    requires Increasing(a) && i < j < |a|
    ensures a[i] < a[j]
  {
    if j < |a| - 1 {
      IncreasingAt(a[..|a| - 1], i, j);
    } else if i < |a| - 2 {
      IncreasingAt(a[..|a| - 1], i, |a| - 2);
    }
  }

  /** Once all is quiet the last answer is for the last accepted request, and nothing is loading. */
  lemma QuietAnswersLast(s: System)
    requires Inv(s) && Quiescent(s) && |s.accepted| > 0
    ensures |s.answered| > 0 && s.answered[|s.answered| - 1] == |s.accepted| - 1 && !s.ui.loading
  {
  }

  /** When the worker stops draining, what it goes on to fetch is the newest request ever accepted. */
  lemma FetchesNewest(s: System)
    requires Inv(s) && s.worker.Draining? && !Step(s, TryReceive).worker.Draining?
    ensures var t := Step(s, TryReceive);
            && |s.queue| == 0 && |s.accepted| > 0
            && (t.worker.Connecting? || t.worker.Fetching?) && t.worker.latest == s.accepted[|s.accepted| - 1]
            && (t.worker.Fetching? <==> s.worker.connected)
  {
  }

  /** Request number `i` is answered, or a later one is, or a later one is being worked on. */
  ghost predicate Covered(s: System, i: nat) {
    (exists j <- s.answered :: i <= j < |s.accepted|) || (Busy(s.worker) && i <= Taken(s))
  }

  lemma Superseded(s: System, i: nat)
    requires Inv(s) && i < |s.accepted| - |s.queue|
    ensures Covered(s, i)
  {
    if !Busy(s.worker) {
      assert LastAnswered(s.answered) in s.answered;
    }
  }

  /** Over any run, answers come in the order of the accepted requests, none twice. */
  lemma AnswersInOrder(signals: seq<string>, labels: seq<Label>, a: nat, b: nat)
    requires a < b < |Run(Start(signals), labels).answered|
    ensures var answered := Run(Start(signals), labels).answered; answered[a] < answered[b]
  {
    FocusNeverHangs(signals, labels);
    IncreasingAt(Run(Start(signals), labels).answered, a, b);
  }

  /**
   Over any run, every request taken off the queue is answered or superseded, and
   once all is quiet the last answer is for the last accepted request.
   */
  lemma AnsweredOrSuperseded(signals: seq<string>, labels: seq<Label>, i: nat)
    requires i < |Run(Start(signals), labels).accepted|
    ensures var s := Run(Start(signals), labels);
            && (i < |s.accepted| - |s.queue| ==> Covered(s, i))
            && (Quiescent(s) ==> LastAnswered(s.answered) == |s.accepted| - 1)
  {
    var s := Run(Start(signals), labels);
    FocusNeverHangs(signals, labels);
    if i < |s.accepted| - |s.queue| {
      Superseded(s, i);
    }
    if Quiescent(s) {
      QuietAnswersLast(s);
    }
  }

  // ---------- what is shown ----------

  /** This step answers a request. */
  predicate Answers(s: System, l: Label) {
    Enabled(s, l) && (l.FetchDone? || (l.ConnectDone? && !l.ok))
  }

  /** Every successful fetch comes back with what was asked for. */
  predicate Echoes(s: System, labels: seq<Label>) {
    |labels| > 0 ==>
      var p, l := labels[..|labels| - 1], labels[|labels| - 1];
      && Echoes(s, p)
      && (Answers(Run(s, p), l) && l.FetchDone? && l.result.Some? ==> l.result.value == Run(s, p).worker.latest)
  }

  /** The last answer given was a success. */
  predicate LastAnswerSucceeded(s: System, labels: seq<Label>) {
    |labels| > 0 &&
    var p, l := labels[..|labels| - 1], labels[|labels| - 1];
    if Answers(Run(s, p), l) then l.FetchDone? && l.result.Some? else LastAnswerSucceeded(s, p)
  }

  predicate Connected(w: Worker) {
    match w
    case Waiting(c) => c
    case Draining(_, c) => c
    case Sending(c) => c
    case Fetching(_) => true
    case Connecting(_) => false
  }

  /** The worker's connection: kept after a success, given up after a failure, made anew while it works on the next. */
  ghost predicate KeepsClient(w: Worker, succeeded: bool) {
    && (w.Waiting? || w.Draining? || w.Sending? ==> Connected(w) == succeeded)
    && (w.Connecting? ==> !succeeded)
  }

  lemma StepKeepsClient(s: System, l: Label, succeeded: bool)
    requires Inv(s) && KeepsClient(s.worker, succeeded)
    ensures KeepsClient(Step(s, l).worker, if Answers(s, l) then l.FetchDone? && l.result.Some? else succeeded)
  {
    if Enabled(s, l) && l.Press? {
      var (ui', r) := HandleKey(s.ui, l.key);
    }
  }

  /** Over any run: between answers the worker has a client exactly when its last answer was a success. */
  lemma {:induction false} ClientIsKept(signals: seq<string>, labels: seq<Label>)
    ensures KeepsClient(Run(Start(signals), labels).worker, LastAnswerSucceeded(Start(signals), labels))
  {
    if |labels| > 0 {
      ClientIsKept(signals, labels[..|labels| - 1]);
      FocusNeverHangs(signals, labels[..|labels| - 1]);
      StepKeepsClient(Run(Start(signals), labels[..|labels| - 1]), labels[|labels| - 1],
                      LastAnswerSucceeded(Start(signals), labels[..|labels| - 1]));
    }
  }

  /** What the screen will hold once the channel is delivered. */
  function WillShow(data: Option<Req>, inbox: seq<StreamEvent>): Option<Req> {
    if |inbox| == 0 then data
    else if inbox[|inbox| - 1].FocusBundle? then Some(inbox[|inbox| - 1].shown)
    else WillShow(data, inbox[..|inbox| - 1])
  }

  lemma WillShowSnoc(data: Option<Req>, inbox: seq<StreamEvent>, e: StreamEvent)
    ensures WillShow(data, inbox + [e]) == if e.FocusBundle? then Some(e.shown) else WillShow(data, inbox)
  {
    assert (inbox + [e])[..|inbox|] == inbox;
  }

  lemma {:induction false} WillShowPop(ui: Ui, inbox: seq<StreamEvent>)
    requires |inbox| > 0
    ensures WillShow(Apply(ui, inbox[0]).data, inbox[1..]) == WillShow(ui.data, inbox)
  {
    var last := |inbox| - 1;
    if last > 0 {
      assert inbox[1..][..last - 1] == inbox[..last][1..];
      WillShowPop(ui, inbox[..last]);
    }
  }

  lemma {:induction false} NothingToShow(data: Option<Req>, inbox: seq<StreamEvent>)
    requires Ahead(inbox) == 0
    ensures WillShow(data, inbox) == data
  {
    if |inbox| > 0 {
      NothingToShow(data, inbox[..|inbox| - 1]);
    }
  }

  /** The screen will hold the request last answered. */
  predicate ShowsAnswer(data: Option<Req>, inbox: seq<StreamEvent>, accepted: seq<Req>, answered: seq<nat>) {
    0 <= LastAnswered(answered) < |accepted| && WillShow(data, inbox) == Some(accepted[LastAnswered(answered)])
  }

  predicate Shows(s: System) {
    ShowsAnswer(s.ui.data, s.inbox, s.accepted, s.answered)
  }

  lemma PressShows(s: System, key: Key)
    requires Shows(s)
    ensures Shows(Step(s, Press(key)))
  {
    assert HandleKey(s.ui, key).0.data == s.ui.data;
  }

  lemma StepShows(s: System, l: Label)
    requires Shows(s) && Enabled(s, l) && !Answers(s, l)
    ensures Shows(Step(s, l))
  {
    match l
    case Press(key) => PressShows(s, key);
    case Produce(e) => WillShowSnoc(s.ui.data, s.inbox, e);
    case Deliver => WillShowPop(s.ui, s.inbox);
    case _ =>
  }

  lemma AnswerShows(s: System, shown: Req)
    requires Inv(s) && s.worker.Fetching? && shown == s.worker.latest
    ensures Shows(Step(s, FetchDone(Some(shown))))
  {
    WillShowSnoc(s.ui.data, s.inbox, FocusBundle(shown));
  }

  lemma {:induction false} RunShows(signals: seq<string>, labels: seq<Label>)
    requires Echoes(Start(signals), labels) && LastAnswerSucceeded(Start(signals), labels)
    ensures Shows(Run(Start(signals), labels))
  {
    var p, l := labels[..|labels| - 1], labels[|labels| - 1];
    var s := Run(Start(signals), p);
    if Answers(s, l) {
      FocusNeverHangs(signals, p);
      AnswerShows(s, l.result.value);
    } else {
      RunShows(signals, p);
      if Enabled(s, l) {
        StepShows(s, l);
      }
    }
  }

  /**
   If the server echoes what it was asked and the last answer was a success, then
   over any run, once all is quiet, the screen shows the last accepted request.
   */
  lemma ShowsLastAccepted(signals: seq<string>, labels: seq<Label>)
    requires Echoes(Start(signals), labels) && LastAnswerSucceeded(Start(signals), labels)
    requires Quiescent(Run(Start(signals), labels))
    ensures var t := Run(Start(signals), labels); |t.accepted| > 0 && t.ui.data == Some(t.accepted[|t.accepted| - 1])
  {
    FocusNeverHangs(signals, labels);
    RunShows(signals, labels);
    QuietShowsLast(Run(Start(signals), labels));
  }

  lemma QuietShowsLast(s: System)
    requires Inv(s) && Quiescent(s) && Shows(s)
    ensures |s.accepted| > 0 && s.ui.data == Some(s.accepted[|s.accepted| - 1])
  {
    NothingToShow(s.ui.data, s.inbox);
    assert LastAnswered(s.answered) == |s.accepted| - 1;
  }

  // ---------- the last key ----------

  ghost predicate KeyFree(labels: seq<Label>) {
    forall l <- labels :: !l.Press?
  }

  lemma {:induction false} QuietKeepsAccepted(s: System, labels: seq<Label>)
    requires Inv(s) && KeyFree(labels)
    ensures Inv(Run(s, labels)) && Run(s, labels).accepted == s.accepted
  {
    if |labels| > 0 {
      QuietKeepsAccepted(s, labels[..|labels| - 1]);
      StepKeeps(Run(s, labels[..|labels| - 1]), labels[|labels| - 1]);
      assert labels[|labels| - 1] in labels;
    }
  }

  lemma AskedIsAccepted(s: System, key: Key)
    requires Inv(s) && HandleKey(s.ui, key).1.Some?
    ensures var t, asked := Step(s, Press(key)), HandleKey(s.ui, key).1.value;
            && |t.accepted| > 0
            && t.accepted == (if |s.queue| < QUEUE_CAPACITY then s.accepted + [asked] else s.accepted)
  {
  }

  /**
   What the last key asked for is what the worker answered last, once all is quiet,
   exactly when the queue had room for it (or a dropped request merely repeated the
   last accepted one). With a full queue the screen names one symbol and the last
   answer is for another.
   */
  lemma LastKeyAnsweredIff(s: System, key: Key, labels: seq<Label>)
    requires Inv(s) && HandleKey(s.ui, key).1.Some?
    requires KeyFree(labels)
    requires Quiescent(Run(Step(s, Press(key)), labels))
    ensures var t := Run(Step(s, Press(key)), labels);
            var asked := HandleKey(s.ui, key).1.value;
            && |t.answered| > 0 && 0 <= t.answered[|t.answered| - 1] < |t.accepted|
            && (t.accepted[t.answered[|t.answered| - 1]] == asked <==>
                |s.queue| < QUEUE_CAPACITY || s.accepted[|s.accepted| - 1] == asked)
  {
    var first := Step(s, Press(key));
    PressKeeps(s, key);
    AskedIsAccepted(s, key);
    QuietKeepsAccepted(first, labels);
    QuietAnswersLast(Run(first, labels));
  }
}
