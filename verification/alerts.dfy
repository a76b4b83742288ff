/**
 The event-alert stream of the gateway (rust/vps1-serving/src/gateway.rs): boards
 arrive one after another, and each qualifying event id is sent once.
 */
module Alerts {
  import opened Common
  import opened Sums

  datatype Event = Event(eventId: string, severity: string, confidence: real, contradictionScore: real)

  datatype Filters = Filters(severityFloor: string, confidenceFloor: real, contradictionOnly: bool)

  predicate Qualifies(f: Filters, ev: Event) {
    && (f.severityFloor == "" || Severity(ev.severity) >= Severity(f.severityFloor))
    && ev.confidence >= f.confidenceFloor
    && (!f.contradictionOnly || ev.contradictionScore >= 0.35)
  }

  function Ids(events: seq<Event>): set<string> {
    set e <- events :: e.eventId
  }

  /** What a stream that has already sent the ids in `seen` sends on reading `items`. */
  function Fresh(f: Filters, seen: set<string>, items: seq<Event>): seq<Event> {
    if |items| == 0 then []
    else
      var p, ev := Fresh(f, seen, items[..|items| - 1]), items[|items| - 1];
      if Qualifies(f, ev) && ev.eventId !in seen + Ids(p) then p + [ev] else p
  }

  lemma IdsSnoc(events: seq<Event>, ev: Event)
    ensures Ids(events + [ev]) == Ids(events) + {ev.eventId}
  {
    forall id | id in Ids(events) ensures id in Ids(events + [ev]) {
      var e :| e in events && e.eventId == id;
      assert e in events + [ev];
    }
    assert ev in events + [ev];
  }

  function QualifyingIds(f: Filters, items: seq<Event>): set<string> {
    set e <- items | Qualifies(f, e) :: e.eventId
  }

  lemma QualifyingSnoc(f: Filters, items: seq<Event>, ev: Event)
    ensures QualifyingIds(f, items + [ev]) == QualifyingIds(f, items) + if Qualifies(f, ev) then {ev.eventId} else {}
  {
    forall id | id in QualifyingIds(f, items) ensures id in QualifyingIds(f, items + [ev]) {
      var e :| e in items && Qualifies(f, e) && e.eventId == id;
      assert e in items + [ev];
    }
    assert ev in items + [ev];
  }

  /** The ids sent or seen are exactly those seen before and those that qualify. */
  lemma {:induction false} FreshIsComplete(f: Filters, seen: set<string>, items: seq<Event>)
    ensures seen + Ids(Fresh(f, seen, items)) == seen + QualifyingIds(f, items)
  {
    if |items| > 0 {
      var items', ev := items[..|items| - 1], items[|items| - 1];
      FreshIsComplete(f, seen, items');
      assert items == items' + [ev];
      QualifyingSnoc(f, items', ev);
      IdsSnoc(Fresh(f, seen, items'), ev);
    }
  }

  ghost predicate DistinctIds(events: seq<Event>) {
    forall i, j :: 0 <= i < j < |events| ==> events[i].eventId != events[j].eventId
  }

  /** No id is sent twice or again, and nothing is sent that does not qualify or was not on a board. */
  lemma {:induction false} FreshIsSound(f: Filters, seen: set<string>, items: seq<Event>)
    ensures var s := Fresh(f, seen, items);
            DistinctIds(s) && Ids(s) !! seen && forall k :: 0 <= k < |s| ==> Qualifies(f, s[k]) && s[k] in items
  {
    if |items| > 0 {
      var items', ev := items[..|items| - 1], items[|items| - 1];
      FreshIsSound(f, seen, items');
      assert items == items' + [ev];
      var p := Fresh(f, seen, items');
      IdsSnoc(p, ev);
      forall k | 0 <= k < |p| ensures p[k].eventId in Ids(p) {
        assert p[k] in p;
      }
    }
  }

  /** Reading two boards in turn is reading them as one list. */
  lemma {:induction false} FreshConcat(f: Filters, seen: set<string>, a: seq<Event>, b: seq<Event>)
    ensures Fresh(f, seen, a + b) == Fresh(f, seen, a) + Fresh(f, seen + Ids(Fresh(f, seen, a)), b)
  {
    var p := Fresh(f, seen, a);
    if |b| == 0 {
      assert a + b == a;
    } else {
      var b', ev := b[..|b| - 1], b[|b| - 1];
      FreshConcat(f, seen, a, b');
      assert (a + b)[..|a + b| - 1] == a + b';
      var q := Fresh(f, seen + Ids(p), b');
      IdsConcat(p, q);
    }
  }

  lemma {:induction false} IdsConcat(p: seq<Event>, q: seq<Event>)
    ensures Ids(p + q) == Ids(p) + Ids(q)
  {
    if |q| == 0 {
      assert p + q == p;
    } else {
      var q', ev := q[..|q| - 1], q[|q| - 1];
      IdsConcat(p, q');
      assert p + q == (p + q') + [ev] && q == q' + [ev];
      IdsSnoc(p + q', ev);
      IdsSnoc(q', ev);
    }
  }

  // ---------- whole runs ----------

  function Flatten(boards: seq<seq<Event>>): seq<Event> {
    if |boards| == 0 then [] else Flatten(boards[..|boards| - 1]) + boards[|boards| - 1]
  }

  datatype Stream = Stream(seen: set<string>, sent: seq<Event>)

  function OnBoard(f: Filters, s: Stream, board: seq<Event>): Stream {
    var unsent := Fresh(f, s.seen, board);
    Stream(s.seen + Ids(unsent), s.sent + unsent)
  }

  function AfterBoards(f: Filters, boards: seq<seq<Event>>): Stream {
    if |boards| == 0 then Stream({}, []) else OnBoard(f, AfterBoards(f, boards[..|boards| - 1]), boards[|boards| - 1])
  }

  /** Any run of boards is one pass over all of them laid end to end, and `seen` is the set of ids sent. */
  lemma {:induction false} BoardsAsOne(f: Filters, boards: seq<seq<Event>>)
    ensures var s := AfterBoards(f, boards);
            s.sent == Fresh(f, {}, Flatten(boards)) && s.seen == Ids(s.sent)
  {
    if |boards| > 0 {
      var p, board := boards[..|boards| - 1], boards[|boards| - 1];
      BoardsAsOne(f, p);
      FreshConcat(f, {}, Flatten(p), board);
      var s := AfterBoards(f, p);
      assert {} + Ids(s.sent) == s.seen;
      IdsConcat(s.sent, Fresh(f, s.seen, board));
    }
  }

  /**
   After every fully processed board: each id was sent at most once, everything
   sent passes the filters and was on some board, and the ids sent are exactly
   those of the qualifying events of all boards so far.
   */
  lemma EachAlertOnce(f: Filters, boards: seq<seq<Event>>)
    ensures var s := AfterBoards(f, boards);
            && DistinctIds(s.sent)
            && (forall k :: 0 <= k < |s.sent| ==> Qualifies(f, s.sent[k]) && s.sent[k] in Flatten(boards))
            && s.seen == Ids(s.sent) == QualifyingIds(f, Flatten(boards))
  {
    BoardsAsOne(f, boards);
    FreshIsSound(f, {}, Flatten(boards));
    FreshIsComplete(f, {}, Flatten(boards));
    var s := AfterBoards(f, boards);
    assert {} + Ids(s.sent) == Ids(s.sent);
    assert {} + QualifyingIds(f, Flatten(boards)) == QualifyingIds(f, Flatten(boards));
  }

  /** What an event has to show to be sent. */
  ghost predicate Passes(f: Filters, ev: Event) {
    && (f.severityFloor == "" || AsSevere(ev.severity, f.severityFloor))
    && ev.confidence >= f.confidenceFloor
    && (f.contradictionOnly ==> ev.contradictionScore >= 0.35)
  }

  lemma QualifiesIff(f: Filters, ev: Event)
    ensures Qualifies(f, ev) <==> Passes(f, ev)
  {
    SeverityOrder(ev.severity, f.severityFloor);
  }

  lemma {:induction false} FlattenHolds(boards: seq<seq<Event>>, ev: Event)
    ensures ev in Flatten(boards) <==> exists b :: 0 <= b < |boards| && ev in boards[b]
  {
    if |boards| > 0 {
      var p := boards[..|boards| - 1];
      FlattenHolds(p, ev);
      if b :| 0 <= b < |p| && ev in p[b] {
        assert ev in boards[b];
      }
      if b :| 0 <= b < |boards| && ev in boards[b] {
        assert b < |p| ==> ev in p[b];
      }
      assert ev in boards[|boards| - 1] ==> exists b :: 0 <= b < |boards| && ev in boards[b];
    }
  }

  /**
   Over any run of boards: an id is sent exactly when some board holds an event with
   it that is severe enough, confident enough, and contradicted where that is asked for.
   */
  lemma SentIff(f: Filters, boards: seq<seq<Event>>, id: string)
    ensures id in Ids(AfterBoards(f, boards).sent) <==>
            exists b, ev :: 0 <= b < |boards| && ev in boards[b] && Passes(f, ev) && ev.eventId == id
  {
    EachAlertOnce(f, boards);
    if id in QualifyingIds(f, Flatten(boards)) {
      var ev :| ev in Flatten(boards) && Qualifies(f, ev) && ev.eventId == id;
      QualifiesIff(f, ev);
      FlattenHolds(boards, ev);
    }
    if b, ev :| 0 <= b < |boards| && ev in boards[b] && Passes(f, ev) && ev.eventId == id {
      QualifiesIff(f, ev);
      FlattenHolds(boards, ev);
    }
  }

  // ---------- the stream as an object ----------

  class AlertStream {
    const filters: Filters
    var seen: set<string>
    var sent: seq<Event>

    function State(): Stream
      reads this
    {
      Stream(seen, sent)
    }

    /** The confidence floor of the request is clamped to the unit interval. */
    constructor (severityFloor: string, confidenceFloor: real, contradictionOnly: bool)
      ensures filters == Filters(severityFloor, Clamp(confidenceFloor, 0.0, 1.0), contradictionOnly)
      ensures State() == AfterBoards(filters, [])
    {
      filters := Filters(severityFloor, Clamp(confidenceFloor, 0.0, 1.0), contradictionOnly);
      seen, sent := {}, [];
    }

    /**
     The loop over one board. `room` is how many more sends the receiver takes
     before it goes away; the first one beyond ends the stream.
     */
    method ProcessBoard(items: seq<Event>, room: nat) returns (open: bool)
      modifies this
      ensures var unsent := Fresh(filters, old(seen), items);
              && open == (|unsent| <= room)
              && sent == old(sent) + (if open then unsent else unsent[..room])
              && (open ==> State() == OnBoard(filters, old(State()), items))
    {
      ghost var before, already := seen, sent;
      var left := room;
      for k := 0 to |items|
        invariant var unsent := Fresh(filters, before, items[..k]);
                  && sent == already + unsent && seen == before + Ids(unsent)
                  && left == room - |unsent|
      {
        assert items[..k + 1][..k] == items[..k];
        var ev := items[k];
        if Qualifies(filters, ev) && ev.eventId !in seen {
          if left == 0 {
            FreshGrows(filters, before, items, k + 1);
            return false;
          }
          IdsSnoc(Fresh(filters, before, items[..k]), ev);
          left := left - 1;
          sent := sent + [ev];
          seen := seen + {ev.eventId};
        }
      }
      assert items[..|items|] == items;
      open := true;
    }
  }

  lemma {:induction false} FreshGrows(f: Filters, seen: set<string>, items: seq<Event>, k: nat)
    requires k <= |items|
    ensures Fresh(f, seen, items[..k]) <= Fresh(f, seen, items)
  {
    if k < |items| {
      FreshGrows(f, seen, items[..|items| - 1], k);
      assert items[..|items| - 1][..k] == items[..k];
    } else {
      assert items[..k] == items;
    }
  }
}
