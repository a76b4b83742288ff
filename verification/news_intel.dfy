/**
 Event grouping, ranking and cursor pagination of `NewsIntelEngine`
 (src/quant_platform/news_intel.py).
 */
module NewsIntel {
  import opened Common

  datatype Item = Item(symbol: string, headline: string, source: string, sentiment: string, published: int)

  datatype Summary = Summary(
    eventId: string,
    severity: string,
    novelty: real,
    contradiction: real,
    confidence: real,
    sentiment: string,
    published: int,
    articleCount: nat)

  /** The parts of the engine that are not looked into: text normalisation, hashing, scoring, parsing. */
  datatype Engine = Engine(
    normalize: string -> string,
    eventIdOf: string -> string,
    severityOf: (string, string) -> string,
    confidenceOf: (seq<Item>, real) -> real,
    noveltyOf: seq<Item> -> real,
    parseInt: string -> Option<int>) {

    /** `int(str(n)) == n`, all that pagination needs of `int`. */
    ghost predicate ParsesDecimals() {
      forall n: nat :: parseInt(ToDecimal(n)) == Some(n)
    }

    function KeyOf(item: Item): string {
      (if item.symbol != "" then item.symbol else "MARKET") + "|" + normalize(item.headline)
    }
  }

  // ---------- grouping ----------

  function Select(en: Engine, items: seq<Item>, key: string): seq<Item> {
    if |items| == 0 then []
    else Select(en, items[..|items| - 1], key) + if en.KeyOf(items[|items| - 1]) == key then [items[|items| - 1]] else []
  }

  function Keys(en: Engine, items: seq<Item>): seq<string> {
    if |items| == 0 then []
    else
      var p, key := Keys(en, items[..|items| - 1]), en.KeyOf(items[|items| - 1]);
      if key in p then p else p + [key]
  }

  lemma {:induction false} KeysCover(en: Engine, items: seq<Item>)
    ensures Distinct(Keys(en, items))
    ensures forall k :: 0 <= k < |items| ==> en.KeyOf(items[k]) in Keys(en, items)
  {
    if |items| > 0 {
      KeysCover(en, items[..|items| - 1]);
    }
  }

  lemma {:induction false} SelectsOnlyKey(en: Engine, items: seq<Item>, key: string)
    ensures forall k :: 0 <= k < |Select(en, items, key)| ==> en.KeyOf(Select(en, items, key)[k]) == key
    ensures key in Keys(en, items) <==> |Select(en, items, key)| > 0
  {
    if |items| > 0 {
      SelectsOnlyKey(en, items[..|items| - 1], key);
    }
  }

  /** The items of the groups of `keys`, all together. */
  function Gathered(en: Engine, items: seq<Item>, keys: seq<string>): multiset<Item> {
    if |keys| == 0 then multiset{}
    else Gathered(en, items, keys[..|keys| - 1]) + multiset(Select(en, items, keys[|keys| - 1]))
  }

  lemma SelectSnoc(en: Engine, items: seq<Item>, x: Item, key: string)
    ensures Select(en, items + [x], key) == Select(en, items, key) + if en.KeyOf(x) == key then [x] else []
  {
    assert (items + [x])[..|items|] == items;
  }

  lemma {:induction false} GatherElsewhere(en: Engine, items: seq<Item>, x: Item, keys: seq<string>)
    requires en.KeyOf(x) !in keys
    ensures Gathered(en, items + [x], keys) == Gathered(en, items, keys)
  {
    if |keys| > 0 {
      var p, key := keys[..|keys| - 1], keys[|keys| - 1];
      assert key in keys;
      GatherElsewhere(en, items, x, p);
      SelectSnoc(en, items, x, key);
      assert Select(en, items + [x], key) == Select(en, items, key);
    }
  }

  lemma GatheredSnoc(en: Engine, items: seq<Item>, keys: seq<string>, key: string)
    ensures Gathered(en, items, keys + [key]) == Gathered(en, items, keys) + multiset(Select(en, items, key))
  {
    assert (keys + [key])[..|keys|] == keys;
  }

  /** A new item joins the group of its own key, and only that one. */
  lemma GatherAtKey(en: Engine, items: seq<Item>, x: Item, keys: seq<string>)
    requires en.KeyOf(x) !in keys
    ensures Gathered(en, items + [x], keys + [en.KeyOf(x)]) == Gathered(en, items, keys + [en.KeyOf(x)]) + multiset{x}
  {
    var key := en.KeyOf(x);
    GatheredSnoc(en, items + [x], keys, key);
    GatheredSnoc(en, items, keys, key);
    GatherElsewhere(en, items, x, keys);
    SelectSnoc(en, items, x, key);
    assert multiset(Select(en, items, key) + [x]) == multiset(Select(en, items, key)) + multiset{x};
  }

  lemma {:induction false} GatherOneMore(en: Engine, items: seq<Item>, x: Item, keys: seq<string>)
    requires Distinct(keys) && en.KeyOf(x) in keys
    ensures Gathered(en, items + [x], keys) == Gathered(en, items, keys) + multiset{x}
  {
    var p, key := keys[..|keys| - 1], keys[|keys| - 1];
    assert keys == p + [key];
    DistinctSnoc(p, key);
    if en.KeyOf(x) == key {
      GatherAtKey(en, items, x, p);
    } else {
      GatherOneMore(en, items, x, p);
      GatheredSnoc(en, items + [x], p, key);
      GatheredSnoc(en, items, p, key);
      SelectSnoc(en, items, x, key);
      assert Select(en, items + [x], key) == Select(en, items, key);
    }
  }

  /** The groups partition the fetched items, whichever list of distinct keys covers them. */
  lemma {:induction false} GroupsPartition(en: Engine, items: seq<Item>, keys: seq<string>)
    requires Distinct(keys)
    requires forall k :: 0 <= k < |items| ==> en.KeyOf(items[k]) in keys
    ensures Gathered(en, items, keys) == multiset(items)
  {
    if |items| == 0 {
      NothingGathered(en, keys);
    } else {
      var p, x := items[..|items| - 1], items[|items| - 1];
      GroupsPartition(en, p, keys);
      GatherOneMore(en, p, x, keys);
      assert items == p + [x];
    }
  }

  lemma {:induction false} NothingGathered(en: Engine, keys: seq<string>)
    ensures Gathered(en, [], keys) == multiset{}
  {
    if |keys| > 0 {
      NothingGathered(en, keys[..|keys| - 1]);
    }
  }

  /** `_group_events`: the dictionary filled item by item, its keys in insertion order. */
  method GroupEvents(en: Engine, items: seq<Item>) returns (keys: seq<string>, groups: map<string, seq<Item>>)
    ensures keys == Keys(en, items)
    ensures forall key :: key in groups <==> key in keys
    ensures forall key <- keys :: groups[key] == Select(en, items, key)
  {
    keys, groups := [], map[];
    for k := 0 to |items|
      invariant keys == Keys(en, items[..k])
      invariant forall key :: key in groups <==> key in keys
      invariant forall key <- keys :: groups[key] == Select(en, items[..k], key)
    {
      var item := items[k];
      var key := en.KeyOf(item);
      assert items[..k + 1][..k] == items[..k];
      SelectsOnlyKey(en, items[..k], key);
      if key !in groups {
        keys := keys + [key];
        groups := groups[key := []];
      }
      groups := groups[key := groups[key] + [item]];
    }
    assert items[..|items|] == items;
  }

  // ---------- summaries ----------

  /** The newest item, the first of them in group order. */
  function Latest(group: seq<Item>): (item: Item)
    requires |group| > 0
    ensures item in group
    ensures forall k :: 0 <= k < |group| ==> group[k].published <= item.published
  {
    if |group| == 1 then group[0]
    else
      var p := Latest(group[..|group| - 1]);
      if group[|group| - 1].published > p.published then group[|group| - 1] else p
  }

  function Sentiments(group: seq<Item>): set<string> {
    set it <- group :: it.sentiment
  }

  function ContradictionScore(group: seq<Item>): real {
    if "positive" in Sentiments(group) && "negative" in Sentiments(group) then 0.8
    else if |Sentiments(group)| > 1 then 0.35
    else 0.0
  }

  function Summarize(en: Engine, group: seq<Item>): Summary
    requires |group| > 0
  {
    var latest, contradiction := Latest(group), ContradictionScore(group);
    Summary(en.eventIdOf(en.KeyOf(latest)), en.severityOf(latest.headline, latest.sentiment), en.noveltyOf(group),
            contradiction, en.confidenceOf(group, contradiction), latest.sentiment, latest.published, |group|)
  }

  function Summaries(en: Engine, items: seq<Item>, keys: seq<string>): (es: seq<Summary>)
    requires forall key <- keys :: |Select(en, items, key)| > 0
    ensures |es| == |keys|
  {
    if |keys| == 0 then []
    else
      assert keys[|keys| - 1] in keys;
      Summaries(en, items, keys[..|keys| - 1]) + [Summarize(en, Select(en, items, keys[|keys| - 1]))]
  }

  lemma KeysHaveGroups(en: Engine, items: seq<Item>)
    ensures forall key <- Keys(en, items) :: |Select(en, items, key)| > 0
  {
    forall key <- Keys(en, items) ensures |Select(en, items, key)| > 0 {
      SelectsOnlyKey(en, items, key);
    }
  }

  function ArticleTotal(es: seq<Summary>): nat {
    if |es| == 0 then 0 else ArticleTotal(es[..|es| - 1]) + es[|es| - 1].articleCount
  }

  lemma {:induction false} TotalIsGathered(en: Engine, items: seq<Item>, keys: seq<string>)
    requires forall key <- keys :: |Select(en, items, key)| > 0
    ensures ArticleTotal(Summaries(en, items, keys)) == |Gathered(en, items, keys)|
  {
    if |keys| > 0 {
      assert keys[|keys| - 1] in keys;
      TotalIsGathered(en, items, keys[..|keys| - 1]);
    }
  }

  /** Before any filter the article counts of the events add up to the number of items fetched. */
  lemma ArticleCountsAddUp(en: Engine, items: seq<Item>)
    ensures (forall key <- Keys(en, items) :: |Select(en, items, key)| > 0)
            && ArticleTotal(Summaries(en, items, Keys(en, items))) == |items|
  {
    KeysHaveGroups(en, items);
    KeysCover(en, items);
    TotalIsGathered(en, items, Keys(en, items));
    GroupsPartition(en, items, Keys(en, items));
    assert |multiset(items)| == |items|;
  }

  /** The event id recomputed from the newest article is the id of the group's own key. */
  lemma EventIdIsOfKey(en: Engine, items: seq<Item>, key: string)
    requires key in Keys(en, items)
    ensures |Select(en, items, key)| > 0 && Summarize(en, Select(en, items, key)).eventId == en.eventIdOf(key)
  {
    SelectsOnlyKey(en, items, key);
  }

  lemma {:induction false} IdOfSummary(en: Engine, items: seq<Item>, keys: seq<string>, i: nat)
    requires forall key <- keys :: |Select(en, items, key)| > 0
    requires i < |keys|
    ensures Summaries(en, items, keys)[i].eventId == en.eventIdOf(keys[i])
  {
    var n := |keys| - 1;
    if i < n {
      IdOfSummary(en, items, keys[..n], i);
    } else {
      assert keys[n] in keys;
      SelectsOnlyKey(en, items, keys[n]);
    }
  }

  /** Two different keys of these items get the same event id. */
  ghost predicate Confuses(en: Engine, keys: seq<string>) {
    exists i, j :: 0 <= i < j < |keys| && en.eventIdOf(keys[i]) == en.eventIdOf(keys[j])
  }

  ghost predicate DistinctIds(es: seq<Summary>) {
    forall i, j :: 0 <= i < j < |es| ==> es[i].eventId != es[j].eventId
  }

  /** Before any filter two events share an id exactly when `eventIdOf` confuses two different keys. */
  lemma IdsAreDistinctIff(en: Engine, items: seq<Item>)
    ensures Distinct(Keys(en, items)) && forall key <- Keys(en, items) :: |Select(en, items, key)| > 0
    ensures DistinctIds(Summaries(en, items, Keys(en, items))) <==> !Confuses(en, Keys(en, items))
  {
    var keys := Keys(en, items);
    KeysCover(en, items);
    KeysHaveGroups(en, items);
    forall i | 0 <= i < |keys| ensures Summaries(en, items, keys)[i].eventId == en.eventIdOf(keys[i]) {
      IdOfSummary(en, items, keys, i);
    }
  }

  function IdCount(es: seq<Summary>, id: string): nat {
    if |es| == 0 then 0 else IdCount(es[..|es| - 1], id) + if es[|es| - 1].eventId == id then 1 else 0
  }

  lemma {:induction false} IdCountPositive(es: seq<Summary>, id: string)
    ensures IdCount(es, id) > 0 <==> exists k :: 0 <= k < |es| && es[k].eventId == id
  {
    if |es| > 0 {
      var p := es[..|es| - 1];
      IdCountPositive(p, id);
      if k :| 0 <= k < |es| && es[k].eventId == id {
        assert k < |p| ==> p[k].eventId == id;
      }
      if k :| 0 <= k < |p| && p[k].eventId == id {
        assert es[k].eventId == id;
      }
      assert es[|es| - 1].eventId == id ==> exists k :: 0 <= k < |es| && es[k].eventId == id;
    }
  }

  ghost predicate NoIdTwice(es: seq<Summary>) {
    forall id :: IdCount(es, id) <= 1
  }

  lemma DistinctIdsSnoc(es: seq<Summary>)
    requires |es| > 0
    ensures var p, e := es[..|es| - 1], es[|es| - 1];
            DistinctIds(es) <==> DistinctIds(p) && forall k :: 0 <= k < |p| ==> p[k].eventId != e.eventId
  {
  }

  lemma {:induction false} DistinctIdsIff(es: seq<Summary>)
    ensures DistinctIds(es) <==> NoIdTwice(es)
  {
    if |es| > 0 {
      var p, e := es[..|es| - 1], es[|es| - 1];
      DistinctIdsIff(p);
      DistinctIdsSnoc(es);
      IdCountPositive(p, e.eventId);
      CountSnoc(p, e);
      assert es == p + [e];
    }
  }

  lemma CountSnoc(p: seq<Summary>, e: Summary)
    ensures NoIdTwice(p + [e]) <==> NoIdTwice(p) && IdCount(p, e.eventId) == 0
  {
    assert (p + [e])[..|p|] == p;
    forall id ensures IdCount(p + [e], id) == IdCount(p, id) + if e.eventId == id then 1 else 0 {
    }
    if NoIdTwice(p + [e]) {
      assert IdCount(p + [e], e.eventId) <= 1;
      forall id ensures IdCount(p, id) <= 1 {
        assert IdCount(p + [e], id) <= 1;
      }
    }
  }

  // ---------- what a summary tells ----------

  /** The first of the newest items of a group. */
  ghost predicate IsLatest(group: seq<Item>, k: nat) {
    && k < |group|
    && (forall j :: 0 <= j < |group| ==> group[j].published <= group[k].published)
    && (forall j :: 0 <= j < k ==> group[j].published < group[k].published)
  }

  lemma {:induction false} LatestIsFirst(group: seq<Item>) returns (k: nat)
    requires |group| > 0
    ensures IsLatest(group, k) && Latest(group) == group[k]
  {
    if |group| == 1 {
      k := 0;
    } else {
      k := LatestIsFirst(group[..|group| - 1]);
      if group[|group| - 1].published > group[k].published {
        k := |group| - 1;
      }
    }
  }

  ghost predicate Disputed(group: seq<Item>) {
    (exists i :: 0 <= i < |group| && group[i].sentiment == "positive") && exists i :: 0 <= i < |group| && group[i].sentiment == "negative"
  }

  ghost predicate Unanimous(group: seq<Item>) {
    forall i, j :: 0 <= i < j < |group| ==> group[i].sentiment == group[j].sentiment
  }

  lemma SentimentsSpread(group: seq<Item>)
    requires |group| > 0
    ensures |Sentiments(group)| > 1 <==> !Unanimous(group)
  {
    var x := group[0].sentiment;
    assert group[0] in group;
    if Unanimous(group) {
      assert Sentiments(group) == {x};
    } else {
      var i, j :| 0 <= i < j < |group| && group[i].sentiment != group[j].sentiment;
      assert group[i] in group && group[j] in group;
      var y, z := group[i].sentiment, group[j].sentiment;
      assert {y, z} <= Sentiments(group);
      assert Sentiments(group) == {y, z} + (Sentiments(group) - {y, z});
    }
  }

  /**
   A summary counts its articles, speaks with the first of the newest, and is
   contradicted by 0.8 where positive meets negative, else by 0.35 unless unanimous.
   */
  lemma SummaryTells(en: Engine, group: seq<Item>) returns (k: nat)
    requires |group| > 0
    ensures IsLatest(group, k)
    ensures var s := Summarize(en, group);
            && s.articleCount == |group| && s.sentiment == group[k].sentiment && s.published == group[k].published
            && s.severity == en.severityOf(group[k].headline, group[k].sentiment)
            && s.contradiction == (if Disputed(group) then 0.8 else if Unanimous(group) then 0.0 else 0.35)
            && s.confidence == en.confidenceOf(group, s.contradiction)
  {
    k := LatestIsFirst(group);
    SentimentsSpread(group);
    forall t: string ensures t in Sentiments(group) <==> exists i :: 0 <= i < |group| && group[i].sentiment == t {
      if i :| 0 <= i < |group| && group[i].sentiment == t {
        assert group[i] in group;
      }
    }
    assert "positive" != "negative";
    if Disputed(group) {
      var i, j :| 0 <= i < |group| && 0 <= j < |group| && group[i].sentiment == "positive" && group[j].sentiment == "negative";
    }
  }

  function Market(symbol: string): string {
    if symbol == "" then "MARKET" else symbol
  }

  lemma FirstBarSplits(s: string, t: string, s': string, t': string)
    requires '|' !in s && '|' !in s' && s + "|" + t == s' + "|" + t'
    ensures s == s' && t == t'
  {
    var l, r := s + "|" + t, s' + "|" + t';
    assert forall k :: 0 <= k < |s| ==> l[k] == s[k] != '|';
    assert forall k :: 0 <= k < |s'| ==> r[k] == s'[k] != '|';
    assert l[|s|] == '|' && r[|s'|] == '|';
    assert s == l[..|s|] && s' == r[..|s'|] && t == l[|s| + 1..] && t' == r[|s'| + 1..];
  }

  /** Two articles are of one event exactly when they are about one symbol, none being the market, and their headlines normalise alike. */
  lemma SameEventIff(en: Engine, a: Item, b: Item)
    requires '|' !in a.symbol && '|' !in b.symbol
    ensures en.KeyOf(a) == en.KeyOf(b) <==>
            Market(a.symbol) == Market(b.symbol) && en.normalize(a.headline) == en.normalize(b.headline)
  {
    if en.KeyOf(a) == en.KeyOf(b) {
      FirstBarSplits(Market(a.symbol), en.normalize(a.headline), Market(b.symbol), en.normalize(b.headline));
    }
  }

  // ---------- ranking ----------

  /** Strictly lower in the lexicographic rank (severity, contradiction, novelty, confidence). */
  predicate RanksBelow(a: Summary, b: Summary) {
    var ra, rb := Severity(a.severity), Severity(b.severity);
    || ra < rb
    || (ra == rb && (|| a.contradiction < b.contradiction
                     || (a.contradiction == b.contradiction &&
                         (|| a.novelty < b.novelty || (a.novelty == b.novelty && a.confidence < b.confidence)))))
  }

  ghost predicate Ranked(es: seq<Summary>) {
    forall i, j :: 0 <= i < j < |es| ==> !RanksBelow(es[i], es[j])
  }

  /** The more severe word first; between equals the more contradicted, then the newer, then the more confident. */
  ghost predicate InOrder(e: Summary, f: Summary) {
    && AsSevere(e.severity, f.severity)
    && (AsSevere(f.severity, e.severity) ==>
          && e.contradiction >= f.contradiction
          && (e.contradiction == f.contradiction ==>
                e.novelty >= f.novelty && (e.novelty == f.novelty ==> e.confidence >= f.confidence)))
  }

  lemma RankIsOrder(e: Summary, f: Summary)
    ensures !RanksBelow(e, f) <==> InOrder(e, f)
  {
    SeverityOrder(e.severity, f.severity);
    SeverityOrder(f.severity, e.severity);
  }

  /** `sort(reverse=True)` is stable: an event goes after all that do not rank below it. */
  function InsertRanked(es: seq<Summary>, e: Summary): (r: seq<Summary>)
    ensures multiset(r) == multiset(es) + multiset{e}
  {
    if |es| > 0 && RanksBelow(es[|es| - 1], e) then
      assert es == es[..|es| - 1] + [es[|es| - 1]];
      InsertRanked(es[..|es| - 1], e) + [es[|es| - 1]]
    else es + [e]
  }

  function SortRanked(es: seq<Summary>): (r: seq<Summary>)
    ensures multiset(r) == multiset(es)
  {
    if |es| == 0 then []
    else
      assert es == es[..|es| - 1] + [es[|es| - 1]];
      InsertRanked(SortRanked(es[..|es| - 1]), es[|es| - 1])
  }

  lemma {:induction false} InsertKeepsRanked(es: seq<Summary>, e: Summary)
    requires Ranked(es)
    ensures Ranked(InsertRanked(es, e))
  {
    if |es| > 0 {
      var p, last := es[..|es| - 1], es[|es| - 1];
      if RanksBelow(last, e) {
        InsertKeepsRanked(p, e);
        assert p + [last] == es;
        InsertedStayAbove(p, e, last);
      } else {
        forall k | 0 <= k < |es| ensures !RanksBelow(es[k], e) {
          RankTransitive(es[k], last, e);
        }
      }
    }
  }

  lemma RankTransitive(a: Summary, b: Summary, c: Summary)
    requires !RanksBelow(b, c)
    ensures !RanksBelow(a, b) ==> !RanksBelow(a, c)
  {
  }

  lemma InsertedStayAbove(p: seq<Summary>, e: Summary, last: Summary)
    requires Ranked(p + [last]) && RanksBelow(last, e)
    ensures forall k :: 0 <= k < |InsertRanked(p, e)| ==> !RanksBelow(InsertRanked(p, e)[k], last)
  {
    var r := InsertRanked(p, e);
    forall k | 0 <= k < |r| ensures !RanksBelow(r[k], last) {
      assert r[k] in multiset(p) + multiset{e};
      if r[k] in p {
        var i :| 0 <= i < |p| && p[i] == r[k];
        assert !RanksBelow((p + [last])[i], (p + [last])[|p|]);
      }
    }
  }

  lemma {:induction false} SortRanks(es: seq<Summary>)
    ensures Ranked(SortRanked(es))
  {
    if |es| > 0 {
      SortRanks(es[..|es| - 1]);
      InsertKeepsRanked(SortRanked(es[..|es| - 1]), es[|es| - 1]);
    }
  }

  // ---------- listing ----------

  function Filter(keep: Summary -> bool, es: seq<Summary>): seq<Summary> {
    if |es| == 0 then []
    else Filter(keep, es[..|es| - 1]) + if keep(es[|es| - 1]) then [es[|es| - 1]] else []
  }

  lemma {:induction false} FilterCount(keep: Summary -> bool, es: seq<Summary>, e: Summary)
    ensures multiset(Filter(keep, es))[e] == if keep(e) then multiset(es)[e] else 0
  {
    if |es| > 0 {
      FilterCount(keep, es[..|es| - 1], e);
      assert es == es[..|es| - 1] + [es[|es| - 1]];
    }
  }

  lemma {:induction false} FilterKeepsRanked(keep: Summary -> bool, es: seq<Summary>)
    requires Ranked(es)
    ensures Ranked(Filter(keep, es))
  {
    if |es| > 0 {
      var p, last := es[..|es| - 1], es[|es| - 1];
      FilterKeepsRanked(keep, p);
      forall e <- Filter(keep, p) ensures !RanksBelow(e, last) {
        FilterCount(keep, p, e);
        assert e in multiset(Filter(keep, p));
        assert e in multiset(p);
        var i :| 0 <= i < |p| && p[i] == e;
        assert !RanksBelow(es[i], es[|es| - 1]);
      }
      RankedSnoc(Filter(keep, p), last);
    }
  }

  lemma RankedSnoc(es: seq<Summary>, last: Summary)
    requires Ranked(es) && forall e <- es :: !RanksBelow(e, last)
    ensures Ranked(es + [last])
  {
  }

  function NotOlder(cutoff: int): Summary -> bool {
    (e: Summary) => e.published >= cutoff
  }

  /** The two filters of `list_events`; an empty one lets everything through. */
  function Wanted(severity: string, sentiment: string): Summary -> bool {
    (e: Summary) => (severity == "" || e.severity == severity) && (sentiment == "" || e.sentiment == sentiment)
  }

  /** The events `list_events` pages over: grouped, cut at the window, ranked, filtered. */
  function Board(en: Engine, items: seq<Item>, cutoff: int, severity: string, sentiment: string): seq<Summary> {
    KeysHaveGroups(en, items);
    Filter(Wanted(severity, sentiment), SortRanked(Filter(NotOlder(cutoff), Summaries(en, items, Keys(en, items)))))
  }

  /**
   The board is in order, and holds each event as often as grouping made it if it is
   not older than the cutoff and of the severity and sentiment asked for, else never.
   */
  lemma BoardIsRankedFilter(en: Engine, items: seq<Item>, cutoff: int, severity: string, sentiment: string, e: Summary)
    ensures var board := Board(en, items, cutoff, severity, sentiment);
            && Ranked(board) && forall i, j :: 0 <= i < j < |board| ==> InOrder(board[i], board[j])
    ensures (forall key <- Keys(en, items) :: |Select(en, items, key)| > 0)
            && multiset(Board(en, items, cutoff, severity, sentiment))[e]
               == if && e.published >= cutoff
                     && (severity == "" || e.severity == severity) && (sentiment == "" || e.sentiment == sentiment)
                  then multiset(Summaries(en, items, Keys(en, items)))[e] else 0
  {
    forall a, b ensures !RanksBelow(a, b) <==> InOrder(a, b) {
      RankIsOrder(a, b);
    }
    KeysHaveGroups(en, items);
    var all := Summaries(en, items, Keys(en, items));
    var recent := Filter(NotOlder(cutoff), all);
    SortRanks(recent);
    FilterKeepsRanked(Wanted(severity, sentiment), SortRanked(recent));
    FilterCount(NotOlder(cutoff), all, e);
    FilterCount(Wanted(severity, sentiment), SortRanked(recent), e);
  }

  lemma {:induction false} InsertIdCount(es: seq<Summary>, e: Summary, id: string)
    ensures IdCount(InsertRanked(es, e), id) == IdCount(es, id) + if e.eventId == id then 1 else 0
  {
    if |es| > 0 && RanksBelow(es[|es| - 1], e) {
      var r := InsertRanked(es, e);
      InsertIdCount(es[..|es| - 1], e, id);
      assert r[..|r| - 1] == InsertRanked(es[..|es| - 1], e);
    } else {
      assert (es + [e])[..|es|] == es;
    }
  }

  lemma {:induction false} SortIdCount(es: seq<Summary>, id: string)
    ensures IdCount(SortRanked(es), id) == IdCount(es, id)
  {
    if |es| > 0 {
      SortIdCount(es[..|es| - 1], id);
      InsertIdCount(SortRanked(es[..|es| - 1]), es[|es| - 1], id);
    }
  }

  lemma {:induction false} FilterIdCount(keep: Summary -> bool, es: seq<Summary>, id: string)
    ensures IdCount(Filter(keep, es), id) <= IdCount(es, id)
  {
    if |es| > 0 {
      FilterIdCount(keep, es[..|es| - 1], id);
      var p := Filter(keep, es[..|es| - 1]);
      assert (p + [es[|es| - 1]])[..|p|] == p && p + [] == p;
    }
  }

  /** On any board two events with one id come from two keys that `eventIdOf` confuses; so deduplicating by id loses nothing else. */
  lemma BoardIdsDistinct(en: Engine, items: seq<Item>, cutoff: int, severity: string, sentiment: string)
    requires !Confuses(en, Keys(en, items))
    ensures DistinctIds(Board(en, items, cutoff, severity, sentiment))
  {
    IdsAreDistinctIff(en, items);
    var all := Summaries(en, items, Keys(en, items));
    var recent := Filter(NotOlder(cutoff), all);
    DistinctIdsIff(all);
    forall id ensures IdCount(Board(en, items, cutoff, severity, sentiment), id) <= 1 {
      FilterIdCount(NotOlder(cutoff), all, id);
      SortIdCount(recent, id);
      FilterIdCount(Wanted(severity, sentiment), SortRanked(recent), id);
      assert IdCount(all, id) <= 1;
    }
    DistinctIdsIff(Board(en, items, cutoff, severity, sentiment));
  }

  /** `_all_events` after the fetch: group, summarise, cut, and sort the list in place. */
  method AllEvents(en: Engine, items: seq<Item>, cutoff: int) returns (events: seq<Summary>)
    ensures events == Board(en, items, cutoff, "", "")
  {
    var keys, groups := GroupEvents(en, items);
    KeysHaveGroups(en, items);
    events := [];
    for k := 0 to |keys|
      invariant events == Summaries(en, items, keys[..k])
    {
      assert keys[..k + 1][..k] == keys[..k];
      events := events + [Summarize(en, groups[keys[k]])];
    }
    assert keys[..|keys|] == keys;
    events := SortRanked(Filter(NotOlder(cutoff), events));
    FilterAll(Wanted("", ""), events);
  }

  lemma {:induction false} FilterAll(keep: Summary -> bool, es: seq<Summary>)
    requires forall e :: keep(e)
    ensures Filter(keep, es) == es
  {
    if |es| > 0 {
      FilterAll(keep, es[..|es| - 1]);
    }
  }

  // ---------- pagination ----------

  function Digit(d: nat): char
    requires d < 10
  {
    "0123456789"[d]
  }

  function ToDecimal(n: nat): (s: string)
    ensures |s| > 0
  {
    if n < 10 then [Digit(n)] else ToDecimal(n / 10) + [Digit(n % 10)]
  }

  /** Plain digits read back, enough to show that some `parseInt` meets ParsesDecimals. */
  function ReadDigits(s: string): Option<int> {
    if |s| == 0 || !('0' <= s[|s| - 1] <= '9') then None
    else
      var d := s[|s| - 1] as int - '0' as int;
      if |s| == 1 then Some(d)
      else
        var p := ReadDigits(s[..|s| - 1]);
        if p.None? then None else Some(p.value * 10 + d)
  }

  lemma {:induction false} DecimalRoundTrip(n: nat)
    ensures ReadDigits(ToDecimal(n)) == Some(n)
  {
    if n >= 10 {
      DecimalRoundTrip(n / 10);
      assert ToDecimal(n)[..|ToDecimal(n)| - 1] == ToDecimal(n / 10);
      assert n == n / 10 * 10 + n % 10;
    }
  }

  datatype Page = Page(items: seq<Summary>, nextCursor: string, count: nat, total: nat)

  function OffsetOf(en: Engine, cursor: string): nat {
    if cursor == "" then 0
    else
      var parsed := en.parseInt(cursor);
      if parsed.Some? && parsed.value > 0 then parsed.value else 0
  }

  /** Python's `events[lo:hi]` for nonnegative bounds. */
  function Slice(es: seq<Summary>, lo: nat, hi: nat): seq<Summary> {
    var h := if hi <= |es| then hi else |es|;
    if lo <= h then es[lo..h] else []
  }

  /** The paging half of `list_events`. */
  function ListPage(en: Engine, board: seq<Summary>, limit: nat, cursor: string): Page {
    var offset := OffsetOf(en, cursor);
    var page := Slice(board, offset, offset + limit);
    Page(page, if offset + limit < |board| then ToDecimal(offset + limit) else "", |page|, |board|)
  }

  /** All items collected by following `nextCursor` until it is empty. */
  function Follow(en: Engine, board: seq<Summary>, limit: nat, cursor: string): seq<Summary>
    requires limit >= 1 && en.ParsesDecimals()
    decreases |board| - OffsetOf(en, cursor)
  {
    var page := ListPage(en, board, limit, cursor);
    if page.nextCursor == "" then page.items else page.items + Follow(en, board, limit, page.nextCursor)
  }

  lemma PagesJoin(board: seq<Summary>, lo: nat, hi: nat)
    requires lo <= hi <= |board|
    ensures board[lo..hi] + board[hi..] == board[lo..]
  {
  }

  lemma {:induction false} FollowFrom(en: Engine, board: seq<Summary>, limit: nat, cursor: string)
    requires limit >= 1 && en.ParsesDecimals() && OffsetOf(en, cursor) <= |board|
    ensures Follow(en, board, limit, cursor) == board[OffsetOf(en, cursor)..]
    decreases |board| - OffsetOf(en, cursor)
  {
    var offset := OffsetOf(en, cursor);
    if offset + limit < |board| {
      FollowFrom(en, board, limit, ToDecimal(offset + limit));
      PagesJoin(board, offset, offset + limit);
    }
  }

  /** What a page says of itself; and a cursor that is no positive number starts over. */
  lemma PageTells(en: Engine, board: seq<Summary>, limit: nat, cursor: string)
    ensures var page := ListPage(en, board, limit, cursor);
            && page.count == |page.items| <= limit && page.total == |board|
            && (forall k :: 0 <= k < page.count ==> OffsetOf(en, cursor) + k < |board| && page.items[k] == board[OffsetOf(en, cursor) + k])
            && (page.count == limit || OffsetOf(en, cursor) + page.count >= |board|)
            && (cursor != "" && (en.parseInt(cursor).None? || en.parseInt(cursor).value <= 0) ==>
                  page == ListPage(en, board, limit, ""))
  {
  }

  /**
   Following `next_cursor` from the empty one, with any limit of at least one,
   ends, and the pages laid end to end are the board: no event twice, none missed.
   */
  lemma PagesAreTheBoard(en: Engine, board: seq<Summary>, limit: nat)
    requires limit >= 1 && en.ParsesDecimals()
    ensures Follow(en, board, limit, "") == board
  {
    FollowFrom(en, board, limit, "");
  }

  /** With a limit of zero the first cursor leads back to itself on every nonempty board, so the caller's clamp is needed. */
  lemma ZeroLimitNeverAdvancesIff(en: Engine, board: seq<Summary>, cursor: string)
    requires en.ParsesDecimals()
    ensures OffsetOf(en, cursor) < |board| <==>
            var next := ListPage(en, board, 0, cursor).nextCursor;
            next != "" && OffsetOf(en, next) == OffsetOf(en, cursor)
  {
  }
}
