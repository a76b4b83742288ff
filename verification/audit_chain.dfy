/**
 The hash chain shared by the Rust writer (rust/vps1-serving/src/audit.rs) and
 the Python store (src/quant_platform/audit.py): what a row commits to, when a
 table of rows verifies, and what the head hash of a verified table determines.
 */
module AuditChain {

  /** A JSON value, as the payload columns carry it. */
  datatype Json =
    | Null
    | Bool(b: bool)
    | Num(n: real)
    | Str(s: string)
    | Arr(items: seq<Json>)
    | Obj(fields: map<string, Json>)

  datatype Event = Event(
    eventType: string,
    actor: string,
    payload: Json,
    createdAt: string,
    eventHash: string,
    prevHash: string,
    signature: string)

  /** SHA-256 in hex, HMAC under the signing key, and the canonical JSON text; none of them is looked into. */
  datatype Crypto = Crypto(hash: string -> string, sign: string -> string, encode: Json -> string) {

    /** A hex digest has 64 characters and no separator among them. */
    ghost predicate HexDigests() {
      forall x: string :: |hash(x)| == 64 && '|' !in hash(x)
    }

    ghost predicate Collide(x: string, y: string) {
      x != y && hash(x) == hash(y)
    }

    function Canonical(e: Event): string {
      e.eventType + "|" + e.actor + "|" + e.createdAt + "|" + encode(e.payload) + "|" + e.prevHash
    }

    /** The event both writers build on top of `prev`. */
    function Seal(eventType: string, actor: string, payload: Json, createdAt: string, prev: string): Event {
      var draft := Event(eventType, actor, payload, createdAt, "", prev, "");
      var eventHash := hash(Canonical(draft));
      draft.(eventHash := eventHash, signature := sign(eventHash))
    }

    /** What one row of a verified table satisfies, given the hash it must continue from. */
    predicate Links(e: Event, prev: string) {
      e.prevHash == prev && e.eventHash == hash(Canonical(e)) && e.signature == sign(e.eventHash)
    }

    predicate Verifies(rows: seq<Event>) {
      |rows| == 0 || (Verifies(rows[..|rows| - 1]) && Links(rows[|rows| - 1], Head(rows[..|rows| - 1])))
    }
  }

  const GENESIS := "GENESIS"

  function Head(rows: seq<Event>): string {
    if |rows| == 0 then GENESIS else rows[|rows| - 1].eventHash
  }

  function Hashes(rows: seq<Event>): set<string> {
    set e <- rows :: e.eventHash
  }

  lemma VerifiesSnoc(c: Crypto, rows: seq<Event>, e: Event)
    ensures c.Verifies(rows + [e]) <==> c.Verifies(rows) && c.Links(e, Head(rows))
  {
    assert (rows + [e])[..|rows|] == rows;
  }

  /** A sealed event always links to the hash it was sealed on. */
  lemma SealLinks(c: Crypto, eventType: string, actor: string, payload: Json, createdAt: string, prev: string)
    ensures c.Links(c.Seal(eventType, actor, payload, createdAt, prev), prev)
  {
  }

  /** Verification is closed under taking prefixes. */
  lemma {:induction false} VerifiesPrefix(c: Crypto, rows: seq<Event>, k: nat)
    requires k <= |rows| && c.Verifies(rows)
    ensures c.Verifies(rows[..k])
  {
    if k < |rows| {
      VerifiesPrefix(c, rows[..|rows| - 1], k);
      assert rows[..|rows| - 1][..k] == rows[..k];
    } else {
      assert rows[..k] == rows;
    }
  }

  lemma VerifiesAt(c: Crypto, rows: seq<Event>, k: nat)
    requires k < |rows| && c.Verifies(rows)
    ensures c.Links(rows[k], Head(rows[..k]))
  {
    VerifiesPrefix(c, rows, k + 1);
    assert rows[..k + 1] == rows[..k] + [rows[k]];
    VerifiesSnoc(c, rows[..k], rows[k]);
  }

  /** Whatever the rows in `base` are, each row after them links to the one before. */
  ghost predicate ChainedFrom(c: Crypto, base: seq<Event>, rows: seq<Event>) {
    if |rows| <= |base| then rows == base
    else
      var n := |rows| - 1;
      ChainedFrom(c, base, rows[..n]) && c.Links(rows[n], Head(rows[..n]))
  }

  lemma ChainedSnoc(c: Crypto, base: seq<Event>, rows: seq<Event>, e: Event)
    requires ChainedFrom(c, base, rows) && c.Links(e, Head(rows)) && |base| <= |rows|
    ensures ChainedFrom(c, base, rows + [e]) && Head(rows + [e]) == e.eventHash
  {
    assert (rows + [e])[..|rows|] == rows;
  }

  lemma {:induction false} ChainedExtends(c: Crypto, base: seq<Event>, rows: seq<Event>)
    requires ChainedFrom(c, base, rows)
    ensures base <= rows
  {
    if |rows| > |base| {
      ChainedExtends(c, base, rows[..|rows| - 1]);
    }
  }

  lemma {:induction false} ChainedAt(c: Crypto, base: seq<Event>, rows: seq<Event>, k: nat)
    requires ChainedFrom(c, base, rows) && |base| <= k < |rows|
    ensures c.Links(rows[k], Head(rows[..k]))
  {
    if k < |rows| - 1 {
      ChainedAt(c, base, rows[..|rows| - 1], k);
      assert rows[..|rows| - 1][..k] == rows[..k];
    }
  }

  /** Such rows verify exactly when `base` does. */
  lemma {:induction false} ChainedVerifiesIff(c: Crypto, base: seq<Event>, rows: seq<Event>)
    requires ChainedFrom(c, base, rows)
    ensures c.Verifies(rows) <==> c.Verifies(base)
  {
    if |rows| > |base| {
      ChainedVerifiesIff(c, base, rows[..|rows| - 1]);
    }
  }

  // ---------- the canonical text splits uniquely ----------

  predicate BarFree(s: string) {
    '|' !in s
  }

  /** The columns that stand before a separator in the canonical text. */
  predicate SplitsUniquely(e: Event) {
    BarFree(e.eventType) && BarFree(e.actor) && BarFree(e.createdAt)
  }

  function FirstBar(s: string): nat {
    if |s| == 0 || s[0] == '|' then 0 else 1 + FirstBar(s[1..])
  }

  function LastBar(s: string): int {
    if |s| == 0 || s[|s| - 1] == '|' then |s| - 1 else LastBar(s[..|s| - 1])
  }

  /** Every separator lies between the first and the last one. */
  lemma {:induction false} BarBetween(s: string, i: nat)
    requires i < |s| && s[i] == '|'
    ensures FirstBar(s) <= i <= LastBar(s)
    decreases |s|
  {
    if s[0] != '|' {
      BarBetween(s[1..], i - 1);
    }
    if s[|s| - 1] != '|' {
      BarBetween(s[..|s| - 1], i);
    }
  }

  lemma {:induction false} FirstBarAfter(s: string, t: string)
    requires BarFree(s)
    ensures FirstBar(s + "|" + t) == |s|
  {
    if |s| > 0 {
      assert (s + "|" + t)[1..] == s[1..] + "|" + t;
      FirstBarAfter(s[1..], t);
    }
  }

  lemma {:induction false} LastBarBefore(s: string, t: string)
    requires BarFree(t)
    ensures LastBar(s + "|" + t) == |s|
  {
    if |t| > 0 {
      assert (s + "|" + t)[..|s| + |t|] == s + "|" + t[..|t| - 1];
      LastBarBefore(s, t[..|t| - 1]);
    }
  }

  lemma SplitAt(s: string, s': string, t: string, t': string)
    requires s + "|" + t == s' + "|" + t' && |s| == |s'|
    ensures s == s' && t == t'
  {
    var l, r := s + "|" + t, s' + "|" + t';
    assert s == l[..|s|] == r[..|s|] == s';
    assert t == l[|s| + 1..] == r[|s| + 1..] == t';
  }

  lemma FirstField(s: string, s': string, t: string, t': string)
    requires BarFree(s) && BarFree(s')
    requires s + "|" + t == s' + "|" + t'
    ensures s == s' && t == t'
  {
    FirstBarAfter(s, t);
    FirstBarAfter(s', t');
    SplitAt(s, s', t, t');
  }

  lemma LastField(s: string, s': string, t: string, t': string)
    requires BarFree(t) && BarFree(t')
    requires s + "|" + t == s' + "|" + t'
    ensures s == s' && t == t'
  {
    LastBarBefore(s, t);
    LastBarBefore(s', t');
    SplitAt(s, s', t, t');
  }

  lemma OneBar(s: string, t: string, s': string, t': string)
    requires BarFree(s) && BarFree(t) && s + "|" + t == s' + "|" + t'
    ensures s == s' && t == t'
  {
    FirstBarAfter(s, t);
    LastBarBefore(s, t);
    BarBetween(s' + "|" + t', |s'|);
    SplitAt(s, s', t, t');
  }

  /** Equal in every column, the payload up to its canonical text. */
  predicate SameRow(c: Crypto, d: Event, e: Event) {
    && d.eventType == e.eventType && d.actor == e.actor && d.createdAt == e.createdAt
    && c.encode(d.payload) == c.encode(e.payload)
    && d.prevHash == e.prevHash && d.eventHash == e.eventHash && d.signature == e.signature
  }

  predicate SameRows(c: Crypto, a: seq<Event>, b: seq<Event>) {
    |a| == |b| && forall k :: 0 <= k < |a| ==> SameRow(c, a[k], b[k])
  }

  lemma CanonicalSplits(c: Crypto, d: Event, e: Event)
    requires SplitsUniquely(d) && SplitsUniquely(e)
    requires BarFree(d.prevHash) && BarFree(e.prevHash)
    requires c.Canonical(d) == c.Canonical(e)
    ensures d.eventType == e.eventType && d.actor == e.actor && d.createdAt == e.createdAt
    ensures c.encode(d.payload) == c.encode(e.payload) && d.prevHash == e.prevHash
  {
    var d3 := c.encode(d.payload) + "|" + d.prevHash;
    var e3 := c.encode(e.payload) + "|" + e.prevHash;
    var d2, e2 := d.createdAt + "|" + d3, e.createdAt + "|" + e3;
    var d1, e1 := d.actor + "|" + d2, e.actor + "|" + e2;
    assert c.Canonical(d) == d.eventType + "|" + d1;
    assert c.Canonical(e) == e.eventType + "|" + e1;
    FirstField(d.eventType, e.eventType, d1, e1);
    FirstField(d.actor, e.actor, d2, e2);
    FirstField(d.createdAt, e.createdAt, d3, e3);
    LastField(c.encode(d.payload), c.encode(e.payload), d.prevHash, e.prevHash);
  }

  lemma HeadShape(c: Crypto, rows: seq<Event>)
    requires c.HexDigests() && c.Verifies(rows)
    ensures BarFree(Head(rows))
    ensures |rows| > 0 ==> |Head(rows)| == 64
  {
    if |rows| > 0 {
      VerifiesAt(c, rows, |rows| - 1);
    }
  }

  /** Two different canonical texts, one out of each table, with the same hash: a collision one can hold up. */
  ghost predicate TablesCollide(c: Crypto, a: seq<Event>, b: seq<Event>) {
    exists d <- a, e <- b :: c.Collide(c.Canonical(d), c.Canonical(e))
  }

  /** One row: an event hash commits to the row and to the hash before it. */
  lemma HashCommits(c: Crypto, d: Event, e: Event)
    requires SplitsUniquely(d) && SplitsUniquely(e)
    requires BarFree(d.prevHash) && BarFree(e.prevHash)
    requires c.Links(d, d.prevHash) && c.Links(e, e.prevHash) && d.eventHash == e.eventHash
    ensures SameRow(c, d, e) || c.Collide(c.Canonical(d), c.Canonical(e))
  {
    if c.Canonical(d) == c.Canonical(e) {
      CanonicalSplits(c, d, e);
    }
  }

  lemma NoCollisionBefore(c: Crypto, a: seq<Event>, b: seq<Event>, d: Event, e: Event)
    requires !TablesCollide(c, a + [d], b + [e])
    ensures !TablesCollide(c, a, b)
  {
    assert forall x <- a :: x in a + [d];
    assert forall y <- b :: y in b + [e];
  }

  lemma SameRowsSnoc(c: Crypto, a: seq<Event>, b: seq<Event>, d: Event, e: Event)
    requires SameRows(c, a, b) && SameRow(c, d, e)
    ensures SameRows(c, a + [d], b + [e])
  {
  }

  predicate AllSplit(rows: seq<Event>) {
    forall e <- rows :: SplitsUniquely(e)
  }

  lemma AllSplitSnoc(rows: seq<Event>, e: Event)
    requires AllSplit(rows + [e])
    ensures AllSplit(rows) && SplitsUniquely(e)
  {
    assert forall x <- rows :: x in rows + [e];
    assert e in rows + [e];
  }

  lemma LastRowCommits(c: Crypto, a: seq<Event>, b: seq<Event>, d: Event, e: Event)
    requires c.HexDigests() && SplitsUniquely(d) && SplitsUniquely(e)
    requires c.Verifies(a + [d]) && c.Verifies(b + [e]) && d.eventHash == e.eventHash
    ensures (SameRow(c, d, e) && c.Verifies(a) && c.Verifies(b) && Head(a) == Head(b)) || TablesCollide(c, a + [d], b + [e])
  {
    VerifiesSnoc(c, a, d);
    VerifiesSnoc(c, b, e);
    HeadShape(c, a);
    HeadShape(c, b);
    HashCommits(c, d, e);
    assert d in a + [d] && e in b + [e];
  }

  /**
   The head hash commits to the whole history: two verified tables with the same
   head are equal row by row, or else two of their own rows collide.
   */
  lemma {:induction false} HeadCommits(c: Crypto, a: seq<Event>, b: seq<Event>)
    requires c.HexDigests()
    requires c.Verifies(a) && c.Verifies(b) && Head(a) == Head(b)
    requires AllSplit(a) && AllSplit(b)
    ensures SameRows(c, a, b) || TablesCollide(c, a, b)
  {
    if |a| == 0 || |b| == 0 {
      HeadShape(c, a);
      HeadShape(c, b);
    } else {
      var a', d := a[..|a| - 1], a[|a| - 1];
      var b', e := b[..|b| - 1], b[|b| - 1];
      assert a == a' + [d] && b == b' + [e];
      AllSplitSnoc(a', d);
      AllSplitSnoc(b', e);
      LastRowCommits(c, a', b', d, e);
      if !TablesCollide(c, a, b) {
        HeadCommits(c, a', b');
        NoCollisionBefore(c, a', b', d, e);
        SameRowsSnoc(c, a', b', d, e);
      }
    }
  }

  // ---------- what happens without the separator rule ----------

  /** `b` is `a` with only the event type and actor columns rewritten. */
  ghost predicate Relabelled(a: seq<Event>, b: seq<Event>) {
    && |a| == |b|
    && (forall k :: 0 <= k < |a| ==> b[k] == a[k].(eventType := b[k].eventType, actor := b[k].actor))
  }

  /** Another way to read the separator between the two columns. */
  ghost function Reread(e: Event): (r: Event)
    requires !BarFree(e.eventType) || !BarFree(e.actor)
    ensures r != e
    ensures r.eventType + "|" + r.actor == e.eventType + "|" + e.actor
    ensures r == e.(eventType := r.eventType, actor := r.actor)
  {
    if !BarFree(e.eventType) then
      var i :| 0 <= i < |e.eventType| && e.eventType[i] == '|';
      var r := e.(eventType := e.eventType[..i], actor := e.eventType[i + 1..] + "|" + e.actor);
      assert e.eventType == e.eventType[..i] + "|" + e.eventType[i + 1..];
      assert |r.eventType| < |e.eventType|;
      r
    else
      var i :| 0 <= i < |e.actor| && e.actor[i] == '|';
      var r := e.(eventType := e.eventType + "|" + e.actor[..i], actor := e.actor[i + 1..]);
      assert e.actor == e.actor[..i] + "|" + e.actor[i + 1..];
      assert |r.eventType| > |e.eventType|;
      r
  }

  lemma SameLabelSameText(c: Crypto, d: Event, e: Event)
    requires d == e.(eventType := d.eventType, actor := d.actor)
    ensures d.eventType + "|" + d.actor == e.eventType + "|" + e.actor <==> c.Canonical(d) == c.Canonical(e)
  {
    var tail := "|" + e.createdAt + "|" + c.encode(e.payload) + "|" + e.prevHash;
    var l, r := d.eventType + "|" + d.actor, e.eventType + "|" + e.actor;
    assert c.Canonical(d) == l + tail;
    assert c.Canonical(e) == r + tail;
    if l + tail == r + tail {
      assert |l| == |r|;
      assert l == (l + tail)[..|l|] == (r + tail)[..|r|] == r;
    }
  }

  ghost predicate HasInnerBar(rows: seq<Event>) {
    exists e <- rows :: !(BarFree(e.eventType) && BarFree(e.actor))
  }

  /** Verifies like `a` does, and not by a collision: row for row the canonical texts are the same. */
  ghost predicate UndetectedRelabelling(c: Crypto, a: seq<Event>, b: seq<Event>) {
    && Relabelled(a, b) && b != a && c.Verifies(b)
    && forall k :: 0 <= k < |a| ==> !c.Collide(c.Canonical(a[k]), c.Canonical(b[k]))
  }

  lemma {:induction false} ReplaceKeepsVerified(c: Crypto, a: seq<Event>, k: nat, e: Event)
    requires k < |a| && c.Verifies(a)
    requires c.Links(e, Head(a[..k])) && e.eventHash == a[k].eventHash
    ensures c.Verifies(a[k := e])
  {
    var a' := a[..|a| - 1];
    if k < |a'| {
      assert a'[..k] == a[..k];
      ReplaceKeepsVerified(c, a', k, e);
      assert a[k := e][..|a'|] == a'[k := e];
    } else {
      assert a[k := e][..|a'|] == a';
    }
  }

  /**
   A verified table has a different relabelling that verifies just as well, without
   any collision, exactly when some event type or actor in it holds a separator.
   */
  lemma RelabellingUndetectedIff(c: Crypto, a: seq<Event>)
    requires c.Verifies(a)
    ensures (exists b :: UndetectedRelabelling(c, a, b)) <==> HasInnerBar(a)
  {
    if HasInnerBar(a) {
      BarRelabels(c, a);
    }
    if b: seq<Event> :| UndetectedRelabelling(c, a, b) {
      var k :| 0 <= k < |a| && b[k] != a[k];
      RelabelledRow(c, a, b, k);
    }
  }

  lemma BarRelabels(c: Crypto, a: seq<Event>)
    requires c.Verifies(a) && HasInnerBar(a)
    ensures exists b :: UndetectedRelabelling(c, a, b)
  {
    var k :| 0 <= k < |a| && !(BarFree(a[k].eventType) && BarFree(a[k].actor));
    var e := Reread(a[k]);
    VerifiesAt(c, a, k);
    SameLabelSameText(c, e, a[k]);
    ReplaceKeepsVerified(c, a, k, e);
    ReplacedIsUndetected(c, a, k, e);
  }

  lemma ReplacedIsUndetected(c: Crypto, a: seq<Event>, k: nat, e: Event)
    requires k < |a| && c.Verifies(a[k := e])
    requires e != a[k] && e == a[k].(eventType := e.eventType, actor := e.actor)
    requires c.Canonical(e) == c.Canonical(a[k])
    ensures UndetectedRelabelling(c, a, a[k := e])
  {
    var b := a[k := e];
    forall i | 0 <= i < |a| ensures b[i] == a[i].(eventType := b[i].eventType, actor := b[i].actor)
    {
    }
    forall i | 0 <= i < |a| ensures !c.Collide(c.Canonical(a[i]), c.Canonical(b[i]))
    {
    }
    assert b[k] == e;
  }

  lemma RelabelledRow(c: Crypto, a: seq<Event>, b: seq<Event>, k: nat)
    requires c.Verifies(a) && c.Verifies(b) && Relabelled(a, b)
    requires k < |a| && b[k] != a[k] && !c.Collide(c.Canonical(a[k]), c.Canonical(b[k]))
    ensures HasInnerBar(a)
  {
    VerifiesAt(c, a, k);
    VerifiesAt(c, b, k);
    assert b[k].eventHash == a[k].eventHash;
    SameLabelSameText(c, b[k], a[k]);
    if BarFree(a[k].eventType) && BarFree(a[k].actor) {
      OneBar(a[k].eventType, a[k].actor, b[k].eventType, b[k].actor);
    }
    assert a[k] in a;
  }

  // ---------- the two verification loops ----------

  datatype Verification =
    | Valid(count: nat, lastHash: string)
    | BrokenLink(failedIndex: nat, expectedPrev: string, seenPrev: string)
    | SignatureMismatch(failedIndex: nat)

  /** `PostgresS3AuditWriter::verify_chain_rows`. */
  method VerifyChainRows(c: Crypto, rows: seq<Event>) returns (valid: bool)
    ensures valid <==> c.Verifies(rows)
  {
    var expectedPrev := GENESIS;
    for k := 0 to |rows|
      invariant expectedPrev == Head(rows[..k])
      invariant c.Verifies(rows[..k])
    {
      assert rows[..k + 1] == rows[..k] + [rows[k]];
      VerifiesSnoc(c, rows[..k], rows[k]);
      if rows[k].prevHash != expectedPrev {
        FailsFrom(c, rows, k + 1);
        return false;
      }
      if rows[k].eventHash != c.hash(c.Canonical(rows[k])) {
        FailsFrom(c, rows, k + 1);
        return false;
      }
      if rows[k].signature != c.sign(rows[k].eventHash) {
        FailsFrom(c, rows, k + 1);
        return false;
      }
      expectedPrev := rows[k].eventHash;
    }
    assert rows[..|rows|] == rows;
    return true;
  }

  /** `AuditStore.verify_chain`: the same test, naming the first row (counted from one) that fails and why. */
  method VerifyChain(c: Crypto, rows: seq<Event>) returns (v: Verification)
    ensures v.Valid? <==> c.Verifies(rows)
    ensures v.Valid? ==> v.count == |rows| && v.lastHash == Head(rows)
    ensures !v.Valid? ==>
              && 1 <= v.failedIndex <= |rows|
              && c.Verifies(rows[..v.failedIndex - 1]) && !c.Verifies(rows[..v.failedIndex])
    ensures v.BrokenLink? ==>
              && v.expectedPrev == Head(rows[..v.failedIndex - 1])
              && v.seenPrev == rows[v.failedIndex - 1].prevHash
    ensures v.SignatureMismatch? ==>
              var e := rows[v.failedIndex - 1];
              e.prevHash == Head(rows[..v.failedIndex - 1]) && e.eventHash == c.hash(c.Canonical(e))
  {
    var expectedPrev := GENESIS;
    for k := 0 to |rows|
      invariant expectedPrev == Head(rows[..k])
      invariant c.Verifies(rows[..k])
    {
      assert rows[..k + 1] == rows[..k] + [rows[k]];
      VerifiesSnoc(c, rows[..k], rows[k]);
      if rows[k].prevHash != expectedPrev || rows[k].eventHash != c.hash(c.Canonical(rows[k])) {
        FailsFrom(c, rows, k + 1);
        return BrokenLink(k + 1, expectedPrev, rows[k].prevHash);
      }
      if rows[k].signature != c.sign(rows[k].eventHash) {
        FailsFrom(c, rows, k + 1);
        return SignatureMismatch(k + 1);
      }
      expectedPrev := rows[k].eventHash;
    }
    assert rows[..|rows|] == rows;
    return Valid(|rows|, expectedPrev);
  }

  lemma FailsFrom(c: Crypto, rows: seq<Event>, k: nat)
    requires k <= |rows| && !c.Verifies(rows[..k])
    ensures !c.Verifies(rows)
  {
    if c.Verifies(rows) {
      VerifiesPrefix(c, rows, k);
    }
  }
}
