/** The `devices` table, keyed by address, and what the probing and adding
    code does to it. Each operation touches only the row of its own address. */
module Registry {
  import opened Values
  import opened Addresses
  import opened Settings
  import opened Outcomes

  /** The value of `CURRENT_TIMESTAMP` when a row is written. */
  type Timestamp = nat

  /** One row: `hostname` (a TEXT column, `None` for NULL), `last_data` (NULL
      until a probe writes it; the JSON it holds is kept decoded) and
      `last_seen`. */
  datatype Row = Row(hostname: Option<string>, lastData: Option<Json>, lastSeen: Timestamp)

  type Table = map<string, Row>

  predicate Distinct<T(==)>(s: seq<T>)
  {
    forall i, j :: 0 <= i < j < |s| ==> s[i] != s[j]
  }

  function Lookup(t: Table, ip: string): Option<Row>
  {
    if ip in t then Some(t[ip]) else None
  }

  /** `{"status": "offline"}`, written over `last_data` after a failed probe. */
  function OfflineMarker(): Json
  {
    JObject(map["status" := JStr("offline")])
  }

  /** What the TEXT column holds for a bound hostname: NULL for `None`, the
      string itself, and the decimal text of a number (a boolean binds as 1 or
      0). A value that cannot be bound is never written. */
  function SqlText(h: Json): Option<string>
  {
    match h
    case JNull => None
    case JBool(b) => Some(IntText(if b then 1 else 0))
    case JInt(i) => Some(IntText(i))
    case JStr(s) => Some(s)
    case _ => None
  }

  /** The stored hostname is NULL exactly for `None`; a string is stored as it
      is, and the text stored for a number reads back, through `int()`, as
      the number `int()` makes of the original. */
  lemma StoredHostnameMeaning(h: Json)
    requires Bindable(h)
    ensures SqlText(h).None? <==> h.JNull?
    ensures h.JStr? ==> SqlText(h) == Some(h.s)
    ensures h.JInt? || h.JBool? ==> SqlText(h).Some? && ParseIntLiteral(SqlText(h).value) == PyInt(h)
  {
    if h.JInt? {
      var n: nat := if h.i < 0 then -h.i else h.i;
      assert Pow10(10) == 10_000_000_000;
      assert Pow10(19) == 10_000_000_000_000_000_000;
      DecimalBelowPow10(n, 19);
      IntTextRoundTrip(h.i);
    } else if h.JBool? {
      IntTextRoundTrip(if h.b then 1 else 0);
    }
  }

  /** The row of the probed address after a probe, from the row before. */
  function RowAfterProbe(before: Option<Row>, ip: string, outcome: HttpOutcome, now: Timestamp): Option<Row>
  {
    match Classify(ip, outcome)
    case Upsert(h, d) => Some(Row(SqlText(h), Some(d), now))
    case Fault(_) =>
      if before.Some? then Some(before.value.(lastData := Some(OfflineMarker()))) else None
    case Ignored => before
  }

  /** The table after `fetch_device_info(ip)`. */
  function ProbeEffect(t: Table, ip: string, outcome: HttpOutcome, now: Timestamp): (t': Table)
    ensures Lookup(t', ip) == RowAfterProbe(Lookup(t, ip), ip, outcome, now)
    ensures forall k :: k != ip ==> Lookup(t', k) == Lookup(t, k)
  {
    match RowAfterProbe(Lookup(t, ip), ip, outcome, now)
    case Some(row) => t[ip := row]
    case None => t
  }

  /** `INSERT OR IGNORE INTO devices (ip, hostname) VALUES (ip, ip)`. */
  function InsertOrIgnore(t: Table, ip: string, now: Timestamp): (t': Table)
  {
    if ip in t then t else t[ip := Row(Some(ip), None, now)]
  }

  /** The table after probing every address of `ips` in turn. */
  function ProbeAll(t: Table, ips: seq<string>, probe: string -> HttpOutcome, now: Timestamp): Table
    decreases |ips|
  {
    if ips == [] then t
    else
      var n := |ips| - 1;
      ProbeEffect(ProbeAll(t, ips[..n], probe, now), ips[n], probe(ips[n]), now)
  }

  // ---------------------------------------------------------------------
  // One probe
  // ---------------------------------------------------------------------

  /** A 200 whose body is an object with a bindable hostname replaces the
      row of the address with the text of the body's hostname (the address
      when it has none), the body and the time; it adds the address when it
      was not tracked and changes no other row. */
  lemma SuccessfulProbeUpserts(t: Table, ip: string, text: string, fields: map<string, Json>, now: Timestamp)
    requires Bindable(BodyHostname(ip, fields))
    ensures var t' := ProbeEffect(t, ip, Answered(200, text, Ok(JObject(fields))), now);
      && t'.Keys == t.Keys + {ip}
      && t'[ip] == Row(SqlText(BodyHostname(ip, fields)), Some(JObject(fields)), now)
      && forall k :: k in t && k != ip ==> t'[k] == t[k]
  {
  }

  /** A status other than 200 changes nothing and returns nothing. */
  lemma IgnoredStatusLeavesTable(t: Table, ip: string, outcome: HttpOutcome, now: Timestamp)
    requires outcome.Answered? && outcome.status != 200
    ensures ProbeEffect(t, ip, outcome, now) == t
    ensures ProbeReply(ip, outcome) == None
  {
  }

  /** A probe that raised never adds a row: it writes the offline marker over
      `last_data` of a tracked address, keeping its hostname and `last_seen`,
      changes no other row, and reports the address offline with the message. */
  lemma FailedProbeMarksOffline(t: Table, ip: string, outcome: HttpOutcome, now: Timestamp)
    requires Classify(ip, outcome).Fault?
    ensures var t' := ProbeEffect(t, ip, outcome, now);
      && t'.Keys == t.Keys
      && (ip in t ==> t'[ip] == Row(t[ip].hostname, Some(OfflineMarker()), t[ip].lastSeen))
      && (forall k :: k in t && k != ip ==> t'[k] == t[k])
    ensures ProbeReply(ip, outcome) == Some(Offline(ip, Classify(ip, outcome).error))
  {
  }

  /** No probe outcome ever removes a row. */
  lemma ProbeNeverRemoves(t: Table, ip: string, outcome: HttpOutcome, now: Timestamp)
    ensures t.Keys <= ProbeEffect(t, ip, outcome, now).Keys
  {
  }

  // ---------------------------------------------------------------------
  // Manual add
  // ---------------------------------------------------------------------

  /** After the insert the address is tracked; a row already there is kept as
      it was; a new row has the address as hostname and no data. */
  lemma InsertOrIgnoreMeaning(t: Table, ip: string, now: Timestamp)
    ensures var t' := InsertOrIgnore(t, ip, now);
      && t'.Keys == t.Keys + {ip}
      && (ip in t ==> t'[ip] == t[ip])
      && (ip !in t ==> t'[ip] == Row(Some(ip), None, now))
      && forall k :: k in t && k != ip ==> t'[k] == t[k]
  {
  }

  /** Inserting the same address again changes nothing: one row, the first. */
  lemma InsertOrIgnoreIdempotent(t: Table, ip: string, now1: Timestamp, now2: Timestamp)
    ensures InsertOrIgnore(InsertOrIgnore(t, ip, now1), ip, now2) == InsertOrIgnore(t, ip, now1)
  {
  }

  // ---------------------------------------------------------------------
  // A batch of probes
  // ---------------------------------------------------------------------

  /** A batch adds exactly the probed addresses that were seen online and
      never removes a row. */
  lemma {:induction false} ProbeAllKeys(t: Table, ips: seq<string>, probe: string -> HttpOutcome, now: Timestamp)
    ensures ProbeAll(t, ips, probe, now).Keys ==
      t.Keys + (set ip | ip in ips && Classify(ip, probe(ip)).Upsert?)
    decreases |ips|
  {
    if ips != [] {
      var n := |ips| - 1;
      var x := ips[n];
      var before := ProbeAll(t, ips[..n], probe, now);
      ProbeAllKeys(t, ips[..n], probe, now);
      var after := ProbeEffect(before, x, probe(x), now);
      assert ips == ips[..n] + [x];
      forall k ensures k in after <==> k in before || (k == x && Classify(x, probe(x)).Upsert?) {
        assert Lookup(after, k).Some? <==> (k in after);
        assert Lookup(before, k).Some? <==> (k in before);
      }
    }
  }

  /** Each address's final row depends only on its own row and its own
      outcome: a probed address ends as one probe leaves it, any other row is
      untouched. */
  lemma {:induction false} ProbeAllAt(t: Table, ips: seq<string>, probe: string -> HttpOutcome, now: Timestamp, k: string)
    requires Distinct(ips)
    ensures Lookup(ProbeAll(t, ips, probe, now), k) ==
      if k in ips then RowAfterProbe(Lookup(t, k), k, probe(k), now) else Lookup(t, k)
    decreases |ips|
  {
    if ips != [] {
      var n := |ips| - 1;
      var x := ips[n];
      assert ips == ips[..n] + [x];
      assert Distinct(ips[..n]);
      ProbeAllAt(t, ips[..n], probe, now, k);
      if k == x {
        assert k !in ips[..n];
      }
    }
  }

  lemma TablesEqual(a: Table, b: Table)
    requires forall k :: Lookup(a, k) == Lookup(b, k)
    ensures a == b
  {
    assert forall k :: k in a <==> Lookup(a, k).Some?;
    assert forall k :: k in b <==> Lookup(b, k).Some?;
  }

  /** The order in which a batch is probed does not matter: any two orders of
      the same distinct addresses leave the same table. This is why the
      thread pool's completion order is left out of the model. */
  lemma ProbeOrderIrrelevant(t: Table, xs: seq<string>, ys: seq<string>, probe: string -> HttpOutcome, now: Timestamp)
    requires Distinct(xs) && Distinct(ys)
    requires forall ip :: ip in xs <==> ip in ys
    ensures ProbeAll(t, xs, probe, now) == ProbeAll(t, ys, probe, now)
  {
    forall k ensures Lookup(ProbeAll(t, xs, probe, now), k) == Lookup(ProbeAll(t, ys, probe, now), k) {
      ProbeAllAt(t, xs, probe, now, k);
      ProbeAllAt(t, ys, probe, now, k);
    }
    TablesEqual(ProbeAll(t, xs, probe, now), ProbeAll(t, ys, probe, now));
  }
}
