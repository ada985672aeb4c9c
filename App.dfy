/** The endpoints that probe devices, add them, scan for them and push
    settings to them, over the `devices` table they share. */
module App {
  import opened Values
  import opened Addresses
  import opened Settings
  import opened Outcomes
  import opened Registry
  import opened Batches

  /** The answer of `POST /api/devices`. */
  datatype AddReply = InvalidIp | Added(device: ProbeResult) | AddedOffline
  {
    function Status(): int
    {
      match this
      case InvalidIp => 400
      case Added(_) => 201
      case AddedOffline => 404
    }
  }

  /** The answer of `POST /api/scan`: 400, or the number of online devices. */
  datatype ScanReply = InvalidPrefix | ScanComplete(found: nat)

  /** The answer of `POST /api/update-all`. */
  datatype UpdateReply = InvalidValue(key: string) | Pushed(success: seq<string>, failed: seq<PushFailure>)
  {
    function Status(): int
    {
      if InvalidValue? then 400 else 200
    }
  }

  class DeviceRegistry {
    /** The `devices` table, keyed by `ip`. */
    var rows: Table

    /** A fresh database starts with an empty `devices` table. */
    constructor ()
      ensures rows == map[]
    {
      rows := map[];
    }

    /** `SELECT ip FROM devices`: every tracked address once, in no promised order. */
    method Tracked() returns (ips: seq<string>)
      ensures Distinct(ips) && |ips| == |rows|
      ensures forall ip :: ip in ips <==> ip in rows
    {
      ips := [];
      var rest := rows.Keys;
      while rest != {}
        invariant rest <= rows.Keys
        invariant forall ip :: ip in ips <==> ip in rows && ip !in rest
        invariant Distinct(ips)
        invariant |ips| + |rest| == |rows|
        decreases |rest|
      {
        var ip :| ip in rest;
        ips := ips + [ip];
        rest := rest - {ip};
      }
    }

    /** `fetch_device_info(ip)`, the request's outcome given. */
    method Fetch(ip: string, outcome: HttpOutcome, now: Timestamp) returns (reply: Option<ProbeResult>)
      modifies this
      ensures rows == ProbeEffect(old(rows), ip, outcome, now)
      ensures reply == ProbeReply(ip, outcome)
    {
      match Classify(ip, outcome)
      case Upsert(hostname, data) =>
        rows := rows[ip := Row(SqlText(hostname), Some(data), now)];
        reply := Some(Online(ip, hostname, data));
      case Fault(e) =>
        if ip in rows {
          rows := rows[ip := rows[ip].(lastData := Some(OfflineMarker()))];
        }
        reply := Some(Offline(ip, e));
      case Ignored =>
        reply := None;
    }

    /** Probes every address of `ips` in turn and collects the replies. */
    method FetchAll(ips: seq<string>, probe: string -> HttpOutcome, now: Timestamp)
      returns (replies: seq<Option<ProbeResult>>)
      modifies this
      ensures rows == ProbeAll(old(rows), ips, probe, now)
      ensures replies == Replies(ips, probe)
    {
      replies := [];
      for i := 0 to |ips|
        invariant rows == ProbeAll(old(rows), ips[..i], probe, now)
        invariant replies == Replies(ips[..i], probe)
      {
        assert ips[..i + 1][..i] == ips[..i];
        var reply := Fetch(ips[i], probe(ips[i]), now);
        replies := replies + [reply];
      }
      assert ips[..|ips|] == ips;
    }

    /** The refresh of `GET /api/devices`: every tracked address is probed.
        No address is added or dropped, and each row ends as one probe of its
        own address leaves it, whatever order the probes ran in. */
    method Refresh(probe: string -> HttpOutcome, now: Timestamp)
      modifies this
      ensures rows.Keys == old(rows).Keys
      ensures forall ip :: ip in rows ==>
        Some(rows[ip]) == RowAfterProbe(Some(old(rows)[ip]), ip, probe(ip), now)
    {
      var ips := Tracked();
      ghost var before := rows;
      var _ := FetchAll(ips, probe, now);
      ProbeAllKeys(before, ips, probe, now);
      forall ip | ip in rows
        ensures Some(rows[ip]) == RowAfterProbe(Some(before[ip]), ip, probe(ip), now)
      {
        ProbeAllAt(before, ips, probe, now, ip);
      }
    }

    /** `POST /api/devices`: a missing, empty or malformed address is a 400
        that changes nothing; otherwise the address is inserted unless
        tracked, probed once, and the answer is 201 exactly when the probe
        found it online. The address is tracked afterwards, no other address
        is added, and a row it already had keeps its hostname unless the
        probe saw the device online. */
    method Add(ip: Option<string>, outcome: HttpOutcome, now: Timestamp) returns (reply: AddReply)
      modifies this
      ensures ip.None? || !IsValidIp(ip.value) ==> reply == InvalidIp && rows == old(rows)
      ensures ip.Some? && IsValidIp(ip.value) ==>
        rows == ProbeEffect(InsertOrIgnore(old(rows), ip.value, now), ip.value, outcome, now)
      ensures reply.Status() == 201 <==> ip.Some? && IsValidIp(ip.value) && IsOnline(ProbeReply(ip.value, outcome))
      ensures ip.Some? && IsValidIp(ip.value) ==>
        reply.Status() == (if IsOnline(ProbeReply(ip.value, outcome)) then 201 else 404)
      ensures reply.Added? ==> reply.device == ProbeReply(ip.value, outcome).value
      ensures ip.Some? && IsValidIp(ip.value) ==> rows.Keys == old(rows).Keys + {ip.value}
      ensures ip.Some? && IsValidIp(ip.value) && ip.value in old(rows) && !Classify(ip.value, outcome).Upsert? ==>
        rows[ip.value].hostname == old(rows)[ip.value].hostname
      ensures forall a :: a in rows && a !in old(rows) ==> IsValidIp(a)
    {
      if ip.None? || ip.value == "" || !IsValidIp(ip.value) {
        return InvalidIp;
      }
      var address := ip.value;
      if address !in rows {
        rows := rows[address := Row(Some(address), None, now)];
      }
      ghost var inserted := rows;
      InsertOrIgnoreMeaning(old(rows), address, now);
      var info := Fetch(address, outcome, now);
      ProbeNeverRemoves(inserted, address, outcome, now);
      assert rows.Keys <= inserted.Keys by {
        forall a | a in rows ensures a in inserted {
          assert Lookup(rows, a).Some?;
        }
      }
      if info.Some? && info.value.Online? {
        reply := Added(info.value);
      } else {
        reply := AddedOffline;
      }
    }

    /** `POST /api/scan`: a missing or malformed prefix is a 400 that changes
        nothing; otherwise the 254 targets behind the prefix are probed and
        the answer counts those found online. Only targets seen online are
        added, and every added address passes `is_valid_ip`. */
    method Scan(subnet: Option<string>, probe: string -> HttpOutcome, now: Timestamp) returns (reply: ScanReply)
      modifies this
      ensures subnet.None? || !IsScanPrefix(subnet.value) ==> reply == InvalidPrefix && rows == old(rows)
      ensures subnet.Some? && IsScanPrefix(subnet.value) ==>
        && rows == ProbeAll(old(rows), ScanTargets(subnet.value), probe, now)
        && reply == ScanComplete(OnlineCount(Replies(ScanTargets(subnet.value), probe)))
        && reply.found <= 254
      ensures subnet.Some? && IsScanPrefix(subnet.value) ==>
        forall a :: a in ScanTargets(subnet.value) && Classify(a, probe(a)).Upsert? ==> a in rows
      ensures forall a :: a in rows && a !in old(rows) ==>
        subnet.Some? && a in ScanTargets(subnet.value) && Classify(a, probe(a)).Upsert? && IsValidIp(a)
    {
      if subnet.None? || subnet.value == "" || !IsScanPrefix(subnet.value) {
        return InvalidPrefix;
      }
      var targets := ScanTargets(subnet.value);
      ghost var before := rows;
      var replies := FetchAll(targets, probe, now);
      var found := CountOnline(replies);
      reply := ScanComplete(found);
      ProbeAllKeys(before, targets, probe, now);
      ScanTargetsAreValidIps(subnet.value);
    }

    /** `POST /api/update-all`: a numeric key that does not parse is a 400
        naming the first such key, before the table is read; otherwise the
        normalised settings go to every tracked address, and each address
        lands in exactly one bucket: `success` when the device answered 2xx,
        `failed` with the response text or exception message otherwise. */
    method UpdateAll(settings: Settings, push: (string, Settings) -> HttpOutcome) returns (reply: UpdateReply)
      ensures Normalize(settings).Err? ==> reply == InvalidValue(Normalize(settings).error)
      ensures reply.Status() == (if Normalize(settings).Err? then 400 else 200)
      ensures Normalize(settings).Ok? ==> reply.Pushed?
      ensures Normalize(settings).Ok? && reply.Pushed? ==>
        var sent := Normalize(settings).value;
        && |reply.success| + |reply.failed| == |rows|
        && Distinct(reply.success) && Distinct(FailedIps(reply.failed))
        && (forall ip :: ip in reply.success <==> ip in rows && Accepted(push(ip, sent)))
        && (forall ip :: ip in FailedIps(reply.failed) <==> ip in rows && !Accepted(push(ip, sent)))
        && (forall e :: e in reply.failed ==> e.error == FailureText(push(e.ip, sent)))
    {
      var coerced := CoerceSettings(settings);
      match coerced
      case Err(key) =>
        reply := InvalidValue(key);
      case Ok(sent) =>
        var ips := Tracked();
        var send := ip => push(ip, sent);
        var success, failed := PartitionPushes(ips, send);
        BucketsCover(ips, send);
        BucketsMembership(ips, send);
        BucketsDistinct(ips, send);
        reply := Pushed(success, failed);
    }
  }
}
