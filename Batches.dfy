/** What the batch endpoints make of their per-address results: the count of
    online devices after a scan and the success/failed buckets of a bulk
    update. The thread pools become loops over the addresses in order. */
module Batches {
  import opened Values
  import opened Outcomes
  import opened Registry

  /** The replies of probing each address of `ips`, in order. */
  function Replies(ips: seq<string>, probe: string -> HttpOutcome): seq<Option<ProbeResult>>
  {
    seq(|ips|, i requires 0 <= i < |ips| => ProbeReply(ips[i], probe(ips[i])))
  }

  // ---------------------------------------------------------------------
  // found_devices
  // ---------------------------------------------------------------------

  /** The number of online replies; never more than there are replies. */
  function OnlineCount(replies: seq<Option<ProbeResult>>): (n: nat)
    ensures n <= |replies|
    decreases |replies|
  {
    if replies == [] then 0
    else
      var k := |replies| - 1;
      OnlineCount(replies[..k]) + (if IsOnline(replies[k]) then 1 else 0)
  }

  /** An online reply counts one, any other reply nothing: the count is zero
      exactly when no reply is online and equals the length exactly when
      every reply is online. */
  lemma {:induction false} OnlineCountBounds(replies: seq<Option<ProbeResult>>)
    ensures OnlineCount(replies) == 0 <==> forall i :: 0 <= i < |replies| ==> !IsOnline(replies[i])
    ensures OnlineCount(replies) == |replies| <==> forall i :: 0 <= i < |replies| ==> IsOnline(replies[i])
    decreases |replies|
  {
    if replies != [] {
      var k := |replies| - 1;
      OnlineCountBounds(replies[..k]);
      assert forall i :: 0 <= i < k ==> replies[..k][i] == replies[i];
    }
  }

  /** The `found_devices += 1` loop over the collected results. */
  method CountOnline(replies: seq<Option<ProbeResult>>) returns (found: nat)
    ensures found == OnlineCount(replies)
  {
    found := 0;
    for i := 0 to |replies|
      invariant found == OnlineCount(replies[..i])
    {
      assert replies[..i + 1][..i] == replies[..i];
      if IsOnline(replies[i]) {
        found := found + 1;
      }
    }
    assert replies[..|replies|] == replies;
  }

  // ---------------------------------------------------------------------
  // results["success"] and results["failed"]
  // ---------------------------------------------------------------------

  /** An entry of the failed bucket: `{"ip": ip, "error": text}`. */
  datatype PushFailure = PushFailure(ip: string, error: string)

  /** The addresses whose push was accepted, in order. */
  function SuccessBucket(ips: seq<string>, push: string -> HttpOutcome): seq<string>
    decreases |ips|
  {
    if ips == [] then []
    else
      var k := |ips| - 1;
      SuccessBucket(ips[..k], push) + (if Accepted(push(ips[k])) then [ips[k]] else [])
  }

  /** The failures, in order, each with its response text or exception message. */
  function FailedBucket(ips: seq<string>, push: string -> HttpOutcome): seq<PushFailure>
    decreases |ips|
  {
    if ips == [] then []
    else
      var k := |ips| - 1;
      var o := push(ips[k]);
      FailedBucket(ips[..k], push) + (if Accepted(o) then [] else [PushFailure(ips[k], FailureText(o))])
  }

  /** The addresses of the failed bucket, in order. */
  function FailedIps(failed: seq<PushFailure>): seq<string>
  {
    seq(|failed|, i requires 0 <= i < |failed| => failed[i].ip)
  }

  /** The per-address loop of the bulk update, appending to one bucket or the
      other for every address. */
  method PartitionPushes(ips: seq<string>, push: string -> HttpOutcome)
    returns (success: seq<string>, failed: seq<PushFailure>)
    ensures success == SuccessBucket(ips, push)
    ensures failed == FailedBucket(ips, push)
  {
    success, failed := [], [];
    for i := 0 to |ips|
      invariant success == SuccessBucket(ips[..i], push)
      invariant failed == FailedBucket(ips[..i], push)
    {
      assert ips[..i + 1][..i] == ips[..i];
      var outcome := push(ips[i]);
      if outcome.Answered? && 200 <= outcome.status < 300 {
        success := success + [ips[i]];
      } else if outcome.Answered? {
        failed := failed + [PushFailure(ips[i], outcome.text)];
      } else {
        failed := failed + [PushFailure(ips[i], outcome.error)];
      }
    }
    assert ips[..|ips|] == ips;
  }

  /** Together the buckets hold every address exactly as often as the input. */
  lemma {:induction false} BucketsCover(ips: seq<string>, push: string -> HttpOutcome)
    ensures var s, f := SuccessBucket(ips, push), FailedBucket(ips, push);
      |s| + |f| == |ips| && multiset(s) + multiset(FailedIps(f)) == multiset(ips)
    decreases |ips|
  {
    if ips != [] {
      var k := |ips| - 1;
      var x, init := ips[k], ips[..k];
      BucketsCover(init, push);
      assert ips == init + [x];
      assert multiset(ips) == multiset(init) + multiset{x};
      var s0, s := SuccessBucket(init, push), SuccessBucket(ips, push);
      var f0, f := FailedBucket(init, push), FailedBucket(ips, push);
      if !Accepted(push(x)) {
        assert s == s0;
        assert FailedIps(f) == FailedIps(f0) + [x];
      } else {
        assert s == s0 + [x];
        assert FailedIps(f) == FailedIps(f0);
      }
    }
  }

  /** An address is in `success` exactly when its push was accepted, among the
      failures exactly when it was not, and each failure carries the response
      text or the exception message. */
  lemma {:induction false} BucketsMembership(ips: seq<string>, push: string -> HttpOutcome)
    ensures var s, f := SuccessBucket(ips, push), FailedBucket(ips, push);
      && (forall ip :: ip in s <==> ip in ips && Accepted(push(ip)))
      && (forall ip :: ip in FailedIps(f) <==> ip in ips && !Accepted(push(ip)))
      && (forall e :: e in f ==> e.error == FailureText(push(e.ip)))
    decreases |ips|
  {
    if ips != [] {
      var k := |ips| - 1;
      var x, init := ips[k], ips[..k];
      BucketsMembership(init, push);
      assert ips == init + [x];
      var f0, f := FailedBucket(init, push), FailedBucket(ips, push);
      if !Accepted(push(x)) {
        assert FailedIps(f) == FailedIps(f0) + [x];
      } else {
        assert FailedIps(f) == FailedIps(f0);
      }
    }
  }

  /** Distinct input gives each address a single entry. */
  lemma {:induction false} BucketsDistinct(ips: seq<string>, push: string -> HttpOutcome)
    requires Distinct(ips)
    ensures Distinct(SuccessBucket(ips, push)) && Distinct(FailedIps(FailedBucket(ips, push)))
    decreases |ips|
  {
    if ips != [] {
      var k := |ips| - 1;
      var x, init := ips[k], ips[..k];
      assert Distinct(init);
      BucketsDistinct(init, push);
      BucketsMembership(init, push);
      assert x !in init;
      var f0, f := FailedBucket(init, push), FailedBucket(ips, push);
      if !Accepted(push(x)) {
        assert FailedIps(f) == FailedIps(f0) + [x];
      } else {
        assert FailedIps(f) == FailedIps(f0);
      }
    }
  }
}
