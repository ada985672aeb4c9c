/** How the application reads the outcome of one HTTP request to a device.
    The request itself is not modelled: the caller supplies its outcome. */
module Outcomes {
  import opened Values

  /** What one request came to. `Answered` carries the status code, the body
      text and what decoding the body as JSON gives (the value, or the message
      of the exception decoding raises); `Raised` carries the message of the
      exception the request raised (refused, timed out, unreachable). */
  datatype HttpOutcome =
    | Answered(status: int, text: string, body: Result<Json, string>)
    | Raised(error: string)

  /** What a probe (`GET /api/system/info`) means for the registry. */
  datatype Probe =
    | Upsert(hostname: Json, data: Json)
    | Fault(error: string)
    | Ignored

  /** `data.get('hostname', ip)`: the body's hostname, defaulting to the address. */
  function BodyHostname(ip: string, fields: map<string, Json>): Json
  {
    if "hostname" in fields then fields["hostname"] else JStr(ip)
  }

  /** The range of an SQLite INTEGER, a signed 64-bit number. */
  const SqlIntMin: int := -0x8000_0000_0000_0000
  const SqlIntMax: int := 0x7FFF_FFFF_FFFF_FFFF

  /** Whether `sqlite3` can bind the value as a query parameter: `None`, a
      string, a boolean or an integer within the INTEGER range. */
  predicate Bindable(j: Json)
  {
    match j
    case JInt(i) => SqlIntMin <= i <= SqlIntMax
    case JArray(_) => false
    case JObject(_) => false
    case _ => true
  }

  /** The message of the exception binding an unbindable parameter raises
      (the hostname is the second parameter of the insert). */
  function BindError(j: Json): string
  {
    if j.JInt? then "Python int too large to convert to SQLite INTEGER"
    else "Error binding parameter 2: type '" + PyTypeName(j) + "' is not supported"
  }

  /** A status of 200 whose body decodes to an object is a sighting, unless
      its hostname cannot be bound by the insert. Any exception on the way,
      including `.get` on a decoded body that is not an object and the
      binding error, is a fault. Any other status is ignored. */
  function Classify(ip: string, outcome: HttpOutcome): Probe
  {
    match outcome
    case Raised(e) => Fault(e)
    case Answered(status, _, body) =>
      if status != 200 then Ignored
      else
        match body
        case Err(e) => Fault(e)
        case Ok(JObject(fields)) =>
          var h := BodyHostname(ip, fields);
          if Bindable(h) then Upsert(h, JObject(fields)) else Fault(BindError(h))
        case Ok(other) => Fault("'" + PyTypeName(other) + "' object has no attribute 'get'")
  }

  /** The dictionary `fetch_device_info` returns. */
  datatype ProbeResult =
    | Online(ip: string, hostname: Json, data: Json)
    | Offline(ip: string, error: string)

  /** The value `fetch_device_info` returns; `None` for an ignored status. */
  function ProbeReply(ip: string, outcome: HttpOutcome): Option<ProbeResult>
  {
    match Classify(ip, outcome)
    case Upsert(h, d) => Some(Online(ip, h, d))
    case Fault(e) => Some(Offline(ip, e))
    case Ignored => None
  }

  /** `result and result.get('status') == 'online'`. */
  predicate IsOnline(reply: Option<ProbeResult>)
  {
    reply.Some? && reply.value.Online?
  }

  /** What a probe returns: nothing exactly for a status other than 200; an
      online result exactly for a 200 whose body is an object with a bindable
      hostname, carrying that hostname; an offline result carrying the
      message for an exception, the binding error included. Every result is
      tagged with the probed address. */
  lemma ProbeReplyMeaning(ip: string, outcome: HttpOutcome)
    ensures ProbeReply(ip, outcome).None? <==> outcome.Answered? && outcome.status != 200
    ensures IsOnline(ProbeReply(ip, outcome)) <==>
      && outcome.Answered? && outcome.status == 200 && outcome.body.Ok? && outcome.body.value.JObject?
      && Bindable(BodyHostname(ip, outcome.body.value.fields))
    ensures ProbeReply(ip, outcome).Some? ==> ProbeReply(ip, outcome).value.ip == ip
    ensures IsOnline(ProbeReply(ip, outcome)) ==>
      ProbeReply(ip, outcome).value.hostname == BodyHostname(ip, outcome.body.value.fields)
    ensures outcome.Raised? ==> ProbeReply(ip, outcome) == Some(Offline(ip, outcome.error))
    ensures
      (&& outcome.Answered? && outcome.status == 200 && outcome.body.Ok? && outcome.body.value.JObject?
       && !Bindable(BodyHostname(ip, outcome.body.value.fields))) ==>
      ProbeReply(ip, outcome) == Some(Offline(ip, BindError(BodyHostname(ip, outcome.body.value.fields))))
  {
  }

  /** A hostname past the INTEGER range, here 2^64, makes the insert raise:
      the device is reported offline with the overflow message. */
  lemma OversizedHostnameIsOffline(ip: string, text: string, fields: map<string, Json>)
    requires "hostname" in fields && fields["hostname"] == JInt(0x1_0000_0000_0000_0000)
    ensures ProbeReply(ip, Answered(200, text, Ok(JObject(fields)))) ==
      Some(Offline(ip, "Python int too large to convert to SQLite INTEGER"))
  {
  }

  // ---------------------------------------------------------------------
  // Pushes (`PATCH /api/system`)
  // ---------------------------------------------------------------------

  /** A push succeeded when the device answered with a 2xx status. */
  predicate Accepted(outcome: HttpOutcome)
  {
    outcome.Answered? && 200 <= outcome.status < 300
  }

  /** The error recorded for a push that did not succeed: the response text,
      or the message of the exception. */
  function FailureText(outcome: HttpOutcome): string
  {
    match outcome
    case Answered(_, text, _) => text
    case Raised(e) => e
  }
}
