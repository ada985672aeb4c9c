# AxePoolSetter device registry — a Dafny model

AxePoolSetter is a small Flask application that keeps a registry of mining
devices on a local network (a SQLite table `devices` keyed by `ip`), probes
them over HTTP, discovers them by scanning a /24 prefix, and pushes pool
settings to all of them at once. The repository holds the application twice,
as `Backend/app.py` and `backend/app.py`; the two files are identical, so one
model covers both and the table below cites whichever copy is handier.

The model covers the sequential logic inside the application:

- **Address syntax** (`Addresses`): `is_valid_ip` and the scan-prefix check,
  written as a left-to-right matcher for the two regular expressions, and
  proved equal to a reference reading that splits at every dot. The list of
  254 scan targets is proved distinct, ordered by host number, free of `.0`
  and `.255`, and valid under `is_valid_ip`. There is no 0–255 range check:
  `999.0.0.1` is accepted, and a lemma shows it.
- **Settings normalisation** (`Settings`): the two loops of the bulk update
  that rewrite the checkbox keys to 0/1 and the numeric keys to integers,
  stopping at the first numeric key that does not parse.
- **Probe outcomes** (`Outcomes`): what `fetch_device_info` makes of a
  response. The response itself is a parameter (`HttpOutcome`).
- **The registry** (`Registry`): the table as a map from address to row.
  It covers the upsert after a 200 and the offline marker after an
  exception, which never re-adds a row. It also covers `INSERT OR IGNORE`
  on a manual add, and batches of probes. The per-address lemmas show that
  the order of the probes in a batch does not matter.
- **Batch results** (`Batches`): the `found_devices` count of a scan and the
  `success`/`failed` buckets of a bulk update, which partition the tracked
  addresses.
- **The endpoints** (`App.DeviceRegistry`): a class whose `rows` field is the
  table. `Fetch`, `FetchAll`, `Refresh`, `Add` and `Scan` update it.
  `Tracked` and `UpdateAll` only read it.

The network, the clock and the database engine are not modelled. A request's
outcome is an argument (`HttpOutcome`): the status code, the body text and
the decoded JSON, or the message of the exception the request raised. The
value of `CURRENT_TIMESTAMP` is an argument `now`. The thread pools become
loops over the addresses in order.

Some things the code does not do, which the model therefore does not do either:

- There is no 0–255 range check on address groups: each group is one to
  three digits, whatever its value.
- A scan takes a prefix of the form `a.b.c.` (not a CIDR block) and always
  probes hosts 1 to 254 behind it.
- Only the settings keys present in the request are rewritten; missing keys
  get no defaults.
- There is no endpoint that removes a device.

## Model

| member | source | states |
|---|---|---|
| `Addresses.IsValidIp` | Backend/app.py:52-54 | `is_valid_ip` as a left-to-right matcher; its meaning is stated by `Addresses.ValidIpIsDottedQuad` |
| `Addresses.IsScanPrefix` | backend/app.py:150 | the prefix regular expression as a matcher; its meaning is stated by `Addresses.ScanPrefixIsDottedPrefix` |
| `Addresses.ScanTargets` | Backend/app.py:153 | `ips_to_scan` has exactly 254 entries; order, values and distinctness are stated by `Addresses.ScanTargetHost` and `Addresses.ScanTargetsDistinct` |
| `Addresses.MatchAgreesWithSplit` | Backend/app.py:52-54 | matching k groups `\d{1,3}\.` succeeds exactly when the first k dot-separated fields are groups of one to three digits, and leaves the remaining fields |
| `Addresses.ValidIpIsDottedQuad` | Backend/app.py:52-54 | `is_valid_ip` holds exactly when the string splits at dots into four fields, each of one to three ASCII digits |
| `Addresses.DottedGroupsValid` | Backend/app.py:54 | any four groups of one to three digits joined by dots pass `is_valid_ip`, whatever the values |
| `Addresses.NoOctetRangeCheck` | backend/app.py:52-54 | there is no range check: `999.0.0.1` passes `is_valid_ip` |
| `Addresses.ScanPrefixIsDottedPrefix` | Backend/app.py:150 | the prefix check holds exactly when the string is three digit groups, each followed by a dot, and nothing after |
| `Addresses.DecimalRoundTrip` | backend/app.py:153 | reading back the decimal rendering of a host number gives the number |
| `Addresses.ScanTargetHost` | Backend/app.py:153 | target i is the prefix followed by a one-to-three digit group that denotes i + 1: hosts 1 to 254 in increasing order, never 0 or 255 |
| `Addresses.ScanTargetsDistinct` | backend/app.py:153 | the 254 targets are pairwise distinct |
| `Addresses.ScanTargetsAreValidIps` | Backend/app.py:150-153 | behind a prefix that passes the check, every target passes `is_valid_ip` |
| `Settings.ParseIntLiteral` | backend/app.py:181 | `int` of a string: an optional sign and 1 to 4300 ASCII digits; stated by `Settings.IntTextRoundTrip` and `Settings.LongLiteralRejected` |
| `Settings.PyInt` | Backend/app.py:180-182 | `int` of a decoded JSON value, with `int(True) == 1` and a TypeError for `None`, lists and objects; used by `Settings.NormalizeMeaning` |
| `Settings.IsChecked` | Backend/app.py:175 | membership in `[True, 'on', 1]` under Python's `==`, so `1` and `True` both count; stated by `Settings.NormalizeMeaning`, where a present checkbox key becomes 1 exactly when its value is checked |
| `Settings.LongLiteralRejected` | Backend/app.py:180-183 | a string of more than 4300 digits, signed or not, is rejected |
| `Settings.Normalize` | Backend/app.py:172-183 | the settings after both passes, or the first failing numeric key; stated key by key by `Settings.NormalizeMeaning` |
| `Settings.IntTextRoundTrip` | Backend/app.py:181 | `int` of the decimal text of any integer, signed or not, is that integer, for every integer of at most 4300 digits |
| `Settings.FirstUnparsable` | backend/app.py:178-183 | the index it returns is the first numeric key, in list order, that is present with a value `int` rejects: every earlier key parses or is absent |
| `Settings.NormalizeMeaning` | Backend/app.py:172-183 | rejection happens exactly when some numeric key does not parse, and it names the first such key; on success no key is added or dropped, a checkbox key holds 1 exactly when its value is `True`, `'on'` or `1` and otherwise 0, a numeric key holds its `int`, and any other key is untouched |
| `Settings.CoerceSettings` | backend/app.py:172-183 | the two rewriting loops give exactly the normalised settings, or the name of the first numeric key that does not parse |
| `Settings.PortAccepted` | Backend/app.py:177-181 | `{"stratumPort": "3333"}` becomes `{"stratumPort": 3333}` |
| `Settings.PortRejected` | backend/app.py:178-183 | `{"stratumPort": "abc"}` is rejected naming `stratumPort` |
| `Outcomes.Classify` | Backend/app.py:58-82 | which branch of `fetch_device_info` an outcome takes, including the binding error the insert raises for a hostname SQLite cannot take; stated by `Outcomes.ProbeReplyMeaning` and the `Registry` lemmas |
| `Outcomes.BodyHostname` | Backend/app.py:62 | `data.get('hostname', ip)`; `Outcomes.ProbeReplyMeaning` states that an online result carries it |
| `Outcomes.Bindable` | backend/app.py:64-68 | which hostnames `sqlite3` can bind in the insert: `None`, strings, booleans and integers in the signed 64-bit range; `Outcomes.ProbeReplyMeaning` states that a probe is online only with such a hostname |
| `Outcomes.BindError` | Backend/app.py:64-68 | the message the insert raises for a hostname that cannot be bound; `Outcomes.ProbeReplyMeaning` and `Outcomes.OversizedHostnameIsOffline` state that the offline result carries it |
| `Outcomes.ProbeReply` | backend/app.py:70-82 | the value `fetch_device_info` returns; stated by `Outcomes.ProbeReplyMeaning` |
| `Outcomes.IsOnline` | backend/app.py:139 | `result and result.get('status') == 'online'`, also at app.py:161; `App.DeviceRegistry.Add` answers 201 exactly when it holds and `Batches.OnlineCountBounds` counts the replies for which it holds |
| `Outcomes.ProbeReplyMeaning` | backend/app.py:58-82 | a probe returns None exactly for a status other than 200, and an online result exactly for a 200 whose body is an object whose hostname (or else the address) can be bound, carrying that hostname; an exception gives an offline result with its message; a list, an object or an integer outside the signed 64-bit range as hostname gives an offline result with the binding error |
| `Outcomes.OversizedHostnameIsOffline` | Backend/app.py:62-71 | a 200 whose body has hostname 2^64 is reported offline with `Python int too large to convert to SQLite INTEGER` |
| `Registry.RowAfterProbe` | Backend/app.py:64-80 | the probed address's row after the upsert or the offline update; stated by `Registry.SuccessfulProbeUpserts` and `Registry.FailedProbeMarksOffline` |
| `Registry.InsertOrIgnore` | backend/app.py:130-133 | `INSERT OR IGNORE`; stated by `Registry.InsertOrIgnoreMeaning` and `Registry.InsertOrIgnoreIdempotent` |
| `Registry.ProbeAll` | Backend/app.py:100-103 | the table after a batch of probes; stated by `Registry.ProbeAllKeys`, `Registry.ProbeAllAt` and `Registry.ProbeOrderIrrelevant` |
| `Registry.ProbeEffect` | Backend/app.py:58-81 | a probe changes at most the row of its own address, and that row as one probe dictates |
| `Registry.StoredHostnameMeaning` | Backend/app.py:36 | the TEXT `hostname` column holds NULL exactly for a `None` hostname, a string as it is, and for a number or boolean a text that `int()` reads back as the number |
| `Registry.SuccessfulProbeUpserts` | Backend/app.py:59-70 | a 200 with an object body whose hostname can be bound writes the row of the address (the text of the hostname, defaulting to the address, the body, the time) and adds the address if it was not tracked; no other row changes |
| `Registry.IgnoredStatusLeavesTable` | backend/app.py:59-82 | a status other than 200 leaves the table unchanged and returns None |
| `Registry.FailedProbeMarksOffline` | Backend/app.py:71-81 | an exception sets `last_data` to `{"status": "offline"}` only for a tracked address and keeps its hostname and `last_seen`; it never adds a row, changes no other row, and returns an offline result with the message |
| `Registry.ProbeNeverRemoves` | backend/app.py:56-82 | no probe outcome removes a row |
| `Registry.InsertOrIgnoreMeaning` | Backend/app.py:129-134 | after the insert the address is tracked; an existing row is kept as it was; a new row has the address as hostname and no data |
| `Registry.InsertOrIgnoreIdempotent` | backend/app.py:130-133 | inserting the same address twice leaves the table as one insert does |
| `Registry.ProbeAllKeys` | Backend/app.py:156-160 | a batch of probes adds exactly the probed addresses seen online and removes nothing |
| `Registry.ProbeAllAt` | backend/app.py:100-103 | after a batch of distinct addresses each row is what one probe of its own address makes of it; unprobed rows are untouched |
| `Registry.ProbeOrderIrrelevant` | Backend/app.py:100-103 | any two orders of the same distinct addresses leave the same table |
| `Batches.Replies` | Backend/app.py:157-160 | the futures' results, one probe reply per target in order; `App.DeviceRegistry.FetchAll` states that its loop collects them and `App.DeviceRegistry.Scan` that the answer counts the online ones |
| `Batches.OnlineCount` | Backend/app.py:154-162 | the count of online results is never more than the number of results |
| `Batches.OnlineCountBounds` | backend/app.py:159-162 | the count is 0 exactly when no result is online and equals the number of results exactly when all are |
| `Batches.CountOnline` | Backend/app.py:159-162 | the counting loop computes the number of online results |
| `Batches.SuccessBucket` | Backend/app.py:195-196 | `results["success"]`; stated by `Batches.BucketsMembership`, `Batches.BucketsCover` and `Batches.BucketsDistinct` |
| `Batches.FailedBucket` | backend/app.py:197-200 | `results["failed"]`; stated by the same three lemmas |
| `Outcomes.Accepted` | Backend/app.py:195 | a push succeeded when the answer's status is in 200..299; `Batches.BucketsMembership` states that `success` holds exactly those addresses |
| `Outcomes.FailureText` | backend/app.py:198-200 | the error recorded for a failed push, the response text or the exception's message; `Batches.BucketsMembership` states that each failure carries it |
| `Batches.PartitionPushes` | Backend/app.py:190-203 | the per-address loop builds exactly the success and failed buckets |
| `Batches.BucketsCover` | backend/app.py:190-200 | together the buckets hold every address exactly as often as the input does |
| `Batches.BucketsMembership` | Backend/app.py:195-200 | an address is in `success` exactly when the device answered 2xx (200 ≤ code < 300), among the failures exactly when it did not, and each failure carries the response text or the exception message |
| `Batches.BucketsDistinct` | backend/app.py:186-203 | distinct addresses give each address a single entry in its bucket |
| `App.DeviceRegistry.constructor` | Backend/app.py:33-40 | a fresh database starts with an empty `devices` table |
| `App.DeviceRegistry.Tracked` | Backend/app.py:186 | `SELECT ip FROM devices` lists every tracked address exactly once |
| `App.DeviceRegistry.Fetch` | Backend/app.py:56-82 | `fetch_device_info` leaves the table and returns the result that the probe outcome dictates |
| `App.DeviceRegistry.FetchAll` | backend/app.py:156-160 | probing a list of addresses leaves the batch's table and collects each address's result in order |
| `App.DeviceRegistry.Refresh` | Backend/app.py:97-103 | refreshing every tracked device adds and drops no address; each row ends as one probe of its own address leaves it |
| `App.DeviceRegistry.Add` | Backend/app.py:121-142 | a missing, empty or malformed address is a 400 with no change; otherwise the address is inserted unless tracked, then probed; it is tracked afterwards, no other address is added, and an existing row keeps its hostname unless the probe saw it online; for a valid address the answer is 201 when the probe found it online and 404 when it did not |
| `App.DeviceRegistry.Scan` | backend/app.py:145-164 | a missing or malformed prefix is a 400 with no change; otherwise the 254 targets are probed and the answer counts those online, at most 254; every target seen online is tracked afterwards, only those are added, and each added address passes `is_valid_ip` |
| `App.DeviceRegistry.UpdateAll` | Backend/app.py:167-205 | an unparsable numeric key is a 400 naming the first one, and any other request is a 200; otherwise every tracked address lands in exactly one bucket, chosen by whether its device accepted the normalised settings |

## Left out

- Flask plumbing is not modelled: routing, CORS, `render_template` and the JSON framing of requests and responses. The listing part of `get_devices` is left out too (`ORDER BY ip`, `json.loads` of `last_data` and its "Invalid data in DB" fallback). `Refresh` models only what the refresh does to the table.
- The SQLite lifecycle is not modelled: `get_db`, `close_db`, `init_db`, Flask's `g`, `schema.sql` and `os.makedirs`. Storage errors are not modelled either. The table is a map, `hostname` holds the text the TEXT column stores, and `last_data` holds the decoded JSON value.
- `requests` is never imported in `app.py`. As written, every request raises `NameError`, and the surrounding `except Exception` catches it. The model covers that case: it is the outcome `Raised("name 'requests' is not defined")`. The model also covers the branching for real responses.
- In the pool workers of `get_devices` and `scan_network`, `fetch_device_info` reaches `get_db()`, which uses Flask's `g` outside an application context. As written, that raises out of the `except` block and fails the request. The model assumes each worker writes its own row, as intended.
- Concurrency is not modelled. The thread pools (50 or 100 workers) and their completion order become loops over the addresses in order. For the table, `Registry.ProbeOrderIrrelevant` shows that the order does not matter. For the buckets, the order of their entries follows the input order in the model; the source gives them in any order. The list appends made by worker threads are not modelled.
- The clock is not modelled: `CURRENT_TIMESTAMP` is the argument `now`, and all writes of one request share it.
- Floating-point JSON numbers are not part of `Json`. So `1.0` counting as checked and `int()` of a float are not modelled.
- Python's `int()` is modelled for integers, booleans, `None`, lists and objects. For strings it accepts an optional sign followed by 1 to 4300 ASCII digits; the 4300 is CPython's default `sys.int_max_str_digits`, and interpreters without that limit accept longer strings. Surrounding whitespace, underscores between digits and non-ASCII digits are not accepted, although Python accepts them.
- The regular expressions are modelled over ASCII digits. Python's `\d` also matches other Unicode digits, and `$` also matches before a trailing newline. Both are not modelled, so the model rejects `"1.2.3.4\n"`, which the source accepts.
- Request bodies that are not JSON objects are not modelled. Neither are `ip` or `subnet` values that are not strings: a falsy one (`0`, `false`, `[]`, `{}`) fails `not ip` or `not subnet_prefix` and gets the 400, which the model's `None` covers, while a truthy one reaches `re.match`, which raises TypeError and fails the request with a 500. `ip` and `subnet` are modelled as optional strings.
- The message of the binding error for a list or object hostname is Python 3.12's wording (`Error binding parameter 2: type 'list' is not supported`); older versions word it differently. A JSON string holding a lone surrogate, which cannot be encoded for SQLite and also raises, cannot occur in the model, whose characters are Unicode scalar values.
- The scan's message says it found "new devices", but the count covers every online device, known or not. The model's `found` is that count.
- Response texts are not modelled beyond what they carry: the 400 of a bulk update names the key, not the sentence around it, and the scan reply holds the count, not the message.
