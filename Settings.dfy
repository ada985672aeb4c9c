/** The settings body of a bulk update: the two checkbox keys become 0 or 1
    and the four numeric keys become integers before any device is contacted. */
module Settings {
  import opened Values
  import opened Addresses

  type Settings = map<string, Json>

  const CheckboxKeys: seq<string> := ["stratumEnonceSubscribe", "fallbackStratumEnonceSubscribe"]

  const NumericKeys: seq<string> :=
    ["stratumPort", "fallbackStratumPort", "stratumSuggestedDifficulty", "fallbackStratumSuggestedDifficulty"]

  /** Membership in `[True, 'on', 1]`. Python compares with `==`, under which
      `True == 1`, so `JInt(1)` and `JBool(true)` both match. */
  predicate IsChecked(v: Json)
  {
    v == JBool(true) || v == JStr("on") || v == JInt(1)
  }

  /** `1 if v in [True, 'on', 1] else 0`. */
  function CheckboxBit(v: Json): int
  {
    if IsChecked(v) then 1 else 0
  }

  // ---------------------------------------------------------------------
  // int(): an optional sign followed by ASCII decimal digits
  // ---------------------------------------------------------------------

  /** CPython's default `sys.int_max_str_digits`: `int()` of a decimal string
      with more digits raises ValueError (3.11 on, and the security releases
      of 3.7 to 3.10). */
  const MaxStrDigits: nat := 4300

  /** The digits of a decimal literal, with the sign already removed. */
  function ParseDigits(s: string): Option<nat>
  {
    if 1 <= |s| <= MaxStrDigits && AllDigits(s) then Some(DigitsValue(s)) else None
  }

  /** `int(s)` for a string; `None` stands for the ValueError it raises. */
  function ParseIntLiteral(s: string): (r: Option<int>)
  {
    if |s| > 0 && s[0] == '-' then
      match ParseDigits(s[1..])
      case Some(n) => var m: int := n; Some(-m)
      case None => None
    else if |s| > 0 && s[0] == '+' then
      match ParseDigits(s[1..])
      case Some(n) => Some(n)
      case None => None
    else
      match ParseDigits(s)
      case Some(n) => Some(n)
      case None => None
  }

  /** Python's `str` of an integer. */
  function IntText(i: int): string
  {
    if i < 0 then "-" + Decimal(-i) else Decimal(i)
  }

  /** `int(str(i)) == i` for every integer whose decimal text is within the
      digit limit (`str` itself raises beyond it). */
  lemma IntTextRoundTrip(i: int)
    requires |Decimal(if i < 0 then -i else i)| <= MaxStrDigits
    ensures ParseIntLiteral(IntText(i)) == Some(i)
  {
    var n: nat := if i < 0 then -i else i;
    var d := Decimal(n);
    DecimalRoundTrip(n);
    assert ParseDigits(d) == Some(n);
    if i < 0 {
      assert IntText(i) == "-" + d;
      assert ("-" + d)[1..] == d;
    } else {
      assert IntText(i) == d;
      assert IsDigit(d[0]);
    }
  }

  /** A string of more digits than the limit is rejected, signed or not. */
  lemma LongLiteralRejected(digits: string)
    requires AllDigits(digits) && |digits| > MaxStrDigits
    ensures ParseIntLiteral(digits) == None
    ensures ParseIntLiteral("-" + digits) == None
    ensures ParseIntLiteral("+" + digits) == None
  {
    assert ("-" + digits)[1..] == digits;
    assert ("+" + digits)[1..] == digits;
  }

  /** `int(v)` for a decoded JSON value; `None` stands for the ValueError or
      TypeError it raises. `int(True)` is 1, `int(None)`, lists and dicts raise. */
  function PyInt(v: Json): (r: Option<int>)
  {
    match v
    case JInt(i) => Some(i)
    case JBool(b) => Some(if b then 1 else 0)
    case JStr(s) => ParseIntLiteral(s)
    case _ => None
  }

  /** A numeric key that is absent, or present with a value `int` accepts. */
  predicate Parses(s: Settings, key: string)
  {
    key !in s || PyInt(s[key]).Some?
  }

  /** Index of the first key in `keys` whose value `int` rejects, or `|keys|`. */
  function FirstUnparsable(s: Settings, keys: seq<string>): (i: nat)
    ensures i <= |keys|
    ensures forall j :: 0 <= j < i ==> Parses(s, keys[j])
    ensures i < |keys| ==> !Parses(s, keys[i])
  {
    if keys == [] || !Parses(s, keys[0]) then 0 else 1 + FirstUnparsable(s, keys[1..])
  }

  /** What the numeric pass makes of a value: its `int`, or the value
      itself when `int` rejects it (the pass then stops). */
  function NumericValue(v: Json): Json
  {
    match PyInt(v)
    case Some(n) => JInt(n)
    case None => v
  }

  /** The value of key `k` once the checkbox pass has visited the keys in
      `checkboxes` and the numeric pass those in `numerics`. */
  function Rewrite(k: string, v: Json, checkboxes: seq<string>, numerics: seq<string>): Json
  {
    if k in checkboxes then JInt(CheckboxBit(v))
    else if k in numerics then NumericValue(v)
    else v
  }

  /** The value a key holds after both rewriting passes. */
  function CoercedValue(key: string, v: Json): Json
  {
    Rewrite(key, v, CheckboxKeys, NumericKeys)
  }

  /** No key is both a checkbox key and a numeric key. */
  lemma KeyListsDisjoint()
    ensures forall k :: k in NumericKeys ==> k !in CheckboxKeys
  {
  }

  /** The whole normalisation: the name of the first numeric key that does
      not parse, or the rewritten settings. */
  function Normalize(s: Settings): Result<Settings, string>
  {
    var i := FirstUnparsable(s, NumericKeys);
    if i < |NumericKeys| then Err(NumericKeys[i])
    else Ok(map k | k in s :: CoercedValue(k, s[k]))
  }

  /** What normalisation promises, key by key: a rejection names a numeric key
      whose value does not parse, every numeric key listed before it parses,
      and a rejection happens exactly when some numeric key does not parse;
      on success no key is added or dropped, checkbox keys hold 1 exactly for
      the checked values and 0 otherwise, numeric keys hold their `int`, and
      every other key is untouched. */
  lemma NormalizeMeaning(s: Settings)
    ensures Normalize(s).Err? <==> exists j :: 0 <= j < |NumericKeys| && !Parses(s, NumericKeys[j])
    ensures Normalize(s).Err? ==>
      exists j :: 0 <= j < |NumericKeys| && NumericKeys[j] == Normalize(s).error
        && NumericKeys[j] in s && PyInt(s[NumericKeys[j]]) == None
        && forall m :: 0 <= m < j ==> Parses(s, NumericKeys[m])
    ensures Normalize(s).Ok? ==> Normalize(s).value.Keys == s.Keys
    ensures Normalize(s).Ok? ==> forall k :: k in s && k in CheckboxKeys ==>
      Normalize(s).value[k] == (if IsChecked(s[k]) then JInt(1) else JInt(0))
    ensures Normalize(s).Ok? ==> forall k :: k in s && k in NumericKeys ==>
      PyInt(s[k]).Some? && Normalize(s).value[k] == JInt(PyInt(s[k]).value)
    ensures Normalize(s).Ok? ==> forall k :: k in s && k !in CheckboxKeys && k !in NumericKeys ==>
      Normalize(s).value[k] == s[k]
  {
  }

  /** An index with every earlier key parsing and its own key failing (or
      the end of the list) is the one `FirstUnparsable` finds. */
  lemma FirstUnparsableIs(s: Settings, keys: seq<string>, i: nat)
    requires i <= |keys|
    requires forall j :: 0 <= j < i ==> Parses(s, keys[j])
    requires i < |keys| ==> !Parses(s, keys[i])
    ensures FirstUnparsable(s, keys) == i
  {
  }

  /** The settings once the checkbox pass has visited `checkboxes` and the
      numeric pass `numerics`. */
  function Pass(settings: Settings, checkboxes: seq<string>, numerics: seq<string>): (s: Settings)
    ensures s.Keys == settings.Keys
  {
    map k | k in settings :: Rewrite(k, settings[k], checkboxes, numerics)
  }

  /** One step of the checkbox pass. */
  lemma CheckboxStep(settings: Settings, done: seq<string>, key: string)
    ensures var s := Pass(settings, done, []);
      (if key in s then s[key := JInt(CheckboxBit(s[key]))] else s) == Pass(settings, done + [key], [])
  {
  }

  /** The numeric pass never changes what `int` makes of a value outside
      the checkbox keys. */
  lemma PassKeepsInt(settings: Settings, checkboxes: seq<string>, done: seq<string>, key: string)
    requires key !in checkboxes && key in settings
    ensures PyInt(Pass(settings, checkboxes, done)[key]) == PyInt(settings[key])
  {
  }

  /** One step of the numeric pass, over a value `int` accepts or an absent key. */
  lemma NumericStep(settings: Settings, checkboxes: seq<string>, done: seq<string>, key: string)
    requires key !in checkboxes
    requires key in settings ==> PyInt(settings[key]).Some?
    ensures var s := Pass(settings, checkboxes, done);
      (if key in s then s[key := JInt(PyInt(s[key]).value)] else s) == Pass(settings, checkboxes, done + [key])
  {
  }

  /** When every numeric key parses, both passes over all their keys give
      the normalised settings. */
  lemma NormalizeIsPass(settings: Settings)
    requires FirstUnparsable(settings, NumericKeys) == |NumericKeys|
    ensures Normalize(settings) == Ok(Pass(settings, CheckboxKeys, NumericKeys))
  {
    var p := Pass(settings, CheckboxKeys, NumericKeys);
    var q := map k | k in settings :: CoercedValue(k, settings[k]);
    assert p.Keys == q.Keys;
    forall k | k in p ensures p[k] == q[k] {
    }
    assert p == q;
  }

  /** The two rewriting loops of the update endpoint, which run over the key
      lists in order and stop at the first numeric key that does not parse. */
  method CoerceSettings(settings: Settings) returns (r: Result<Settings, string>)
    ensures r == Normalize(settings)
  {
    var s := settings;
    for i := 0 to |CheckboxKeys|
      invariant s == Pass(settings, CheckboxKeys[..i], [])
    {
      var key := CheckboxKeys[i];
      CheckboxStep(settings, CheckboxKeys[..i], key);
      if key in s {
        s := s[key := JInt(if IsChecked(s[key]) then 1 else 0)];
      }
      assert CheckboxKeys[..i + 1] == CheckboxKeys[..i] + [key];
    }
    assert CheckboxKeys[..|CheckboxKeys|] == CheckboxKeys;
    KeyListsDisjoint();
    for i := 0 to |NumericKeys|
      invariant s == Pass(settings, CheckboxKeys, NumericKeys[..i])
      invariant forall j :: 0 <= j < i ==> Parses(settings, NumericKeys[j])
    {
      var key := NumericKeys[i];
      if key in s && PyInt(s[key]).None? {
        PassKeepsInt(settings, CheckboxKeys, NumericKeys[..i], key);
        FirstUnparsableIs(settings, NumericKeys, i);
        return Err(key);
      }
      if key in s {
        PassKeepsInt(settings, CheckboxKeys, NumericKeys[..i], key);
      }
      NumericStep(settings, CheckboxKeys, NumericKeys[..i], key);
      if key in s {
        s := s[key := JInt(PyInt(s[key]).value)];
      }
      assert NumericKeys[..i + 1] == NumericKeys[..i] + [key];
    }
    assert NumericKeys[..|NumericKeys|] == NumericKeys;
    FirstUnparsableIs(settings, NumericKeys, |NumericKeys|);
    NormalizeIsPass(settings);
    r := Ok(s);
  }

  /** A numeric string is rewritten to its integer. */
  lemma PortAccepted()
    ensures Normalize(map["stratumPort" := JStr("3333")]) == Ok(map["stratumPort" := JInt(3333)])
  {
    var good := map["stratumPort" := JStr("3333")];
    assert "3333"[..3] == "333" && "333"[..2] == "33" && "33"[..1] == "3" && "3"[..0] == "";
    assert DigitsValue("3333") == 3333;
    assert PyInt(good["stratumPort"]) == Some(3333);
    FirstUnparsableIs(good, NumericKeys, |NumericKeys|);
    assert Normalize(good).value == map["stratumPort" := JInt(3333)];
  }

  /** A non-numeric port rejects the whole body, naming the key. */
  lemma PortRejected()
    ensures Normalize(map["stratumPort" := JStr("abc")]) == Err("stratumPort")
  {
  }
}
