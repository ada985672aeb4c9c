/** Address syntax: the `is_valid_ip` check, the scan-prefix check and the
    list of host addresses a scan probes. Digits are ASCII digits. */
module Addresses {
  import opened Values

  predicate IsDigit(c: char)
  {
    '0' <= c <= '9'
  }

  predicate AllDigits(s: string)
  {
    forall i :: 0 <= i < |s| ==> IsDigit(s[i])
  }

  /** One `\d{1,3}` group: one to three digits and nothing else. */
  predicate IsGroup(g: string)
  {
    1 <= |g| <= 3 && AllDigits(g)
  }

  // ---------------------------------------------------------------------
  // The matcher: the two regular expressions, read left to right
  // ---------------------------------------------------------------------

  /** Length of the run of digits that starts the string. */
  function DigitRun(s: string): (n: nat)
    ensures n <= |s|
    ensures n < |s| ==> !IsDigit(s[n])
  {
    if s == [] || !IsDigit(s[0]) then 0 else 1 + DigitRun(s[1..])
  }

  /** Matches `k` repetitions of `\d{1,3}\.` at the start of `s` and gives what
      follows them. A group must end at the dot, so backtracking over the
      digit count never finds another match. */
  function MatchDottedGroups(s: string, k: nat): (rest: Option<string>)
  {
    if k == 0 then Some(s)
    else
      var n := DigitRun(s);
      if 1 <= n <= 3 && n < |s| && s[n] == '.' then MatchDottedGroups(s[n + 1..], k - 1)
      else None
  }

  /** `is_valid_ip`: `^\d{1,3}\.\d{1,3}\.\d{1,3}\.\d{1,3}$`. */
  predicate IsValidIp(s: string)
  {
    match MatchDottedGroups(s, 3)
    case Some(last) => IsGroup(last)
    case None => false
  }

  /** The scan prefix check: `^\d{1,3}\.\d{1,3}\.\d{1,3}\.$`. */
  predicate IsScanPrefix(s: string)
  {
    MatchDottedGroups(s, 3) == Some([])
  }

  // ---------------------------------------------------------------------
  // Reference reading: split at every dot, as str.split does
  // ---------------------------------------------------------------------

  /** Index of the first `c` in `s`, or `|s|` when there is none. */
  function IndexOf(s: string, c: char): (i: nat)
    ensures i <= |s|
    ensures forall j :: 0 <= j < i ==> s[j] != c
    ensures i < |s| ==> s[i] == c
  {
    if s == [] || s[0] == c then 0 else 1 + IndexOf(s[1..], c)
  }

  /** The fields of `s` between separators; there is always at least one. */
  function Split(s: string, sep: char): (parts: seq<string>)
    ensures |parts| >= 1
    decreases |s|
  {
    var i := IndexOf(s, sep);
    if i == |s| then [s] else [s[..i]] + Split(s[i + 1..], sep)
  }

  /** Four dot-separated fields, each a one-to-three digit group. */
  predicate DottedQuad(s: string)
  {
    var p := Split(s, '.');
    |p| == 4 && IsGroup(p[0]) && IsGroup(p[1]) && IsGroup(p[2]) && IsGroup(p[3])
  }

  /** Three dot-terminated groups: four fields, the last one empty. */
  predicate DottedPrefix(s: string)
  {
    var p := Split(s, '.');
    |p| == 4 && IsGroup(p[0]) && IsGroup(p[1]) && IsGroup(p[2]) && p[3] == ""
  }

  /** The first occurrence is where the character first appears. */
  lemma IndexOfAt(s: string, c: char, n: nat)
    requires n < |s| && s[n] == c
    requires forall j :: 0 <= j < n ==> s[j] != c
    ensures IndexOf(s, c) == n
  {
  }

  /** A digit group closed by a dot is the first field of the split. */
  lemma SplitAtGroup(s: string, n: nat)
    requires n < |s| && s[n] == '.' && AllDigits(s[..n])
    ensures Split(s, '.') == [s[..n]] + Split(s[n + 1..], '.')
  {
    forall j | 0 <= j < n ensures s[j] != '.' {
      assert s[..n][j] == s[j];
    }
    IndexOfAt(s, '.', n);
  }

  /** When the digit run is not a group closed by a dot, the first field of
      the split is not a group closed by a dot either. */
  lemma NoGroupAtStart(s: string)
    requires var n := DigitRun(s); !(1 <= n <= 3 && n < |s| && s[n] == '.')
    ensures |Split(s, '.')| > 1 ==> !IsGroup(Split(s, '.')[0])
  {
    var i := IndexOf(s, '.');
    if i < |s| && IsGroup(s[..i]) {
      DigitRunAt(s, i);
    }
  }

  /** Digits up to a non-digit make up the digit run. */
  lemma {:induction false} DigitRunAt(s: string, i: nat)
    requires i < |s| && AllDigits(s[..i]) && !IsDigit(s[i])
    ensures DigitRun(s) == i
    decreases i
  {
    if i > 0 {
      assert IsDigit(s[..i][0]);
      assert s[1..][..i - 1] == s[..i][1..];
      DigitRunAt(s[1..], i - 1);
    }
  }

  /** The first `k` fields are groups. */
  predicate LeadingGroups(p: seq<string>, k: nat)
  {
    |p| > k && forall i :: 0 <= i < k ==> IsGroup(p[i])
  }

  lemma ShiftFields(g: string, q: seq<string>, k: nat)
    requires k > 0 && IsGroup(g)
    ensures LeadingGroups([g] + q, k) <==> LeadingGroups(q, k - 1)
    ensures |q| >= k - 1 ==> ([g] + q)[k..] == q[k - 1..]
  {
    var p := [g] + q;
    if LeadingGroups(q, k - 1) {
      forall i | 0 <= i < k
        ensures IsGroup(p[i])
      {
        if i > 0 { assert p[i] == q[i - 1]; }
      }
    }
    if LeadingGroups(p, k) {
      forall i | 0 <= i < k - 1
        ensures IsGroup(q[i])
      {
        assert p[i + 1] == q[i];
      }
    }
  }

  /** The digit run is a string of digits. */
  lemma {:induction false} DigitRunPrefix(s: string)
    ensures AllDigits(s[..DigitRun(s)])
    decreases |s|
  {
    if s != [] && IsDigit(s[0]) {
      DigitRunPrefix(s[1..]);
      var n := DigitRun(s);
      assert s[..n] == [s[0]] + s[1..][..n - 1];
    }
  }

  /** One step of the matcher: a leading group and its dot are the first
      field of the split, so matching moves on to the remaining fields. */
  lemma MatchStep(s: string, n: nat, k: nat)
    requires k > 0 && n == DigitRun(s) && 1 <= n <= 3 && n < |s| && s[n] == '.'
    requires var tail, m := s[n + 1..], MatchDottedGroups(s[n + 1..], k - 1);
      && (m.Some? <==> LeadingGroups(Split(tail, '.'), k - 1))
      && (m.Some? ==> Split(m.value, '.') == Split(tail, '.')[k - 1..])
    ensures MatchDottedGroups(s, k).Some? <==> LeadingGroups(Split(s, '.'), k)
    ensures MatchDottedGroups(s, k).Some? ==>
              Split(MatchDottedGroups(s, k).value, '.') == Split(s, '.')[k..]
  {
    var tail := s[n + 1..];
    var g := s[..n];
    var p, q := Split(s, '.'), Split(tail, '.');
    assert MatchDottedGroups(s, k) == MatchDottedGroups(tail, k - 1);
    DigitRunPrefix(s);
    assert IsGroup(g);
    SplitAtGroup(s, n);
    assert p == [g] + q;
    ShiftFields(g, q, k);
  }

  /** The matcher consumes exactly the first `k` fields of the split, each a
      group, and leaves the remaining fields. */
  lemma {:induction false} MatchAgreesWithSplit(s: string, k: nat)
    ensures MatchDottedGroups(s, k).Some? <==> LeadingGroups(Split(s, '.'), k)
    ensures MatchDottedGroups(s, k).Some? ==>
              Split(MatchDottedGroups(s, k).value, '.') == Split(s, '.')[k..]
    decreases k
  {
    if k == 0 {
      assert Split(s, '.')[0..] == Split(s, '.');
    } else {
      var n := DigitRun(s);
      if 1 <= n <= 3 && n < |s| && s[n] == '.' {
        MatchAgreesWithSplit(s[n + 1..], k - 1);
        MatchStep(s, n, k);
      } else {
        assert MatchDottedGroups(s, k) == None;
        NoGroupAtStart(s);
      }
    }
  }

  lemma SingleField(r: string)
    requires |Split(r, '.')| == 1
    ensures Split(r, '.') == [r]
  {
  }

  lemma GroupIsOneField(g: string)
    requires IsGroup(g)
    ensures Split(g, '.') == [g]
  {
  }

  /** `is_valid_ip` accepts exactly the strings made of four dot-separated
      groups of one to three digits. */
  lemma ValidIpIsDottedQuad(s: string)
    ensures IsValidIp(s) <==> DottedQuad(s)
  {
    var p := Split(s, '.');
    MatchAgreesWithSplit(s, 3);
    match MatchDottedGroups(s, 3)
    case Some(r) =>
      assert Split(r, '.') == p[3..];
      if IsGroup(r) {
        GroupIsOneField(r);
      }
      if DottedQuad(s) {
        SingleField(r);
      }
    case None =>
  }

  /** The scan prefix check accepts exactly three dot-terminated groups. */
  lemma ScanPrefixIsDottedPrefix(s: string)
    ensures IsScanPrefix(s) <==> DottedPrefix(s)
  {
    var p := Split(s, '.');
    MatchAgreesWithSplit(s, 3);
    match MatchDottedGroups(s, 3)
    case Some(r) =>
      assert Split(r, '.') == p[3..];
      if DottedPrefix(s) {
        SingleField(r);
      }
    case None =>
  }

  /** The digit run of a group closed by a dot is the group. */
  lemma {:induction false} GroupRun(g: string, t: string)
    requires AllDigits(g)
    ensures DigitRun(g + t) == |g| + DigitRun(t)
    decreases |g|
  {
    if g != [] {
      assert (g + t)[0] == g[0];
      assert (g + t)[1..] == g[1..] + t;
      GroupRun(g[1..], t);
    } else {
      assert g + t == t;
    }
  }

  /** A group and its dot are consumed by one step of the matcher. */
  lemma MatchGroup(g: string, rest: string, k: nat)
    requires IsGroup(g) && k > 0
    ensures MatchDottedGroups(g + "." + rest, k) == MatchDottedGroups(rest, k - 1)
  {
    var s := g + "." + rest;
    GroupRun(g, "." + rest);
    assert s == g + ("." + rest);
    assert s[|g| + 1..] == rest;
  }

  /** Four groups joined by dots pass `is_valid_ip`, whatever their values. */
  lemma DottedGroupsValid(a: string, b: string, c: string, d: string)
    requires IsGroup(a) && IsGroup(b) && IsGroup(c) && IsGroup(d)
    ensures IsValidIp(a + "." + b + "." + c + "." + d)
  {
    var cd := c + "." + d;
    var bcd := b + "." + cd;
    var s := a + "." + b + "." + c + "." + d;
    assert s == a + "." + bcd;
    MatchGroup(a, bcd, 3);
    MatchGroup(b, cd, 2);
    MatchGroup(c, d, 1);
    assert MatchDottedGroups(s, 3) == Some(d);
  }

  /** There is no 0 to 255 range check: an out-of-range address passes. */
  lemma NoOctetRangeCheck()
    ensures IsValidIp("999.0.0.1")
  {
    DottedGroupsValid("999", "0", "0", "1");
    assert "999" + "." + "0" + "." + "0" + "." + "1" == "999.0.0.1";
  }

  // ---------------------------------------------------------------------
  // Decimal rendering of host numbers (Python's str of a natural number)
  // ---------------------------------------------------------------------

  function DigitChar(d: nat): (c: char)
    requires d < 10
    ensures IsDigit(c)
  {
    ('0' as int + d) as char
  }

  function DigitValue(c: char): nat
    requires IsDigit(c)
  {
    c as int - '0' as int
  }

  /** The decimal digits of `n`, without leading zeros. */
  function Decimal(n: nat): (s: string)
    ensures |s| >= 1 && AllDigits(s)
    ensures n < 10 ==> |s| == 1
    ensures n < 100 ==> |s| <= 2
    ensures n < 1000 ==> |s| <= 3
    decreases n
  {
    if n < 10 then [DigitChar(n)] else Decimal(n / 10) + [DigitChar(n % 10)]
  }

  /** Ten to the power `k`. */
  function Pow10(k: nat): nat
  {
    if k == 0 then 1 else 10 * Pow10(k - 1)
  }

  /** A number below `10^k` takes at most `k` digits. */
  lemma {:induction false} DecimalBelowPow10(n: nat, k: nat)
    requires 1 <= k && n < Pow10(k)
    ensures |Decimal(n)| <= k
    decreases k
  {
    if n >= 10 {
      assert n / 10 < Pow10(k - 1);
      DecimalBelowPow10(n / 10, k - 1);
    }
  }

  /** The number a string of decimal digits denotes. */
  function DigitsValue(s: string): nat
    requires AllDigits(s)
    decreases |s|
  {
    if s == [] then 0 else 10 * DigitsValue(s[..|s| - 1]) + DigitValue(s[|s| - 1])
  }

  /** Reading back a rendered number gives the number. */
  lemma {:induction false} DecimalRoundTrip(n: nat)
    ensures DigitsValue(Decimal(n)) == n
    decreases n
  {
    if n >= 10 {
      DecimalRoundTrip(n / 10);
      var s := Decimal(n);
      assert s[..|s| - 1] == Decimal(n / 10);
    }
  }

  lemma DecimalInjective(a: nat, b: nat)
    requires Decimal(a) == Decimal(b)
    ensures a == b
  {
    DecimalRoundTrip(a);
    DecimalRoundTrip(b);
  }

  // ---------------------------------------------------------------------
  // The addresses a scan probes
  // ---------------------------------------------------------------------

  /** `ips_to_scan`: the prefix followed by each of 1 to 254, in that order. */
  function ScanTargets(prefix: string): (ips: seq<string>)
    ensures |ips| == 254
  {
    seq(254, i requires 0 <= i < 254 => prefix + Decimal(i + 1))
  }

  /** The host number after the prefix: the value of the trailing digits. */
  function HostNumber(prefix: string, ip: string): nat
    requires |prefix| <= |ip| && AllDigits(ip[|prefix|..])
  {
    DigitsValue(ip[|prefix|..])
  }

  /** Target `i` is the prefix followed by a one-to-three digit group that
      denotes `i + 1`: hosts 1 to 254 in increasing order, never 0 or 255. */
  lemma ScanTargetHost(prefix: string, i: nat)
    requires i < 254
    ensures var t := ScanTargets(prefix)[i];
      && |prefix| < |t| && t[..|prefix|] == prefix
      && IsGroup(t[|prefix|..])
      && HostNumber(prefix, t) == i + 1
      && 1 <= HostNumber(prefix, t) <= 254
  {
    var t := ScanTargets(prefix)[i];
    assert t[|prefix|..] == Decimal(i + 1);
    DecimalRoundTrip(i + 1);
  }

  /** The 254 targets are pairwise distinct. */
  lemma ScanTargetsDistinct(prefix: string)
    ensures forall i, j :: 0 <= i < j < 254 ==> ScanTargets(prefix)[i] != ScanTargets(prefix)[j]
  {
    var ips := ScanTargets(prefix);
    forall i, j | 0 <= i < j < 254
      ensures ips[i] != ips[j]
    {
      if ips[i] == ips[j] {
        assert ips[i][|prefix|..] == Decimal(i + 1);
        assert ips[j][|prefix|..] == Decimal(j + 1);
        DecimalInjective(i + 1, j + 1);
      }
    }
  }

  lemma {:induction false} DigitRunAppend(s: string, t: string)
    requires DigitRun(s) < |s|
    ensures DigitRun(s + t) == DigitRun(s)
    decreases |s|
  {
    if s != [] && IsDigit(s[0]) {
      assert (s + t)[1..] == s[1..] + t;
      DigitRunAppend(s[1..], t);
    }
  }

  /** Appending text after matched groups only extends what follows them. */
  lemma {:induction false} MatchAppend(s: string, t: string, k: nat)
    requires MatchDottedGroups(s, k).Some?
    ensures MatchDottedGroups(s + t, k) == Some(MatchDottedGroups(s, k).value + t)
    decreases k
  {
    if k > 0 {
      var n := DigitRun(s);
      var u := s + t;
      var rest := s[n + 1..];
      DigitRunAppend(s, t);
      assert DigitRun(u) == n && u[n] == '.';
      assert u[n + 1..] == rest + t;
      MatchAppend(rest, t, k - 1);
    }
  }

  /** Behind a prefix that passes the scan check, every target passes
      `is_valid_ip`. */
  lemma ScanTargetsAreValidIps(prefix: string)
    requires IsScanPrefix(prefix)
    ensures forall i :: 0 <= i < 254 ==> IsValidIp(ScanTargets(prefix)[i])
  {
    forall i | 0 <= i < 254
      ensures IsValidIp(ScanTargets(prefix)[i])
    {
      var d := Decimal(i + 1);
      MatchAppend(prefix, d, 3);
      assert [] + d == d;
    }
  }
}
