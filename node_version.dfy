/**
 * The runtime version gate: the minimum Node major version, read from the
 * volta version string, and the decision to abort when the running
 * interpreter is older.  Printing and `process.exit` become a returned
 * `Decision`.
 */
module NodeVersion {
  import opened Wrappers

  // ---------------------------------------------------------------------
  // Decimal text
  // ---------------------------------------------------------------------

  predicate IsDigit(c: char)
  {
    '0' <= c <= '9'
  }

  predicate AllDigits(s: string)
  {
    forall i :: 0 <= i < |s| ==> IsDigit(s[i])
  }

  function DigitValue(c: char): nat
    requires IsDigit(c)
  {
    (c as int) - ('0' as int)
  }

  function DigitChar(d: nat): (c: char)
    requires d < 10
    ensures IsDigit(c) && DigitValue(c) == d
  {
    (('0' as int) + d) as char
  }

  /** The value of a string of decimal digits; the empty string is 0. */
  function DigitsValue(s: string): nat
    requires AllDigits(s)
  {
    if s == [] then 0 else 10 * DigitsValue(s[..|s| - 1]) + DigitValue(s[|s| - 1])
  }

  /** The decimal numeral of `n`, as a template literal prints a number. */
  function NatToString(n: nat): (s: string)
    ensures s != [] && AllDigits(s)
    ensures n > 0 ==> s[0] != '0'
    ensures |s| > 1 ==> s[0] != '0'
  {
    if n < 10 then [DigitChar(n)] else NatToString(n / 10) + [DigitChar(n % 10)]
  }

  /** The decimal digits at the front of `s`. */
  function LeadingDigits(s: string): (r: string)
    ensures r <= s && AllDigits(r)
    ensures |r| < |s| ==> !IsDigit(s[|r|])
  {
    if s != [] && IsDigit(s[0]) then [s[0]] + LeadingDigits(s[1..]) else []
  }

  /** `parseInt(s)` on decimal text: the value of the leading digits, or
      `None` (NaN) when `s` does not start with a digit. */
  function ParseInt(s: string): (r: Option<nat>)
    ensures r.None? <==> s == [] || !IsDigit(s[0])
  {
    var digits := LeadingDigits(s);
    if digits == [] then None else Some(DigitsValue(digits))
  }

  /** `Number(s)` on decimal text: the value when every character is a digit
      (so the empty string is 0), `None` (NaN) otherwise. */
  function ToNumber(s: string): (r: Option<nat>)
    ensures r.Some? <==> AllDigits(s)
    ensures s == [] ==> r == Some(0)
  {
    if AllDigits(s) then Some(DigitsValue(s)) else None
  }

  // ---------------------------------------------------------------------
  // Version strings
  // ---------------------------------------------------------------------

  /** `s.split('.')[0]`: the text before the first dot, or all of `s`. */
  function BeforeFirstDot(s: string): (r: string)
    ensures r <= s && '.' !in r
    ensures |r| < |s| ==> s[|r|] == '.'
  {
    if s == [] || s[0] == '.' then [] else [s[0]] + BeforeFirstDot(s[1..])
  }

  /** `s.replace(c, '')` with a one-character string pattern: the first
      occurrence of `c` is dropped, the rest is kept. */
  function RemoveFirst(s: string, c: char): (r: string)
    ensures c !in s ==> r == s
    ensures c in s ==> |r| + 1 == |s|
    ensures s != [] && s[0] == c ==> r == s[1..]
    ensures c in s ==> exists i :: 0 <= i < |s| && s[i] == c && c !in s[..i] && r == s[..i] + s[i + 1..]
  {
    if s == [] then []
    else if s[0] == c then assert s[..0] + s[1..] == s[1..]; s[1..]
    else
      var t := RemoveFirst(s[1..], c);
      RemovedLater(s, c, t);
      [s[0]] + t
  }

  /** When `s` does not start with `c`, the occurrence removed from its tail
      is, one place further on, the first occurrence in `s`. */
  lemma RemovedLater(s: string, c: char, t: string)
    requires s != [] && s[0] != c
    requires c in s[1..] ==> exists i :: 0 <= i < |s| - 1 && s[1..][i] == c && c !in s[1..][..i] && t == s[1..][..i] + s[1..][i + 1..]
    ensures c in s ==> exists i :: 0 <= i < |s| && s[i] == c && c !in s[..i] && [s[0]] + t == s[..i] + s[i + 1..]
  {
    if c in s {
      var k :| 0 <= k < |s| && s[k] == c;
      assert s[1..][k - 1] == c;
      var i :| 0 <= i < |s| - 1 && s[1..][i] == c && c !in s[1..][..i] && t == s[1..][..i] + s[1..][i + 1..];
      var head := s[..i + 1];
      assert head == [s[0]] + s[1..][..i];
      assert s[i + 2..] == s[1..][i + 1..];
      assert [s[0]] + t == head + s[i + 2..];
      assert s[i + 1] == c && c !in head;
    }
  }

  /** `nodeMajor`: `Number` of the volta version up to its first dot. */
  function MinimumMajor(volta: string): (m: Option<nat>)
    ensures m.Some? <==> AllDigits(BeforeFirstDot(volta))
    ensures volta == [] || volta[0] == '.' ==> m == Some(0)
  {
    ToNumber(BeforeFirstDot(volta))
  }

  /** `attemptedVersion`: `process.version` up to its first dot, without its
      first `v`. */
  function AttemptedVersion(processVersion: string): (a: string)
    ensures '.' !in a && |a| <= |processVersion|
    ensures processVersion != [] && processVersion[0] == 'v' ==> a == BeforeFirstDot(processVersion)[1..]
  {
    RemoveFirst(BeforeFirstDot(processVersion), 'v')
  }

  /** `parseInt(attempted) < nodeMajor`; a NaN on either side compares
      false. */
  predicate Below(attempted: string, minimum: Option<nat>)
    ensures Below(attempted, minimum) ==> attempted != [] && IsDigit(attempted[0]) && minimum.Some? && minimum.value > 0
  {
    ParseInt(attempted).Some? && minimum.Some? && ParseInt(attempted).value < minimum.value
  }

  // ---------------------------------------------------------------------
  // The gate
  // ---------------------------------------------------------------------

  /** Either nothing happens, or the lines printed before exiting with
      `status`. */
  datatype Decision = Pass | Abort(lines: seq<string>, status: int)

  const CommandFailedLine: string := "Command failed"
  const UpgradePrefix: string := "Gavin formally requests you upgrade to Node "
  const FromPrefix: string := "+ (From v"
  const ExitStatus: int := 1

  /** The upgrade request, naming the minimum and the attempted version. */
  function UpgradeLine(minimum: nat, attempted: string): (line: string)
    ensures |line| > |UpgradePrefix| + |FromPrefix| + |attempted|
    ensures line[..|UpgradePrefix|] == UpgradePrefix && line[|line| - 1] == ')'
  {
    UpgradePrefix + NatToString(minimum) + FromPrefix + attempted + ")"
  }

  /** `checkNodeVersion` of utils/node.js, for the running interpreter's
      `processVersion` and the volta version string. */
  function CheckNodeVersion(processVersion: string, volta: string): (d: Decision)
    ensures d.Abort? ==> d.status == 1 && |d.lines| == 2 && d.lines[0] == CommandFailedLine
    ensures d.Abort? ==> ParseInt(AttemptedVersion(processVersion)).Some? && MinimumMajor(volta).Some?
  {
    var attempted := AttemptedVersion(processVersion);
    var minimum := MinimumMajor(volta);
    if Below(attempted, minimum) then Abort([CommandFailedLine, UpgradeLine(minimum.value, attempted)], ExitStatus)
    else Pass
  }

  /** The command line's own copy of the gate, with the minimum fixed at 18
      and an upgrade request that does not name the attempted version. */
  const CliMinimum: nat := 18
  const CliUpgradeLine: string := "Gavin formally requests you upgrade to Node 18+"

  function CliCheckNodeVersion(processVersion: string): (d: Decision)
    ensures d.Abort? ==> d.status == 1 && d.lines == [CommandFailedLine, CliUpgradeLine]
  {
    if Below(AttemptedVersion(processVersion), Some(CliMinimum)) then Abort([CommandFailedLine, CliUpgradeLine], ExitStatus)
    else Pass
  }

  // ---------------------------------------------------------------------
  // Properties
  // ---------------------------------------------------------------------

  lemma {:induction false} DigitsValueOfNumeral(n: nat)
    ensures DigitsValue(NatToString(n)) == n
  {
    if n >= 10 {
      var s := NatToString(n);
      assert s[..|s| - 1] == NatToString(n / 10);
      DigitsValueOfNumeral(n / 10);
    }
  }

  /** The leading digits of a numeral followed by a non-digit are the numeral. */
  lemma {:induction false} LeadingDigitsOfNumeral(d: string, rest: string)
    requires AllDigits(d)
    requires rest == [] || !IsDigit(rest[0])
    ensures LeadingDigits(d + rest) == d
  {
    if d != [] {
      assert (d + rest)[1..] == d[1..] + rest;
      LeadingDigitsOfNumeral(d[1..], rest);
    } else {
      assert d + rest == rest;
    }
  }

  /** The text before the first dot of `d + "." + rest`, when `d` has no dot. */
  lemma {:induction false} BeforeDotOf(d: string, rest: string)
    requires '.' !in d
    ensures BeforeFirstDot(d + "." + rest) == d
  {
    if d != [] {
      assert (d + "." + rest)[1..] == d[1..] + "." + rest;
      BeforeDotOf(d[1..], rest);
    }
  }

  /** `parseInt` and `Number` read back a numeral's value. */
  lemma NumeralRoundTrip(n: nat)
    ensures ParseInt(NatToString(n)) == Some(n)
    ensures ToNumber(NatToString(n)) == Some(n)
  {
    LeadingDigitsOfNumeral(NatToString(n), []);
    assert NatToString(n) + [] == NatToString(n);
    DigitsValueOfNumeral(n);
  }

  lemma NumeralHasNoDot(n: nat)
    ensures '.' !in NatToString(n) && 'v' !in NatToString(n)
  {
    var s := NatToString(n);
    assert forall i :: 0 <= i < |s| ==> s[i] != '.' && s[i] != 'v';
  }

  /** A version string `vN.rest` is attempted as `N`, which parses to N, and
      a volta string `M.rest` gives the minimum M. */
  lemma WellFormedVersions(n: nat, m: nat, rest: string, voltaRest: string)
    ensures AttemptedVersion("v" + NatToString(n) + "." + rest) == NatToString(n)
    ensures ParseInt(AttemptedVersion("v" + NatToString(n) + "." + rest)) == Some(n)
    ensures MinimumMajor(NatToString(m) + "." + voltaRest) == Some(m)
  {
    NumeralHasNoDot(n);
    NumeralHasNoDot(m);
    var vn := "v" + NatToString(n);
    assert '.' !in vn by {
      assert forall i :: 0 <= i < |vn| ==> vn[i] == if i == 0 then 'v' else NatToString(n)[i - 1];
    }
    BeforeDotOf(vn, rest);
    BeforeDotOf(NatToString(m), voltaRest);
    assert vn[1..] == NatToString(n);
    NumeralRoundTrip(n);
    NumeralRoundTrip(m);
  }

  /** The gate on well-formed versions: it aborts exactly when the running
      major is below the minimum, printing the failure line and an upgrade
      request naming both, with exit status 1; otherwise it passes. */
  lemma GateDecision(n: nat, m: nat, rest: string, voltaRest: string)
    ensures CheckNodeVersion("v" + NatToString(n) + "." + rest, NatToString(m) + "." + voltaRest)
            == if n < m then Abort([CommandFailedLine, UpgradeLine(m, NatToString(n))], 1) else Pass
  {
    WellFormedVersions(n, m, rest, voltaRest);
  }

  /** When the attempted version does not start with a digit, or the volta
      version is not a number, `parseInt` or `Number` gives NaN and the gate
      passes. */
  lemma NaNPasses(processVersion: string, volta: string)
    requires var a := AttemptedVersion(processVersion);
             a == [] || !IsDigit(a[0]) || !AllDigits(BeforeFirstDot(volta))
    ensures CheckNodeVersion(processVersion, volta) == Pass
  {
  }

  /** The upgrade request names both versions: the minimum reads back from
      the text after the prefix, and the attempted version from between
      "(From v" and the closing parenthesis. */
  lemma UpgradeLineRoundTrip(minimum: nat, attempted: string)
    ensures var line := UpgradeLine(minimum, attempted);
            var k := |UpgradePrefix| + |NatToString(minimum)| + |FromPrefix|;
            && |line| == k + |attempted| + 1
            && ParseInt(line[|UpgradePrefix|..]) == Some(minimum)
            && line[k..|line| - 1] == attempted
  {
    var numeral := NatToString(minimum);
    var tail := FromPrefix + attempted + ")";
    SliceLine(UpgradePrefix, numeral, FromPrefix, attempted);
    assert tail[0] == '+';
    LeadingDigitsOfNumeral(numeral, tail);
    DigitsValueOfNumeral(minimum);
  }

  /** Where the pieces of `p + d + f + a + ")"` sit. */
  lemma SliceLine(p: string, d: string, f: string, a: string)
    ensures var line := p + d + f + a + ")";
            && |line| == |p| + |d| + |f| + |a| + 1
            && line[|p|..] == d + (f + a + ")")
            && line[|p| + |d| + |f|..|line| - 1] == a
  {
    var line := p + d + f + a + ")";
    assert line == p + (d + (f + a + ")"));
  }

  /** The command line's gate decides as the module's does when the volta
      minimum is 18: both abort on the same interpreters, with the same
      status and first line, and the command line's request is the start of
      the module's. */
  lemma CliGateAgrees(processVersion: string, volta: string)
    requires MinimumMajor(volta) == Some(18)
    ensures CliCheckNodeVersion(processVersion).Abort? <==> CheckNodeVersion(processVersion, volta).Abort?
    ensures CliCheckNodeVersion(processVersion).Abort? ==>
              && CliCheckNodeVersion(processVersion).status == CheckNodeVersion(processVersion, volta).status
              && CliCheckNodeVersion(processVersion).lines[0] == CheckNodeVersion(processVersion, volta).lines[0]
              && CliUpgradeLine <= CheckNodeVersion(processVersion, volta).lines[1]
  {
    if CliCheckNodeVersion(processVersion).Abort? {
      var attempted := AttemptedVersion(processVersion);
      CliLineIsPrefix(attempted);
    }
  }

  lemma CliLineIsPrefix(attempted: string)
    ensures CliUpgradeLine <= UpgradeLine(18, attempted)
  {
    assert NatToString(18) == "18";
    var line := UpgradeLine(18, attempted);
    assert line == UpgradePrefix + "18" + "+" + (" (From v" + attempted + ")");
    assert UpgradePrefix + "18" + "+" == CliUpgradeLine;
  }

  /** The unit test fixes the volta version at 18.16.0, whose major both
      `Number` and `parseInt` read as 18. The two interpreter versions are
      illustrative: Node 16 is turned away and Node 20 passes. */
  lemma TestVersions()
    ensures MinimumMajor("18.16.0") == Some(18)
    ensures ParseInt(BeforeFirstDot("18.16.0")) == Some(18)
    ensures CheckNodeVersion("v16.20.2", "18.16.0").Abort?
    ensures CheckNodeVersion("v20.11.1", "18.16.0") == Pass
  {
    assert NatToString(18) == "18" && NatToString(16) == "16" && NatToString(20) == "20";
    assert "18.16.0" == "18" + "." + "16.0";
    assert "v16.20.2" == "v" + "16" + "." + "20.2";
    assert "v20.11.1" == "v" + "20" + "." + "11.1";
    WellFormedVersions(16, 18, "20.2", "16.0");
    WellFormedVersions(20, 18, "11.1", "16.0");
    NumeralHasNoDot(18);
    BeforeDotOf(NatToString(18), "16.0");
    NumeralRoundTrip(18);
  }
}
