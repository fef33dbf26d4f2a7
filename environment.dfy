/**
 * The environment sniffer (`sniffEnvironment`, src/index.js:335-368): pure
 * classification of the browser from its user-agent string, plus the two
 * navigator facts (`'standalone' in navigator`, `navigator.standalone`) and
 * the device pixel ratio, which are inputs here.
 */
module Environment {
  import opened Strings
  import opened Wrappers

  const IOS := "ios"
  const ANDROID := "android"
  const WINDOWS := "windows"
  const UNSUPPORTED := "unsupported"

  /** `/iphone|ipod|ipad/i.test(ua)`: one of the three names occurs, in any letter case. */
  predicate IsIDevice(ua: string)
    ensures IsIDevice(ua) <==>
      || (exists i :: OccursAt(Lower(ua), "iphone", i))
      || (exists i :: OccursAt(Lower(ua), "ipod", i))
      || (exists i :: OccursAt(Lower(ua), "ipad", i))
  {
    ContainsLowerIff(ua, "iphone");
    ContainsLowerIff(ua, "ipod");
    ContainsLowerIff(ua, "ipad");
    Contains(Lower(ua), "iphone") || Contains(Lower(ua), "ipod") || Contains(Lower(ua), "ipad")
  }

  /**
   * `ua.indexOf('Android') > -1 && /Chrome\/[.0-9]*\/.test(ua) && ua.indexOf('Version') == -1`;
   * the regex can match an empty run of digits, so it holds exactly when `Chrome/` occurs.
   */
  predicate IsMobileChrome(ua: string)
    ensures IsMobileChrome(ua) <==>
      && (exists i :: OccursAt(ua, "Android", i))
      && (exists i :: OccursAt(ua, "Chrome/", i))
      && !(exists i :: OccursAt(ua, "Version", i))
  {
    ContainsIff(ua, "Android");
    ContainsIff(ua, "Chrome/");
    ContainsIff(ua, "Version");
    Contains(ua, "Android") && Contains(ua, "Chrome/") && !Contains(ua, "Version")
  }

  /** `ua.indexOf('Windows Phone') > -1` */
  predicate IsMobileIE(ua: string)
    ensures IsMobileIE(ua) <==> exists i :: OccursAt(ua, "Windows Phone", i)
  {
    ContainsIff(ua, "Windows Phone");
    Contains(ua, "Windows Phone")
  }

  /** An iOS device whose user agent names `Safari` and not `CriOS` (Chrome on iOS). */
  predicate IsMobileSafari(ua: string)
    ensures IsMobileSafari(ua) <==>
      && IsIDevice(ua)
      && (exists i :: OccursAt(ua, "Safari", i))
      && !(exists i :: OccursAt(ua, "CriOS", i))
  {
    ContainsIff(ua, "Safari");
    ContainsIff(ua, "CriOS");
    IsIDevice(ua) && Contains(ua, "Safari") && !Contains(ua, "CriOS")
  }

  /** The platform, tested in the order ios, android, windows. */
  function DetectOS(ua: string): (r: string)
    ensures r in {IOS, ANDROID, WINDOWS, UNSUPPORTED}
    ensures r == IOS <==> IsIDevice(ua)
  {
    if IsIDevice(ua) then IOS
    else if IsMobileChrome(ua) then ANDROID
    else if IsMobileIE(ua) then WINDOWS
    else UNSUPPORTED
  }

  /** The precedence of the platform tests: each platform is chosen only when every earlier test failed. */
  lemma OSPrecedence(ua: string)
    ensures DetectOS(ua) == IOS <==> IsIDevice(ua)
    ensures DetectOS(ua) == ANDROID <==> !IsIDevice(ua) && IsMobileChrome(ua)
    ensures DetectOS(ua) == WINDOWS <==> !IsIDevice(ua) && !IsMobileChrome(ua) && IsMobileIE(ua)
    ensures DetectOS(ua) == UNSUPPORTED <==> !IsIDevice(ua) && !IsMobileChrome(ua) && !IsMobileIE(ua)
    ensures DetectOS(ua) in {IOS, ANDROID, WINDOWS, UNSUPPORTED}
  {
  }

  /** A match of `/(OS|Android) (\d+[_.]\d+)/`: the two digit runs and the separator between them. */
  datatype VersionMatch = VersionMatch(major: string, sep: char, minor: string)

  /** Length of the longest run of decimal digits starting at `i` (what a greedy `\d+` consumes). */
  function DigitRun(s: string, i: nat): (n: nat)
    requires i <= |s|
    ensures i + n <= |s|
    ensures forall j :: i <= j < i + n ==> IsDigit(s[j])
    ensures i + n < |s| ==> !IsDigit(s[i + n])
    decreases |s| - i
  {
    if i < |s| && IsDigit(s[i]) then 1 + DigitRun(s, i + 1) else 0
  }

  /** A run of `n` digits followed by a non-digit (or the end) is exactly what `\d+` takes. */
  lemma {:induction false} DigitRunExact(s: string, i: nat, n: nat)
    requires i + n <= |s|
    requires forall j :: i <= j < i + n ==> IsDigit(s[j])
    requires i + n == |s| || !IsDigit(s[i + n])
    ensures DigitRun(s, i) == n
    decreases n
  {
    if n > 0 {
      DigitRunExact(s, i + 1, n - 1);
    }
  }

  /**
   * `(\d+[_.]\d+)` tried at position `q`, after the prefix and its space. It
   * matches exactly when a digit run is followed by `_` or `.` and another
   * digit run, and both runs are taken whole (greedy `\d+`).
   */
  function VersionAfter(s: string, q: nat): (r: Option<VersionMatch>)
    requires q <= |s|
    ensures r.Some? ==> WellFormed(r.value)
  {
    var n1 := DigitRun(s, q);
    if n1 == 0 || q + n1 >= |s| || !(s[q + n1] == '_' || s[q + n1] == '.') then None
    else
      var n2 := DigitRun(s, q + n1 + 1);
      if n2 == 0 then None
      else Some(VersionMatch(s[q..q + n1], s[q + n1], s[q + n1 + 1..q + n1 + 1 + n2]))
  }

  /**
   * `VersionAfter` matches exactly when a digit run, a `_` or `.` and a
   * second digit run are there, and it takes each run whole.
   */
  lemma VersionAfterIff(s: string, q: nat)
    requires q <= |s|
    ensures var r := VersionAfter(s, q); var n1 := DigitRun(s, q);
      r.Some? <==> n1 > 0 && q + n1 < |s| && (s[q + n1] == '_' || s[q + n1] == '.') && DigitRun(s, q + n1 + 1) > 0
    ensures var r := VersionAfter(s, q);
      r.Some? ==> |r.value.major| == DigitRun(s, q) && |r.value.minor| == DigitRun(s, q + |r.value.major| + 1)
  {
  }

  /** The text a `VersionAfter` match reports is what the string holds at `q`. */
  lemma VersionAfterSound(s: string, q: nat)
    requires q <= |s|
    ensures var r := VersionAfter(s, q);
      r.Some? ==> OccursAt(s, r.value.major + [r.value.sep] + r.value.minor, q)
  {
    var r := VersionAfter(s, q);
    if r.Some? {
      var n1 := DigitRun(s, q);
      var n2 := DigitRun(s, q + n1 + 1);
      var e := q + n1 + 1 + n2;
      assert r.value == VersionMatch(s[q..q + n1], s[q + n1], s[q + n1 + 1..e]);
      assert s[q..e] == s[q..q + n1] + [s[q + n1]] + s[q + n1 + 1..e];
    }
  }

  /** A match after the prefix `pre` at `p` spells `pre` and the version there. */
  lemma PrefixedMatch(s: string, p: nat, pre: string, m: VersionMatch)
    requires OccursAt(s, pre, p)
    requires VersionAfter(s, p + |pre|) == Some(m)
    ensures OccursAt(s, pre + m.major + [m.sep] + m.minor, p)
  {
    VersionAfterSound(s, p + |pre|);
    var rest := m.major + [m.sep] + m.minor;
    OccursConcat(s, pre, rest, p);
    assert pre + rest == pre + m.major + [m.sep] + m.minor;
  }

  /** The regex tried at one start position `p`: `OS` is tried before `Android`. */
  function VersionAt(s: string, p: nat): (r: Option<VersionMatch>)
    ensures r.Some? ==> WellFormed(r.value)
    ensures OccursAt(s, "OS ", p) ==> r == VersionAfter(s, p + 3)
    ensures !OccursAt(s, "OS ", p) && OccursAt(s, "Android ", p) ==> r == VersionAfter(s, p + 8)
    ensures !OccursAt(s, "OS ", p) && !OccursAt(s, "Android ", p) ==> r.None?
    ensures r.Some? ==> p < |s| && (s[p] == 'O' || s[p] == 'A')
  {
    if OccursAt(s, "OS ", p) then VersionAfter(s, p + 3)
    else if OccursAt(s, "Android ", p) then VersionAfter(s, p + 8)
    else None
  }

  /** Two non-empty digit runs and a `_` or `.` between them. */
  predicate WellFormed(m: VersionMatch)
  {
    |m.major| > 0 && |m.minor| > 0 && AllDigits(m.major) && AllDigits(m.minor)
    && (m.sep == '_' || m.sep == '.')
  }


  predicate AllDigits(d: string)
  {
    forall i :: 0 <= i < |d| ==> IsDigit(d[i])
  }

  /** What a match at `p` means: the text there spells the pattern. */
  lemma VersionAtSound(s: string, p: nat, m: VersionMatch)
    requires VersionAt(s, p) == Some(m)
    ensures OccursAt(s, "OS " + m.major + [m.sep] + m.minor, p)
         || OccursAt(s, "Android " + m.major + [m.sep] + m.minor, p)
  {
    if OccursAt(s, "OS ", p) {
      PrefixedMatch(s, p, "OS ", m);
    } else {
      PrefixedMatch(s, p, "Android ", m);
    }
  }

  /** `ua.match(...)`: the leftmost start position at or after `p` where the regex matches. */
  function VersionFrom(s: string, p: nat): (r: Option<VersionMatch>)
    ensures r.Some? ==> WellFormed(r.value)
    decreases |s| + 1 - p
  {
    if p > |s| then None
    else if VersionAt(s, p).Some? then VersionAt(s, p)
    else VersionFrom(s, p + 1)
  }

  /** The search finds nothing exactly when no position from `p` on matches. */
  lemma {:induction false} VersionFromNone(s: string, p: nat)
    ensures VersionFrom(s, p).None? <==> forall k :: p <= k <= |s| ==> VersionAt(s, k).None?
    decreases |s| + 1 - p
  {
    if p > |s| {
    } else if VersionAt(s, p).Some? {
      assert p <= p <= |s| && VersionAt(s, p).Some?;
    } else {
      assert VersionFrom(s, p) == VersionFrom(s, p + 1);
      VersionFromNone(s, p + 1);
    }
  }

  /** A successful search returns the match at the leftmost matching position. */
  lemma {:induction false} VersionFromLeftmost(s: string, p: nat)
    requires VersionFrom(s, p).Some?
    ensures exists k :: p <= k <= |s| && VersionAt(s, k) == VersionFrom(s, p)
                        && forall j :: p <= j < k ==> VersionAt(s, j).None?
    decreases |s| + 1 - p
  {
    if VersionAt(s, p).Some? {
      assert p <= p <= |s| && VersionAt(s, p) == VersionFrom(s, p);
    } else {
      assert VersionFrom(s, p) == VersionFrom(s, p + 1);
      VersionFromLeftmost(s, p + 1);
      var k :| p + 1 <= k <= |s| && VersionAt(s, k) == VersionFrom(s, p + 1)
               && forall j :: p + 1 <= j < k ==> VersionAt(s, j).None?;
      assert forall j :: p <= j < k ==> VersionAt(s, j).None?;
    }
  }

  /** `10^n`; never zero, so the minor digits can be divided by it. */
  function Pow10(n: nat): (r: nat)
    ensures r >= 1
  {
    if n == 0 then 1 else 10 * Pow10(n - 1)
  }

  /** The value of a run of decimal digits (leading zeros allowed). */
  function DigitsValue(d: string): nat
    requires AllDigits(d)
  {
    if d == [] then 0 else 10 * DigitsValue(d[..|d| - 1]) + (d[|d| - 1] as int - '0' as int)
  }

  /** A run of `n` digits is worth less than `10^n`, so the minor part is a fraction below one. */
  lemma {:induction false} DigitsBelowPow10(d: string)
    requires AllDigits(d)
    ensures DigitsValue(d) < Pow10(|d|)
  {
    if d != [] {
      DigitsBelowPow10(d[..|d| - 1]);
    }
  }

  /** A quotient of reals with `0 <= a < b` lies in `[0, 1)`. */
  lemma FractionInUnit(a: real, b: real)
    requires 0.0 <= a < b
    ensures 0.0 <= a / b < 1.0
  {
  }

  /** The fractional part `0.<minor>` of a matched version. */
  function MinorFraction(m: VersionMatch): (f: real)
    requires AllDigits(m.minor)
    ensures 0.0 <= f < 1.0
  {
    DigitsBelowPow10(m.minor);
    FractionInUnit(DigitsValue(m.minor) as real, Pow10(|m.minor|) as real);
    (DigitsValue(m.minor) as real) / (Pow10(|m.minor|) as real)
  }

  /** `+match[2].replace('_', '.')`, or 0 when the regex does not match. */
  function OSVersion(ua: string): (v: real)
    ensures v >= 0.0
    ensures VersionFrom(ua, 0).None? ==> v == 0.0
    ensures VersionFrom(ua, 0).Some? ==> v.Floor == DigitsValue(VersionFrom(ua, 0).value.major)
  {
    match VersionFrom(ua, 0)
    case None => 0.0
    case Some(m) => DigitsValue(m.major) as real + MinorFraction(m)
  }

  /** The version is zero when the regex matches nowhere. */
  lemma OSVersionZeroWhenNoMatch(ua: string)
    requires forall k :: 0 <= k <= |ua| ==> VersionAt(ua, k).None?
    ensures OSVersion(ua) == 0.0
  {
    VersionFromNone(ua, 0);
  }

  /** `OSVersion(ua) >= 6` depends only on the major number of the leftmost match. */
  lemma OSVersionAtLeast(ua: string, major: nat)
    ensures OSVersion(ua) >= major as real <==>
      major == 0 || (VersionFrom(ua, 0).Some? && DigitsValue(VersionFrom(ua, 0).value.major) >= major)
  {
    match VersionFrom(ua, 0)
    case None =>
    case Some(m) =>
  }

  /** Positions where the regex cannot start are skipped by the search. */
  lemma {:induction false} VersionFromSkips(s: string, p: nat, q: nat)
    requires p <= q <= |s| + 1
    requires forall k :: p <= k < q ==> VersionAt(s, k).None?
    ensures VersionFrom(s, p) == VersionFrom(s, q)
    decreases q - p
  {
    if p < q {
      VersionFromSkips(s, p + 1, q);
    }
  }

  /** Two whole digit runs around a separator are matched exactly, and nothing longer. */
  lemma VersionAfterExact(s: string, q: nat, major: string, sep: char, minor: string)
    requires WellFormed(VersionMatch(major, sep, minor))
    requires var m := q + |major|;
      && m + 1 + |minor| <= |s|
      && s[q..m] == major && s[m] == sep && s[m + 1..m + 1 + |minor|] == minor
    requires var e := q + |major| + 1 + |minor|; e == |s| || !IsDigit(s[e])
    ensures VersionAfter(s, q) == Some(VersionMatch(major, sep, minor))
  {
    var m := q + |major|;
    assert forall j :: q <= j < m ==> s[j] == s[q..m][j - q];
    DigitRunExact(s, q, |major|);
    assert forall j :: m + 1 <= j < m + 1 + |minor| ==> s[j] == s[m + 1..m + 1 + |minor|][j - m - 1];
    DigitRunExact(s, m + 1, |minor|);
  }

  /** No match can start inside a prefix that holds neither `O` nor `A`. */
  lemma NoMatchInPrefix(s: string, pre: string)
    requires 'O' !in pre && 'A' !in pre && pre <= s
    ensures forall k :: 0 <= k < |pre| ==> VersionAt(s, k).None?
  {
    forall k | 0 <= k < |pre|
      ensures VersionAt(s, k).None?
    {
      assert s[k] == pre[k];
    }
  }

  /** Where the parts of `"OS " + major + [sep] + minor + rest` sit. */
  lemma IOSVersionText(major: string, sep: char, minor: string, rest: string)
    ensures var t := "OS " + major + [sep] + minor + rest; var m := 3 + |major|;
      && |t| == m + 1 + |minor| + |rest|
      && t[..3] == "OS " && t[3..m] == major && t[m] == sep && t[m + 1..m + 1 + |minor|] == minor
      && t[m + 1 + |minor|..] == rest
  {
    var t := "OS " + major + [sep] + minor + rest;
    assert t == "OS " + (major + ([sep] + (minor + rest)));
  }

  /**
   * An iOS user agent whose first `O` or `A` begins `OS <major>_<minor>`
   * reports the version `major + 0.minor`: `OS 9_3` is read as 9.3.
   */
  lemma OSVersionOfIOSAgent(pre: string, major: string, sep: char, minor: string, rest: string)
    requires 'O' !in pre && 'A' !in pre
    requires WellFormed(VersionMatch(major, sep, minor))
    requires rest == [] || !IsDigit(rest[0])
    ensures OSVersion(pre + "OS " + major + [sep] + minor + rest)
      == DigitsValue(major) as real + (DigitsValue(minor) as real) / (Pow10(|minor|) as real)
  {
    var s := pre + "OS " + major + [sep] + minor + rest;
    IOSAgentMatch(pre, major, sep, minor, rest);
    OSVersionOfFirstMatch(s, |pre|, VersionMatch(major, sep, minor));
  }

  /** In such an agent the regex matches first at the `OS ` and reads `major`, `sep` and `minor` there. */
  lemma IOSAgentMatch(pre: string, major: string, sep: char, minor: string, rest: string)
    requires 'O' !in pre && 'A' !in pre
    requires WellFormed(VersionMatch(major, sep, minor))
    requires rest == [] || !IsDigit(rest[0])
    ensures var s := pre + "OS " + major + [sep] + minor + rest;
      && |pre| <= |s|
      && (forall k :: 0 <= k < |pre| ==> VersionAt(s, k).None?)
      && VersionAt(s, |pre|) == Some(VersionMatch(major, sep, minor))
  {
    var t := "OS " + major + [sep] + minor + rest;
    var s := pre + t;
    assert s == pre + "OS " + major + [sep] + minor + rest;
    NoMatchInPrefix(s, pre);
    IOSVersionText(major, sep, minor, rest);
    IOSVersionAt(s, |pre|, t, major, sep, minor, rest);
  }

  /** The regex reads the version at the `OS ` that starts `t`, the tail of `s` from `p`. */
  lemma IOSVersionAt(s: string, p: nat, t: string, major: string, sep: char, minor: string, rest: string)
    requires p <= |s| && s[p..] == t
    requires WellFormed(VersionMatch(major, sep, minor))
    requires rest == [] || !IsDigit(rest[0])
    requires var m := 3 + |major|;
      && |t| == m + 1 + |minor| + |rest|
      && t[..3] == "OS " && t[3..m] == major && t[m] == sep && t[m + 1..m + 1 + |minor|] == minor
      && t[m + 1 + |minor|..] == rest
    ensures VersionAt(s, p) == Some(VersionMatch(major, sep, minor))
  {
    var q := p + 3;
    var m := q + |major|;
    assert s[p..p + 3] == t[..3];
    assert s[q..m] == t[3..3 + |major|];
    assert s[m] == t[3 + |major|];
    assert s[m + 1..m + 1 + |minor|] == t[3 + |major| + 1..3 + |major| + 1 + |minor|];
    var e := m + 1 + |minor|;
    assert e < |s| ==> s[e] == rest[0];
    VersionAfterExact(s, q, major, sep, minor);
  }

  /** The version is read from the match at the first position where the regex matches. */
  lemma OSVersionOfFirstMatch(s: string, p: nat, m: VersionMatch)
    requires p <= |s|
    requires forall k :: 0 <= k < p ==> VersionAt(s, k).None?
    requires VersionAt(s, p) == Some(m)
    ensures OSVersion(s) == DigitsValue(m.major) as real + (DigitsValue(m.minor) as real) / (Pow10(|m.minor|) as real)
  {
    VersionFromSkips(s, 0, p);
  }

  /** `isCompatible`: Safari on an iOS device whose version is at least 6. */
  predicate IsCompatible(ua: string)
    ensures IsCompatible(ua) ==> DetectOS(ua) == IOS && OSVersion(ua) >= 6.0
  {
    IsMobileSafari(ua) && OSVersion(ua) >= 6.0
  }

  /** Compatibility holds exactly for mobile Safari whose leftmost version match has major number 6 or more. */
  lemma CompatibleIff(ua: string)
    ensures IsCompatible(ua) <==>
      IsMobileSafari(ua) && VersionFrom(ua, 0).Some?
      && DigitsValue(VersionFrom(ua, 0).value.major) >= 6
  {
    OSVersionAtLeast(ua, 6);
    if VersionFrom(ua, 0).Some? {
      VersionFromLeftmost(ua, 0);
      var k :| 0 <= k <= |ua| && VersionAt(ua, k) == VersionFrom(ua, 0)
               && forall j :: 0 <= j < k ==> VersionAt(ua, j).None?;
      VersionAtSound(ua, k, VersionFrom(ua, 0).value);
    }
  }

  /** The environment snapshot that `sniffEnvironment` stores on the instance. */
  datatype Env = Env(
    isRetina: bool,
    isIDevice: bool,
    isMobileChrome: bool,
    isMobileIE: bool,
    isMobileSafari: bool,
    os: string,
    osVersion: real,
    isStandalone: bool,
    isTablet: bool,
    isCompatible: bool)

  /**
   * `sniffEnvironment`. `hasStandalone` is `'standalone' in navigator`,
   * `standalone` the value of `navigator.standalone`.
   */
  function Sniff(ua: string, hasStandalone: bool, standalone: bool, pixelRatio: real): (e: Env)
    ensures e.os == DetectOS(ua) && e.osVersion == OSVersion(ua) && e.isCompatible == IsCompatible(ua)
    ensures e.isCompatible ==> e.os == IOS && e.osVersion >= 6.0
    ensures e.isStandalone <==> hasStandalone && standalone
    ensures e.isRetina <==> pixelRatio > 1.0
    ensures e.isTablet <==>
      || (IsMobileSafari(ua) && exists i :: OccursAt(ua, "iPad", i))
      || (IsMobileChrome(ua) && !exists i :: OccursAt(ua, "Mobile", i))
    ensures e.isTablet ==> e.os == IOS || e.os == ANDROID
  {
    ContainsIff(ua, "iPad");
    ContainsIff(ua, "Mobile");
    var safari := IsMobileSafari(ua);
    var chrome := IsMobileChrome(ua);
    Env(
      isRetina := pixelRatio > 1.0,
      isIDevice := IsIDevice(ua),
      isMobileChrome := chrome,
      isMobileIE := IsMobileIE(ua),
      isMobileSafari := safari,
      os := DetectOS(ua),
      osVersion := OSVersion(ua),
      isStandalone := hasStandalone && standalone,
      isTablet := (safari && Contains(ua, "iPad")) || (chrome && !Contains(ua, "Mobile")),
      isCompatible := IsCompatible(ua))
  }

  /** `navigator.language.toLowerCase().replace('-', '_')`: only the first hyphen is replaced. */
  function Language(navLanguage: string): (r: string)
    ensures |r| == |navLanguage|
    ensures forall i :: 0 <= i < |r| ==>
      r[i] == if i == IndexOf(navLanguage, '-') then '_' else LowerChar(navLanguage[i])
  {
    IndexOfLower(navLanguage, '-');
    ReplaceFirst(Lower(navLanguage), '-', '_')
  }
}
