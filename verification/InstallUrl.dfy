/** The second, independent way to a download location, used by the installer (cluster/install.go:54-96),
    with the regular expression of helper.Tuple matched as Go does (helper/helper.go:319-329). */
module InstallUrl {
  import opened Basics
  import opened Naming

  // ---------- helper.Tuple ----------

  predicate IsSpace(c: char) { c == ' ' || c == '\t' || c == '\n' || c == '\r' || c == '\U{000C}' }

  function SkipSpaces(s: string): string {
    if s != "" && IsSpace(s[0]) then SkipSpaces(s[1..]) else s
  }

  /** How many digits a text begins with. */
  function DigitRun(s: string): (n: nat)
    ensures n <= |s|
  {
    if s != "" && IsDigit(s[0]) then 1 + DigitRun(s[1..]) else 0
  }

  /** How far the class [0-9,^-] reaches. */
  function TailRun(s: string): (n: nat)
    ensures n <= |s|
  {
    if s != "" && (IsDigit(s[0]) || s[0] == ',' || s[0] == '^' || s[0] == '-') then 1 + TailRun(s[1..]) else 0
  }

  /** The unescaped dot of the pattern takes any character but a newline. */
  predicate AnyAt(s: string, k: nat) { k < |s| && s[k] != '\n' }

  function Third(s: string): Option<string> {
    if AnyAt(s, 0) && TailRun(s[1..]) > 0 then Some(s[1..][..TailRun(s[1..])]) else None
  }

  /** The second group at its longest that lets the rest match. */
  function Second(s: string, k: nat): Option<(string, string)>
    requires k <= |s|
  {
    if k == 0 then None
    else
      match Third(s[k..])
      case Some(c) => Some((s[..k], c))
      case None => Second(s, k - 1)
  }

  /** The first group at its longest that lets the rest match. */
  function First(s: string, k: nat): Option<(string, string, string)>
    requires k <= |s|
  {
    if k == 0 then None
    else
      match if AnyAt(s, k) then Second(s[k + 1..], DigitRun(s[k + 1..])) else None
      case Some((b, c)) => Some((s[..k], b, c))
      case None => First(s, k - 1)
  }

  /** The leftmost match. */
  function Find(s: string): Option<(string, string, string)> {
    var t := SkipSpaces(s);
    match First(t, DigitRun(t))
    case Some(groups) => Some(groups)
    case None => if s == "" then None else Find(s[1..])
  }

  /** Atoi with its error dropped. */
  function AtoiOr(s: string): int {
    match Atoi(s) case Number(n) => n case Bad(fallback) => fallback
  }

  /** Without a match the groups are indexed all the same. */
  function Tuple(version: string): Attempt<(int, int, int), string> {
    match Find(version)
    case Some((a, b, c)) => Done((AtoiOr(a), AtoiOr(b), AtoiOr(c)))
    case None => Panics
  }

  // ---------- buildUrl ----------

  datatype OsInfo = OsInfo(arch: string, platform: string, packageType: string)

  /** Every major but 4, 5 and 6 leaves the flavour empty. */
  function FlavorOf(major: int, minor: int): string {
    if major == 4 then (if minor < 5 then "sherlock" else "watson")
    else if major == 5 then (if minor < 5 then "spock" else "vulcan")
    else if major == 6 then (if minor < 5 then "alice" else "mad-hatter")
    else ""
  }

  /** buildUrl.  For a version of three numbers that the daemon recognises it is the daemon's location and
      package name put together, unless a build of version 7 is asked for; and it panics exactly for builds of
      versions without a window. */
  method BuildUrl(version: string, build: string, isEnterprise: bool, os: OsInfo) returns (r: Attempt<string, string>)
    ensures r == BuildUrlSpec(version, build, isEnterprise, os)
    ensures r == Panics <==> build != "" && forall p: nat :: !Window(version, p)
    ensures os == CENTOS ==> AgreesWithDaemon(version, build, isEnterprise, r)
  {
    hide Window, AgreesWithDaemon;
    InstallerPanics(version, build, isEnterprise, os);
    InstallerAgrees(version, build, isEnterprise);
    var urlStr, flavor := "", "";
    var buildType := "enterprise";
    if !isEnterprise {
      buildType := "community";
    }
    if |build| == 0 {
      urlStr := RELEASE_URL + version + "/couchbase-server-" + buildType + "-" + version + "-";
    } else {
      var tuple := Tuple(version);
      if !tuple.Done? {
        return Panics;
      }
      var (major, minor, _) := tuple.value;
      if major == 4 {
        flavor := if minor < 5 then "sherlock" else "watson";
      } else if major == 5 {
        flavor := if minor < 5 then "spock" else "vulcan";
      } else if major == 6 {
        flavor := if minor < 5 then "alice" else "mad-hatter";
      }
      urlStr := BUILD_URL + flavor + "/" + build + "/couchbase-server-" + buildType + "-" + version + "-" + build + "-";
    }
    Shift(urlStr, os.platform + "." + os.arch + ".", os.packageType);
    Shift(urlStr, os.platform + "." + os.arch, ".");
    Shift(urlStr, os.platform + ".", os.arch);
    Shift(urlStr, os.platform, ".");
    urlStr := urlStr + os.platform + "." + os.arch + "." + os.packageType;
    return Done(urlStr);
  }

  ghost predicate AgreesWithDaemon(version: string, build: string, isEnterprise: bool, r: Attempt<string, string>) {
    var parsed := ParseServerVersion(FullVersion(version, build), !isEnterprise);
    parsed.Done? && '-' !in build ==>
      forall a, b, c :: ThreeParts(version, a, b, c) ==>
        (r == Done(ToURL(parsed.value) + "/" + ToPkgName(parsed.value)) <==> build == "" || Value(a) != 7)
  }

  /** What buildUrl returns. */
  function BuildUrlSpec(version: string, build: string, isEnterprise: bool, os: OsInfo): Attempt<string, string> {
    var buildType := EditionName(if isEnterprise then Enterprise else Community);
    var tail := os.platform + "." + os.arch + "." + os.packageType;
    if build == "" then
      Done(RELEASE_URL + version + "/couchbase-server-" + buildType + "-" + version + "-" + tail)
    else
      match Tuple(version)
      case Done((major, minor, _)) =>
        Done(BUILD_URL + FlavorOf(major, minor) + "/" + build + "/couchbase-server-" + buildType + "-" + version
             + "-" + build + "-" + tail)
      case Fails(e) => Fails(e)
      case Panics => Panics
  }

  const CENTOS := OsInfo("x86_64", "centos7", "rpm")

  // ---------- Agreement ----------

  ghost predicate ThreeParts(version: string, a: string, b: string, c: string) {
    Digits(a) && Digits(b) && Digits(c) && version == a + "." + b + "." + c
  }

  lemma {:induction false} RunOfDigits(a: string, rest: string)
    requires forall c <- a :: IsDigit(c)
    requires rest == "" || !IsDigit(rest[0])
    ensures DigitRun(a + rest) == |a|
  {
    if a != "" {
      assert (a + rest)[1..] == a[1..] + rest;
      RunOfDigits(a[1..], rest);
    } else {
      assert a + rest == rest;
    }
  }

  lemma {:induction false} TailOfDigits(c: string)
    requires forall x <- c :: IsDigit(x)
    ensures TailRun(c) == |c|
  {
    if c != "" {
      TailOfDigits(c[1..]);
    }
  }

  lemma LastTwoParts(b: string, c: string)
    requires Digits(b) && Digits(c)
    ensures DigitRun(b + "." + c) == |b| && Second(b + "." + c, |b|) == Some((b, c))
  {
    var afterB := "." + c;
    assert b + "." + c == b + afterB;
    RunOfDigits(b, afterB);
    TailOfDigits(c);
    assert afterB[1..] == c && c[..|c|] == c;
    assert Third(afterB) == Some(c);
    assert (b + afterB)[|b|..] == afterB && (b + afterB)[..|b|] == b;
  }

  /** On a version of three numbers the loose pattern takes it apart at the dots. */
  lemma TupleOfThreeParts(version: string, a: string, b: string, c: string)
    requires ThreeParts(version, a, b, c)
    ensures Find(version) == Some((a, b, c))
  {
    hide Second, AtoiOr;
    var rest := b + "." + c;
    LastTwoParts(b, c);
    assert version == a + ("." + rest);
    RunOfDigits(a, "." + rest);
    assert a[0] in a && version[0] == a[0];
    assert SkipSpaces(version) == version;
    assert version[|a| + 1..] == rest && version[..|a|] == a && AnyAt(version, |a|);
    assert First(version, |a|) == Some((a, b, c));
  }

  lemma SplitThreeParts(version: string, a: string, b: string, c: string)
    requires ThreeParts(version, a, b, c)
    ensures Split(version, '.') == [a, b, c] && '-' !in version
  {
    forall x <- [a, b, c] ensures '.' !in x && '-' !in x {}
    assert version == a + ['.'] + (b + ['.'] + c);
    SplitOff(a, '.', b + ['.'] + c);
    SplitOff(b, '.', c);
    SplitWhole(c, '.');
  }

  lemma Shift(x: string, y: string, z: string)
    ensures x + (y + z) == x + y + z
  {}

  /** A package name below a location, written in one go. */
  lemma PackageBelow(url: string, edition: string, full: string)
    ensures url + "/" + ("couchbase-server-" + edition + "-" + full + "-centos7.x86_64.rpm")
            == url + "/couchbase-server-" + edition + "-" + full + "-" + "centos7.x86_64.rpm"
  {
    var pkg := "couchbase-server-";
    Shift(url + "/", pkg + edition + "-" + full, "-centos7.x86_64.rpm");
    Shift(url + "/", pkg + edition + "-", full);
    Shift(url + "/", pkg + edition, "-");
    Shift(url + "/", pkg, edition);
    Shift(url, "/", pkg);
    assert "/" + pkg == "/couchbase-server-";
    Shift(url + "/couchbase-server-" + edition + "-" + full, "-", "centos7.x86_64.rpm");
    assert "-" + "centos7.x86_64.rpm" == "-centos7.x86_64.rpm";
  }

  /** What the daemon puts together. */
  lemma DaemonUrl(nv: NodeVersion)
    ensures ToURL(nv) + "/" + ToPkgName(nv)
            == ToURL(nv) + "/couchbase-server-" + EditionName(nv.edition) + "-" + FullVersion(nv.version, nv.build)
               + "-" + "centos7.x86_64.rpm"
  {
    var head := "couchbase-server-" + EditionName(nv.edition) + "-";
    hide EditionName;
    if nv.build != "" {
      Shift(head, nv.version + "-", nv.build);
      Shift(head, nv.version, "-");
    }
    assert ToPkgName(nv) == head + FullVersion(nv.version, nv.build) + "-centos7.x86_64.rpm";
    PackageBelow(ToURL(nv), EditionName(nv.edition), FullVersion(nv.version, nv.build));
  }

  /** What the installer puts together. */
  lemma InstallerUrl(version: string, build: string, isEnterprise: bool)
    requires build == "" || Tuple(version).Done?
    ensures var edition := EditionName(if isEnterprise then Enterprise else Community);
            var place := if build == "" then RELEASE_URL + version
                         else BUILD_URL + FlavorOf(Tuple(version).value.0, Tuple(version).value.1) + "/" + build;
            BuildUrlSpec(version, build, isEnterprise, CENTOS)
            == Done(place + "/couchbase-server-" + edition + "-" + FullVersion(version, build) + "-"
                    + "centos7.x86_64.rpm")
  {
    hide Tuple, FlavorOf, EditionName;
    assert "centos7" + "." + "x86_64" + "." + "rpm" == "centos7.x86_64.rpm";
    if build != "" {
      var edition := EditionName(if isEnterprise then Enterprise else Community);
      var place := BUILD_URL + FlavorOf(Tuple(version).value.0, Tuple(version).value.1) + "/" + build;
      var head := place + "/couchbase-server-" + edition + "-";
      Shift(head, version + "-", build);
      Shift(head, version, "-");
    }
  }

  lemma ValuesOfParts(a: string)
    requires Digits(a) && Value(a) <= MAX_INT
    ensures AtoiOr(a) == Value(a)
  {
    AtoiOfDigits(a);
  }

  /** Both tables name the same flavour for every version of three numbers with major 4, 5 or 6, and the daemon's
      has one for version 7 below 7.5, where the installer's has none. */
  lemma FlavorsAgree(version: string, a: string, b: string, c: string)
    requires ThreeParts(version, a, b, c) && Value(b) <= MAX_INT
    ensures Value(a) in {4, 5, 6} ==> FlavorFromVersion(version) == Done(FlavorOf(Value(a), Value(b)))
    ensures Value(a) == 7 && Value(b) < 5 ==> FlavorFromVersion(version) == Done("cheshire-cat")
    ensures Value(a) == 7 ==> FlavorOf(Value(a), Value(b)) == ""
  {
    SplitThreeParts(version, a, b, c);
    AtoiOfDigits(a);
    AtoiOfDigits(b);
    hide Split, Atoi, Value;
  }

  /** The daemon's location and package name, put together, are the installer's URL for every version of
      three numbers that there is a flavour for, every build without dashes and both editions, with one exception:
      builds of version 7, for which the installer knows no flavour. */
  lemma UrlBuildersAgree(version: string, a: string, b: string, c: string, build: string, useCE: bool)
    requires ThreeParts(version, a, b, c) && '-' !in build && Supported(Value(a), Value(b)) && Value(b) <= MAX_INT
    ensures ParseServerVersion(FullVersion(version, build), useCE).Done?
    ensures var nv := ParseServerVersion(FullVersion(version, build), useCE).value;
            BuildUrlSpec(version, build, !useCE, CENTOS) == Done(ToURL(nv) + "/" + ToPkgName(nv))
            <==> build == "" || Value(a) != 7
  {
    SplitThreeParts(version, a, b, c);
    ParsesFullVersion(version, build, useCE);
    TupleOfThreeParts(version, a, b, c);
    ValuesOfParts(a);
    ValuesOfParts(b);
    FlavorsAgree(version, a, b, c);
    var nv := ParseServerVersion(FullVersion(version, build), useCE).value;
    hide ParseServerVersion, FlavorFromVersion, ThreeParts, BuildUrlSpec, ToPkgName, Find, AtoiOr, FlavorOf, Value;
    DaemonUrl(nv);
    InstallerUrl(version, build, !useCE);
    if build != "" && Value(a) == 7 {
      hide EditionName, FullVersion;
      TailsApart(build, EditionName(nv.edition), FullVersion(version, build));
    }
  }

  lemma ParsedIsSupported(version: string, a: string, b: string, c: string, build: string, useCE: bool)
    requires ThreeParts(version, a, b, c) && '-' !in build
    requires ParseServerVersion(FullVersion(version, build), useCE).Done?
    ensures Supported(Value(a), Value(b)) && Value(b) <= MAX_INT
  {
    hide Value, FlavorFromVersion, ParseServerVersion, FullVersion, Split;
    SplitThreeParts(version, a, b, c);
    ParsesFullVersion(version, build, useCE);
    RecognisedVersion(a, b, "." + c);
    assert version == a + "." + b + ("." + c);
  }

  lemma InstallerAgrees(version: string, build: string, isEnterprise: bool)
    ensures AgreesWithDaemon(version, build, isEnterprise, BuildUrlSpec(version, build, isEnterprise, CENTOS))
  {
    hide BuildUrlSpec, FullVersion, ToURL, ToPkgName, Value, ParseServerVersion;
    var parsed := ParseServerVersion(FullVersion(version, build), !isEnterprise);
    if parsed.Done? && '-' !in build {
      forall a, b, c | ThreeParts(version, a, b, c)
        ensures (BuildUrlSpec(version, build, isEnterprise, CENTOS)
                 == Done(ToURL(parsed.value) + "/" + ToPkgName(parsed.value)))
                <==> build == "" || Value(a) != 7
      {
        ParsedIsSupported(version, a, b, c, build, !isEnterprise);
        UrlBuildersAgree(version, a, b, c, build, !isEnterprise);
      }
    }
  }

  /** With no flavour the installer's URL goes on with a slash where the daemon's has a name. */
  lemma TailsApart(build: string, edition: string, full: string)
    ensures var rpm := "centos7.x86_64.rpm";
            BUILD_URL + "cheshire-cat" + "/" + build + "/couchbase-server-" + edition + "-" + full + "-" + rpm
            != BUILD_URL + "" + "/" + build + "/couchbase-server-" + edition + "-" + full + "-" + rpm
  {
    var rpm := "centos7.x86_64.rpm";
    assert |BUILD_URL + "cheshire-cat" + "/" + build + "/couchbase-server-" + edition + "-" + full + "-" + rpm|
        == |BUILD_URL + "" + "/" + build + "/couchbase-server-" + edition + "-" + full + "-" + rpm| + 12;
  }

  // ---------- Where the installer panics ----------

  predicate TailChar(c: char) { IsDigit(c) || c == ',' || c == '^' || c == '-' }

  /** Three groups of the least length begin here: a digit, any character, one digit or two, any character,
      and a character of the third group. */
  predicate Window(s: string, p: nat) {
    && p < |s| && IsDigit(s[p]) && AnyAt(s, p + 1)
    && (ShortEnd(s, p + 2) || (p + 2 < |s| && IsDigit(s[p + 2]) && ShortEnd(s, p + 3)))
  }

  predicate ShortEnd(s: string, p: nat) {
    p < |s| && IsDigit(s[p]) && AnyAt(s, p + 1) && p + 2 < |s| && TailChar(s[p + 2])
  }

  lemma {:induction false} DigitRunIs(s: string, k: nat)
    ensures k <= DigitRun(s) <==> k <= |s| && forall i :: 0 <= i < k ==> IsDigit(s[i])
  {
    if k > 0 && s != "" && IsDigit(s[0]) {
      DigitRunIs(s[1..], k - 1);
      assert forall i :: 0 < i < |s| ==> s[i] == s[1..][i - 1];
    }
  }

  lemma ThirdIff(s: string)
    ensures Third(s).Some? <==> AnyAt(s, 0) && |s| > 1 && TailChar(s[1])
  {
    if |s| > 1 {
      assert s[1..][0] == s[1];
    }
  }

  lemma {:induction false} SecondIff(s: string, k: nat)
    requires k <= |s|
    ensures Second(s, k).Some? <==> exists j: nat :: 0 < j <= k && Third(s[j..]).Some?
  {
    hide Third;
    if k > 0 {
      SecondIff(s, k - 1);
    }
  }

  ghost predicate RestAt(s: string, m: nat)
    requires m <= |s|
  {
    AnyAt(s, m) && Second(s[m + 1..], DigitRun(s[m + 1..])).Some?
  }

  lemma {:induction false} FirstIff(s: string, k: nat)
    requires k <= |s|
    ensures First(s, k).Some? <==> exists m: nat :: 0 < m <= k && RestAt(s, m)
  {
    hide DigitRun;
    if k > 0 {
      FirstIff(s, k - 1);
      assert First(s, k).Some? <==> RestAt(s, k) || First(s, k - 1).Some?;
    }
  }

  /** A second group and the rest begin here exactly if they do with one digit or two in the group. */
  lemma SecondWindow(t: string)
    ensures Second(t, DigitRun(t)).Some? <==> ShortEnd(t, 0) || (|t| > 0 && IsDigit(t[0]) && ShortEnd(t, 1))
  {
    var k := DigitRun(t);
    SecondIff(t, k);
    DigitRunIs(t, 1);
    DigitRunIs(t, 2);
    DigitRunIs(t, 3);
    forall j: nat | 0 < j <= |t| ensures Third(t[j..]).Some? <==> AnyAt(t, j) && j + 1 < |t| && TailChar(t[j + 1]) {
      ThirdIff(t[j..]);
    }
    hide DigitRun, Second, Third;
    if ShortEnd(t, 0) {
      assert Third(t[1..]).Some?;
    } else if |t| > 0 && IsDigit(t[0]) && ShortEnd(t, 1) {
      assert Third(t[2..]).Some?;
    }
    forall j: nat | 0 < j <= k && Third(t[j..]).Some?
      ensures ShortEnd(t, 0) || (|t| > 0 && IsDigit(t[0]) && ShortEnd(t, 1))
    {
      DigitRunIs(t, j);
      if j > 2 {
        assert IsDigit(t[0]) && IsDigit(t[1]) && IsDigit(t[2]);
      }
    }
  }

  lemma RestWindow(s: string, p: nat)
    requires p < |s| && IsDigit(s[p])
    ensures RestAt(s, p + 1) <==> Window(s, p)
  {
    if AnyAt(s, p + 1) {
      var t := s[p + 2..];
      SecondWindow(t);
      hide Second, DigitRun;
      assert forall i :: 0 <= i < |t| ==> t[i] == s[p + 2 + i];
      assert ShortEnd(t, 0) <==> ShortEnd(s, p + 2);
      assert ShortEnd(t, 1) <==> ShortEnd(s, p + 3);
    }
  }

  lemma {:induction false} SkipSpacesDrops(s: string) returns (n: nat)
    ensures n <= |s| && SkipSpaces(s) == s[n..]
  {
    if s != "" && IsSpace(s[0]) {
      n := SkipSpacesDrops(s[1..]);
      n := n + 1;
    } else {
      n := 0;
    }
  }

  lemma WindowShift(s: string, n: nat, p: nat)
    requires n <= |s|
    ensures Window(s[n..], p) <==> Window(s, n + p)
  {}

  lemma FrontWindow(s: string)
    requires Window(s, 0)
    ensures SkipSpaces(s) == s && First(s, DigitRun(s)).Some?
  {
    hide First, DigitRun, Window, RestAt;
    FrontDigit(s);
    RestWindow(s, 0);
    DigitRunIs(s, 1);
    FirstIff(s, DigitRun(s));
  }

  lemma FrontDigit(s: string)
    requires Window(s, 0)
    ensures s != "" && IsDigit(s[0]) && !IsSpace(s[0]) && SkipSpaces(s) == s
  {}

  lemma FirstHasWindow(s: string, n: nat)
    requires n <= |s| && First(s[n..], DigitRun(s[n..])).Some?
    ensures exists p: nat :: Window(s, p)
  {
    var t := s[n..];
    FirstIff(t, DigitRun(t));
    var m: nat :| 0 < m <= DigitRun(t) && RestAt(t, m);
    DigitRunIs(t, m);
    RestWindow(t, m - 1);
    WindowShift(s, n, m - 1);
  }

  /** The pattern matches somewhere in a text exactly if there is such a window in it. */
  lemma {:induction false} FindIff(s: string)
    ensures Find(s).Some? <==> exists p: nat :: Window(s, p)
  {
    hide First, DigitRun, Window, RestAt;
    var n := SkipSpacesDrops(s);
    if First(s[n..], DigitRun(s[n..])).Some? {
      FirstHasWindow(s, n);
    } else if p: nat :| Window(s, p) {
      if p == 0 {
        FrontWindow(s);
        assert false;
      } else {
        InText(s, p);
        WindowShift(s, 1, p - 1);
        FindIff(s[1..]);
      }
    } else if s != "" {
      FindIff(s[1..]);
      forall q: nat ensures !Window(s[1..], q) {
        WindowShift(s, 1, q);
      }
    }
  }

  lemma InText(s: string, p: nat)
    requires Window(s, p)
    ensures p < |s|
  {}

  /** The installer indexes groups that are not there exactly if there is a build and no window in the version. */
  lemma InstallerPanics(version: string, build: string, isEnterprise: bool, os: OsInfo)
    ensures BuildUrlSpec(version, build, isEnterprise, os) == Panics
            <==> build != "" && forall p: nat :: !Window(version, p)
  {
    FindIff(version);
    hide Find, Window;
  }

  lemma TwoNumbersWindow(a: string, b: string)
    requires Digits(a) && Digits(b)
    ensures (exists p: nat :: Window(a + "." + b, p)) <==> |a| >= 3 || |b| >= 3
  {
    var s := a + "." + b;
    forall i | 0 <= i < |s| ensures IsDigit(s[i]) <==> i != |a| {
      assert i < |a| ==> s[i] == a[i] && a[i] in a;
      assert i > |a| ==> s[i] == b[i - |a| - 1] && b[i - |a| - 1] in b;
    }
    assert s[|a|] == '.';
    if |a| >= 3 {
      assert Window(s, |a| - 3);
    } else if |b| >= 3 {
      assert Window(s, |a| - 1);
    }
  }

  /** So with a build it panics on two numbers exactly if both are short, such as 6.5 but not 6.550. */
  lemma ShortVersionPanics(a: string, b: string, build: string, isEnterprise: bool, os: OsInfo)
    requires Digits(a) && Digits(b) && build != ""
    ensures BuildUrlSpec(a + "." + b, build, isEnterprise, os) == Panics <==> |a| < 3 && |b| < 3
  {
    InstallerPanics(a + "." + b, build, isEnterprise, os);
    TwoNumbersWindow(a, b);
  }

  /** And on one number exactly if that has fewer than five digits. */
  lemma OneNumberPanics(v: string, build: string, isEnterprise: bool, os: OsInfo)
    requires Digits(v) && build != ""
    ensures BuildUrlSpec(v, build, isEnterprise, os) == Panics <==> |v| < 5
  {
    InstallerPanics(v, build, isEnterprise, os);
    hide BuildUrlSpec;
    if |v| >= 5 {
      assert forall i :: 0 <= i < |v| ==> v[i] in v;
      assert Window(v, 0);
    }
  }
}
