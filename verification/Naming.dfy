/** Server versions, the image name under which a built image is cached, and the download location
    (daemon/nodes.go:35-121). */
module Naming {
  import opened Basics
  import Rfc3339

  // ---------- Text ----------

  /** strings.Split for a one-character separator. */
  function Split(s: string, sep: char): (parts: seq<string>)
    ensures |parts| > 0
  {
    if s == "" then [""]
    else
      var rest := Split(s[1..], sep);
      if s[0] == sep then [""] + rest else [[s[0]] + rest[0]] + rest[1..]
  }

  predicate Digits(s: string) { s != "" && forall c <- s :: IsDigit(c) }

  function Value(s: string): nat
    requires forall c <- s :: IsDigit(c)
  {
    if s == "" then 0 else 10 * Value(s[..|s| - 1]) + DigitValue(s[|s| - 1])
  }

  const MAX_INT := 0x7fff_ffff_ffff_ffff

  /** strconv.Atoi for a 64-bit int; `fallback` is the value that comes with an error. */
  datatype Number = Number(value: int) | Bad(fallback: int)

  function Atoi(s: string): Number {
    var negative := s != "" && s[0] == '-';
    var body := if s != "" && (s[0] == '-' || s[0] == '+') then s[1..] else s;
    if !Digits(body) then Bad(0)
    else if negative then (if Value(body) <= MAX_INT + 1 then Number(0 - Value(body)) else Bad(-MAX_INT - 1))
    else if Value(body) <= MAX_INT then Number(Value(body))
    else Bad(MAX_INT)
  }

  // ---------- Versions ----------

  datatype Edition = Enterprise | Community

  function EditionName(e: Edition): string {
    match e case Enterprise => "enterprise" case Community => "community"
  }

  datatype NodeVersion = NodeVersion(version: string, flavor: string, build: string, edition: Edition)

  function VersionToFlavor(major: int, minor: int): Option<string> {
    if major == 4 && minor == 0 then Some("sherlock")
    else if major == 4 && minor == 5 then Some("watson")
    else if major == 5 && minor == 0 then Some("spock")
    else if major == 5 && minor == 5 then Some("vulcan")
    else if major == 6 && minor == 0 then Some("alice")
    else if major == 6 && minor == 5 then Some("mad-hatter")
    else if major == 7 && minor == 0 then Some("cheshire-cat")
    else None
  }

  function FlavorFromVersion(version: string): Attempt<string, string> {
    var parts := Split(version, '.');
    var major := Atoi(parts[0]);
    if major.Bad? then Fails("Could not convert version major to int")
    else if |parts| < 2 then Panics
    else
      var minor := Atoi(parts[1]);
      if minor.Bad? then Fails("Could not convert version minor to int")
      else
        match VersionToFlavor(major.value, if minor.value >= 5 then 5 else 0)
        case Some(flavor) => Done(flavor)
        case None => Fails("not a recognised flavor")
  }

  function ParseServerVersion(version: string, useCE: bool): Attempt<NodeVersion, string> {
    var parts := Split(version, '-');
    match FlavorFromVersion(parts[0])
    case Done(flavor) =>
      Done(NodeVersion(parts[0], flavor, if |parts| > 1 then parts[1] else "", if useCE then Community else Enterprise))
    case Fails(e) => Fails(e)
    case Panics => Panics
  }

  // ---------- Names ----------

  const RELEASE_URL := "http://latestbuilds.service.couchbase.com/builds/releases/"
  const BUILD_URL := "http://latestbuilds.service.couchbase.com/builds/latestbuilds/couchbase-server/"

  /** The version with its build number, if there is one. */
  function FullVersion(version: string, build: string): string {
    if build == "" then version else version + "-" + build
  }

  function ToTagName(nv: NodeVersion): string {
    if nv.build == "" then nv.version + ".centos7" else nv.version + "-" + nv.build + ".centos7"
  }

  function ToImageName(registry: string, nv: NodeVersion): string {
    registry + "/dynclsr-couchbase_" + EditionName(nv.edition) + "_" + ToTagName(nv)
  }

  function ToPkgName(nv: NodeVersion): string {
    if nv.build == "" then "couchbase-server-" + EditionName(nv.edition) + "-" + nv.version + "-centos7.x86_64.rpm"
    else "couchbase-server-" + EditionName(nv.edition) + "-" + nv.version + "-" + nv.build + "-centos7.x86_64.rpm"
  }

  function ToURL(nv: NodeVersion): string {
    if nv.build == "" then RELEASE_URL + nv.version else BUILD_URL + nv.flavor + "/" + nv.build
  }

  // ---------- The image name as a cache key ----------

  lemma {:induction false} SplitParts(s: string, sep: char)
    ensures forall p <- Split(s, sep) :: sep !in p
  {
    if s != "" {
      SplitParts(s[1..], sep);
      var rest := Split(s[1..], sep);
      assert rest[0] in rest;
    }
  }

  /** Joining a version without dashes and a build loses nothing. */
  lemma FullVersionInjective(v: string, b: string, w: string, c: string)
    requires '-' !in v && '-' !in w && FullVersion(v, b) == FullVersion(w, c)
    ensures v == w && b == c
  {
    var x, y := FullVersion(v, b), FullVersion(w, c);
    if b != "" {
      assert x[|v|] == '-' && x[..|v|] == v && x[|v| + 1..] == b;
    }
    if c != "" {
      assert y[|w|] == '-' && y[..|w|] == w && y[|w| + 1..] == c;
    }
  }

  lemma SuffixCancels(a: string, b: string, suffix: string)
    requires a + suffix == b + suffix
    ensures a == b
  {
    assert |a| == |b|;
    assert (a + suffix)[..|a|] == a && (b + suffix)[..|b|] == b;
  }

  lemma PrefixCancels(prefix: string, a: string, b: string)
    requires prefix + a == prefix + b
    ensures a == b
  {
    assert (prefix + a)[|prefix|..] == a && (prefix + b)[|prefix|..] == b;
  }

  lemma TagIsFullVersion(nv: NodeVersion)
    ensures ToTagName(nv) == FullVersion(nv.version, nv.build) + ".centos7"
  {}

  lemma EditionsDiffer(e: Edition, f: Edition, x: string, y: string)
    requires EditionName(e) + x == EditionName(f) + y
    ensures e == f && x == y
  {
    assert (EditionName(e) + x)[0] == EditionName(e)[0] && (EditionName(f) + y)[0] == EditionName(f)[0];
    PrefixCancels(EditionName(e), x, y);
  }

  lemma ImageNameInjective(registry: string, m: NodeVersion, n: NodeVersion)
    requires '-' !in m.version && '-' !in n.version && ToImageName(registry, m) == ToImageName(registry, n)
    ensures m.edition == n.edition && m.version == n.version && m.build == n.build
  {
    var prefix := registry + "/dynclsr-couchbase_";
    var x, y := "_" + ToTagName(m), "_" + ToTagName(n);
    TagIsFullVersion(m);
    TagIsFullVersion(n);
    hide ToTagName, EditionName, FullVersion;
    assert ToImageName(registry, m) == prefix + (EditionName(m.edition) + x);
    assert ToImageName(registry, n) == prefix + (EditionName(n.edition) + y);
    PrefixCancels(prefix, EditionName(m.edition) + x, EditionName(n.edition) + y);
    EditionsDiffer(m.edition, n.edition, x, y);
    PrefixCancels("_", ToTagName(m), ToTagName(n));
    SuffixCancels(FullVersion(m.version, m.build), FullVersion(n.version, n.build), ".centos7");
    FullVersionInjective(m.version, m.build, n.version, n.build);
  }

  /** Two requests that are parsed to versions with the same image name ask for the very same thing:
      edition, version, build and flavour; so an image found under the name holds the package that the
      request would download. */
  lemma ImageNameIsCacheKey(registry: string, text1: string, ce1: bool, text2: string, ce2: bool)
    requires ParseServerVersion(text1, ce1).Done? && ParseServerVersion(text2, ce2).Done?
    requires ToImageName(registry, ParseServerVersion(text1, ce1).value)
             == ToImageName(registry, ParseServerVersion(text2, ce2).value)
    ensures ParseServerVersion(text1, ce1) == ParseServerVersion(text2, ce2)
    ensures var m, n := ParseServerVersion(text1, ce1).value, ParseServerVersion(text2, ce2).value;
            ToURL(m) == ToURL(n) && ToPkgName(m) == ToPkgName(n)
  {
    var m, n := ParseServerVersion(text1, ce1).value, ParseServerVersion(text2, ce2).value;
    SplitParts(text1, '-');
    SplitParts(text2, '-');
    assert Split(text1, '-')[0] in Split(text1, '-') && Split(text2, '-')[0] in Split(text2, '-');
    hide Split, FlavorFromVersion, ToImageName;
    ImageNameInjective(registry, m, n);
  }

  // ---------- Parsing back ----------

  lemma {:induction false} SplitOff(a: string, sep: char, rest: string)
    requires sep !in a
    ensures Split(a + [sep] + rest, sep) == [a] + Split(rest, sep)
  {
    var s := a + [sep] + rest;
    if a == "" {
      assert s[1..] == rest;
    } else {
      SplitOff(a[1..], sep, rest);
      assert s[1..] == a[1..] + [sep] + rest;
      assert [a[0]] + a[1..] == a;
    }
  }

  lemma {:induction false} SplitWhole(a: string, sep: char)
    requires sep !in a
    ensures Split(a, sep) == [a]
  {
    if a != "" {
      SplitWhole(a[1..], sep);
      assert [a[0]] + a[1..] == a;
    }
  }

  /** A version and a build written with a dash between them come back as they were. */
  lemma ParsesFullVersion(version: string, build: string, useCE: bool)
    requires '-' !in version && '-' !in build
    ensures var edition := if useCE then Community else Enterprise;
            ParseServerVersion(FullVersion(version, build), useCE) ==
            match FlavorFromVersion(version)
            case Done(flavor) => Done(NodeVersion(version, flavor, build, edition))
            case Fails(e) => Fails(e)
            case Panics => Panics
  {
    if build == "" {
      SplitWhole(version, '-');
    } else {
      SplitOff(version, '-', build);
      SplitWhole(build, '-');
      assert version + ['-'] + build == FullVersion(version, build);
    }
  }

  lemma {:induction false} SplitsAtSeparator(s: string, sep: char)
    ensures |Split(s, sep)| >= 2 <==> sep in s
    ensures sep !in s ==> Split(s, sep) == [s]
  {
    if s != "" {
      SplitsAtSeparator(s[1..], sep);
      assert s == [s[0]] + s[1..];
    }
  }

  /** The minor version is indexed out of range exactly for the texts whose part before the first dash is a
      number, with or without a sign, and has no dot, such as 7, +7 and 7-1234. */
  lemma NoDotPanics(text: string, useCE: bool)
    ensures ParseServerVersion(text, useCE) == Panics
            <==> Atoi(Split(text, '-')[0]).Number? && '.' !in Split(text, '-')[0]
  {
    var version := Split(text, '-')[0];
    SplitsAtSeparator(version, '.');
    hide Split, Atoi;
    if '.' in version {
      assert FlavorFromVersion(version) != Panics;
    }
  }

  // ---------- What is recognised ----------

  /** A number is the value of its decimal text, and Atoi reads it, with a sign or without. */
  lemma {:induction false} ValueOfDecimal(n: nat)
    ensures Digits(Rfc3339.Decimal(n)) && Value(Rfc3339.Decimal(n)) == n
  {
    var text := Rfc3339.Decimal(n);
    if n < 10 {
      assert text[..0] == "" && DigitValue(DIGITS[n]) == n;
    } else {
      ValueOfDecimal(n / 10);
      assert text[..|text| - 1] == Rfc3339.Decimal(n / 10);
      assert DigitValue(DIGITS[n % 10]) == n % 10;
    }
  }

  lemma AtoiOfDecimal(n: nat)
    requires n <= MAX_INT
    ensures Atoi(Rfc3339.Decimal(n)) == Number(n) && Atoi("+" + Rfc3339.Decimal(n)) == Number(n)
    ensures Atoi("-" + Rfc3339.Decimal(n)) == Number(0 - n)
  {
    ValueOfDecimal(n);
    var text := Rfc3339.Decimal(n);
    hide Rfc3339.Decimal, Value;
    assert text[0] in text;
    assert ("+" + text)[1..] == text && ("-" + text)[1..] == text;
  }

  /** The versions there is a flavour for. */
  predicate Supported(major: int, minor: int) { major in {4, 5, 6} || (major == 7 && minor < 5) }

  lemma AtoiOfDigits(s: string)
    requires Digits(s)
    ensures Atoi(s) == if Value(s) <= MAX_INT then Number(Value(s)) else Bad(MAX_INT)
  {
    assert s[0] in s;
    hide Value;
  }

  lemma FirstTwoParts(a: string, b: string, rest: string)
    requires Digits(a) && Digits(b) && (rest == "" || rest[0] == '.')
    ensures |Split(a + "." + b + rest, '.')| >= 2
    ensures Split(a + "." + b + rest, '.')[0] == a && Split(a + "." + b + rest, '.')[1] == b
  {
    assert '.' !in a && '.' !in b;
    assert a + "." + b + rest == a + ['.'] + (b + rest);
    SplitOff(a, '.', b + rest);
    if rest == "" {
      assert b + rest == b;
      SplitWhole(b, '.');
    } else {
      assert b + rest == b + ['.'] + rest[1..];
      SplitOff(b, '.', rest[1..]);
    }
  }

  lemma RecognisedVersion(a: string, b: string, rest: string)
    requires Digits(a) && Digits(b) && (rest == "" || rest[0] == '.')
    ensures FlavorFromVersion(a + "." + b + rest).Done? <==> Supported(Value(a), Value(b)) && Value(b) <= MAX_INT
    ensures FlavorFromVersion(a + "." + b + rest) != Panics
  {
    FirstTwoParts(a, b, rest);
    AtoiOfDigits(a);
    AtoiOfDigits(b);
    hide Split, Atoi, Value;
  }

  /** A text whose part before the first dash begins with two numbers and a dot between them, with nothing or
      another dot after them, is parsed exactly if there is a flavour for these numbers and the second one is not
      too large for an int. */
  lemma Recognised(a: string, b: string, rest: string, tail: string, useCE: bool)
    requires Digits(a) && Digits(b) && (rest == "" || rest[0] == '.') && '-' !in rest && (tail == "" || tail[0] == '-')
    ensures ParseServerVersion(a + "." + b + rest + tail, useCE).Done?
            <==> Supported(Value(a), Value(b)) && Value(b) <= MAX_INT
  {
    hide Split, FlavorFromVersion, Value, Digits;
    var version := a + "." + b + rest;
    NoDash(a, b, rest);
    FirstDashPart(version, tail);
    RecognisedVersion(a, b, rest);
    DoneByFlavor(version + tail, useCE);
  }

  lemma NoDash(a: string, b: string, rest: string)
    requires Digits(a) && Digits(b) && '-' !in rest
    ensures '-' !in a + "." + b + rest
  {
    assert '-' !in a && '-' !in b;
  }

  lemma FirstDashPart(version: string, tail: string)
    requires '-' !in version && (tail == "" || tail[0] == '-')
    ensures Split(version + tail, '-')[0] == version
  {
    if tail == "" {
      assert version + tail == version;
      SplitWhole(version, '-');
    } else {
      assert version + tail == version + ['-'] + tail[1..];
      SplitOff(version, '-', tail[1..]);
    }
  }

  lemma DoneByFlavor(text: string, useCE: bool)
    ensures ParseServerVersion(text, useCE).Done? <==> FlavorFromVersion(Split(text, '-')[0]).Done?
  {
    hide Split, FlavorFromVersion;
  }
}
