/**
 * The strings built from a service name and a port: the name the remoted
 * object is published under, its URL, the channel name, and the name of the
 * presence mutex that says "someone serves this name on this port".
 */
module ServiceNames {
  import Decimal

  /** Every character of `s` that is in `from` replaced by `to`; what repeated `string.Replace(char, char)` does. */
  function ReplaceAll(s: string, from: set<char>, to: char): (r: string)
    ensures |r| == |s|
    ensures forall i :: 0 <= i < |s| ==> r[i] == if s[i] in from then to else s[i]
  {
    if s == [] then [] else [if s[0] in from then to else s[0]] + ReplaceAll(s[1..], from, to)
  }

  /** Replacing `from` and then `more` is replacing their union in one pass. */
  lemma ReplaceAllTwice(s: string, from: set<char>, more: set<char>, to: char)
    ensures ReplaceAll(ReplaceAll(s, from, to), more, to) == ReplaceAll(s, from + more, to)
  {
    var once := ReplaceAll(s, from, to);
    var twice := ReplaceAll(once, more, to);
    assert forall i :: 0 <= i < |s| ==> twice[i] == ReplaceAll(s, from + more, to)[i];
  }

  /** Replacing is idempotent. */
  lemma ReplaceAllIdempotent(s: string, from: set<char>, to: char)
    ensures ReplaceAll(ReplaceAll(s, from, to), from, to) == ReplaceAll(s, from, to)
  {
    ReplaceAllTwice(s, from, from, to);
    assert from + from == from;
  }

  /** `FixupServiceName`: backslashes become forward slashes, everything else is kept. */
  function FixupServiceName(name: string): (r: string)
    ensures |r| == |name| && '\\' !in r
    ensures forall i :: 0 <= i < |name| && name[i] != '\\' ==> r[i] == name[i]
    ensures forall i :: 0 <= i < |name| && name[i] == '\\' ==> r[i] == '/'
  {
    var r := ReplaceAll(name, {'\\'}, '/');
    assert forall i :: 0 <= i < |r| ==> r[i] != '\\';
    r
  }

  /** Fixing up a fixed-up name changes nothing. */
  lemma FixupServiceNameIdempotent(name: string)
    ensures FixupServiceName(FixupServiceName(name)) == FixupServiceName(name)
  {
    ReplaceAllIdempotent(name, {'\\'}, '/');
  }

  /** Scheme and host of every service URL. */
  function URLPrefix(): string
  {
    "http://localhost"
  }

  /** `GetUrlForService`: the address the proxy of `name` dials on `port`. */
  function GetUrlForService(name: string, port: int): string
  {
    URLPrefix() + ":" + Decimal.ToDecimal(port) + "/" + FixupServiceName(name)
  }

  /** `GetChannelName`: the name of the HTTP channel registered on `port`. */
  function GetChannelName(port: int): string
  {
    "http." + Decimal.ToDecimal(port)
  }

  /** Two strings joined at a separator that occurs in neither left part split back into the same parts. */
  lemma SplitAtSeparator(u: string, x: string, v: string, y: string, sep: char)
    requires sep !in u && sep !in v
    requires u + [sep] + x == v + [sep] + y
    ensures u == v && x == y
  {
    var w := u + [sep] + x;
    assert w == v + [sep] + y;
    assert w[|u|] == sep && w[|v|] == sep;
    assert forall i :: 0 <= i < |u| ==> w[i] == u[i] != sep;
    assert forall i :: 0 <= i < |v| ==> w[i] == v[i] != sep;
    assert u == w[..|u|] == v;
    assert x == w[|u| + 1..] == y;
  }

  /** Equal strings with a common head have equal tails. */
  lemma StripHead(head: string, a: string, b: string)
    requires head + a == head + b
    ensures a == b
  {
    assert a == (head + a)[|head|..];
    assert b == (head + b)[|head|..];
  }

  /**
   * The URL the client builds at the call site, `GetUrlForService(FixupServiceName(name), port)`,
   * is `http://localhost:<port>/<fixed-up name>`: fixing up twice is fixing up once.
   */
  lemma UrlAtCallSite(name: string, port: int)
    ensures GetUrlForService(FixupServiceName(name), port)
            == "http://localhost:" + Decimal.ToDecimal(port) + "/" + FixupServiceName(name)
  {
    FixupServiceNameIdempotent(name);
  }

  /** Distinct ports give distinct URLs for the same service name. */
  lemma UrlDistinguishesPorts(name: string, p: int, q: int)
    requires GetUrlForService(name, p) == GetUrlForService(name, q)
    ensures p == q
  {
    var head := URLPrefix() + ":";
    var f := FixupServiceName(name);
    var dp, dq := Decimal.ToDecimal(p), Decimal.ToDecimal(q);
    assert GetUrlForService(name, p) == head + (dp + "/" + f);
    assert GetUrlForService(name, q) == head + (dq + "/" + f);
    StripHead(head, dp + "/" + f, dq + "/" + f);
    Decimal.ToDecimalShape(p);
    Decimal.ToDecimalShape(q);
    SplitAtSeparator(dp, f, dq, f, '/');
    Decimal.ToDecimalInjective(p, q);
  }

  /** Distinct ports give distinct channel names. */
  lemma ChannelNameDistinguishesPorts(p: int, q: int)
    requires GetChannelName(p) == GetChannelName(q)
    ensures p == q
  {
    assert Decimal.ToDecimal(p) == GetChannelName(p)[5..];
    Decimal.ToDecimalInjective(p, q);
  }

  /** The platform's `Path.GetInvalidPathChars()` and `Path.GetInvalidFileNameChars()`. */
  datatype Platform = Platform(invalidPathChars: seq<char>, invalidFileNameChars: seq<char>)

  /** The characters of a sequence, as a set. */
  function CharsOf(cs: seq<char>): (r: set<char>)
    ensures forall c :: c in r <==> c in cs
  {
    set c | c in cs
  }

  /** Every character the mutex name must not contain in its service-name part. */
  function InvalidChars(platform: Platform): set<char>
  {
    CharsOf(platform.invalidPathChars) + CharsOf(platform.invalidFileNameChars)
  }

  /** The service name as it appears in a mutex name: each invalid character replaced by `_`. */
  function SanitizeServiceName(serviceName: string, platform: Platform): string
  {
    ReplaceAll(serviceName, InvalidChars(platform), '_')
  }

  /** The namespace all presence-mutex names start with. */
  const MutexNamespace: string := "Palaso.IPSystem:"

  /** The name of the presence mutex for `serviceName` on `port`. */
  function MutexName(port: int, serviceName: string, platform: Platform): string
  {
    MutexNamespace + Decimal.ToDecimal(port) + "/" + SanitizeServiceName(serviceName, platform)
  }

  /** One more character of `cs` replaced: the set replaced so far grows by it. */
  lemma ReplaceOneMore(s: string, base: set<char>, cs: seq<char>, k: nat)
    requires k < |cs|
    ensures ReplaceAll(ReplaceAll(s, base + CharsOf(cs[..k]), '_'), {cs[k]}, '_')
            == ReplaceAll(s, base + CharsOf(cs[..k + 1]), '_')
  {
    ReplaceAllTwice(s, base + CharsOf(cs[..k]), {cs[k]}, '_');
    assert CharsOf(cs[..k + 1]) == CharsOf(cs[..k]) + {cs[k]} by {
      assert cs[..k + 1] == cs[..k] + [cs[k]];
    }
  }

  /** `GetNameOfMutexForPortAndService`: replaces invalid path characters, then invalid file-name characters, by `_`. */
  method GetNameOfMutexForPortAndService(port: int, serviceName: string, platform: Platform) returns (name: string)
    ensures name == MutexName(port, serviceName, platform)
  {
    var sanitized := serviceName;
    var pathChars, fileChars := platform.invalidPathChars, platform.invalidFileNameChars;
    for k := 0 to |pathChars|
      invariant sanitized == ReplaceAll(serviceName, CharsOf(pathChars[..k]), '_')
    {
      ReplaceOneMore(serviceName, {}, pathChars, k);
      assert {} + CharsOf(pathChars[..k]) == CharsOf(pathChars[..k]);
      assert {} + CharsOf(pathChars[..k + 1]) == CharsOf(pathChars[..k + 1]);
      sanitized := ReplaceAll(sanitized, {pathChars[k]}, '_');
    }
    assert pathChars[..|pathChars|] == pathChars;
    for k := 0 to |fileChars|
      invariant sanitized == ReplaceAll(serviceName, CharsOf(pathChars) + CharsOf(fileChars[..k]), '_')
    {
      ReplaceOneMore(serviceName, CharsOf(pathChars), fileChars, k);
      sanitized := ReplaceAll(sanitized, {fileChars[k]}, '_');
    }
    assert fileChars[..|fileChars|] == fileChars;
    name := MutexNamespace + Decimal.ToDecimal(port) + "/" + sanitized;
  }

  /**
   * The service-name part of a mutex name has the length of the service name, keeps
   * every valid character, holds no invalid one (when `_` itself is valid), and
   * sanitizing it again changes nothing.
   */
  lemma SanitizedServiceName(serviceName: string, platform: Platform)
    ensures |SanitizeServiceName(serviceName, platform)| == |serviceName|
    ensures forall i :: 0 <= i < |serviceName| && serviceName[i] !in InvalidChars(platform) ==>
              SanitizeServiceName(serviceName, platform)[i] == serviceName[i]
    ensures '_' !in InvalidChars(platform) ==>
              forall i :: 0 <= i < |serviceName| ==> SanitizeServiceName(serviceName, platform)[i] !in InvalidChars(platform)
    ensures SanitizeServiceName(SanitizeServiceName(serviceName, platform), platform) == SanitizeServiceName(serviceName, platform)
  {
    ReplaceAllIdempotent(serviceName, InvalidChars(platform), '_');
  }

  /** A mutex name determines its port and the sanitized service name. */
  lemma MutexNameDistinguishes(p: int, a: string, q: int, b: string, platform: Platform)
    requires MutexName(p, a, platform) == MutexName(q, b, platform)
    ensures p == q
    ensures SanitizeServiceName(a, platform) == SanitizeServiceName(b, platform)
  {
    var sa, sb := SanitizeServiceName(a, platform), SanitizeServiceName(b, platform);
    var dp, dq := Decimal.ToDecimal(p), Decimal.ToDecimal(q);
    assert MutexName(p, a, platform) == MutexNamespace + (dp + "/" + sa);
    assert MutexName(q, b, platform) == MutexNamespace + (dq + "/" + sb);
    StripHead(MutexNamespace, dp + "/" + sa, dq + "/" + sb);
    Decimal.ToDecimalShape(p);
    Decimal.ToDecimalShape(q);
    SplitAtSeparator(dp, sa, dq, sb, '/');
    Decimal.ToDecimalInjective(p, q);
  }
}
