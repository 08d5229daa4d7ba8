/** URL checks for the PDF proxy and the AcroForm apply endpoint
    (src/Proxy/ProxyUrlValidator.php): the SSRF guard on the URL's host and the allowlist of
    substrings and `#`-delimited regular expressions. */
module ProxyUrlValidator {
  import opened Wrappers
  import opened Text

  /** The PHP library calls the validator makes and the model does not write out:
      `parse_url($url, PHP_URL_HOST)` (`None` for null or false), IPv6 validation by
      `filter_var`, `gethostbyname` (DNS; it returns its argument when the name does not
      resolve), and `preg_match` (`Some(true)` for 1, `Some(false)` for 0, `None` for a
      pattern error). */
  datatype UrlRuntime = UrlRuntime(
    parseHost: string -> Option<string>,
    isIpv6: string -> bool,
    resolve: string -> string,
    regexMatch: (string, string) -> Option<bool>)

  // ---------------------------------------------------------------- IPv4

  /** One part of a dotted quad as `filter_var(..., FILTER_FLAG_IPV4)` accepts it: one to three
      digits, no leading zero, at most 255. */
  function Octet(t: string): (r: Option<nat>)
    ensures r.Some? ==> r.value <= 255
  {
    if 1 <= |t| <= 3 && AllDigits(t) && (|t| == 1 || t[0] != '0') && DecValue(t) <= 255
    then Some(DecValue(t)) else None
  }

  /** The four octets of an IPv4 address in dotted-quad form; `None` for anything else. */
  function ParseIpv4(s: string): (r: Option<seq<nat>>)
    ensures r.Some? ==> |r.value| == 4 && forall k :: 0 <= k < 4 ==> r.value[k] <= 255
  {
    var parts := Split(s, '.');
    if |parts| == 4 && forall k :: 0 <= k < 4 ==> Octet(parts[k]).Some?
    then Some(seq(4, k requires 0 <= k < 4 => Octet(parts[k]).value))
    else None
  }

  /** `ip2long` of four octets, the unsigned value `sprintf('%u')` prints. */
  function Ipv4Long(o: seq<nat>): nat
    requires |o| == 4
  {
    o[0] * 16777216 + o[1] * 65536 + o[2] * 256 + o[3]
  }

  /** The four blocked ranges of `isBlockedForSsrf`. */
  predicate InBlockedRange(u: int) {
    (u >= 2130706432 && u <= 2147483647)
    || (u >= 167772160 && u <= 184549375)
    || (u >= 3232235520 && u <= 3232301055)
    || (u >= 2851995648 && u <= 2852061183)
  }

  /** The networks the ranges stand for: loopback 127.0.0.0/8, the private blocks 10.0.0.0/8
      and 192.168.0.0/16 of section 3 of RFC 1918, and link-local 169.254.0.0/16 of RFC 3927. */
  predicate IsPrivateOctets(o: seq<nat>)
    requires |o| == 4
  {
    o[0] == 127 || o[0] == 10 || (o[0] == 192 && o[1] == 168) || (o[0] == 169 && o[1] == 254)
  }

  /** The ranges are exactly those networks: a host is blocked by value iff its first octet (and,
      for the /16 blocks, its second) names one of them. 172.16.0.0/12 is not among them. */
  lemma BlockedRangeIsPrivate(o: seq<nat>)
    requires |o| == 4 && forall k :: 0 <= k < 4 ==> o[k] <= 255
    ensures InBlockedRange(Ipv4Long(o)) <==> IsPrivateOctets(o)
  {
    var low := o[1] * 65536 + o[2] * 256 + o[3];
    var r := o[2] * 256 + o[3];
    assert 0 <= r <= 65535;
    assert 0 <= low <= 16777215;
    assert Ipv4Long(o) == o[0] * 16777216 + low;
    assert low == o[1] * 65536 + r;
  }

  /** An address in 172.16.0.0/12 is not blocked by value. */
  lemma Private172IsNotBlocked(o: seq<nat>)
    requires |o| == 4 && forall k :: 1 <= k < 4 ==> o[k] <= 255
    requires o[0] == 172 && 16 <= o[1] <= 31
    ensures !InBlockedRange(Ipv4Long(o))
  {
    BlockedRangeIsPrivate(o);
  }

  /** The dotted-quad text of four octets. */
  function Dotted(o: seq<nat>): string
    requires |o| == 4
  {
    Implode(".", [NatToDecimal(o[0]), NatToDecimal(o[1]), NatToDecimal(o[2]), NatToDecimal(o[3])])
  }

  lemma OctetOfDecimal(n: nat)
    requires n <= 255
    ensures Octet(NatToDecimal(n)) == Some(n)
  {
    NatToDecimalShape(n);
    DecValueOfNatToDecimal(n);
  }

  /** Printing four octets and parsing them back gives the octets. */
  lemma ParseIpv4OfDotted(o: seq<nat>)
    requires |o| == 4 && forall k :: 0 <= k < 4 ==> o[k] <= 255
    ensures ParseIpv4(Dotted(o)) == Some(o)
  {
    var parts := [NatToDecimal(o[0]), NatToDecimal(o[1]), NatToDecimal(o[2]), NatToDecimal(o[3])];
    forall k | 0 <= k < 4
      ensures '.' !in parts[k] && Octet(parts[k]) == Some(o[k])
    {
      OctetOfDecimal(o[k]);
    }
    SplitOfImplode(parts, '.');
    ParseIpv4OfParts(Dotted(o), parts, o);
  }

  lemma ParseIpv4OfParts(s: string, parts: seq<string>, o: seq<nat>)
    requires |o| == 4 && |parts| == 4 && Split(s, '.') == parts
    requires forall k :: 0 <= k < 4 ==> Octet(parts[k]) == Some(o[k])
    ensures ParseIpv4(s) == Some(o)
  {
    var r := seq(4, k requires 0 <= k < 4 => Octet(parts[k]).value);
    assert r == o;
  }

  /** The text of a dotted quad, piece by piece. */
  lemma DottedPieces(o: seq<nat>)
    requires |o| == 4
    ensures Dotted(o) == NatToDecimal(o[0]) + ("." + (NatToDecimal(o[1]) + ("." + (NatToDecimal(o[2]) + ("." + NatToDecimal(o[3]))))))
  {
    var a, b, c, d := NatToDecimal(o[0]), NatToDecimal(o[1]), NatToDecimal(o[2]), NatToDecimal(o[3]);
    var parts := [a, b, c, d];
    assert parts[1..] == [b, c, d];
    assert parts[1..][1..] == [c, d];
    assert parts[1..][1..][1..] == [d];
    assert Implode(".", [c, d]) == c + "." + d;
    assert Implode(".", [b, c, d]) == b + "." + (c + "." + d);
  }

  // ---------------------------------------------------------------- SSRF

  predicate IsBracket(c: char) { c == '[' || c == ']' }

  /** `filter_var($s, FILTER_VALIDATE_IP)`. */
  predicate IsIp(s: string, rt: UrlRuntime) {
    ParseIpv4(s).Some? || rt.isIpv6(s)
  }

  /** The address the check looks at after the host rules: the host itself when it is an IP,
      else what it resolves to, `None` when it does not resolve. */
  function ResolvedIp(host: string, rt: UrlRuntime): Option<string> {
    if IsIp(host, rt) then Some(host)
    else if rt.resolve(host) == host then None
    else Some(rt.resolve(host))
  }

  /** The test on an address: by value for IPv4, by prefix for IPv6, not blocked otherwise. */
  predicate IpIsBlocked(ip: string, rt: UrlRuntime) {
    match ParseIpv4(ip)
    case Some(o) => InBlockedRange(Ipv4Long(o))
    case None => rt.isIpv6(ip) && (StartsWith(ip, "::1") || StartsWith(ip, "fe80:"))
  }

  /** The rules on the host name, before any address is looked at. */
  predicate IsLocalName(lower: string) {
    lower == "localhost" || lower == "::1" || StartsWith(lower, "fe80:")
  }

  /** `isBlockedForSsrf`. */
  predicate IsBlockedForSsrf(url: string, rt: UrlRuntime) {
    match rt.parseHost(url)
    case None => true
    case Some(h) =>
      var host := Trim(h, IsBracket);
      if h == "" || host == "" || IsLocalName(Lower(host)) then true
      else
        match ResolvedIp(host, rt)
        case None => false
        case Some(ip) => IpIsBlocked(ip, rt)
  }

  /** A URL whose host is written as a dotted quad is blocked exactly when the address is in one
      of the four networks. */
  lemma DottedHostBlockedIff(url: string, rt: UrlRuntime, o: seq<nat>)
    requires |o| == 4 && forall k :: 0 <= k < 4 ==> o[k] <= 255
    requires rt.parseHost(url) == Some(Dotted(o))
    ensures IsBlockedForSsrf(url, rt) <==> IsPrivateOctets(o)
  {
    DottedIsPlainHost(o);
    ParseIpv4OfDotted(o);
    BlockedRangeIsPrivate(o);
  }

  /** A dotted quad passes the host-name rules unchanged: no brackets to strip, not a local name. */
  lemma DottedIsPlainHost(o: seq<nat>)
    requires |o| == 4
    ensures var h := Dotted(o); h != "" && Trim(h, IsBracket) == h && !IsLocalName(Lower(h))
  {
    var h := Dotted(o);
    var first := NatToDecimal(o[0]);
    var last := NatToDecimal(o[3]);
    DottedPieces(o);
    assert h[0] == first[0] && h[|h| - 1] == last[|last| - 1];
    TrimOfTrimmed(h, IsBracket);
    var lower := Lower(h);
    assert lower[0] == h[0];
    if StartsWith(lower, "fe80:") { StartsWithAt(lower, "fe80:", 0); }
    assert "localhost"[0] == 'l' && "::1"[0] == ':';
    assert lower != "localhost" && lower != "::1";
  }

  /** A missing host, an empty one and one that is only brackets are blocked, and so are
      `localhost` in any case, `::1` and any host starting with `fe80:`. */
  lemma HostRules(url: string, rt: UrlRuntime)
    requires rt.parseHost(url).None? || rt.parseHost(url) == Some("")
             || Trim(rt.parseHost(url).value, IsBracket) == ""
             || IsLocalName(Lower(Trim(rt.parseHost(url).value, IsBracket)))
    ensures IsBlockedForSsrf(url, rt)
  {
  }

  /** A host name that is not an IP and does not resolve is let through. */
  lemma UnresolvedNameIsNotBlocked(url: string, rt: UrlRuntime, h: string)
    requires rt.parseHost(url) == Some(h) && h != "" && Trim(h, IsBracket) == h
    requires !IsLocalName(Lower(h)) && !IsIp(h, rt) && rt.resolve(h) == h
    ensures !IsBlockedForSsrf(url, rt)
  {
  }

  /** A name that resolves is judged by its address. */
  lemma ResolvedNameIsJudgedByAddress(url: string, rt: UrlRuntime, h: string)
    requires rt.parseHost(url) == Some(h) && h != "" && Trim(h, IsBracket) == h
    requires !IsLocalName(Lower(h)) && !IsIp(h, rt) && rt.resolve(h) != h
    ensures IsBlockedForSsrf(url, rt) == IpIsBlocked(rt.resolve(h), rt)
  {
  }

  // ---------------------------------------------------------------- allowlist

  /** When a non-empty allowlist entry admits the URL: a `#` entry by its regular expression only,
      any other entry as a substring. */
  predicate PatternAdmits(pattern: string, url: string, rt: UrlRuntime) {
    pattern != ""
    && if StartsWith(pattern, "#") then rt.regexMatch(pattern, url) == Some(true) else ContainsSub(url, pattern)
  }

  /** The `foreach` from entry `i` on, with its early returns, and the final
      `$this->proxyUrlAllowlist === []`. */
  function ScanFrom(url: string, allowlist: seq<string>, i: nat, rt: UrlRuntime): bool
    requires i <= |allowlist|
    decreases |allowlist| - i
  {
    if i == |allowlist| then allowlist == []
    else
      var pattern := allowlist[i];
      if pattern == "" then ScanFrom(url, allowlist, i + 1, rt)
      else if StartsWith(pattern, "#") then
        if rt.regexMatch(pattern, url) == Some(true) then true else ScanFrom(url, allowlist, i + 1, rt)
      else if ContainsSub(url, pattern) then true
      else ScanFrom(url, allowlist, i + 1, rt)
  }

  /** `isAllowedByAllowlist`. */
  predicate IsAllowedByAllowlist(url: string, allowlist: seq<string>, rt: UrlRuntime) {
    ScanFrom(url, allowlist, 0, rt)
  }

  lemma {:induction false} ScanFromIff(url: string, allowlist: seq<string>, i: nat, rt: UrlRuntime)
    requires i <= |allowlist|
    ensures ScanFrom(url, allowlist, i, rt)
        <==> allowlist == [] || exists j :: i <= j < |allowlist| && PatternAdmits(allowlist[j], url, rt)
    decreases |allowlist| - i
  {
    if i < |allowlist| {
      ScanFromIff(url, allowlist, i + 1, rt);
    }
  }

  /** An empty allowlist admits every URL; otherwise a URL is admitted iff some entry admits it.
      So an allowlist of empty strings admits nothing. */
  lemma AllowedIff(url: string, allowlist: seq<string>, rt: UrlRuntime)
    ensures IsAllowedByAllowlist(url, allowlist, rt)
        <==> allowlist == [] || exists j :: 0 <= j < |allowlist| && PatternAdmits(allowlist[j], url, rt)
  {
    ScanFromIff(url, allowlist, 0, rt);
  }

  /** Empty entries never admit: a non-empty allowlist without other entries rejects every URL. */
  lemma EmptyEntriesReject(url: string, allowlist: seq<string>, rt: UrlRuntime)
    requires allowlist != [] && forall j :: 0 <= j < |allowlist| ==> allowlist[j] == ""
    ensures !IsAllowedByAllowlist(url, allowlist, rt)
  {
    AllowedIff(url, allowlist, rt);
  }

  /** A `#` entry whose expression does not match (or is invalid) does not fall back to substring
      matching, even when the URL contains the entry's text. */
  lemma RegexEntryHasNoSubstringFallback(url: string, pattern: string, rt: UrlRuntime)
    requires StartsWith(pattern, "#") && rt.regexMatch(pattern, url) != Some(true)
    ensures !IsAllowedByAllowlist(url, [pattern], rt)
  {
    AllowedIff(url, [pattern], rt);
  }
}
