/**
 The external origin: a host-attested header value is accepted only in its one canonical spelling.

 IPv6 text is left to the address library: `v6` stands for "parses as a zone-free IPv6 address and prints as itself".
 */
module Origins {
  import opened Texts
  import opened Decimals

  const HEADER := "X-Bytedesk-External-Origin"

  /** What the address library guarantees of the IPv6 texts it prints. */
  ghost predicate PrintsSixes(v6: string -> bool) {
    forall h :: v6(h) ==> ':' in h && |h| <= 45 && forall i :: 0 <= i < |h| ==> IsSixChar(h[i])
  }

  predicate IsSixChar(c: char) { IsDigit(c) || 'a' <= c <= 'f' || c == ':' || c == '.' }

  // ----- The part of URL parsing that origins exercise -----

  datatype Url = Url(scheme: string, rootless: string, hasUser: bool, host: string, path: string)

  predicate IsLetter(c: char) { 'a' <= c <= 'z' || 'A' <= c <= 'Z' }

  predicate IsSchemeChar(c: char) { IsLetter(c) || IsDigit(c) || c in {'+', '-', '.'} }

  function SchemeLength(s: string): (n: nat)
    ensures n <= |s| && (forall i :: 0 <= i < n ==> IsSchemeChar(s[i])) && (n < |s| ==> !IsSchemeChar(s[n]))
  {
    if s == "" || !IsSchemeChar(s[0]) then 0 else 1 + SchemeLength(s[1..])
  }

  /** The last position of c, or -1. */
  function Last(s: string, c: char): (i: int)
    ensures -1 <= i < |s| && (i >= 0 ==> s[i] == c) && forall k :: i < k < |s| ==> s[k] != c
  {
    if s == "" then -1
    else if s[|s| - 1] == c then |s| - 1
    else Last(s[..|s| - 1], c)
  }

  predicate ValidOptionalPort(p: string) { p == "" || (p[0] == ':' && AllDigits(p[1..])) }

  predicate IsHostChar(c: char) {
    IsLetter(c) || IsDigit(c)
    || c in {'-', '_', '.', '~', '!', '$', '&', '\'', '(', ')', '*', '+', ',', ';', '=', ':', '[', ']', '<', '>', '"'}
  }

  predicate IsHexChar(c: char) { IsDigit(c) || 'a' <= c <= 'f' || 'A' <= c <= 'F' }

  function HexOf(c: char): (n: nat)
    requires IsHexChar(c)
    ensures n < 16
  {
    if IsDigit(c) then c as int - '0' as int else if c >= 'a' then c as int - 'a' as int + 10 else c as int - 'A' as int + 10
  }

  /** Escapes in a host may spell only a percent sign or a non-ASCII byte. */
  function UnescapeHost(s: string): Option<string> {
    if s == "" then Some("")
    else if s[0] == '%' then
      if |s| < 3 || !IsHexChar(s[1]) || !IsHexChar(s[2]) || (HexOf(s[1]) < 8 && s[..3] != "%25") then None
      else
        match UnescapeHost(s[3..])
        case None => None
        case Some(rest) => Some([(16 * HexOf(s[1]) + HexOf(s[2])) as char] + rest)
    else if !IsHostChar(s[0]) then None
    else
      match UnescapeHost(s[1..])
      case None => None
      case Some(rest) => Some([s[0]] + rest)
  }

  function ParseHost(h: string): Option<string> {
    if h != "" && h[0] == '[' then
      if Last(h, ']') < 0 || !ValidOptionalPort(h[Last(h, ']') + 1..]) then None else UnescapeHost(h)
    else if Last(h, ':') >= 0 && !ValidOptionalPort(h[Last(h, ':')..]) then None
    else UnescapeHost(h)
  }

  /** None for a parse error and for a URL without a scheme; the caller refuses both. */
  function ParseUrl(raw: string): Option<Url> {
    var n := SchemeLength(raw);
    if n == 0 || n == |raw| || raw[n] != ':' || !IsLetter(raw[0]) then None
    else ParseRest(Lower(raw[..n]), raw[n + 1..])
  }

  function ParseRest(scheme: string, rest: string): Option<Url> {
    if rest == "" || rest[0] != '/' then Some(Url(scheme, rest, false, "", ""))
    else if |rest| == 1 || rest[1] != '/' then Some(Url(scheme, "", false, "", rest))
    else ParseAuthority(scheme, rest[2..])
  }

  function ParseAuthority(scheme: string, rest: string): Option<Url> {
    var m := IndexOf(rest, '/');
    var authority, path := rest[..m], rest[m..];
    var at := Last(authority, '@');
    match ParseHost(authority[at + 1..])
    case None => None
    case Some(host) => Some(Url(scheme, "", at >= 0, host, path))
  }

  function CutPort(hostPort: string): (string, string) {
    var colon := Last(hostPort, ':');
    if colon >= 0 && ValidOptionalPort(hostPort[colon..]) then (hostPort[..colon], hostPort[colon + 1..]) else (hostPort, "")
  }

  function Unbracketed(host: string): string {
    if |host| >= 2 && host[0] == '[' && host[|host| - 1] == ']' then host[1..|host| - 1] else host
  }

  /** Host name and port of a parsed authority. */
  function SplitHostPort(hostPort: string): (string, string) { (Unbracketed(CutPort(hostPort).0), CutPort(hostPort).1) }

  // ----- Hosts -----

  predicate IsOctet(s: string) {
    s != "" && |s| <= 3 && AllDigits(s) && (|s| > 1 ==> s[0] != '0') && DigitsValue(s) <= 255
  }

  predicate IsFour(host: string) {
    var parts := Split(host, '.');
    |parts| == 4 && forall i :: 0 <= i < 4 ==> IsOctet(parts[i])
  }

  predicate IsLabelChar(c: char) { 'a' <= c <= 'z' || IsDigit(c) || c == '-' }

  predicate IsLabel(s: string) {
    && 1 <= |s| <= 63
    && s[0] != '-' && s[|s| - 1] != '-'
    && forall i :: 0 <= i < |s| ==> IsLabelChar(s[i])
  }

  function TrimRoot(host: string): string {
    if host != "" && host[|host| - 1] == '.' then host[..|host| - 1] else host
  }

  predicate IsNumeric(host: string) { forall i :: 0 <= i < |host| ==> IsDigit(host[i]) || host[i] == '.' }

  predicate AllLabels(labels: seq<string>) { forall i :: 0 <= i < |labels| ==> IsLabel(labels[i]) }

  predicate IsName(host: string) { |host| <= 253 && !IsNumeric(host) && AllLabels(Split(TrimRoot(host), '.')) }

  // ----- Origins and their spelling -----

  datatype Scheme = Http | Https

  datatype Host = Name(text: string) | Four(text: string) | Six(text: string)

  datatype Origin = Origin(scheme: Scheme, host: Host, port: Option<nat>)

  function SchemeText(s: Scheme): string { if s.Http? then "http" else "https" }

  function DefaultPort(s: Scheme): nat { if s.Http? then 80 else 443 }

  predicate ValidHost(v6: string -> bool, host: Host) {
    match host
    case Name(text) => IsName(text)
    case Four(text) => IsFour(text)
    case Six(text) => v6(text)
  }

  predicate ValidPort(scheme: Scheme, port: Option<nat>) {
    port.Some? ==> 1 <= port.value <= 65535 && port.value != DefaultPort(scheme)
  }

  /** The triples that origins denote: scheme, host, and a port only when it is not the scheme's own. */
  predicate ValidOrigin(v6: string -> bool, o: Origin) { ValidHost(v6, o.host) && ValidPort(o.scheme, o.port) }

  function HostText(host: Host): string { if host.Six? then "[" + host.text + "]" else host.text }

  function PortText(port: Option<nat>): string { if port.Some? then ":" + Decimal(port.value) else "" }

  function Authority(host: Host, port: Option<nat>): string { HostText(host) + PortText(port) }

  /** The canonical spelling. */
  function Spelling(o: Origin): string { SchemeText(o.scheme) + "://" + Authority(o.host, o.port) }

  // ----- The check -----

  predicate IsPlain(raw: string) {
    && 0 < |raw| <= 2048
    && forall i :: 0 <= i < |raw| ==> 32 < raw[i] as int < 127 && raw[i] !in {',', '*', '\\', '?', '#'}
  }

  function SchemeOf(text: string): Option<Scheme> {
    if text == "http" then Some(Http) else if text == "https" then Some(Https) else None
  }

  function HostOf(v6: string -> bool, host: string): Option<Host> {
    if IsFour(host) then Some(Four(host))
    else if v6(host) then Some(Six(host))
    else if IsName(host) then Some(Name(host))
    else None
  }

  function PortOf(scheme: Scheme, port: string): Option<Option<nat>> {
    if port == "" then Some(None)
    else
      var n := Atoi(port);
      if n < 1 || n > 65535 || Decimal(n) != port || n == DefaultPort(scheme) then None else Some(Some(n))
  }

  function OriginOf(v6: string -> bool, u: Url): Option<Origin> {
    if SchemeOf(u.scheme).None? || u.hasUser || u.rootless != "" || u.host == "" || u.path != "" then None
    else
      var (host, port) := SplitHostPort(u.host);
      Classified(v6, SchemeOf(u.scheme).value, host, port)
  }

  function Classified(v6: string -> bool, scheme: Scheme, host: string, port: string): Option<Origin> {
    if host == "" || Lower(host) != host || HostOf(v6, host).None? || PortOf(scheme, port).None? then None
    else Some(Origin(scheme, HostOf(v6, host).value, PortOf(scheme, port).value))
  }

  /** The origin a header value denotes, if it is acceptable: every check passes and the value is its own reprint. */
  function Read(v6: string -> bool, raw: string): Option<Origin> {
    if !IsPlain(raw) || ParseUrl(raw).None? then None
    else
      var o := OriginOf(v6, ParseUrl(raw).value);
      if o.None? || raw != Spelling(o.value) then None else o
  }

  lemma ClassifiedIsValid(v6: string -> bool, scheme: Scheme, host: string, port: string)
    requires Classified(v6, scheme, host, port).Some?
    ensures ValidOrigin(v6, Classified(v6, scheme, host, port).value)
  {
  }

  lemma OriginOfIsValid(v6: string -> bool, u: Url)
    requires OriginOf(v6, u).Some?
    ensures ValidOrigin(v6, OriginOf(v6, u).value)
  {
    var (host, port) := SplitHostPort(u.host);
    ClassifiedIsValid(v6, SchemeOf(u.scheme).value, host, port);
  }

  /** Accepted values denote valid origins, and are their spellings. */
  lemma ReadIsSpelling(v6: string -> bool, raw: string)
    ensures Read(v6, raw).Some? ==> ValidOrigin(v6, Read(v6, raw).value) && raw == Spelling(Read(v6, raw).value)
  {
    if Read(v6, raw).Some? {
      OriginOfIsValid(v6, ParseUrl(raw).value);
    }
  }

  // ----- Every valid origin's spelling is accepted -----

  /** The characters of an authority that a spelling prints. */
  predicate IsSpelled(c: char) { 'a' <= c <= 'z' || IsDigit(c) || c in {'-', '.', ':', '[', ']'} }

  ghost predicate AllSpelled(s: string) { forall i :: 0 <= i < |s| ==> IsSpelled(s[i]) }

  lemma {:induction false} PartsSpell(s: string, ok: char -> bool)
    requires forall i, j :: 0 <= i < |Split(s, '.')| && 0 <= j < |Split(s, '.')[i]| ==> ok(Split(s, '.')[i][j])
    ensures forall k :: 0 <= k < |s| ==> s[k] == '.' || ok(s[k])
  {
    forall k | 0 <= k < |s|
      ensures s[k] == '.' || ok(s[k])
    {
      SplitHolds(s, '.', s[k]);
      assert s[k] in s;
      if s[k] != '.' {
        var i :| 0 <= i < |Split(s, '.')| && s[k] in Split(s, '.')[i];
      }
    }
  }

  lemma {:induction false} JoinLength(parts: seq<string>, most: nat)
    requires forall i :: 0 <= i < |parts| ==> |parts[i]| <= most
    ensures |Join(parts, '.')| <= |parts| * (most + 1)
  {
    if |parts| > 1 {
      JoinLength(parts[1..], most);
      assert |parts| * (most + 1) == (most + 1) + (|parts| - 1) * (most + 1);
    }
  }

  lemma FourIsNumeric(host: string)
    requires IsFour(host)
    ensures IsNumeric(host) && 0 < |host| <= 16
  {
    var parts := Split(host, '.');
    forall i, j | 0 <= i < |parts| && 0 <= j < |parts[i]|
      ensures IsDigit(parts[i][j])
    {
      assert IsOctet(parts[i]);
    }
    PartsSpell(host, IsDigit);
    SplitJoin(host, '.');
    assert forall i :: 0 <= i < 4 ==> IsOctet(parts[i]);
    JoinLength(parts, 3);
    assert host != "";
  }

  lemma NameIsSpelled(host: string)
    requires IsName(host)
    ensures host != "" && forall i :: 0 <= i < |host| ==> IsLabelChar(host[i]) || host[i] == '.'
  {
    var trimmed := TrimRoot(host);
    var parts := Split(trimmed, '.');
    forall i, j | 0 <= i < |parts| && 0 <= j < |parts[i]|
      ensures IsLabelChar(parts[i][j])
    {
      assert IsLabel(parts[i]);
    }
    PartsSpell(trimmed, IsLabelChar);
    assert forall i :: 0 <= i < |trimmed| ==> host[i] == trimmed[i];
    assert IsLabel(parts[0]);
  }

  /** A valid host is classified as what it is: the three kinds do not overlap. */
  lemma HostOfText(v6: string -> bool, host: Host)
    requires PrintsSixes(v6) && ValidHost(v6, host)
    ensures HostOf(v6, host.text) == Some(host) && Shaped(host)
  {
    match host
    case Name(text) =>
      NameIsSpelled(text);
      if IsFour(text) {
        FourIsNumeric(text);
      }
    case Four(text) => FourIsNumeric(text);
    case Six(text) =>
      var i :| 0 <= i < |text| && text[i] == ':';
      if IsFour(text) {
        FourIsNumeric(text);
        assert false;
      }
  }

  /** The last occurrence is where the character stands with none of it after. */
  lemma {:induction false} LastAt(a: string, c: char, b: string)
    requires c !in b
    ensures Last(a + [c] + b, c) == |a|
  {
    var s := a + [c] + b;
    if b == "" {
      assert s[|s| - 1] == c;
    } else {
      var n := |b| - 1;
      assert s[|s| - 1] == b[n] && b[n] in b;
      assert s[..|s| - 1] == a + [c] + b[..n];
      LastAt(a, c, b[..n]);
    }
  }

  lemma {:induction false} UnescapeSpelled(s: string)
    requires AllSpelled(s)
    ensures UnescapeHost(s) == Some(s)
  {
    if s != "" {
      assert IsSpelled(s[0]);
      UnescapeSpelled(s[1..]);
      assert [s[0]] + s[1..] == s;
    }
  }

  /** What the grammar of authorities needs to know of a host text. */
  ghost predicate Shaped(host: Host) {
    && host.text != "" && |host.text| <= 253 && AllSpelled(host.text)
    && '[' !in host.text && ']' !in host.text && (!host.Six? ==> ':' !in host.text)
  }

  lemma BracketedParses(text: string, p: string)
    requires AllSpelled(text) && AllSpelled(p) && ']' !in p && ValidOptionalPort(p)
    ensures ParseHost("[" + text + "]" + p) == Some("[" + text + "]" + p)
  {
    var a := "[" + text + "]" + p;
    assert a == ("[" + text) + [']'] + p;
    LastAt("[" + text, ']', p);
    assert a[|text| + 2..] == p;
    UnescapeSpelled(a);
  }

  lemma PlainParses(text: string, p: string)
    requires text != "" && AllSpelled(text) && '[' !in text && ':' !in text
    requires AllSpelled(p) && (p != "" ==> p[0] == ':' && ':' !in p[1..]) && ValidOptionalPort(p)
    ensures ParseHost(text + p) == Some(text + p)
  {
    var a := text + p;
    assert a[0] == text[0] && text[0] in text;
    UnescapeSpelled(a);
    PortStandsLast(text, p);
  }

  lemma PortStandsLast(text: string, p: string)
    requires ':' !in text && (p != "" ==> p[0] == ':' && ':' !in p[1..])
    ensures var colon := Last(text + p, ':');
            if p == "" then colon < 0 else colon == |text| && (text + p)[colon..] == p
  {
    if p != "" {
      assert text + p == text + [':'] + p[1..];
      LastAt(text, ':', p[1..]);
    } else {
      assert text + p == text;
    }
  }

  /** What the grammar of authorities needs to know of a port text. */
  ghost predicate IsPortText(p: string) {
    |p| <= 6 && AllSpelled(p) && ValidOptionalPort(p) && ']' !in p && (p != "" ==> p[0] == ':' && ':' !in p[1..])
  }

  lemma PortTextIsPort(port: Option<nat>)
    requires port.Some? ==> port.value <= 65535
    ensures IsPortText(PortText(port))
  {
    if port.Some? {
      var digits := Decimal(port.value);
      assert PortText(port)[1..] == digits;
      DecimalIsShort(port.value);
    }
  }

  lemma DecimalIsShort(n: nat)
    requires n <= 65535
    ensures |Decimal(n)| <= 5
  {
    assert n / 10 < 10 || |Decimal(n / 10)| <= 4 by {
      assert n / 10 / 10 < 10 || |Decimal(n / 10 / 10)| <= 3 by {
        assert n / 10 / 10 / 10 < 10 || |Decimal(n / 10 / 10 / 10)| <= 2;
      }
    }
  }

  lemma HostAndPortParse(host: Host, p: string)
    requires Shaped(host) && IsPortText(p)
    ensures AllSpelled(HostText(host) + p) && 0 < |HostText(host) + p| <= 270
    ensures ParseHost(HostText(host) + p) == Some(HostText(host) + p)
  {
    if host.Six? {
      BracketedParses(host.text, p);
    } else {
      PlainParses(host.text, p);
    }
  }

  lemma AuthorityParses(host: Host, port: Option<nat>)
    requires Shaped(host) && (port.Some? ==> port.value <= 65535)
    ensures AllSpelled(Authority(host, port)) && 0 < |Authority(host, port)| <= 270
    ensures ParseHost(Authority(host, port)) == Some(Authority(host, port))
  {
    PortTextIsPort(port);
    HostAndPortParse(host, PortText(port));
  }

  lemma PortIsCut(h: string, digits: string)
    requires AllDigits(digits)
    ensures CutPort(h + [':'] + digits) == (h, digits)
  {
    var a := h + [':'] + digits;
    LastAt(h, ':', digits);
    assert a[|h|..] == [':'] + digits && a[..|h|] == h && a[|h| + 1..] == digits;
  }

  lemma NoPortIsCut(h: string)
    requires ':' !in h || (h != "" && h[|h| - 1] == ']')
    ensures CutPort(h) == (h, "")
  {
    var colon := Last(h, ':');
    if colon >= 0 {
      assert h[colon..][|h| - colon - 1] == ']';
    }
  }

  lemma HostIsUnbracketed(host: Host)
    requires host.text != "" && '[' !in host.text
    ensures Unbracketed(HostText(host)) == host.text
  {
    assert host.text[0] in host.text;
    assert host.Six? ==> HostText(host)[1..|HostText(host)| - 1] == host.text;
  }

  lemma PortRegroups(h: string, digits: string)
    ensures h + (":" + digits) == h + [':'] + digits
  {
  }

  lemma AuthoritySplits(host: Host, port: Option<nat>)
    requires Shaped(host)
    ensures SplitHostPort(Authority(host, port)) == (host.text, if port.Some? then Decimal(port.value) else "")
  {
    HostIsUnbracketed(host);
    var h := HostText(host);
    if port.Some? {
      PortIsCut(h, Decimal(port.value));
      PortRegroups(h, Decimal(port.value));
    } else {
      NoPortIsCut(h);
      assert Authority(host, port) == h;
    }
  }

  lemma SpellingIsPlain(o: Origin)
    requires AllSpelled(Authority(o.host, o.port)) && |Authority(o.host, o.port)| <= 270
    ensures IsPlain(Spelling(o))
  {
    var raw, a := Spelling(o), Authority(o.host, o.port);
    var head := SchemeText(o.scheme) + "://";
    assert raw == head + a;
    forall i | 0 <= i < |raw|
      ensures 32 < raw[i] as int < 127 && raw[i] !in {',', '*', '\\', '?', '#'}
    {
      if i >= |head| {
        assert raw[i] == a[i - |head|];
      }
    }
  }

  lemma SpelledAuthorityParses(scheme: string, a: string)
    requires AllSpelled(a) && ParseHost(a) == Some(a)
    ensures ParseAuthority(scheme, a) == Some(Url(scheme, "", false, a, ""))
  {
    var m, at := IndexOf(a, '/'), Last(a, '@');
    assert m < |a| ==> IsSpelled(a[m]);
    assert a[..m] == a && a[m..] == "";
    assert at >= 0 ==> IsSpelled(a[at]);
    assert a[0..] == a;
  }

  lemma SchemeEnds(scheme: Scheme, rest: string)
    ensures SchemeLength(SchemeText(scheme) + ":" + rest) == |SchemeText(scheme)|
    ensures Lower(SchemeText(scheme)) == SchemeText(scheme)
  {
    var text := SchemeText(scheme);
    var raw := text + ":" + rest;
    assert raw[|text|] == ':';
    assert forall i :: 0 <= i < |text| ==> IsSchemeChar(text[i]) && raw[i] == text[i];
  }

  lemma ColonParts(text: string, rest: string)
    ensures (text + ":" + rest)[..|text|] == text && (text + ":" + rest)[|text|] == ':'
    ensures (text + ":" + rest)[|text| + 1..] == rest
  {
  }

  lemma UrlAfterScheme(scheme: Scheme, rest: string)
    ensures ParseUrl(SchemeText(scheme) + ":" + rest) == ParseRest(SchemeText(scheme), rest)
  {
    var text := SchemeText(scheme);
    var raw := text + ":" + rest;
    SchemeEnds(scheme, rest);
    ColonParts(text, rest);
  }

  lemma RestAfterSlashes(scheme: string, a: string)
    ensures ParseRest(scheme, "//" + a) == ParseAuthority(scheme, a)
  {
    assert ("//" + a)[2..] == a;
  }

  lemma SlashesRegroup(scheme: string, a: string)
    ensures scheme + "://" + a == scheme + ":" + ("//" + a)
  {
  }

  lemma SpellingParses(o: Origin)
    requires AllSpelled(Authority(o.host, o.port))
    requires ParseHost(Authority(o.host, o.port)) == Some(Authority(o.host, o.port))
    ensures ParseUrl(Spelling(o)) == Some(Url(SchemeText(o.scheme), "", false, Authority(o.host, o.port), ""))
  {
    var a := Authority(o.host, o.port);
    SlashesRegroup(SchemeText(o.scheme), a);
    UrlAfterScheme(o.scheme, "//" + a);
    RestAfterSlashes(SchemeText(o.scheme), a);
    SpelledAuthorityParses(SchemeText(o.scheme), a);
  }

  lemma PortOfText(scheme: Scheme, port: Option<nat>)
    requires ValidPort(scheme, port)
    ensures PortOf(scheme, if port.Some? then Decimal(port.value) else "") == Some(port)
  {
    if port.Some? {
      AtoiOfDecimal(port.value);
    }
  }

  lemma ClassifiedOfText(v6: string -> bool, o: Origin)
    requires PrintsSixes(v6) && ValidOrigin(v6, o)
    ensures Classified(v6, o.scheme, o.host.text, if o.port.Some? then Decimal(o.port.value) else "") == Some(o)
  {
    var host := o.host.text;
    HostOfText(v6, o.host);
    PortOfText(o.scheme, o.port);
    assert Lower(host) == host by {
      assert forall i :: 0 <= i < |host| ==> IsSpelled(host[i]);
    }
  }

  lemma SchemeOfText(scheme: Scheme)
    ensures SchemeOf(SchemeText(scheme)) == Some(scheme)
  {
  }

  lemma OriginOfUrl(v6: string -> bool, o: Origin, scheme: string, a: string, port: string)
    requires SchemeOf(scheme) == Some(o.scheme) && a != "" && SplitHostPort(a) == (o.host.text, port)
    requires Classified(v6, o.scheme, o.host.text, port) == Some(o)
    ensures OriginOf(v6, Url(scheme, "", false, a, "")) == Some(o)
  {
  }

  lemma SpellingDenotes(v6: string -> bool, o: Origin)
    requires PrintsSixes(v6) && ValidOrigin(v6, o) && Authority(o.host, o.port) != "" && Shaped(o.host)
    ensures OriginOf(v6, Url(SchemeText(o.scheme), "", false, Authority(o.host, o.port), "")) == Some(o)
  {
    AuthoritySplits(o.host, o.port);
    ClassifiedOfText(v6, o);
    SchemeOfText(o.scheme);
    var port := if o.port.Some? then Decimal(o.port.value) else "";
    OriginOfUrl(v6, o, SchemeText(o.scheme), Authority(o.host, o.port), port);
  }

  lemma ReadOf(v6: string -> bool, raw: string, u: Url, o: Origin)
    ensures IsPlain(raw) && ParseUrl(raw) == Some(u) && OriginOf(v6, u) == Some(o) ==>
              Read(v6, raw) == if raw == Spelling(o) then Some(o) else None
  {
  }

  /** The spelling of every valid origin is accepted, and read back as that origin. */
  lemma SpellingIsRead(v6: string -> bool, o: Origin)
    requires PrintsSixes(v6) && ValidOrigin(v6, o)
    ensures Read(v6, Spelling(o)) == Some(o)
  {
    HostOfText(v6, o.host);
    AuthorityParses(o.host, o.port);
    SpellingIsPlain(o);
    SpellingParses(o);
    SpellingDenotes(v6, o);
    ReadOf(v6, Spelling(o), Url(SchemeText(o.scheme), "", false, Authority(o.host, o.port), ""), o);
  }

  /** The value is the spelling of a valid origin. */
  ghost predicate IsCanonical(v6: string -> bool, raw: string) { exists o :: ValidOrigin(v6, o) && Spelling(o) == raw }

  /** Accepted values are exactly the spellings of valid origins. */
  lemma ReadIsImage(v6: string -> bool, raw: string)
    requires PrintsSixes(v6)
    ensures Read(v6, raw).Some? <==> IsCanonical(v6, raw)
  {
    ReadIsSpelling(v6, raw);
    if o :| ValidOrigin(v6, o) && Spelling(o) == raw {
      SpellingIsRead(v6, o);
    }
  }

  /** Each origin has one spelling, and no spelling is shared. */
  lemma SpellingIsInjective(v6: string -> bool, o: Origin, other: Origin)
    requires PrintsSixes(v6) && ValidOrigin(v6, o) && ValidOrigin(v6, other) && Spelling(o) == Spelling(other)
    ensures o == other
  {
    SpellingIsRead(v6, o);
    SpellingIsRead(v6, other);
  }

  // ----- The request -----

  /** Among these keys, the header has this one value and no other, in whatever letter cases its name comes. */
  ghost predicate SoleAmong(h: map<string, seq<string>>, keys: set<string>, raw: string) {
    exists k :: k in keys && k in h && EqualFold(k, HEADER) && h[k] == [raw] && NoneAmong(h, keys - {k})
  }

  ghost predicate NoneAmong(h: map<string, seq<string>>, keys: set<string>) {
    forall k :: k in keys && k in h && EqualFold(k, HEADER) ==> h[k] == []
  }

  /** The header has this one value and no other. */
  ghost predicate SoleValue(h: map<string, seq<string>>, raw: string) { SoleAmong(h, h.Keys, raw) }

  /** Whether values are what the header has among these keys, as far as a caller who wants a sole value can tell. */
  ghost predicate Gathered(h: map<string, seq<string>>, keys: set<string>, values: seq<string>) {
    && (values == [] <==> NoneAmong(h, keys))
    && forall raw :: SoleAmong(h, keys, raw) <==> values == [raw]
  }

  lemma GatherNone(h: map<string, seq<string>>)
    ensures Gathered(h, {}, [])
  {
  }

  lemma GatherOther(h: map<string, seq<string>>, keys: set<string>, values: seq<string>, k: string)
    requires Gathered(h, keys, values) && k in h && k !in keys && (EqualFold(k, HEADER) ==> h[k] == [])
    ensures Gathered(h, keys + {k}, values)
  {
    forall raw
      ensures SoleAmong(h, keys + {k}, raw) <==> SoleAmong(h, keys, raw)
    {
      if o :| o in keys && o in h && EqualFold(o, HEADER) && h[o] == [raw] && NoneAmong(h, keys - {o}) {
        assert NoneAmong(h, keys + {k} - {o});
      }
      if o :| o in keys + {k} && o in h && EqualFold(o, HEADER) && h[o] == [raw] && NoneAmong(h, keys + {k} - {o}) {
        assert NoneAmong(h, keys - {o});
      }
    }
  }

  lemma GatherMore(h: map<string, seq<string>>, keys: set<string>, values: seq<string>, k: string)
    requires Gathered(h, keys, values) && k in h && k !in keys && EqualFold(k, HEADER) && h[k] != []
    ensures Gathered(h, keys + {k}, values + h[k])
  {
    forall raw
      ensures SoleAmong(h, keys + {k}, raw) <==> values + h[k] == [raw]
    {
      if values + h[k] == [raw] {
        assert |values| + |h[k]| == 1 && (values + h[k])[0] == raw;
        assert keys + {k} - {k} == keys;
      }
      if o :| o in keys + {k} && o in h && EqualFold(o, HEADER) && h[o] == [raw] && NoneAmong(h, keys + {k} - {o}) {
        SoleIsNew(h, keys, values, k, o);
      }
    }
  }

  lemma SoleIsNew(h: map<string, seq<string>>, keys: set<string>, values: seq<string>, k: string, o: string)
    requires Gathered(h, keys, values) && k in h && k !in keys && EqualFold(k, HEADER) && h[k] != []
    requires o in keys + {k} && NoneAmong(h, keys + {k} - {o})
    ensures o == k && values == []
  {
    assert k !in keys + {k} - {o};
    assert keys + {k} - {k} == keys;
  }

  method HeaderValues(h: map<string, seq<string>>) returns (values: seq<string>)
    ensures Gathered(h, h.Keys, values)
  {
    values := [];
    var keys := h.Keys;
    GatherNone(h);
    assert h.Keys - keys == {};
    while keys != {}
      invariant keys <= h.Keys && Gathered(h, h.Keys - keys, values)
      decreases |keys|
    {
      var key :| key in keys;
      ghost var seen := h.Keys - keys;
      assert h.Keys - (keys - {key}) == seen + {key};
      if EqualFold(key, HEADER) && h[key] != [] {
        GatherMore(h, seen, values, key);
        values := values + h[key];
      } else {
        GatherOther(h, seen, values, key);
      }
      keys := keys - {key};
    }
    assert h.Keys - keys == h.Keys;
  }

  /** Every label of a DNS name is well-formed. */
  method HasLabels(host: string) returns (ok: bool)
    ensures ok <==> AllLabels(Split(TrimRoot(host), '.'))
  {
    var labels := Split(TrimRoot(host), '.');
    for i := 0 to |labels|
      invariant forall k :: 0 <= k < i ==> IsLabel(labels[k])
    {
      if !IsLabel(labels[i]) {
        return false;
      }
    }
    return true;
  }

  /** The authority of a canonical URL: the host, bracketed if it is an IPv6 address. */
  method HostAuthority(v6: string -> bool, host: string) returns (authority: Option<string>)
    ensures authority.Some? <==> HostOf(v6, host).Some?
    ensures authority.Some? ==> authority.value == HostText(HostOf(v6, host).value)
  {
    if IsFour(host) {
      return Some(host);
    }
    if v6(host) {
      return Some("[" + host + "]");
    }
    if |host| > 253 || IsNumeric(host) {
      return None;
    }
    var ok := HasLabels(host);
    return if ok then Some(host) else None;
  }

  method IsPort(scheme: Scheme, port: string) returns (ok: bool)
    requires port != ""
    ensures ok <==> PortOf(scheme, port).Some?
    ensures ok ==> PortText(PortOf(scheme, port).value) == ":" + port
  {
    var n := Atoi(port);
    return 1 <= n <= 65535 && Decimal(n) == port && !(scheme.Http? && n == 80) && !(scheme.Https? && n == 443);
  }

  /** What a port adds to the authority. */
  method PortSuffix(scheme: Scheme, port: string) returns (suffix: Option<string>)
    ensures suffix.Some? <==> PortOf(scheme, port).Some?
    ensures suffix.Some? ==> suffix.value == PortText(PortOf(scheme, port).value)
  {
    if port == "" {
      return Some("");
    }
    var ok := IsPort(scheme, port);
    return if ok then Some(":" + port) else None;
  }

  /** The reprint of a parsed URL, if it denotes an origin. */
  method Reprint(v6: string -> bool, u: Url) returns (text: Option<string>)
    ensures text.Some? <==> OriginOf(v6, u).Some?
    ensures text.Some? ==> text.value == Spelling(OriginOf(v6, u).value)
  {
    if SchemeOf(u.scheme).None? || u.hasUser || u.rootless != "" || u.host == "" || u.path != "" {
      return None;
    }
    var (host, port) := SplitHostPort(u.host);
    if host == "" || Lower(host) != host {
      return None;
    }
    var named := HostAuthority(v6, host);
    if named.None? {
      return None;
    }
    var suffix := PortSuffix(SchemeOf(u.scheme).value, port);
    if suffix.None? {
      return None;
    }
    var authority := named.value + suffix.value;
    return Some(u.scheme + "://" + authority);
  }

  method IsExternalOrigin(v6: string -> bool, raw: string) returns (ok: bool)
    requires PrintsSixes(v6)
    ensures ok <==> IsCanonical(v6, raw)
  {
    ReadIsImage(v6, raw);
    if !IsPlain(raw) {
      return false;
    }
    var u := ParseUrl(raw);
    if u.None? {
      return false;
    }
    var text := Reprint(v6, u.value);
    return text.Some? && raw == text.value;
  }

  /** The one value of the header if it is canonical; every other request has no external origin. */
  method ExternalOrigin(v6: string -> bool, headers: Option<map<string, seq<string>>>) returns (origin: Option<string>)
    requires PrintsSixes(v6)
    ensures origin.Some? ==> headers.Some? && SoleValue(headers.value, origin.value) && IsCanonical(v6, origin.value)
    ensures origin.None? && headers.Some? ==> forall raw :: SoleValue(headers.value, raw) ==> !IsCanonical(v6, raw)
  {
    if headers.None? {
      return None;
    }
    var values := HeaderValues(headers.value);
    if |values| != 1 {
      return None;
    }
    var raw := values[0];
    assert values == [raw];
    var ok := IsExternalOrigin(v6, raw);
    if ok {
      assert SoleAmong(headers.value, headers.value.Keys, raw);
      return Some(raw);
    }
    return None;
  }
}
