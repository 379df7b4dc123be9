/** The accepted values of the external origin, told in their characters alone. */
module OriginTexts {
  import opened Texts
  import opened Decimals
  import opened Origins

  // ----- Hosts -----

  ghost predicate IsLabelText(s: string) {
    && 1 <= |s| <= 63 && s[0] != '-' && s[|s| - 1] != '-'
    && forall i :: 0 <= i < |s| ==> 'a' <= s[i] <= 'z' || '0' <= s[i] <= '9' || s[i] == '-'
  }

  /** Labels joined by dots, at most one dot after the last, and not digits and dots throughout. */
  ghost predicate IsNameText(h: string) {
    && |h| <= 253
    && (exists i :: 0 <= i < |h| && !('0' <= h[i] <= '9') && h[i] != '.')
    && exists labels :: AreLabels(labels) && (h == Join(labels, '.') || h == Join(labels, '.') + ".")
  }

  ghost predicate AreLabels(labels: seq<string>) { labels != [] && forall i :: 0 <= i < |labels| ==> IsLabelText(labels[i]) }

  /** Four numbers up to 255 joined by dots. */
  ghost predicate IsFourText(h: string) {
    exists ns: seq<nat> :: |ns| == 4 && (forall i :: 0 <= i < 4 ==> ns[i] <= 255) && h == Join(Numerals(ns), '.')
  }

  function Numerals(ns: seq<nat>): (texts: seq<string>)
    ensures |texts| == |ns| && forall i :: 0 <= i < |ns| ==> texts[i] == Decimal(ns[i])
  {
    seq(|ns|, i requires 0 <= i < |ns| => Decimal(ns[i]))
  }

  ghost predicate IsHostText(v6: string -> bool, h: string) {
    IsNameText(h) || IsFourText(h) || exists s :: v6(s) && h == "[" + s + "]"
  }

  // ----- Numerals -----

  lemma NumeralsByExample()
    ensures Decimal(0) == "0" && Decimal(80) == "80" && Decimal(443) == "443" && Decimal(65535) == "65535"
  {
    assert Decimal(4) == "4" && Decimal(44) == "44";
    assert Decimal(6) == "6" && Decimal(65) == "65" && Decimal(655) == "655" && Decimal(6553) == "6553";
  }

  lemma NoLeadingZero(n: nat)
    ensures n > 0 ==> Decimal(n)[0] != '0'
  {
    if n >= 10 {
      NoLeadingZero(n / 10);
    }
  }

  /** Digits without a leading zero are the numeral of their value. */
  lemma {:induction false} NumeralOfValue(s: string)
    requires s != "" && AllDigits(s) && (|s| > 1 ==> s[0] != '0')
    ensures Decimal(DigitsValue(s)) == s && (s[0] != '0' ==> DigitsValue(s) > 0)
    decreases |s|
  {
    var most, last := s[..|s| - 1], s[|s| - 1];
    assert s == most + [last];
    if most == "" {
      assert DigitsValue(most) == 0;
    } else {
      NumeralOfValue(most);
      assert most[0] == s[0];
      assert DigitsValue(s) / 10 == DigitsValue(most) && DigitsValue(s) % 10 == last as int - '0' as int;
    }
  }

  lemma NumeralIsOctet(n: nat)
    requires n <= 255
    ensures IsOctet(Decimal(n))
  {
    DecimalValue(n);
    NoLeadingZero(n);
    assert n / 10 < 10 || |Decimal(n / 10)| <= 2;
  }

  // ----- Hosts, both ways -----

  lemma FourIsText(h: string)
    ensures IsFour(h) <==> IsFourText(h)
  {
    if IsFour(h) {
      var parts := Split(h, '.');
      SplitJoin(h, '.');
      forall i | 0 <= i < 4
        ensures DigitsValue(parts[i]) <= 255 && Decimal(DigitsValue(parts[i])) == parts[i]
      {
        NumeralOfValue(parts[i]);
      }
      var ns := seq(4, i requires 0 <= i < 4 => DigitsValue(parts[i]));
      assert Numerals(ns) == parts;
    }
    if ns: seq<nat> :| |ns| == 4 && (forall i :: 0 <= i < 4 ==> ns[i] <= 255) && h == Join(Numerals(ns), '.') {
      NumeralsAreFour(ns);
    }
  }

  lemma NumeralsAreFour(ns: seq<nat>)
    requires |ns| == 4 && forall i :: 0 <= i < 4 ==> ns[i] <= 255
    ensures IsFour(Join(Numerals(ns), '.'))
  {
    forall i | 0 <= i < 4
      ensures IsOctet(Numerals(ns)[i])
    {
      NumeralIsOctet(ns[i]);
    }
    JoinSplit(Numerals(ns), '.');
  }

  lemma LabelsAreLabels(labels: seq<string>)
    requires labels != []
    ensures AllLabels(labels) <==> AreLabels(labels)
  {
    assert forall i :: 0 <= i < |labels| ==> (IsLabel(labels[i]) <==> IsLabelText(labels[i]));
  }

  /** A joined name does not end in a dot of its own. */
  lemma {:induction false} LabelsEnd(labels: seq<string>)
    requires AreLabels(labels)
    ensures var h := Join(labels, '.'); h != "" && h[|h| - 1] != '.'
  {
    assert IsLabelText(labels[0]);
    if |labels| > 1 {
      LabelsEnd(labels[1..]);
    }
  }

  lemma NameHasLabels(h: string)
    requires AllLabels(Split(TrimRoot(h), '.'))
    ensures exists labels :: AreLabels(labels) && (h == Join(labels, '.') || h == Join(labels, '.') + ".")
  {
    var trimmed := TrimRoot(h);
    SplitJoin(trimmed, '.');
    LabelsAreLabels(Split(trimmed, '.'));
    assert h == trimmed || h == trimmed + ".";
  }

  lemma LabelsMakeName(h: string, labels: seq<string>)
    requires AreLabels(labels) && (h == Join(labels, '.') || h == Join(labels, '.') + ".")
    ensures AllLabels(Split(TrimRoot(h), '.'))
  {
    LabelsEnd(labels);
    assert TrimRoot(h) == Join(labels, '.');
    assert forall i :: 0 <= i < |labels| ==> IsLabelText(labels[i]);
    JoinSplit(labels, '.');
    LabelsAreLabels(labels);
  }

  lemma NameIsText(h: string)
    ensures IsName(h) <==> IsNameText(h)
  {
    assert IsNumeric(h) <==> !exists i :: 0 <= i < |h| && !('0' <= h[i] <= '9') && h[i] != '.';
    if AllLabels(Split(TrimRoot(h), '.')) {
      NameHasLabels(h);
    }
    if labels :| AreLabels(labels) && (h == Join(labels, '.') || h == Join(labels, '.') + ".") {
      LabelsMakeName(h, labels);
    }
  }

  lemma HostIsText(v6: string -> bool, h: string)
    ensures IsHostText(v6, h) <==> exists host :: ValidHost(v6, host) && h == HostText(host)
  {
    NameIsText(h);
    FourIsText(h);
    if IsHostText(v6, h) {
      if IsName(h) {
        assert ValidHost(v6, Name(h)) && h == HostText(Name(h));
      } else if IsFour(h) {
        assert ValidHost(v6, Four(h)) && h == HostText(Four(h));
      } else {
        var s :| v6(s) && h == "[" + s + "]";
        assert ValidHost(v6, Six(s)) && h == HostText(Six(s));
      }
    }
    if host :| ValidHost(v6, host) && h == HostText(host) {
      assert host.Six? ==> v6(host.text) && h == "[" + host.text + "]";
    }
  }

  // ----- Origins -----

  /** Nothing, or a colon and a port other than the one the scheme stands for. */
  ghost predicate IsPortText(p: string, own: nat) {
    p == "" || exists n :: 1 <= n <= 65535 && n != own && p == ":" + Decimal(n)
  }

  /** An origin as it must be written. */
  ghost predicate IsOriginText(v6: string -> bool, raw: string) {
    IsTextWith(v6, "http://", 80, raw) || IsTextWith(v6, "https://", 443, raw)
  }

  ghost predicate IsTextWith(v6: string -> bool, head: string, own: nat, raw: string) {
    exists h, p :: IsHostText(v6, h) && IsPortText(p, own) && raw == head + (h + p)
  }

  function Head(s: Scheme): string { if s.Http? then "http://" else "https://" }

  function Own(s: Scheme): nat { if s.Http? then 80 else 443 }

  lemma PortIsText(scheme: Scheme, p: string)
    ensures IsPortText(p, Own(scheme)) <==> exists port :: ValidPort(scheme, port) && p == PortText(port)
  {
    if p == "" {
      assert ValidPort(scheme, None) && p == PortText(None);
    } else if IsPortText(p, Own(scheme)) {
      var n :| 1 <= n <= 65535 && n != Own(scheme) && p == ":" + Decimal(n);
      assert ValidPort(scheme, Some(n)) && p == PortText(Some(n));
    }
  }

  lemma TextIsSpelling(v6: string -> bool, scheme: Scheme, raw: string)
    ensures IsTextWith(v6, Head(scheme), Own(scheme), raw) <==> exists o :: ValidOrigin(v6, o) && Spelling(o) == raw && o.scheme == scheme
  {
    assert SchemeText(scheme) + "://" == Head(scheme);
    if h, p :| IsHostText(v6, h) && IsPortText(p, Own(scheme)) && raw == Head(scheme) + (h + p) {
      HostIsText(v6, h);
      PortIsText(scheme, p);
      var host :| ValidHost(v6, host) && h == HostText(host);
      var port :| ValidPort(scheme, port) && p == PortText(port);
      var o := Origin(scheme, host, port);
      assert ValidOrigin(v6, o) && Spelling(o) == raw;
    }
    if o :| ValidOrigin(v6, o) && Spelling(o) == raw && o.scheme == scheme {
      HostIsText(v6, HostText(o.host));
      PortIsText(scheme, PortText(o.port));
      assert raw == Head(scheme) + (HostText(o.host) + PortText(o.port));
    }
  }

  lemma CanonicalIsOriginText(v6: string -> bool, raw: string)
    ensures IsCanonical(v6, raw) <==> IsOriginText(v6, raw)
  {
    TextIsSpelling(v6, Http, raw);
    TextIsSpelling(v6, Https, raw);
  }

  /** A value is accepted exactly when it is written as an origin must be. */
  lemma AcceptedIsOriginText(v6: string -> bool, raw: string)
    requires PrintsSixes(v6)
    ensures Read(v6, raw).Some? <==> IsOriginText(v6, raw)
  {
    ReadIsImage(v6, raw);
    CanonicalIsOriginText(v6, raw);
  }

  // ----- The port that is not written -----

  predicate EndsIn(s: string, end: string) { |end| <= |s| && s[|s| - |end|..] == end }

  /** No host text ends in a colon and digits, so what does so is a port. */
  lemma HostHasNoPort(v6: string -> bool, host: Host)
    requires PrintsSixes(v6) && ValidHost(v6, host)
    ensures var h := HostText(host); h != "" && (':' !in h || h[|h| - 1] == ']')
  {
    HostOfText(v6, host);
  }

  lemma EndIsLast(s: string, digits: string)
    requires AllDigits(digits) && EndsIn(s, ":" + digits)
    ensures Last(s, ':') >= 0 && s[Last(s, ':') + 1..] == digits
  {
    var n := |s| - |digits| - 1;
    assert s == s[..n] + s[n..] == s[..n] + [':'] + digits;
    LastAt(s[..n], ':', digits);
  }

  lemma NoDigitsAfterHost(scheme: string, h: string)
    requires ':' !in scheme && h != "" && (':' !in h || h[|h| - 1] == ']')
    ensures var s := scheme + "://" + h; !AllDigits(s[Last(s, ':') + 1..]) && Last(s, ':') < |s| - 1
  {
    var s := scheme + "://" + h;
    if ':' in h {
      assert s[|s| - 1] == ']' && s[Last(s, ':') + 1..][|s| - Last(s, ':') - 2] == ']';
    } else {
      assert s == scheme + [':'] + ("//" + h);
      LastAt(scheme, ':', "//" + h);
      assert s[|scheme| + 1..][0] == '/';
    }
  }

  lemma AfterLastColon(o: Origin)
    requires o.port.Some?
    ensures var raw := Spelling(o); Last(raw, ':') >= 0 && raw[Last(raw, ':') + 1..] == Decimal(o.port.value)
  {
    var raw, before, own := Spelling(o), SchemeText(o.scheme) + "://" + HostText(o.host), Decimal(o.port.value);
    assert raw == before + [':'] + own;
    LastAt(before, ':', own);
    assert raw[|before| + 1..] == own;
  }

  lemma PortIsLast(v6: string -> bool, o: Origin, digits: string)
    requires PrintsSixes(v6) && ValidOrigin(v6, o) && AllDigits(digits) && EndsIn(Spelling(o), ":" + digits)
    ensures o.port.Some? && Decimal(o.port.value) == digits
  {
    EndIsLast(Spelling(o), digits);
    if o.port.None? {
      HostHasNoPort(v6, o.host);
      assert Spelling(o) == SchemeText(o.scheme) + "://" + HostText(o.host);
      NoDigitsAfterHost(SchemeText(o.scheme), HostText(o.host));
    } else {
      AfterLastColon(o);
    }
  }

  lemma OwnPortIsNot(v6: string -> bool, o: Origin, n: nat)
    requires PrintsSixes(v6) && ValidOrigin(v6, o) && o.port != Some(n)
    ensures !EndsIn(Spelling(o), ":" + Decimal(n))
  {
    if EndsIn(Spelling(o), ":" + Decimal(n)) {
      PortIsLast(v6, o, Decimal(n));
      DecimalInjective(o.port.value, n);
    }
  }

  lemma OwnNumerals()
    ensures ":" + Decimal(80) == ":80" && ":" + Decimal(443) == ":443"
  {
    NumeralsByExample();
  }

  lemma SchemeShows(o: Origin)
    ensures Head(o.scheme) <= Spelling(o)
    ensures o.scheme.Http? ==> !(Head(Https) <= Spelling(o))
    ensures o.scheme.Https? ==> !(Head(Http) <= Spelling(o))
  {
    var raw := Spelling(o);
    assert SchemeText(o.scheme) + "://" == Head(o.scheme);
    assert Head(Http)[4] == ':' && Head(Https)[4] == 's' && raw[4] == Head(o.scheme)[4];
  }

  lemma OwnPortIsHidden(v6: string -> bool, raw: string, scheme: Scheme)
    requires PrintsSixes(v6)
    ensures IsCanonical(v6, raw) && Head(scheme) <= raw ==> !EndsIn(raw, ":" + Decimal(Own(scheme)))
  {
    if o :| ValidOrigin(v6, o) && Spelling(o) == raw {
      SchemeShows(o);
      if o.scheme == scheme {
        OwnPortIsNot(v6, o, Own(scheme));
      }
    }
  }

  /** The scheme's own port is never written. */
  lemma OwnPortIsNotWritten(v6: string -> bool, raw: string)
    requires PrintsSixes(v6)
    ensures Read(v6, raw).Some? && "http://" <= raw ==> !EndsIn(raw, ":80")
    ensures Read(v6, raw).Some? && "https://" <= raw ==> !EndsIn(raw, ":443")
  {
    ReadIsImage(v6, raw);
    OwnPortIsHidden(v6, raw, Http);
    OwnPortIsHidden(v6, raw, Https);
    OwnNumerals();
  }

  lemma WrittenIsRead(v6: string -> bool, head: string, own: nat, h: string, p: string)
    requires PrintsSixes(v6) && IsHostText(v6, h) && IsPortText(p, own)
    requires (head == "http://" && own == 80) || (head == "https://" && own == 443)
    ensures Read(v6, head + (h + p)).Some?
  {
    AcceptedIsOriginText(v6, head + (h + p));
  }

  /** Every other port is written and read, and so is an origin without one. */
  lemma OtherPortsAreRead(v6: string -> bool, h: string, n: nat)
    requires PrintsSixes(v6) && IsHostText(v6, h) && 1 <= n <= 65535
    ensures n != 80 ==> Read(v6, "http://" + (h + (":" + Decimal(n)))).Some?
    ensures n != 443 ==> Read(v6, "https://" + (h + (":" + Decimal(n)))).Some?
    ensures Read(v6, "http://" + h).Some? && Read(v6, "https://" + h).Some?
  {
    assert h + "" == h;
    WrittenIsRead(v6, "http://", 80, h, "");
    WrittenIsRead(v6, "https://", 443, h, "");
    if n != 80 {
      WrittenIsRead(v6, "http://", 80, h, ":" + Decimal(n));
    }
    if n != 443 {
      WrittenIsRead(v6, "https://", 443, h, ":" + Decimal(n));
    }
  }

  // ----- The header -----

  /** The header's name, its letters in either case. */
  ghost predicate NamesHeader(key: string) { SameLetters(key, "X-Bytedesk-External-Origin") }

  /** The header has a sole value when one key that names it holds just that, and the others that do hold nothing. */
  lemma SoleValueMeans(h: map<string, seq<string>>, raw: string)
    ensures SoleValue(h, raw) <==>
              exists k :: k in h && NamesHeader(k) && h[k] == [raw] && forall o :: o in h && o != k && NamesHeader(o) ==> h[o] == []
  {
    forall k: string {
      FoldMeans(k, HEADER);
    }
    forall k | k in h
      ensures NoneAmong(h, h.Keys - {k}) <==> forall o :: o in h && o != k && NamesHeader(o) ==> h[o] == []
    {
    }
  }
}
