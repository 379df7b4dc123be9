/**
 JavaScript text and the URI component codec that path matching rests on.

 A text is a sequence of UTF-16 code units. DecodeComponent is the decoder of ECMA-262 (percent
 escapes of section 2.1 of RFC 3986 over UTF-8, section 3 of RFC 3629); EncodeComponent is its partner.
 */
module JsText {
  import opened Texts

  type Unit = u: int | 0 <= u < 0x10000

  type Text = seq<Unit>

  const SLASH: Unit := 0x2F
  const COLON: Unit := 0x3A
  const STAR: Unit := 0x2A
  const DOT: Unit := 0x2E
  const PERCENT: Unit := 0x25
  const QUESTION: Unit := 0x3F
  const HASH: Unit := 0x23
  const BACKSLASH: Unit := 0x5C
  const UNDERSCORE: Unit := 0x5F
  const TILDE: Unit := 0x7E
  const HYPHEN: Unit := 0x2D

  predicate IsDigit(u: Unit) { 0x30 <= u <= 0x39 }

  predicate IsLetter(u: Unit) { 0x41 <= u <= 0x5A || 0x61 <= u <= 0x7A }

  predicate IsHigh(u: Unit) { 0xD800 <= u < 0xDC00 }

  predicate IsLow(u: Unit) { 0xDC00 <= u < 0xE000 }

  /** The surrogate range of a regular expression with the u flag: it sees only unpaired surrogates. */
  predicate HasLoneSurrogate(s: Text) {
    if s == [] then false
    else if IsHigh(s[0]) && |s| > 1 && IsLow(s[1]) then HasLoneSurrogate(s[2..])
    else IsHigh(s[0]) || IsLow(s[0]) || HasLoneSurrogate(s[1..])
  }

  // ----- Percent escapes -----

  predicate IsHex(u: Unit) { IsDigit(u) || 0x41 <= u <= 0x46 || 0x61 <= u <= 0x66 }

  function HexValue(u: Unit): (n: nat)
    requires IsHex(u)
    ensures n < 16
  {
    if IsDigit(u) then u - 0x30 else if u <= 0x46 then u - 0x41 + 10 else u - 0x61 + 10
  }

  function HexDigit(n: nat): (u: Unit)
    requires n < 16
    ensures IsHex(u) && HexValue(u) == n
  {
    if n < 10 then 0x30 + n else 0x41 + n - 10
  }

  /** The octet that the escape at the start of s spells, if there is one. */
  function Octet(s: Text): (r: Option<nat>)
    ensures r.Some? ==> |s| >= 3 && r.value < 0x100
  {
    if |s| >= 3 && s[0] == PERCENT && IsHex(s[1]) && IsHex(s[2])
    then Some(16 * HexValue(s[1]) + HexValue(s[2]))
    else None
  }

  function Escape(octet: nat): Text
    requires octet < 0x100
  {
    [PERCENT, HexDigit(octet / 16), HexDigit(octet % 16)]
  }

  /** Folds k escaped continuation octets at the start of s into acc. */
  function Continuation(s: Text, k: nat, acc: nat): (r: Option<nat>)
    ensures r.Some? ==> |s| >= 3 * k
    decreases k
  {
    if k == 0 then Some(acc)
    else
      match Octet(s)
      case None => None
      case Some(o) =>
        if 0x80 <= o < 0xC0 then Continuation(s[3..], k - 1, acc * 64 + (o - 0x80)) else None
  }

  // ----- Code points -----

  predicate IsScalar(cp: int) { 0 <= cp <= 0x10FFFF && !(0xD800 <= cp < 0xE000) }

  function Utf16(cp: int): Text
    requires IsScalar(cp)
  {
    if cp < 0x10000 then [cp]
    else [0xD800 + (cp - 0x10000) / 0x400, 0xDC00 + (cp - 0x10000) % 0x400]
  }

  /** The code point that a surrogate pair spells. */
  function PairValue(high: int, low: int): (cp: int)
    requires 0xD800 <= high < 0xDC00 && 0xDC00 <= low < 0xE000
    ensures IsScalar(cp) && Utf16(cp) == [high, low]
  {
    0x10000 + (high - 0xD800) * 0x400 + (low - 0xDC00)
  }

  /** How many octets follow a UTF-8 lead octet, the value bits it carries, and the least code point it may spell. */
  function Lead(octet: nat): Option<(nat, nat, nat)> {
    if 0xC0 <= octet < 0xE0 then Some((1, octet - 0xC0, 0x80))
    else if 0xE0 <= octet < 0xF0 then Some((2, octet - 0xE0, 0x800))
    else if 0xF0 <= octet < 0xF8 then Some((3, octet - 0xF0, 0x10000))
    else None
  }

  function Utf8(cp: int): (os: seq<nat>)
    requires IsScalar(cp)
    ensures forall i :: 0 <= i < |os| ==> os[i] < 0x100
  {
    if cp < 0x80 then [cp]
    else if cp < 0x800 then [0xC0 + cp / 64, 0x80 + cp % 64]
    else if cp < 0x10000 then [0xE0 + cp / 64 / 64, 0x80 + cp / 64 % 64, 0x80 + cp % 64]
    else [0xF0 + cp / 64 / 64 / 64, 0x80 + cp / 64 / 64 % 64, 0x80 + cp / 64 % 64, 0x80 + cp % 64]
  }

  // ----- The codec -----

  function Prepend(head: Text, tail: Option<Text>): Option<Text> {
    match tail
    case None => None
    case Some(t) => Some(head + t)
  }

  /** decodeURIComponent; None is its URIError. */
  function DecodeComponent(s: Text): Option<Text>
    decreases |s|
  {
    if s == [] then Some([])
    else if s[0] != PERCENT then Prepend([s[0]], DecodeComponent(s[1..]))
    else
      match Octet(s)
      case None => None
      case Some(o) =>
        if o < 0x80 then Prepend([o], DecodeComponent(s[3..]))
        else
          match Lead(o)
          case None => None
          case Some((k, bits, least)) =>
            match Continuation(s[3..], k, bits)
            case None => None
            case Some(cp) =>
              if cp < least || !IsScalar(cp) then None
              else Prepend(Utf16(cp), DecodeComponent(s[3 + 3 * k..]))
  }

  /** The characters encodeURIComponent leaves alone. */
  predicate IsUnreserved(u: Unit) {
    IsLetter(u) || IsDigit(u) || u in {0x2D, 0x5F, 0x2E, 0x21, 0x7E, 0x2A, 0x27, 0x28, 0x29}
  }

  function EscapeAll(octets: seq<nat>): Text
    requires forall i :: 0 <= i < |octets| ==> octets[i] < 0x100
  {
    if octets == [] then [] else Escape(octets[0]) + EscapeAll(octets[1..])
  }

  /** encodeURIComponent on text without unpaired surrogates. */
  function EncodeComponent(s: Text): Text
    requires !HasLoneSurrogate(s)
    decreases |s|
  {
    if s == [] then []
    else if IsUnreserved(s[0]) then [s[0]] + EncodeComponent(s[1..])
    else if IsHigh(s[0]) then
      EscapeAll(Utf8(PairValue(s[0], s[1]))) + EncodeComponent(s[2..])
    else EscapeAll(Utf8(s[0])) + EncodeComponent(s[1..])
  }

  lemma OctetOfEscape(octet: nat, rest: Text)
    requires octet < 0x100
    ensures Octet(Escape(octet) + rest) == Some(octet)
    ensures (Escape(octet) + rest)[3..] == rest
  {
  }

  lemma EscapeAllCons(octet: nat, octets: seq<nat>, rest: Text)
    requires octet < 0x100 && forall i :: 0 <= i < |octets| ==> octets[i] < 0x100
    ensures EscapeAll([octet] + octets) + rest == Escape(octet) + (EscapeAll(octets) + rest)
  {
    assert ([octet] + octets)[1..] == octets;
  }

  lemma ContinuationStep(octet: nat, octets: seq<nat>, rest: Text, k: nat, acc: nat)
    requires 0x80 <= octet < 0xC0 && forall i :: 0 <= i < |octets| ==> octets[i] < 0x100
    ensures Continuation(EscapeAll([octet] + octets) + rest, k + 1, acc)
         == Continuation(EscapeAll(octets) + rest, k, acc * 64 + (octet - 0x80))
  {
    EscapeAllCons(octet, octets, rest);
    OctetOfEscape(octet, EscapeAll(octets) + rest);
  }

  lemma {:induction false} EscapeAllLength(octets: seq<nat>)
    requires forall i :: 0 <= i < |octets| ==> octets[i] < 0x100
    ensures |EscapeAll(octets)| == 3 * |octets|
  {
    if octets != [] {
      EscapeAllLength(octets[1..]);
    }
  }

  lemma OneContinuation(c: nat, rest: Text, acc: nat)
    requires c < 64
    ensures Continuation(EscapeAll([0x80 + c]) + rest, 1, acc) == Some(acc * 64 + c)
  {
    assert [0x80 + c] == [0x80 + c] + [];
    ContinuationStep(0x80 + c, [], rest, 0, acc);
  }

  lemma TwoContinuations(c: nat, d: nat, rest: Text, acc: nat)
    requires c < 64 && d < 64
    ensures Continuation(EscapeAll([0x80 + c, 0x80 + d]) + rest, 2, acc) == Some((acc * 64 + c) * 64 + d)
  {
    assert [0x80 + c, 0x80 + d] == [0x80 + c] + [0x80 + d];
    ContinuationStep(0x80 + c, [0x80 + d], rest, 1, acc);
    OneContinuation(d, rest, acc * 64 + c);
  }

  lemma ThreeContinuations(c: nat, d: nat, e: nat, rest: Text, acc: nat)
    requires c < 64 && d < 64 && e < 64
    ensures Continuation(EscapeAll([0x80 + c, 0x80 + d, 0x80 + e]) + rest, 3, acc)
         == Some(((acc * 64 + c) * 64 + d) * 64 + e)
  {
    assert [0x80 + c, 0x80 + d, 0x80 + e] == [0x80 + c] + [0x80 + d, 0x80 + e];
    ContinuationStep(0x80 + c, [0x80 + d, 0x80 + e], rest, 2, acc);
    TwoContinuations(d, e, rest, acc * 64 + c);
  }

  /** What the octets after a lead octet must amount to for cp to come back. */
  ghost predicate Spells(os: seq<nat>, cp: int, rest: Text)
    requires forall i :: 0 <= i < |os| ==> os[i] < 0x100
  {
    && |os| >= 2
    && os[0] >= 0x80
    && match Lead(os[0])
       case None => false
       case Some((k, bits, least)) =>
         |os| == k + 1 && cp >= least && Continuation(EscapeAll(os[1..]) + rest, k, bits) == Some(cp)
  }

  lemma Utf8OfTwo(cp: int, rest: Text)
    requires 0x80 <= cp < 0x800
    ensures Spells(Utf8(cp), cp, rest)
  {
    var os := Utf8(cp);
    assert os[1..] == [0x80 + cp % 64];
    OneContinuation(cp % 64, rest, cp / 64);
  }

  lemma Utf8OfThree(cp: int, rest: Text)
    requires 0x800 <= cp < 0x10000 && IsScalar(cp)
    ensures Spells(Utf8(cp), cp, rest)
  {
    var os := Utf8(cp);
    var q := cp / 64;
    assert os[1..] == [0x80 + q % 64, 0x80 + cp % 64];
    TwoContinuations(q % 64, cp % 64, rest, q / 64);
  }

  lemma Utf8OfFour(cp: int, rest: Text)
    requires 0x10000 <= cp <= 0x10FFFF
    ensures Spells(Utf8(cp), cp, rest)
  {
    var os := Utf8(cp);
    var q := cp / 64;
    var p := q / 64;
    assert os[1..] == [0x80 + p % 64, 0x80 + q % 64, 0x80 + cp % 64];
    ThreeContinuations(p % 64, q % 64, cp % 64, rest, p / 64);
  }

  /** Decoding starts by undoing the escape of any one code point. */
  lemma DecodeOfEscaped(cp: int, rest: Text)
    requires IsScalar(cp)
    ensures DecodeComponent(EscapeAll(Utf8(cp)) + rest) == Prepend(Utf16(cp), DecodeComponent(rest))
  {
    var os := Utf8(cp);
    var tail := EscapeAll(os[1..]) + rest;
    assert os == [os[0]] + os[1..];
    EscapeAllCons(os[0], os[1..], rest);
    OctetOfEscape(os[0], tail);
    var s := EscapeAll(os) + rest;
    assert s == Escape(os[0]) + tail && s[0] == PERCENT && s[3..] == tail;
    if cp < 0x80 {
      assert os[1..] == [] && tail == rest;
    } else {
      if cp < 0x800 {
        Utf8OfTwo(cp, rest);
      } else if cp < 0x10000 {
        Utf8OfThree(cp, rest);
      } else {
        Utf8OfFour(cp, rest);
      }
      EscapeAllLength(os);
      assert s[3 * |os|..] == rest;
    }
  }

  /** Decoding undoes encoding, for every text the encoder takes. */
  lemma {:induction false} DecodeEncode(s: Text)
    requires !HasLoneSurrogate(s)
    ensures DecodeComponent(EncodeComponent(s)) == Some(s)
    decreases |s|
  {
    if s == [] {
    } else if IsUnreserved(s[0]) {
      DecodeEncode(s[1..]);
      var e := [s[0]] + EncodeComponent(s[1..]);
      assert e[1..] == EncodeComponent(s[1..]);
      assert [s[0]] + s[1..] == s;
    } else if IsHigh(s[0]) {
      var cp := PairValue(s[0], s[1]);
      DecodeEncode(s[2..]);
      DecodeOfEscaped(cp, EncodeComponent(s[2..]));
      assert Utf16(cp) + s[2..] == s;
    } else {
      DecodeEncode(s[1..]);
      DecodeOfEscaped(s[0], EncodeComponent(s[1..]));
      assert Utf16(s[0]) + s[1..] == s;
    }
  }

  predicate IsEncoded(u: Unit) { IsUnreserved(u) || u == PERCENT || IsHex(u) }

  lemma {:induction false} EscapeAllEncoded(octets: seq<nat>)
    requires forall i :: 0 <= i < |octets| ==> octets[i] < 0x100
    ensures forall u :: u in EscapeAll(octets) ==> IsEncoded(u)
  {
    if octets != [] {
      EscapeAllEncoded(octets[1..]);
    }
  }

  /** Encoded text holds no separator, query, fragment or backslash. */
  lemma {:induction false} EncodeIsEncoded(s: Text)
    requires !HasLoneSurrogate(s)
    ensures forall u :: u in EncodeComponent(s) ==> IsEncoded(u)
    decreases |s|
  {
    if s == [] {
    } else if IsUnreserved(s[0]) {
      EncodeIsEncoded(s[1..]);
    } else if IsHigh(s[0]) {
      EscapeAllEncoded(Utf8(PairValue(s[0], s[1])));
      EncodeIsEncoded(s[2..]);
    } else {
      EscapeAllEncoded(Utf8(s[0]));
      EncodeIsEncoded(s[1..]);
    }
  }
}
