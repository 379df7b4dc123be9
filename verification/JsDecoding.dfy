/** The URI component decoder accepts exactly the escapes of UTF-8 octets, told by code units and octets. */
module JsDecoding {
  import opened Texts
  import opened JsText

  ghost predicate IsHexOf(u: Unit, h: nat) {
    (h < 10 && u == 0x30 + h) || (10 <= h < 16 && (u == 0x41 + h - 10 || u == 0x61 + h - 10))
  }

  /** The escape of the octet stands at position k, in either letter case. */
  ghost predicate EscapeAt(s: Text, k: nat, octet: nat) {
    |s| >= k + 3 && s[k] == 0x25 && octet < 0x100 && IsHexOf(s[k + 1], octet / 16) && IsHexOf(s[k + 2], octet % 16)
  }

  /** The text starts with the escapes of the octets. */
  ghost predicate EscapesAt(s: Text, octets: seq<nat>) {
    |s| >= 3 * |octets| && forall i :: 0 <= i < |octets| ==> EscapeAt(s, 3 * i, octets[i])
  }

  lemma OctetMeans(s: Text, o: nat)
    ensures Octet(s) == Some(o) <==>
            |s| >= 3 && s[0] == 0x25 && o < 0x100 && IsHexOf(s[1], o / 16) && IsHexOf(s[2], o % 16)
  {
  }

  /** RFC 3629, by example: the ends of each range, and the examples of section 7. */
  lemma Utf8ByExample()
    ensures Utf8(0) == [0x00] && Utf8(0x7F) == [0x7F]
    ensures Utf8(0x80) == [0xC2, 0x80] && Utf8(0x7FF) == [0xDF, 0xBF]
    ensures Utf8(0x800) == [0xE0, 0xA0, 0x80] && Utf8(0xFFFF) == [0xEF, 0xBF, 0xBF]
    ensures Utf8(0x10000) == [0xF0, 0x90, 0x80, 0x80] && Utf8(0x10FFFF) == [0xF4, 0x8F, 0xBF, 0xBF]
    ensures Utf8(0x2262) == [0xE2, 0x89, 0xA2] && Utf8(0x391) == [0xCE, 0x91] && Utf8(0x233B4) == [0xF0, 0xA3, 0x8E, 0xB4]
    ensures Utf16(0x7A) == [0x7A] && Utf16(0x233B4) == [0xD84C, 0xDFB4] && Utf16(0x10FFFF) == [0xDBFF, 0xDFFF]
    ensures !IsScalar(0xD800) && !IsScalar(0xDFFF) && !IsScalar(0x110000) && IsScalar(0xD7FF) && IsScalar(0xE000)
  {
  }

  /** What the decoder reads at an escape: the number of octets of one code point, and the code point. */
  datatype Taken = Malformed | Taken(count: nat, cp: int)

  function Take(s: Text): Taken {
    var first := Octet(s);
    if first.None? then Malformed
    else if first.value < 0x80 then Taken(1, first.value)
    else if Lead(first.value).None? then Malformed
    else
      var lead := Lead(first.value).value;
      var cp := Continuation(s[3..], lead.0, lead.1);
      if cp.None? || cp.value < lead.2 || !IsScalar(cp.value) then Malformed else Taken(lead.0 + 1, cp.value)
  }

  lemma DecodeByTake(s: Text)
    requires s != [] && s[0] == 0x25
    ensures Take(s).Malformed? ==> DecodeComponent(s) == None
    ensures Take(s).Taken? ==>
              |s| >= 3 * Take(s).count && IsScalar(Take(s).cp)
              && DecodeComponent(s) == Prepend(Utf16(Take(s).cp), DecodeComponent(s[3 * Take(s).count..]))
  {
  }

  lemma TailEscapes(s: Text, octets: seq<nat>)
    requires octets != []
    ensures EscapesAt(s, octets) <==> Octet(s) == Some(octets[0]) && EscapesAt(s[3..], octets[1..])
  {
    OctetMeans(s, octets[0]);
    if |s| >= 3 {
      var t, rest := s[3..], octets[1..];
      forall i | 0 <= i < |rest|
        ensures EscapeAt(t, 3 * i, rest[i]) <==> EscapeAt(s, 3 * (i + 1), octets[i + 1])
      {
      }
      if EscapesAt(t, rest) && EscapeAt(s, 0, octets[0]) {
        forall i | 0 <= i < |octets|
          ensures EscapeAt(s, 3 * i, octets[i])
        {
          if i > 0 {
            assert EscapeAt(t, 3 * (i - 1), rest[i - 1]);
          }
        }
      }
      if EscapesAt(s, octets) {
        assert EscapeAt(s, 3 * 0, octets[0]);
      }
    }
  }

  predicate AllFollow(octets: seq<nat>) { forall i :: 0 <= i < |octets| ==> 0x80 <= octets[i] < 0xC0 }

  /** The value bits of following octets, six each, after those already read. */
  function Fold(acc: nat, octets: seq<nat>): nat
    requires AllFollow(octets)
    decreases |octets|
  {
    if octets == [] then acc else Fold(acc * 64 + (octets[0] - 0x80), octets[1..])
  }

  lemma {:induction false} ContinuationOf(s: Text, octets: seq<nat>, acc: nat)
    requires EscapesAt(s, octets) && AllFollow(octets)
    ensures Continuation(s, |octets|, acc) == Some(Fold(acc, octets))
    decreases |octets|
  {
    if octets != [] {
      TailEscapes(s, octets);
      ContinuationOf(s[3..], octets[1..], acc * 64 + (octets[0] - 0x80));
    }
  }

  lemma {:induction false} ContinuationReads(s: Text, k: nat, acc: nat) returns (octets: seq<nat>)
    requires Continuation(s, k, acc).Some?
    ensures |octets| == k && EscapesAt(s, octets) && AllFollow(octets) && Continuation(s, k, acc) == Some(Fold(acc, octets))
    decreases k
  {
    if k == 0 {
      octets := [];
    } else {
      var o := Octet(s).value;
      var rest := ContinuationReads(s[3..], k - 1, acc * 64 + (o - 0x80));
      octets := [o] + rest;
      assert octets[1..] == rest;
      TailEscapes(s, octets);
    }
  }

  lemma FoldOne(acc: nat, a: nat)
    requires a < 64
    ensures Fold(acc, [0x80 + a]) == acc * 64 + a
  {
    assert [0x80 + a][1..] == [];
  }

  lemma FoldTwo(acc: nat, a: nat, b: nat)
    requires a < 64 && b < 64
    ensures Fold(acc, [0x80 + a, 0x80 + b]) == (acc * 64 + a) * 64 + b
  {
    assert [0x80 + a, 0x80 + b][1..] == [0x80 + b];
    FoldOne(acc * 64 + a, b);
  }

  lemma FoldThree(acc: nat, a: nat, b: nat, c: nat)
    requires a < 64 && b < 64 && c < 64
    ensures Fold(acc, [0x80 + a, 0x80 + b, 0x80 + c]) == ((acc * 64 + a) * 64 + b) * 64 + c
  {
    assert [0x80 + a, 0x80 + b, 0x80 + c][1..] == [0x80 + b, 0x80 + c];
    FoldTwo(acc * 64 + a, b, c);
  }

  /** The octets of a code point past ASCII: a lead that announces the rest, whose bits are the code point's. */
  ghost predicate Announces(octets: seq<nat>, cp: int) {
    && |octets| > 1 && AllFollow(octets[1..]) && octets[0] >= 0x80
    && var lead := Lead(octets[0]);
    && lead.Some? && lead.value.0 == |octets| - 1 && cp >= lead.value.2
    && Fold(lead.value.1, octets[1..]) == cp
  }

  lemma Utf8Announces(cp: int)
    requires IsScalar(cp) && cp >= 0x80
    ensures Announces(Utf8(cp), cp)
  {
    var octets := Utf8(cp);
    if cp < 0x800 {
      assert octets[1..] == [0x80 + cp % 64];
      FoldOne(cp / 64, cp % 64);
    } else if cp < 0x10000 {
      assert octets[1..] == [0x80 + cp / 64 % 64, 0x80 + cp % 64];
      FoldTwo(cp / 64 / 64, cp / 64 % 64, cp % 64);
    } else {
      assert octets[1..] == [0x80 + cp / 64 / 64 % 64, 0x80 + cp / 64 % 64, 0x80 + cp % 64];
      FoldThree(cp / 64 / 64 / 64, cp / 64 / 64 % 64, cp / 64 % 64, cp % 64);
    }
  }

  lemma Digits(acc: nat, a: nat)
    requires a < 64
    ensures (acc * 64 + a) / 64 == acc && (acc * 64 + a) % 64 == a
  {
  }

  lemma AnnouncedOne(octets: seq<nat>, cp: int)
    requires IsScalar(cp) && Announces(octets, cp) && |octets| == 2
    ensures octets == Utf8(cp)
  {
    var bits, a := Lead(octets[0]).value.1, octets[1] - 0x80;
    assert octets[1..] == [0x80 + a];
    FoldOne(bits, a);
    Digits(bits, a);
  }

  lemma AnnouncedTwo(octets: seq<nat>, cp: int)
    requires IsScalar(cp) && Announces(octets, cp) && |octets| == 3
    ensures octets == Utf8(cp)
  {
    var bits, a, b := Lead(octets[0]).value.1, octets[1] - 0x80, octets[2] - 0x80;
    assert octets[1..] == [0x80 + a, 0x80 + b];
    FoldTwo(bits, a, b);
    Digits(bits, a);
    Digits(bits * 64 + a, b);
  }

  lemma AnnouncedThree(octets: seq<nat>, cp: int)
    requires IsScalar(cp) && Announces(octets, cp) && |octets| == 4
    ensures octets == Utf8(cp)
  {
    var bits, a, b, c := Lead(octets[0]).value.1, octets[1] - 0x80, octets[2] - 0x80, octets[3] - 0x80;
    assert octets[1..] == [0x80 + a, 0x80 + b, 0x80 + c];
    FoldThree(bits, a, b, c);
    Digits(bits, a);
    Digits(bits * 64 + a, b);
    Digits((bits * 64 + a) * 64 + b, c);
  }

  lemma AnnouncedIsUtf8(octets: seq<nat>, cp: int)
    requires IsScalar(cp) && Announces(octets, cp)
    ensures octets == Utf8(cp)
  {
    if |octets| == 2 {
      AnnouncedOne(octets, cp);
    } else if |octets| == 3 {
      AnnouncedTwo(octets, cp);
    } else {
      AnnouncedThree(octets, cp);
    }
  }

  /** An escape is taken exactly when it spells the UTF-8 octets of a code point: no other octets are accepted. */
  lemma TakeIsExact(s: Text, n: nat, cp: int)
    ensures Take(s) == Taken(n, cp) <==> IsScalar(cp) && n == |Utf8(cp)| && EscapesAt(s, Utf8(cp))
  {
    if Take(s) == Taken(n, cp) {
      TakenIsUtf8(s, n, cp);
    }
    if IsScalar(cp) && n == |Utf8(cp)| && EscapesAt(s, Utf8(cp)) {
      Utf8IsTaken(s, cp);
    }
  }

  lemma TakenIsUtf8(s: Text, n: nat, cp: int)
    requires Take(s) == Taken(n, cp)
    ensures IsScalar(cp) && n == |Utf8(cp)| && EscapesAt(s, Utf8(cp))
  {
    var o := Octet(s).value;
    if o < 0x80 {
      OctetMeans(s, o);
    } else {
      var lead := Lead(o).value;
      var rest := ContinuationReads(s[3..], lead.0, lead.1);
      var octets := [o] + rest;
      assert octets[1..] == rest;
      TailEscapes(s, octets);
      AnnouncedIsUtf8(octets, cp);
    }
  }

  lemma Utf8IsTaken(s: Text, cp: int)
    requires IsScalar(cp) && EscapesAt(s, Utf8(cp))
    ensures Take(s) == Taken(|Utf8(cp)|, cp)
  {
    var octets := Utf8(cp);
    TailEscapes(s, octets);
    if cp >= 0x80 {
      Utf8Announces(cp);
      ContinuationOf(s[3..], octets[1..], Lead(octets[0]).value.1);
    }
  }

  /** The decoder, one code unit or one escaped code point at a time. */
  lemma DecodeIsExact(s: Text, t: Text)
    requires s != []
    ensures s[0] != 0x25 ==> (DecodeComponent(s) == Some(t) <==> t != [] && t[0] == s[0] && DecodeComponent(s[1..]) == Some(t[1..]))
    ensures s[0] == 0x25 ==>
              (DecodeComponent(s) == Some(t) <==>
               exists cp :: IsScalar(cp) && EscapesAt(s, Utf8(cp)) && Utf16(cp) <= t
                            && DecodeComponent(s[3 * |Utf8(cp)|..]) == Some(t[|Utf16(cp)|..]))
  {
    if s[0] != 0x25 {
      PrependMeans([s[0]], DecodeComponent(s[1..]), t);
    } else {
      DecodeByTake(s);
      forall cp | IsScalar(cp) && EscapesAt(s, Utf8(cp))
        ensures Take(s) == Taken(|Utf8(cp)|, cp)
        ensures DecodeComponent(s) == Some(t) <==>
                Utf16(cp) <= t && DecodeComponent(s[3 * |Utf8(cp)|..]) == Some(t[|Utf16(cp)|..])
      {
        TakeIsExact(s, |Utf8(cp)|, cp);
        PrependMeans(Utf16(cp), DecodeComponent(s[3 * |Utf8(cp)|..]), t);
      }
      if Take(s).Taken? {
        TakeIsExact(s, Take(s).count, Take(s).cp);
      }
    }
  }

  lemma PrependMeans(head: Text, tail: Option<Text>, t: Text)
    ensures Prepend(head, tail) == Some(t) <==> head <= t && tail == Some(t[|head|..])
  {
    if head <= t {
      assert t == head + t[|head|..];
    }
    if tail.Some? {
      assert (head + tail.value)[|head|..] == tail.value;
    }
  }
}
