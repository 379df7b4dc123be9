/** White space, fields and verbs of the wire, told by the characters they encode. */
module WireTexts {
  import opened Texts
  import opened Wire
  import opened BrokerHeaders
  import JsText

  // ----- White space -----

  /** The bytes of one character. */
  function Bytes(c: char): string
    requires JsText.IsScalar(c as int) && c as int < 0x10000
  {
    var os := JsText.Utf8(c as int);
    seq(|os|, i requires 0 <= i < |os| => if os[i] < 256 then os[i] as char else ' ')
  }

  /** The text is one white-space character. */
  ghost predicate IsWhite(t: string) {
    exists c: char :: IsSpace(c) && Bytes(c) == t
  }

  /** It starts with one. */
  ghost predicate StartsWhite(s: string) { exists n :: 0 < n <= |s| && IsWhite(s[..n]) }

  lemma BytesOfSpace(c: char)
    requires IsSpace(c)
    ensures Bytes(c) != "" && SpaceLength(Bytes(c)) == |Bytes(c)| <= 3
  {
    assert JsText.IsScalar(c as int);
  }

  lemma WhiteOne(t: string)
    requires |t| == 1 && IsAsciiSpace(t[0])
    ensures IsWhite(t)
  {
    assert IsSpace(t[0]) && Bytes(t[0]) == t;
  }

  lemma WhiteTwo(t: string)
    requires |t| == 2 && t[0] == 0xC2 as char && t[1] as int in {0x85, 0xA0}
    ensures IsWhite(t)
  {
    var c := t[1];
    assert JsText.Utf8(c as int) == [0xC2, c as int];
    assert IsSpace(c) && Bytes(c) == t;
  }

  lemma WhiteThree(t: string)
    requires |t| == 3 && IsWideSpace(t[0] as int, t[1] as int, t[2] as int)
    ensures IsWhite(t)
  {
    var n := 0x1000 * (t[0] as int - 0xE0) + 0x40 * (t[1] as int - 0x80) + (t[2] as int - 0x80);
    var c := n as char;
    assert IsSpace(c);
    assert JsText.Utf8(n) == [t[0] as int, t[1] as int, t[2] as int];
    assert Bytes(c) == t;
  }

  lemma SpaceIsWhite(t: string)
    ensures t != "" && SpaceLength(t) == |t| <==> IsWhite(t)
  {
    if t != "" && SpaceLength(t) == |t| {
      if |t| == 1 {
        WhiteOne(t);
      } else if |t| == 2 {
        WhiteTwo(t);
      } else {
        WhiteThree(t);
      }
    }
    if c: char :| IsSpace(c) && Bytes(c) == t {
      BytesOfSpace(c);
    }
  }

  lemma SpacePrefix(s: string, n: nat)
    requires 0 < n <= |s|
    ensures SpaceLength(s) == n <==> SpaceLength(s[..n]) == n
  {
  }

  /** White space at the start is as long as the one white-space character there. */
  lemma SpaceLengthMeans(s: string)
    ensures forall n :: 0 < n <= |s| ==> (SpaceLength(s) == n <==> IsWhite(s[..n]))
    ensures SpaceLength(s) > 0 <==> StartsWhite(s)
  {
    forall n | 0 < n <= |s|
      ensures SpaceLength(s) == n <==> IsWhite(s[..n])
    {
      SpacePrefix(s, n);
      SpaceIsWhite(s[..n]);
    }
    if SpaceLength(s) > 0 {
      assert IsWhite(s[..SpaceLength(s)]);
    }
  }

  // ----- Trimming -----

  /** White-space characters one after the other. */
  predicate AllWhite(s: string)
    decreases |s|
  {
    s == "" || (SpaceLength(s) > 0 && AllWhite(s[SpaceLength(s)..]))
  }

  /** The text ends in a white-space character. */
  ghost predicate EndsWhite(s: string) { exists k :: 0 <= k < |s| && SpaceLength(s[k..]) == |s| - k }

  lemma SpaceStays(s: string, t: string)
    requires SpaceLength(s) > 0
    ensures SpaceLength(s + t) == SpaceLength(s)
  {
  }

  lemma {:induction false} AllWhiteSnoc(s: string, t: string)
    requires AllWhite(s) && t != "" && SpaceLength(t) == |t|
    ensures AllWhite(s + t)
    decreases |s|
  {
    if s == "" {
      assert s + t == t && t[|t|..] == "";
    } else {
      var n := SpaceLength(s);
      SpaceStays(s, t);
      AllWhiteSnoc(s[n..], t);
      assert (s + t)[n..] == s[n..] + t;
    }
  }

  lemma LastSpaceIsWhite(s: string)
    requires LastSpaceLength(s) > 0
    ensures SpaceLength(s[|s| - LastSpaceLength(s)..]) == LastSpaceLength(s)
  {
    assert IsAsciiSpace(s[|s| - 1]) ==> SpaceLength(s[|s| - 1..]) == 1;
  }

  lemma SpaceIsShort(s: string)
    ensures SpaceLength(s) <= 3 && (SpaceLength(s) == 1 ==> IsAsciiSpace(s[0]))
  {
  }

  lemma LastSpaceLengthMeans(s: string)
    requires LastSpaceLength(s) == 0
    ensures !EndsWhite(s)
  {
    forall k | 0 <= k < |s|
      ensures SpaceLength(s[k..]) != |s| - k
    {
      SpaceIsShort(s[k..]);
    }
  }

  lemma Cut(s: string, n: nat, gap: string, rest: string)
    requires n <= |s| && s[n..] == gap + rest
    ensures s == s[..n] + gap + rest
  {
  }

  lemma GapGrows(s: string, gap: string)
    requires SpaceLength(s) > 0 && AllWhite(gap)
    ensures AllWhite(s[..SpaceLength(s)] + gap)
  {
    var n := SpaceLength(s);
    SpacePrefix(s, n);
    SpaceStays(s[..n], gap);
    assert (s[..n] + gap)[n..] == gap;
  }

  lemma {:induction false} TrimLeftMeans(s: string) returns (left: string)
    ensures s == left + TrimLeft(s) && AllWhite(left) && SpaceLength(TrimLeft(s)) == 0
    decreases |s|
  {
    var n := SpaceLength(s);
    if n == 0 {
      left := "";
    } else {
      var later := TrimLeftMeans(s[n..]);
      GapGrows(s, later);
      Cut(s, n, later, TrimLeft(s));
      left := s[..n] + later;
    }
  }

  lemma CutLast(s: string, n: nat, rest: string)
    requires n <= |s| && AllWhite(rest) && SpaceLength(s[n..]) == |s| - n > 0
    ensures AllWhite(rest + s[n..]) && forall r: string :: s[..n] == r + rest ==> s == r + (rest + s[n..])
  {
    AllWhiteSnoc(rest, s[n..]);
  }

  lemma {:induction false} TrimRightMeans(s: string) returns (right: string)
    ensures s == TrimRight(s) + right && AllWhite(right) && !EndsWhite(TrimRight(s))
    decreases |s|
  {
    var n := |s| - LastSpaceLength(s);
    if n == |s| {
      LastSpaceLengthMeans(s);
      right := "";
    } else {
      LastSpaceIsWhite(s);
      var rest := TrimRightMeans(s[..n]);
      CutLast(s, n, rest);
      right := rest + s[n..];
    }
  }

  lemma StartOf(s: string, t: string)
    requires SpaceLength(s + t) == 0
    ensures SpaceLength(s) == 0
  {
    if SpaceLength(s) > 0 {
      SpaceStays(s, t);
    }
  }

  /** Trimming takes white space off both ends, all of it and nothing else. */
  lemma TrimMeans(s: string) returns (left: string, right: string)
    ensures s == left + Trim(s) + right && AllWhite(left) && AllWhite(right)
    ensures SpaceLength(Trim(s)) == 0 && !EndsWhite(Trim(s))
  {
    left := TrimLeftMeans(s);
    right := TrimRightMeans(TrimLeft(s));
    Assoc(left, Trim(s), right);
    StartOf(Trim(s), right);
  }

  // ----- Fields -----

  predicate NoneWhite(s: string, n: nat)
    requires n <= |s|
  {
    forall k :: 0 <= k < n ==> SpaceLength(s[k..]) == 0
  }

  /** White space, then the first field up to the next white space or the end, and so on; white space at the end is no field. */
  ghost predicate Parted(s: string, fields: seq<string>)
    decreases |fields|
  {
    exists gap, rest ::
      s == gap + rest && AllWhite(gap)
      && if fields == [] then rest == ""
         else fields[0] != "" && fields[0] <= rest && NoneWhite(rest, |fields[0]|)
              && (|rest| == |fields[0]| || SpaceLength(rest[|fields[0]|..]) > 0)
              && Parted(rest[|fields[0]|..], fields[1..])
  }

  lemma {:induction false} WordLengthMeans(s: string)
    ensures NoneWhite(s, WordLength(s)) && (WordLength(s) < |s| ==> SpaceLength(s[WordLength(s)..]) > 0)
  {
    if s != "" && SpaceLength(s) == 0 {
      WordLengthMeans(s[1..]);
      forall k | 0 <= k < WordLength(s)
        ensures SpaceLength(s[k..]) == 0
      {
        if k > 0 {
          assert s[1..][k - 1..] == s[k..];
        }
      }
      assert s[1..][WordLength(s) - 1..] == s[WordLength(s)..];
    }
  }

  lemma {:induction false} FieldsAfterGap(s: string) returns (gap: string, rest: string)
    ensures s == gap + rest && AllWhite(gap) && SpaceLength(rest) == 0 && Fields(rest) == Fields(s)
    decreases |s|
  {
    var n := SpaceLength(s);
    if s == "" || n == 0 {
      gap, rest := "", s;
    } else {
      var later;
      later, rest := FieldsAfterGap(s[n..]);
      GapGrows(s, later);
      Cut(s, n, later, rest);
      gap := s[..n] + later;
    }
  }

  /** The fields of any line are the runs between its white space. */
  lemma {:induction false} FieldsMeans(s: string)
    ensures Parted(s, Fields(s))
    decreases |s|
  {
    var gap, rest := FieldsAfterGap(s);
    if rest != "" {
      WordLengthMeans(rest);
      var n := WordLength(rest);
      FieldsMeans(rest[n..]);
      assert Fields(s)[1..] == Fields(rest[n..]) && Fields(s)[0] == rest[..n];
    }
    assert s == gap + rest && AllWhite(gap);
  }

  // ----- Verbs -----

  /** The characters whose upper case is the capital letter: itself, its small letter, and the dotless i and the long s. */
  predicate IsCaseOf(u: char, capital: char) {
    || u == capital || u as int == capital as int + 32
    || (capital == 'I' && u == '\U{0131}') || (capital == 'S' && u == '\U{017F}')
  }

  predicate AllCapitals(verb: string) { forall i :: 0 <= i < |verb| ==> 'A' <= verb[i] <= 'Z' }

  /** The word spells the verb, each letter in any case. */
  ghost predicate SpellsVerb(word: string, verb: string)
    decreases |verb|
  {
    if verb == "" then word == ""
    else
      exists u: char, rest ::
        IsScalarChar(u) && IsCaseOf(u, verb[0]) && word == Bytes(u) + rest && SpellsVerb(rest, verb[1..])
  }

  predicate IsScalarChar(u: char) { JsText.IsScalar(u as int) && u as int < 0x10000 }

  lemma BytesOfCase(u: char, capital: char, rest: string)
    requires 'A' <= capital <= 'Z' && IsScalarChar(u) && IsCaseOf(u, capital)
    ensures Upper(Bytes(u) + rest) == [capital] + Upper(rest)
  {
    var s := Bytes(u) + rest;
    if u == '\U{0131}' || u == '\U{017F}' {
      assert JsText.Utf8(0x131) == [0xC4, 0xB1] && JsText.Utf8(0x17F) == [0xC5, 0xBF];
      assert s[2..] == rest;
    } else {
      assert Bytes(u) == [u] && s[1..] == rest;
    }
  }

  lemma FirstCase(word: string, verb: string) returns (u: char, rest: string)
    requires verb != "" && AllCapitals(verb) && Upper(word) == verb
    ensures IsScalarChar(u) && IsCaseOf(u, verb[0]) && word == Bytes(u) + rest && Upper(rest) == verb[1..]
  {
    if |word| >= 2 && word[0] == 0xC4 as char && word[1] == 0xB1 as char {
      u, rest := '\U{0131}', word[2..];
      assert JsText.Utf8(0x131) == [0xC4, 0xB1];
    } else if |word| >= 2 && word[0] == 0xC5 as char && word[1] == 0xBF as char {
      u, rest := '\U{017F}', word[2..];
      assert JsText.Utf8(0x17F) == [0xC5, 0xBF];
    } else {
      u, rest := word[0], word[1..];
      assert UpperChar(u) == verb[0];
      assert JsText.Utf8(u as int) == [u as int];
    }
  }

  lemma {:induction false} UpperMeans(word: string, verb: string)
    requires AllCapitals(verb)
    ensures Upper(word) == verb <==> SpellsVerb(word, verb)
    decreases |verb|
  {
    if verb != "" {
      if Upper(word) == verb {
        var u, rest := FirstCase(word, verb);
        UpperMeans(rest, verb[1..]);
      }
      if u: char, rest :| IsScalarChar(u) && IsCaseOf(u, verb[0]) && word == Bytes(u) + rest && SpellsVerb(rest, verb[1..]) {
        UpperMeans(rest, verb[1..]);
        BytesOfCase(u, verb[0], rest);
      }
    }
  }

  /** What a line does is decided by its first word, in any letter case; a line that starts with no verb is passed over. */
  lemma VerbsAreRead(line: string, input: string)
    ensures var word, rest, next := Before(line, ' '), After(line, ' '), TakeLine(line, input);
            && (SpellsVerb(word, "CONNECT") ==> next == Took(Connected, input))
            && (SpellsVerb(word, "PING") ==> next == Took(Pinged, input))
            && (SpellsVerb(word, "SUB") ==> next == Took(TakeSub(rest), input))
            && (SpellsVerb(word, "UNSUB") ==> next == Took(Unsubscribed(Before(rest, ' ')), input))
            && (SpellsVerb(word, "PUB") ==> next == TakePub(rest, false, input))
            && (SpellsVerb(word, "HPUB") ==> next == TakePub(rest, true, input))
            && ((forall verb :: verb in ["CONNECT", "PING", "SUB", "UNSUB", "PUB", "HPUB"] ==> !SpellsVerb(word, verb)) ==>
                  next == Took(Nothing, input))
  {
    var word := Before(line, ' ');
    UpperMeans(word, "CONNECT");
    UpperMeans(word, "PING");
    UpperMeans(word, "SUB");
    UpperMeans(word, "UNSUB");
    UpperMeans(word, "PUB");
    UpperMeans(word, "HPUB");
    assert line == "" ==> word == "" && Upper("") == "";
  }

  // ----- Crashes -----

  /** A publish crashes exactly when its declared length, plus two, is no buffer length, or is below two and the stream has that much. */
  lemma PublishCrashes(head: string, withHeaders: bool, input: string)
    ensures TakePub(head, withHeaders, input).Crash? <==>
              match DeclaredBy(Fields(head), withHeaders)
              case None => false
              case Some(d) => d.total < -2 || d.total > 0x7FFF_FFFF_FFFF_FFFD || (d.total < 0 && |input| >= d.total + 2)
  {
  }
}
