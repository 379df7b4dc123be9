/** The document pattern grammar: literals, one-segment :name and a terminal one-or-more *name. */
module DocumentPatterns {
  import opened Texts
  import opened JsText

  datatype Segment =
    | Literal(value: Text)
    | Param(name: Text)
    | Star(name: Text)

  // ----- Parsing -----

  predicate IsLiteralUnit(u: Unit) { IsLetter(u) || IsDigit(u) || u in {DOT, UNDERSCORE, TILDE, HYPHEN} }

  predicate IsLiteralText(s: Text) { forall i :: 0 <= i < |s| ==> IsLiteralUnit(s[i]) }

  predicate IsDots(s: Text) { s == [DOT] || s == [DOT, DOT] }

  predicate IsName(s: Text) {
    s != [] && IsLetter(s[0]) && forall i :: 0 <= i < |s| ==> IsLetter(s[i]) || IsDigit(s[i]) || s[i] == UNDERSCORE
  }

  /** One part of a pattern, given the names already taken and whether it is the last part. */
  function ParsePart(part: Text, names: set<Text>, last: bool): Option<Segment> {
    if part == [] || IsDots(part) then None
    else if part[0] == COLON || part[0] == STAR then
      var value := part[1..];
      if !IsName(value) || value in names || (part[0] == STAR && !last) then None
      else if part[0] == COLON then Some(Param(value)) else Some(Star(value))
    else if !IsLiteralText(part) then None
    else Some(Literal(part))
  }

  function NamesOf(seg: Segment): set<Text> {
    if seg.Literal? then {} else {seg.name}
  }

  function ParseParts(parts: seq<Text>, names: set<Text>): Option<seq<Segment>> {
    if parts == [] then Some([])
    else
      match ParsePart(parts[0], names, |parts| == 1)
      case None => None
      case Some(seg) =>
        match ParseParts(parts[1..], names + NamesOf(seg))
        case None => None
        case Some(rest) => Some([seg] + rest)
  }

  /** The segments of a pattern; None when it is not a pattern. */
  function Segments(pattern: Text): Option<seq<Segment>> {
    if pattern == [] || pattern[0] != SLASH || pattern == [SLASH] then None
    else ParseParts(Split(pattern[1..], SLASH), {})
  }

  method DocumentSegments(pattern: Text) returns (r: Option<seq<Segment>>)
    ensures r == Segments(pattern)
  {
    if pattern == [] || pattern[0] != SLASH || pattern == [SLASH] {
      return None;
    }
    var parts := Split(pattern[1..], SLASH);
    var names: set<Text> := {};
    var result: seq<Segment> := [];
    assert parts[0..] == parts && forall rest: seq<Segment> :: result + rest == rest;
    for i := 0 to |parts|
      invariant |result| == i
      invariant ParseParts(parts, {}) ==
                match ParseParts(parts[i..], names) { case None => None case Some(rest) => Some(result + rest) }
    {
      var part := parts[i];
      assert parts[i..][0] == part && parts[i..][1..] == parts[i + 1..];
      if part == [] || IsDots(part) {
        return None;
      }
      var kind := part[0];
      var marked := kind == COLON || kind == STAR;
      var value := if marked then part[1..] else part;
      if marked {
        if !IsName(value) || value in names || (kind == STAR && i != |parts| - 1) {
          return None;
        }
        names := names + {value};
      } else if !IsLiteralText(value) {
        return None;
      } else {
        assert names + {} == names;
      }
      var seg := if !marked then Literal(value) else if kind == COLON then Param(value) else Star(value);
      ghost var before := result;
      result := result + [seg];
      assert forall rest: seq<Segment> :: before + ([seg] + rest) == result + rest;
    }
    assert result + [] == result;
    return Some(result);
  }

  method IsDocumentPath(pattern: Text) returns (ok: bool)
    ensures ok <==> exists segs :: WellFormed(segs) && pattern == Spelling(segs)
  {
    var segs := DocumentSegments(pattern);
    ok := segs.Some?;
    if ok {
      PatternRoundTrip(pattern, segs.value);
    } else {
      forall segs | WellFormed(segs) && pattern == Spelling(segs) ensures false {
        PatternRoundTrip(pattern, segs);
      }
    }
  }

  // ----- The grammar as a predicate on segments, and its spelling -----

  predicate WellFormedSegment(seg: Segment) {
    match seg
    case Literal(value) => value != [] && !IsDots(value) && IsLiteralText(value)
    case Param(name) => IsName(name)
    case Star(name) => IsName(name)
  }

  ghost predicate DistinctNames(segs: seq<Segment>) {
    forall i, j :: 0 <= i < j < |segs| ==> NamesOf(segs[i]) !! NamesOf(segs[j])
  }

  ghost predicate WellFormedFrom(segs: seq<Segment>, names: set<Text>) {
    && (forall i :: 0 <= i < |segs| ==> WellFormedSegment(segs[i]))
    && (forall i :: 0 <= i < |segs| && segs[i].Star? ==> i == |segs| - 1)
    && DistinctNames(segs)
    && (forall i :: 0 <= i < |segs| ==> NamesOf(segs[i]) !! names)
  }

  ghost predicate WellFormed(segs: seq<Segment>) { segs != [] && WellFormedFrom(segs, {}) }

  function Spell(seg: Segment): Text {
    match seg
    case Literal(value) => value
    case Param(name) => [COLON] + name
    case Star(name) => [STAR] + name
  }

  function SpellAll(segs: seq<Segment>): (parts: seq<Text>)
    ensures |parts| == |segs| && forall i :: 0 <= i < |segs| ==> parts[i] == Spell(segs[i])
  {
    if segs == [] then [] else [Spell(segs[0])] + SpellAll(segs[1..])
  }

  function Spelling(segs: seq<Segment>): Text { [SLASH] + Join(SpellAll(segs), SLASH) }

  lemma PartRoundTrip(part: Text, names: set<Text>, last: bool, seg: Segment)
    ensures ParsePart(part, names, last) == Some(seg)
            <==> part == Spell(seg) && WellFormedSegment(seg) && NamesOf(seg) !! names && (seg.Star? ==> last)
  {
    if seg.Literal? && part == seg.value && part != [] {
      assert IsLiteralText(part) ==> IsLiteralUnit(part[0]);
    } else if !seg.Literal? {
      assert Spell(seg)[1..] == seg.name;
      if part != [] && (part[0] == COLON || part[0] == STAR) {
        assert part == [part[0]] + part[1..];
      }
    }
  }

  lemma WellFormedTail(segs: seq<Segment>, names: set<Text>)
    requires segs != []
    ensures WellFormedFrom(segs, names)
            <==> WellFormedSegment(segs[0]) && NamesOf(segs[0]) !! names && (segs[0].Star? ==> |segs| == 1)
                 && WellFormedFrom(segs[1..], names + NamesOf(segs[0]))
  {
    var rest := segs[1..];
    assert forall i :: 0 <= i < |rest| ==> rest[i] == segs[i + 1];
    assert forall i :: 0 < i < |segs| ==> segs[i] == rest[i - 1];
  }

  lemma {:induction false} PartsRoundTrip(parts: seq<Text>, names: set<Text>, segs: seq<Segment>)
    ensures ParseParts(parts, names) == Some(segs) <==> parts == SpellAll(segs) && WellFormedFrom(segs, names)
  {
    if parts == [] || segs == [] {
      return;
    }
    var seg, rest := segs[0], segs[1..];
    PartRoundTrip(parts[0], names, |parts| == 1, seg);
    PartsRoundTrip(parts[1..], names + NamesOf(seg), rest);
    WellFormedTail(segs, names);
    assert segs == [seg] + rest && parts == [parts[0]] + parts[1..];
    assert SpellAll(segs) == [Spell(seg)] + SpellAll(rest);
    assert parts == SpellAll(segs) <==> parts[0] == Spell(seg) && parts[1..] == SpellAll(rest);
    match ParsePart(parts[0], names, |parts| == 1)
    case None =>
    case Some(other) =>
      match ParseParts(parts[1..], names + NamesOf(other))
      case None =>
      case Some(tail) => assert [other] + tail == segs ==> other == seg && tail == rest;
  }

  lemma SpellingsHoldNoSlash(segs: seq<Segment>)
    requires forall i :: 0 <= i < |segs| ==> WellFormedSegment(segs[i])
    ensures NoneHolds(SpellAll(segs), SLASH)
  {
    forall i | 0 <= i < |segs| ensures SLASH !in SpellAll(segs)[i] {
      SpellingHoldsNoSlash(segs[i]);
    }
  }

  lemma SpellingHoldsNoSlash(seg: Segment)
    requires WellFormedSegment(seg)
    ensures SLASH !in Spell(seg)
  {
    if seg.Literal? {
      assert IsLiteralText(seg.value);
    } else {
      assert IsName(seg.name);
    }
  }

  /**
   The parser accepts exactly the spellings of well-formed segment lists, and reads each back: parsing and
   spelling are inverse bijections.
   */
  lemma PatternRoundTrip(pattern: Text, segs: seq<Segment>)
    ensures Segments(pattern) == Some(segs) <==> WellFormed(segs) && pattern == Spelling(segs)
  {
    if pattern == [] || pattern[0] != SLASH {
      return;
    }
    var parts := Split(pattern[1..], SLASH);
    assert pattern == [SLASH] + pattern[1..];
    SplitJoin(pattern[1..], SLASH);
    PartsRoundTrip(parts, {}, segs);
    if pattern == [SLASH] && segs != [] && WellFormed(segs) {
      SpellingIsNotEmpty(segs);
      assert Spelling(segs)[1..] == Join(SpellAll(segs), SLASH);
    }
    if WellFormed(segs) && pattern == Spelling(segs) {
      SpellingsHoldNoSlash(segs);
      JoinSplit(SpellAll(segs), SLASH);
      assert pattern[1..] == Join(SpellAll(segs), SLASH);
    }
  }

  lemma SpellingIsNotEmpty(segs: seq<Segment>)
    requires segs != [] && WellFormedSegment(segs[0])
    ensures Join(SpellAll(segs), SLASH) != []
  {
    assert SpellAll(segs)[0] == Spell(segs[0]) != [];
  }
}
