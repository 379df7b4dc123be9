/** What patterns and paths are accepted, told by code units alone. */
module DocumentUnits {
  import opened Texts
  import opened JsText
  import opened DocumentPatterns
  import opened DocumentPaths

  // ----- Path segments -----

  /** Surrogates come in pairs, a high one before a low one. */
  ghost predicate Paired(s: Text) {
    && (forall i :: 0 <= i < |s| && 0xD800 <= s[i] < 0xDC00 ==> i + 1 < |s| && 0xDC00 <= s[i + 1] < 0xE000)
    && (forall i :: 0 <= i < |s| && 0xDC00 <= s[i] < 0xE000 ==> i > 0 && 0xD800 <= s[i - 1] < 0xDC00)
  }

  /** A text fit to be a path segment: not empty, not a dot or two, no slash, backslash or control, no stray surrogate. */
  ghost predicate Clean(value: Text) {
    && value != [] && value != [0x2E] && value != [0x2E, 0x2E]
    && (forall i :: 0 <= i < |value| ==>
          value[i] != 0x2F && value[i] != 0x5C && value[i] >= 0x20 && !(0x7F <= value[i] <= 0x9F))
    && Paired(value)
  }

  lemma {:induction false} LoneMeans(s: Text)
    ensures HasLoneSurrogate(s) <==> !Paired(s)
    decreases |s|
  {
    if s == [] {
    } else if 0xD800 <= s[0] < 0xDC00 && |s| > 1 && 0xDC00 <= s[1] < 0xE000 {
      LoneMeans(s[2..]);
      PairedAfterPair(s);
    } else if 0xD800 <= s[0] < 0xE000 {
    } else {
      LoneMeans(s[1..]);
      PairedAfterOne(s);
    }
  }

  lemma PairedAfterPair(s: Text)
    requires |s| > 1 && 0xD800 <= s[0] < 0xDC00 && 0xDC00 <= s[1] < 0xE000
    ensures Paired(s) <==> Paired(s[2..])
  {
    var t := s[2..];
    assert forall i :: 0 <= i < |t| ==> t[i] == s[i + 2];
    assert forall i :: 2 <= i < |s| ==> s[i] == t[i - 2];
  }

  lemma PairedAfterOne(s: Text)
    requires s != [] && !(0xD800 <= s[0] < 0xE000)
    ensures Paired(s) <==> Paired(s[1..])
  {
    var t := s[1..];
    assert forall i :: 0 <= i < |t| ==> t[i] == s[i + 1];
    assert forall i :: 1 <= i < |s| ==> s[i] == t[i - 1];
  }

  /** A part of a path is admitted exactly when it decodes to a clean text, and then as that text. */
  lemma AdmittedAreClean(part: Text, value: Text)
    ensures AdmitPart(part) == Some(value) <==> DecodeComponent(part) == Some(value) && Clean(value)
  {
    LoneMeans(value);
  }

  /**
   Which paths have values, and which: the path starts with a slash, holds no question mark, hash or backslash, and each
   of its parts decodes to a clean text.
   */
  lemma ValuesAreExactly(path: Text, values: seq<Text>)
    ensures Values(path) == Some(values) <==>
            && path != [] && path[0] == 0x2F && 0x3F !in path && 0x23 !in path && 0x5C !in path
            && var parts := Split(path[1..], 0x2F);
            && |values| == |parts|
            && forall i :: 0 <= i < |parts| ==> DecodeComponent(parts[i]) == Some(values[i]) && Clean(values[i])
  {
    if path != [] {
      var parts := Split(path[1..], 0x2F);
      AdmitMeans(parts, values);
      forall i | 0 <= i < |parts| && i < |values|
        ensures AdmitPart(parts[i]) == Some(values[i]) <==> DecodeComponent(parts[i]) == Some(values[i]) && Clean(values[i])
      {
        AdmittedAreClean(parts[i], values[i]);
      }
    }
  }

  /** Nothing but clean texts comes out of a match: each parameter is one, or several joined by slashes. */
  lemma MatchedAreClean(pattern: Text, path: Text, params: Params, name: Text)
    requires Match(pattern, path) == Some(params) && name in params
    ensures forall k :: 0 <= k < |Split(params[name], 0x2F)| ==> Clean(Split(params[name], 0x2F)[k])
  {
    var segs := Segments(pattern).value;
    MatchRebuilds(pattern, path, segs, params);
    NamesAt(segs);
    var i :| 0 <= i < |segs| && name in NamesOf(segs[i]);
    var parts := Split(params[name], 0x2F);
    if segs[i].Param? {
      assert Admissible(Expand(segs[i], params)[0]);
      CleanHasNoSlash(params[name]);
      SplitOne(params[name], 0x2F);
    }
    forall k | 0 <= k < |parts|
      ensures Clean(parts[k])
    {
      assert Expand(segs[i], params) == parts;
      assert Admissible(parts[k]);
      LoneMeans(parts[k]);
    }
  }

  lemma CleanHasNoSlash(value: Text)
    requires Admissible(value)
    ensures 0x2F !in value
  {
  }

  // ----- Patterns -----

  ghost predicate IsNameText(s: Text) {
    && s != [] && (0x41 <= s[0] <= 0x5A || 0x61 <= s[0] <= 0x7A)
    && forall i :: 0 <= i < |s| ==>
         0x41 <= s[i] <= 0x5A || 0x61 <= s[i] <= 0x7A || 0x30 <= s[i] <= 0x39 || s[i] == 0x5F
  }

  /** How a part of a pattern is written: a literal as itself, :name and *name with their mark. */
  ghost predicate Writes(part: Text, seg: Segment) {
    match seg
    case Literal(value) =>
      && part == value && value != [] && value != [0x2E] && value != [0x2E, 0x2E]
      && forall i :: 0 <= i < |value| ==>
           || 0x41 <= value[i] <= 0x5A || 0x61 <= value[i] <= 0x7A || 0x30 <= value[i] <= 0x39
           || value[i] == 0x2E || value[i] == 0x5F || value[i] == 0x7E || value[i] == 0x2D
    case Param(name) => part == [0x3A] + name && IsNameText(name)
    case Star(name) => part == [0x2A] + name && IsNameText(name)
  }

  lemma SpellingWrites(part: Text, seg: Segment)
    ensures Writes(part, seg) <==> part == Spell(seg) && WellFormedSegment(seg)
    ensures Writes(part, seg) ==> 0x2F !in part
  {
    if Writes(part, seg) {
      SpellingHoldsNoSlash(seg);
    }
  }

  lemma PartsWrite(parts: seq<Text>, segs: seq<Segment>)
    ensures (|parts| == |segs| && forall i :: 0 <= i < |segs| ==> Writes(parts[i], segs[i])) <==>
            parts == SpellAll(segs) && forall i :: 0 <= i < |segs| ==> WellFormedSegment(segs[i])
  {
    forall i | 0 <= i < |segs| && i < |parts|
      ensures Writes(parts[i], segs[i]) <==> parts[i] == SpellAll(segs)[i] && WellFormedSegment(segs[i])
    {
      SpellingWrites(parts[i], segs[i]);
    }
  }

  lemma SpellingSplits(pattern: Text, segs: seq<Segment>)
    requires pattern != [] && pattern[0] == 0x2F && segs != []
    requires forall i :: 0 <= i < |segs| ==> WellFormedSegment(segs[i])
    ensures pattern == Spelling(segs) <==> Split(pattern[1..], 0x2F) == SpellAll(segs)
  {
    SpellingsHoldNoSlash(segs);
    JoinSplit(SpellAll(segs), 0x2F);
    SplitJoin(pattern[1..], 0x2F);
    SlashFirst(pattern, Join(SpellAll(segs), 0x2F));
  }

  lemma SlashFirst(pattern: Text, joined: Text)
    requires pattern != [] && pattern[0] == 0x2F
    ensures pattern == [0x2F] + joined <==> pattern[1..] == joined
  {
    assert pattern == [0x2F] + pattern[1..];
    assert ([0x2F] + joined)[1..] == joined;
  }

  lemma OrderMeans(segs: seq<Segment>)
    ensures WellFormedFrom(segs, {}) <==>
            && (forall i :: 0 <= i < |segs| ==> WellFormedSegment(segs[i]))
            && (forall i :: 0 <= i < |segs| - 1 ==> !segs[i].Star?)
            && forall i, j :: 0 <= i < j < |segs| && !segs[i].Literal? && !segs[j].Literal? ==> segs[i].name != segs[j].name
  {
    forall i, j | 0 <= i < j < |segs|
      ensures NamesOf(segs[i]) !! NamesOf(segs[j]) <==>
              (!segs[i].Literal? && !segs[j].Literal? ==> segs[i].name != segs[j].name)
    {
    }
  }

  /** Which texts are patterns, and of which segments: a slash before each part, names once each, a star only last. */
  lemma PatternsAreExactly(pattern: Text, segs: seq<Segment>)
    ensures Segments(pattern) == Some(segs) <==>
            && pattern != [] && pattern[0] == 0x2F
            && var parts := Split(pattern[1..], 0x2F);
            && |parts| == |segs|
            && (forall i :: 0 <= i < |segs| ==> Writes(parts[i], segs[i]))
            && (forall i :: 0 <= i < |segs| - 1 ==> !segs[i].Star?)
            && forall i, j :: 0 <= i < j < |segs| && !segs[i].Literal? && !segs[j].Literal? ==> segs[i].name != segs[j].name
  {
    PatternRoundTrip(pattern, segs);
    OrderMeans(segs);
    if pattern != [] && pattern[0] == 0x2F {
      PartsWrite(Split(pattern[1..], 0x2F), segs);
      if segs != [] && forall i :: 0 <= i < |segs| ==> WellFormedSegment(segs[i]) {
        SpellingSplits(pattern, segs);
      }
    }
  }
}
