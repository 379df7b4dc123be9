/** Building paths: escaping the rebuilt values of a pattern, and the witness that two patterns share. */
module DocumentRoundTrips {
  import opened Texts
  import opened JsText
  import opened DocumentPatterns
  import opened DocumentPaths

  // ----- Escaping -----

  function EncodeAll(values: seq<Text>): (parts: seq<Text>)
    requires AllAdmissible(values)
    ensures |parts| == |values|
    ensures forall i :: 0 <= i < |values| ==> Admissible(values[i]) && parts[i] == EncodeComponent(values[i])
  {
    seq(|values|, i requires 0 <= i < |values| => assert Admissible(values[i]); EncodeComponent(values[i]))
  }

  /** The escaped pathname that spells a list of segment values. */
  function EscapePath(values: seq<Text>): Text
    requires AllAdmissible(values)
  {
    [SLASH] + Join(EncodeAll(values), SLASH)
  }

  lemma EncodedParts(values: seq<Text>)
    requires AllAdmissible(values) && values != []
    ensures NoneHolds(EncodeAll(values), SLASH) && IsEscapedPath(EscapePath(values))
  {
    var parts := EncodeAll(values);
    forall i, u | 0 <= i < |parts| && u in parts[i] ensures IsEncoded(u) {
      EncodeIsEncoded(values[i]);
    }
    forall i | 0 <= i < |parts| ensures SLASH !in parts[i] {
      EncodeIsEncoded(values[i]);
      assert !IsEncoded(SLASH);
    }
    forall u | u in Join(parts, SLASH) ensures u == SLASH || IsEncoded(u) {
      JoinHolds(parts, SLASH, u);
    }
  }

  /** Escaping admissible values and decoding the path once gives the values back. */
  lemma ValuesOfEscaped(values: seq<Text>)
    requires AllAdmissible(values) && values != []
    ensures Values(EscapePath(values)) == Some(values)
  {
    var parts := EncodeAll(values);
    EncodedParts(values);
    JoinSplit(parts, SLASH);
    assert EscapePath(values)[1..] == Join(parts, SLASH);
    forall i | 0 <= i < |parts| ensures AdmitPart(parts[i]) == Some(values[i]) {
      DecodeEncode(values[i]);
    }
    AdmitMeans(parts, values);
  }

  lemma {:induction false} RebuiltAdmissible(segs: seq<Segment>, params: Params)
    requires Covers(segs, params)
    requires forall i :: 0 <= i < |segs| ==>
               forall k :: 0 <= k < |Expand(segs[i], params)| ==> Admissible(Expand(segs[i], params)[k])
    ensures AllAdmissible(Rebuild(segs, params))
  {
    if segs != [] {
      assert forall i :: 0 <= i < |segs[1..]| ==> segs[1..][i] == segs[i + 1];
      RebuiltAdmissible(segs[1..], params);
    }
  }

  /** Escaping the values a pattern rebuilds from admissible parameters matches with exactly those parameters. */
  lemma EscapedRebuildMatches(pattern: Text, segs: seq<Segment>, params: Params)
    requires Segments(pattern) == Some(segs) && AdmissibleParams(segs, params)
    ensures Covers(segs, params) && AllAdmissible(Rebuild(segs, params))
    ensures Match(pattern, EscapePath(Rebuild(segs, params))) == Some(params)
  {
    PatternRoundTrip(pattern, segs);
    NamesAt(segs);
    RebuiltAdmissible(segs, params);
    ValuesOfEscaped(Rebuild(segs, params));
    MatchIsRebuild(pattern, EscapePath(Rebuild(segs, params)), segs, params);
  }

  // ----- Overlap -----

  datatype OverlapError = InvalidPath

  function Longer(a: nat, b: nat): nat { if a < b then b else a }

  function Shorter(a: nat, b: nat): nat { if a < b then a else b }

  /** The scan from position i: a star on either side settles it, distinct literals refute it. */
  predicate ScanFrom(left: seq<Segment>, right: seq<Segment>, i: nat)
    decreases |left| - i
  {
    if i >= |left| || i >= |right| || left[i].Star? || right[i].Star? then true
    else if left[i].Literal? && right[i].Literal? && left[i].value != right[i].value then false
    else ScanFrom(left, right, i + 1)
  }

  predicate LengthsMeet(left: seq<Segment>, right: seq<Segment>)
    requires left != [] && right != []
  {
    && (left[|left| - 1].Star? || |left| >= |right|)
    && (right[|right| - 1].Star? || |right| >= |left|)
  }

  ghost predicate ShareAPath(a: Text, b: Text) {
    exists path :: Match(a, path).Some? && Match(b, path).Some?
  }

  /** The value a shared path takes at position i. */
  function WitnessValue(left: seq<Segment>, right: seq<Segment>, i: nat): Text {
    if i < |left| && left[i].Literal? then left[i].value
    else if i < |right| && right[i].Literal? then right[i].value
    else [0x61]
  }

  function Witness(left: seq<Segment>, right: seq<Segment>): seq<Text> {
    seq(Longer(|left|, |right|), i requires 0 <= i => WitnessValue(left, right, i))
  }

  lemma LiteralAdmissible(value: Text)
    requires value != [] && !IsDots(value) && IsLiteralText(value)
    ensures Admissible(value)
  {
    forall i | 0 <= i < |value| ensures !IsForbidden(value[i]) {
      assert IsLiteralUnit(value[i]);
    }
    LiteralHasNoSurrogate(value);
  }

  lemma {:induction false} LiteralHasNoSurrogate(value: Text)
    requires IsLiteralText(value)
    ensures !HasLoneSurrogate(value)
  {
    if value != [] {
      assert IsLiteralUnit(value[0]);
      assert IsLiteralText(value[1..]);
      LiteralHasNoSurrogate(value[1..]);
    }
  }

  lemma WitnessAdmissible(left: seq<Segment>, right: seq<Segment>)
    requires WellFormed(left) && WellFormed(right)
    ensures AllAdmissible(Witness(left, right))
  {
    forall i | 0 <= i < |Witness(left, right)| ensures Admissible(Witness(left, right)[i]) {
      var value := WitnessValue(left, right, i);
      assert i < |left| ==> WellFormedSegment(left[i]);
      assert i < |right| ==> WellFormedSegment(right[i]);
      if value == [0x61] {
        assert IsLiteralText(value);
      }
      LiteralAdmissible(value);
    }
  }

  /** What an accepting scan has seen at each position up to the first star. */
  lemma {:induction false} ScanMeans(left: seq<Segment>, right: seq<Segment>, i: nat)
    requires StarLast(left) && StarLast(right)
    ensures ScanFrom(left, right, i) <==>
            forall k :: i <= k < |left| && k < |right| && left[k].Literal? && right[k].Literal? ==> left[k].value == right[k].value
    decreases |left| - i
  {
    if i < |left| && i < |right| && !left[i].Star? && !right[i].Star? {
      ScanMeans(left, right, i + 1);
    }
  }

  lemma WitnessFits(left: seq<Segment>, right: seq<Segment>)
    requires WellFormed(left) && WellFormed(right)
    requires LengthsMeet(left, right) && ScanFrom(left, right, 0)
    ensures Fits(left, Witness(left, right)) && Fits(right, Witness(left, right))
  {
    ScanMeans(left, right, 0);
  }

  /** Any path both patterns match forces the lengths to meet and the scan to accept. */
  lemma SharedForcesScan(left: seq<Segment>, right: seq<Segment>, values: seq<Text>)
    requires WellFormed(left) && WellFormed(right)
    requires Fits(left, values) && Fits(right, values)
    ensures LengthsMeet(left, right) && ScanFrom(left, right, 0)
  {
    forall k | 0 <= k < |left| && k < |right| && left[k].Literal? && right[k].Literal?
      ensures left[k].value == right[k].value
    {
      assert Agrees(left[k], values[k]) && Agrees(right[k], values[k]);
    }
    ScanMeans(left, right, 0);
  }

  /** Completeness: an accepting scan has a path to show for it. */
  lemma OverlapHasWitness(a: Text, b: Text, left: seq<Segment>, right: seq<Segment>) returns (path: Text)
    requires Segments(a) == Some(left) && Segments(b) == Some(right)
    requires WellFormed(left) && WellFormed(right)
    requires LengthsMeet(left, right) && ScanFrom(left, right, 0)
    ensures Match(a, path).Some? && Match(b, path).Some?
  {
    WitnessAdmissible(left, right);
    WitnessFits(left, right);
    path := EscapePath(Witness(left, right));
    ValuesOfEscaped(Witness(left, right));
  }

  /** Soundness: a path both patterns match is one the scan accepts. */
  lemma SharedPathIsSeen(a: Text, b: Text, left: seq<Segment>, right: seq<Segment>, path: Text)
    requires Segments(a) == Some(left) && Segments(b) == Some(right)
    requires WellFormed(left) && WellFormed(right)
    requires Match(a, path).Some? && Match(b, path).Some?
    ensures LengthsMeet(left, right) && ScanFrom(left, right, 0)
  {
    SharedForcesScan(left, right, Values(path).value);
  }

  /**
   The syntactic test is exact: for any two valid patterns it accepts if and only if some escaped pathname, of
   any length, matches both.
   */
  lemma OverlapIsExact(a: Text, b: Text, left: seq<Segment>, right: seq<Segment>)
    requires Segments(a) == Some(left) && Segments(b) == Some(right)
    ensures left != [] && right != []
    ensures LengthsMeet(left, right) && ScanFrom(left, right, 0) <==> ShareAPath(a, b)
  {
    PatternRoundTrip(a, left);
    PatternRoundTrip(b, right);
    if LengthsMeet(left, right) && ScanFrom(left, right, 0) {
      var path := OverlapHasWitness(a, b, left, right);
    }
    if ShareAPath(a, b) {
      var path :| Match(a, path).Some? && Match(b, path).Some?;
      SharedPathIsSeen(a, b, left, right, path);
    }
  }

  method DocumentPathsOverlap(a: Text, b: Text) returns (r: Result<bool, OverlapError>)
    ensures r.Err? <==> Segments(a).None? || Segments(b).None?
    ensures r.Ok? ==> (r.value <==> ShareAPath(a, b))
  {
    var parsedA := DocumentSegments(a);
    var parsedB := DocumentSegments(b);
    if parsedA.None? || parsedB.None? {
      return Err(InvalidPath);
    }
    var left, right := parsedA.value, parsedB.value;
    OverlapIsExact(a, b, left, right);
    if (!left[|left| - 1].Star? && |left| < |right|) || (!right[|right| - 1].Star? && |right| < |left|) {
      return Ok(false);
    }
    for i := 0 to Shorter(|left|, |right|)
      invariant ScanFrom(left, right, 0) == ScanFrom(left, right, i)
    {
      if left[i].Star? || right[i].Star? {
        return Ok(true);
      }
      if left[i].Literal? && right[i].Literal? && left[i].value != right[i].value {
        return Ok(false);
      }
    }
    return Ok(true);
  }
}
