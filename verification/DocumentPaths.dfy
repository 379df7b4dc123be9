/** Matching escaped pathnames against document patterns, and deciding whether two patterns share a path. */
module DocumentPaths {
  import opened Texts
  import opened JsText
  import opened DocumentPatterns

  type Params = map<Text, Text>

  // ----- Admissible segment values -----

  predicate IsForbidden(u: Unit) { u == SLASH || u == BACKSLASH || u <= 0x1F || 0x7F <= u <= 0x9F }

  /** What a decoded path segment may be. */
  predicate Admissible(value: Text) {
    && value != []
    && !IsDots(value)
    && (forall i :: 0 <= i < |value| ==> !IsForbidden(value[i]))
    && !HasLoneSurrogate(value)
  }

  function AdmitPart(part: Text): (r: Option<Text>)
    ensures r.Some? ==> Admissible(r.value)
  {
    match DecodeComponent(part)
    case None => None
    case Some(value) => if Admissible(value) then Some(value) else None
  }

  /** Decodes every part once; None when any part is undecodable or inadmissible. */
  function Admit(parts: seq<Text>): Option<seq<Text>> {
    if parts == [] then Some([])
    else
      match AdmitPart(parts[0])
      case None => None
      case Some(value) =>
        match Admit(parts[1..])
        case None => None
        case Some(rest) => Some([value] + rest)
  }

  ghost predicate AllAdmissible(values: seq<Text>) { forall i :: 0 <= i < |values| ==> Admissible(values[i]) }

  lemma {:induction false} AdmitMeans(parts: seq<Text>, values: seq<Text>)
    ensures Admit(parts) == Some(values)
            <==> |values| == |parts| && forall i :: 0 <= i < |parts| ==> AdmitPart(parts[i]) == Some(values[i])
    ensures Admit(parts) == Some(values) ==> AllAdmissible(values)
  {
    if parts != [] && values != [] {
      AdmitMeans(parts[1..], values[1..]);
      assert values == [values[0]] + values[1..] && parts == [parts[0]] + parts[1..];
    }
  }

  lemma AdmitFails(parts: seq<Text>, i: nat)
    requires i < |parts| && AdmitPart(parts[i]).None?
    ensures Admit(parts).None?
  {
    if Admit(parts).Some? {
      AdmitMeans(parts, Admit(parts).value);
    }
  }

  // ----- Matching -----

  predicate IsEscapedPath(path: Text) {
    path != [] && path[0] == SLASH && QUESTION !in path && HASH !in path && BACKSLASH !in path
  }

  predicate LengthFits(segs: seq<Segment>, parts: nat)
    requires segs != []
  {
    parts >= |segs| && (segs[|segs| - 1].Star? || parts == |segs|)
  }

  predicate Agrees(seg: Segment, value: Text) { seg.Literal? ==> seg.value == value }

  /** The values of a path satisfy the segments of a pattern. */
  predicate Fits(segs: seq<Segment>, values: seq<Text>)
    requires segs != []
  {
    LengthFits(segs, |values|) && forall i :: 0 <= i < |segs| ==> Agrees(segs[i], values[i])
  }

  /** What the first n segments bind. */
  function Bindings(segs: seq<Segment>, values: seq<Text>, n: nat): Params
    requires n <= |segs| <= |values|
  {
    if n == 0 then map[]
    else
      var before := Bindings(segs, values, n - 1);
      match segs[n - 1]
      case Literal(_) => before
      case Param(name) => before[name := values[n - 1]]
      case Star(name) => before[name := Join(values[n - 1..], SLASH)]
  }

  function Values(path: Text): Option<seq<Text>> {
    if !IsEscapedPath(path) then None else Admit(Split(path[1..], SLASH))
  }

  function Match(pattern: Text, path: Text): Option<Params> {
    match Segments(pattern)
    case None => None
    case Some(segs) =>
      match Values(path)
      case None => None
      case Some(values) =>
        PatternRoundTrip(pattern, segs);
        if Fits(segs, values) then Some(Bindings(segs, values, |segs|)) else None
  }

  /** The decoding pass: overwrites the parts in place, and gives up at the first inadmissible one. */
  method DecodeInPlace(parts: array<Text>) returns (ok: bool)
    modifies parts
    ensures ok <==> Admit(old(parts[..])).Some?
    ensures ok ==> Admit(old(parts[..])) == Some(parts[..])
  {
    ghost var pieces := parts[..];
    for i := 0 to parts.Length
      invariant forall k :: i <= k < parts.Length ==> parts[k] == pieces[k]
      invariant forall k :: 0 <= k < i ==> AdmitPart(pieces[k]) == Some(parts[k])
    {
      var value := DecodeComponent(parts[i]);
      if value.None? || !Admissible(value.value) {
        AdmitFails(pieces, i);
        return false;
      }
      parts[i] := value.value;
    }
    AdmitMeans(pieces, parts[..]);
    return true;
  }

  /** The binding pass: reads the decoded parts against the segments. */
  method BindParts(segs: seq<Segment>, parts: array<Text>) returns (r: Option<Params>)
    requires segs != [] && LengthFits(segs, parts.Length)
    ensures r == if Fits(segs, parts[..]) then Some(Bindings(segs, parts[..], |segs|)) else None
  {
    var params: Params := map[];
    for i := 0 to |segs|
      invariant forall k :: 0 <= k < i ==> Agrees(segs[k], parts[..][k])
      invariant params == Bindings(segs, parts[..], i)
    {
      match segs[i] {
        case Param(name) => params := params[name := parts[i]];
        case Star(name) => params := params[name := Join(parts[i..], SLASH)]; assert parts[..][i..] == parts[i..];
        case Literal(value) =>
          if value != parts[i] {
            assert !Agrees(segs[i], parts[..][i]);
            return None;
          }
      }
    }
    return Some(params);
  }

  method MatchDocumentPath(pattern: Text, escapedPath: Text) returns (r: Option<Params>)
    ensures r == Match(pattern, escapedPath)
  {
    var parsed := DocumentSegments(pattern);
    if parsed.None? || !IsEscapedPath(escapedPath) {
      return None;
    }
    var segs := parsed.value;
    PatternRoundTrip(pattern, segs);
    var pieces := Split(escapedPath[1..], SLASH);
    if |pieces| < |segs| || (!segs[|segs| - 1].Star? && |pieces| != |segs|) {
      if Admit(pieces).Some? {
        AdmitMeans(pieces, Admit(pieces).value);
      }
      return None;
    }
    var parts := new Text[|pieces|](i requires 0 <= i < |pieces| => pieces[i]);
    assert parts[..] == pieces;
    var ok := DecodeInPlace(parts);
    if !ok {
      return None;
    }
    r := BindParts(segs, parts);
  }

  // ----- Rebuilding -----

  function Expand(seg: Segment, params: Params): (values: seq<Text>)
    requires NamesOf(seg) <= params.Keys
    ensures |values| >= 1 && (!seg.Star? ==> |values| == 1)
  {
    match seg
    case Literal(value) => [value]
    case Param(name) => [params[name]]
    case Star(name) => Split(params[name], SLASH)
  }

  ghost predicate Covers(segs: seq<Segment>, params: Params) {
    forall i :: 0 <= i < |segs| ==> NamesOf(segs[i]) <= params.Keys
  }

  /** The decoded segment list that a pattern and its parameters describe. */
  function Rebuild(segs: seq<Segment>, params: Params): seq<Text>
    requires Covers(segs, params)
  {
    if segs == [] then [] else
      assert forall i :: 0 <= i < |segs[1..]| ==> segs[1..][i] == segs[i + 1];
      Expand(segs[0], params) + Rebuild(segs[1..], params)
  }

  function Names(segs: seq<Segment>): set<Text> {
    if segs == [] then {} else NamesOf(segs[0]) + Names(segs[1..])
  }

  lemma {:induction false} NamesAt(segs: seq<Segment>)
    ensures forall i :: 0 <= i < |segs| ==> NamesOf(segs[i]) <= Names(segs)
    ensures forall x :: x in Names(segs) ==> exists i :: 0 <= i < |segs| && x in NamesOf(segs[i])
  {
    if segs != [] {
      NamesAt(segs[1..]);
      assert forall i :: 0 < i < |segs| ==> segs[i] == segs[1..][i - 1];
      forall x | x in Names(segs) ensures exists i :: 0 <= i < |segs| && x in NamesOf(segs[i]) {
        if x !in NamesOf(segs[0]) {
          var i :| 0 <= i < |segs[1..]| && x in NamesOf(segs[1..][i]);
          assert x in NamesOf(segs[i + 1]);
        }
      }
    }
  }

  ghost predicate StarLast(segs: seq<Segment>) {
    forall i :: 0 <= i < |segs| && segs[i].Star? ==> i == |segs| - 1
  }

  /** Where the segments of a well-formed pattern land in the rebuilt list: one place each, a star to the end. */
  lemma {:induction false} RebuildAt(segs: seq<Segment>, params: Params)
    requires segs != [] && Covers(segs, params) && StarLast(segs)
    ensures LengthFits(segs, |Rebuild(segs, params)|)
    ensures forall i :: 0 <= i < |segs| - 1 ==> [Rebuild(segs, params)[i]] == Expand(segs[i], params)
    ensures Rebuild(segs, params)[|segs| - 1..] == Expand(segs[|segs| - 1], params)
  {
    var rest := segs[1..];
    if rest == [] {
      assert Rebuild(segs, params) == Expand(segs[0], params);
    } else {
      assert forall i :: 0 <= i < |rest| ==> rest[i] == segs[i + 1];
      RebuildAt(rest, params);
      var head, tail := Expand(segs[0], params), Rebuild(rest, params);
      assert |head| == 1 && Rebuild(segs, params) == head + tail;
      forall i | 0 <= i < |segs| - 1 ensures [Rebuild(segs, params)[i]] == Expand(segs[i], params) {
        if i > 0 {
          assert [tail[i - 1]] == Expand(rest[i - 1], params);
        }
      }
      assert (head + tail)[|segs| - 1..] == tail[|rest| - 1..];
    }
  }

  /** Every value a pattern will substitute is one a path segment may hold. */
  ghost predicate AdmissibleParams(segs: seq<Segment>, params: Params) {
    && params.Keys == Names(segs)
    && forall i :: 0 <= i < |segs| && NamesOf(segs[i]) <= params.Keys ==>
         forall k :: 0 <= k < |Expand(segs[i], params)| ==> Admissible(Expand(segs[i], params)[k])
  }

  /** What a matched segment binds spells the part of the path it covers. */
  ghost predicate BindsPart(seg: Segment, params: Params, values: seq<Text>, i: nat)
    requires i < |values|
  {
    && NamesOf(seg) <= params.Keys
    && Expand(seg, params) == if seg.Star? then values[i..] else [values[i]]
  }

  lemma {:induction false} BindingsGive(segs: seq<Segment>, values: seq<Text>, n: nat)
    requires n <= |segs| <= |values| && DistinctNames(segs)
    requires NoneHolds(values, SLASH)
    requires forall i :: 0 <= i < n ==> Agrees(segs[i], values[i])
    ensures Bindings(segs, values, n).Keys == Names(segs[..n])
    ensures forall i :: 0 <= i < n ==> BindsPart(segs[i], Bindings(segs, values, n), values, i)
  {
    if n == 0 {
      return;
    }
    BindingsGive(segs, values, n - 1);
    var before, after := Bindings(segs, values, n - 1), Bindings(segs, values, n);
    NamesSnoc(segs[..n - 1], segs[n - 1]);
    assert segs[..n] == segs[..n - 1] + [segs[n - 1]];
    forall i | 0 <= i < n ensures BindsPart(segs[i], after, values, i) {
      if i == n - 1 {
        if segs[i].Star? {
          assert NoneHolds(values[i..], SLASH);
          JoinSplit(values[i..], SLASH);
        }
      } else {
        assert BindsPart(segs[i], before, values, i);
        assert NamesOf(segs[i]) !! NamesOf(segs[n - 1]);
        assert forall x :: x in NamesOf(segs[i]) ==> after[x] == before[x];
      }
    }
  }

  lemma {:induction false} NamesSnoc(segs: seq<Segment>, seg: Segment)
    ensures Names(segs + [seg]) == Names(segs) + NamesOf(seg)
  {
    if segs == [] {
      assert (segs + [seg])[1..] == [];
    } else {
      NamesSnoc(segs[1..], seg);
      assert (segs + [seg])[1..] == segs[1..] + [seg];
    }
  }

  lemma AdmittedHoldNoSlash(values: seq<Text>)
    requires AllAdmissible(values)
    ensures NoneHolds(values, SLASH)
  {
    forall i | 0 <= i < |values| ensures SLASH !in values[i] {
      assert Admissible(values[i]);
    }
  }

  ghost predicate BindsAll(segs: seq<Segment>, params: Params, values: seq<Text>) {
    |segs| <= |values| && forall i :: 0 <= i < |segs| ==> BindsPart(segs[i], params, values, i)
  }

  lemma BindsTail(segs: seq<Segment>, params: Params, values: seq<Text>)
    requires |segs| > 1 && StarLast(segs) && BindsAll(segs, params, values)
    ensures BindsAll(segs[1..], params, values[1..]) && StarLast(segs[1..])
  {
    forall i | 0 <= i < |segs| - 1 ensures BindsPart(segs[1..][i], params, values[1..], i) {
      assert BindsPart(segs[i + 1], params, values, i + 1);
      assert values[1..][i..] == values[i + 1..];
    }
  }

  lemma {:induction false} BoundRebuilds(segs: seq<Segment>, params: Params, values: seq<Text>)
    requires segs != [] && LengthFits(segs, |values|) && StarLast(segs)
    requires BindsAll(segs, params, values)
    ensures Covers(segs, params)
    ensures Rebuild(segs, params) == values
  {
    assert BindsPart(segs[0], params, values, 0);
    if |segs| == 1 {
      assert values[0..] == values;
    } else {
      BindsTail(segs, params, values);
      BoundRebuilds(segs[1..], params, values[1..]);
      assert values == [values[0]] + values[1..];
      assert Covers(segs, params) by {
        assert forall i :: 0 <= i < |segs| ==> BindsPart(segs[i], params, values, i);
      }
    }
  }

  lemma RebuiltBinds(segs: seq<Segment>, params: Params)
    requires segs != [] && Covers(segs, params) && StarLast(segs)
    ensures LengthFits(segs, |Rebuild(segs, params)|) && BindsAll(segs, params, Rebuild(segs, params))
  {
    RebuildAt(segs, params);
    var values := Rebuild(segs, params);
    forall i | 0 <= i < |segs| ensures BindsPart(segs[i], params, values, i) {
      if i == |segs| - 1 && !segs[i].Star? {
        assert values[i..] == [values[i]];
      }
    }
  }

  /**
   A pattern matches a path with given parameters exactly when the parameters are the pattern's own names,
   hold only admissible values, and rebuild the path's once-decoded segment list.
   */
  lemma MatchIsRebuild(pattern: Text, path: Text, segs: seq<Segment>, params: Params)
    requires Segments(pattern) == Some(segs)
    ensures Covers(segs, params) || params.Keys != Names(segs)
    ensures Match(pattern, path) == Some(params)
            <==> AdmissibleParams(segs, params) && Values(path) == Some(Rebuild(segs, params))
  {
    PatternRoundTrip(pattern, segs);
    NamesAt(segs);
    if Match(pattern, path) == Some(params) {
      MatchRebuilds(pattern, path, segs, params);
    }
    if AdmissibleParams(segs, params) && Values(path) == Some(Rebuild(segs, params)) {
      RebuildMatches(pattern, path, segs, params);
    }
  }

  lemma AgreesWhenBound(segs: seq<Segment>, params: Params, values: seq<Text>)
    requires segs != [] && LengthFits(segs, |values|) && BindsAll(segs, params, values)
    ensures Fits(segs, values)
  {
    forall i | 0 <= i < |segs| ensures Agrees(segs[i], values[i]) {
      assert BindsPart(segs[i], params, values, i);
    }
  }

  lemma BoundPart(seg: Segment, a: Params, b: Params, values: seq<Text>, i: nat)
    requires i < |values| && BindsPart(seg, a, values, i) && BindsPart(seg, b, values, i)
    ensures !seg.Literal? ==> a[seg.name] == b[seg.name]
  {
    if seg.Star? {
      SplitJoin(a[seg.name], SLASH);
      SplitJoin(b[seg.name], SLASH);
    }
  }

  /** Two parameter maps over the names of a pattern that bind the same values are equal. */
  lemma BoundIsUnique(segs: seq<Segment>, a: Params, b: Params, values: seq<Text>)
    requires a.Keys == b.Keys == Names(segs)
    requires BindsAll(segs, a, values) && BindsAll(segs, b, values)
    ensures a == b
  {
    NamesAt(segs);
    forall x | x in Names(segs) ensures a[x] == b[x] {
      var i :| 0 <= i < |segs| && x in NamesOf(segs[i]);
      BoundPart(segs[i], a, b, values, i);
    }
  }

  lemma BoundIsAdmissible(segs: seq<Segment>, params: Params, values: seq<Text>)
    requires params.Keys == Names(segs) && AllAdmissible(values) && BindsAll(segs, params, values)
    ensures AdmissibleParams(segs, params)
  {
    forall i | 0 <= i < |segs| && NamesOf(segs[i]) <= params.Keys
      ensures forall k :: 0 <= k < |Expand(segs[i], params)| ==> Admissible(Expand(segs[i], params)[k])
    {
      assert BindsPart(segs[i], params, values, i);
    }
  }

  lemma MatchRebuilds(pattern: Text, path: Text, segs: seq<Segment>, params: Params)
    requires Segments(pattern) == Some(segs) && Match(pattern, path) == Some(params)
    ensures AdmissibleParams(segs, params) && Covers(segs, params) && Values(path) == Some(Rebuild(segs, params))
  {
    PatternRoundTrip(pattern, segs);
    var values := Values(path).value;
    AdmitMeans(Split(path[1..], SLASH), values);
    AdmittedHoldNoSlash(values);
    BindingsGive(segs, values, |segs|);
    assert segs[..|segs|] == segs;
    BoundRebuilds(segs, params, values);
    BoundIsAdmissible(segs, params, values);
  }

  lemma RebuildMatches(pattern: Text, path: Text, segs: seq<Segment>, params: Params)
    requires Segments(pattern) == Some(segs)
    requires AdmissibleParams(segs, params) && Covers(segs, params) && Values(path) == Some(Rebuild(segs, params))
    ensures Match(pattern, path) == Some(params)
  {
    PatternRoundTrip(pattern, segs);
    var values := Rebuild(segs, params);
    AdmitMeans(Split(path[1..], SLASH), values);
    AdmittedHoldNoSlash(values);
    RebuiltBinds(segs, params);
    AgreesWhenBound(segs, params, values);
    BindingsGive(segs, values, |segs|);
    assert segs[..|segs|] == segs;
    BoundIsUnique(segs, params, Bindings(segs, values, |segs|), values);
  }
}
