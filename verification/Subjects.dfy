/** Subjects and wildcard patterns: "*" is one token, ">" is one or more remaining tokens. */
module Subjects {
  import opened Texts

  function Tokens(s: string): (tokens: seq<string>)
    ensures |tokens| >= 1
  {
    Split(s, '.')
  }

  /** The wildcard relation on token lists. */
  predicate TokensMatch(pattern: seq<string>, subject: seq<string>) {
    if pattern == [] then subject == []
    else if pattern[0] == ">" then subject != []
    else
      && subject != []
      && (pattern[0] == "*" || pattern[0] == subject[0])
      && TokensMatch(pattern[1..], subject[1..])
  }

  predicate SubjectMatches(pattern: string, subject: string) { TokensMatch(Tokens(pattern), Tokens(subject)) }

  /** The scan over the pattern's tokens computes the wildcard relation. */
  method Matches(pattern: string, subject: string) returns (r: bool)
    ensures r <==> SubjectMatches(pattern, subject)
  {
    var p := Tokens(pattern);
    var s := Tokens(subject);
    for i := 0 to |p|
      invariant i <= |s|
      invariant TokensMatch(p, s) <==> TokensMatch(p[i..], s[i..])
    {
      assert p[i..][0] == p[i] && p[i..][1..] == p[i + 1..];
      var token := p[i];
      if token == ">" {
        return i <= |s| - 1;
      }
      if i >= |s| {
        return false;
      }
      assert s[i..][0] == s[i] && s[i..][1..] == s[i + 1..];
      if token != "*" && token != s[i] {
        return false;
      }
    }
    return |p| == |s|;
  }

  /** Where the open-ended wildcard of a pattern stands; its length when there is none. */
  function OpenAt(pattern: seq<string>): (k: nat)
    ensures k <= |pattern|
    ensures k < |pattern| ==> pattern[k] == ">"
    ensures forall i :: 0 <= i < k ==> pattern[i] != ">"
  {
    if pattern == [] || pattern[0] == ">" then 0 else 1 + OpenAt(pattern[1..])
  }

  /** The relation without recursion: the tokens before the open end agree one by one, and the lengths fit. */
  lemma {:induction false} MatchMeans(p: seq<string>, s: seq<string>)
    ensures TokensMatch(p, s) <==>
            && (if OpenAt(p) < |p| then |s| > OpenAt(p) else |s| == |p|)
            && forall i :: 0 <= i < OpenAt(p) ==> p[i] == "*" || p[i] == s[i]
  {
    if p != [] && p[0] != ">" && s != [] {
      MatchMeans(p[1..], s[1..]);
      assert forall i :: 0 <= i < |p[1..]| ==> p[1..][i] == p[i + 1];
      assert forall i :: 0 < i < OpenAt(p) ==> p[i] == p[1..][i - 1];
    }
  }

  // ----- When two patterns share a subject -----

  ghost predicate ShareASubject(a: string, b: string) {
    exists subject :: SubjectMatches(a, subject) && SubjectMatches(b, subject)
  }

  predicate Compatible(p: seq<string>, q: seq<string>) {
    if p == [] || q == [] then p == q
    else if p[0] == ">" || q[0] == ">" then true
    else (p[0] == "*" || q[0] == "*" || p[0] == q[0]) && Compatible(p[1..], q[1..])
  }

  /** Some token list that a non-empty pattern matches. */
  function Ground(p: seq<string>): seq<string> {
    if p == [] then []
    else if p[0] == ">" then ["x"]
    else [if p[0] == "*" then "x" else p[0]] + Ground(p[1..])
  }

  function Common(p: seq<string>, q: seq<string>): seq<string>
    requires Compatible(p, q)
  {
    if p == [] then []
    else if p[0] == ">" then Ground(q)
    else if q[0] == ">" then Ground(p)
    else [if p[0] != "*" then p[0] else if q[0] != "*" then q[0] else "x"] + Common(p[1..], q[1..])
  }

  lemma {:induction false} GroundMatches(p: seq<string>)
    requires NoneHolds(p, '.')
    ensures TokensMatch(p, Ground(p)) && NoneHolds(Ground(p), '.') && (p != [] ==> Ground(p) != [])
  {
    if p != [] && p[0] != ">" {
      GroundMatches(p[1..]);
      assert ([Ground(p)[0]] + Ground(p[1..]))[1..] == Ground(p[1..]);
    }
  }

  lemma {:induction false} CommonMatches(p: seq<string>, q: seq<string>)
    requires Compatible(p, q) && NoneHolds(p, '.') && NoneHolds(q, '.')
    ensures TokensMatch(p, Common(p, q)) && TokensMatch(q, Common(p, q))
    ensures NoneHolds(Common(p, q), '.') && (p != [] ==> Common(p, q) != [])
  {
    if p == [] {
    } else if p[0] == ">" {
      GroundMatches(q);
    } else if q[0] == ">" {
      GroundMatches(p);
    } else {
      CommonMatches(p[1..], q[1..]);
      assert Common(p, q)[1..] == Common(p[1..], q[1..]);
    }
  }

  lemma {:induction false} SharedIsCompatible(p: seq<string>, q: seq<string>, s: seq<string>)
    requires TokensMatch(p, s) && TokensMatch(q, s)
    ensures Compatible(p, q)
  {
    if p != [] && q != [] && p[0] != ">" && q[0] != ">" {
      SharedIsCompatible(p[1..], q[1..], s[1..]);
    }
  }

  /** Two patterns share a subject exactly when their tokens are compatible up to the first open end. */
  lemma ShareIsCompatible(a: string, b: string)
    ensures ShareASubject(a, b) <==> Compatible(Tokens(a), Tokens(b))
  {
    var p, q := Tokens(a), Tokens(b);
    if ShareASubject(a, b) {
      var subject :| SubjectMatches(a, subject) && SubjectMatches(b, subject);
      SharedIsCompatible(p, q, Tokens(subject));
    }
    if Compatible(p, q) {
      SplitJoin(a, '.');
      SplitJoin(b, '.');
      CommonMatches(p, q);
      JoinSplit(Common(p, q), '.');
      assert SubjectMatches(a, Join(Common(p, q), '.')) && SubjectMatches(b, Join(Common(p, q), '.'));
    }
  }

  // ----- Reply inboxes -----

  /** The pattern that covers every reply to a plugin. */
  function InboxPattern(id: string): string { "_INBOX." + id + ".>" }

  lemma InboxTokens(id: string)
    ensures Tokens(InboxPattern(id)) == ["_INBOX"] + Tokens(id) + [">"]
  {
    SplitOne("_INBOX", '.');
    SplitOne(">", '.');
    SplitConcat("_INBOX", '.', id);
    SplitConcat("_INBOX" + "." + id, '.', ">");
    assert InboxPattern(id) == ("_INBOX" + "." + id) + ['.'] + ">";
  }

  predicate IsWild(token: string) { token == "*" || token == ">" }

  /** Two token lists agree at every common position before the first open end of either, up to single wildcards. */
  ghost predicate Meet(p: seq<string>, q: seq<string>) {
    forall i :: 0 <= i < OpenAt(p) && i < OpenAt(q) ==> p[i] == q[i] || p[i] == "*" || q[i] == "*"
  }

  /** With an open end after each, meeting is all it takes to be compatible. */
  lemma {:induction false} OpenCompatible(p: seq<string>, q: seq<string>)
    ensures Compatible(p + [">"], q + [">"]) <==> Meet(p, q)
  {
    if p != [] && q != [] && p[0] != ">" && q[0] != ">" {
      assert (p + [">"])[1..] == p[1..] + [">"] && (q + [">"])[1..] == q[1..] + [">"];
      OpenCompatible(p[1..], q[1..]);
      MeetTail(p, q);
    }
  }

  lemma MeetTail(p: seq<string>, q: seq<string>)
    requires p != [] && q != [] && p[0] != ">" && q[0] != ">"
    ensures Meet(p, q) <==> (p[0] == q[0] || p[0] == "*" || q[0] == "*") && Meet(p[1..], q[1..])
  {
    assert forall i :: 0 < i < OpenAt(p) ==> p[i] == p[1..][i - 1];
    assert forall i :: 0 < i < OpenAt(q) ==> q[i] == q[1..][i - 1];
    assert forall i :: 0 <= i < OpenAt(p[1..]) ==> p[1..][i] == p[i + 1];
    assert forall i :: 0 <= i < OpenAt(q[1..]) ==> q[1..][i] == q[i + 1];
  }

  /**
   For any ids at all, two inboxes share a subject exactly when, at every common position before the first ">" of
   either id, the tokens are equal or one of them is "*".
   */
  lemma InboxesShare(a: string, b: string)
    ensures ShareASubject(InboxPattern(a), InboxPattern(b)) <==> Meet(Tokens(a), Tokens(b))
  {
    ShareIsCompatible(InboxPattern(a), InboxPattern(b));
    InboxTokens(a);
    InboxTokens(b);
    var p, q := Tokens(a), Tokens(b);
    assert (["_INBOX"] + p + [">"])[1..] == p + [">"] && (["_INBOX"] + q + [">"])[1..] == q + [">"];
    OpenCompatible(p, q);
  }

  /** For ids of one token: exactly when the ids are equal or one is a wildcard. */
  lemma SingleInboxesShare(a: string, b: string)
    requires '.' !in a && '.' !in b
    ensures ShareASubject(InboxPattern(a), InboxPattern(b)) <==> a == b || IsWild(a) || IsWild(b)
  {
    InboxesShare(a, b);
    SplitOne(a, '.');
    SplitOne(b, '.');
    assert OpenAt([a]) == (if a == ">" then 0 else 1) && OpenAt([b]) == if b == ">" then 0 else 1;
    assert [a][0] == a && [b][0] == b;
  }

  /** For ids of any number of plain tokens: exactly when one token list begins the other. */
  lemma DottedInboxesShare(a: string, b: string)
    requires forall t :: t in Tokens(a) || t in Tokens(b) ==> !IsWild(t)
    ensures ShareASubject(InboxPattern(a), InboxPattern(b)) <==> Tokens(a) <= Tokens(b) || Tokens(b) <= Tokens(a)
  {
    InboxesShare(a, b);
    var p, q := Tokens(a), Tokens(b);
    PlainIsClosed(p);
    PlainIsClosed(q);
    assert forall i :: 0 <= i < |p| ==> p[i] in p;
    assert forall i :: 0 <= i < |q| ==> q[i] in q;
  }

  lemma PlainIsClosed(p: seq<string>)
    requires forall t :: t in p ==> !IsWild(t)
    ensures OpenAt(p) == |p|
  {
    if OpenAt(p) < |p| {
      assert p[OpenAt(p)] in p;
    }
  }
}
