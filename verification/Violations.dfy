/** Reading the operation and the subject out of a server's permissions violation. */
module Violations {
  import opened Texts

  const LEAD := "permissions violation for "
  const MIDDLE := " to \""

  datatype Violation = Violation(operation: string, subject: string)

  /** Word characters; regardless of case, two more fold to ASCII letters. */
  predicate IsWordChar(c: char) {
    'a' <= c <= 'z' || 'A' <= c <= 'Z' || '0' <= c <= '9' || c == '_' || c == '\U{017F}' || c == '\U{212A}'
  }

  function WordRun(s: string): (n: nat)
    ensures n <= |s| && (forall i :: 0 <= i < n ==> IsWordChar(s[i])) && (n < |s| ==> !IsWordChar(s[n]))
  {
    if s == [] || !IsWordChar(s[0]) then 0 else 1 + WordRun(s[1..])
  }

  function UntilQuote(s: string): (n: nat)
    ensures n <= |s| && '"' !in s[..n] && (n < |s| ==> s[n] == '"')
  {
    if s == [] || s[0] == '"' then 0 else 1 + UntilQuote(s[1..])
  }

  /** What follows the lead: an operation, then a quoted subject. */
  function ViolationAfterLead(rest: string): Option<Violation> {
    var n := WordRun(rest);
    if n == 0 || |rest| - n < |MIDDLE| || !EqualFold(rest[n..n + |MIDDLE|], MIDDLE) then None
    else
      var quoted := rest[n + |MIDDLE|..];
      var m := UntilQuote(quoted);
      if m == 0 || m == |quoted| then None
      else Some(Violation(Lower(rest[..n]), quoted[..m]))
  }

  /** The violation spelled at the very start of s, letter case aside. */
  function ViolationHere(s: string): Option<Violation> {
    if |s| < |LEAD| || !EqualFold(s[..|LEAD|], LEAD) then None else ViolationAfterLead(s[|LEAD|..])
  }

  /** The leftmost violation in an error text. */
  function ParseViolation(s: string): Option<Violation> {
    if ViolationHere(s).Some? then ViolationHere(s)
    else if s == [] then None
    else ParseViolation(s[1..])
  }

  lemma {:induction false} WordRunOf(w: string, rest: string)
    requires forall i :: 0 <= i < |w| ==> IsWordChar(w[i])
    requires rest != [] && !IsWordChar(rest[0])
    ensures WordRun(w + rest) == |w|
  {
    if w == [] {
      assert w + rest == rest;
    } else {
      assert (w + rest)[1..] == w[1..] + rest;
      WordRunOf(w[1..], rest);
    }
  }

  lemma {:induction false} UntilQuoteOf(s: string, rest: string)
    requires '"' !in s
    ensures UntilQuote(s + ['"'] + rest) == |s|
  {
    if s != [] {
      assert (s + ['"'] + rest)[1..] == s[1..] + ['"'] + rest;
      UntilQuoteOf(s[1..], rest);
    }
  }

  /** How the server words a refusal, its lead in any letter case. */
  function Worded(lead: string, operation: string, subject: string, tail: string): string {
    lead + operation + MIDDLE + subject + "\"" + tail
  }

  lemma WordedParts(lead: string, operation: string, subject: string, tail: string)
    requires |lead| == |LEAD|
    ensures var s := Worded(lead, operation, subject, tail);
            s[..|LEAD|] == lead
            && s[|LEAD|..] == operation + (MIDDLE + (subject + ['"'] + tail))
  {
  }

  lemma TailsOfTail(front: string, worded: string)
    requires front != ""
    ensures (front + worded)[1..] == front[1..] + worded
    ensures forall i :: 0 <= i < |front[1..]| ==> (front[1..] + worded)[i..] == (front + worded)[i + 1..]
  {
  }

  /** Whatever text precedes and follows it, a server's refusal gives back its operation and its subject. */
  lemma {:induction false} ViolationRoundTrip(front: string, lead: string, operation: string, subject: string, tail: string)
    requires |lead| == |LEAD| && EqualFold(lead, LEAD)
    requires operation != "" && forall i :: 0 <= i < |operation| ==> IsWordChar(operation[i])
    requires subject != "" && '"' !in subject
    requires forall i :: 0 <= i < |front| ==> ViolationHere((front + Worded(lead, operation, subject, tail))[i..]).None?
    ensures ParseViolation(front + Worded(lead, operation, subject, tail)) == Some(Violation(Lower(operation), subject))
    decreases |front|
  {
    var worded := Worded(lead, operation, subject, tail);
    var s := front + worded;
    if front == "" {
      assert s == worded;
      WordedHere(lead, operation, subject, tail);
    } else {
      TailsOfTail(front, worded);
      assert s[0..] == s;
      ViolationRoundTrip(front[1..], lead, operation, subject, tail);
    }
  }

  lemma WordedAfterLead(operation: string, subject: string, tail: string)
    requires operation != "" && forall i :: 0 <= i < |operation| ==> IsWordChar(operation[i])
    requires subject != "" && '"' !in subject
    ensures ViolationAfterLead(operation + (MIDDLE + (subject + ['"'] + tail))) == Some(Violation(Lower(operation), subject))
  {
    var ending := subject + ['"'] + tail;
    var after := MIDDLE + ending;
    var rest := operation + after;
    WordRunOf(operation, after);
    UntilQuoteOf(subject, tail);
    Slices(operation, MIDDLE, ending);
    assert ending[..|subject|] == subject;
  }

  lemma Slices(a: string, b: string, c: string)
    ensures var s := a + (b + c);
            s[..|a|] == a && s[|a|..|a| + |b|] == b && s[|a| + |b|..] == c
  {
  }

  lemma WordedHere(lead: string, operation: string, subject: string, tail: string)
    requires |lead| == |LEAD| && EqualFold(lead, LEAD)
    requires operation != "" && forall i :: 0 <= i < |operation| ==> IsWordChar(operation[i])
    requires subject != "" && '"' !in subject
    ensures ViolationHere(Worded(lead, operation, subject, tail)) == Some(Violation(Lower(operation), subject))
  {
    WordedParts(lead, operation, subject, tail);
    WordedAfterLead(operation, subject, tail);
  }

  // ----- Exactly which texts are refusals -----

  /** A letter, a digit or an underscore, letter case aside. */
  ghost predicate IsWordLetter(c: char) {
    exists d: char :: SameLetter(c, d) && ('a' <= d <= 'z' || '0' <= d <= '9' || d == '_')
  }

  lemma WordCharMeans(c: char)
    ensures IsWordChar(c) <==> IsWordLetter(c)
  {
    if 'A' <= c <= 'Z' {
      assert SameLetter(c, c - 'A' + 'a');
    } else if c == '\U{017F}' {
      assert SameLetter(c, 's');
    } else if c == '\U{212A}' {
      assert SameLetter(c, 'k');
    } else if IsWordChar(c) {
      assert SameLetter(c, c);
    }
  }

  ghost predicate IsOperation(t: string) { t != "" && forall i :: 0 <= i < |t| ==> IsWordLetter(t[i]) }

  /** The pieces of a refusal, in order. */
  ghost predicate AreParts(lead: string, operation: string, middle: string, subject: string) {
    && SameLetters(lead, "permissions violation for ") && IsOperation(operation)
    && SameLetters(middle, " to \"") && subject != "" && '"' !in subject
  }

  function Composed(lead: string, operation: string, middle: string, subject: string, tail: string): string {
    lead + (operation + (middle + (subject + ['"'] + tail)))
  }

  /** The text starts with a refusal that says this. */
  ghost predicate Says(s: string, v: Violation) {
    exists lead, operation, middle, tail ::
      AreParts(lead, operation, middle, v.subject) && v.operation == Lower(operation)
      && s == Composed(lead, operation, middle, v.subject, tail)
  }

  lemma PartsAreRead(lead: string, operation: string, middle: string, subject: string, tail: string)
    requires AreParts(lead, operation, middle, subject)
    ensures ViolationHere(Composed(lead, operation, middle, subject, tail)) == Some(Violation(Lower(operation), subject))
  {
    var ending := subject + ['"'] + tail;
    var after := middle + ending;
    FoldMeans(lead, LEAD);
    FoldMeans(middle, MIDDLE);
    assert SameLetter(middle[0], ' ');
    forall i | 0 <= i < |operation|
      ensures IsWordChar(operation[i])
    {
      WordCharMeans(operation[i]);
    }
    WordRunOf(operation, after);
    UntilQuoteOf(subject, tail);
    Slices(operation, middle, ending);
    assert ending[..|subject|] == subject;
    FrontSlices(lead, operation + after);
  }

  lemma FrontSlices(a: string, b: string)
    ensures (a + b)[..|a|] == a && (a + b)[|a|..] == b
  {
  }

  lemma AfterLeadHasParts(rest: string) returns (operation: string, middle: string, tail: string)
    requires ViolationAfterLead(rest).Some?
    ensures IsOperation(operation) && SameLetters(middle, " to \"")
    ensures var v := ViolationAfterLead(rest).value;
            v.operation == Lower(operation) && v.subject != "" && '"' !in v.subject
            && rest == operation + (middle + (v.subject + ['"'] + tail))
  {
    var n := WordRun(rest);
    var k := n + |MIDDLE|;
    var m := UntilQuote(rest[k..]);
    operation, middle, tail := rest[..n], rest[n..k], rest[k..][m + 1..];
    FoldMeans(middle, MIDDLE);
    forall i | 0 <= i < n
      ensures IsWordLetter(operation[i])
    {
      WordCharMeans(operation[i]);
    }
    Regrouped(rest, n, k);
    QuotedParts(rest[k..], m);
  }

  lemma Regrouped(s: string, n: nat, k: nat)
    requires n <= k <= |s|
    ensures s == s[..n] + (s[n..k] + s[k..])
  {
  }

  lemma QuotedParts(s: string, m: nat)
    requires m < |s| && s[m] == '"'
    ensures s == s[..m] + ['"'] + s[m + 1..]
  {
  }

  /** What stands at the start of a text is read exactly as it says. */
  lemma HereIsExact(s: string, v: Violation)
    ensures ViolationHere(s) == Some(v) <==> Says(s, v)
  {
    if ViolationHere(s).Some? {
      var lead := s[..|LEAD|];
      FoldMeans(lead, LEAD);
      var operation, middle, tail := AfterLeadHasParts(s[|LEAD|..]);
      var here := ViolationHere(s).value;
      assert AreParts(lead, operation, middle, here.subject);
      assert s == Composed(lead, operation, middle, here.subject, tail);
    }
    if lead, operation, middle, tail :|
        AreParts(lead, operation, middle, v.subject) && v.operation == Lower(operation)
        && s == Composed(lead, operation, middle, v.subject, tail) {
      PartsAreRead(lead, operation, middle, v.subject, tail);
    }
  }

  /** No refusal starts before position n. */
  ghost predicate SilentBefore(s: string, n: nat) { forall j, w :: 0 <= j < n && j <= |s| ==> !Says(s[j..], w) }

  lemma SilentLater(s: string, n: nat)
    requires s != "" && n > 0
    ensures SilentBefore(s, n) <==> (forall w :: !Says(s, w)) && SilentBefore(s[1..], n - 1)
  {
    assert s[0..] == s;
    assert forall j :: 0 < j <= |s| ==> s[j..] == s[1..][j - 1..];
    if (forall w :: !Says(s, w)) && SilentBefore(s[1..], n - 1) {
      forall j, w | 0 <= j < n && j <= |s|
        ensures !Says(s[j..], w)
      {
        assert j > 0 ==> !Says(s[1..][j - 1..], w);
      }
    }
    if SilentBefore(s, n) {
      forall j, w | 0 <= j < n - 1 && j <= |s[1..]|
        ensures !Says(s[1..][j..], w)
      {
        assert !Says(s[j + 1..], w);
      }
    }
  }

  /** An error text is read as the leftmost refusal in it, wherever it stands; a text without one is not read at all. */
  lemma {:induction false} ParsedIsLeftmost(s: string, n: nat, v: Violation)
    ensures n <= |s| && SilentBefore(s, n) && Says(s[n..], v) ==> ParseViolation(s) == Some(v)
    ensures SilentBefore(s, |s| + 1) ==> ParseViolation(s).None?
    decreases |s|
  {
    assert s[0..] == s;
    HereIsExact(s, v);
    if ViolationHere(s).Some? {
      HereIsExact(s, ViolationHere(s).value);
    }
    if s != "" {
      SilentLater(s, |s| + 1);
      if n > 0 {
        SilentLater(s, n);
        ParsedIsLeftmost(s[1..], n - 1, v);
        assert n <= |s| ==> s[1..][n - 1..] == s[n..];
      } else {
        ParsedIsLeftmost(s[1..], 0, v);
      }
    }
  }
}
