/** Results, and the split/join pair that the path, subject and host-name grammars share. */
module Texts {

  datatype Option<+T> = None | Some(value: T)

  datatype Result<+T, +E> = Ok(value: T) | Err(error: E)

  // ----- Characters -----

  predicate IsAsciiSpace(c: char) { c in {' ', '\t', '\n', '\r'} || c == 11 as char || c == 12 as char }

  /** White space, as Unicode has it. */
  predicate IsSpace(c: char) {
    || IsAsciiSpace(c)
    || c as int in {0x85, 0xA0, 0x1680, 0x2028, 0x2029, 0x202F, 0x205F, 0x3000}
    || 0x2000 <= c as int <= 0x200A
  }

  predicate IsBlank(s: string) { forall i :: 0 <= i < |s| ==> IsSpace(s[i]) }

  /** Lower case, for ASCII and for the one other character whose lower case is ASCII and part of a word. */
  function LowerChar(c: char): char {
    if 'A' <= c <= 'Z' then c - 'A' + 'a' else if c == '\U{212A}' then 'k' else c
  }

  function Lower(s: string): (r: string)
    ensures |r| == |s| && forall i :: 0 <= i < |s| ==> r[i] == LowerChar(s[i])
  {
    seq(|s|, i requires 0 <= i < |s| => LowerChar(s[i]))
  }

  /** Simple case folding, complete for comparisons against ASCII text. */
  function Fold(c: char): char {
    if 'A' <= c <= 'Z' then c - 'A' + 'a'
    else if c == '\U{212A}' then 'k'
    else if c == '\U{017F}' then 's'
    else c
  }

  predicate EqualFold(a: string, b: string) {
    |a| == |b| && forall i :: 0 <= i < |a| ==> Fold(a[i]) == Fold(b[i])
  }

  /** The same character but for case; the Kelvin sign is a K and the long s an S. */
  predicate SameLetter(c: char, d: char) {
    || c == d
    || ('A' <= c <= 'Z' && d as int == c as int + 32)
    || ('A' <= d <= 'Z' && c as int == d as int + 32)
    || (c in {'K', 'k', '\U{212A}'} && d in {'K', 'k', '\U{212A}'})
    || (c in {'S', 's', '\U{017F}'} && d in {'S', 's', '\U{017F}'})
  }

  predicate SameLetters(a: string, b: string) { |a| == |b| && forall i :: 0 <= i < |a| ==> SameLetter(a[i], b[i]) }

  lemma FoldMeans(a: string, b: string)
    ensures EqualFold(a, b) <==> SameLetters(a, b)
  {
    forall c: char, d: char
      ensures Fold(c) == Fold(d) <==> SameLetter(c, d)
    {
    }
  }

  // ----- Positions -----

  lemma Assoc<T>(a: seq<T>, b: seq<T>, c: seq<T>)
    ensures a + (b + c) == a + b + c
  {
  }

  function IndexOf(s: string, c: char): (i: nat)
    ensures i <= |s| && c !in s[..i] && (i < |s| ==> s[i] == c)
  {
    if s == [] || s[0] == c then 0 else 1 + IndexOf(s[1..], c)
  }

  function Before(s: string, c: char): string { s[..IndexOf(s, c)] }

  function After(s: string, c: char): string {
    if IndexOf(s, c) < |s| then s[IndexOf(s, c) + 1..] else ""
  }

  lemma {:induction false} IndexOfPast(a: string, c: char, b: string)
    requires c !in a
    ensures IndexOf(a + [c] + b, c) == |a|
  {
    var s := a + [c] + b;
    if a != [] {
      assert s[1..] == a[1..] + [c] + b;
      IndexOfPast(a[1..], c, b);
    }
  }

  // ----- Parts -----

  /** Cuts s at every occurrence of sep; the result always has at least one part. */
  function Split<T(==)>(s: seq<T>, sep: T): (parts: seq<seq<T>>)
    ensures |parts| >= 1
  {
    if s == [] then [[]]
    else if s[0] == sep then [[]] + Split(s[1..], sep)
    else
      var rest := Split(s[1..], sep);
      [[s[0]] + rest[0]] + rest[1..]
  }

  function Join<T>(parts: seq<seq<T>>, sep: T): seq<T> {
    if |parts| == 0 then []
    else if |parts| == 1 then parts[0]
    else parts[0] + [sep] + Join(parts[1..], sep)
  }

  ghost predicate NoneHolds<T>(parts: seq<seq<T>>, sep: T) {
    forall i :: 0 <= i < |parts| ==> sep !in parts[i]
  }

  lemma {:induction false} SplitOne<T>(a: seq<T>, sep: T)
    requires sep !in a
    ensures Split(a, sep) == [a]
  {
    if a != [] {
      SplitOne(a[1..], sep);
      assert [a[0]] + a[1..] == a;
    }
  }

  lemma {:induction false} SplitCons<T>(a: seq<T>, sep: T, b: seq<T>)
    requires sep !in a
    ensures Split(a + [sep] + b, sep) == [a] + Split(b, sep)
  {
    var s := a + [sep] + b;
    if a == [] {
      assert s == [sep] + b;
      assert s[1..] == b;
    } else {
      assert s[1..] == a[1..] + [sep] + b;
      SplitCons(a[1..], sep, b);
      assert [a[0]] + a[1..] == a;
    }
  }

  /** Splitting distributes over a separator between any two texts. */
  lemma {:induction false} SplitConcat<T>(a: seq<T>, sep: T, b: seq<T>)
    ensures Split(a + [sep] + b, sep) == Split(a, sep) + Split(b, sep)
  {
    var s := a + [sep] + b;
    if a == [] {
      assert s == [sep] + b && s[1..] == b;
    } else {
      assert s[0] == a[0] && s[1..] == a[1..] + [sep] + b;
      SplitConcat(a[1..], sep, b);
      assert Split(s[1..], sep) == Split(a[1..], sep) + Split(b, sep);
      if a[0] == sep {
        Assoc([[]], Split(a[1..], sep), Split(b, sep));
      } else {
        PrefixedConcat(a[0], Split(a[1..], sep), Split(b, sep));
      }
    }
  }

  lemma PrefixedConcat<T>(x: T, parts: seq<seq<T>>, tail: seq<seq<T>>)
    requires parts != []
    ensures [[x] + (parts + tail)[0]] + (parts + tail)[1..] == [[x] + parts[0]] + parts[1..] + tail
  {
    assert (parts + tail)[1..] == parts[1..] + tail;
  }

  lemma {:induction false} SplitJoin<T>(s: seq<T>, sep: T)
    ensures Join(Split(s, sep), sep) == s
    ensures NoneHolds(Split(s, sep), sep)
  {
    if s != [] {
      var rest := Split(s[1..], sep);
      SplitJoin(s[1..], sep);
      assert [s[0]] + s[1..] == s;
      if s[0] == sep {
        JoinSeparated(rest, sep);
      } else {
        JoinPrefixed(s[0], rest, sep);
      }
    }
  }

  lemma JoinSeparated<T>(parts: seq<seq<T>>, sep: T)
    requires parts != [] && NoneHolds(parts, sep)
    ensures Join([[]] + parts, sep) == [sep] + Join(parts, sep) && NoneHolds([[]] + parts, sep)
  {
    assert ([[]] + parts)[1..] == parts;
    assert [] + [sep] + Join(parts, sep) == [sep] + Join(parts, sep);
  }

  lemma PrefixRegroups<T>(x: T, a: seq<T>, b: seq<T>, c: seq<T>)
    ensures [x] + a + b + c == [x] + (a + b + c)
  {
  }

  lemma JoinPrefixed<T>(x: T, parts: seq<seq<T>>, sep: T)
    requires parts != [] && NoneHolds(parts, sep) && x != sep
    ensures Join([[x] + parts[0]] + parts[1..], sep) == [x] + Join(parts, sep)
    ensures NoneHolds([[x] + parts[0]] + parts[1..], sep)
  {
    var whole := [[x] + parts[0]] + parts[1..];
    assert whole[1..] == parts[1..];
    PrefixRegroups(x, parts[0], [sep], Join(parts[1..], sep));
  }

  lemma {:induction false} JoinSplit<T>(parts: seq<seq<T>>, sep: T)
    requires |parts| >= 1 && NoneHolds(parts, sep)
    ensures Split(Join(parts, sep), sep) == parts
  {
    if |parts| == 1 {
      SplitOne(parts[0], sep);
    } else {
      assert NoneHolds(parts[1..], sep);
      JoinSplit(parts[1..], sep);
      SplitCons(parts[0], sep, Join(parts[1..], sep));
      assert [parts[0]] + parts[1..] == parts;
    }
  }

  /** A joined text has no symbols but those of its parts and the separator. */
  lemma {:induction false} JoinHolds<T>(parts: seq<seq<T>>, sep: T, x: T)
    requires x in Join(parts, sep)
    ensures x == sep || exists i :: 0 <= i < |parts| && x in parts[i]
  {
    if |parts| > 1 && x !in parts[0] && x != sep {
      JoinHolds(parts[1..], sep, x);
      var i :| 0 <= i < |parts[1..]| && x in parts[1..][i];
      assert x in parts[i + 1];
    }
  }

  lemma {:induction false} SplitHolds<T>(s: seq<T>, sep: T, x: T)
    ensures x in s ==> x == sep || exists i :: 0 <= i < |Split(s, sep)| && x in Split(s, sep)[i]
    ensures forall i :: 0 <= i < |Split(s, sep)| && x in Split(s, sep)[i] ==> x in s
  {
    SplitJoin(s, sep);
    if x in s {
      JoinHolds(Split(s, sep), sep, x);
    }
    JoinGives(Split(s, sep), sep, x);
  }

  lemma {:induction false} JoinGives<T>(parts: seq<seq<T>>, sep: T, x: T)
    ensures forall i :: 0 <= i < |parts| && x in parts[i] ==> x in Join(parts, sep)
  {
    if |parts| > 1 {
      JoinGives(parts[1..], sep, x);
      forall i | 0 <= i < |parts| && x in parts[i]
        ensures x in Join(parts, sep)
      {
        if i > 0 {
          assert parts[1..][i - 1] == parts[i];
        }
      }
    }
  }
}
