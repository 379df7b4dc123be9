/** The header block of a publish, as the peer hands it to a responder. A byte string has one character per byte. */
module BrokerHeaders {
  import opened Texts
  import opened Wire

  /** The library's lower-casing of header names. */
  type Lowering = string -> string

  // ----- Reading -----

  function CrlfAt(s: string): (i: nat)
    ensures i <= |s| && (i < |s| ==> i + 1 < |s| && s[i] == '\r' && s[i + 1] == '\n')
  {
    if |s| < 2 then |s| else if s[0] == '\r' && s[1] == '\n' then 0 else 1 + CrlfAt(s[1..])
  }

  function Lines(s: string): seq<string>
    decreases |s|
  {
    var i := CrlfAt(s);
    if i == |s| then [s] else [s[..i]] + Lines(s[i + 2..])
  }

  function TrimLeft(s: string): string
    decreases |s|
  {
    if SpaceLength(s) == 0 then s else TrimLeft(s[SpaceLength(s)..])
  }

  /** How many bytes of white space s ends with, as far as one character goes. */
  function LastSpaceLength(s: string): (n: nat)
    ensures n <= |s|
  {
    var n := |s|;
    if n >= 1 && IsAsciiSpace(s[n - 1]) then 1
    else if n >= 2 && SpaceLength(s[n - 2..]) == 2 then 2
    else if n >= 3 && SpaceLength(s[n - 3..]) == 3 then 3
    else 0
  }

  function TrimRight(s: string): string
    decreases |s|
  {
    if LastSpaceLength(s) == 0 then s else TrimRight(s[..|s| - LastSpaceLength(s)])
  }

  function Trim(s: string): string { TrimRight(TrimLeft(s)) }

  /** A line without a colon says nothing; of two lines for one name the later counts. */
  function AddLine(lower: Lowering, headers: map<string, string>, line: string): map<string, string> {
    if ':' in line then headers[lower(Trim(Before(line, ':'))) := Trim(After(line, ':'))] else headers
  }

  function AddLines(lower: Lowering, lines: seq<string>): map<string, string> {
    if lines == [] then map[] else AddLine(lower, AddLines(lower, lines[..|lines| - 1]), lines[|lines| - 1])
  }

  function ParseHeaders(lower: Lowering, raw: string): map<string, string> { AddLines(lower, Lines(raw)) }

  lemma {:induction false} IndexOfFound(s: string, c: char)
    ensures IndexOf(s, c) < |s| <==> c in s
  {
    if s != "" && s[0] != c {
      IndexOfFound(s[1..], c);
    }
  }

  /** The loop over the lines of the block. */
  method ParseHeaderBlock(lower: Lowering, raw: string) returns (out: map<string, string>)
    ensures out == ParseHeaders(lower, raw)
  {
    var lines := Lines(raw);
    out := map[];
    for n := 0 to |lines|
      invariant out == AddLines(lower, lines[..n])
    {
      var colon := IndexOf(lines[n], ':');
      IndexOfFound(lines[n], ':');
      assert lines[..n + 1][..n] == lines[..n];
      if colon == |lines[n]| {
        continue;
      }
      out := out[lower(Trim(lines[n][..colon])) := Trim(lines[n][colon + 1..])];
    }
    assert lines[..|lines|] == lines;
  }

  // ----- Writing -----

  datatype Entry = Entry(name: string, value: string)

  function EntryLine(e: Entry): string { e.name + ": " + e.value }

  function EntryText(es: seq<Entry>): string {
    if es == [] then "" else EntryLine(es[0]) + "\r\n" + EntryText(es[1..])
  }

  /** The block a client writes: a version line, the entries, an empty line. */
  function Block(version: string, es: seq<Entry>): string { version + "\r\n" + (EntryText(es) + "\r\n") }

  /** Names and values stay within a line and have no white space around them; names hold no colon. */
  predicate IsEntry(e: Entry) {
    '\r' !in e.name && '\r' !in e.value && ':' !in e.name && Trim(e.name) == e.name && Trim(e.value) == e.value
  }

  function Meant(lower: Lowering, es: seq<Entry>): map<string, string> {
    if es == [] then map[]
    else Meant(lower, es[..|es| - 1])[lower(es[|es| - 1].name) := es[|es| - 1].value]
  }

  function EntryLines(es: seq<Entry>): (ls: seq<string>)
    ensures |ls| == |es| && forall i :: 0 <= i < |es| ==> ls[i] == EntryLine(es[i])
  {
    seq(|es|, i requires 0 <= i < |es| => EntryLine(es[i]))
  }

  lemma {:induction false} CrlfPast(a: string, b: string)
    requires '\r' !in a
    ensures CrlfAt(a + ("\r\n" + b)) == |a|
  {
    var s := a + ("\r\n" + b);
    if a == "" {
      assert s == "\r\n" + b;
    } else {
      assert s[0] == a[0] && a[0] in a && s[1..] == a[1..] + ("\r\n" + b);
      CrlfPast(a[1..], b);
    }
  }

  lemma LinesCons(a: string, b: string)
    requires '\r' !in a
    ensures Lines(a + "\r\n" + b) == [a] + Lines(b)
  {
    Assoc(a, "\r\n", b);
    var s := a + ("\r\n" + b);
    CrlfPast(a, b);
    assert s[..|a|] == a && s[|a| + 2..] == b;
  }

  lemma LinesMore(line: string, text: string, end: string, lines: seq<string>, last: seq<string>)
    requires '\r' !in line && Lines(text + end) == lines + last
    ensures Lines(line + "\r\n" + text + end) == [line] + lines + last
  {
    LinesCons(line, text + end);
    Assoc(line + "\r\n", text, end);
    Assoc([line], lines, last);
  }

  lemma TwoEmptyLines()
    ensures Lines("" + "\r\n") == [] + ["", ""]
  {
    LinesCons("", "");
    assert "" + "\r\n" + "" == "" + "\r\n";
    assert [""] + [""] == [] + ["", ""];
  }

  lemma {:induction false} EntryTextLines(es: seq<Entry>)
    requires forall i :: 0 <= i < |es| ==> IsEntry(es[i])
    ensures Lines(EntryText(es) + "\r\n") == EntryLines(es) + ["", ""]
  {
    if es == [] {
      TwoEmptyLines();
    } else {
      var line, rest := EntryLine(es[0]), es[1..];
      assert IsEntry(es[0]);
      EntryTextLines(rest);
      LinesMore(line, EntryText(rest), "\r\n", EntryLines(rest), ["", ""]);
      assert [line] + EntryLines(rest) == EntryLines(es);
    }
  }

  lemma BlockLines(version: string, es: seq<Entry>)
    requires '\r' !in version && forall i :: 0 <= i < |es| ==> IsEntry(es[i])
    ensures Lines(Block(version, es)) == [version] + EntryLines(es) + ["", ""]
  {
    var text := EntryText(es);
    EntryTextLines(es);
    LinesMore(version, text, "\r\n", EntryLines(es), ["", ""]);
    Assoc(version + "\r\n", text, "\r\n");
  }

  lemma EntryIsCut(name: string, value: string)
    requires ':' !in name
    ensures ':' in name + ": " + value
    ensures Before(name + ": " + value, ':') == name && After(name + ": " + value, ':') == " " + value
  {
    var line := name + [':'] + (" " + value);
    assert name + ": " + value == line;
    IndexOfPast(name, ':', " " + value);
    assert line[|name|] == ':';
    assert line[..|name|] == name && line[|name| + 1..] == " " + value;
  }

  lemma SpaceIsTrimmed(value: string)
    ensures Trim(" " + value) == Trim(value)
  {
    assert SpaceLength(" " + value) == 1 && (" " + value)[1..] == value;
  }

  lemma EntryIsAdded(lower: Lowering, headers: map<string, string>, e: Entry)
    requires IsEntry(e)
    ensures AddLine(lower, headers, EntryLine(e)) == headers[lower(e.name) := e.value]
  {
    EntryIsCut(e.name, e.value);
    SpaceIsTrimmed(e.value);
  }

  lemma {:induction false} EntriesAreAdded(lower: Lowering, version: string, es: seq<Entry>)
    requires ':' !in version && forall i :: 0 <= i < |es| ==> IsEntry(es[i])
    ensures AddLines(lower, [version] + EntryLines(es)) == Meant(lower, es)
  {
    var lines := [version] + EntryLines(es);
    if es == [] {
      assert lines == [version] && lines[..0] == [];
    } else {
      var most, last := es[..|es| - 1], es[|es| - 1];
      assert lines[..|lines| - 1] == [version] + EntryLines(most);
      EntriesAreAdded(lower, version, most);
      EntryIsAdded(lower, Meant(lower, most), last);
    }
  }

  lemma EmptyLinesAddNothing(lower: Lowering, lines: seq<string>)
    ensures AddLines(lower, lines + ["", ""]) == AddLines(lower, lines)
  {
    assert (lines + ["", ""])[..|lines| + 1] == lines + [""];
    assert (lines + [""])[..|lines|] == lines;
  }

  lemma ParsedLines(lower: Lowering, raw: string, lines: seq<string>)
    requires Lines(raw) == lines + ["", ""]
    ensures ParseHeaders(lower, raw) == AddLines(lower, lines)
  {
    EmptyLinesAddNothing(lower, lines);
  }

  /** A responder sees the headers a client wrote: each name in lower case with its value, the last of equal names. */
  lemma HeadersRoundTrip(lower: Lowering, version: string, es: seq<Entry>)
    requires '\r' !in version && ':' !in version && forall i :: 0 <= i < |es| ==> IsEntry(es[i])
    ensures ParseHeaders(lower, Block(version, es)) == Meant(lower, es)
  {
    BlockLines(version, es);
    ParsedLines(lower, Block(version, es), [version] + EntryLines(es));
    EntriesAreAdded(lower, version, es);
  }
}
