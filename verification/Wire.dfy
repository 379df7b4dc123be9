/**
 The client side of the wire protocol, as the peer reads it: command lines, and payloads framed by a declared length.

 A byte string is a string with one character per byte.
 */
module Wire {
  import opened Texts
  import opened Decimals

  // ----- Lines and fields -----

  function TrimEnd(s: string): string {
    if s != [] && s[|s| - 1] in {'\r', '\n'} then TrimEnd(s[..|s| - 1]) else s
  }

  /** How many bytes of white space s starts with, as far as one character goes. */
  function SpaceLength(s: string): (n: nat)
    ensures n <= |s|
  {
    if s == "" then 0
    else if IsAsciiSpace(s[0]) then 1
    else if |s| >= 2 && s[0] == 0xC2 as char && s[1] as int in {0x85, 0xA0} then 2
    else if |s| >= 3 && IsWideSpace(s[0] as int, s[1] as int, s[2] as int) then 3
    else 0
  }

  /** The white space of three bytes in UTF-8. */
  predicate IsWideSpace(a: int, b: int, c: int) {
    || (a == 0xE1 && b == 0x9A && c == 0x80)
    || (a == 0xE2 && b == 0x80 && (0x80 <= c <= 0x8A || c in {0xA8, 0xA9, 0xAF}))
    || (a == 0xE2 && b == 0x81 && c == 0x9F)
    || (a == 0xE3 && b == 0x80 && c == 0x80)
  }

  function WordLength(s: string): (n: nat)
    ensures n <= |s| && (s != "" && SpaceLength(s) == 0 ==> n > 0)
  {
    if s == "" || SpaceLength(s) > 0 then 0 else 1 + WordLength(s[1..])
  }

  /** The maximal runs of non-space characters. */
  function Fields(s: string): seq<string>
    decreases |s|
  {
    if s == "" then []
    else if SpaceLength(s) > 0 then Fields(s[SpaceLength(s)..])
    else [s[..WordLength(s)]] + Fields(s[WordLength(s)..])
  }

  function UpperChar(c: char): char { if 'a' <= c <= 'z' then c - 'a' + 'A' else c }

  /**
   Upper case, as far as ASCII goes: of all other characters only the dotless i and the long s have an ASCII upper case.
   */
  function Upper(s: string): string
    decreases |s|
  {
    if s == "" then ""
    else if |s| >= 2 && s[0] == 0xC4 as char && s[1] == 0xB1 as char then "I" + Upper(s[2..])
    else if |s| >= 2 && s[0] == 0xC5 as char && s[1] == 0xBF as char then "S" + Upper(s[2..])
    else [UpperChar(s[0])] + Upper(s[1..])
  }

  predicate NoSpace(s: string) { forall i :: 0 <= i < |s| ==> SpaceLength(s[i..]) == 0 }

  predicate IsWord(s: string) { s != "" && NoSpace(s) }

  ghost predicate AllWords(words: seq<string>) { forall i :: 0 <= i < |words| ==> IsWord(words[i]) }

  /** White space never straddles the end of a word. */
  lemma SpaceKeepsOut(s: string, rest: string)
    requires s != "" && SpaceLength(s) == 0 && (rest == "" || rest[0] as int < 0x80)
    ensures SpaceLength(s + rest) == 0
  {
    if rest == "" {
      assert s + rest == s;
    }
  }

  lemma {:induction false} WordLengthOfWord(w: string, rest: string)
    requires NoSpace(w) && (rest == "" || IsAsciiSpace(rest[0]))
    ensures WordLength(w + rest) == |w|
  {
    if w == "" {
      assert w + rest == rest;
    } else {
      assert w[0..] == w;
      SpaceKeepsOut(w, rest);
      assert (w + rest)[1..] == w[1..] + rest;
      assert forall i :: 0 <= i < |w[1..]| ==> w[1..][i..] == w[i + 1..];
      WordLengthOfWord(w[1..], rest);
    }
  }

  /** Words set apart by single spaces are the fields of the line. */
  lemma {:induction false} FieldsOfWords(words: seq<string>)
    requires AllWords(words)
    ensures Fields(Join(words, ' ')) == words
  {
    if words != [] {
      var w, more := words[0], Join(words[1..], ' ');
      var rest := if |words| == 1 then "" else " " + more;
      assert Join(words, ' ') == w + rest;
      FieldsOfWords(words[1..]);
      assert words == [w] + words[1..];
      FirstField(w, rest);
      if |words| > 1 {
        assert SpaceLength(rest) == 1 && rest[1..] == more;
      } else {
        assert words[1..] == [];
      }
    }
  }

  lemma FirstField(w: string, rest: string)
    requires IsWord(w) && (rest == "" || IsAsciiSpace(rest[0]))
    ensures Fields(w + rest) == [w] + Fields(rest)
  {
    WordLengthOfWord(w, rest);
    assert w[0..] == w;
    SpaceKeepsOut(w, rest);
    assert (w + rest)[..|w|] == w && (w + rest)[|w|..] == rest;
  }

  lemma WordIsPlain(w: string)
    requires NoSpace(w)
    ensures forall i :: 0 <= i < |w| ==> !IsAsciiSpace(w[i])
  {
    forall i | 0 <= i < |w| ensures !IsAsciiSpace(w[i]) {
      assert w[i..][0] == w[i] && SpaceLength(w[i..]) == 0;
    }
  }

  lemma {:induction false} JoinedWordsPlain(words: seq<string>, c: char)
    requires AllWords(words) && IsAsciiSpace(c) && c != ' '
    ensures c !in Join(words, ' ')
    ensures words != [] ==> Join(words, ' ') != [] && !IsAsciiSpace(Join(words, ' ')[|Join(words, ' ')| - 1])
  {
    if words != [] {
      WordIsPlain(words[0]);
    }
    if |words| > 1 {
      JoinedWordsPlain(words[1..], c);
      var tail := Join(words[1..], ' ');
      var line := words[0] + [' '] + tail;
      assert line[|line| - 1] == tail[|tail| - 1];
    }
  }

  // ----- Reading one command -----

  /** What one command makes the peer do; Nothing also stands for what it skips. */
  datatype Effect =
    | Nothing
    | Connected
    | Pinged
    | Subscribed(sid: string, subject: string, queue: string)
    | Unsubscribed(sid: string)
    | Published(subject: string, reply: string, header: string, body: string)

  datatype Next = End | Crash | Took(effect: Effect, rest: string)

  datatype Declared = Declared(subject: string, reply: string, headerLength: int, total: int)

  function DeclaredBy(f: seq<string>, withHeaders: bool): Option<Declared> {
    if withHeaders && |f| == 3 then Some(Declared(f[0], "", Atoi(f[1]), Atoi(f[2])))
    else if withHeaders && |f| == 4 then Some(Declared(f[0], f[1], Atoi(f[2]), Atoi(f[3])))
    else if !withHeaders && |f| == 2 then Some(Declared(f[0], "", 0, Atoi(f[1])))
    else if !withHeaders && |f| == 3 then Some(Declared(f[0], f[1], 0, Atoi(f[2])))
    else None
  }

  /** How many payload bytes are headers: none unless a positive length within the payload was declared. */
  function HeaderBytes(d: Declared): (n: nat)
    requires d.total >= 0
    ensures n <= d.total
  {
    if 0 < d.headerLength <= d.total then d.headerLength else 0
  }

  /** A publish: its payload is the declared number of bytes, and two more end it. */
  function TakePub(head: string, withHeaders: bool, input: string): Next {
    match DeclaredBy(Fields(head), withHeaders)
    case None => Took(Nothing, input)
    case Some(d) =>
      if d.total + 2 < 0 || d.total + 2 > MAX_INT then Crash
      else if |input| < d.total + 2 then Took(Nothing, "")
      else if d.total < 0 then Crash
      else
        var payload := input[..d.total];
        Took(Published(d.subject, d.reply, payload[..HeaderBytes(d)], payload[HeaderBytes(d)..]), input[d.total + 2..])
  }

  function TakeSub(head: string): Effect {
    var f := Fields(head);
    if |f| == 2 then Subscribed(f[1], f[0], "")
    else if |f| == 3 then Subscribed(f[2], f[0], f[1])
    else Nothing
  }

  function TakeVerb(verb: string, head: string, input: string): Next {
    if verb == "CONNECT" then Took(Connected, input)
    else if verb == "PING" then Took(Pinged, input)
    else if verb == "SUB" then Took(TakeSub(head), input)
    else if verb == "UNSUB" then Took(Unsubscribed(Before(head, ' ')), input)
    else if verb == "PUB" then TakePub(head, false, input)
    else if verb == "HPUB" then TakePub(head, true, input)
    else Took(Nothing, input)
  }

  function TakeLine(line: string, input: string): Next {
    if line == "" then Took(Nothing, input) else TakeVerb(Upper(Before(line, ' ')), After(line, ' '), input)
  }

  function TakeNext(input: string): (next: Next)
    ensures next.Took? ==> |next.rest| < |input|
  {
    var n := IndexOf(input, '\n');
    if n == |input| then End else TakeLine(TrimEnd(input[..n]), input[n + 1..])
  }

  /** What a whole stream makes the peer do, and whether it ends in a crash. */
  function ParseStream(input: string): (seq<Effect>, bool)
    decreases |input|
  {
    match TakeNext(input)
    case End => ([], false)
    case Crash => ([], true)
    case Took(effect, rest) =>
      var (more, crashed) := ParseStream(rest);
      ([effect] + more, crashed)
  }

  lemma Partition(input: string, total: nat, h: nat)
    requires total + 2 <= |input| && h <= total
    ensures input == input[..total][..h] + input[..total][h..] + input[total..total + 2] + input[total + 2..]
  {
    assert input[..total][..h] + input[..total][h..] == input[..total];
  }

  /** A publish takes its declared payload and two bytes from the stream, and headers and body partition the payload. */
  lemma PublishConsumes(head: string, withHeaders: bool, input: string, header: string, body: string, rest: string)
    requires var next := TakePub(head, withHeaders, input);
             next.Took? && next.effect.Published? && next.effect.header == header && next.effect.body == body && next.rest == rest
    ensures DeclaredBy(Fields(head), withHeaders).Some?
    ensures |header| + |body| == DeclaredBy(Fields(head), withHeaders).value.total
    ensures exists ending :: |ending| == 2 && input == header + body + ending + rest
  {
    var d := DeclaredBy(Fields(head), withHeaders).value;
    Partition(input, d.total, HeaderBytes(d));
    assert |input[d.total..d.total + 2]| == 2;
  }

  // ----- The commands a client writes -----

  datatype Command =
    | Connect(options: string)
    | Ping
    | Pong
    | Sub(subject: string, queue: Option<string>, sid: string)
    | Unsub(sid: string, max: Option<nat>)
    | Pub(subject: string, reply: Option<string>, payload: string)
    | HPub(subject: string, reply: Option<string>, header: string, payload: string)

  function Word(w: Option<string>): seq<string> { if w.Some? then [w.value] else [] }

  function Words(c: Command): seq<string> {
    match c
    case Connect(options) => ["CONNECT", options]
    case Ping => ["PING"]
    case Pong => ["PONG"]
    case Sub(subject, queue, sid) => ["SUB", subject] + Word(queue) + [sid]
    case Unsub(sid, max) => ["UNSUB", sid] + (if max.Some? then [Decimal(max.value)] else [])
    case Pub(subject, reply, payload) => ["PUB", subject] + Word(reply) + [Decimal(|payload|)]
    case HPub(subject, reply, header, payload) =>
      ["HPUB", subject] + Word(reply) + [Decimal(|header|), Decimal(|header| + |payload|)]
  }

  function Payload(c: Command): string {
    match c
    case Pub(_, _, payload) => payload + "\r\n"
    case HPub(_, _, header, payload) => header + payload + "\r\n"
    case _ => ""
  }

  function Spell(c: Command): string { Join(Words(c), ' ') + "\r\n" + Payload(c) }

  function SpellAll(cs: seq<Command>): string { if cs == [] then "" else Spell(cs[0]) + SpellAll(cs[1..]) }

  predicate OptionalWord(w: Option<string>) { w.Some? ==> IsWord(w.value) }

  /** Subjects, queues and ids are words, options one line; payloads and headers are any bytes at all. */
  predicate WellFormed(c: Command) {
    match c
    case Connect(options) => '\n' !in options
    case Ping => true
    case Pong => true
    case Sub(subject, queue, sid) => IsWord(subject) && OptionalWord(queue) && IsWord(sid)
    case Unsub(sid, max) => IsWord(sid)
    case Pub(subject, reply, payload) => IsWord(subject) && OptionalWord(reply) && |payload| + 2 <= MAX_INT
    case HPub(subject, reply, header, payload) =>
      IsWord(subject) && OptionalWord(reply) && |header| + |payload| + 2 <= MAX_INT
  }

  function Text(w: Option<string>): string { if w.Some? then w.value else "" }

  function Meaning(c: Command): Effect {
    match c
    case Connect(_) => Connected
    case Ping => Pinged
    case Pong => Nothing
    case Sub(subject, queue, sid) => Subscribed(sid, subject, Text(queue))
    case Unsub(sid, _) => Unsubscribed(sid)
    case Pub(subject, reply, payload) => Published(subject, Text(reply), "", payload)
    case HPub(subject, reply, header, payload) => Published(subject, Text(reply), header, payload)
  }

  lemma DecimalIsWord(n: nat)
    ensures IsWord(Decimal(n))
  {
    forall i | 0 <= i < |Decimal(n)| ensures SpaceLength(Decimal(n)[i..]) == 0 {
      assert IsDigit(Decimal(n)[i]) && Decimal(n)[i..][0] == Decimal(n)[i];
    }
  }

  lemma WordsAreWords(c: Command)
    requires WellFormed(c) && !c.Connect?
    ensures AllWords(Words(c))
  {
    VerbIsUpper(c);
    LettersAreWord(Words(c)[0]);
    match c
    case Unsub(_, max) =>
      if max.Some? {
        DecimalIsWord(max.value);
      }
    case Pub(_, _, payload) => DecimalIsWord(|payload|);
    case HPub(_, _, header, payload) =>
      DecimalIsWord(|header|);
      DecimalIsWord(|header| + |payload|);
    case _ =>
  }

  lemma LettersAreWord(verb: string)
    requires verb != "" && forall i :: 0 <= i < |verb| ==> 'A' <= verb[i] <= 'Z'
    ensures IsWord(verb)
  {
    forall i | 0 <= i < |verb| ensures SpaceLength(verb[i..]) == 0 {
      assert verb[i..][0] == verb[i];
    }
  }

  /** The peer reads a line of words back as its verb and the rest of the line, leaving what follows untouched. */
  lemma LineOfWords(words: seq<string>, input: string)
    requires words != [] && AllWords(words)
    ensures TakeNext(Join(words, ' ') + "\r\n" + input) == TakeLine(Join(words, ' '), input)
    ensures Before(Join(words, ' '), ' ') == words[0]
    ensures After(Join(words, ' '), ' ') == Join(words[1..], ' ')
  {
    JoinedWordsPlain(words, '\n');
    LineIsTaken(Join(words, ' '), input);
    WordIsPlain(words[0]);
    if |words| == 1 {
      assert words[1..] == [];
    } else {
      IndexOfPast(words[0], ' ', Join(words[1..], ' '));
    }
  }

  lemma LineIsTaken(line: string, input: string)
    requires '\n' !in line && (line != "" ==> line[|line| - 1] != '\r')
    ensures TakeNext(line + "\r\n" + input) == TakeLine(line, input)
  {
    var s := line + "\r\n" + input;
    assert s == (line + "\r") + ['\n'] + input;
    IndexOfPast(line + "\r", '\n', input);
    assert s[..|line| + 1] == line + "\r" && s[|line| + 2..] == input;
    TrimEndOf(line);
  }

  lemma TrimEndOf(line: string)
    requires '\n' !in line && (line != "" ==> line[|line| - 1] != '\r')
    ensures TrimEnd(line + "\r") == line
  {
    assert (line + "\r")[..|line|] == line;
    assert line != "" ==> line[|line| - 1] in line;
  }

  lemma {:induction false} UpperOfVerb(verb: string)
    requires forall i :: 0 <= i < |verb| ==> 'A' <= verb[i] <= 'Z'
    ensures Upper(verb) == verb
  {
    if verb != "" {
      UpperOfVerb(verb[1..]);
      assert [verb[0]] + verb[1..] == verb;
    }
  }

  lemma PayloadTaken(total: nat, payload: string, rest: string)
    requires |payload| == total
    ensures (payload + "\r\n" + rest)[..total] == payload && (payload + "\r\n" + rest)[total + 2..] == rest
  {
  }

  lemma VerbTaken(words: seq<string>, input: string)
    requires words != [] && AllWords(words)
    requires forall i :: 0 <= i < |words[0]| ==> 'A' <= words[0][i] <= 'Z'
    ensures TakeNext(Join(words, ' ') + "\r\n" + input) == TakeVerb(words[0], Join(words[1..], ' '), input)
    ensures Fields(Join(words[1..], ' ')) == words[1..]
  {
    LineOfWords(words, input);
    assert AllWords(words[1..]);
    FieldsOfWords(words[1..]);
    JoinedWordsPlain(words, '\n');
    UpperOfVerb(words[0]);
  }

  lemma VerbIsUpper(c: Command)
    ensures Words(c) != [] && Words(c)[0] != "" && forall i :: 0 <= i < |Words(c)[0]| ==> 'A' <= Words(c)[0][i] <= 'Z'
  {
  }

  lemma SpelledLine(c: Command, rest: string)
    requires WellFormed(c) && !c.Connect?
    ensures TakeNext(Spell(c) + rest) == TakeVerb(Words(c)[0], Join(Words(c)[1..], ' '), Payload(c) + rest)
    ensures Fields(Join(Words(c)[1..], ' ')) == Words(c)[1..]
  {
    var words, payload := Words(c), Payload(c);
    WordsAreWords(c);
    VerbIsUpper(c);
    VerbTaken(words, payload + rest);
    Assoc(Join(words, ' ') + "\r\n", payload, rest);
  }

  lemma SpelledUnsub(c: Command)
    requires WellFormed(c) && c.Unsub?
    ensures Before(Join(Words(c)[1..], ' '), ' ') == c.sid
  {
    WordIsPlain(c.sid);
    if c.max.Some? {
      IndexOfPast(c.sid, ' ', Decimal(c.max.value));
      assert Words(c)[1..] == [c.sid, Decimal(c.max.value)];
      assert Join(Words(c)[1..], ' ') == c.sid + [' '] + Decimal(c.max.value);
    } else {
      assert Words(c)[1..] == [c.sid];
    }
  }

  lemma {:induction false} TrimEndKeeps(word: string, s: string)
    requires word != "" && word[|word| - 1] !in {'\r', '\n'}
    ensures TrimEnd(word + s) == word + TrimEnd(s)
  {
    if s == "" {
      assert word + s == word;
    } else if s[|s| - 1] in {'\r', '\n'} {
      assert (word + s)[..|word + s| - 1] == word + s[..|s| - 1];
      TrimEndKeeps(word, s[..|s| - 1]);
    }
  }

  lemma SpelledConnect(options: string, rest: string)
    requires '\n' !in options
    ensures TakeNext(Spell(Connect(options)) + rest) == Took(Connected, rest)
  {
    var verb, tail := "CONNECT ", options + "\r";
    var s := Spell(Connect(options)) + rest;
    var words := ["CONNECT", options];
    assert words[1..] == [options] && Join(words, ' ') == verb + options;
    assert s == (verb + tail) + ['\n'] + rest;
    IndexOfPast(verb + tail, '\n', rest);
    assert s[..|verb + tail|] == verb + tail;
    TrimEndKeeps(verb, tail);
    var line := verb + TrimEnd(tail);
    assert line == "CONNECT" + [' '] + TrimEnd(tail);
    IndexOfPast("CONNECT", ' ', TrimEnd(tail));
    assert Before(line, ' ') == "CONNECT";
    UpperOfVerb("CONNECT");
  }

  lemma VerbMeans(c: Command, rest: string)
    requires WellFormed(c) && !c.Connect? && Fields(Join(Words(c)[1..], ' ')) == Words(c)[1..]
    ensures TakeVerb(Words(c)[0], Join(Words(c)[1..], ' '), Payload(c) + rest) == Took(Meaning(c), rest)
  {
    if c.Pub? {
      SpelledPub(c, rest);
    } else if c.HPub? {
      SpelledHPub(c, rest);
    } else {
      assert Payload(c) + rest == rest;
      SpelledOther(c, rest);
    }
  }

  lemma SpelledOther(c: Command, rest: string)
    requires WellFormed(c) && (c.Ping? || c.Pong? || c.Sub? || c.Unsub?)
    requires Fields(Join(Words(c)[1..], ' ')) == Words(c)[1..]
    ensures TakeVerb(Words(c)[0], Join(Words(c)[1..], ' '), rest) == Took(Meaning(c), rest)
  {
    if c.Unsub? {
      SpelledUnsub(c);
    }
  }

  /** Framing: whatever bytes a command carries, and whatever follows it, the peer takes exactly that command. */
  lemma SpelledIsTaken(c: Command, rest: string)
    requires WellFormed(c)
    ensures TakeNext(Spell(c) + rest) == Took(Meaning(c), rest)
  {
    if c.Connect? {
      SpelledConnect(c.options, rest);
    } else {
      SpelledLine(c, rest);
      VerbMeans(c, rest);
    }
  }

  lemma SpelledPub(c: Command, rest: string)
    requires WellFormed(c) && c.Pub? && Fields(Join(Words(c)[1..], ' ')) == Words(c)[1..]
    ensures TakePub(Join(Words(c)[1..], ' '), false, Payload(c) + rest) == Took(Meaning(c), rest)
  {
    AtoiOfDecimal(|c.payload|);
    PayloadTaken(|c.payload|, c.payload, rest);
    assert Payload(c) + rest == c.payload + "\r\n" + rest;
  }

  lemma SpelledHPub(c: Command, rest: string)
    requires WellFormed(c) && c.HPub? && Fields(Join(Words(c)[1..], ' ')) == Words(c)[1..]
    ensures TakePub(Join(Words(c)[1..], ' '), true, Payload(c) + rest) == Took(Meaning(c), rest)
  {
    var bytes := c.header + c.payload;
    AtoiOfDecimal(|c.header|);
    AtoiOfDecimal(|bytes|);
    PayloadTaken(|bytes|, bytes, rest);
    assert Payload(c) + rest == bytes + "\r\n" + rest;
    Halves(c.header, c.payload);
  }

  lemma Halves(a: string, b: string)
    ensures (a + b)[..|a|] == a && (a + b)[|a|..] == b
  {
  }

  function Meanings(cs: seq<Command>): (es: seq<Effect>)
    ensures |es| == |cs| && forall i :: 0 <= i < |cs| ==> es[i] == Meaning(cs[i])
  {
    seq(|cs|, i requires 0 <= i < |cs| => Meaning(cs[i]))
  }

  lemma StreamStep(c: Command, rest: string, more: seq<Effect>)
    requires WellFormed(c) && ParseStream(rest) == (more, false)
    ensures ParseStream(Spell(c) + rest) == ([Meaning(c)] + more, false)
  {
    SpelledIsTaken(c, rest);
    var input := Spell(c) + rest;
    TookFirst(input, Meaning(c), rest, more);
  }

  lemma TookFirst(input: string, effect: Effect, rest: string, more: seq<Effect>)
    requires TakeNext(input) == Took(effect, rest) && ParseStream(rest) == (more, false)
    ensures ParseStream(input) == ([effect] + more, false)
  {
  }

  /** Reading the spelling of any well-formed command sequence gives that sequence back, command for command. */
  lemma {:induction false} StreamRoundTrip(cs: seq<Command>)
    requires forall i :: 0 <= i < |cs| ==> WellFormed(cs[i])
    ensures ParseStream(SpellAll(cs)) == (Meanings(cs), false)
  {
    if cs != [] {
      var rest := cs[1..];
      StreamRoundTrip(rest);
      StreamStep(cs[0], SpellAll(rest), Meanings(rest));
      MeaningsCons(cs);
    }
  }

  lemma MeaningsCons(cs: seq<Command>)
    requires cs != []
    ensures Meanings(cs) == [Meaning(cs[0])] + Meanings(cs[1..])
  {
  }
}
