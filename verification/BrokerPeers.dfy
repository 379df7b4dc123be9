/** The peer itself: buffered reading, subscriptions, routing and the command loop. */
module BrokerPeers {
  import opened Texts
  import opened Subjects

  // ----- Buffered reading -----

  /** A buffered stream: what is left to read. Reads may come back short. */
  class Reader {
    var data: string

    constructor (data: string)
      ensures this.data == data
    {
      this.data := data;
    }

    /** Takes everything through the next newline; eof when there is none. */
    method ReadLine() returns (line: string, eof: bool)
      modifies this
      ensures eof <==> '\n' !in old(data)
      ensures eof ==> data == ""
      ensures !eof ==> line == old(data)[..IndexOf(old(data), '\n')] && data == old(data)[IndexOf(old(data), '\n') + 1..]
    {
      var n := IndexOf(data, '\n');
      eof := n == |data|;
      assert eof ==> data[..n] == data;
      line := data[..n];
      data := if eof then "" else data[n + 1..];
    }

    /** Fills some of buf from the given offset: at least one byte unless the stream is at its end. */
    method Read(buf: array<char>, from: nat) returns (m: nat, eof: bool)
      requires from < buf.Length
      modifies this, buf
      ensures eof <==> old(data) == ""
      ensures eof ==> m == 0 && data == ""
      ensures !eof ==> 0 < m <= |old(data)|
      ensures from + m <= buf.Length
      ensures buf[..from] == old(buf[..from]) && buf[from..from + m] + data == old(data)
    {
      if data == "" {
        return 0, true;
      }
      var most := if |data| < buf.Length - from then |data| else buf.Length - from;
      m :| 1 <= m <= most;
      forall i | 0 <= i < m {
        buf[from + i] := data[i];
      }
      assert buf[from..from + m] == data[..m];
      data := data[m..];
      eof := false;
    }
  }

  /** Reads until the buffer is full: consumes exactly its length, or drains a stream that is too short. */
  method ReadFull(r: Reader, buf: array<char>) returns (n: nat, eof: bool)
    modifies r, buf
    ensures eof <==> |old(r.data)| < buf.Length
    ensures eof ==> r.data == ""
    ensures !eof ==> n == buf.Length && buf[..] + r.data == old(r.data)
  {
    n := 0;
    while n < buf.Length
      invariant n <= buf.Length && buf[..n] + r.data == old(r.data)
    {
      ghost var read, left := buf[..n], r.data;
      var m, end := r.Read(buf, n);
      assert buf[..n + m] == read + buf[n..n + m];
      n := n + m;
      if end {
        assert buf[..n] + "" == buf[..n];
        return n, true;
      }
    }
    assert buf[..n] == buf[..];
    eof := false;
  }

  // ----- Peers and routing -----

  datatype Sub = Listening(subject: string, queue: string)

  datatype Frame =
    | Line(text: string)
    | Violation(operation: string, subject: string)
    | Message(subject: string, sid: string, reply: string, body: string)

  /** One connection: its subscriptions by id, and what has been written to it. */
  class Peer {
    var subs: map<string, Sub>
    var out: seq<Frame>

    constructor ()
      ensures subs == map[] && out == []
    {
      subs, out := map[], [];
    }
  }

  ghost predicate Distinct(peers: seq<Peer>) { forall i, j :: 0 <= i < j < |peers| ==> peers[i] != peers[j] }

  function Matching(subs: map<string, Sub>, subject: string): set<string> {
    set sid | sid in subs && SubjectMatches(subs[sid].subject, subject)
  }

  /** One message for each matching subscription, and none for any other. */
  ghost function MessagesFor(subs: map<string, Sub>, subject: string, reply: string, body: string): multiset<Frame> {
    MessagesTo(Matching(subs, subject), subject, reply, body)
  }

  ghost function MessagesTo(sids: set<string>, subject: string, reply: string, body: string): multiset<Frame> {
    multiset(set sid | sid in sids :: Message(subject, sid, reply, body))
  }

  lemma MessagesToOne(sids: set<string>, sid: string, subject: string, reply: string, body: string)
    requires sid !in sids
    ensures MessagesTo(sids + {sid}, subject, reply, body)
         == MessagesTo(sids, subject, reply, body) + multiset{Message(subject, sid, reply, body)}
  {
    var before := set x | x in sids :: Message(subject, x, reply, body);
    var after := set x | x in sids + {sid} :: Message(subject, x, reply, body);
    assert after == before + {Message(subject, sid, reply, body)};
  }

  /** What was appended to a peer's output since it was `before`. */
  ghost predicate Grew(before: seq<Frame>, after: seq<Frame>, added: multiset<Frame>) {
    before <= after && multiset(after) == multiset(before) + added
  }

  lemma GrewOne(before: seq<Frame>, out: seq<Frame>, added: multiset<Frame>, frame: Frame)
    requires Grew(before, out, added)
    ensures Grew(before, out + [frame], added + multiset{frame})
  {
  }

  /** Delivers one publish to one peer, visiting its subscriptions in any order. */
  method RouteTo(peer: Peer, subject: string, reply: string, body: string)
    modifies peer`out
    ensures Grew(old(peer.out), peer.out, MessagesFor(peer.subs, subject, reply, body))
  {
    var pending := peer.subs.Keys;
    ghost var hits: set<string> := {};
    while pending != {}
      invariant pending <= peer.subs.Keys
      invariant forall sid :: sid in hits <==> sid in Matching(peer.subs, subject) && sid !in pending
      invariant Grew(old(peer.out), peer.out, MessagesTo(hits, subject, reply, body))
      decreases |pending|
    {
      var sid :| sid in pending;
      var hit := Matches(peer.subs[sid].subject, subject);
      if hit {
        MessagesToOne(hits, sid, subject, reply, body);
        GrewOne(old(peer.out), peer.out, MessagesTo(hits, subject, reply, body), Message(subject, sid, reply, body));
        peer.out := peer.out + [Message(subject, sid, reply, body)];
        hits := hits + {sid};
      }
      pending := pending - {sid};
    }
    assert hits == Matching(peer.subs, subject);
  }

  /** Delivers exactly once to each matching subscription of every peer, and to no other. */
  method Route(peers: seq<Peer>, subject: string, reply: string, body: string)
    requires Distinct(peers)
    modifies (set p <- peers :: p)`out
    ensures forall p :: p in peers ==> Grew(old(p.out), p.out, MessagesFor(p.subs, subject, reply, body))
  {
    for i := 0 to |peers|
      invariant forall k :: 0 <= k < i ==> Grew(old(peers[k].out), peers[k].out, MessagesFor(peers[k].subs, subject, reply, body))
      invariant forall k :: i <= k < |peers| ==> peers[k].out == old(peers[k].out)
    {
      assert peers[i] in peers;
      RouteTo(peers[i], subject, reply, body);
    }
  }
}
