/** Outbound headers of the NATS transport, and the one header only the host may be sent. */
module TransportHeaders {
  import opened Texts

  type Header = map<string, seq<string>>

  const HOST_CALL_TOKEN := "X-Bytedesk-Host-Call"
  const SUBJECT_LEASE := "X-Bytedesk-Subject-Lease"
  const NATS_MSG_ID := "Nats-Msg-Id"
  const GATEWAY_PREFIX := "cmd.gateway."

  /** The key names the host-call token, in some letter case. */
  predicate NamesToken(key: string) { EqualFold(key, HOST_CALL_TOKEN) }

  function Stripped(h: Header): Header { map k | k in h && !NamesToken(k) :: h[k] }

  predicate IsGateway(subject: string) { GATEWAY_PREFIX <= subject }

  /** The headers of a message on a subject, given the bound token ("" when none is). */
  function Stamped(h: Header, subject: string, token: string): Header {
    if IsGateway(subject) && token != "" then Stripped(h)[HOST_CALL_TOKEN := [token]] else Stripped(h)
  }

  /** No header of the message names the token. */
  ghost predicate Confined(h: Header) { forall k :: k in h ==> !NamesToken(k) }

  /** Exactly one header names the token, and it carries this one. */
  ghost predicate CarriesOnly(h: Header, token: string) {
    && HOST_CALL_TOKEN in h && h[HOST_CALL_TOKEN] == [token]
    && forall k :: k in h && NamesToken(k) ==> k == HOST_CALL_TOKEN
  }

  /** Whatever the caller put in the headers, the token goes out exactly to the gateway and exactly when bound. */
  lemma StampedIsExact(h: Header, subject: string, token: string)
    ensures IsGateway(subject) && token != "" ==> CarriesOnly(Stamped(h, subject, token), token)
    ensures !(IsGateway(subject) && token != "") ==> Confined(Stamped(h, subject, token))
    ensures forall k :: k in h && !NamesToken(k) ==> k in Stamped(h, subject, token) && Stamped(h, subject, token)[k] == h[k]
  {
    assert NamesToken(HOST_CALL_TOKEN);
  }

  /** The same in literal text: every spelling of the token's name goes, and the token is set on gateway subjects alone. */
  lemma StampedInText(h: Header, subject: string, token: string)
    ensures Stamped(h, subject, token)
         == (map k | k in h && !SameLetters(k, "X-Bytedesk-Host-Call") :: h[k])
            + if "cmd.gateway." <= subject && token != "" then map["X-Bytedesk-Host-Call" := [token]] else map[]
  {
    forall k: string {
      FoldMeans(k, HOST_CALL_TOKEN);
    }
    assert HOST_CALL_TOKEN == "X-Bytedesk-Host-Call";
  }

  /** Headers the transport sets after stamping do not name the token. */
  lemma OwnHeadersAreOthers()
    ensures !NamesToken(SUBJECT_LEASE) && !NamesToken(NATS_MSG_ID)
  {
    assert |SUBJECT_LEASE| != |HOST_CALL_TOKEN| && |NATS_MSG_ID| != |HOST_CALL_TOKEN|;
  }

  /** A header map under construction; deletions and settings happen in place. */
  class HeaderMap {
    var entries: Header

    constructor ()
      ensures entries == map[]
    {
      entries := map[];
    }

    method Set(key: string, value: string)
      modifies this
      ensures entries == old(entries)[key := [value]]
    {
      entries := entries[key := [value]];
    }

    method SetAll(key: string, values: seq<string>)
      modifies this
      ensures entries == old(entries)[key := values]
    {
      entries := entries[key := values];
    }

    method Delete(key: string)
      modifies this
      ensures entries == old(entries) - {key}
    {
      entries := entries - {key};
    }
  }

  /** The bus headers that name an identity; the bus module decides which. */
  type Reserved = string -> bool

  /** Copies bus headers onto the wire, one value each, without the reserved ones. */
  method ToNatsHeader(headers: map<string, string>, reserved: Reserved) returns (out: HeaderMap)
    ensures fresh(out)
    ensures out.entries == map k | k in headers && !reserved(k) :: [headers[k]]
  {
    out := new HeaderMap();
    var kept := map k | k in headers && !reserved(k) :: headers[k];
    var pending := kept.Keys;
    while pending != {}
      invariant pending <= kept.Keys
      invariant out.entries == map k | k in kept && k !in pending :: [kept[k]]
      decreases |pending|
    {
      var k :| k in pending;
      out.Set(k, kept[k]);
      pending := pending - {k};
    }
  }

  /** Removes every spelling of the token header, then stamps the bound token on a gateway request. */
  method BindHostCallHeader(h: HeaderMap, subject: string, token: string)
    modifies h
    ensures h.entries == Stamped(old(h.entries), subject, token)
  {
    var pending := h.entries.Keys;
    ghost var start := h.entries;
    while pending != {}
      invariant pending <= start.Keys
      invariant h.entries == map k | k in start && (k in pending || !NamesToken(k)) :: start[k]
      decreases |pending|
    {
      var k :| k in pending;
      if NamesToken(k) {
        h.Delete(k);
      }
      pending := pending - {k};
    }
    assert h.entries == Stripped(start);
    if !IsGateway(subject) {
      return;
    }
    if token != "" {
      h.Set(HOST_CALL_TOKEN, token);
    }
  }
}
