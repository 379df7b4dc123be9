/** The gate between negotiation and binding: what the host must have answered before a plugin may run. */
module Protocols {
  import opened Texts
  import Transport = TransportRuns

  const WORKLOAD_AUTH := "host.workload-auth.v1"

  datatype Requirements = Requirements(major: nat, required: seq<string>)

  datatype Identity = Identity(pluginId: string, generation: string)

  /** The host's reply to negotiation. */
  datatype Answer = Answer(
    major: nat,
    pluginId: string,
    generation: string,
    features: seq<string>,
    bus: Transport.Capabilities,
    identity: Identity,
    hostCallToken: string,
    error: string)

  datatype Fault =
    | HostRefused
    | MajorUnsupported
    | FeatureUnsupported(feature: string)
    | NeedsMissing(needs: seq<string>)
    | NoGeneration
    | TokenMalformed
    | TokenUnnegotiated
    | WrongPlugin
    | WrongIdentity
    | ConflictingGenerations

  /** The manifest's protocol block; major 0 means this module's own. */
  function Declared(protocol: Option<Requirements>, own: nat): Requirements {
    if protocol.None? then Requirements(own, [])
    else if protocol.value.major == 0 then protocol.value.(major := own)
    else protocol.value
  }

  predicate Supports(features: seq<string>, feature: string) { !IsBlank(feature) && feature in features }

  /** The first required feature the host does not support. */
  function FirstUnsupported(required: seq<string>, features: seq<string>): (feature: Option<string>)
    ensures feature.None? ==> forall f :: f in required ==> Supports(features, f)
    ensures feature.Some? ==>
              exists i :: 0 <= i < |required| && required[i] == feature.value && !Supports(features, feature.value)
                          && forall j :: 0 <= j < i ==> Supports(features, required[j])
  {
    if required == [] then None
    else if !Supports(features, required[0]) then Some(required[0])
    else
      var rest := FirstUnsupported(required[1..], features);
      assert rest.Some? ==> forall i :: 0 <= i < |required| - 1 ==> required[1..][i] == required[i + 1];
      rest
  }

  /** Missing capabilities are those of the effective set, not of the host's. */
  function CheckProtocol(have: Answer, need: Requirements, own: nat, missing: seq<string>): Option<Fault> {
    var major := if need.major == 0 then own else need.major;
    var unsupported := FirstUnsupported(need.required, have.features);
    if have.error != "" then Some(HostRefused)
    else if major != have.major then Some(MajorUnsupported)
    else if unsupported.Some? then Some(FeatureUnsupported(unsupported.value))
    else if missing != [] then Some(NeedsMissing(missing))
    else if have.generation == "" then Some(NoGeneration)
    else if WORKLOAD_AUTH in have.features && !Transport.IsCanonicalToken(have.hostCallToken) then Some(TokenMalformed)
    else if WORKLOAD_AUTH !in have.features && have.hostCallToken != "" then Some(TokenUnnegotiated)
    else None
  }

  function CheckIdentity(have: Answer, id: string): Option<Fault> {
    if have.pluginId != id then Some(WrongPlugin)
    else if have.identity.pluginId != "" && have.identity.pluginId != id then Some(WrongIdentity)
    else if have.identity.generation != "" && have.identity.generation != have.generation then Some(ConflictingGenerations)
    else None
  }

  /** The identity a plugin is bound to: what the host left out is filled in. */
  function BoundIdentity(have: Answer, id: string): Identity {
    Identity(
      if have.identity.pluginId == "" then id else have.identity.pluginId,
      if have.identity.generation == "" then have.generation else have.identity.generation)
  }

  /** Everything the handshake promises has been agreed; a token comes exactly with the feature that announces it. */
  ghost predicate Agreed(have: Answer, need: Requirements, own: nat, missing: seq<string>) {
    && have.error == ""
    && have.major == (if need.major == 0 then own else need.major)
    && (forall f :: f in need.required ==> !IsBlank(f) && f in have.features)
    && missing == []
    && have.generation != ""
    && (WORKLOAD_AUTH in have.features <==> have.hostCallToken != "")
    && (have.hostCallToken != "" ==> Transport.IsCanonicalToken(have.hostCallToken))
  }

  /** The gate opens exactly on full agreement. */
  lemma GateIsExact(have: Answer, need: Requirements, own: nat, missing: seq<string>)
    ensures CheckProtocol(have, need, own, missing).None? <==> Agreed(have, need, own, missing)
  {
    var unsupported := FirstUnsupported(need.required, have.features);
    assert Transport.IsCanonicalToken(have.hostCallToken) ==> have.hostCallToken != "";
    assert unsupported.None? <==> forall f :: f in need.required ==> Supports(have.features, f);
    assert (forall f :: f in need.required ==> Supports(have.features, f))
      <==> forall f :: f in need.required ==> !IsBlank(f) && f in have.features;
  }

  /** Past the identity check, the plugin is bound as itself, in the generation the host answered for. */
  lemma IdentityIsExact(have: Answer, id: string)
    ensures CheckIdentity(have, id).None? ==> BoundIdentity(have, id) == Identity(id, have.generation)
    ensures CheckIdentity(have, id).None? <==>
      have.pluginId == id && have.identity.pluginId in {"", id} && have.identity.generation in {"", have.generation}
  {
  }
}
