/** The guard on untrusted runtime snapshots: one pass over the plugins with a set of the ids already seen. */
module RuntimeSnapshots {
  import opened JsText
  import opened Revisions

  datatype Json =
    | Undefined
    | Null
    | Bool(flag: bool)
    | Number
    | Str(text: Text)
    | Array(items: seq<Json>)
    | Object(fields: map<string, Json>)
  {
    function Get(key: string): Json {
      if Object? && key in fields then fields[key] else Undefined
    }
  }

  const ENABLED := Str(Units("enabled"))

  const DESIRED_STATES := {Str(Units("unknown")), Str(Units("absent")), Str(Units("disabled")), ENABLED}

  predicate NonEmptyText(v: Json) { v.Str? && v.text != [] }

  /** The fields of one plugin entry, apart from the uniqueness of its id. */
  predicate EntryShape(p: Json) {
    && p.Object?
    && NonEmptyText(p.Get("id"))
    && p.Get("installed").Bool?
    && p.Get("available").Bool?
    && p.Get("desiredState") in DESIRED_STATES
    && NonEmptyText(p.Get("observedState"))
    && p.Get("generation").Str?
    && (p.Get("reason").Undefined? || p.Get("reason").Str?)
  }

  /** Availability is a claim that must be backed: installed, of a generation, and wanted. */
  predicate Backed(p: Json) {
    && p.Get("installed") == Bool(true)
    && NonEmptyText(p.Get("generation"))
    && p.Get("desiredState") == ENABLED
  }

  ghost predicate Acceptable(plugins: seq<Json>) {
    && (forall i :: 0 <= i < |plugins| ==> EntryShape(plugins[i]))
    && (forall i :: 0 <= i < |plugins| && plugins[i].Get("available") == Bool(true) ==> Backed(plugins[i]))
    && (forall i, j :: 0 <= i < j < |plugins| ==> plugins[i].Get("id") != plugins[j].Get("id"))
  }

  predicate EnvelopeShape(v: Json) {
    && v.Object?
    && NonEmptyText(v.Get("epoch"))
    && v.Get("revision").Str? && IsDecimal(v.Get("revision").text)
    && (v.Get("plugins").Null? || v.Get("plugins").Array?)
  }

  function Entries(v: Json): seq<Json> {
    if v.Get("plugins").Array? then v.Get("plugins").items else []
  }

  ghost predicate Joins(most: seq<Json>, p: Json) {
    && EntryShape(p)
    && (p.Get("available") == Bool(true) ==> Backed(p))
    && forall k :: 0 <= k < |most| ==> most[k].Get("id") != p.Get("id")
  }

  lemma AcceptableSnoc(most: seq<Json>, p: Json)
    ensures Acceptable(most + [p]) <==> Acceptable(most) && Joins(most, p)
  {
    var all := most + [p];
    assert all[|most|] == p;
    assert forall k :: 0 <= k < |most| ==> all[k] == most[k];
    if Acceptable(all) {
      forall k | 0 <= k < |most|
        ensures most[k].Get("id") != p.Get("id")
      {
        assert all[k].Get("id") != all[|most|].Get("id");
      }
      assert forall i, j :: 0 <= i < j < |most| ==> all[i].Get("id") != all[j].Get("id");
    }
  }

  lemma AcceptablePrefix(plugins: seq<Json>, n: nat)
    requires n <= |plugins|
    ensures Acceptable(plugins) ==> Acceptable(plugins[..n])
  {
    assert forall k :: 0 <= k < n ==> plugins[..n][k] == plugins[k];
  }

  // ----- The same in text -----

  predicate Spells(v: Json, s: string) { v.Str? && |v.text| == |s| && forall i :: 0 <= i < |s| ==> v.text[i] == s[i] as int }

  predicate SaysSomething(v: Json) { v.Str? && |v.text| > 0 }

  /** One plugin: what it must say, and what it must say to be available. */
  predicate IsPlugin(p: Json) {
    && p.Object?
    && SaysSomething(p.Get("id")) && SaysSomething(p.Get("observedState"))
    && (p.Get("installed") == Bool(true) || p.Get("installed") == Bool(false))
    && p.Get("generation").Str? && (p.Get("reason") == Undefined || p.Get("reason").Str?)
    && (Spells(p.Get("desiredState"), "unknown") || Spells(p.Get("desiredState"), "absent")
        || Spells(p.Get("desiredState"), "disabled") || Spells(p.Get("desiredState"), "enabled"))
    && (|| p.Get("available") == Bool(false)
        || (p.Get("available") == Bool(true) && p.Get("installed") == Bool(true) && SaysSomething(p.Get("generation"))
            && Spells(p.Get("desiredState"), "enabled")))
  }

  ghost predicate IsSnapshot(v: Json) {
    && v.Object? && SaysSomething(v.Get("epoch"))
    && v.Get("revision").Str? && IsNumeralText(v.Get("revision").text)
    && (v.Get("plugins") == Null
        || (v.Get("plugins").Array?
            && var plugins := v.Get("plugins").items;
               && (forall i :: 0 <= i < |plugins| ==> IsPlugin(plugins[i]))
               && forall i, j :: 0 <= i < j < |plugins| ==> plugins[i].Get("id") != plugins[j].Get("id")))
  }

  lemma SpellsIsUnits(v: Json, s: string)
    requires forall i :: 0 <= i < |s| ==> s[i] < 128 as char
    ensures Spells(v, s) <==> v == Str(Units(s))
  {
    if Spells(v, s) {
      assert v.text == Units(s);
    }
  }

  lemma PluginInText(p: Json)
    ensures IsPlugin(p) <==> EntryShape(p) && (p.Get("available") == Bool(true) ==> Backed(p))
  {
    SpellsIsUnits(p.Get("desiredState"), "unknown");
    SpellsIsUnits(p.Get("desiredState"), "absent");
    SpellsIsUnits(p.Get("desiredState"), "disabled");
    SpellsIsUnits(p.Get("desiredState"), "enabled");
  }

  lemma SnapshotInText(v: Json)
    ensures EnvelopeShape(v) && Acceptable(Entries(v)) <==> IsSnapshot(v)
  {
    forall p: Json {
      PluginInText(p);
    }
  }

  /** A snapshot is accepted exactly when its envelope is well shaped, ids are distinct and every availability is backed. */
  method IsRuntimeSnapshot(value: Json) returns (ok: bool)
    ensures ok <==> IsSnapshot(value)
  {
    SnapshotInText(value);
    if !EnvelopeShape(value) {
      return false;
    }
    var plugins := Entries(value);
    var seen: set<Json> := {};
    for i := 0 to |plugins|
      invariant Acceptable(plugins[..i])
      invariant forall id :: id in seen <==> exists k :: 0 <= k < i && plugins[k].Get("id") == id
    {
      var p := plugins[i];
      assert plugins[..i + 1] == plugins[..i] + [p];
      AcceptableSnoc(plugins[..i], p);
      if !EntryShape(p) || p.Get("id") in seen || (p.Get("available").flag && !Backed(p)) {
        assert !Joins(plugins[..i], p);
        AcceptablePrefix(plugins, i + 1);
        return false;
      }
      seen := seen + {p.Get("id")};
    }
    assert plugins[..|plugins|] == plugins;
    return true;
  }
}
