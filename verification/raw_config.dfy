/**
 * The layered configuration store: a two-level mapping from section name to
 * key to value, the `putAll` merge that lays one such mapping over another,
 * and the mutable builder that `Configs.createConfig` feeds layer by layer.
 *
 * `RawConfig.Builder.putAll` is defined in `RawConfig.java`, outside the
 * modelled file; its effect is assumed to be a deep, per-key overwrite (see
 * `Overlay`).
 */
module RawConfigs {
  import opened Wrappers

  type Section = map<string, string>

  /** section name -> key -> value */
  type RawConfig = map<string, Section>

  /** The value stored under (section, key), if any. */
  function Lookup(c: RawConfig, section: string, key: string): Option<string>
  {
    if section in c && key in c[section] then Some(c[section][key]) else None
  }

  /**
   * `putAll(layer)` applied to `base`: every (section, key) the layer defines
   * takes the layer's value, every other (section, key) keeps the value it had,
   * and the sections present are those of either side.
   */
  function Overlay(base: RawConfig, layer: RawConfig): (r: RawConfig)
    ensures r.Keys == base.Keys + layer.Keys
    ensures forall s, k ::
      Lookup(r, s, k) == (if Lookup(layer, s, k).Some? then Lookup(layer, s, k) else Lookup(base, s, k))
  {
    map s | s in base.Keys + layer.Keys ::
      if s !in layer then base[s]
      else if s !in base then layer[s]
      else base[s] + layer[s]
  }

  /** An empty base contributes nothing: overlaying onto it yields the layer itself. */
  lemma OverlayOntoEmpty(layer: RawConfig)
    ensures Overlay(map[], layer) == layer
  {
    var r := Overlay(map[], layer);
    forall s | s in layer
      ensures r[s] == layer[s]
    {
      forall k | k in layer[s]
        ensures k in r[s] && r[s][k] == layer[s][k]
      {
        assert Lookup(r, s, k) == Lookup(layer, s, k);
      }
      forall k | k in r[s]
        ensures k in layer[s]
      {
        assert Lookup(r, s, k) == Lookup(layer, s, k);
      }
    }
  }

  /** Setting one key of a section keeps the other keys already in that section. */
  lemma OverlayIsDeep()
    ensures Overlay(map["A" := map["x" := "1"]], map["A" := map["y" := "2"]])
         == map["A" := map["x" := "1", "y" := "2"]]
  {
    var r := Overlay(map["A" := map["x" := "1"]], map["A" := map["y" := "2"]]);
    assert r.Keys == {"A"};
    assert r["A"] == map["x" := "1"] + map["y" := "2"];
    assert map["x" := "1"] + map["y" := "2"] == map["x" := "1", "y" := "2"];
  }

  /** The layers laid over an empty store one after another, first to last (a left fold of `Overlay`). */
  function Merge(layers: seq<RawConfig>): RawConfig
  {
    if layers == [] then map[] else Overlay(Merge(layers[..|layers| - 1]), layers[|layers| - 1])
  }

  /** Layer `i` is the last of `layers` to define (section, key). */
  ghost predicate DefinesLast(layers: seq<RawConfig>, i: int, section: string, key: string, v: string)
  {
    && 0 <= i < |layers|
    && Lookup(layers[i], section, key) == Some(v)
    && forall j :: i < j < |layers| ==> Lookup(layers[j], section, key) == None
  }

  /** Merging one more layer: it decides (section, key) when it defines it, else the earlier layers do. */
  lemma MergeStep(layers: seq<RawConfig>, section: string, key: string)
    requires layers != []
    ensures Lookup(Merge(layers), section, key) ==
      var last := Lookup(layers[|layers| - 1], section, key);
      if last.Some? then last else Lookup(Merge(layers[..|layers| - 1]), section, key)
  {
  }

  /** Later layers win: the merged value of (section, key) is the one from the highest-indexed layer that defines it. */
  lemma MergeLookup(layers: seq<RawConfig>, section: string, key: string, v: string)
    ensures Lookup(Merge(layers), section, key) == Some(v) <==> exists i :: DefinesLast(layers, i, section, key, v)
  {
    if Lookup(Merge(layers), section, key) == Some(v) {
      var i := LastDefinition(layers, section, key, v);
    }
    if exists i :: DefinesLast(layers, i, section, key, v) {
      var i :| DefinesLast(layers, i, section, key, v);
      LastDefinitionWins(layers, i, section, key, v);
    }
  }

  /** A merged value comes from the last layer that defines its (section, key). */
  lemma {:induction false} LastDefinition(layers: seq<RawConfig>, section: string, key: string, v: string) returns (i: int)
    requires Lookup(Merge(layers), section, key) == Some(v)
    ensures DefinesLast(layers, i, section, key, v)
  {
    var n := |layers|;
    var init := layers[..n - 1];
    MergeStep(layers, section, key);
    if Lookup(layers[n - 1], section, key).Some? {
      i := n - 1;
    } else {
      i := LastDefinition(init, section, key, v);
      assert forall j :: 0 <= j < n - 1 ==> init[j] == layers[j];
    }
  }

  /** The last layer to define a (section, key) decides its merged value. */
  lemma {:induction false} LastDefinitionWins(layers: seq<RawConfig>, i: int, section: string, key: string, v: string)
    requires DefinesLast(layers, i, section, key, v)
    ensures Lookup(Merge(layers), section, key) == Some(v)
  {
    var n := |layers|;
    var init := layers[..n - 1];
    MergeStep(layers, section, key);
    if i < n - 1 {
      assert Lookup(layers[n - 1], section, key) == None;
      assert forall j :: 0 <= j < n - 1 ==> init[j] == layers[j];
      assert DefinesLast(init, i, section, key, v);
      LastDefinitionWins(init, i, section, key, v);
    }
  }

  /** A (section, key) is absent from the merge exactly when no layer defines it. */
  lemma {:induction false} MergeUndefined(layers: seq<RawConfig>, section: string, key: string)
    ensures Lookup(Merge(layers), section, key) == None <==>
      forall i :: 0 <= i < |layers| ==> Lookup(layers[i], section, key) == None
  {
    if layers != [] {
      var n := |layers|;
      var init := layers[..n - 1];
      MergeStep(layers, section, key);
      MergeUndefined(init, section, key);
      assert forall i :: 0 <= i < n - 1 ==> init[i] == layers[i];
    }
  }

  /** The mutable accumulator that `createConfig` feeds one layer at a time. */
  class Builder {
    var values: RawConfig

    constructor ()
      ensures values == map[]
    {
      values := map[];
    }

    /** Lays `layer` over everything accumulated so far. */
    method PutAll(layer: RawConfig)
      modifies this
      ensures values == Overlay(old(values), layer)
    {
      values := Overlay(values, layer);
    }

    /** The accumulated mapping as an immutable value. */
    method Build() returns (snapshot: RawConfig)
      ensures snapshot == values
    {
      snapshot := values;
    }
  }
}
