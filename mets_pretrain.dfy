/**
 * The pretraining pipeline for metastases segmentation: the helper that
 * freezes the first `n` matching layers of a pretrained model before it is
 * fine-tuned, and the three voxel conditions that steer patch sampling
 * (background, brain tissue, lesion).
 */
module MetsPretrain {
  import Mask

  // ---------------------------------------------------------------------
  // Substring search: Python's `x in name` for two strings.
  // ---------------------------------------------------------------------

  /** `x` occurs somewhere in `s` as a contiguous run of characters. */
  predicate SubstringOf(x: string, s: string)
    ensures SubstringOf(x, s) ==> |x| <= |s|
    decreases |s|
  {
    x <= s || (|s| > 0 && SubstringOf(x, s[1..]))
  }

  /** `x` occurs in `s` starting at position `k`. */
  predicate OccursAt(x: string, s: string, k: int)
  {
    0 <= k && k + |x| <= |s| && s[k..k + |x|] == x
  }

  /** The search above agrees with the definition by positions. */
  lemma {:induction false} SubstringOfIffOccurs(x: string, s: string)
    ensures SubstringOf(x, s) <==> exists k :: OccursAt(x, s, k)
    decreases |s|
  {
    if x <= s {
      assert OccursAt(x, s, 0);
    } else if |s| == 0 {
      assert forall k :: !OccursAt(x, s, k);
    } else {
      SubstringOfIffOccurs(x, s[1..]);
      if SubstringOf(x, s[1..]) {
        var k :| OccursAt(x, s[1..], k);
        assert s[k + 1..k + 1 + |x|] == s[1..][k..k + |x|];
        assert OccursAt(x, s, k + 1);
      }
      if exists k :: OccursAt(x, s, k) {
        var k :| OccursAt(x, s, k);
        if k > 0 {
          assert s[1..][k - 1..k - 1 + |x|] == s[k..k + |x|];
          assert OccursAt(x, s[1..], k - 1);
        }
      }
    }
  }

  /** The empty pattern occurs in every name. */
  lemma EmptyPatternMatchesEverything(s: string)
    ensures SubstringOf("", s)
  {
  }

  /** `any(x in name for x in layer_types)`. */
  predicate MatchesAny(name: string, layerTypes: seq<string>)
    ensures MatchesAny(name, layerTypes) ==> exists t :: t in layerTypes && |t| <= |name|
    ensures "" in layerTypes ==> MatchesAny(name, layerTypes)
  {
    exists t :: t in layerTypes && SubstringOf(t, name)
  }

  // ---------------------------------------------------------------------
  // Layers and the model that owns them.
  // ---------------------------------------------------------------------

  /** A layer of a model: a fixed name and a `trainable` flag that can be toggled. */
  class Layer {
    const name: string
    var trainable: bool

    constructor (name: string, trainable: bool)
      ensures this.name == name && this.trainable == trainable
    {
      this.name := name;
      this.trainable := trainable;
    }
  }

  /** A model, seen only through its ordered list of layers. */
  class Model {
    const layers: seq<Layer>

    constructor (layers: seq<Layer>)
      ensures this.layers == layers
    {
      this.layers := layers;
    }

    /** Each layer object appears in the list once. */
    predicate DistinctLayers()
    {
      forall i, j :: 0 <= i < j < |layers| ==> layers[i] != layers[j]
    }
  }

  /** The default arguments of the freezing helper. */
  const DefaultFreezeCount: int := 0
  const DefaultLayerTypes: seq<string> := ["conv3d"]

  /** With the default patterns, exactly the layers whose name contains "conv3d" are affected. */
  lemma DefaultTypesSelectConv3d(name: string)
    ensures MatchesAny(name, DefaultLayerTypes) <==> SubstringOf("conv3d", name)
  {
    assert DefaultLayerTypes[0] == "conv3d";
  }

  /** The value of a layer: its name and its flag. */
  datatype LayerState = LayerState(name: string, trainable: bool)

  /** One `[layer.name, flag]` pair of the list the helper returns. */
  datatype Assignment = Assignment(name: string, trainable: bool)

  /** The layers after freezing, and the list of pairs returned. */
  datatype Outcome = Outcome(layers: seq<LayerState>, pairs: seq<Assignment>)

  /** The current values of a list of layer objects. */
  ghost function Snapshot(layers: seq<Layer>): (s: seq<LayerState>)
    reads set l | l in layers
    ensures |s| == |layers|
    ensures forall i :: 0 <= i < |layers| ==> s[i] == LayerState(layers[i].name, layers[i].trainable)
  {
    seq(|layers|, i reads set l | l in layers requires 0 <= i < |layers| => LayerState(layers[i].name, layers[i].trainable))
  }

  // ---------------------------------------------------------------------
  // What freezing does to a list of layer values, step by step as the loop
  // goes: the last layer of `s` is processed after all the others. The loop
  // counter `count` always equals the length of the returned list, since
  // both grow together, so it is read off as `|prev.pairs|`.
  // ---------------------------------------------------------------------

  function Freeze(s: seq<LayerState>, n: int, layerTypes: seq<string>): (o: Outcome)
    ensures |o.layers| == |s|
    decreases |s|
  {
    if s == [] then Outcome([], [])
    else
      var prev := Freeze(s[..|s| - 1], n, layerTypes);
      var l := s[|s| - 1];
      if MatchesAny(l.name, layerTypes) then
        var flag := |prev.pairs| >= n;
        Outcome(prev.layers + [l.(trainable := flag)], prev.pairs + [Assignment(l.name, flag)])
      else
        Outcome(prev.layers + [l], prev.pairs)
  }

  /** One more step of the loop: the layer at position `i` is processed after those before it. */
  lemma FreezeStep(s: seq<LayerState>, n: int, layerTypes: seq<string>, i: nat)
    requires i < |s|
    ensures var prev := Freeze(s[..i], n, layerTypes);
      var o := Freeze(s[..i + 1], n, layerTypes);
      var flag := |prev.pairs| >= n;
      o.layers == prev.layers + [if MatchesAny(s[i].name, layerTypes) then s[i].(trainable := flag) else s[i]] &&
      o.pairs == prev.pairs + (if MatchesAny(s[i].name, layerTypes) then [Assignment(s[i].name, flag)] else [])
  {
    assert s[..i + 1][..i] == s[..i];
  }

  /** The names of the matching layers, in list order. */
  function Matching(s: seq<LayerState>, layerTypes: seq<string>): (names: seq<string>)
    ensures |names| <= |s|
  {
    if s == [] then []
    else (if MatchesAny(s[0].name, layerTypes) then [s[0].name] else []) + Matching(s[1..], layerTypes)
  }

  lemma {:induction false} MatchingAppend(a: seq<LayerState>, b: seq<LayerState>, layerTypes: seq<string>)
    ensures Matching(a + b, layerTypes) == Matching(a, layerTypes) + Matching(b, layerTypes)
    decreases |a|
  {
    if a == [] {
      assert a + b == b;
    } else {
      assert (a + b)[1..] == a[1..] + b;
      MatchingAppend(a[1..], b, layerTypes);
    }
  }

  /** Matching layers of a prefix one element longer. */
  lemma MatchingSnoc(s: seq<LayerState>, i: nat, layerTypes: seq<string>)
    requires i < |s|
    ensures Matching(s[..i + 1], layerTypes)
         == Matching(s[..i], layerTypes) + (if MatchesAny(s[i].name, layerTypes) then [s[i].name] else [])
  {
    assert s[..i + 1] == s[..i] + [s[i]];
    MatchingAppend(s[..i], [s[i]], layerTypes);
    assert [s[i]][1..] == [];
  }

  /** The list of layers is neither reordered nor resized, and no name changes. */
  lemma {:induction false} FreezeKeepsNames(s: seq<LayerState>, n: int, layerTypes: seq<string>)
    ensures |Freeze(s, n, layerTypes).layers| == |s|
    ensures forall i :: 0 <= i < |s| ==> Freeze(s, n, layerTypes).layers[i].name == s[i].name
    decreases |s|
  {
    if s != [] {
      FreezeKeepsNames(s[..|s| - 1], n, layerTypes);
    }
  }

  /**
   * One entry is returned per matching layer, in list order, and the k-th of
   * them (from 0) carries the flag `k >= n`.
   */
  lemma {:induction false} FreezeAssigned(s: seq<LayerState>, n: int, layerTypes: seq<string>)
    ensures |Freeze(s, n, layerTypes).pairs| == |Matching(s, layerTypes)|
    ensures forall k :: 0 <= k < |Freeze(s, n, layerTypes).pairs| ==>
      Freeze(s, n, layerTypes).pairs[k] == Assignment(Matching(s, layerTypes)[k], k >= n)
    decreases |s|
  {
    if s != [] {
      var m := |s| - 1;
      assert s[..m + 1] == s;
      FreezeAssigned(s[..m], n, layerTypes);
      MatchingSnoc(s, m, layerTypes);
    }
  }

  /**
   * A layer that matches no pattern keeps its flag; a matching layer preceded
   * by `k` matching layers ends with `trainable == (k >= n)`.
   */
  lemma {:induction false} FreezeLayerAt(s: seq<LayerState>, n: int, layerTypes: seq<string>, i: nat)
    requires i < |s|
    ensures Freeze(s, n, layerTypes).layers[i]
         == if MatchesAny(s[i].name, layerTypes)
            then LayerState(s[i].name, |Matching(s[..i], layerTypes)| >= n)
            else s[i]
    decreases |s|
  {
    var m := |s| - 1;
    var prev := Freeze(s[..m], n, layerTypes);
    if i < m {
      FreezeLayerAt(s[..m], n, layerTypes, i);
      assert s[..m][..i] == s[..i];
    } else {
      FreezeAssigned(s[..m], n, layerTypes);
    }
  }

  /** The pair returned for a matching layer carries the flag that layer ends with. */
  lemma AssignedMatchesLayer(s: seq<LayerState>, n: int, layerTypes: seq<string>, i: nat)
    requires i < |s| && MatchesAny(s[i].name, layerTypes)
    ensures |Matching(s[..i], layerTypes)| < |Freeze(s, n, layerTypes).pairs|
    ensures Freeze(s, n, layerTypes).pairs[|Matching(s[..i], layerTypes)|]
         == Assignment(Freeze(s, n, layerTypes).layers[i].name, Freeze(s, n, layerTypes).layers[i].trainable)
  {
    var k := |Matching(s[..i], layerTypes)|;
    MatchingSnoc(s, i, layerTypes);
    assert s == s[..i + 1] + s[i + 1..];
    MatchingAppend(s[..i + 1], s[i + 1..], layerTypes);
    assert Matching(s, layerTypes)[k] == s[i].name;
    FreezeAssigned(s, n, layerTypes);
    FreezeLayerAt(s, n, layerTypes, i);
  }

  /** Once a returned flag is true, every later returned flag is true. */
  lemma FrozenFlagsFormPrefix(s: seq<LayerState>, n: int, layerTypes: seq<string>)
    ensures var p := Freeze(s, n, layerTypes).pairs;
      forall i, j :: 0 <= i <= j < |p| && p[i].trainable ==> p[j].trainable
  {
    FreezeAssigned(s, n, layerTypes);
  }

  /** With `n <= 0` (the default is 0) every matching layer is made trainable; no matching layer is frozen. */
  lemma NonPositiveCountFreezesNoMatch(s: seq<LayerState>, n: int, layerTypes: seq<string>)
    requires n <= 0
    ensures forall k :: 0 <= k < |Freeze(s, n, layerTypes).pairs| ==> Freeze(s, n, layerTypes).pairs[k].trainable
    ensures forall i :: 0 <= i < |s| && MatchesAny(s[i].name, layerTypes) ==> Freeze(s, n, layerTypes).layers[i].trainable
  {
    FreezeAssigned(s, n, layerTypes);
    forall i | 0 <= i < |s| && MatchesAny(s[i].name, layerTypes)
      ensures Freeze(s, n, layerTypes).layers[i].trainable
    {
      FreezeLayerAt(s, n, layerTypes, i);
    }
  }

  /** The number of matching layers whose flag is off. */
  function CountFrozen(s: seq<LayerState>, layerTypes: seq<string>): (c: nat)
    ensures c <= |s|
  {
    if s == [] then 0
    else CountFrozen(s[..|s| - 1], layerTypes)
         + (if MatchesAny(s[|s| - 1].name, layerTypes) && !s[|s| - 1].trainable then 1 else 0)
  }

  /**
   * Exactly min(n, m) matching layers end frozen, where m is the number of
   * matching layers; with n <= 0 no matching layer is frozen. Layers that match
   * no pattern are not counted: they keep whatever flag they had.
   */
  lemma {:induction false} FreezeCount(s: seq<LayerState>, n: int, layerTypes: seq<string>)
    ensures var m := |Matching(s, layerTypes)|;
      CountFrozen(Freeze(s, n, layerTypes).layers, layerTypes) == if n <= 0 then 0 else if n <= m then n else m
    decreases |s|
  {
    if s != [] {
      var m := |s| - 1;
      var o := Freeze(s, n, layerTypes);
      var prev := Freeze(s[..m], n, layerTypes);
      FreezeCount(s[..m], n, layerTypes);
      FreezeAssigned(s[..m], n, layerTypes);
      assert s[..m + 1] == s;
      MatchingSnoc(s, m, layerTypes);
      assert o.layers[..m] == prev.layers;
    }
  }

  // ---------------------------------------------------------------------
  // The helper itself, over layer objects updated in place.
  // ---------------------------------------------------------------------

  /**
   * Walks the model's layers in order; for every layer whose name contains one
   * of `layerTypes`, records `[name, count >= n]`, sets its flag to that value
   * and counts it. The other layers are left alone.
   */
  method FreezeLayers(baseModel: Model, n: int := DefaultFreezeCount, layerTypes: seq<string> := DefaultLayerTypes) returns (trainable: seq<Assignment>)
    requires baseModel.DistinctLayers()
    modifies set l | l in baseModel.layers
    ensures Outcome(Snapshot(baseModel.layers), trainable) == Freeze(old(Snapshot(baseModel.layers)), n, layerTypes)
  {
    var layers := baseModel.layers;
    ghost var s0 := Snapshot(layers);
    trainable := [];
    var count := 0;
    var i := 0;
    while i < |layers|
      invariant 0 <= i <= |layers|
      invariant count == |trainable|
      invariant Freeze(s0[..i], n, layerTypes).pairs == trainable
      invariant forall j :: 0 <= j < i ==> layers[j].trainable == Freeze(s0[..i], n, layerTypes).layers[j].trainable
      invariant forall j :: i <= j < |layers| ==> layers[j].trainable == s0[j].trainable
    {
      var layer := layers[i];
      FreezeStep(s0, n, layerTypes, i);
      if MatchesAny(layer.name, layerTypes) {
        trainable := trainable + [Assignment(layer.name, count >= n)];
        layer.trainable := count >= n;
        count := count + 1;
      }
      i := i + 1;
    }
    assert s0[..i] == s0;
    FreezeKeepsNames(s0, n, layerTypes);
  }

  // ---------------------------------------------------------------------
  // Patch-sampling regions. A sample pairs the ground-truth label volume
  // with the input-intensity volume, both flattened voxel by voxel.
  // ---------------------------------------------------------------------

  datatype PatchData = PatchData(groundTruth: seq<int>, inputModalities: seq<int>)

  /** Label and input volumes of the same shape. */
  predicate WellShaped(data: PatchData)
  {
    |data.groundTruth| == |data.inputModalities|
  }

  /** Brain tissue: not lesion, not background. */
  predicate BrainVoxel(gt: int, input: int) { gt != 1 && input != 0 }

  /** Lesion (region of interest). */
  predicate RoiVoxel(gt: int) { gt == 1 }

  /** Background outside the head. */
  predicate EmptyVoxel(input: int) { input == 0 }

  /** `(ground_truth != 1) & (input_modalities != 0)` */
  function BrainRegion(data: PatchData): (mask: seq<bool>)
    requires WellShaped(data)
    ensures |mask| == |data.groundTruth|
    ensures forall i :: 0 <= i < |mask| ==> mask[i] == BrainVoxel(data.groundTruth[i], data.inputModalities[i])
  {
    Mask.And(Mask.Map(x => x != 1, data.groundTruth), Mask.Map(x => x != 0, data.inputModalities))
  }

  /** `ground_truth == 1` */
  function RoiRegion(data: PatchData): (mask: seq<bool>)
    ensures |mask| == |data.groundTruth|
    ensures forall i :: 0 <= i < |mask| ==> mask[i] == RoiVoxel(data.groundTruth[i])
  {
    Mask.Map(x => x == 1, data.groundTruth)
  }

  /** `input_modalities == 0` */
  function EmptyRegion(data: PatchData): (mask: seq<bool>)
    ensures |mask| == |data.inputModalities|
    ensures forall i :: 0 <= i < |mask| ==> mask[i] == EmptyVoxel(data.inputModalities[i])
  {
    Mask.Map(x => x == 0, data.inputModalities)
  }

  lemma BrainRoiDisjoint(data: PatchData, i: nat)
    requires WellShaped(data) && i < |data.groundTruth|
    ensures !(BrainRegion(data)[i] && RoiRegion(data)[i])
  {
  }

  lemma BrainEmptyDisjoint(data: PatchData, i: nat)
    requires WellShaped(data) && i < |data.groundTruth|
    ensures !(BrainRegion(data)[i] && EmptyRegion(data)[i])
  {
  }

  lemma RegionsCover(data: PatchData, i: nat)
    requires WellShaped(data) && i < |data.groundTruth|
    ensures BrainRegion(data)[i] || RoiRegion(data)[i] || EmptyRegion(data)[i]
  {
  }

  /**
   * Every mask is computed voxel by voxel: two samples that agree at voxel `i`
   * get the same mask values there; the lesion mask depends on the labels
   * alone and the background mask on the intensities alone.
   */
  lemma RegionsArePointwise(d1: PatchData, d2: PatchData, i: nat)
    requires WellShaped(d1) && WellShaped(d2)
    requires i < |d1.groundTruth| && i < |d2.groundTruth|
    requires d1.groundTruth[i] == d2.groundTruth[i] && d1.inputModalities[i] == d2.inputModalities[i]
    ensures BrainRegion(d1)[i] == BrainRegion(d2)[i]
    ensures RoiRegion(d1)[i] == RoiRegion(d2)[i]
    ensures EmptyRegion(d1)[i] == EmptyRegion(d2)[i]
  {
  }

  lemma RegionsReadOneVolume(d1: PatchData, d2: PatchData)
    ensures d1.groundTruth == d2.groundTruth ==> RoiRegion(d1) == RoiRegion(d2)
    ensures d1.inputModalities == d2.inputModalities ==> EmptyRegion(d1) == EmptyRegion(d2)
  {
  }
}
