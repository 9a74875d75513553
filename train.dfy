/**
 * The training pipeline for metastases segmentation. Its only logic of its
 * own is the three patch-sampling regions, written out again here with the
 * same comparisons as in the pretraining pipeline.
 */
module Train {
  import Mask
  import MetsPretrain

  type PatchData = MetsPretrain.PatchData

  /** `(ground_truth != 1) & (input_modalities != 0)` */
  function BrainRegion(data: PatchData): (mask: seq<bool>)
    requires |data.groundTruth| == |data.inputModalities|
    ensures |mask| == |data.groundTruth|
    ensures forall i :: 0 <= i < |mask| ==> mask[i] == (data.groundTruth[i] != 1 && data.inputModalities[i] != 0)
  {
    Mask.And(Mask.Map(x => x != 1, data.groundTruth), Mask.Map(x => x != 0, data.inputModalities))
  }

  /** `ground_truth == 1` */
  function RoiRegion(data: PatchData): (mask: seq<bool>)
    ensures |mask| == |data.groundTruth|
    ensures forall i :: 0 <= i < |mask| ==> mask[i] == (data.groundTruth[i] == 1)
  {
    Mask.Map(x => x == 1, data.groundTruth)
  }

  /** `input_modalities == 0` */
  function EmptyRegion(data: PatchData): (mask: seq<bool>)
    ensures |mask| == |data.inputModalities|
    ensures forall i :: 0 <= i < |mask| ==> mask[i] == (data.inputModalities[i] == 0)
  {
    Mask.Map(x => x == 0, data.inputModalities)
  }

  /** The three masks are the ones the pretraining pipeline samples with. */
  lemma SameAsPretrain(data: PatchData)
    requires MetsPretrain.WellShaped(data)
    ensures BrainRegion(data) == MetsPretrain.BrainRegion(data)
    ensures RoiRegion(data) == MetsPretrain.RoiRegion(data)
    ensures EmptyRegion(data) == MetsPretrain.EmptyRegion(data)
  {
  }

  /** A brain voxel is neither lesion nor background, and every other voxel is one of the two. */
  lemma BrainIsRest(data: PatchData, i: nat)
    requires MetsPretrain.WellShaped(data) && i < |data.groundTruth|
    ensures BrainRegion(data)[i] <==> !RoiRegion(data)[i] && !EmptyRegion(data)[i]
  {
    SameAsPretrain(data);
    MetsPretrain.BrainRoiDisjoint(data, i);
    MetsPretrain.BrainEmptyDisjoint(data, i);
    MetsPretrain.RegionsCover(data, i);
  }

  /** Every voxel lies in at least one of the three regions. */
  lemma RegionsCover(data: PatchData)
    requires MetsPretrain.WellShaped(data)
    ensures forall i :: 0 <= i < |data.groundTruth| ==>
      BrainRegion(data)[i] || RoiRegion(data)[i] || EmptyRegion(data)[i]
  {
    forall i | 0 <= i < |data.groundTruth|
      ensures BrainRegion(data)[i] || RoiRegion(data)[i] || EmptyRegion(data)[i]
    {
      BrainIsRest(data, i);
    }
  }

  /**
   * The regions are not a partition: a lesion label on a zero-intensity voxel
   * lies in both the lesion and the background region.
   */
  lemma RoiAndEmptyOverlap()
    ensures var data := MetsPretrain.PatchData([1], [0]);
      RoiRegion(data) == [true] && EmptyRegion(data) == [true] && BrainRegion(data) == [false]
  {
  }
}
