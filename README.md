# DeepNeuro metastases pipelines, modelled in Dafny

The two metastases pipeline scripts in DeepNeuro (pretraining and training) are
3D U-Net segmentation experiments. Nearly all of their work is done by calls into
the DeepNeuro toolkit and Keras. This project models the two pieces of logic the
scripts define themselves:

- `freeze_layers`, the helper that goes through a pretrained model's layers in
  order. For each layer whose name contains one of the `layer_types` patterns, it
  sets `trainable` to `count >= n`, records `[name, flag]` and increments
  `count`. The effect is that the first `n` matching layers are frozen.
- the three patch-sampling regions passed to `ExtractPatches`: `brain_region`,
  `roi_region` and `empty_region`. Each is an element-wise mask over a pair of
  volumes, the ground-truth label and the input intensities.

Files:

- `mask.dfy` (module `Mask`): NumPy-style element-wise masks. `Map` compares
  every voxel with a scalar, and `And` is the element-wise `&` of two masks of the
  same shape.
- `mets_pretrain.dfy` (module `MetsPretrain`): models `mets_pretrain.py`.
  - `Layer` and `Model` are classes. A layer's `trainable` flag is updated in
    place.
  - `FreezeLayers` is the loop. It is proved against the function `Freeze`, which
    describes the same walk over layer values.
  - The lemmas relate `Freeze` to independent definitions: the matching names
    as a filter, and each layer's final flag in closed form.
  - The file also holds the substring test behind Python's `x in name`, and the
    three region masks with their disjointness and coverage lemmas.
- `train.dfy` (module `Train`): the copy of the three region masks in
  `train.py`. It proves they are equal to the pretraining ones, and that the
  regions cover every voxel without forming a partition.

Voxel values are integers and are only compared for equality with 0 and 1.

## Model

| member | source | states |
|---|---|---|
| `MetsPretrain.SubstringOf` | deepneuro/pipelines/Metastases/mets_pretrain.py:26 | Python's `x in layer.name` for two strings; a pattern that occurs is no longer than the name |
| `MetsPretrain.MatchesAny` | deepneuro/pipelines/Metastases/mets_pretrain.py:26 | `any(x in layer.name for x in layer_types)`: a matching name is at least as long as some pattern, and an empty pattern among `layer_types` makes every name match |
| `MetsPretrain.Layer.constructor` | deepneuro/pipelines/Metastases/mets_pretrain.py:26-28 | a layer as the helper sees it: a fixed `name` it reads and a `trainable` flag it writes, both as given |
| `MetsPretrain.Model.constructor` | deepneuro/pipelines/Metastases/mets_pretrain.py:24 | a model as the helper sees it: the ordered list `base_model.layers`, as given and never resized |
| `MetsPretrain.SubstringOfIffOccurs` | deepneuro/pipelines/Metastases/mets_pretrain.py:26 | the recursive substring test used for `x in layer.name` holds exactly when `x` occurs at some position of the name |
| `MetsPretrain.EmptyPatternMatchesEverything` | deepneuro/pipelines/Metastases/mets_pretrain.py:26 | an empty pattern in `layer_types` matches every layer name |
| `MetsPretrain.DefaultTypesSelectConv3d` | deepneuro/pipelines/Metastases/mets_pretrain.py:20 | with the default `layer_types=['conv3d']`, a layer is affected exactly when its name contains "conv3d" |
| `MetsPretrain.Freeze` | deepneuro/pipelines/Metastases/mets_pretrain.py:22-31 | the walk over the layers produces exactly one layer state per input layer |
| `MetsPretrain.FreezeStep` | deepneuro/pipelines/Metastases/mets_pretrain.py:24-29 | one iteration: a matching layer gets the flag `count >= n` (count being the number of pairs returned so far) and one more pair is returned; a non-matching layer is kept as it is and nothing is returned for it |
| `MetsPretrain.MatchingAppend` | deepneuro/pipelines/Metastases/mets_pretrain.py:24-26 | the matching layers of a concatenation are those of the first part followed by those of the second |
| `MetsPretrain.MatchingSnoc` | deepneuro/pipelines/Metastases/mets_pretrain.py:24-26 | extending a prefix by one layer adds that layer's name to the matching names exactly when it matches |
| `MetsPretrain.FreezeKeepsNames` | deepneuro/pipelines/Metastases/mets_pretrain.py:24 | the layer list is not resized or reordered, and every layer keeps its name |
| `MetsPretrain.FreezeAssigned` | deepneuro/pipelines/Metastases/mets_pretrain.py:26-29 | exactly one pair is returned per layer whose name contains a pattern, in layer order, and the k-th pair (from 0) carries the flag `k >= n` |
| `MetsPretrain.FreezeLayerAt` | deepneuro/pipelines/Metastases/mets_pretrain.py:24-29 | a layer matching no pattern keeps its previous flag; a matching layer preceded by k matching layers ends with `trainable == (k >= n)` |
| `MetsPretrain.AssignedMatchesLayer` | deepneuro/pipelines/Metastases/mets_pretrain.py:27-28 | the pair returned for a matching layer holds that layer's name and the flag the layer ends with |
| `MetsPretrain.FrozenFlagsFormPrefix` | deepneuro/pipelines/Metastases/mets_pretrain.py:27-29 | in the returned list, the false flags form a prefix: once a flag is true, every later flag is true |
| `MetsPretrain.NonPositiveCountFreezesNoMatch` | deepneuro/pipelines/Metastases/mets_pretrain.py:20-29 | with `n <= 0`, which includes the default 0, every returned flag is true and every matching layer ends trainable, so no matching layer is frozen |
| `MetsPretrain.FreezeCount` | deepneuro/pipelines/Metastases/mets_pretrain.py:20-29 | exactly min(n, m) matching layers end frozen, where m is the number of matching layers; with n <= 0 no matching layer is frozen (non-matching layers are not counted: they keep their previous flag, which may already be off) |
| `MetsPretrain.FreezeLayers` | deepneuro/pipelines/Metastases/mets_pretrain.py:20-31 | the in-place loop leaves the layers in the state `Freeze` gives for their old state, and returns exactly the pairs `Freeze` gives; it touches no object outside the model's layer list; its defaults are `n = 0` and `layer_types = ['conv3d']` |
| `Mask.Map` | deepneuro/pipelines/Metastases/mets_pretrain.py:62-66 | comparing a volume with a scalar yields a mask of the same length whose entry i depends only on voxel i |
| `Mask.And` | deepneuro/pipelines/Metastases/mets_pretrain.py:62 | `&` of two masks of the same shape has the same length and is the conjunction at every voxel |
| `MetsPretrain.BrainRegion` | deepneuro/pipelines/Metastases/mets_pretrain.py:61-62 | the mask has one entry per voxel, true exactly where the label is not 1 and the intensity is not 0 |
| `MetsPretrain.RoiRegion` | deepneuro/pipelines/Metastases/mets_pretrain.py:63-64 | the mask has one entry per label voxel, true exactly where the label is 1 |
| `MetsPretrain.EmptyRegion` | deepneuro/pipelines/Metastases/mets_pretrain.py:65-66 | the mask has one entry per intensity voxel, true exactly where the intensity is 0 |
| `MetsPretrain.BrainRoiDisjoint` | deepneuro/pipelines/Metastases/mets_pretrain.py:61-64 | no voxel is in both the brain region and the lesion region |
| `MetsPretrain.BrainEmptyDisjoint` | deepneuro/pipelines/Metastases/mets_pretrain.py:61-62 | no voxel is in both the brain region and the background region |
| `MetsPretrain.RegionsCover` | deepneuro/pipelines/Metastases/mets_pretrain.py:61-66 | every voxel is in at least one of the three regions |
| `MetsPretrain.RegionsArePointwise` | deepneuro/pipelines/Metastases/mets_pretrain.py:61-66 | two samples with the same label and intensity at voxel i get the same value at i in each of the three masks |
| `MetsPretrain.RegionsReadOneVolume` | deepneuro/pipelines/Metastases/mets_pretrain.py:63-66 | the lesion mask depends only on the labels, and the background mask only on the intensities |
| `Train.BrainRegion` | deepneuro/pipelines/Metastases/train.py:47-48 | the mask has one entry per voxel, true exactly where the label is not 1 and the intensity is not 0 |
| `Train.RoiRegion` | deepneuro/pipelines/Metastases/train.py:49-50 | the mask has one entry per label voxel, true exactly where the label is 1 |
| `Train.EmptyRegion` | deepneuro/pipelines/Metastases/train.py:51-52 | the mask has one entry per intensity voxel, true exactly where the intensity is 0 |
| `Train.SameAsPretrain` | deepneuro/pipelines/Metastases/train.py:47-52 | the three masks of the training script are equal to those of the pretraining script |
| `Train.BrainIsRest` | deepneuro/pipelines/Metastases/train.py:47-52 | a voxel is in the brain region exactly when it is in neither the lesion region nor the background region |
| `Train.RegionsCover` | deepneuro/pipelines/Metastases/train.py:47-52 | the union of the three masks covers every voxel |
| `Train.RoiAndEmptyOverlap` | deepneuro/pipelines/Metastases/train.py:49-52 | a voxel labelled 1 with intensity 0 is in both the lesion and the background region and not in the brain region, so the three regions are not a partition |

## Left out

- `MetsPretrain.FreezeLayers`: requires each layer object to appear in the model's layer list only once. A Keras model's `layers` list has this property. Aliased entries, where a later assignment would overwrite an earlier one, are not modelled.
- `MetsPretrain.BrainRegion`, `Train.BrainRegion`: require the label and intensity volumes to have the same number of voxels. NumPy broadcasting is not modelled: the four-channel input is combined with the one-channel label. Both volumes are modelled as flat sequences of voxels, paired one to one.
- Voxel values are integers compared only for equality. Floating-point intensities (NaN included) are not modelled.
- Keras layer internals, other than the fixed name and the `trainable` flag, are not modelled. `plot_model` is not modelled either.
- The toolkit calls are external, and their behaviour is not visible in these scripts: `DataCollection`, `fill_data_groups`, `ExtractPatches`, `Flip_Rotate_2D`, `append_augmentation`, `UNet`, `load_old_model`, `train`, `ModelPatchesInference`, `BinarizeLabel`, `append_postprocessor`, `append_output` and `generate_outputs`.
- HDF5 reads and writes, `os.path.exists`, the hard-coded file paths and the CUDA device selection through `os.environ` are I/O and environment setup.
- The hyperparameter dictionaries, patch shapes and the sampling ratios .05 / .25 / .7 are floating-point configuration consumed by the toolkit.
- The mode flags (`load_data`, `train_model`, `load_test_data`, `predict`) only sequence the I/O and toolkit calls above.
