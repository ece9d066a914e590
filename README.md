# medHSI core logic in Dafny

medHSI trains Keras segmentation networks on hyperspectral images (HSI) of
tissue. Each image is a height × width × bands cube with 311 bands. Beneath the
network code sit small pieces of exact integer, string and sequence logic, and
this project models them and proves what they do:

- **Array code of `hsi_io`.** Both copies are covered: `medHSIpy/tools` and the
  older `src/python/tools`. This includes:
  - the centre crop (`center_crop_hsi`) and the crop of a list (`center_crop_list`);
  - flattening cubes to pixel rows (`flatten_hsi`, `flatten_hsis`);
  - cutting a cube into patches (`patch_split_hsi`);
  - thresholding mask images into labels (`get_labels_from_mask`);
  - filtering a directory listing (`get_filenames`) and truncating the working directory (`get_base_dir`);
  - the axis rule of `load_dataset`;
  - the row-wrapping layout of `show_montage`.
- **Name dispatch.** A model or backbone name is mapped to a builder and its settings by ordered substring tests:
  - `get_target_backbone`, `get_sm_model` and `build_sm_model`;
  - `get_cnn_model`;
  - `get_xception_model`;
  - `compile_custom`.
- **Layer names of `get_xception3d_1`**, generated from a block counter shared by the encoder and the decoder.
- **The encoder/decoder skip pairing of `cnn3d` and `cnn3d2`.**
- **Training bookkeeping:**
  - the metric dictionaries `get_eval_metrics` and `get_eval_metrics_and_settings`;
  - the output file name of `get_model_filename`;
  - the prediction title of `visualize`.
- **The directory-tree printer** `DisplayablePath` of `create_file_structure`.
- **The tensorflow-datasets generator of the PSL normalized dataset**, in both of its copies.

Python semantics the code relies on are written out in `text.dfy` and `ndarray.dfy`:
- `in` on strings, `str(n)`, `split`/`join`, `list.index`, lower-casing and string order;
- slices that clamp;
- `ceil` and `floor` of a half;
- row-major reshape;
- transpose.

Where Python raises an exception, the model returns an error value:
`ValueError`, `IndexError`, `KeyError`, `UnboundLocalError` or `AttributeError`.

Modules, one file each:
- `Wrappers`: `Option`, `Result` and the error kinds.
- `Text` and `NdArray`: the Python and numpy primitives.
- `HsiIo`: `medHSIpy/tools/hsi_io.py`.
- `LegacyHsiIo`: `src/python/tools/hsi_io.py`. Its `flatten_hsi`, `flatten_hsis` and `patch_split_hsi` are the same text as the medHSIpy copies and are modelled once, in `HsiIo`.
- `SmBackbones`, `FileTree`, `TrainUtils`, `Xception`, `CnnModels`: one module per tool file.
- `PslDataset`: both `pslNormalized.py` copies.

Where the code and its documentation disagree, the model follows the code:
- **Root line of the tree printer.** The root of the printed tree is shown by its `displayname`, so a root directory ends in `/`. It is not shown by its bare name.
- **Backbone of `get_sm_model`.** `get_sm_model` always resolves the backbone first, so a name no backbone test accepts fails with `UnboundLocalError`. This happens even on the pretrained path.

## Model

| member | source | states |
|---|---|---|
| HsiIo.Kept | medHSIpy/tools/hsi_io.py:20 | the kept entries are exactly the listed names containing the target, and there are no more of them than listed |
| HsiIo.KeptAppend | medHSIpy/tools/hsi_io.py:20 | filtering a listing in two pieces gives the two filtered pieces in listing order |
| HsiIo.GetFilenames | medHSIpy/tools/hsi_io.py:18-21 | one path per kept entry, in listing order, each the folder joined to that entry |
| HsiIo.BaseDirParts | medHSIpy/tools/hsi_io.py:43-47 | defined exactly when some backslash-separated component of the working directory is "medHSI", ValueError otherwise; the parts are the components up to and including the first "medHSI", with the separator inserted at position 1 |
| HsiIo.GetBaseDir | medHSIpy/tools/hsi_io.py:43-49 | get_base_dir succeeds exactly when some backslash-separated component of the working directory is "medHSI", fails with ValueError otherwise, and returns the os.path.join of the parts BaseDirParts describes |
| HsiIo.BaseDirIsPrefix | medHSIpy/tools/hsi_io.py:44-48 | without the inserted separator, the parts joined by backslashes are a prefix of the working directory that ends in "medHSI" |
| HsiIo.AxisToBack | medHSIpy/tools/hsi_io.py:123 | `np.transpose(val, [1, 2, 0])`: shape (W, B, H), and entry (i, j, k) is source entry (k, i, j) |
| HsiIo.ArrangeLayout | medHSIpy/tools/hsi_io.py:122-123 | a cube whose third axis has 311 entries is kept as it is; otherwise axis 0 moves to the back, so a cube stored bands-first ends up bands-last with every band value in place |
| HsiIo.LoadDataset | medHSIpy/tools/hsi_io.py:111-135 | the key list comes back unchanged; the cubes are rearranged one by one in key order; 'pixel' gives flatten_hsis of them (its ValueError included), 'image' gives the cubes, 'patch' and any other type give the empty result |
| HsiIo.LabelImage | medHSIpy/tools/hsi_io.py:156-160 | a label image has the mask's shape |
| HsiIo.LabelImageMeaning | medHSIpy/tools/hsi_io.py:158-160 | a label pixel is 1 exactly when the grey level is at most 170, and 0 exactly when it is above 170 |
| HsiIo.GetLabelsFromMask | medHSIpy/tools/hsi_io.py:153-164 | one label image per mask, in input order |
| HsiIo.CenterCropHsi | medHSIpy/tools/hsi_io.py:183-186 | a 3-D input gives a 3-D crop and a 2-D input a 2-D crop |
| HsiIo.CenterCropList | medHSIpy/tools/hsi_io.py:190-194 | one crop per input in input order, each made with `(targetWidth, targetHeight)` in the `(targetHeight, targetWidth)` parameters |
| HsiIo.CenterCropListSwapped | medHSIpy/tools/hsi_io.py:193 | because of that swap a listed crop is targetWidth rows high and targetHeight columns wide |
| HsiIo.FlattenHsi | medHSIpy/tools/hsi_io.py:205-206 | every row of a flattened cube has H*W entries |
| HsiIo.FlattenHsiLayout | medHSIpy/tools/hsi_io.py:205-206 | a flattened cube has B rows of H*W entries, and entry r*W + c of row k is band k of pixel (r, c) |
| HsiIo.FlattenHsis | medHSIpy/tools/hsi_io.py:208-211 | an empty list raises ValueError (np.concatenate of nothing) |
| HsiIo.PixelParts | medHSIpy/tools/hsi_io.py:209 | each image's pixels, row-major |
| HsiIo.FlattenHsisIsPixelRows | medHSIpy/tools/hsi_io.py:208-211 | for a non-empty list of cubes with the same band count, flatten_hsis is the pixel lists of all the images, one after another |
| HsiIo.PixelRowsShape | medHSIpy/tools/hsi_io.py:208-211 | the pixel rows number sum(H_i*W_i), each with B values |
| HsiIo.PixelRowsAt | medHSIpy/tools/hsi_io.py:208-211 | pixel (r, c) of image i is pixel row (pixels of images before i) + r*W_i + c |
| HsiIo.FlattenHsisRow | medHSIpy/tools/hsi_io.py:208-211 | flatten_hsis succeeds with sum(H_i*W_i) rows of B values, and the row for pixel (r, c) of image i is that pixel's band vector |
| HsiIo.GridX | medHSIpy/tools/hsi_io.py:217 | the first meshgrid output has st1 rows of st0 entries |
| HsiIo.GridY | medHSIpy/tools/hsi_io.py:217 | the second meshgrid output has the same shape |
| HsiIo.VisitOrder | medHSIpy/tools/hsi_io.py:217-220 | the loop visits st0*st1 grid positions |
| HsiIo.VisitOrderAt | medHSIpy/tools/hsi_io.py:217-220 | position (x, y) is visited at step y*st0 + x: y outer, x inner, as the 'xy' meshgrid flattens |
| HsiIo.VisitOrderLast | medHSIpy/tools/hsi_io.py:217-220 | the last position visited is (st0-1, st1-1) |
| HsiIo.WholePatches | medHSIpy/tools/hsi_io.py:215-216 | patch x of floor(n/p) ends inside the cropped extent floor(n/p)*p, which fits in n |
| HsiIo.PatchAreaShape | medHSIpy/tools/hsi_io.py:215-216 | the cube is cropped to floor(H/p)*p × floor(W/p)*p |
| HsiIo.PatchOfWindow | medHSIpy/tools/hsi_io.py:223 | the patch at grid position (x, y) is the p × p block at rows x*p.., columns y*p.. of the cropped cube |
| HsiIo.PatchFits | medHSIpy/tools/hsi_io.py:215-223 | every slice of the loop stays within the cropped cube |
| HsiIo.StorePatches | medHSIpy/tools/hsi_io.py:219-223 | `++i` leaves i at 0, so after the loop slot 0 holds the patch at the last visited position and no other slot is written |
| HsiIo.FillPatches | medHSIpy/tools/hsi_io.py:218-223 | the np.empty array has st0*st1 slots; slot 0 ends with the patch at (st0-1, st1-1); every other slot keeps its initial contents |
| HsiIo.PatchSplitHsi | medHSIpy/tools/hsi_io.py:213-225 | floor(H/p)*floor(W/p) slots; when both counts are positive, slot 0 holds the last patch of the crop to whole patches, and every other slot is the unwritten np.empty contents |
| NdArray.SliceBound | medHSIpy/tools/hsi_io.py:184 | a slice bound is clamped into 0..n and kept when already inside |
| NdArray.PySlice | medHSIpy/tools/hsi_io.py:184 | a Python slice never fails, is no longer than the list, and is the exact sub-list when its bounds are in range |
| NdArray.CeilHalf | medHSIpy/tools/hsi_io.py:177 | `int(np.ceil(d / 2))` is the least r with d <= 2r |
| NdArray.FloorHalf | medHSIpy/tools/hsi_io.py:178 | `int(np.floor(d / 2))` is the greatest r with 2r <= d |
| NdArray.Slice2 | medHSIpy/tools/hsi_io.py:184-186 | a two-axis slice has as many rows as the slice of the rows |
| NdArray.Slice2Window | medHSIpy/tools/hsi_io.py:184-186 | a window inside the array is the exact sub-array: (bottom-top) rows of (right-left) entries, entry (i, j) being source entry (top+i, left+j) |
| NdArray.CenterBoxCentred | medHSIpy/tools/hsi_io.py:177-181 | for targets that fit, the window has exactly the target extent; of the d removed pixels ceil(d/2) go top/left and floor(d/2) bottom/right, equal exactly when d is even |
| NdArray.CenterCropShape | medHSIpy/tools/hsi_io.py:177-186 | for targets that fit, the crop has targetHeight rows of targetWidth pixels, and pixel (i, j) is source pixel (top+i, left+j), kept whole |
| NdArray.CenterCropDefaultSquare | medHSIpy/tools/hsi_io.py:171-175 | without targets the crop is the centred min(H, W) square |
| NdArray.CenterCropBounded | medHSIpy/tools/hsi_io.py:177-186 | for any targets the crop fails nowhere and is no larger than the source, because slices clamp |
| NdArray.ConcatAppend | medHSIpy/tools/hsi_io.py:206 | row-major flattening distributes over stacking |
| NdArray.ConcatLength | medHSIpy/tools/hsi_io.py:206 | an H × W array reshapes to H*W entries |
| NdArray.ConcatIndex | medHSIpy/tools/hsi_io.py:206 | entry r*W + c of the reshape is entry (r, c) |
| NdArray.ConcatPreservesLength | medHSIpy/tools/hsi_io.py:206 | reshaping keeps every pixel's band vector whole |
| NdArray.Transpose | medHSIpy/tools/hsi_io.py:206 | `.transpose()` of a 2-D array: W rows of H entries, with r[k][i] == m[i][k] |
| NdArray.TransposeTwice | medHSIpy/tools/hsi_io.py:210 | transposing twice gives back any rectangular array, the empty one included; only an array with rows but no columns is not recovered |
| NdArray.ConcatColumns | medHSIpy/tools/hsi_io.py:210 | `np.concatenate(xs, axis=1)` keeps the shared row count |
| NdArray.Column | medHSIpy/tools/hsi_io.py:210 | a column has one entry per row |
| NdArray.ColumnConcat | medHSIpy/tools/hsi_io.py:210 | a column of stacked arrays is the stacked columns |
| NdArray.ConcatColumnsOfTransposes | medHSIpy/tools/hsi_io.py:209-210 | putting transposes side by side and transposing back stacks the arrays |
| LegacyHsiIo.CenterCropHsiShape | src/python/tools/hsi_io.py:128-147 | for targets that fit, the crop is targetHeight × targetWidth × B; pixel (i, j) is source pixel (ceil((H-th)/2)+i, ceil((W-tw)/2)+j); the ceil offset, the target and the floor offset add up to each dimension |
| LegacyHsiIo.CenterCropList | src/python/tools/hsi_io.py:149-153 | one crop per cube in input order, each made with the two targets swapped |
| LegacyHsiIo.CenterCropListShape | src/python/tools/hsi_io.py:149-153 | each listed crop is targetWidth × targetHeight × B |
| LegacyHsiIo.Max | src/python/tools/hsi_io.py:280-281 | `max(a, b)` is one of the two and at least both |
| LegacyHsiIo.PasteBox | src/python/tools/hsi_io.py:277-287 | the corrected paste box of an image has exactly the image's width and height, at non-negative coordinates |
| LegacyHsiIo.OffsetNearExtent | src/python/tools/hsi_io.py:280-287 | offset_x never exceeds max_x by more than the margin |
| LegacyHsiIo.PasteBoxAsWrittenMismatch | src/python/tools/hsi_io.py:278 | as written the paste box `(max_x, max_y, offset_x, offset_y)` is at most 3 pixels wide, so it never matches an image wider than 3; the first box is (0, 0, 0, 0) |
| LegacyHsiIo.ExtentsGrow | src/python/tools/hsi_io.py:280-281 | max_x and max_y never decrease from one image to the next |
| LegacyHsiIo.ExtentsMonotone | src/python/tools/hsi_io.py:280-281 | and so never decrease over any stretch of images |
| LegacyHsiIo.OffsetRule | src/python/tools/hsi_io.py:283-287 | after every fourth image offset_x resets to 0 and offset_y becomes max_y + 3; otherwise offset_x grows by 3 + shape[0] and offset_y stays |
| LegacyHsiIo.PlacedBefore | src/python/tools/hsi_io.py:277-287 | every image placed so far lies inside (0, 0, max_x, max_y), left of the cursor or above its row |
| LegacyHsiIo.PasteBoxInsideCrop | src/python/tools/hsi_io.py:289 | every placed image lies inside the final crop box |
| LegacyHsiIo.PasteBoxesDisjoint | src/python/tools/hsi_io.py:277-287 | no two images overlap |
| LegacyHsiIo.MaxOf | src/python/tools/hsi_io.py:269 | `max(...)` of a non-empty sequence is one of its elements and at least all of them |
| LegacyHsiIo.Widths | src/python/tools/hsi_io.py:269 | each image's horizontal slot is shape[0] + 3 |
| LegacyHsiIo.Heights | src/python/tools/hsi_io.py:270 | each image's vertical slot is shape[1] + 3 |
| LegacyHsiIo.Canvas | src/python/tools/hsi_io.py:267-270 | the canvas is max(shape0 + 3) * 4 wide and sum(shape1 + 3) high; an empty list raises ValueError |
| LegacyHsiIo.CursorWithinWidth | src/python/tools/hsi_io.py:269-287 | with every slot at most `slot` wide, offset_x is at most (n mod 4)*slot and max_x at most 4*slot |
| LegacyHsiIo.CursorWithinHeight | src/python/tools/hsi_io.py:270-284 | offset_y and max_y are at most the sum of the heights plus margins placed so far |
| LegacyHsiIo.PasteBoxInsideCanvas | src/python/tools/hsi_io.py:269-289 | every placed image, and the final crop, lies inside the canvas |
| LegacyHsiIo.PlaceImages | src/python/tools/hsi_io.py:273-289 | one paste box per image, the corrected box of each, then the crop box (0, 0, max_x, max_y) from the final loop variables |
| LegacyHsiIo.ShowMontage | src/python/tools/hsi_io.py:266-289 | ValueError for no images; otherwise the canvas size, the paste boxes and the crop box as above |
| SmBackbones.GetTargetBackbone | medHSIpy/tools/hsi_segment_from_sm.py:37-48 | any result is one of the five backbone constants; UnboundLocalError exactly when the name contains none of the five substrings |
| SmBackbones.ResnetInInceptionResnet | medHSIpy/tools/hsi_segment_from_sm.py:38-43 | "inceptionresnet" contains both "resnet" and "inception" |
| SmBackbones.InceptionResnetFirst | medHSIpy/tools/hsi_segment_from_sm.py:38-39 | any name containing "inceptionresnet" resolves to inceptionresnetv2, although it also passes the later "resnet" and "inception" tests |
| SmBackbones.ResnetSecond | medHSIpy/tools/hsi_segment_from_sm.py:40-41 | a name with "resnet" but not "inceptionresnet" resolves to resnet34 |
| SmBackbones.InceptionThird | medHSIpy/tools/hsi_segment_from_sm.py:42-43 | a name with "inception" and no "resnet" resolves to inceptionv3 |
| SmBackbones.EfficientnetThenVgg | medHSIpy/tools/hsi_segment_from_sm.py:44-47 | without "resnet" or "inception", "efficientnet" resolves to efficientnetb7, and otherwise "vgg" to vgg19 |
| SmBackbones.GetSmModel | medHSIpy/tools/hsi_segment_from_sm.py:50-56 | fails exactly when the backbone cannot be resolved; otherwise it builds on the resolved backbone, taking the input-adapter path exactly when the name contains "pretrained", and passes on the channel count (and, on the plain path, the class count) |
| SmBackbones.BuildSmModel | medHSIpy/tools/hsi_segment_from_sm.py:58-61 | the inputs are preprocessed for exactly the backbone the model is built on, and the model is get_sm_model's |
| FileTree.DisplayablePath.constructor | medHSIpy/tools/create_file_structure.py:12-19 | a root has depth 0 and any other node its parent's depth plus 1; the fields hold the arguments |
| FileTree.DisplayablePath.DisplayName | medHSIpy/tools/create_file_structure.py:63-67 | the name, followed by '/' exactly for a directory |
| FileTree.DisplayablePath.Displayable | medHSIpy/tools/create_file_structure.py:69-87 | the walk up the parent chain produces Line: the display name for a root; otherwise one segment per non-root ancestor, outermost first, then the connector ("└──" if last, else "├──"), a space and the display name |
| FileTree.DisplayableStep | medHSIpy/tools/create_file_structure.py:81-85 | one pass of the walk moves one ancestor's segment from the chain into the joined parts without changing the line |
| FileTree.DisplayableStart | medHSIpy/tools/create_file_structure.py:73-78 | the first part holds the connector and display name that end the line |
| FileTree.JoinReversedAppend | medHSIpy/tools/create_file_structure.py:87 | `''.join(reversed(parts + [x]))` puts x in front |
| FileTree.SegmentsLength | medHSIpy/tools/create_file_structure.py:80-85 | a node and its non-root ancestors draw 4 characters per level of depth |
| FileTree.LineLength | medHSIpy/tools/create_file_structure.py:69-87 | every line is 4*depth characters and then the display name: the connector plus one segment per non-root ancestor make depth pieces |
| FileTree.ColumnsAlign | medHSIpy/tools/create_file_structure.py:73-85 | under a non-root directory, each child's line has a bar where the directory's connector is "├──" and blanks where it is "└──" |
| FileTree.DefaultCriteriaExcludes | medHSIpy/tools/create_file_structure.py:51-61 | a path is kept exactly when its name contains none of ".git", ".spyproject", "__pycache__", "__init__" |
| FileTree.FilterKeeps | medHSIpy/tools/create_file_structure.py:35-37 | the generator keeps exactly the paths the criteria accept |
| FileTree.InsertSorted | medHSIpy/tools/create_file_structure.py:35-38 | insertion adds exactly one element and keeps key order |
| FileTree.SortByKeySorts | medHSIpy/tools/create_file_structure.py:35-38 | the sort is a permutation of its input, ordered by the lower-cased path |
| FileTree.Children | medHSIpy/tools/create_file_structure.py:35-38 | every visited child is an entry of the directory |
| FileTree.VisitedChildren | medHSIpy/tools/create_file_structure.py:35-38 | the visited children are the accepted iterdir paths, as a multiset and as a set, in case-insensitive order |
| FileTree.VisitedIsChild | medHSIpy/tools/create_file_structure.py:35-37 | a visited path is a child of the directory that the criteria accept |
| FileTree.KeyOrderIsNameOrder | medHSIpy/tools/create_file_structure.py:38 | siblings' lower-cased paths order as their lower-cased names do |
| FileTree.Rows | medHSIpy/tools/create_file_structure.py:32-49 | the listing of a subtree starts with its own node, at the given depth and flag |
| FileTree.RowsDeeper | medHSIpy/tools/create_file_structure.py:32-49 | everything listed after a node in its subtree is deeper |
| FileTree.ChildRowsDeeper | medHSIpy/tools/create_file_structure.py:39-49 | the children's subtrees lie at the children's depth or below |
| FileTree.ChildRowsSplit | medHSIpy/tools/create_file_structure.py:40-49 | the children's listing is child i's subtree, headed by child i flagged exactly when it is the last, and then the rest |
| FileTree.FlaggedChildIsLast | medHSIpy/tools/create_file_structure.py:39-41 | no sibling follows a child flagged is_last |
| FileTree.UnflaggedChildHasSibling | medHSIpy/tools/create_file_structure.py:39-41 | a sibling follows every child not flagged is_last, so exactly the last child is flagged |
| FileTree.SiblingsConcat | medHSIpy/tools/create_file_structure.py:39-49 | a subtree followed by its later siblings keeps the property that every unflagged child has a later sibling |
| FileTree.RowsOfAppend | medHSIpy/tools/create_file_structure.py:43-48 | listing nodes distributes over appending |
| FileTree.MakeTreeStart | medHSIpy/tools/create_file_structure.py:32-33 | a directory's own node is yielded before its children |
| FileTree.LeafRows | medHSIpy/tools/create_file_structure.py:47-48 | a file child is yielded as its single node |
| FileTree.MakeTreeStep | medHSIpy/tools/create_file_structure.py:40-49 | one pass of the loop yields exactly child t's subtree |
| FileTree.MakeTree | medHSIpy/tools/create_file_structure.py:28-49 | make_tree yields the pre-order listing: the directory at its depth, then each visited child's subtree in sorted order, with only the last child flagged; the criteria default to _default_criteria; the first node's parent is the given one and every node's depth is its parent's plus one |
| FileTree.MakeChildren | medHSIpy/tools/create_file_structure.py:39-49 | the loop yields the children's subtrees in order, flagging the one whose count equals the number of children |
| FileTree.MakeChild | medHSIpy/tools/create_file_structure.py:41-48 | a directory child yields its whole subtree, a file child its node, one level below the directory |
| TrainUtils.PosixJoin | medHSIpy/tools/train_utils.py:35-45 | `os.path.join` of two POSIX paths: an absolute second part replaces the first; otherwise a '/' is added unless the first is empty or already ends in one |
| TrainUtils.ModelName | medHSIpy/tools/train_utils.py:29-33 | the file name is "date_suffix.extension" when folder is None, and "suffix.extension" otherwise |
| TrainUtils.Disk.constructor | medHSIpy/tools/train_utils.py:40-43 | the directories are those given |
| TrainUtils.Disk.MakeDir | medHSIpy/tools/train_utils.py:40-43 | mkdir adds the directory only when its parent exists; its OSError is swallowed and leaves the set unchanged |
| TrainUtils.GetModelFilename | medHSIpy/tools/train_utils.py:28-46 | the name joined to the save directory (output root/dataset/test folder[/folder]); mkdir is attempted on that directory |
| TrainUtils.ModelFilenameShape | medHSIpy/tools/train_utils.py:28-46 | with plain components the path is exactly root + dataset + "/" + test folder + ["/" + folder] + "/" + [date + "_"] + suffix + "." + extension, the date appearing exactly when folder is None |
| TrainUtils.CompileCustom | medHSIpy/tools/train_utils.py:111-130 | RMSprop exactly for "RMSProp", Adam for every other name; the learning rate is passed on; the decay is passed on, as 0, exactly for "Adam" or "RMSProp" with decay 0; binary cross-entropy exactly for "BCE", the BCE+Jaccard loss otherwise |
| TrainUtils.CompileCustomDefaults | medHSIpy/tools/train_utils.py:111 | the defaults give Adam at 1e-4 without decay and the BCE+Jaccard loss |
| TrainUtils.TargetKeys | medHSIpy/tools/train_utils.py:263-265 | the eight metric names, each prefixed with "val_" exactly when isValidation |
| TrainUtils.LastOfEach | medHSIpy/tools/train_utils.py:268 | the comprehension succeeds exactly when every key is present with a non-empty list; its keys are then exactly the target keys, each mapped to the last element; otherwise KeyError for a missing key or IndexError for an empty list |
| TrainUtils.TargetKeysMembers | medHSIpy/tools/train_utils.py:263-265 | a key is targeted exactly when it is a metric name with the optional prefix |
| TrainUtils.GetEvalMetrics | medHSIpy/tools/train_utils.py:262-269 | the result holds exactly the eight (prefixed) keys, each mapped to the last element of its history list; it fails exactly when one is missing or empty |
| TrainUtils.GetEvalMetricsAndSettings | medHSIpy/tools/train_utils.py:271-283 | the eight metric entries unchanged plus exactly "optimizer", "learningRate", "decay" and "lossFunction", holding the given arguments; fails exactly as get_eval_metrics does |
| TrainUtils.AddSettings | medHSIpy/tools/train_utils.py:278-281 | adding the four settings to the metrics keeps every metric and adds exactly those four keys with the given values |
| TrainUtils.SettingKeysFresh | medHSIpy/tools/train_utils.py:277-281 | no setting name is a key of the metric dictionary, so adding the settings overwrites no metric |
| TrainUtils.SettingsAreNotMetrics | medHSIpy/tools/train_utils.py:272-281 | no setting name equals a metric key, with or without the prefix |
| TrainUtils.PredictionTitle | medHSIpy/tools/train_utils.py:193 | "Prediction" when iou is None, "Prediction (<iou>%)" otherwise |
| TrainUtils.PredictionTitleShape | medHSIpy/tools/train_utils.py:193 | every title starts with "Prediction", is exactly "Prediction" only when iou is None, and contains the iou text otherwise |
| Xception.DropSpectral | medHSIpy/tools/xception_models.py:66-71 | the 'mean' reduction exactly for names containing "mean"; the 'max' reduction exactly for names containing "max" but not "mean" |
| Xception.Wrapper | medHSIpy/tools/xception_models.py:598-636 | each `*_mean` / `*_max` wrapper calls its builder with 'mean' / 'max', which select that reduction; the caller's height lands in the builder's width parameter |
| Xception.MeanMaxSelf | medHSIpy/tools/xception_models.py:66-71 | "mean" passes the 'mean' test, and "max" passes the 'max' test but not the 'mean' one |
| Xception.RuleSpelling | medHSIpy/tools/xception_models.py:654-696 | each test's pattern spells its builder and pooling; the batch size a branch forces depends on the builder alone |
| Xception.RulePatternsDistinct | medHSIpy/tools/xception_models.py:654-696 | the ten tests of the chain look for ten different patterns |
| Xception.GetXceptionModelFollowsRules | medHSIpy/tools/xception_models.py:654-696 | get_xception_model succeeds exactly when the rule table selects a branch, and then builds that branch's builder and pooling at that branch's batch size, or the caller's where the branch sets none |
| Xception.MeanOfFirstBuilderWins | medHSIpy/tools/xception_models.py:659-661 | a name containing "xception3d_mean" is built by the first builder at batch 4, whatever later patterns it also contains |
| Xception.GetXceptionModel | medHSIpy/tools/xception_models.py:643-704 | the first test the name passes picks the builder and pooling: the name contains the chosen pattern and none of the patterns tested before it; batch size 4 for xception3d_*, 32 for xception3d2_*, 16 for xception3d4/5_*, and the caller's (default 8) for xception3d3_*; an unmatched name ends in UnboundLocalError; the inputs pass through unchanged and the height and width arrive swapped |
| Xception.GetXceptionModelAsWritten | medHSIpy/tools/xception_models.py:701 | as written, every call ends in AttributeError whatever the framework string, because train_utils defines no `ompile_custom` |
| Xception.AsWrittenAlwaysFails | medHSIpy/tools/xception_models.py:701 | train_utils has compile_custom but no ompile_custom, so as written get_xception_model always fails with AttributeError |
| Xception.XceptionDefaultsCompile | medHSIpy/tools/xception_models.py:643-644 | the defaults compile RMSprop at 1e-5 with decay 0 passed on, and the BCE+Jaccard loss |
| Xception.PartTextShape | medHSIpy/tools/xception_models.py:26-104 | every numbered name is a digit-free prefix, the block number, then a digit-free suffix |
| Xception.PrefixesHaveNoDigit | medHSIpy/tools/xception_models.py:44-104 | the prefixes "block", "decoder_block" and "decoder_residual" hold no digit |
| Xception.PlainTextShape | medHSIpy/tools/xception_models.py:64-73 | the fixed names hold no digit and are pairwise distinct |
| Xception.PartOfSpelling | medHSIpy/tools/xception_models.py:26-104 | a layer kind can be read back from its prefix and suffix |
| Xception.BlockSpelling | medHSIpy/tools/xception_models.py:26-58 | an encoder layer kind can be read back from its suffix |
| Xception.DecoderSpelling | medHSIpy/tools/xception_models.py:82-104 | a decoder layer kind can be read back from its suffix |
| Xception.SplitAtDigits | medHSIpy/tools/xception_models.py:44-104 | a name split as digit-free prefix, digits and digit-free suffix splits only one way |
| Xception.NumberedHasDigit | medHSIpy/tools/xception_models.py:44-104 | every numbered name holds a digit, so it never equals a fixed name |
| Xception.RenderInjective | medHSIpy/tools/xception_models.py:21-111 | different layers get different name strings |
| Xception.BlockOrdered | medHSIpy/tools/xception_models.py:26-104 | the layers of one block are in creation order |
| Xception.EntryOrdered | medHSIpy/tools/xception_models.py:21-33 | the entry layer and block 1 are in creation order |
| Xception.EncoderLayerNames | medHSIpy/tools/xception_models.py:21-62 | the encoder loop leaves the counter at 4; it creates block2..block4 and the closing activations of blocks 1..3, all in order; every numbered encoder layer carries a block number from 1 to 4 |
| Xception.EncoderStepOrdered | medHSIpy/tools/xception_models.py:40-58 | one pass of the encoder loop appends only later layers |
| Xception.EncoderStepMembers | medHSIpy/tools/xception_models.py:41-44 | one pass adds block k and, only when k > 2, the activation closing block k-1 |
| Xception.MiddleLayerNames | medHSIpy/tools/xception_models.py:64-73 | drop_spectral_dim is created exactly when the builder argument selects a reduction; no middle layer carries a block number |
| Xception.DecoderLayerNames | medHSIpy/tools/xception_models.py:80-111 | the decoder layers come after the middle ones in creation order; the counter continues from 5 and ends at 8; decoder_block5..8_act1 are all created; every numbered decoder layer carries a block number from 5 to 8 |
| Xception.DecoderStepOrdered | medHSIpy/tools/xception_models.py:81-104 | one pass of the decoder loop appends only later layers |
| Xception.HeadAppended | medHSIpy/tools/xception_models.py:82-92 | a decoder block's first layers come after everything before them |
| Xception.ResidAppended | medHSIpy/tools/xception_models.py:95-99 | the residual reduction comes after the block's first layers |
| Xception.TailAppended | medHSIpy/tools/xception_models.py:101-104 | the residual layers and the add come last in the block |
| Xception.DecoderStepMembers | medHSIpy/tools/xception_models.py:81-82 | one pass adds decoder_block k |
| Xception.RenderAll | medHSIpy/tools/xception_models.py:21-111 | one name per layer |
| Xception.RenderAllDistinct | medHSIpy/tools/xception_models.py:21-111 | layers in creation order have pairwise distinct names |
| Xception.PlainRendered | medHSIpy/tools/xception_models.py:64-73 | a fixed name appears exactly when its layer is created |
| Xception.Xception3d1LayerNames | medHSIpy/tools/xception_models.py:16-115 | the names are pairwise distinct; they include block2..4_DepthConv1_a, decoder_block5..8_act1 and block1..3_conv2_act, each once; drop_spectral_dim appears exactly when the argument selects a reduction; every numbered name carries a block number from 1 to 4 if it is an encoder layer and from 5 to 8 if it is a decoder layer |
| CnnModels.Cnn3d | medHSIpy/tools/cnn_models.py:46-85 | input shape (width, height, channels, 1), five downsampling blocks and a 32-filter bottleneck; decoder step t concatenates encoder feature 4-t (f5..f1) and uses that feature's filter count |
| CnnModels.Cnn3d2 | medHSIpy/tools/cnn_models.py:87-132 | input shape (width, height, channels, 1), seven downsampling blocks and a 32-filter bottleneck; decoder step t concatenates encoder feature 6-t (f7..f1) with that feature's filter count |
| CnnModels.MirroredUsesEachFeatureOnce | medHSIpy/tools/cnn_models.py:116-127 | in a mirrored network every skip feature is concatenated by exactly one decoder step |
| CnnModels.Cnn3dInCnn3d2 | medHSIpy/tools/cnn_models.py:145-149 | "cnn3d2" contains "cnn3d", and not the other way round |
| CnnModels.CnnRulesReachable | medHSIpy/tools/cnn_models.py:145-149 | each of the two tests can be selected |
| CnnModels.SwappedOrderHidesCnn3d2 | medHSIpy/tools/cnn_models.py:145-149 | had "cnn3d" been checked first, cnn3d2 could never be chosen |
| CnnModels.GetCnnModel | medHSIpy/tools/cnn_models.py:136-153 | cnn3d2 (7 levels) exactly for names containing "cnn3d2", cnn3d (5 levels) for names containing "cnn3d" only, and UnboundLocalError for any other name; both are mirrored; the network's input shape is (height, width, channels, 1) because the builders get height in their width parameter; the inputs, epochs and batch size pass through; compile_custom picks optimizer and loss |
| CnnModels.GetCnnModelFollowsRules | medHSIpy/tools/cnn_models.py:145-151 | the if/elif chain is the ordered rule table: a model exists exactly when a rule matches, and it is cnn3d2 exactly when that rule is chosen |
| CnnModels.CnnDefaultsCompile | medHSIpy/tools/cnn_models.py:136-137 | the defaults compile RMSprop at 1e-4 with decay 0 passed on, and the BCE+Jaccard loss |
| Text.ContainsIffOccurs | medHSIpy/tools/hsi_segment_from_sm.py:38-47 | Python `sub in s` holds exactly when sub occurs at some position of s |
| Text.ContainsTransitive | medHSIpy/tools/hsi_segment_from_sm.py:38-43 | a name containing a string contains everything that string contains |
| Text.NotContainsLonger | medHSIpy/tools/cnn_models.py:145-149 | no string contains a longer one |
| Text.FirstMatch | medHSIpy/tools/xception_models.py:654-699 | an if/elif chain of `in` tests picks the first pattern the name contains, and none exactly when no pattern matches |
| Text.Shadowed | medHSIpy/tools/cnn_models.py:145-149 | a later test whose pattern contains an earlier test's pattern can never be chosen |
| Text.LowerConcat | medHSIpy/tools/create_file_structure.py:38 | lower-casing distributes over concatenation |
| Text.LessCommonPrefix | medHSIpy/tools/create_file_structure.py:35-38 | strings with a common prefix compare as their remainders do |
| Text.LessTotal | medHSIpy/tools/create_file_structure.py:35-38 | Python string order is total |
| Text.LessTransitive | medHSIpy/tools/create_file_structure.py:35-38 | Python string order is transitive |
| Text.NatToString | medHSIpy/setup/datasets/pslNormalized/pslNormalized.py:117 | `str(n)` is a non-empty run of decimal digits, one digit exactly for n < 10 |
| Text.ParseNatToString | medHSIpy/setup/datasets/pslNormalized/pslNormalized.py:117 | reading back `str(n)` gives n |
| Text.NatToStringInjective | medHSIpy/setup/datasets/pslNormalized/pslNormalized.py:117 | different numbers have different decimal renderings |
| Text.Split | medHSIpy/tools/hsi_io.py:45 | `s.split(sep)` gives at least one piece, none holding the separator |
| Text.JoinSplit | medHSIpy/tools/hsi_io.py:45 | joining the pieces of a split gives back the string |
| Text.SplitJoin | medHSIpy/tools/hsi_io.py:45 | splitting a join of separator-free pieces gives back the pieces |
| Text.IndexOf | medHSIpy/tools/hsi_io.py:46 | `parts.index(x)` is the first position holding x, or ValueError when x is absent |
| PslDataset.SampleIdsDistinct | medHSIpy/setup/datasets/pslNormalized/pslNormalized.py:100 | the six sample numbers are pairwise distinct |
| PslDataset.ReselectMeaning | medHSIpy/setup/datasets/pslNormalized/pslNormalized.py:103 | the re-selection succeeds exactly when every listed position exists, and then holds element keepInd[k] at place k; otherwise IndexError |
| PslDataset.KeptPositionsBelowTwelve | medHSIpy/setup/datasets/pslNormalized/pslNormalized.py:101 | both copies keep positions below 12, the largest being 11 |
| PslDataset.ReselectNeedsTwelve | medHSIpy/setup/datasets/pslNormalized/pslNormalized.py:101-103 | both copies need at least twelve loaded cubes and then keep six; with fewer they raise IndexError |
| PslDataset.VariantsPairDifferently | medHSI-python/setup/datasets/pslNormalized/pslNormalized.py:88-91 | the copies keep the same cubes in a different order, [1, 7, 5, 6, 9, 11] against [1, 5, 6, 7, 9, 11], so sample 172 gets cube 7 in one and cube 5 in the other |
| PslDataset.SampleNameInjective | medHSIpy/setup/datasets/pslNormalized/pslNormalized.py:117 | different keys give different "sample<key>" ids |
| PslDataset.ZipLength | medHSIpy/setup/datasets/pslNormalized/pslNormalized.py:114 | zip stops at the shorter list |
| PslDataset.YieldedIsRange | medHSIpy/setup/datasets/pslNormalized/pslNormalized.py:114-120 | the generator yields one example per position of the inclusive range that the zip reaches, in increasing order, and nothing else |
| PslDataset.RangeCountStep | medHSIpy/setup/datasets/pslNormalized/pslNormalized.py:115 | one more position adds one example exactly when it is in the range |
| PslDataset.YieldedExactlyInRange | medHSIpy/setup/datasets/pslNormalized/pslNormalized.py:114-115 | position i is yielded exactly when startIdx <= i <= endIdx |
| PslDataset.YieldedOnlyInRange | medHSIpy/setup/datasets/pslNormalized/pslNormalized.py:115-116 | a yielded example comes from a position in the range |
| PslDataset.YieldedMembers | medHSIpy/setup/datasets/pslNormalized/pslNormalized.py:114-120 | every yielded example is the example of a position in the range |
| PslDataset.YieldedKeysDistinct | medHSIpy/setup/datasets/pslNormalized/pslNormalized.py:116-117 | the keys and ids of the yielded examples are pairwise distinct |
| PslDataset.YieldExamples | medHSIpy/setup/datasets/pslNormalized/pslNormalized.py:114-120 | the loop yields exactly the examples of the range over the zipped positions, keyed sampleIds[i] with id "sample" + str(sampleIds[i]) |
| PslDataset.CropData | medHSIpy/setup/datasets/pslNormalized/pslNormalized.py:106 | the kept cubes are centre-cropped to 70×70 |
| PslDataset.MaskLabels | medHSIpy/setup/datasets/pslNormalized/pslNormalized.py:110-111 | the masks are transposed, then thresholded |
| PslDataset.CropLabels | medHSIpy/setup/datasets/pslNormalized/pslNormalized.py:112 | the label images are centre-cropped at the default 70×70 |
| PslDataset.GenerateExamples | medHSIpy/setup/datasets/pslNormalized/pslNormalized.py:88-120 | IndexError exactly when fewer than twelve cubes are loaded; otherwise the range's examples of the cropped kept cubes zipped with the cropped labels |
| PslDataset.SplitGenerators | medHSIpy/setup/datasets/pslNormalized/pslNormalized.py:83-86 | two splits named 'train' and 'test' |
| PslDataset.SplitsPartition | medHSIpy/setup/datasets/pslNormalized/pslNormalized.py:83-86 | 'train' takes positions 0..4 and 'test' position 5, none in both; with all six present they hold 5 and 1 examples |
| PslDataset.ExamplesAreCropSize | medHSIpy/setup/datasets/pslNormalized/pslNormalized.py:106-112 | for inputs of at least 70×70, every example's 'hsi' and 'tumor' are exactly 70×70, the declared feature shapes |
| PslDataset.GenerateExamplesAsWritten | medHSI-python/setup/datasets/pslNormalized/pslNormalized.py:85-99 | as written the generator always fails: IndexError for fewer than twelve cubes, otherwise AttributeError at `io.load_images`, which the older hsi_io does not define |
| PslDataset.CropLegacyData | medHSI-python/setup/datasets/pslNormalized/pslNormalized.py:94 | the kept cubes are cropped to 70×70 by the older module's 3-D crop |
| PslDataset.GenerateExamplesLegacy | medHSI-python/setup/datasets/pslNormalized/pslNormalized.py:73-109 | corrected generator: IndexError exactly when fewer than twelve cubes are loaded; otherwise the range's examples of the cubes kept in this copy's order and cropped, zipped with the given label images cropped to 70×70 |

## Left out

- **Files and images.** HDF5 reading (`load_from_h5`), `os.listdir`, `cv2.imread`, `os.getcwd` and `os.path.join` are not modelled. Their results are parameters instead: the listing, the stored cubes, the mask images, the working directory and a `join` function.
- **Grey-level conversion.** `cvtColor`/`convertScaleAbs` becomes an abstract function `grey` from a pixel to an integer.
- **Unmodelled `hsi_io` helpers.** `normalize_hsi`, `xyz2rgb`, `get_display_image`, the `load_*_mat` helpers and `parse_config` are floating-point colour code or configuration I/O, and are left out.
- **Module-level code.** The code run at import time in src/python/tools/hsi_io.py (lines 294-325) is left out. So is the script at the end of create_file_structure.py, which writes the tree to a file.
- **Montage drawing.** `show_montage` is modelled over the display images' shapes. The PIL canvas, the paste of pixels and the crop of pixels are not modelled, and neither is the montage that `center_crop_list(..., showImage=True)` draws. The model only states the boxes and sizes passed to PIL.
- **Keras, segmentation_models and training.** Layers, shape inference, compile, fit, predict and preprocessing are out of scope. What is kept is the builder choice, the layer names, the skip pairing and the arguments handed on.
- **Other tool files and tests.** The other tool files, the driver scripts and the tfds test file are not part of this model.
- HsiIo.LoadDataset: the `ash5` flag (an h5py view instead of an array) is not modelled.
- **Older `load_dataset`.** The older copy differs only in not returning the key list, so it is not modelled separately.
- HsiIo.PatchSplitHsi: the patch size is a positive integer. The source computes `st[0]*patchDim` in floating point and passes it to the crop; for whole numbers this is the same value.
- NdArray.Width: a nested sequence with no rows records no width, so a 0 × W array is taken to have width 0. For HsiIo.FlattenHsis and HsiIo.FlattenHsi this means that a cube with no rows flattens to no rows and records no band count, whereas numpy flattens it to B × 0 and concatenates it with the other cubes; for a list holding such a cube the model can report ValueError, or leave the list outside SameBands, where numpy succeeds.
- Text.Lower: only ASCII letters are lower-cased. Python's full Unicode case mapping is not modelled.
- FileTree.MakeTree: requires a directory root. In Python, make_tree on a file fails in `iterdir`, and that failure is not modelled.
- FileTree.SortByKey: it is a stable insertion sort. The model proves that it orders and permutes its input, and does not state that it matches Python's `sorted` on ties. The file system is a value: iterdir's order is the order of an `Entry`'s children, and `is_dir` is the entry's kind.
- TrainUtils.GetModelFilename: `date.today()` and the two configuration values are parameters. The file system is only the set of existing directories.
- TrainUtils.CompileCustom: the optimizer and loss are values naming the Keras objects; `compile_and_save_structure` is not modelled.
- Xception.Xception3d1LayerNames: only the named layers of get_xception3d_1 are modelled. The other builders (3d_2 to 3d_5) are Keras graphs, and only their dispatch is modelled.
- PslDataset.GenerateExamplesLegacy: crops the label images with the 2-D centre crop. The older module's center_crop_hsi (src/python/tools/hsi_io.py:145) slices three axes and would raise IndexError on a 2-D label image, so the corrected generator makes a second correction besides loading the masks.
- PslDataset.GenerateExamplesAsWritten: with `showImage=True` the older crop of a list also draws a montage, which the model leaves out. The failure shown is the first one that does not depend on PIL.
- PslDataset.GenerateExamples: `_info` (the dataset metadata) is not modelled. The feature shapes it declares appear only as the 70 × 70 crop size.
- **Floating-point values.** Learning rates and decays are `real`. Images are generic element types, and no floating-point arithmetic is modelled.

## Findings

| source | as written | input that shows it | evidently intended | confidence | as-written member | corrected member |
|---|---|---|---|---|---|---|
| src/python/tools/hsi_io.py:278 | `montage.paste(image, (max_x, max_y, offset_x, offset_y))` passes the extents as the box's upper-left corner and the offsets as its lower-right corner, so the box is at most 3 pixels wide | any list whose first image is wider than 3 pixels, e.g. one 70×70 image: the first box is (0, 0, 0, 0) | paste at `(offset_x, offset_y, offset_x + shape[0], offset_y + shape[1])` | not executed | LegacyHsiIo.PasteBoxAsWrittenMismatch | LegacyHsiIo.PasteBox |
| medHSIpy/tools/xception_models.py:701 | `train_utils.ompile_custom(...)` names a function train_utils does not define, so every call ends in AttributeError | framework "xception3d_max" | `train_utils.compile_custom(...)` | not executed | Xception.AsWrittenAlwaysFails | Xception.GetXceptionModel |
| medHSI-python/setup/datasets/pslNormalized/pslNormalized.py:98-99 | the generator calls `io.load_images` and `io.get_labels_from_mask` on src/python/tools/hsi_io.py, which defines neither, so no example is ever yielded | twelve loaded cubes and any split | load the mask images and threshold them as the medHSIpy copy does, then crop the label images as 2-D arrays, which the older center_crop_hsi cannot do (src/python/tools/hsi_io.py:145 slices a third axis) | not executed; assumes `import hsi_io` resolves to src/python/tools/hsi_io.py through the path appended at lines 76-80, whereas an environment that already has another hsi_io on its path (the tests import one with load_images) would import that one | PslDataset.GenerateExamplesAsWritten | PslDataset.GenerateExamplesLegacy |
