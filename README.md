# IFEM-to-VT in Dafny: reader bookkeeping, field patches, VTK writer storage, reader selection

This project models the core of IFEM-to-VT, a converter that reads IFEM
HDF5 result files (spline patches over time levels) and hands geometry
and fields to VTK-family writers. It covers four parts of that core.

- **The IFEM reader** (`ifem_reader.dfy`, `tesselation.dfy`): the `Reader`
  class with
  - `check`: one pass over the time levels that fills the bases dict, with
    each basis's update levels and the largest parametric dimension, then
    one pass that fills the fields dict;
  - `basis_level`: resolving a query level to the latest update level at
    or before it;
  - `npatches`;
  - the patch cache keyed on the resolved level;
  - `write_geometry`: the object catalogue and its `last_written` skip
    rule, and the element array built by row-major `ravel_multi_index`
    arithmetic over the node grid;
  - `write`: one pass per level, geometry for each basis updated at that
    level, then `add_time`.

  The HDF5 file is a value (`Container`) and G2 blocks are stored already
  decoded. The writer is represented by the sequence of calls made on it.
- **Field patches** (`fields.dfy`):
  - the field types and their properties;
  - the default field type;
  - `decompositions`;
  - the classes `SimpleFieldPatch` and `CombinedFieldPatch`, each with
    `num_comps`, `ensure_ncomps` (in-place zero padding) and
    `pick_component` (the block walk of the combined patch).
- **VTK, VTU and PVD writer bookkeeping** (`vtk_writer.dfy`):
  - `applicable` and `validate_mode`;
  - the `VTKWriter` class storing geometry and field data by patch id;
  - the cell concatenation of `finalize_step`, with node offsets and the
    node-count column;
  - the PVD timestep value.
- **Reader selection** (`reader_selection.dfy`): `find_applicable` as a
  first-match search over a registry sequence, plus the base `applicable`
  and `validate`.

`wrappers.dfy` holds the `Option`, `Result` and `Outcome` datatypes.

Three places where the model follows the code as written:
- `write_geometry` never assigns a patch id. Every node keeps
  `patchid = None`, and `None` is what is passed to the writer.
- The second pass of `check` reads the groups of the last time level for
  every level. This is the stale `lgrp` left by the first pass.
- The error raised by `basis_level` when nothing resolves is a plain
  failure (`Unavailable`).

Python exceptions on the modelled paths become failures in the model. Where
the caller needs to know which one, it is an error value, for example the
`KeyError` of an unknown basis or the `IndexError` of an empty block list.
Elsewhere it is a plain `None` or `ok == false`: the `ZeroDivisionError` of a
basis patch with no control points or the `KeyError` of a missing dataset `1`
in `NComps`, and the unbound level variable of a file with no time levels
in `ScanFields`. The contracts state when each failure happens.

## Model

| member | source | states |
|---|---|---|
| Fields.IsVector | ifem_to_vt/fields.py:34-43 | Displacement counts as a vector |
| Fields.IsDisplacement | ifem_to_vt/fields.py:40-43 | only a vector type can be a displacement |
| Fields.IsScalar | ifem_to_vt/fields.py:23-25 | `is_scalar` is exactly `not is_vector`, true for Scalar alone |
| Fields.DefaultFieldType | ifem_to_vt/fields.py:131-134 | a given field type is kept; otherwise the type is a non-displacement type that is a vector exactly when there is more than one component |
| Fields.Decompositions | ifem_to_vt/fields.py:107-113 | no decompositions when `decompose` is false or there is one component; otherwise min(ncomps, 3) pairs (i, name_x/y/z) in increasing i |
| Fields.DecompositionNamesDistinct | ifem_to_vt/fields.py:112-113 | the decomposed names are pairwise distinct and differ from the field's own name |
| Fields.Zeros | ifem_to_vt/fields.py:187 | the zero block has the requested rows and width, and every column is zero |
| Fields.Column | ifem_to_vt/fields.py:147 | the slice `[:, index:index+1]` keeps the row count and holds exactly column `index`, or no column when the index is past the end |
| Fields.PadColumns | ifem_to_vt/fields.py:143-144 | padding never truncates and keeps the existing columns; it is the identity for an allowed scalar or for a wide enough array; otherwise the width becomes n and the new columns are zero |
| Fields.PadIdempotent | ifem_to_vt/fields.py:143-144 | padding twice to the same count is padding once |
| Fields.Stacked | ifem_to_vt/fields.py:171-178 | the stacked columns of the blocks number exactly `num_comps`, the sum of the block widths |
| Fields.TotalWidthAppend | ifem_to_vt/fields.py:171-172 | widths and stacked columns are additive over concatenated block lists |
| Fields.LocateSpec | ifem_to_vt/fields.py:191-194 | the block walk finds a block exactly when index < num_comps; the block found contains the index, and its offset plus the local column equals the index |
| Fields.LocateColumn | ifem_to_vt/fields.py:190-198 | the column picked from the located block equals column `index` of the horizontally stacked data |
| Fields.PadBlocks | ifem_to_vt/fields.py:186-188 | appending the zero block pads the stacked columns exactly as padding a single array would, and makes the width ncomps |
| Fields.SimpleFieldPatch.constructor | ifem_to_vt/fields.py:126-134 | the attributes are stored as given, and the field type follows the default rule on the data's width |
| Fields.SimpleFieldPatch.EnsureNComps | ifem_to_vt/fields.py:143-144 | the data becomes the zero-padded data |
| Fields.SimpleFieldPatch.PickComponent | ifem_to_vt/fields.py:146-147 | a fresh Scalar patch on the same geometry and with the same `cells` flag, holding the one picked column |
| Fields.CombinedFieldPatch.constructor | ifem_to_vt/fields.py:160-168 | the attributes are stored as given, and the field type follows the default rule on the summed width |
| Fields.CombinedFieldPatch.EnsureNComps | ifem_to_vt/fields.py:180-188 | nothing changes for an allowed scalar or when num_comps >= ncomps; otherwise exactly one zero block of the missing width, with the last block's rows, and one copy of the last patch are appended; num_comps then equals ncomps; equal list lengths are kept; an empty list reports the IndexError |
| Fields.CombinedFieldPatch.PickComponent | ifem_to_vt/fields.py:190-198 | it succeeds exactly when the walk finds a block that has a patch, and never for index >= num_comps; the result is a fresh Scalar patch on that block's geometry holding that block's local column, with `cells` carried over |
| VtkWriter.ApplicableExclusive | ifem_to_vt/writer/vtk.py:37-39 | each of the VTK, VTU and PVD writers claims exactly its own format name, and no name is claimed by two writers |
| VtkWriter.ValidateMode | ifem_to_vt/writer/vtk.py:53-55 | a mode passes exactly when it is ascii or binary, or appended for the XML writers; every other mode is an error |
| VtkWriter.ValidateModeNested | ifem_to_vt/writer/vtk.py:139-141 | every mode VTK accepts is accepted by VTU and PVD; VTU and PVD agree; appended is the one mode that separates them |
| VtkWriter.StorePatch | ifem_to_vt/writer/vtk.py:71-75 | the id maps to the new patch, other ids are untouched, a new id goes to the end of the insertion order, and the order stays duplicate-free |
| VtkWriter.ReplayPatchesKeys | ifem_to_vt/writer/vtk.py:75 | after any run of geometry updates the store holds exactly the ids updated, each listed once |
| VtkWriter.ReplayPatchesLast | ifem_to_vt/writer/vtk.py:75 | the patch stored under an id is the one of its last update |
| VtkWriter.ReplayPatchesOrder | ifem_to_vt/writer/vtk.py:88 | the dict order in which patches are stacked is the order of their first updates |
| VtkWriter.StoreField | ifem_to_vt/writer/vtk.py:77-81 | the data is stored under (name, patch id); the `cells` flag of a known name is kept; other patch ids and other names are untouched |
| VtkWriter.ReplayFieldsNames | ifem_to_vt/writer/vtk.py:81 | the names stored are exactly the names updated |
| VtkWriter.ReplayFieldsCells | ifem_to_vt/writer/vtk.py:81 | the `cells` flag of a name is the one of its first update |
| VtkWriter.ReplayFieldsData | ifem_to_vt/writer/vtk.py:81 | the data stored for (name, patch id) is that of its last update |
| VtkWriter.Shift | ifem_to_vt/writer/vtk.py:97 | every id of a cell row is moved by the offset, and the length is kept |
| VtkWriter.Prefixed | ifem_to_vt/writer/vtk.py:98 | each row is led by the node count and followed by the shifted row |
| VtkWriter.ConcatCells | ifem_to_vt/writer/vtk.py:94-98 | stacking fails exactly when there are no patches or the row widths differ; otherwise one row per cell of every patch |
| VtkWriter.CellRowsAt | ifem_to_vt/writer/vtk.py:95-98 | row j of patch k sits after the rows of earlier patches, led by the width and shifted by patch k's node offset |
| VtkWriter.OffsetBlocks | ifem_to_vt/writer/vtk.py:96 | the cumulative node offsets are monotone, and each patch's node block ends before the next one starts |
| VtkWriter.ConcatCellsSound | ifem_to_vt/writer/vtk.py:88-98 | every output row has the node count in front, and every shifted id of patch k falls inside patch k's own block of the stacked nodes |
| VtkWriter.VTKWriter.constructor | ifem_to_vt/writer/vtk.py:41-44 | a new writer has no patches and no fields |
| VtkWriter.VTKWriter.UpdateGeometry | ifem_to_vt/writer/vtk.py:71-75 | the patch is stored under the given id, or under the id from the base writer when none is given |
| VtkWriter.VTKWriter.UpdateSimpleField | ifem_to_vt/writer/vtk.py:77-81 | the field patch is padded in place to three components, and its tesselated data is stored under its name and patch id |
| VtkWriter.VTKWriter.UpdateCombinedField | ifem_to_vt/writer/vtk.py:77-81 | the same for a combined patch after `ensure_ncomps(3, allow_scalar=True)`: a width of 1 or at least 3 leaves blocks and patches alone; a width of 0 or 2 appends a zero block of the missing width, and also repeats the last patch unless the patch list is empty, which raises; nothing is stored when the padding raises, and the component count becomes 1, the old width or 3 |
| VtkWriter.VTKWriter.PatchValues | ifem_to_vt/writer/vtk.py:95 | the patches in dict order, one per listed id |
| VtkWriter.PvdTimestep | ifem_to_vt/writer/vtk.py:187-190 | the first step-data value when there is step data, else the step id |
| ReaderSelection.BaseApplicable | siso/reader/reader.py:20-23 | the base class claims no file |
| ReaderSelection.BaseReader | siso/reader/reader.py:42-48 | the base class is abstract and claims no file |
| ReaderSelection.FindFromSpec | siso/reader/reader.py:28-35 | the search from position k returns the first qualifying class at or after k, and finds none exactly when none qualifies |
| ReaderSelection.FindApplicableSpec | siso/reader/reader.py:25-36 | the class returned is the first in registry order that is non-abstract and applicable; TypeError exactly when no class qualifies |
| ReaderSelection.BaseNeverChosen | siso/reader/reader.py:29-30 | the abstract base class is never returned, wherever it sits in the registry |
| ReaderSelection.Validate | siso/reader/reader.py:38-40 | the default validation accepts every configuration |
| Tesselation.Lift | ifem_to_vt/reader.py:70 | each multi-index gets the outer index put in front |
| Tesselation.Tuples | ifem_to_vt/reader.py:69-70 | every multi-index of the cell enumeration has one entry per axis |
| Tesselation.CellDims | ifem_to_vt/reader.py:69 | one fewer cell than nodes along each axis, or none along an empty axis |
| Tesselation.TuplesSize | ifem_to_vt/reader.py:69-70 | `product(*ranges)` yields exactly the product of the ranges' lengths |
| Tesselation.TuplesAt | ifem_to_vt/reader.py:69-70 | the r-th cell lies inside the grid and has row-major index r |
| Tesselation.RavelBelow | ifem_to_vt/reader.py:77 | the flat index of an in-bounds multi-index is below the array size |
| Tesselation.RavelLess | ifem_to_vt/reader.py:77 | the row-major order agrees with the lexicographic order |
| Tesselation.TuplesLexOrdered | ifem_to_vt/reader.py:69-70 | cells come in strictly increasing lexicographic (i, j, k) order |
| Tesselation.RowsAt | ifem_to_vt/reader.py:71-90 | one element row per cell, in the cells' order, holding that cell's vertices |
| Tesselation.ElementBounds | ifem_to_vt/reader.py:71-90 | a cell of a non-degenerate grid has 2^d vertices, each a valid node id |
| Tesselation.ConnectivityShape | ifem_to_vt/reader.py:69-90 | prod(n_i - 1) elements of 2^d ids each, every id below prod(n_i) |
| Tesselation.ConnectivityRows | ifem_to_vt/reader.py:69-90 | element r belongs to the cell with row-major index r, so every cell gets exactly one element |
| Tesselation.QuadIds | ifem_to_vt/reader.py:75-80 | quadrilateral ids go (i,j), (i+1,j), (i+1,j+1), (i,j+1) with strides n2 and 1 |
| Tesselation.HexIds | ifem_to_vt/reader.py:81-90 | hexahedron ids are the bottom face in quadrilateral order, then each id plus one |
| IfemReader.GroupSpec | ifem_to_vt/reader.py:139-141 | a group lookup returns a member with that name, and fails exactly when no member has it |
| IfemReader.Decode | ifem_to_vt/reader.py:125-127 | decoding succeeds exactly when the basis path exists and has a block for the index |
| IfemReader.LastAtMostSpec | ifem_to_vt/reader.py:108-111 | the reverse search fails exactly when every update is after the level; otherwise it returns an update at or before the level with only later ones behind it |
| IfemReader.LastAtMostGreatest | ifem_to_vt/reader.py:105-109 | on an increasing update list the result is a member and the greatest update at or before the level |
| IfemReader.LastAtMostAppend | ifem_to_vt/reader.py:109 | updates appended after the queried level do not change the answer |
| IfemReader.UpdateLevelsSound | ifem_to_vt/reader.py:138-142 | a basis's update list is strictly increasing and holds exactly the levels whose group has a `basis` subgroup |
| IfemReader.ResolveDuringScan | ifem_to_vt/reader.py:143 | resolving level lid while the scan stands at lid gives the same answer as after the full scan |
| IfemReader.UpdateLevelsUnseen | ifem_to_vt/reader.py:140 | a basis met for the first time has no update levels yet |
| IfemReader.DedupSound | ifem_to_vt/reader.py:140 | the keys `setdefault` leaves are distinct and exactly the names met |
| IfemReader.ScanSound | ifem_to_vt/reader.py:136-142 | at every point of the first pass the bases dict is sound, its keys are the names met in first-seen order, and each update list holds exactly the levels with geometry met so far |
| IfemReader.PendingStep | ifem_to_vt/reader.py:140-142 | visiting a group changes only the update list of its own basis, which then covers every level up to the current one |
| IfemReader.MaxPardimStep | ifem_to_vt/reader.py:143 | folding a patch's pardim keeps a bound on every visited group that some visited group attains |
| IfemReader.NextLevel | ifem_to_vt/reader.py:138-139 | the state at the end of a level is the state at the start of the next |
| IfemReader.FieldsAtAdd | ifem_to_vt/reader.py:150-154 | recording a new field name introduces it with its component count and moves the fields dict one field forward |
| IfemReader.FieldsAtSkip | ifem_to_vt/reader.py:151-152 | a name already recorded is not introduced again, so the first occurrence wins |
| IfemReader.NextGroupFields | ifem_to_vt/reader.py:147-154 | finishing a group's fields leaves the dict ready for the next group |
| IfemReader.EmitOneSkip | ifem_to_vt/reader.py:58-61 | a node already written at this level or later is skipped: no call is made, and only the catalogue insertion remains |
| IfemReader.EmitOneFail | ifem_to_vt/reader.py:69-71 | a failing element construction stops the loop |
| IfemReader.EmitOneWrite | ifem_to_vt/reader.py:62-94 | otherwise the node is marked written at this level, and its own object goes to the writer with its element array and its None patch id |
| IfemReader.OneGrows | ifem_to_vt/reader.py:52-62 | one iteration keeps the catalogue sound and only grows it, and `last_written` never decreases |
| IfemReader.EmitGrows | ifem_to_vt/reader.py:50-62 | the same holds over the whole patch loop |
| IfemReader.EmitStaysFailed | ifem_to_vt/reader.py:50-94 | once the element construction has raised, nothing further happens |
| IfemReader.EmitCatalogue | ifem_to_vt/reader.py:50-62 | the catalogue gains only the identities of the patches visited, and each of those is marked written at this level or later |
| IfemReader.EmitPrefix | ifem_to_vt/reader.py:50-94 | the loop only appends writer calls |
| IfemReader.EmitCalls | ifem_to_vt/reader.py:50-94 | every appended call is a geometry update for a visited patch of this basis at this level, in increasing patch order |
| IfemReader.EmitOnce | ifem_to_vt/reader.py:58-62 | every call is for a node that was not yet written at this level, and that node is now marked written at it |
| IfemReader.EmitDistinctNodes | ifem_to_vt/reader.py:58-62 | no two calls of one level pass the same catalogue node |
| IfemReader.TimesAppend | ifem_to_vt/reader.py:46 | the times of a concatenated trace are the concatenated times |
| IfemReader.TimesSkip | ifem_to_vt/reader.py:42-46 | geometry calls add no time |
| IfemReader.Reader.constructor | ifem_to_vt/reader.py:28-36 | a new reader has empty bases, fields, cache, catalogue and trace |
| IfemReader.Reader.BasisLevelSpec | ifem_to_vt/reader.py:105-111 | an unknown basis is a KeyError; otherwise the call succeeds exactly when some update is at or before the level, and it returns such an update, the greatest one on an increasing list |
| IfemReader.Reader.NPatches | ifem_to_vt/reader.py:113-117 | on a sound bases dict it fails exactly when the level does not resolve; otherwise it is the number of blocks at the resolved level |
| IfemReader.Reader.GetPatch | ifem_to_vt/reader.py:119-133 | it succeeds exactly when the level resolves and the block exists; the result is the decoded block at the resolved key; the key is decoded only if it was not cached; failures leave the cache alone |
| IfemReader.Reader.CachedPatchShared | ifem_to_vt/reader.py:122-133 | two queries that resolve to the same level return the same patch, and together decode at most once |
| IfemReader.Reader.BasesScannedSound | ifem_to_vt/reader.py:136-142 | the bases dict built so far is sound and in first-seen order |
| IfemReader.Reader.RegisterBasis | ifem_to_vt/reader.py:140-142 | `setdefault` and the append move the bases dict one group forward, and the group's basis now has its update levels up to this level |
| IfemReader.Reader.ResolvesDuringScan | ifem_to_vt/reader.py:143 | during the scan, resolving the current level agrees with the final resolution |
| IfemReader.Reader.ScanPatchZero | ifem_to_vt/reader.py:143 | it succeeds exactly when patch 0 resolves, then folds its pardim into the running maximum |
| IfemReader.Reader.ScanGroup | ifem_to_vt/reader.py:139-143 | one group: it succeeds exactly when its patch 0 exists, and the scan state moves one group forward |
| IfemReader.Reader.FinishLevel | ifem_to_vt/reader.py:138 | the scan state carries over from the end of one level to the next |
| IfemReader.Reader.ScanLevel | ifem_to_vt/reader.py:139-143 | every group of one level in order; on failure, the first group whose patch 0 does not resolve |
| IfemReader.Reader.ScanGeometry | ifem_to_vt/reader.py:135-143 | the first pass succeeds exactly when patch 0 of every group resolves; it then leaves the complete bases dict and max_pardim |
| IfemReader.Reader.ScannedBases | ifem_to_vt/reader.py:136-143 | the bases are exactly the group names of the file, their update lists are strictly increasing and exactly the levels with geometry, and max_pardim is the greatest pardim of patch 0 over all groups (0 if none) |
| IfemReader.Reader.ResolvedAfterScan | ifem_to_vt/reader.py:105-109 | after the scan, `basis_level` for a basis of the file succeeds exactly when the complete update list resolves, with the same answer |
| IfemReader.Reader.AddField | ifem_to_vt/reader.py:151-154 | a new field name is introduced; the call succeeds exactly when its component count (size div patch length) exists, which is then recorded |
| IfemReader.Reader.ScanGroupFields | ifem_to_vt/reader.py:150-154 | the fields of one group are recorded, first occurrence winning; on failure, the new field whose count cannot be computed |
| IfemReader.Reader.ScanLevelsFields | ifem_to_vt/reader.py:146-154 | one last-level group over every level: the fields dict moves one group forward |
| IfemReader.Reader.ScanFields | ifem_to_vt/reader.py:145-154 | the second pass succeeds exactly when there is a time level and every introduced field has a component count, and then holds one record per name, from its first occurrence |
| IfemReader.Reader.Check | ifem_to_vt/reader.py:135-154 | `check` succeeds exactly when every patch 0 resolves, a level exists and every field resolves; it then leaves the complete bases, max_pardim and fields |
| IfemReader.Reader.WriteStaysFailed | ifem_to_vt/reader.py:41-46 | a failure stops `write`: later levels add nothing |
| IfemReader.Reader.GeometryCalls | ifem_to_vt/reader.py:48-94 | `write_geometry` for a basis updated at `lid` only appends geometry updates at `lid` for bases updated there |
| IfemReader.Reader.LevelCalls | ifem_to_vt/reader.py:43-45 | the inner loop of `write` emits geometry only for bases whose updates contain `lid` |
| IfemReader.Reader.WriteTrace | ifem_to_vt/reader.py:41-46 | `add_time` is called once per level with times 0.0, 1.0, ... in increasing order (all levels unless a write failed), and every geometry update happens at a level in its basis's updates |
| IfemReader.Reader.TraceAdvance | ifem_to_vt/reader.py:42-46 | one level of `write` keeps that trace property and adds that level's time |
| IfemReader.Reader.WriteNode | ifem_to_vt/reader.py:51-94 | one patch iteration updates the catalogue and the trace as the skip rule prescribes, and keeps the catalogue sound |
| IfemReader.Reader.ListedPatch | ifem_to_vt/reader.py:50-51 | `patch` for an index below `npatches` cannot fail and returns the listed block |
| IfemReader.Reader.WritePatches | ifem_to_vt/reader.py:50-94 | the patch loop produces the catalogue and trace of the loop specification |
| IfemReader.Reader.WriteGeometry | ifem_to_vt/reader.py:48-94 | `write_geometry` fails when `npatches` does, and otherwise runs the patch loop at the resolved level |
| IfemReader.Reader.WriteLevel | ifem_to_vt/reader.py:43-45 | every basis, in first-seen order, whose updates contain `lid` |
| IfemReader.Reader.Write | ifem_to_vt/reader.py:41-46 | `write` produces the catalogue and trace of the level-by-level specification, whose timing is stated by WriteTrace |
| Tesselation.Connectivity | ifem_to_vt/reader.py:67-90 | the element connectivity of a structured grid: an error for a degenerate grid, otherwise one row of corner ids per cell in C order; its shape is stated by ConnectivityShape and its rows by ConnectivityRows |
| Tesselation.Vertices | ifem_to_vt/reader.py:67-90 | the corner ids of cell `c`, in the corner order of VTK; HexIds states them for a 3-D grid and ConnectivityRows ties them to the rows of Connectivity |
| ReaderSelection.FindFrom | siso/reader/reader.py:25-36 | the first non-abstract applicable class from position k on; its result is stated by FindFromSpec |
| ReaderSelection.FindApplicable | siso/reader/reader.py:25-36 | `find_applicable`: the first non-abstract applicable class, or the `TypeError` when none is; stated in both directions by FindApplicableSpec |
| IfemReader.Reader.BasisLevel | ifem_to_vt/reader.py:105-111 | `basis_level`: a `KeyError` for an unknown basis, otherwise the last update not after the level, or a failure when there is none; stated by BasisLevelSpec |
| IfemReader.NComps | ifem_to_vt/reader.py:153 | the component count of a field, the floor of its dataset size over the control points of patch 0 of the basis at level 0; `None` where that raises; AddField and ScanFields state where it is used |
| IfemReader.LastAtMost | ifem_to_vt/reader.py:109 | the search of `basis.updates[::-1]` for the first level not after `level`; stated by LastAtMostSpec and, on an increasing list, LastAtMostGreatest |
| IfemReader.EmitOne | ifem_to_vt/reader.py:49-94 | one iteration of the patch loop of `write_geometry`; its three outcomes are stated by EmitOneSkip, EmitOneFail and EmitOneWrite, and OneGrows states that it only adds to the catalogue and the trace |
| IfemReader.EmitPatches | ifem_to_vt/reader.py:49-94 | the first n iterations of that loop; EmitCatalogue, EmitOnce and EmitDistinctNodes state what it writes |
| IfemReader.Reader.GeometryStep | ifem_to_vt/reader.py:48-94 | `write_geometry` at one level: a failure when `npatches` raises, otherwise the patch loop over the resolved level; WriteGeometry is proved against it |
| IfemReader.Reader.LevelStep | ifem_to_vt/reader.py:43-45 | the inner loop of `write` over the bases whose updates contain the level; WriteLevel is proved against it |
| IfemReader.Reader.Advance | ifem_to_vt/reader.py:41-46 | one iteration of the outer loop of `write`, ending with `add_time`; TraceAdvance states that it keeps the trace invariant |
| IfemReader.Reader.WriteSteps | ifem_to_vt/reader.py:41-46 | the first n iterations of the outer loop of `write`; WriteTrace states the trace it produces and Write is proved against it |
| IfemReader.Reader.LevelPatches | ifem_to_vt/reader.py:113-117 | the patch blocks of a basis at the level `basis_level` resolves to, failing where `npatches` would; NPatches states when it succeeds |
| VtkWriter.Applicable | ifem_to_vt/writer/vtk.py:37-39 | `applicable`: the format string each writer accepts; ApplicableExclusive states that exactly one writer takes each of "vtk", "vtu" and "pvd" |
| VtkWriter.VTKWriter.FinalCells | ifem_to_vt/writer/vtk.py:94-98 | the cell array of `finalize`: the cells of all patches in dict order, shifted by the nodes before them and prefixed by their corner count; ConcatCellsSound states each row |
| Fields.TotalWidth | ifem_to_vt/fields.py:171-172 | the sum of the block widths; TotalWidthAppend states that it adds over concatenation |
| Fields.SimpleFieldPatch.NumComps | ifem_to_vt/fields.py:138-139 | `num_comps`: the width of the last axis of the data |
| Fields.CombinedFieldPatch.NumComps | ifem_to_vt/fields.py:171-172 | `num_comps`: the total width of the blocks; EnsureNComps states its new value |
| Fields.LocateFrom | ifem_to_vt/fields.py:191-194 | the loop of `pick_component` from block s on; stated by LocateFromSpec |
| Fields.Locate | ifem_to_vt/fields.py:191-194 | the block and local column of a global component index; LocateSpec states that it succeeds exactly below the total width, and with the column it names |

## Left out

- HDF5 access and G2 decoding through splipy are foreign calls. The file is a `Container` value, and each block is stored as its decoded `Patch`.
- `set_dimension(3)` and evaluating a patch at its knots are not modelled. A patch carries only the shape of its node grid.
- splipy's `ObjectCatalogue.add` is foreign. The catalogue is a map keyed by an abstract geometric identity (`canon`).
- Node coordinates, field values and all floating-point contents are out of scope. `nan_filter` is not modelled, nor is the NaN-to-zero rule of ASCII output.
- `util.ensure_ncomps` is not part of this model. `Fields.PadColumns` follows the rule that the combined patch spells out.
- The foreign `tesselate` / `tesselate_field` calls are parameters. So is the element construction used in `write_geometry`'s loop lemmas; the reader fixes it to `Tesselation.Connectivity`.
- Logging through `logging` and `treelog` is out of scope.
- The global `config` module is out of scope. The output mode is a parameter.
- `subclasses` introspection is out of scope. The registry of reader classes is a parameter.
- The base `Writer` is not part of this model. The patch id it would hand out is a parameter.
- The structured branch of `update_geometry` (ifem_to_vt/writer/vtk.py:65-69) is not modelled. It only tesselates and delegates to the unstructured branch.
- `finalize_step` is modelled only as the cell concatenation and the offsets. The points array, the cell type, VTK arrays, `get_writer`, file names, `makedirs` and the PVD file text are left out.
- `times` yields the level number as the time, and the model follows that.
- IfemReader.Reader.BasisLevel: the unreachable `ValueError` message, which would raise `NameError` because `index` is unbound, is modelled as the plain error `Unavailable`.
- IfemReader.NComps: the floor division is modelled as written, with no check that it is exact. Only the size of patch 1's dataset matters.
- Fields.SimpleFieldPatch.PickComponent: the index is a `nat`. Negative Python indices are not modelled.
- Fields.CombinedFieldPatch.PickComponent: the index is a `nat`. Negative Python indices are not modelled.
- Python list aliasing is not modelled. A combined patch's lists are value sequences owned by the object.
- `FieldPatch.tesselate` and the `patches` iterator of `Field` are abstract or foreign and not modelled.
