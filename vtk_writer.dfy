/** The bookkeeping of the VTK, VTU and PVD writers of
    ifem_to_vt/writer/vtk.py: which format names and output modes each
    accepts, the per-patch-id storage of geometry and field data, the
    concatenation of cell arrays with node offsets and a node-count prefix
    column, and the timestep value of a PVD data set entry.

    The VTK library, file output and the base Writer (which hands out patch
    ids) are not part of this model: an id the base writer would assign and
    the output of the foreign tesselation of a field are parameters. */
module VtkWriter {
  import opened Wrappers
  import Fields
  import IfemReader

  // ---------------------------------------------------------------------
  // Format names and output modes

  datatype Kind = VTK | VTU | PVD

  /** `applicable`: each writer claims exactly its own format name. */
  function Applicable(kind: Kind, fmt: string): bool
  {
    match kind
    case VTK => fmt == "vtk"
    case VTU => fmt == "vtu"
    case PVD => fmt == "pvd"
  }

  /** No format name is claimed by two writers, and each writer claims one. */
  lemma ApplicableExclusive(fmt: string, k1: Kind, k2: Kind)
    ensures Applicable(k1, fmt) && Applicable(k2, fmt) ==> k1 == k2
    ensures Applicable(k1, "vtk") <==> k1 == VTK
    ensures Applicable(k1, "vtu") <==> k1 == VTU
    ensures Applicable(k1, "pvd") <==> k1 == PVD
  {
    assert "vtk"[2] != "vtu"[2] && "vtk"[1] != "pvd"[1] && "vtu"[1] != "pvd"[1];
  }

  /** `validate_mode`: the legacy VTK writer supports `ascii` and `binary`;
      the XML writers (VTU, and PVD which inherits it) also `appended`. Any
      other mode raises ValueError. */
  function ValidateMode(kind: Kind, mode: string): (r: Outcome<string>)
    ensures r.Pass? <==> mode == "ascii" || mode == "binary" || (kind != VTK && mode == "appended")
  {
    if kind == VTK then
      if mode in ["ascii", "binary"] then Pass else Fail("VTK format does not support '" + mode + "' mode")
    else
      if mode in ["appended", "ascii", "binary"] then Pass else Fail("VTU format does not support '" + mode + "' mode")
  }

  /** Every mode the legacy writer accepts, the XML writers accept too;
      `appended` is the one mode that separates them. */
  lemma ValidateModeNested(mode: string, kind: Kind)
    ensures ValidateMode(VTK, mode).Pass? ==> ValidateMode(kind, mode).Pass?
    ensures ValidateMode(VTU, mode) == ValidateMode(PVD, mode)
    ensures ValidateMode(VTK, "appended").Fail? && ValidateMode(VTU, "appended").Pass?
  {
  }

  // ---------------------------------------------------------------------
  // Geometry storage

  /** An unstructured patch: its node count and its cell array, `width`
      node ids per row (`cells.shape[-1]`). */
  datatype Unstructured = Unstructured(numNodes: nat, width: nat, cells: seq<seq<nat>>)

  /** `self.patches`, a dict: the stored patches and their ids in insertion order. */
  datatype PatchStore = PatchStore(byId: map<nat, Unstructured>, order: seq<nat>)

  predicate Distinct(xs: seq<nat>)
  {
    forall i, j :: 0 <= i < j < |xs| ==> xs[i] != xs[j]
  }

  /** The insertion order lists every key once. */
  ghost predicate Ordered(s: PatchStore)
  {
    Distinct(s.order) && (forall id :: id in s.byId <==> id in s.order)
  }

  /** `self.patches[patchid] = patch`: a new id goes to the end of the
      order; an id already present keeps its place and its patch is replaced. */
  function StorePatch(s: PatchStore, id: nat, p: Unstructured): (r: PatchStore)
    ensures Ordered(s) ==> Ordered(r)
    ensures id in r.byId && r.byId[id] == p
    ensures forall k :: k != id ==> (k in r.byId <==> k in s.byId) && (k in s.byId ==> r.byId[k] == s.byId[k])
    ensures s.order <= r.order && |r.order| <= |s.order| + 1
    ensures r.byId.Keys == s.byId.Keys + {id}
  {
    PatchStore(s.byId[id := p], if id in s.byId then s.order else s.order + [id])
  }

  /** The store after a run of geometry updates (id, patch), from empty. */
  function ReplayPatches(us: seq<(nat, Unstructured)>): PatchStore
  {
    if |us| == 0 then PatchStore(map[], [])
    else StorePatch(ReplayPatches(us[..|us| - 1]), us[|us| - 1].0, us[|us| - 1].1)
  }

  /** The ids a run of updates mentions. */
  function Ids(us: seq<(nat, Unstructured)>): set<nat>
  {
    set i | 0 <= i < |us| :: us[i].0
  }

  lemma IdsAppend(us: seq<(nat, Unstructured)>)
    requires |us| > 0
    ensures Ids(us) == Ids(us[..|us| - 1]) + {us[|us| - 1].0}
  {
    var init := us[..|us| - 1];
    forall id | id in Ids(us)
      ensures id in Ids(init) + {us[|us| - 1].0}
    {
      var i :| 0 <= i < |us| && us[i].0 == id;
      if i < |init| {
        assert init[i] == us[i];
      }
    }
    forall id | id in Ids(init)
      ensures id in Ids(us)
    {
      var i :| 0 <= i < |init| && init[i].0 == id;
      assert us[i] == init[i];
    }
  }

  /** After a run of updates the store holds exactly the ids updated, each
      listed once in the insertion order. */
  lemma {:induction false} ReplayPatchesKeys(us: seq<(nat, Unstructured)>)
    ensures Ordered(ReplayPatches(us)) && ReplayPatches(us).byId.Keys == Ids(us)
  {
    if |us| > 0 {
      ReplayPatchesKeys(us[..|us| - 1]);
      IdsAppend(us);
    }
  }

  /** Update i is the last one for its id. */
  predicate LastFor(us: seq<(nat, Unstructured)>, i: nat)
    requires i < |us|
  {
    forall j :: i < j < |us| ==> us[j].0 != us[i].0
  }

  /** The patch stored under an id is the one of its last update. */
  lemma {:induction false} ReplayPatchesLast(us: seq<(nat, Unstructured)>, i: nat)
    requires i < |us| && LastFor(us, i)
    ensures us[i].0 in ReplayPatches(us).byId && ReplayPatches(us).byId[us[i].0] == us[i].1
  {
    var init := us[..|us| - 1];
    if i < |us| - 1 {
      assert us[|us| - 1].0 != us[i].0;
      assert init[i] == us[i];
      assert LastFor(init, i) by {
        forall j | i < j < |init| ensures init[j].0 != init[i].0 {
          assert init[j] == us[j];
        }
      }
      ReplayPatchesLast(init, i);
    }
  }

  /** The position of the first update of `id` (|us| when there is none). */
  function FirstUpdate(us: seq<(nat, Unstructured)>, id: nat): (i: nat)
    ensures i <= |us|
    ensures i < |us| ==> us[i].0 == id
    ensures forall j :: 0 <= j < i ==> us[j].0 != id
  {
    if |us| == 0 then 0
    else if us[0].0 == id then 0
    else 1 + FirstUpdate(us[1..], id)
  }

  /** The insertion order is the order of first updates. */
  lemma {:induction false} ReplayPatchesOrder(us: seq<(nat, Unstructured)>, a: nat, b: nat)
    requires a < b < |ReplayPatches(us).order|
    ensures FirstUpdate(us, ReplayPatches(us).order[a]) < FirstUpdate(us, ReplayPatches(us).order[b])
  {
    var init := us[..|us| - 1];
    var r' := ReplayPatches(init);
    var r := ReplayPatches(us);
    ReplayPatchesKeys(init);
    var x := r.order[a];
    var y := r.order[b];
    assert x == r'.order[a] && x in r'.byId;
    FirstUpdateFound(init, us, x);
    if b < |r'.order| {
      ReplayPatchesOrder(init, a, b);
      assert y == r'.order[b] && y in r'.byId;
      FirstUpdateFound(init, us, y);
    } else {
      assert y == us[|us| - 1].0 && y !in r'.byId;
      FirstUpdateLast(us, y);
    }
  }

  /** An id updated in `init` keeps its first update when more updates follow. */
  lemma FirstUpdateFound(init: seq<(nat, Unstructured)>, us: seq<(nat, Unstructured)>, id: nat)
    requires init <= us && id in Ids(init)
    ensures FirstUpdate(us, id) == FirstUpdate(init, id) < |init|
  {
    var i :| 0 <= i < |init| && init[i].0 == id;
    FirstUpdatePrefix(init, us, id);
  }

  /** Appending an update does not move the first update of an id already updated. */
  lemma {:induction false} FirstUpdatePrefix(init: seq<(nat, Unstructured)>, us: seq<(nat, Unstructured)>, id: nat)
    requires init <= us && FirstUpdate(init, id) < |init|
    ensures FirstUpdate(us, id) == FirstUpdate(init, id)
  {
    if init[0].0 != id {
      assert init[1..] <= us[1..];
      FirstUpdatePrefix(init[1..], us[1..], id);
    }
  }

  /** An id new in the last update is first updated there. */
  lemma FirstUpdateLast(us: seq<(nat, Unstructured)>, id: nat)
    requires |us| > 0 && us[|us| - 1].0 == id && id !in Ids(us[..|us| - 1])
    ensures FirstUpdate(us, id) == |us| - 1
  {
    forall j | 0 <= j < |us| - 1
      ensures us[j].0 != id
    {
      assert us[..|us| - 1][j] == us[j];
    }
  }

  // ---------------------------------------------------------------------
  // Field storage

  /** The `Field` dataclass: whether the data lives on cells, and the data
      of each patch id. */
  datatype FieldEntry = FieldEntry(cells: bool, data: map<nat, Fields.Array2D>)

  /** `self.fields.setdefault(name, Field(cells, {})).data[patchid] = data`:
      the `cells` flag of a name is fixed by its first update; the data of
      the patch id is replaced; other names are untouched. */
  function StoreField(fs: map<string, FieldEntry>, name: string, cells: bool, patchid: nat, data: Fields.Array2D): (r: map<string, FieldEntry>)
    ensures name in r && r[name].cells == (if name in fs then fs[name].cells else cells)
    ensures patchid in r[name].data && r[name].data[patchid] == data
    ensures forall q :: q != patchid ==> (q in r[name].data <==> name in fs && q in fs[name].data)
    ensures forall q :: q != patchid && q in r[name].data ==> r[name].data[q] == fs[name].data[q]
    ensures forall n :: n != name ==> (n in r <==> n in fs) && (n in fs ==> r[n] == fs[n])
  {
    var entry := if name in fs then fs[name] else FieldEntry(cells, map[]);
    fs[name := entry.(data := entry.data[patchid := data])]
  }

  /** One field update: the field name, its `cells` flag, the patch id and the data. */
  datatype FieldUpdate = FieldUpdate(name: string, cells: bool, patchid: nat, data: Fields.Array2D)

  function ReplayFields(us: seq<FieldUpdate>): map<string, FieldEntry>
  {
    if |us| == 0 then map[]
    else
      var u := us[|us| - 1];
      StoreField(ReplayFields(us[..|us| - 1]), u.name, u.cells, u.patchid, u.data)
  }

  /** Update i is the first one for its name. */
  predicate FirstFor(us: seq<FieldUpdate>, i: nat)
    requires i < |us|
  {
    forall j :: 0 <= j < i ==> us[j].name != us[i].name
  }

  /** Update i is the last one for its name and patch id. */
  predicate Latest(us: seq<FieldUpdate>, i: nat)
    requires i < |us|
  {
    forall j :: i < j < |us| ==> (us[j].name, us[j].patchid) != (us[i].name, us[i].patchid)
  }

  /** The names stored are the names updated. */
  lemma {:induction false} ReplayFieldsNames(us: seq<FieldUpdate>, name: string)
    ensures name in ReplayFields(us) <==> exists i :: 0 <= i < |us| && us[i].name == name
  {
    if |us| > 0 {
      var init := us[..|us| - 1];
      ReplayFieldsNames(init, name);
      if exists i :: 0 <= i < |us| && us[i].name == name {
        var i :| 0 <= i < |us| && us[i].name == name;
        if i < |init| {
          assert init[i] == us[i];
        }
      }
      if exists i :: 0 <= i < |init| && init[i].name == name {
        var i :| 0 <= i < |init| && init[i].name == name;
        assert us[i] == init[i];
      }
    }
  }

  /** The `cells` flag of a name is the one of its first update. */
  lemma {:induction false} ReplayFieldsCells(us: seq<FieldUpdate>, i: nat)
    requires i < |us| && FirstFor(us, i)
    ensures us[i].name in ReplayFields(us) && ReplayFields(us)[us[i].name].cells == us[i].cells
  {
    var init := us[..|us| - 1];
    if i < |init| {
      assert init[i] == us[i];
      assert FirstFor(init, i) by {
        forall j | 0 <= j < i ensures init[j].name != init[i].name {
          assert init[j] == us[j];
        }
      }
      ReplayFieldsCells(init, i);
    } else {
      ReplayFieldsNames(init, us[i].name);
      forall k | 0 <= k < |init|
        ensures init[k].name != us[i].name
      {
        assert init[k] == us[k];
      }
    }
  }

  /** The data of a name and patch id is the one of its last update. */
  lemma {:induction false} ReplayFieldsData(us: seq<FieldUpdate>, i: nat)
    requires i < |us| && Latest(us, i)
    ensures var r := ReplayFields(us);
            us[i].name in r && us[i].patchid in r[us[i].name].data && r[us[i].name].data[us[i].patchid] == us[i].data
  {
    var init := us[..|us| - 1];
    if i < |init| {
      assert init[i] == us[i];
      assert Latest(init, i) by {
        forall j | i < j < |init|
          ensures (init[j].name, init[j].patchid) != (init[i].name, init[i].patchid)
        {
          assert init[j] == us[j];
        }
      }
      ReplayFieldsData(init, i);
      assert (us[|us| - 1].name, us[|us| - 1].patchid) != (us[i].name, us[i].patchid);
    }
  }

  // ---------------------------------------------------------------------
  // Cell concatenation in finalize_step

  /** `cumsum` of the node counts, led by 0: the number of nodes stacked
      before patch k. */
  function Offset(ps: seq<Unstructured>, k: nat): nat
    requires k <= |ps|
  {
    if k == 0 then 0 else Offset(ps, k - 1) + ps[k - 1].numNodes
  }

  /** The number of cell rows of the patches before patch k. */
  function CellsBefore(ps: seq<Unstructured>, k: nat): nat
    requires k <= |ps|
  {
    if k == 0 then 0 else CellsBefore(ps, k - 1) + |ps[k - 1].cells|
  }

  /** One cell row shifted by a node offset. */
  function Shift(row: seq<nat>, off: nat): (r: seq<nat>)
    ensures |r| == |row| && forall t :: 0 <= t < |row| ==> r[t] == row[t] + off
  {
    if |row| == 0 then [] else Shift(row[..|row| - 1], off) + [row[|row| - 1] + off]
  }

  /** The cell rows of one patch, shifted and led by the node count `w`. */
  function Prefixed(w: nat, rows: seq<seq<nat>>, off: nat): (r: seq<seq<nat>>)
    ensures |r| == |rows|
    ensures forall j :: 0 <= j < |rows| ==> r[j] == [w] + Shift(rows[j], off)
  {
    if |rows| == 0 then [] else Prefixed(w, rows[..|rows| - 1], off) + [[w] + Shift(rows[|rows| - 1], off)]
  }

  /** The stacked cell rows of the first n patches. */
  function CellRows(ps: seq<Unstructured>, w: nat, n: nat): (r: seq<seq<nat>>)
    requires n <= |ps|
    ensures |r| == CellsBefore(ps, n)
  {
    if n == 0 then [] else CellRows(ps, w, n - 1) + Prefixed(w, ps[n - 1].cells, Offset(ps, n - 1))
  }

  datatype StackError = NothingToStack | WidthMismatch

  /** The cell array handed to VTK: the cells of all patches in dict order,
      each shifted by the nodes stacked before its patch, each row led by
      the common row width. `np.vstack` raises on no patches and on cell
      arrays of different widths. */
  function ConcatCells(ps: seq<Unstructured>): (r: Result<seq<seq<nat>>, StackError>)
    ensures r.Err? <==> |ps| == 0 || exists k :: 0 <= k < |ps| && ps[k].width != ps[0].width
    ensures r.Ok? ==> |r.value| == CellsBefore(ps, |ps|)
  {
    if |ps| == 0 then Err(NothingToStack)
    else if exists k :: 0 <= k < |ps| && ps[k].width != ps[0].width then Err(WidthMismatch)
    else Ok(CellRows(ps, ps[0].width, |ps|))
  }

  /** Row j of patch k sits at position (rows of earlier patches) + j, led by
      the width and shifted by the patch's offset. */
  lemma {:induction false} CellRowsAt(ps: seq<Unstructured>, w: nat, n: nat, k: nat, j: nat)
    requires k < n <= |ps| && j < |ps[k].cells|
    ensures CellsBefore(ps, k) + j < CellsBefore(ps, n)
    ensures CellRows(ps, w, n)[CellsBefore(ps, k) + j] == [w] + Shift(ps[k].cells[j], Offset(ps, k))
  {
    if k < n - 1 {
      CellRowsAt(ps, w, n - 1, k, j);
    }
  }

  /** A patch whose cell rows have `width` entries, each a node of the patch. */
  predicate Shaped(p: Unstructured)
  {
    forall j :: 0 <= j < |p.cells| ==> |p.cells[j]| == p.width && forall t :: 0 <= t < p.width ==> p.cells[j][t] < p.numNodes
  }

  /** The node blocks follow one another in patch order and fill the stack. */
  lemma {:induction false} OffsetBlocks(ps: seq<Unstructured>, k: nat, m: nat)
    requires k <= m <= |ps|
    ensures Offset(ps, k) <= Offset(ps, m)
    ensures k < m ==> Offset(ps, k) + ps[k].numNodes <= Offset(ps, m)
  {
    if k < m {
      OffsetBlocks(ps, k, m - 1);
    }
  }

  /** Every row of the concatenation is led by the node count of a cell, and
      every shifted id of patch k's cells lies in patch k's own block of the
      stacked nodes. */
  lemma ConcatCellsSound(ps: seq<Unstructured>, k: nat, j: nat)
    requires ConcatCells(ps).Ok? && k < |ps| && j < |ps[k].cells| && Shaped(ps[k])
    ensures CellsBefore(ps, k) + j < CellsBefore(ps, |ps|)
    ensures var row := ConcatCells(ps).value[CellsBefore(ps, k) + j];
            && |row| == ps[0].width + 1 && row[0] == ps[0].width
            && forall t :: 1 <= t < |row| ==>
                 Offset(ps, k) <= row[t] < Offset(ps, k) + ps[k].numNodes <= Offset(ps, |ps|)
  {
    CellRowsAt(ps, ps[0].width, |ps|, k, j);
    OffsetBlocks(ps, k, |ps|);
  }

  // ---------------------------------------------------------------------
  // The writer

  class VTKWriter {
    const kind: Kind
    var patches: PatchStore
    var fields: map<string, FieldEntry>

    /** `__init__`: no patches and no fields. */
    constructor (kind: Kind)
      ensures this.kind == kind && patches == PatchStore(map[], []) && fields == map[]
    {
      this.kind := kind;
      patches := PatchStore(map[], []);
      fields := map[];
    }

    /** `update_geometry` for an unstructured patch: stored under the patch id
        given, or under `baseId`, the id the base writer hands out when none
        is given. */
    method UpdateGeometry(patch: Unstructured, patchid: Option<nat>, baseId: nat)
      modifies this`patches
      ensures patches == StorePatch(old(patches), if patchid.Some? then patchid.value else baseId, patch)
    {
      var id := if patchid.Some? then patchid.value else baseId;
      patches := PatchStore(patches.byId[id := patch], if id in patches.byId then patches.order else patches.order + [id]);
    }

    /** `update_field` for a simple field patch: padded in place to three
        components unless scalar, tesselated (a foreign call, `tess`), and
        stored under its name and the patch id the base writer gives. */
    method UpdateSimpleField(field: Fields.SimpleFieldPatch, patchid: nat, tess: Fields.Array2D -> Fields.Array2D)
      modifies this`fields, field`data
      ensures field.data == Fields.PadColumns(old(field.data), 3, true)
      ensures fields == StoreField(old(fields), field.name, field.cells, patchid, tess(field.data))
    {
      field.EnsureNComps(3, true);
      var data := tess(field.data);
      fields := StoreField(fields, field.name, field.cells, patchid, data);
    }

    /** `update_field` for a combined field patch. `ok` is false where the
        padding raises IndexError; nothing is stored then. */
    method UpdateCombinedField(field: Fields.CombinedFieldPatch, patchid: nat,
                               tess: (seq<IfemReader.Patch>, seq<Fields.Array2D>) -> Fields.Array2D)
      returns (ok: bool)
      modifies this`fields, field`data, field`patches
      ensures var cur := Fields.TotalWidth(old(field.data));
              if cur == 1 || cur >= 3 then
                ok && field.data == old(field.data) && field.patches == old(field.patches)
              else if |old(field.data)| == 0 then
                !ok && field.data == old(field.data) && field.patches == old(field.patches)
              else
                && field.data == old(field.data) + [Fields.Zeros(old(field.data)[|old(field.data)| - 1].rows, 3 - cur)]
                && (ok <==> |old(field.patches)| > 0)
                && field.patches == if ok then old(field.patches) + [old(field.patches)[|old(field.patches)| - 1]]
                                    else old(field.patches)
      ensures ok ==> fields == StoreField(old(fields), field.name, field.cells, patchid, tess(field.patches, field.data))
      ensures !ok ==> fields == old(fields)
      ensures ok ==> field.NumComps() == (if Fields.TotalWidth(old(field.data)) == 1 then 1
                                          else if Fields.TotalWidth(old(field.data)) >= 3 then Fields.TotalWidth(old(field.data))
                                          else 3)
    {
      ok := field.EnsureNComps(3, true);
      if !ok {
        return;
      }
      var data := tess(field.patches, field.data);
      fields := StoreField(fields, field.name, field.cells, patchid, data);
    }

    /** The stored patches in dict order. */
    function PatchValues(): (ps: seq<Unstructured>)
      reads this`patches
      requires Ordered(patches)
      ensures |ps| == |patches.order|
      ensures forall k :: 0 <= k < |ps| ==> ps[k] == patches.byId[patches.order[k]]
    {
      var o, m := patches.order, patches.byId;
      seq(|o|, k requires 0 <= k < |o| && o[k] in m => m[o[k]])
    }

    /** The cell part of `finalize_step`. */
    function FinalCells(): Result<seq<seq<nat>>, StackError>
      reads this`patches
      requires Ordered(patches)
    {
      ConcatCells(PatchValues())
    }
  }

  // ---------------------------------------------------------------------
  // PVD timesteps

  /** The value written as a data set's timestep: the first step-data
      value, or the step number when there is no step data. */
  datatype Timestep = StepValue(value: real) | StepNumber(id: nat)

  function PvdTimestep(stepdata: seq<real>, stepid: nat): (t: Timestep)
    ensures t.StepValue? <==> |stepdata| > 0
    ensures t.StepValue? ==> t.value == stepdata[0]
    ensures t.StepNumber? ==> t.id == stepid
  {
    if |stepdata| > 0 then StepValue(stepdata[0]) else StepNumber(stepid)
  }
}
