/** Field patches of ifem_to_vt/fields.py: the field types, the naming of
    per-axis decompositions, and the two field patch kinds with their
    component count, zero padding (`ensure_ncomps`) and extraction of one
    component (`pick_component`).

    An `Array2D` is stored by columns: `cols[j]` is component j over all
    rows (nodes or cells). Values are reals; the geometry a field patch
    refers to is a decoded reader patch. */
module Fields {
  import opened Wrappers
  import IfemReader

  // ---------------------------------------------------------------------
  // Field types

  datatype FieldType = Scalar | Vector | Displacement

  /** `is_vector`: a class attribute, true for Vector and Displacement. */
  function IsVector(t: FieldType): (b: bool)
    ensures t.Displacement? ==> b
  {
    t != Scalar
  }

  /** `is_displacement`: only Displacement. */
  function IsDisplacement(t: FieldType): (b: bool)
    ensures b ==> IsVector(t)
  {
    t == Displacement
  }

  /** `is_scalar`, the negation of `is_vector`: true for Scalar alone. */
  function IsScalar(t: FieldType): (b: bool)
    ensures b <==> t == Scalar
    ensures b <==> !IsVector(t)
  {
    !IsVector(t)
  }

  /** The field type both constructors settle on: the one given, or else
      Vector when there is more than one component and Scalar otherwise. */
  function DefaultFieldType(numComps: int, given: Option<FieldType>): (t: FieldType)
    ensures given.Some? ==> t == given.value
    ensures given.None? ==> !IsDisplacement(t) && (IsVector(t) <==> numComps > 1)
  {
    match given
    case Some(g) => g
    case None => if numComps > 1 then Vector else Scalar
  }

  // ---------------------------------------------------------------------
  // Field.decompositions

  const Axes: string := "xyz"

  /** The first k decompositions of field `name`: (i, name_<axis i>). */
  function Suffixed(name: string, k: nat): (r: seq<(nat, string)>)
    requires k <= |Axes|
    ensures |r| == k
    ensures forall i :: 0 <= i < k ==> r[i].0 == i && r[i].1 == name + "_" + [Axes[i]]
  {
    if k == 0 then [] else Suffixed(name, k - 1) + [(k - 1, name + "_" + [Axes[k - 1]])]
  }

  /** `decompositions`: nothing when the field is not to be decomposed or
      has one component; otherwise one scalar per axis, for at most three
      components (`zip` with "xyz" drops the rest). */
  function Decompositions(name: string, ncomps: int, decompose: bool): (r: seq<(nat, string)>)
    ensures !decompose || ncomps == 1 ==> r == []
    ensures decompose && ncomps != 1 ==> |r| == (if ncomps < 0 then 0 else if ncomps < 3 then ncomps else 3)
    ensures forall i :: 0 <= i < |r| ==> r[i].0 == i && r[i].1 == name + "_" + [Axes[i]]
  {
    if !decompose || ncomps == 1 then []
    else Suffixed(name, if ncomps < 0 then 0 else if ncomps < 3 then ncomps else 3)
  }

  /** The decomposed names are pairwise distinct and none equals the field's own name. */
  lemma DecompositionNamesDistinct(name: string, ncomps: int, decompose: bool)
    ensures var r := Decompositions(name, ncomps, decompose);
            && (forall i, j :: 0 <= i < j < |r| ==> r[i].1 != r[j].1)
            && (forall i :: 0 <= i < |r| ==> r[i].1 != name)
  {
    var r := Decompositions(name, ncomps, decompose);
    forall i, j | 0 <= i < j < |r|
      ensures r[i].1 != r[j].1
    {
      assert r[i].1[|name| + 1] == Axes[i];
      assert r[j].1[|name| + 1] == Axes[j];
    }
    forall i | 0 <= i < |r|
      ensures r[i].1 != name
    {
      assert |r[i].1| == |name| + 2;
    }
  }

  // ---------------------------------------------------------------------
  // Two-dimensional arrays

  /** A rows-by-|cols| array, stored column by column. */
  datatype Array2D = Array2D(rows: nat, cols: seq<seq<real>>)

  /** `shape[-1]`: the number of components. */
  function Width(a: Array2D): nat
  {
    |a.cols|
  }

  function ZeroColumn(rows: nat): seq<real>
  {
    seq(rows, _ => 0.0)
  }

  /** `np.zeros((rows, width))`. */
  function Zeros(rows: nat, width: nat): (z: Array2D)
    ensures z.rows == rows && Width(z) == width
    ensures forall j :: 0 <= j < width ==> z.cols[j] == ZeroColumn(rows)
  {
    Array2D(rows, seq(width, _ => ZeroColumn(rows)))
  }

  /** `a[:, index:index+1]`: the column at `index`, or no column at all when
      `index` is past the last one, as a Python slice clips. */
  function Column(a: Array2D, index: nat): (c: Array2D)
    ensures c.rows == a.rows
    ensures index < Width(a) ==> c.cols == [a.cols[index]]
    ensures index >= Width(a) ==> c.cols == []
  {
    var lo := if index < |a.cols| then index else |a.cols|;
    var hi := if index + 1 < |a.cols| then index + 1 else |a.cols|;
    Array2D(a.rows, a.cols[lo..hi])
  }

  /** The zero padding of `ensure_ncomps` on one array: unchanged when it is
      scalar and scalars are allowed, or already has at least n components;
      otherwise zero columns are appended up to n. */
  function PadColumns(a: Array2D, n: int, allowScalar: bool): (r: Array2D)
    ensures r.rows == a.rows && Width(r) >= Width(a)
    ensures r.cols[..Width(a)] == a.cols
    ensures (Width(a) == 1 && allowScalar) || Width(a) >= n ==> r == a
    ensures !((Width(a) == 1 && allowScalar) || Width(a) >= n) ==>
              Width(r) == n && forall j :: Width(a) <= j < n ==> r.cols[j] == ZeroColumn(a.rows)
  {
    if (Width(a) == 1 && allowScalar) || Width(a) >= n then a
    else Array2D(a.rows, a.cols + Zeros(a.rows, n - Width(a)).cols)
  }

  /** Padding twice to the same count is padding once. */
  lemma PadIdempotent(a: Array2D, n: int, allowScalar: bool)
    ensures PadColumns(PadColumns(a, n, allowScalar), n, allowScalar) == PadColumns(a, n, allowScalar)
  {
  }

  // ---------------------------------------------------------------------
  // Blocks of columns (the data of a combined patch)

  /** `sum(coeffs.shape[-1] for coeffs in data)`. */
  function TotalWidth(ds: seq<Array2D>): nat
  {
    if |ds| == 0 then 0 else TotalWidth(ds[..|ds| - 1]) + Width(ds[|ds| - 1])
  }

  /** The columns of the blocks side by side, as `np.hstack` lays them out. */
  function Stacked(ds: seq<Array2D>): (cs: seq<seq<real>>)
    ensures |cs| == TotalWidth(ds)
  {
    if |ds| == 0 then [] else Stacked(ds[..|ds| - 1]) + ds[|ds| - 1].cols
  }

  lemma {:induction false} TotalWidthAppend(a: seq<Array2D>, b: seq<Array2D>)
    ensures TotalWidth(a + b) == TotalWidth(a) + TotalWidth(b)
    ensures Stacked(a + b) == Stacked(a) + Stacked(b)
  {
    if |b| == 0 {
      assert a + b == a;
    } else {
      var b' := b[..|b| - 1];
      var last := b[|b| - 1];
      TotalWidthAppend(a, b');
      assert (a + b)[..|a + b| - 1] == a + b';
      assert (a + b)[|a + b| - 1] == last;
      assert Stacked(a + b) == Stacked(a + b') + last.cols;
      assert Stacked(b) == Stacked(b') + last.cols;
    }
  }

  /** The search of `pick_component` from block s on: skip blocks while the
      remaining index is at least the block's width. */
  function LocateFrom(ds: seq<Array2D>, index: nat, s: nat): Option<(nat, nat)>
    decreases |ds| - s
  {
    if s >= |ds| then None
    else if index < Width(ds[s]) then Some((s, index))
    else LocateFrom(ds, index - Width(ds[s]), s + 1)
  }

  /** The block and local column holding global component `index`. */
  function Locate(ds: seq<Array2D>, index: nat): Option<(nat, nat)>
  {
    LocateFrom(ds, index, 0)
  }

  lemma {:induction false} LocateFromSpec(ds: seq<Array2D>, index: nat, s: nat)
    requires s <= |ds|
    ensures var r := LocateFrom(ds, index, s);
            && (r.Some? <==> TotalWidth(ds[..s]) + index < TotalWidth(ds))
            && (r.Some? ==> s <= r.value.0 < |ds| && r.value.1 < Width(ds[r.value.0])
                            && TotalWidth(ds[..r.value.0]) + r.value.1 == TotalWidth(ds[..s]) + index)
    decreases |ds| - s
  {
    if s < |ds| {
      assert ds[..s + 1][..s] == ds[..s];
      if index >= Width(ds[s]) {
        LocateFromSpec(ds, index - Width(ds[s]), s + 1);
      }
      PrefixWidth(ds, s + 1);
    } else {
      assert ds[..s] == ds;
    }
  }

  /** Prefix widths never exceed the total. */
  lemma {:induction false} PrefixWidth(ds: seq<Array2D>, k: nat)
    requires k <= |ds|
    ensures TotalWidth(ds[..k]) <= TotalWidth(ds)
  {
    TotalWidthAppend(ds[..k], ds[k..]);
    assert ds[..k] + ds[k..] == ds;
  }

  /** `pick_component` finds a block exactly for indices below `num_comps`,
      and then the block whose columns start at or before `index` and end
      after it, and the offset of `index` within that block. */
  lemma LocateSpec(ds: seq<Array2D>, index: nat)
    ensures var r := Locate(ds, index);
            && (r.Some? <==> index < TotalWidth(ds))
            && (r.Some? ==> r.value.0 < |ds| && r.value.1 < Width(ds[r.value.0])
                            && TotalWidth(ds[..r.value.0]) + r.value.1 == index)
  {
    assert ds[..0] == [];
    LocateFromSpec(ds, index, 0);
  }

  /** Column c of block s sits at position (widths before s) + c of the stack. */
  lemma {:induction false} StackedAt(ds: seq<Array2D>, s: nat, c: nat)
    requires s < |ds| && c < Width(ds[s])
    ensures TotalWidth(ds[..s]) + c < TotalWidth(ds)
    ensures Stacked(ds)[TotalWidth(ds[..s]) + c] == ds[s].cols[c]
  {
    var n := |ds|;
    var init := ds[..n - 1];
    if s < n - 1 {
      assert init[..s] == ds[..s];
      assert init[..s + 1] == ds[..s + 1];
      assert ds[..s + 1][..s] == ds[..s];
      StackedAt(init, s, c);
    } else {
      assert init == ds[..s];
    }
  }

  /** The located column is the column `index` of the stacked blocks: picking
      from a combined patch agrees with picking from its `tesselate` output. */
  lemma LocateColumn(ds: seq<Array2D>, index: nat)
    requires index < TotalWidth(ds)
    ensures Locate(ds, index).Some?
    ensures var r := Locate(ds, index).value;
            r.0 < |ds| && r.1 < Width(ds[r.0]) && ds[r.0].cols[r.1] == Stacked(ds)[index]
  {
    LocateSpec(ds, index);
    var r := Locate(ds, index).value;
    StackedAt(ds, r.0, r.1);
  }

  /** Appending the zero block of `ensure_ncomps` to the blocks pads their
      stacked columns exactly as the single-array padding would. */
  lemma PadBlocks(ds: seq<Array2D>, n: int, allowScalar: bool)
    requires |ds| > 0 && !((TotalWidth(ds) == 1 && allowScalar) || TotalWidth(ds) >= n)
    ensures var padded := ds + [Zeros(ds[|ds| - 1].rows, n - TotalWidth(ds))];
            && TotalWidth(padded) == n
            && Stacked(padded) == PadColumns(Array2D(ds[|ds| - 1].rows, Stacked(ds)), n, allowScalar).cols
  {
    var z := Zeros(ds[|ds| - 1].rows, n - TotalWidth(ds));
    TotalWidthAppend(ds, [z]);
    assert Stacked([z]) == [] + z.cols by {
      assert [z][..0] == [];
    }
  }

  // ---------------------------------------------------------------------
  // SimpleFieldPatch

  class SimpleFieldPatch {
    const name: string
    const patch: IfemReader.Patch
    var data: Array2D
    const cells: bool
    const fieldtype: FieldType

    /** `__init__`: the field type defaults on the component count of `data`. */
    constructor (name: string, patch: IfemReader.Patch, data: Array2D, cells: bool, fieldtype: Option<FieldType>)
      ensures this.name == name && this.patch == patch && this.data == data && this.cells == cells
      ensures this.fieldtype == DefaultFieldType(Width(data), fieldtype)
    {
      this.name, this.patch, this.data, this.cells := name, patch, data, cells;
      this.fieldtype := DefaultFieldType(Width(data), fieldtype);
    }

    /** `num_comps`: the width of the last axis of the data. */
    function NumComps(): nat
      reads this`data
    {
      Width(data)
    }

    /** `ensure_ncomps`: the data padded with zero columns up to `ncomps`. */
    method EnsureNComps(ncomps: int, allowScalar: bool)
      modifies this`data
      ensures data == PadColumns(old(data), ncomps, allowScalar)
    {
      data := PadColumns(data, ncomps, allowScalar);
    }

    /** `pick_component`: a new scalar patch on the same geometry holding the
        column `index` of the data (none when `index` is out of range). */
    method PickComponent(index: nat, name: string) returns (r: SimpleFieldPatch)
      ensures fresh(r)
      ensures r.name == name && r.patch == patch && r.data == Column(data, index)
      ensures r.cells == cells && r.fieldtype == Scalar
    {
      r := new SimpleFieldPatch(name, patch, Column(data, index), cells, Some(Scalar));
    }
  }

  // ---------------------------------------------------------------------
  // CombinedFieldPatch

  class CombinedFieldPatch {
    const name: string
    var patches: seq<IfemReader.Patch>
    var data: seq<Array2D>
    const cells: bool
    const fieldtype: FieldType

    /** `__init__`: the field type defaults on the total component count. */
    constructor (name: string, patches: seq<IfemReader.Patch>, data: seq<Array2D>, cells: bool, fieldtype: Option<FieldType>)
      ensures this.name == name && this.patches == patches && this.data == data && this.cells == cells
      ensures this.fieldtype == DefaultFieldType(TotalWidth(data), fieldtype)
    {
      this.name, this.patches, this.data, this.cells := name, patches, data, cells;
      this.fieldtype := DefaultFieldType(TotalWidth(data), fieldtype);
    }

    /** `num_comps`: the sum of the block widths. */
    function NumComps(): nat
      reads this`data
    {
      TotalWidth(data)
    }

    /** `ensure_ncomps`: nothing changes for a scalar patch when scalars are
        allowed, or when there are already `ncomps` components; otherwise one
        zero block of the missing width, with the row count of the last block,
        is appended, and the last geometry patch is repeated for it. `ok` is
        false where Python raises IndexError: no block to copy the row count
        from (no change), or no patch to repeat (the block is appended first). */
    method EnsureNComps(ncomps: int, allowScalar: bool) returns (ok: bool)
      modifies this`data, this`patches
      ensures var cur := TotalWidth(old(data));
              if (cur == 1 && allowScalar) || cur >= ncomps then
                ok && data == old(data) && patches == old(patches)
              else if |old(data)| == 0 then
                !ok && data == old(data) && patches == old(patches)
              else
                && data == old(data) + [Zeros(old(data)[|old(data)| - 1].rows, ncomps - cur)]
                && (ok <==> |old(patches)| > 0)
                && patches == if ok then old(patches) + [old(patches)[|old(patches)| - 1]] else old(patches)
      ensures ok ==> NumComps() == (if (TotalWidth(old(data)) == 1 && allowScalar) then 1 else if TotalWidth(old(data)) >= ncomps then TotalWidth(old(data)) else ncomps)
      ensures ok && |old(patches)| == |old(data)| ==> |patches| == |data|
    {
      var current := TotalWidth(data);
      if current == 1 && allowScalar {
        return true;
      }
      if current >= ncomps {
        return true;
      }
      if |data| == 0 {
        return false;
      }
      var last := data[|data| - 1];
      TotalWidthAppend(data, [Zeros(last.rows, ncomps - current)]);
      data := data + [Zeros(last.rows, ncomps - current)];
      if |patches| == 0 {
        return false;
      }
      patches := patches + [patches[|patches| - 1]];
      ok := true;
    }

    /** `pick_component`: walk the blocks, taking each block's width off the
        index while the index does not fall inside it, and return a scalar
        patch on the geometry of the block it falls in. None where Python
        raises IndexError: the index is at least `num_comps`, or there is no
        geometry patch for that block. */
    method PickComponent(index: nat, name: string) returns (r: Option<SimpleFieldPatch>)
      ensures r.Some? <==> Locate(data, index).Some? && Locate(data, index).value.0 < |patches|
      ensures index >= NumComps() ==> r.None?
      ensures r.Some? ==> var (s, c) := Locate(data, index).value;
                          && fresh(r.value)
                          && r.value.name == name && r.value.patch == patches[s]
                          && s < |data| && c < Width(data[s]) && r.value.data == Column(data[s], c)
                          && r.value.cells == cells && r.value.fieldtype == Scalar
    {
      LocateSpec(data, index);
      var sourceid := 0;
      var i: nat := index;
      while sourceid < |data| && i >= Width(data[sourceid])
        invariant sourceid <= |data|
        invariant LocateFrom(data, i, sourceid) == Locate(data, index)
        decreases |data| - sourceid
      {
        i := i - Width(data[sourceid]);
        sourceid := sourceid + 1;
      }
      if sourceid == |data| || sourceid >= |patches| {
        return None;
      }
      var p := new SimpleFieldPatch(name, patches[sourceid], Column(data[sourceid], i), cells, Some(Scalar));
      r := Some(p);
    }
  }
}
