/** The IFEM HDF5 reader of ifem_to_vt/reader.py: the one-pass catalogue of
    bases and fields (`check`), the resolution of a time level to the latest
    geometry update (`basis_level`), the patch cache keyed on the resolved
    level (`patch`), and the per-level loop that pushes geometry and time
    values to a writer (`write`, `write_geometry`).

    The HDF5 file is a value of type Container. Decoding a G2 block with
    splipy is foreign; a block is stored here already decoded, as a Patch.
    The writer is foreign too; its calls are recorded in the trace `calls`. */
module IfemReader {
  import opened Wrappers
  import Tesselation

  // ---------------------------------------------------------------------
  // The input file

  /** A decoded spline patch. `canon` stands for the geometric identity that
      splipy's ObjectCatalogue compares, `ncoeffs` for `len(patch)` (the number
      of control points), `grid` for the shape of the node array that evaluating
      the patch at its knots produces, without the trailing coordinate axis. */
  datatype Patch = Patch(pardim: nat, canon: nat, ncoeffs: nat, grid: seq<nat>)

  /** A field subgroup: `sizes[p]` is the length of the dataset for patch p + 1. */
  datatype FieldGroup = FieldGroup(name: string, sizes: seq<nat>)

  /** A basis group of one time level: its `basis` subgroup (one block per patch)
      and its `fields` subgroup, each possibly absent. */
  datatype BasisGroup = BasisGroup(name: string, basis: Option<seq<Patch>>, fields: Option<seq<FieldGroup>>)

  /** The HDF5 file: time level l is the group named str(l), a list of basis groups
      in the order h5py iterates them. */
  datatype Container = Container(levels: seq<seq<BasisGroup>>)

  /** The key of the patch cache: (level, basis name, patch index). */
  datatype Key = Key(level: int, basis: string, index: nat)

  datatype Error =
    | UnknownBasis(basis: string)           // KeyError on self.bases[basis]
    | Unavailable(basis: string, level: int) // no geometry at or before the level
    | MissingEntry                          // KeyError on an HDF5 path

  predicate Distinct<T(==)>(s: seq<T>)
  {
    forall i, j :: 0 <= i < j < |s| ==> s[i] != s[j]
  }

  predicate StrictlyIncreasing(s: seq<int>)
  {
    forall i, j :: 0 <= i < j < |s| ==> s[i] < s[j]
  }

  function Names(groups: seq<BasisGroup>): (r: seq<string>)
    ensures |r| == |groups| && forall i {:trigger r[i]} :: 0 <= i < |groups| ==> r[i] == groups[i].name
  {
    seq(|groups|, i requires 0 <= i < |groups| => groups[i].name)
  }

  function FieldNames(fs: seq<FieldGroup>): seq<string>
  {
    seq(|fs|, i requires 0 <= i < |fs| => fs[i].name)
  }

  /** HDF5 group members have distinct names. */
  predicate WellFormed(h5: Container)
  {
    forall l :: 0 <= l < |h5.levels| ==>
      Distinct(Names(h5.levels[l])) &&
      forall k :: 0 <= k < |h5.levels[l]| && h5.levels[l][k].fields.Some? ==>
        Distinct(FieldNames(h5.levels[l][k].fields.value))
  }

  /** The member of a level named `name`. */
  function Group(groups: seq<BasisGroup>, name: string): Option<BasisGroup>
  {
    if |groups| == 0 then None
    else if groups[0].name == name then Some(groups[0])
    else Group(groups[1..], name)
  }

  /** The lookup finds a member with that name, and finds one whenever there is one. */
  lemma {:induction false} GroupSpec(groups: seq<BasisGroup>, name: string)
    ensures Group(groups, name).Some? ==> Group(groups, name).value in groups && Group(groups, name).value.name == name
    ensures Group(groups, name).None? <==> name !in Names(groups)
  {
    if |groups| > 0 && groups[0].name != name {
      assert Names(groups) == [groups[0].name] + Names(groups[1..]);
      GroupSpec(groups[1..], name);
    } else if |groups| > 0 {
      assert Names(groups)[0] == name;
    }
  }

  lemma {:induction false} GroupAt(groups: seq<BasisGroup>, k: nat)
    requires Distinct(Names(groups)) && k < |groups|
    ensures Group(groups, groups[k].name) == Some(groups[k])
  {
    if k > 0 {
      assert groups[0].name != groups[k].name by { assert Names(groups)[0] != Names(groups)[k]; }
      assert Names(groups[1..]) == Names(groups)[1..];
      GroupAt(groups[1..], k - 1);
    }
  }

  /** `'basis' in bgrp` for the group of `name` in this level. */
  predicate HasGeometry(groups: seq<BasisGroup>, name: string)
  {
    Group(groups, name).Some? && Group(groups, name).value.basis.Some?
  }

  /** The blocks of `{level}/{name}/basis`, if that path exists. */
  function Blocks(h5: Container, level: int, name: string): Option<seq<Patch>>
  {
    if 0 <= level < |h5.levels| && Group(h5.levels[level], name).Some? then
      Group(h5.levels[level], name).value.basis
    else None
  }

  /** Reading and decoding the block `{level}/{basis}/basis/{index + 1}`. */
  function Decode(h5: Container, key: Key): (r: Option<Patch>)
    ensures r.Some? <==> Blocks(h5, key.level, key.basis).Some? && key.index < |Blocks(h5, key.level, key.basis).value|
  {
    match Blocks(h5, key.level, key.basis)
    case None => None
    case Some(bs) => if key.index < |bs| then Some(bs[key.index]) else None
  }

  // ---------------------------------------------------------------------
  // basis_level: the reverse search over the update list

  /** The last entry of `updates` that is at most `level`, searching from the end
      as `next(l for l in updates[::-1] if l <= level)` does. */
  function LastAtMost(updates: seq<int>, level: int): Option<int>
  {
    if |updates| == 0 then None
    else if updates[|updates| - 1] <= level then Some(updates[|updates| - 1])
    else LastAtMost(updates[..|updates| - 1], level)
  }

  /** The search fails exactly when every update is after `level`; otherwise it
      returns an update not after `level` with only later levels behind it. */
  lemma {:induction false} LastAtMostSpec(updates: seq<int>, level: int)
    ensures LastAtMost(updates, level).None? <==> forall i :: 0 <= i < |updates| ==> updates[i] > level
    ensures LastAtMost(updates, level).Some? ==>
              exists i :: 0 <= i < |updates| && updates[i] == LastAtMost(updates, level).value &&
                LastAtMost(updates, level).value <= level &&
                forall j :: i < j < |updates| ==> updates[j] > level
  {
    if |updates| > 0 {
      var n := |updates| - 1;
      if updates[n] <= level {
        assert updates[n] == LastAtMost(updates, level).value;
      } else {
        var prefix := updates[..n];
        LastAtMostSpec(prefix, level);
        if LastAtMost(prefix, level).Some? {
          var i :| 0 <= i < |prefix| && prefix[i] == LastAtMost(prefix, level).value &&
                   LastAtMost(prefix, level).value <= level &&
                   forall j :: i < j < |prefix| ==> prefix[j] > level;
          assert updates[i] == LastAtMost(updates, level).value;
        } else {
          assert forall i :: 0 <= i < n ==> updates[i] == prefix[i];
        }
      }
    }
  }

  /** On a strictly increasing update list the reverse search finds the greatest
      update level not after `level`. */
  lemma LastAtMostGreatest(updates: seq<int>, level: int)
    requires StrictlyIncreasing(updates)
    requires LastAtMost(updates, level).Some?
    ensures LastAtMost(updates, level).value in updates
    ensures LastAtMost(updates, level).value <= level
    ensures forall l :: l in updates && l <= level ==> l <= LastAtMost(updates, level).value
  {
    var r := LastAtMost(updates, level).value;
    LastAtMostSpec(updates, level);
    var i :| 0 <= i < |updates| && updates[i] == r && r <= level &&
             forall j :: i < j < |updates| ==> updates[j] > level;
    forall l | l in updates && l <= level ensures l <= r {
      var j :| 0 <= j < |updates| && updates[j] == l;
      if j > i {
        assert false;
      } else if j < i {
        assert updates[j] < updates[i];
      }
    }
  }

  /** Update levels appended after every level that is queried do not change the answer. */
  lemma {:induction false} LastAtMostAppend(a: seq<int>, b: seq<int>, level: int)
    requires forall i :: 0 <= i < |b| ==> b[i] > level
    ensures LastAtMost(a + b, level) == LastAtMost(a, level)
  {
    if |b| > 0 {
      assert (a + b)[..|a + b| - 1] == a + b[..|b| - 1];
      LastAtMostAppend(a, b[..|b| - 1], level);
    } else {
      assert a + b == a;
    }
  }

  // ---------------------------------------------------------------------
  // What check records, as functions of the file

  /** The levels below n whose group for `name` has a basis subgroup, in increasing order. */
  function UpdateLevels(levels: seq<seq<BasisGroup>>, name: string, n: nat): seq<int>
    requires n <= |levels|
  {
    if n == 0 then []
    else UpdateLevels(levels, name, n - 1) + (if HasGeometry(levels[n - 1], name) then [n - 1] else [])
  }

  /** The update list of a basis is strictly increasing and holds exactly the
      levels whose group for that basis carries geometry. */
  lemma {:induction false} UpdateLevelsSound(levels: seq<seq<BasisGroup>>, name: string, n: nat)
    requires n <= |levels|
    ensures StrictlyIncreasing(UpdateLevels(levels, name, n))
    ensures forall l :: l in UpdateLevels(levels, name, n) <==> 0 <= l < n && HasGeometry(levels[l], name)
  {
    if n > 0 {
      var prev := UpdateLevels(levels, name, n - 1);
      UpdateLevelsSound(levels, name, n - 1);
      forall i | 0 <= i < |prev| ensures prev[i] < n - 1 {
        assert prev[i] in UpdateLevels(levels, name, n - 1);
      }
    }
  }

  lemma {:induction false} UpdateLevelsExtend(levels: seq<seq<BasisGroup>>, name: string, n: nat, m: nat)
    returns (rest: seq<int>)
    requires n <= m <= |levels|
    ensures UpdateLevels(levels, name, m) == UpdateLevels(levels, name, n) + rest
    ensures forall i :: 0 <= i < |rest| ==> rest[i] >= n
  {
    if m == n {
      rest := [];
    } else {
      var r := UpdateLevelsExtend(levels, name, n, m - 1);
      rest := r + (if HasGeometry(levels[m - 1], name) then [m - 1] else []);
    }
  }

  /** The geometry level that a query at `level` resolves to once the whole file is scanned. */
  function GeometryLevel(h5: Container, level: int, name: string): Option<int>
  {
    LastAtMost(UpdateLevels(h5.levels, name, |h5.levels|), level)
  }

  /** Resolving level `lid` while the scan stands at level `lid` gives the final answer. */
  lemma ResolveDuringScan(h5: Container, lid: nat, name: string)
    requires lid < |h5.levels|
    ensures LastAtMost(UpdateLevels(h5.levels, name, lid + 1), lid) == GeometryLevel(h5, lid, name)
  {
    var rest := UpdateLevelsExtend(h5.levels, name, lid + 1, |h5.levels|);
    LastAtMostAppend(UpdateLevels(h5.levels, name, lid + 1), rest, lid);
  }

  /** Patch 0 of basis `name` as `self.patch(level, name, 0)` returns it after the scan. */
  function PatchZero(h5: Container, level: int, name: string): Option<Patch>
  {
    match GeometryLevel(h5, level, name)
    case None => None
    case Some(u) => Decode(h5, Key(u, name, 0))
  }

  /** Patch 0 of the basis of group k of level l, resolved at level l. */
  function PatchZeroAt(h5: Container, l: nat, k: nat): Option<Patch>
    requires l < |h5.levels| && k < |h5.levels[l]|
  {
    PatchZero(h5, l, h5.levels[l][k].name)
  }

  /** The order in which basis names are first met: level by level, group by group. */
  function AllNames(levels: seq<seq<BasisGroup>>): seq<string>
  {
    if |levels| == 0 then [] else AllNames(levels[..|levels| - 1]) + Names(levels[|levels| - 1])
  }

  /** The entries of `s` at their first occurrence (the key order of a dict filled by setdefault). */
  function Dedup(s: seq<string>): seq<string>
  {
    if |s| == 0 then []
    else
      var d := Dedup(s[..|s| - 1]);
      if s[|s| - 1] in d then d else d + [s[|s| - 1]]
  }

  lemma {:induction false} DedupSound(s: seq<string>)
    ensures Distinct(Dedup(s))
    ensures forall x :: x in Dedup(s) <==> x in s
  {
    if |s| > 0 {
      DedupSound(s[..|s| - 1]);
      assert s == s[..|s| - 1] + [s[|s| - 1]];
    }
  }

  /** A basis met for the first time has no update levels yet. */
  lemma {:induction false} UpdateLevelsUnseen(levels: seq<seq<BasisGroup>>, name: string, n: nat)
    requires n <= |levels|
    requires name !in AllNames(levels[..n])
    ensures UpdateLevels(levels, name, n) == []
  {
    if n > 0 {
      assert levels[..n][..n - 1] == levels[..n - 1];
      assert AllNames(levels[..n]) == AllNames(levels[..n - 1]) + Names(levels[n - 1]);
      GroupSpec(levels[n - 1], name);
      UpdateLevelsUnseen(levels, name, n - 1);
    }
  }

  // ---------------------------------------------------------------------
  // The reader

  /** A node of the object catalogue with the two attributes write_geometry
      attaches to it; `lastWritten` is -1 until the patch is first written. */
  datatype Node = Node(obj: Patch, patchid: Option<nat>, lastWritten: int)

  /** The `Field` namedtuple: name, basis name, number of components. */
  datatype FieldRec = FieldRec(name: string, basis: string, ncomps: nat)

  /** A call made on the writer. A geometry update carries what write_geometry
      passes (the evaluated canonical patch, the element array, the parametric
      dimension, the patch id) and, for the record, the level, basis and patch
      index it was made for. */
  datatype WriterCall =
    | UpdateGeometry(level: int, basis: string, pid: nat, nodes: Patch,
                     elements: seq<seq<nat>>, dim: nat, patchid: Option<nat>)
    | AddTime(time: real)

  /** Every update level of a basis carries geometry, and the list is increasing. */
  predicate UpdatesSound(h5: Container, us: seq<int>, name: string)
  {
    StrictlyIncreasing(us) &&
    forall i :: 0 <= i < |us| ==> 0 <= us[i] < |h5.levels| && HasGeometry(h5.levels[us[i]], name)
  }

  /** A (level, group) position already visited when the scan stands at group g of level lid. */
  predicate Visited(l: int, k: int, lid: int, g: int)
  {
    l < lid || (l == lid && k < g)
  }


  // ---------------------------------------------------------------------
  // The first pass of check, as a function of the scan position

  /** The scan stands at group g of level lid (lid == |levels| once it is done). */
  predicate Position(levels: seq<seq<BasisGroup>>, lid: nat, g: nat)
  {
    && lid <= |levels|
    && (lid < |levels| ==> g <= |levels[lid]|)
    && (lid == |levels| ==> g == 0)
  }

  /** The group names met before the position, in order, repeats included. */
  function Seen(levels: seq<seq<BasisGroup>>, lid: nat, g: nat): seq<string>
    requires Position(levels, lid, g)
  {
    AllNames(levels[..lid]) + (if lid < |levels| then Names(levels[lid][..g]) else [])
  }

  /** The update levels of basis b recorded before the position. */
  function Pending(levels: seq<seq<BasisGroup>>, b: string, lid: nat, g: nat): seq<int>
    requires Position(levels, lid, g)
  {
    UpdateLevels(levels, b, lid) +
    (if lid < |levels| && b in Names(levels[lid][..g]) && HasGeometry(levels[lid], b) then [lid] else [])
  }

  /** `m` bounds the pardim of patch 0 of every visited group, every visited group
      has such a patch, and unless `m` is 0 the visited group `at` attains it. */
  predicate MaxPardimOver(h5: Container, m: nat, at: (nat, nat), lid: nat, g: nat)
  {
    && (forall l, k :: 0 <= l < |h5.levels| && 0 <= k < |h5.levels[l]| && Visited(l, k, lid, g) ==>
          PatchZeroAt(h5, l, k).Some? &&
          PatchZeroAt(h5, l, k).value.pardim <= m)
    && (m == 0 || Attains(h5, m, at, lid, g))
  }

  predicate Attains(h5: Container, m: nat, at: (nat, nat), lid: nat, g: nat)
  {
    && at.0 < |h5.levels| && at.1 < |h5.levels[at.0]| && Visited(at.0, at.1, lid, g)
    && PatchZeroAt(h5, at.0, at.1).Some?
    && PatchZeroAt(h5, at.0, at.1).value.pardim == m
  }

  lemma DedupSnoc(s: seq<string>, x: string)
    ensures Dedup(s + [x]) == if x in Dedup(s) then Dedup(s) else Dedup(s) + [x]
  {
    assert (s + [x])[..|s|] == s;
  }

  lemma SeenStep(levels: seq<seq<BasisGroup>>, lid: nat, g: nat)
    requires lid < |levels| && g < |levels[lid]|
    ensures Position(levels, lid, g) && Position(levels, lid, g + 1)
    ensures Seen(levels, lid, g + 1) == Seen(levels, lid, g) + [levels[lid][g].name]
  {
    assert Names(levels[lid][..g + 1]) == Names(levels[lid][..g]) + [levels[lid][g].name];
  }

  /** Visiting group g of level lid only adds to the update list of that group's basis,
      which then holds every update level up to and including lid. */
  lemma PendingStep(levels: seq<seq<BasisGroup>>, b: string, lid: nat, g: nat)
    requires lid < |levels| && g < |levels[lid]| && Distinct(Names(levels[lid]))
    ensures Position(levels, lid, g) && Position(levels, lid, g + 1)
    ensures b != levels[lid][g].name ==> Pending(levels, b, lid, g + 1) == Pending(levels, b, lid, g)
    ensures b == levels[lid][g].name ==> Pending(levels, b, lid, g) == UpdateLevels(levels, b, lid)
    ensures b == levels[lid][g].name ==> Pending(levels, b, lid, g + 1) == UpdateLevels(levels, b, lid + 1)
  {
    var lvl := levels[lid];
    assert Names(lvl[..g + 1]) == Names(lvl[..g]) + [lvl[g].name];
    if b == lvl[g].name {
      assert b !in Names(lvl[..g]) by {
        assert Names(lvl)[..g] == Names(lvl[..g]);
        assert Names(lvl)[g] == b;
      }
      assert UpdateLevels(levels, b, lid) + [] == UpdateLevels(levels, b, lid);
    }
  }

  /** Every recorded update list is the one the scan has built up to the position. */
  predicate UpdatesAt(levels: seq<seq<BasisGroup>>, us: map<string, seq<int>>, lid: nat, g: nat)
    requires Position(levels, lid, g)
  {
    forall b :: b in us ==> us[b] == Pending(levels, b, lid, g)
  }

  lemma UpdatesAtStep(levels: seq<seq<BasisGroup>>, us: map<string, seq<int>>, lid: nat, g: nat)
    requires lid < |levels| && g < |levels[lid]| && Distinct(Names(levels[lid]))
    requires Position(levels, lid, g) && UpdatesAt(levels, us, lid, g)
    ensures Position(levels, lid, g + 1)
    ensures UpdatesAt(levels, us[levels[lid][g].name := UpdateLevels(levels, levels[lid][g].name, lid + 1)], lid, g + 1)
  {
    var name := levels[lid][g].name;
    var us' := us[name := UpdateLevels(levels, name, lid + 1)];
    forall b | b in us' ensures us'[b] == Pending(levels, b, lid, g + 1) {
      PendingStep(levels, b, lid, g);
    }
  }

  /** The bases dict: each name once, each update list increasing and backed by geometry. */
  predicate BasesOk(h5: Container, names: seq<string>, us: map<string, seq<int>>)
  {
    && Distinct(names)
    && (forall b :: b in us ==> b in names)
    && (forall b :: b in names ==> b in us)
    && (forall b :: b in us ==> UpdatesSound(h5, us[b], b))
  }

  /** Registering the basis of group g of level lid with its update levels up to lid
      keeps the bases dict sound and moves it one group forward. */
  lemma RegisterStep(h5: Container, names: seq<string>, us: map<string, seq<int>>, lid: nat, g: nat)
    requires WellFormed(h5) && lid < |h5.levels| && g < |h5.levels[lid]|
    requires BasesOk(h5, names, us) && Position(h5.levels, lid, g)
    requires names == Dedup(Seen(h5.levels, lid, g)) && UpdatesAt(h5.levels, us, lid, g)
    ensures Position(h5.levels, lid, g + 1)
    ensures var name := h5.levels[lid][g].name;
            var names' := if name in us then names else names + [name];
            var us' := us[name := UpdateLevels(h5.levels, name, lid + 1)];
            BasesOk(h5, names', us') && names' == Dedup(Seen(h5.levels, lid, g + 1)) &&
            UpdatesAt(h5.levels, us', lid, g + 1)
  {
    var name := h5.levels[lid][g].name;
    RegisterNames(h5.levels, names, us, lid, g);
    UpdatesAtStep(h5.levels, us, lid, g);
    RegisterUpdatesSound(h5, name, lid);
  }

  /** The name list after visiting group g of level lid: its first-seen order,
      distinct, and the old names plus the group's. */
  lemma RegisterNames(levels: seq<seq<BasisGroup>>, names: seq<string>, us: map<string, seq<int>>, lid: nat, g: nat)
    requires lid < |levels| && g < |levels[lid]| && Position(levels, lid, g)
    requires names == Dedup(Seen(levels, lid, g))
    requires forall b :: b in us <==> b in names
    ensures Position(levels, lid, g + 1)
    ensures var name := levels[lid][g].name;
            var names' := if name in us then names else names + [name];
            && names' == Dedup(Seen(levels, lid, g + 1)) && Distinct(names')
            && forall b :: b in names' <==> b in names || b == name
  {
    var name := levels[lid][g].name;
    SeenStep(levels, lid, g);
    DedupSnoc(Seen(levels, lid, g), name);
    DedupSound(Seen(levels, lid, g + 1));
  }

  /** The update levels of a basis up to lid form a sound update list. */
  lemma RegisterUpdatesSound(h5: Container, name: string, lid: nat)
    requires lid < |h5.levels|
    ensures UpdatesSound(h5, UpdateLevels(h5.levels, name, lid + 1), name)
  {
    var u := UpdateLevels(h5.levels, name, lid + 1);
    UpdateLevelsSound(h5.levels, name, lid + 1);
    forall i | 0 <= i < |u| ensures 0 <= u[i] < |h5.levels| && HasGeometry(h5.levels[u[i]], name) {
      assert u[i] in u;
    }
  }

  /** The update list `setdefault` and the append leave for the basis of
      group g of level lid holds its update levels up to lid. */
  lemma RegisterUpdate(h5: Container, names: seq<string>, us: map<string, seq<int>>, lid: nat, g: nat)
    requires WellFormed(h5) && lid < |h5.levels| && g < |h5.levels[lid]|
    requires BasesOk(h5, names, us) && Position(h5.levels, lid, g)
    requires names == Dedup(Seen(h5.levels, lid, g)) && UpdatesAt(h5.levels, us, lid, g)
    ensures var grp := h5.levels[lid][g];
            (if grp.name in us then us[grp.name] else []) + (if grp.basis.Some? then [lid] else [])
              == UpdateLevels(h5.levels, grp.name, lid + 1)
  {
    var grp := h5.levels[lid][g];
    var name := grp.name;
    PendingStep(h5.levels, name, lid, g);
    if name !in us {
      assert name !in Seen(h5.levels, lid, g) by {
        DedupSound(Seen(h5.levels, lid, g));
      }
      UpdateLevelsUnseen(h5.levels, name, lid);
    }
    GroupAt(h5.levels[lid], g);
  }

  /** The keys of the bases dict once the first pass has visited every group
      before group g of level lid: `setdefault` adds a name the first time
      it is met, so the keys come in first-seen order. */
  function ScanNames(levels: seq<seq<BasisGroup>>, lid: nat, g: nat): seq<string>
    requires Position(levels, lid, g)
    decreases lid, g
  {
    if g > 0 then
      var ns := ScanNames(levels, lid, g - 1);
      var name := levels[lid][g - 1].name;
      if name in ns then ns else ns + [name]
    else if lid == 0 then []
    else ScanNames(levels, lid - 1, |levels[lid - 1]|)
  }

  /** The update lists of the bases dict at the same point: visiting a group
      appends its level to the list of its basis when it has a `basis` subgroup. */
  function ScanUpdates(levels: seq<seq<BasisGroup>>, lid: nat, g: nat): map<string, seq<int>>
    requires Position(levels, lid, g)
    decreases lid, g
  {
    if g > 0 then
      var us := ScanUpdates(levels, lid, g - 1);
      var grp := levels[lid][g - 1];
      us[grp.name := (if grp.name in us then us[grp.name] else []) + (if grp.basis.Some? then [lid] else [])]
    else if lid == 0 then map[]
    else ScanUpdates(levels, lid - 1, |levels[lid - 1]|)
  }

  /** At every point of the first pass the bases dict is sound, its keys are
      the group names met so far in first-seen order, and the update list of
      each basis holds exactly the levels met so far whose group for it has
      geometry. */
  lemma {:induction false} ScanSound(h5: Container, lid: nat, g: nat)
    requires WellFormed(h5) && Position(h5.levels, lid, g)
    ensures ScanState(h5, lid, g)
    decreases lid, g
  {
    var levels := h5.levels;
    if g > 0 {
      ScanSound(h5, lid, g - 1);
      ScanGroupSound(h5, lid, g - 1);
    } else if lid > 0 {
      ScanSound(h5, lid - 1, |levels[lid - 1]|);
      ScanLevelSound(h5, lid - 1);
    } else {
      assert levels[..0] == [];
      if 0 < |levels| {
        assert levels[0][..0] == [];
      }
    }
  }

  /** The facts ScanSound states about one point of the first pass. */
  ghost predicate ScanState(h5: Container, lid: nat, g: nat)
    requires Position(h5.levels, lid, g)
  {
    var names, us := ScanNames(h5.levels, lid, g), ScanUpdates(h5.levels, lid, g);
    && BasesOk(h5, names, us) && names == Dedup(Seen(h5.levels, lid, g))
    && UpdatesAt(h5.levels, us, lid, g)
  }

  lemma ScanGroupSound(h5: Container, lid: nat, g: nat)
    requires WellFormed(h5) && lid < |h5.levels| && g < |h5.levels[lid]|
    requires Position(h5.levels, lid, g) && ScanState(h5, lid, g)
    ensures Position(h5.levels, lid, g + 1) && ScanState(h5, lid, g + 1)
  {
    var names, us := ScanNames(h5.levels, lid, g), ScanUpdates(h5.levels, lid, g);
    RegisterUpdate(h5, names, us, lid, g);
    RegisterStep(h5, names, us, lid, g);
    assert (h5.levels[lid][g].name in names) == (h5.levels[lid][g].name in us);
  }

  lemma ScanLevelSound(h5: Container, lid: nat)
    requires WellFormed(h5) && lid < |h5.levels|
    requires Position(h5.levels, lid, |h5.levels[lid]|) && ScanState(h5, lid, |h5.levels[lid]|)
    ensures Position(h5.levels, lid + 1, 0) && ScanState(h5, lid + 1, 0)
  {
    NextLevel(h5, 0, (0, 0), lid);
  }

  /** Visiting a group whose patch 0 exists folds its pardim into the maximum. */
  lemma MaxPardimStep(h5: Container, m: nat, at: (nat, nat), lid: nat, g: nat, p: Patch)
    requires lid < |h5.levels| && g < |h5.levels[lid]|
    requires MaxPardimOver(h5, m, at, lid, g)
    requires PatchZeroAt(h5, lid, g) == Some(p)
    ensures MaxPardimOver(h5, if m < p.pardim then p.pardim else m, if m < p.pardim then (lid, g) else at, lid, g + 1)
  {
    var m' := if m < p.pardim then p.pardim else m;
    forall l, k | 0 <= l < |h5.levels| && 0 <= k < |h5.levels[l]| && Visited(l, k, lid, g + 1)
      ensures PatchZeroAt(h5, l, k).Some?
      ensures PatchZeroAt(h5, l, k).value.pardim <= m'
    {
      if !Visited(l, k, lid, g) {
        assert l == lid && k == g;
      }
    }
  }

  /** Finishing a level leaves the scan at the start of the next one. */
  lemma {:induction false} NextLevel(h5: Container, m: nat, at: (nat, nat), lid: nat)
    requires lid < |h5.levels|
    ensures Position(h5.levels, lid, |h5.levels[lid]|) && Position(h5.levels, lid + 1, 0)
    ensures Seen(h5.levels, lid + 1, 0) == Seen(h5.levels, lid, |h5.levels[lid]|)
    ensures forall b :: Pending(h5.levels, b, lid + 1, 0) == Pending(h5.levels, b, lid, |h5.levels[lid]|)
    ensures MaxPardimOver(h5, m, at, lid, |h5.levels[lid]|) ==> MaxPardimOver(h5, m, at, lid + 1, 0)
  {
    var levels := h5.levels;
    var lvl := levels[lid];
    assert lvl[..|lvl|] == lvl;
    assert levels[..lid + 1][..lid] == levels[..lid];
    assert AllNames(levels[..lid + 1]) == AllNames(levels[..lid]) + Names(lvl);
    if lid + 1 < |levels| {
      assert levels[lid + 1][..0] == [];
    }
    assert AllNames(levels[..lid + 1]) + [] == AllNames(levels[..lid + 1]);
    forall b ensures Pending(levels, b, lid + 1, 0) == Pending(levels, b, lid, |lvl|) {
      GroupSpec(lvl, b);
      if lid + 1 < |levels| {
        assert Names(levels[lid + 1][..0]) == [];
      }
      assert UpdateLevels(levels, b, lid + 1) + [] == UpdateLevels(levels, b, lid + 1);
    }
    if MaxPardimOver(h5, m, at, lid, |lvl|) {
      forall l, k | 0 <= l < |levels| && 0 <= k < |levels[l]|
        ensures Visited(l, k, lid + 1, 0) == Visited(l, k, lid, |lvl|)
      {
      }
    }
  }

  // ---------------------------------------------------------------------
  // The second pass of check: the fields of the groups of the last level

  function NumFields(grp: BasisGroup): nat
  {
    if grp.fields.Some? then |grp.fields.value| else 0
  }

  /** The names of the first `fc` fields of a group. */
  function Listed(grp: BasisGroup, fc: nat): set<string>
  {
    match grp.fields
    case None => {}
    case Some(fs) => set i | 0 <= i < |fs| && i < fc :: fs[i].name
  }

  /** The field names listed by the first `gi` groups. */
  function FieldsBefore(groups: seq<BasisGroup>, gi: nat): set<string>
    requires gi <= |groups|
  {
    if gi == 0 then {} else FieldsBefore(groups, gi - 1) + Listed(groups[gi - 1], NumFields(groups[gi - 1]))
  }

  /** Field fi of group gi is the first mention of its name. */
  predicate Introduces(groups: seq<BasisGroup>, gi: nat, fi: nat)
    requires gi < |groups| && fi < NumFields(groups[gi])
  {
    groups[gi].fields.value[fi].name !in FieldsBefore(groups, gi)
  }

  /** `len(fgrp['1']) // len(self.patch(0, basis, 0))`: the size of the field's
      dataset for patch 1 over the number of control points of patch 0 of the
      basis at level 0; None where that raises. */
  function NComps(h5: Container, grp: BasisGroup, f: FieldGroup): Option<nat>
  {
    if |f.sizes| == 0 then None
    else
      match PatchZero(h5, 0, grp.name)
      case None => None
      case Some(p) => if p.ncoeffs == 0 then None else Some(f.sizes[0] / p.ncoeffs)
  }

  /** The fields dict holds the record for field f of group grp. */
  predicate Recorded(h5: Container, grp: BasisGroup, f: FieldGroup, fields: map<string, FieldRec>)
  {
    NComps(h5, grp, f).Some? && f.name in fields &&
    fields[f.name] == FieldRec(f.name, grp.name, NComps(h5, grp, f).value)
  }

  /** The fields dict once the scan has visited the first `fc` fields of group gi:
      one entry per name met so far, made from the group that introduced it. */
  predicate FieldsAt(h5: Container, groups: seq<BasisGroup>, fields: map<string, FieldRec>, gi: nat, fc: nat)
    requires gi <= |groups|
  {
    && fields.Keys == FieldsBefore(groups, gi) + (if gi < |groups| then Listed(groups[gi], fc) else {})
    && forall j, fi {:trigger Introduces(groups, j, fi)} ::
         0 <= j < |groups| && 0 <= fi < NumFields(groups[j]) && (j < gi || (j == gi && fi < fc)) &&
         Introduces(groups, j, fi) ==>
           Recorded(h5, groups[j], groups[j].fields.value[fi], fields)
  }

  /** Every field introduced by a group of the last level has a component count. */
  predicate FieldsResolve(h5: Container)
    requires |h5.levels| > 0
  {
    var groups := h5.levels[|h5.levels| - 1];
    forall j, fi {:trigger Introduces(groups, j, fi)} ::
      0 <= j < |groups| && 0 <= fi < NumFields(groups[j]) && Introduces(groups, j, fi) ==>
        NComps(h5, groups[j], groups[j].fields.value[fi]).Some?
  }

  /** Finishing the fields of a group leaves the scan at the start of the next group. */
  lemma NextGroupFields(h5: Container, groups: seq<BasisGroup>, fields: map<string, FieldRec>, gi: nat)
    requires gi < |groups| && FieldsAt(h5, groups, fields, gi, NumFields(groups[gi]))
    ensures FieldsAt(h5, groups, fields, gi + 1, 0)
  {
    if gi + 1 < |groups| {
      assert Listed(groups[gi + 1], 0) == {};
    }
    forall j, fi | 0 <= j < |groups| && 0 <= fi < NumFields(groups[j]) && j < gi + 1 && Introduces(groups, j, fi)
      ensures Recorded(h5, groups[j], groups[j].fields.value[fi], fields)
    {
      assert j < gi || (j == gi && fi < NumFields(groups[gi]));
    }
  }

  /** The groups of the last time level (the `lgrp` that the first pass of check leaves behind). */
  function Last(h5: Container): seq<BasisGroup>
    requires |h5.levels| > 0
  {
    h5.levels[|h5.levels| - 1]
  }

  /** Recording a newly met field moves the fields dict one field forward. */
  lemma FieldsAtAdd(h5: Container, groups: seq<BasisGroup>, fields: map<string, FieldRec>, gi: nat, fi: nat)
    requires gi < |groups| && fi < NumFields(groups[gi])
    requires Distinct(FieldNames(groups[gi].fields.value))
    requires FieldsAt(h5, groups, fields, gi, fi)
    requires groups[gi].fields.value[fi].name !in fields
    requires NComps(h5, groups[gi], groups[gi].fields.value[fi]).Some?
    ensures Introduces(groups, gi, fi)
    ensures var f := groups[gi].fields.value[fi];
            FieldsAt(h5, groups, fields[f.name := FieldRec(f.name, groups[gi].name, NComps(h5, groups[gi], f).value)], gi, fi + 1)
  {
    var grp := groups[gi];
    var f := grp.fields.value[fi];
    var fields' := fields[f.name := FieldRec(f.name, grp.name, NComps(h5, grp, f).value)];
    ListedBefore(grp, fi);
    forall j, k | 0 <= j < |groups| && 0 <= k < NumFields(groups[j]) && (j < gi || (j == gi && k < fi + 1)) &&
                  Introduces(groups, j, k)
      ensures Recorded(h5, groups[j], groups[j].fields.value[k], fields')
    {
      if j == gi && k == fi {
      } else {
        assert Recorded(h5, groups[j], groups[j].fields.value[k], fields);
      }
    }
  }

  /** A field whose name is already recorded is not new, and the dict moves one field forward unchanged. */
  lemma FieldsAtSkip(h5: Container, groups: seq<BasisGroup>, fields: map<string, FieldRec>, gi: nat, fi: nat)
    requires gi < |groups| && fi < NumFields(groups[gi])
    requires Distinct(FieldNames(groups[gi].fields.value))
    requires FieldsAt(h5, groups, fields, gi, fi)
    requires groups[gi].fields.value[fi].name in fields
    ensures !Introduces(groups, gi, fi)
    ensures FieldsAt(h5, groups, fields, gi, fi + 1)
  {
    var grp := groups[gi];
    ListedBefore(grp, fi);
    forall j, k | 0 <= j < |groups| && 0 <= k < NumFields(groups[j]) && (j < gi || (j == gi && k < fi + 1)) &&
                  Introduces(groups, j, k)
      ensures Recorded(h5, groups[j], groups[j].fields.value[k], fields)
    {
      assert j < gi || (j == gi && k < fi);
    }
  }

  /** Every field of a group is among its listed names. */
  lemma ListedAll(grp: BasisGroup, fi: nat)
    requires fi < NumFields(grp)
    ensures grp.fields.value[fi].name in Listed(grp, NumFields(grp))
  {
  }

  /** In a group with distinct field names, field fi is not among the fields before it. */
  lemma ListedBefore(grp: BasisGroup, fi: nat)
    requires grp.fields.Some? && fi < |grp.fields.value| && Distinct(FieldNames(grp.fields.value))
    ensures grp.fields.value[fi].name !in Listed(grp, fi)
    ensures Listed(grp, fi + 1) == Listed(grp, fi) + {grp.fields.value[fi].name}
  {
    var fs := grp.fields.value;
    forall i | 0 <= i < fi ensures fs[i].name != fs[fi].name {
      assert FieldNames(fs)[i] != FieldNames(fs)[fi];
    }
  }

  // ---------------------------------------------------------------------
  // write_geometry: the object catalogue and the skip rule

  /** Every node of the catalogue holds an object of its own geometric identity,
      and none has been given a patch id (write_geometry never assigns one). */
  predicate CatalogueSound(cat: map<nat, Node>)
  {
    forall c :: c in cat ==> cat[c].obj.canon == c && cat[c].patchid.None?
  }

  /** The construction of the element array from the node grid's shape; the
      reader uses Tesselation.Connectivity. The loop lemmas below hold for any
      such construction. */
  type ElementFn = seq<nat> -> Result<seq<seq<nat>>, Tesselation.TesselationError>

  /** What the loop of write_geometry has done so far: the catalogue, the
      writer calls, and whether the element construction has raised. */
  datatype Emission = Emission(catalogue: map<nat, Node>, calls: seq<WriterCall>, failed: bool)

  /** One iteration of the loop of write_geometry for patch `pid` of basis
      `name` at level `lid`: add the patch to the catalogue, skip it when its
      node was written at this level or later, otherwise mark it written and
      pass the node's own object with its elements to the writer. */
  function EmitOne(e: Emission, conn: ElementFn, lid: int, name: string, pid: nat, p: Patch): Emission
  {
    if e.failed then e
    else
      var cat := if p.canon in e.catalogue then e.catalogue else e.catalogue[p.canon := Node(p, None, -1)];
      var node := cat[p.canon];
      if node.lastWritten >= lid then e.(catalogue := cat)
      else
        var written := cat[p.canon := node.(lastWritten := lid)];
        match conn(node.obj.grid)
        case Err(_) => Emission(written, e.calls, true)
        case Ok(es) =>
          Emission(written, e.calls + [UpdateGeometry(lid, name, pid, node.obj, es, |node.obj.grid|, node.patchid)], false)
  }

  /** The first n iterations of the loop of write_geometry over the patches `ps`. */
  function EmitPatches(e: Emission, conn: ElementFn, lid: int, name: string, ps: seq<Patch>, n: nat): Emission
    requires n <= |ps|
  {
    if n == 0 then e else EmitOne(EmitPatches(e, conn, lid, name, ps, n - 1), conn, lid, name, n - 1, ps[n - 1])
  }

  lemma EmitPatchesNext(e: Emission, conn: ElementFn, lid: int, name: string, ps: seq<Patch>, n: nat)
    requires n < |ps|
    ensures EmitPatches(e, conn, lid, name, ps, n + 1) == EmitOne(EmitPatches(e, conn, lid, name, ps, n), conn, lid, name, n, ps[n])
  {
  }

  /** The three outcomes of one step of `write_geometry`, for a catalogue
      `cat` that already holds the patch: skipped, element construction
      failed, or written. */
  lemma EmitOneSkip(e: Emission, conn: ElementFn, lid: int, name: string, pid: nat, p: Patch, cat: map<nat, Node>)
    requires !e.failed
    requires cat == if p.canon in e.catalogue then e.catalogue else e.catalogue[p.canon := Node(p, None, -1)]
    requires cat[p.canon].lastWritten >= lid
    ensures EmitOne(e, conn, lid, name, pid, p) == Emission(cat, e.calls, false)
  {
  }

  lemma EmitOneFail(e: Emission, conn: ElementFn, lid: int, name: string, pid: nat, p: Patch, cat: map<nat, Node>)
    requires !e.failed
    requires cat == if p.canon in e.catalogue then e.catalogue else e.catalogue[p.canon := Node(p, None, -1)]
    requires cat[p.canon].lastWritten < lid && conn(cat[p.canon].obj.grid).Err?
    ensures EmitOne(e, conn, lid, name, pid, p).failed
  {
  }

  lemma EmitOneWrite(e: Emission, conn: ElementFn, lid: int, name: string, pid: nat, p: Patch, cat: map<nat, Node>, es: seq<seq<nat>>)
    requires !e.failed
    requires cat == if p.canon in e.catalogue then e.catalogue else e.catalogue[p.canon := Node(p, None, -1)]
    requires cat[p.canon].lastWritten < lid && conn(cat[p.canon].obj.grid) == Ok(es)
    ensures var node := cat[p.canon].(lastWritten := lid);
            EmitOne(e, conn, lid, name, pid, p) ==
              Emission(cat[p.canon := node], e.calls + [UpdateGeometry(lid, name, pid, node.obj, es, |node.obj.grid|, node.patchid)], false)
  {
  }

  /** The geometric identities of the first n patches. */
  function CanonSet(ps: seq<Patch>, n: nat): set<nat>
    requires n <= |ps|
  {
    set k | 0 <= k < n :: ps[k].canon
  }

  /** A geometry update made by write_geometry for basis `name` at level `lid`
      for the patch p: the object of p's node, which has p's identity, its
      element array, its dimension and no patch id. */
  predicate WrittenFor(c: WriterCall, conn: ElementFn, lid: int, name: string, p: Patch)
  {
    && c.UpdateGeometry? && c.level == lid && c.basis == name
    && c.nodes.canon == p.canon && c.patchid.None? && c.dim == |c.nodes.grid|
    && conn(c.nodes.grid) == Ok(c.elements)
  }

  /** A geometry update made for one of the first n patches. */
  predicate Written(c: WriterCall, conn: ElementFn, lid: int, name: string, ps: seq<Patch>, n: nat)
    requires n <= |ps|
  {
    c.UpdateGeometry? && c.pid < n && WrittenFor(c, conn, lid, name, ps[c.pid])
  }

  /** From e to r the catalogue stays sound and only grows: every node stays,
      keeps its object, and its `last_written` never decreases. */
  predicate Grows(e: Emission, r: Emission)
  {
    && CatalogueSound(r.catalogue)
    && (forall c :: c in e.catalogue ==>
          && c in r.catalogue && r.catalogue[c].obj == e.catalogue[c].obj
          && r.catalogue[c].lastWritten >= e.catalogue[c].lastWritten)
  }

  lemma GrowsTrans(a: Emission, b: Emission, c: Emission)
    requires Grows(a, b) && Grows(b, c)
    ensures Grows(a, c)
  {
  }

  lemma OneGrows(e: Emission, conn: ElementFn, lid: int, name: string, pid: nat, p: Patch)
    requires CatalogueSound(e.catalogue)
    ensures Grows(e, EmitOne(e, conn, lid, name, pid, p))
  {
  }

  /** The catalogue only grows over the loop. */
  lemma {:induction false} EmitGrows(e: Emission, conn: ElementFn, lid: int, name: string, ps: seq<Patch>, n: nat)
    requires n <= |ps| && CatalogueSound(e.catalogue)
    ensures Grows(e, EmitPatches(e, conn, lid, name, ps, n))
  {
    if n > 0 {
      EmitGrows(e, conn, lid, name, ps, n - 1);
      var r' := EmitPatches(e, conn, lid, name, ps, n - 1);
      OneGrows(r', conn, lid, name, n - 1, ps[n - 1]);
      GrowsTrans(e, r', EmitOne(r', conn, lid, name, n - 1, ps[n - 1]));
    }
  }

  /** How one iteration changes the catalogue beyond growing: it gains at most
      the patch's identity, other nodes are untouched, after a completed
      iteration the patch's node is written at `lid` or later, and a skipped
      iteration leaves it as it was. */
  predicate CatalogueStep(e: Emission, r: Emission, lid: int, p: Patch)
  {
    && r.catalogue.Keys <= e.catalogue.Keys + {p.canon}
    && (forall c :: c in r.catalogue && c != p.canon ==> r.catalogue[c] == e.catalogue[c])
    && (!r.failed ==> !e.failed && p.canon in r.catalogue && r.catalogue[p.canon].lastWritten >= lid)
    && ((e.failed || (p.canon in e.catalogue && e.catalogue[p.canon].lastWritten >= lid)) ==> r.catalogue == e.catalogue)
  }

  lemma OneCatalogue(e: Emission, conn: ElementFn, lid: int, name: string, pid: nat, p: Patch)
    requires CatalogueSound(e.catalogue)
    ensures CatalogueStep(e, EmitOne(e, conn, lid, name, pid, p), lid, p)
  {
  }

  /** How one iteration changes the calls: either not at all, or by exactly one
      call for patch p, whose node was not written at `lid` before the
      iteration and is afterwards. */
  predicate CallStep(e: Emission, r: Emission, conn: ElementFn, lid: int, name: string, pid: nat, p: Patch)
  {
    || r.calls == e.calls
    || (&& !e.failed && |r.calls| == |e.calls| + 1 && r.calls == e.calls + [r.calls[|e.calls|]]
        && var c := r.calls[|e.calls|];
        && WrittenFor(c, conn, lid, name, p) && c.pid == pid
        && (p.canon !in e.catalogue || e.catalogue[p.canon].lastWritten < lid)
        && p.canon in r.catalogue && r.catalogue[p.canon].lastWritten == lid)
  }

  lemma OneCall(e: Emission, conn: ElementFn, lid: int, name: string, pid: nat, p: Patch)
    requires CatalogueSound(e.catalogue)
    ensures CallStep(e, EmitOne(e, conn, lid, name, pid, p), conn, lid, name, pid, p)
  {
  }

  /** Once the element construction has raised, nothing further happens. */
  lemma {:induction false} EmitStaysFailed(e: Emission, conn: ElementFn, lid: int, name: string, ps: seq<Patch>, k: nat, n: nat)
    requires k <= n <= |ps| && EmitPatches(e, conn, lid, name, ps, k).failed
    ensures EmitPatches(e, conn, lid, name, ps, n) == EmitPatches(e, conn, lid, name, ps, k)
  {
    if k < n {
      EmitStaysFailed(e, conn, lid, name, ps, k, n - 1);
    }
  }

  /** What the loop does to the catalogue in its first n iterations beyond
      growing it. */
  predicate CatalogueAfter(e: Emission, r: Emission, lid: int, ps: seq<Patch>, n: nat)
    requires n <= |ps|
  {
    && r.catalogue.Keys <= e.catalogue.Keys + CanonSet(ps, n)
    && (forall c :: c in r.catalogue && c !in CanonSet(ps, n) ==> r.catalogue[c] == e.catalogue[c])
    && (!r.failed ==> forall k :: 0 <= k < n ==> ps[k].canon in r.catalogue && r.catalogue[ps[k].canon].lastWritten >= lid)
  }

  /** The catalogue grows only by the identities of the patches visited, other
      nodes are untouched, and when the loop completes every visited patch's
      node is written at `lid` or later. */
  lemma {:induction false} EmitCatalogue(e: Emission, conn: ElementFn, lid: int, name: string, ps: seq<Patch>, n: nat)
    requires n <= |ps| && CatalogueSound(e.catalogue)
    ensures CatalogueAfter(e, EmitPatches(e, conn, lid, name, ps, n), lid, ps, n)
  {
    if n > 0 {
      EmitCatalogue(e, conn, lid, name, ps, n - 1);
      EmitGrows(e, conn, lid, name, ps, n - 1);
      CatalogueGlue(e, EmitPatches(e, conn, lid, name, ps, n - 1), conn, lid, name, ps, n);
    }
  }

  lemma CatalogueGlue(e: Emission, r': Emission, conn: ElementFn, lid: int, name: string, ps: seq<Patch>, n: nat)
    requires 0 < n <= |ps| && CatalogueSound(r'.catalogue)
    requires CatalogueAfter(e, r', lid, ps, n - 1)
    ensures CatalogueAfter(e, EmitOne(r', conn, lid, name, n - 1, ps[n - 1]), lid, ps, n)
  {
    OneCatalogue(r', conn, lid, name, n - 1, ps[n - 1]);
    var r := EmitOne(r', conn, lid, name, n - 1, ps[n - 1]);
    assert CanonSet(ps, n) == CanonSet(ps, n - 1) + {ps[n - 1].canon};
    if !r.failed {
      forall k | 0 <= k < n
        ensures ps[k].canon in r.catalogue && r.catalogue[ps[k].canon].lastWritten >= lid
      {
        if k < n - 1 {
          assert ps[k].canon in r'.catalogue;
        }
      }
    }
  }

  /** The loop only appends to the writer calls. */
  lemma {:induction false} EmitPrefix(e: Emission, conn: ElementFn, lid: int, name: string, ps: seq<Patch>, n: nat)
    requires n <= |ps| && CatalogueSound(e.catalogue)
    ensures var r := EmitPatches(e, conn, lid, name, ps, n);
            e.calls <= r.calls
  {
    if n > 0 {
      EmitPrefix(e, conn, lid, name, ps, n - 1);
      EmitGrows(e, conn, lid, name, ps, n - 1);
      PrefixStep(e.calls, EmitPatches(e, conn, lid, name, ps, n - 1), conn, lid, name, n - 1, ps[n - 1]);
    }
  }

  lemma PrefixStep(e: seq<WriterCall>, r': Emission, conn: ElementFn, lid: int, name: string, pid: nat, p: Patch)
    requires e <= r'.calls && CatalogueSound(r'.catalogue)
    ensures e <= EmitOne(r', conn, lid, name, pid, p).calls
  {
    OneCall(r', conn, lid, name, pid, p);
  }

  /** Two geometry updates for increasing patch indices. */
  predicate Ordered(a: WriterCall, b: WriterCall)
  {
    a.UpdateGeometry? && b.UpdateGeometry? && a.pid < b.pid
  }

  /** Every call the loop appends is a geometry update for this basis and
      level, and the calls come in increasing patch order. */
  lemma {:induction false} EmitCalls(e: Emission, conn: ElementFn, lid: int, name: string, ps: seq<Patch>, n: nat)
    requires n <= |ps| && CatalogueSound(e.catalogue)
    ensures CallsAfter(|e.calls|, EmitPatches(e, conn, lid, name, ps, n), conn, lid, name, ps, n)
  {
    if n > 0 {
      EmitCalls(e, conn, lid, name, ps, n - 1);
      EmitGrows(e, conn, lid, name, ps, n - 1);
      CallsStep(|e.calls|, EmitPatches(e, conn, lid, name, ps, n - 1), conn, lid, name, ps, n);
    }
  }

  /** The calls from position m on are geometry updates for the first n
      patches, in increasing patch order. */
  predicate CallsAfter(m: nat, r: Emission, conn: ElementFn, lid: int, name: string, ps: seq<Patch>, n: nat)
    requires n <= |ps|
  {
    && m <= |r.calls|
    && (forall i :: m <= i < |r.calls| ==> Written(r.calls[i], conn, lid, name, ps, n))
    && (forall i, j :: m <= i < j < |r.calls| ==> Ordered(r.calls[i], r.calls[j]))
  }

  lemma CallsStep(m: nat, r': Emission, conn: ElementFn, lid: int, name: string, ps: seq<Patch>, n: nat)
    requires 0 < n <= |ps| && CatalogueSound(r'.catalogue)
    requires CallsAfter(m, r', conn, lid, name, ps, n - 1)
    ensures CallsAfter(m, EmitOne(r', conn, lid, name, n - 1, ps[n - 1]), conn, lid, name, ps, n)
  {
    OneCall(r', conn, lid, name, n - 1, ps[n - 1]);
    var r := EmitOne(r', conn, lid, name, n - 1, ps[n - 1]);
    if r.calls != r'.calls {
      var c := r.calls[|r'.calls|];
      assert r.calls == r'.calls + [c];
      forall i | m <= i < |r.calls|
        ensures Written(r.calls[i], conn, lid, name, ps, n)
      {
        if i < |r'.calls| {
          assert r.calls[i] == r'.calls[i];
          assert Written(r'.calls[i], conn, lid, name, ps, n - 1);
        }
      }
      forall i, j | m <= i < j < |r.calls|
        ensures Ordered(r.calls[i], r.calls[j])
      {
        assert r.calls[i] == r'.calls[i];
        assert Written(r'.calls[i], conn, lid, name, ps, n - 1);
      }
    } else {
      forall i | m <= i < |r.calls|
        ensures Written(r.calls[i], conn, lid, name, ps, n)
      {
        assert Written(r'.calls[i], conn, lid, name, ps, n - 1);
      }
    }
  }

  /** A call the loop made since the state e: for a node written at `lid`
      in r that was not written at `lid` in e. */
  predicate FreshWrite(c: WriterCall, e: Emission, r: Emission, lid: int)
  {
    && c.UpdateGeometry?
    && c.nodes.canon in r.catalogue && r.catalogue[c.nodes.canon].lastWritten == lid
    && (c.nodes.canon !in e.catalogue || e.catalogue[c.nodes.canon].lastWritten < lid)
  }

  /** Every call since the state e is a fresh write. */
  predicate FreshAfter(e: Emission, r: Emission, lid: int)
  {
    forall i :: |e.calls| <= i < |r.calls| ==> FreshWrite(r.calls[i], e, r, lid)
  }

  /** No node is written twice at one level: each call made by the loop is for
      a node that was not yet written at `lid` when the loop began and is
      marked written at `lid` afterwards. */
  lemma {:induction false} EmitOnce(e: Emission, conn: ElementFn, lid: int, name: string, ps: seq<Patch>, n: nat)
    requires n <= |ps| && CatalogueSound(e.catalogue)
    ensures FreshAfter(e, EmitPatches(e, conn, lid, name, ps, n), lid)
  {
    if n > 0 {
      EmitOnce(e, conn, lid, name, ps, n - 1);
      EmitGrows(e, conn, lid, name, ps, n - 1);
      OnceGlue(e, EmitPatches(e, conn, lid, name, ps, n - 1), conn, lid, name, ps, n);
    }
  }

  lemma OnceGlue(e: Emission, r': Emission, conn: ElementFn, lid: int, name: string, ps: seq<Patch>, n: nat)
    requires 0 < n <= |ps|
    requires Grows(e, r')
    requires FreshAfter(e, r', lid)
    ensures FreshAfter(e, EmitOne(r', conn, lid, name, n - 1, ps[n - 1]), lid)
  {
    OneCall(r', conn, lid, name, n - 1, ps[n - 1]);
    OneCatalogue(r', conn, lid, name, n - 1, ps[n - 1]);
    OneGrows(r', conn, lid, name, n - 1, ps[n - 1]);
    var r := EmitOne(r', conn, lid, name, n - 1, ps[n - 1]);
    forall i | |e.calls| <= i < |r.calls|
      ensures FreshWrite(r.calls[i], e, r, lid)
    {
      if i < |r'.calls| {
        assert r.calls[i] == r'.calls[i];
        var c := r'.calls[i].nodes.canon;
        assert FreshWrite(r'.calls[i], e, r', lid);
        if c == ps[n - 1].canon {
          assert r.catalogue == r'.catalogue;
        }
      } else {
        var c := ps[n - 1].canon;
        if c in e.catalogue {
          assert r'.catalogue[c].lastWritten >= e.catalogue[c].lastWritten;
        }
      }
    }
  }

  /** Two geometry updates for different nodes. */
  predicate Apart(a: WriterCall, b: WriterCall)
  {
    a.UpdateGeometry? && b.UpdateGeometry? && a.nodes.canon != b.nodes.canon
  }

  /** No two calls from position m on pass the same node. */
  predicate DistinctAfter(m: nat, r: Emission)
  {
    forall i, j :: m <= i < j < |r.calls| ==> Apart(r.calls[i], r.calls[j])
  }

  /** No two calls of the loop pass the same node. */
  lemma {:induction false} EmitDistinctNodes(e: Emission, conn: ElementFn, lid: int, name: string, ps: seq<Patch>, n: nat)
    requires n <= |ps| && CatalogueSound(e.catalogue)
    ensures DistinctAfter(|e.calls|, EmitPatches(e, conn, lid, name, ps, n))
  {
    if n > 0 {
      EmitDistinctNodes(e, conn, lid, name, ps, n - 1);
      EmitOnce(e, conn, lid, name, ps, n - 1);
      EmitGrows(e, conn, lid, name, ps, n - 1);
      DistinctGlue(e, EmitPatches(e, conn, lid, name, ps, n - 1), conn, lid, name, ps, n);
    }
  }

  lemma DistinctGlue(e: Emission, r': Emission, conn: ElementFn, lid: int, name: string, ps: seq<Patch>, n: nat)
    requires 0 < n <= |ps| && CatalogueSound(r'.catalogue)
    requires FreshAfter(e, r', lid)
    requires DistinctAfter(|e.calls|, r')
    ensures DistinctAfter(|e.calls|, EmitOne(r', conn, lid, name, n - 1, ps[n - 1]))
  {
    OneCall(r', conn, lid, name, n - 1, ps[n - 1]);
    var r := EmitOne(r', conn, lid, name, n - 1, ps[n - 1]);
    forall i, j | |e.calls| <= i < j < |r.calls|
      ensures Apart(r.calls[i], r.calls[j])
    {
      assert r.calls[i] == r'.calls[i];
      assert FreshWrite(r'.calls[i], e, r', lid);
      if j < |r'.calls| {
        assert r.calls[j] == r'.calls[j];
      }
    }
  }

  // ---------------------------------------------------------------------
  // write: the trace of writer calls

  /** The values passed to `add_time`, in order. */
  function Times(cs: seq<WriterCall>): seq<real>
  {
    if |cs| == 0 then []
    else Times(cs[..|cs| - 1]) + (if cs[|cs| - 1].AddTime? then [cs[|cs| - 1].time] else [])
  }

  /** The times 0.0, 1.0, ..., n - 1 that `times` yields for n levels. */
  function Levels(n: nat): seq<real>
  {
    seq(n, i => i as real)
  }

  lemma {:induction false} TimesAppend(a: seq<WriterCall>, b: seq<WriterCall>)
    ensures Times(a + b) == Times(a) + Times(b)
  {
    if |b| > 0 {
      var b' := b[..|b| - 1];
      TimesAppend(a, b');
      assert (a + b)[..|a + b| - 1] == a + b';
      assert b[..|b| - 1] == b';
    } else {
      assert a + b == a;
    }
  }

  /** Calls other than `add_time` between positions k and i add no time. */
  lemma {:induction false} TimesSkip(cs: seq<WriterCall>, k: nat, i: nat)
    requires k <= i <= |cs|
    requires forall j :: k <= j < i ==> !cs[j].AddTime?
    ensures Times(cs[..i]) == Times(cs[..k])
  {
    if k < i {
      TimesSkip(cs, k, i - 1);
      assert cs[..i][..i - 1] == cs[..i - 1];
    }
  }

  class Reader {
    const h5: Container
    const tesselate: ElementFn              // the element array of a grid; see the constructor
    var basisNames: seq<string>             // the keys of self.bases, in insertion order
    var updates: map<string, seq<int>>      // basis name -> Basis.updates
    var maxPardim: nat
    ghost var maxAt: (nat, nat)             // a group whose patch 0 has pardim maxPardim
    var fields: map<string, FieldRec>
    var patchCache: map<Key, Patch>
    var decodeLog: seq<Key>                 // every key decoded so far, in order
    var catalogue: map<nat, Node>           // ObjectCatalogue: geometric identity -> node
    var calls: seq<WriterCall>              // calls made on the writer

    ghost predicate Valid()
      reads this`patchCache, this`decodeLog, this`basisNames, this`updates
    {
      WellFormed(h5) && CacheValid() && BasesValid()
    }

    /** Every cached patch is the decoded block of its key, and every key was decoded exactly once. */
    ghost predicate CacheValid()
      reads this`patchCache, this`decodeLog
    {
      && (forall k :: k in patchCache ==> Decode(h5, k) == Some(patchCache[k]))
      && Distinct(decodeLog)
      && (forall k :: k in decodeLog <==> k in patchCache)
    }

    ghost predicate BasesValid()
      reads this`basisNames, this`updates
    {
      BasesOk(h5, basisNames, updates)
    }

    /** `__init__` together with opening the file: nothing scanned, cached or written yet. */
    constructor (h5: Container)
      requires WellFormed(h5)
      ensures Valid() && this.h5 == h5 && tesselate == Tesselation.Connectivity
      ensures basisNames == [] && updates == map[] && maxPardim == 0 && fields == map[]
      ensures patchCache == map[] && decodeLog == [] && catalogue == map[] && calls == []
    {
      this.h5 := h5;
      tesselate := Tesselation.Connectivity;
      basisNames, updates, maxPardim, fields := [], map[], 0, map[];
      maxAt := (0, 0);
      patchCache, decodeLog, catalogue, calls := map[], [], map[], [];
    }

    /** `basis_level`: the latest update level of the basis that is not after `level`. */
    function BasisLevel(level: int, name: string): Result<int, Error>
      reads this`updates
    {
      if name !in updates then Err(UnknownBasis(name))
      else
        match LastAtMost(updates[name], level)
        case None => Err(Unavailable(name, level))
        case Some(u) => Ok(u)
    }

    /** `basis_level` fails with a KeyError on an unknown basis and otherwise
        succeeds exactly when some update is not after `level`; it returns such an
        update, and on an increasing update list the greatest one. */
    lemma BasisLevelSpec(level: int, name: string)
      ensures name !in updates ==> BasisLevel(level, name) == Err(UnknownBasis(name))
      ensures name in updates ==>
                (BasisLevel(level, name).Ok? <==> exists i :: 0 <= i < |updates[name]| && updates[name][i] <= level)
      ensures BasisLevel(level, name).Ok? ==>
                name in updates && BasisLevel(level, name).value in updates[name] && BasisLevel(level, name).value <= level
      ensures BasisLevel(level, name).Ok? && StrictlyIncreasing(updates[name]) ==>
                forall l :: l in updates[name] && l <= level ==> l <= BasisLevel(level, name).value
    {
      if name in updates {
        LastAtMostSpec(updates[name], level);
        if BasisLevel(level, name).Ok? && StrictlyIncreasing(updates[name]) {
          LastAtMostGreatest(updates[name], level);
        }
      }
    }

    /** The patches stored for the basis at the level `level` resolves to. */
    function LevelPatches(level: int, name: string): Result<seq<Patch>, Error>
      reads this`updates
    {
      match BasisLevel(level, name)
      case Err(e) => Err(e)
      case Ok(u) => if Blocks(h5, u, name).Some? then Ok(Blocks(h5, u, name).value) else Err(MissingEntry)
    }

    /** `npatches`: the number of patches of the basis at the resolved level. On a
        valid reader it fails exactly when the level does not resolve. */
    function NPatches(level: int, name: string): (r: Result<nat, Error>)
      reads this`basisNames, this`updates
      ensures BasesValid() ==> (r.Ok? <==> BasisLevel(level, name).Ok?)
      ensures r.Ok? ==> BasisLevel(level, name).Ok? && Blocks(h5, BasisLevel(level, name).value, name).Some? &&
                        r.value == |Blocks(h5, BasisLevel(level, name).value, name).value|
    {
      BasisLevelSpec(level, name);
      match LevelPatches(level, name)
      case Err(e) => Err(e)
      case Ok(ps) => Ok(|ps|)
    }

    /** `patch`: the decoded patch at the resolved key, decoded at most once per key. */
    method GetPatch(lid: int, name: string, index: nat) returns (r: Result<Patch, Error>)
      requires CacheValid()
      modifies this`patchCache, this`decodeLog
      ensures CacheValid()
      ensures r.Ok? <==> BasisLevel(lid, name).Ok? && Decode(h5, Key(BasisLevel(lid, name).value, name, index)).Some?
      ensures r.Ok? ==> var key := Key(BasisLevel(lid, name).value, name, index);
                        && r.value == Decode(h5, key).value
                        && patchCache == old(patchCache)[key := r.value]
                        && decodeLog == if key in old(patchCache) then old(decodeLog) else old(decodeLog) + [key]
      ensures r.Err? ==> r.error == (if BasisLevel(lid, name).Err? then BasisLevel(lid, name).error else MissingEntry)
      ensures r.Err? ==> patchCache == old(patchCache) && decodeLog == old(decodeLog)
    {
      var u := BasisLevel(lid, name);
      if u.Err? {
        return Err(u.error);
      }
      var key := Key(u.value, name, index);
      if key !in patchCache {
        var p := Decode(h5, key);
        if p.None? {
          return Err(MissingEntry);
        }
        assert key !in decodeLog;
        patchCache := patchCache[key := p.value];
        decodeLog := decodeLog + [key];
        assert forall k :: k in decodeLog <==> k in patchCache;
      } else {
        assert patchCache == patchCache[key := patchCache[key]];
      }
      r := Ok(patchCache[key]);
    }

    /** Two queries whose levels resolve to the same update level share one decoded
        patch, and the second query decodes nothing. */
    method CachedPatchShared(l1: int, l2: int, name: string, index: nat) returns (p1: Result<Patch, Error>, p2: Result<Patch, Error>)
      requires CacheValid()
      requires BasisLevel(l1, name).Ok? && BasisLevel(l1, name) == BasisLevel(l2, name)
      modifies this`patchCache, this`decodeLog
      ensures CacheValid()
      ensures p1 == p2
      ensures p1.Ok? ==> |decodeLog| <= |old(decodeLog)| + 1
    {
      ghost var key := Key(BasisLevel(l1, name).value, name, index);
      p1 := GetPatch(l1, name, index);
      ghost var log1 := decodeLog;
      assert p1.Ok? ==> key in patchCache;
      p2 := GetPatch(l2, name, index);
      assert p1.Ok? ==> decodeLog == log1;
    }


    // -------------------------------------------------------------------
    // check, first pass: bases, update levels and max_pardim

    /** The bases dict and max_pardim once the scan has visited every group
        before group g of level lid: the names in first-seen order, the update
        levels recorded so far, and the largest pardim seen. */
    ghost predicate ScannedTo(lid: nat, g: nat)
      reads this`basisNames, this`updates, this`maxPardim, this`maxAt
    {
      BasesScanned(lid, g) && MaxPardimOver(h5, maxPardim, maxAt, lid, g)
    }

    ghost predicate BasesScanned(lid: nat, g: nat)
      reads this`basisNames, this`updates
    {
      && Position(h5.levels, lid, g)
      && basisNames == ScanNames(h5.levels, lid, g)
      && updates == ScanUpdates(h5.levels, lid, g)
    }

    /** The bases dict the first pass has built so far is sound. */
    lemma BasesScannedSound(lid: nat, g: nat)
      requires WellFormed(h5) && BasesScanned(lid, g)
      ensures BasesValid() && basisNames == Dedup(Seen(h5.levels, lid, g))
      ensures UpdatesAt(h5.levels, updates, lid, g)
    {
      ScanSound(h5, lid, g);
    }

    /** `self.bases.setdefault(basis, ...)` and, when the group has geometry,
        the append of the level to the basis's update list. */
    method RegisterBasis(lid: nat, g: nat)
      requires WellFormed(h5) && lid < |h5.levels| && g < |h5.levels[lid]| && BasesScanned(lid, g)
      modifies this`basisNames, this`updates
      ensures BasesScanned(lid, g + 1)
      ensures h5.levels[lid][g].name in updates
      ensures updates[h5.levels[lid][g].name] == UpdateLevels(h5.levels, h5.levels[lid][g].name, lid + 1)
    {
      var grp := h5.levels[lid][g];
      var name := grp.name;
      BasesScannedSound(lid, g);
      RegisterUpdate(h5, basisNames, updates, lid, g);
      var u := [];
      if name in updates {
        u := updates[name];
      } else {
        basisNames := basisNames + [name];
      }
      if grp.basis.Some? {
        u := u + [lid];
      }
      updates := updates[name := u];
    }

    /** While the scan stands at level lid, a basis whose update list is complete up
        to lid resolves level lid as the finished scan will. */
    lemma ResolvesDuringScan(lid: nat, name: string)
      requires lid < |h5.levels| && name in updates
      requires updates[name] == UpdateLevels(h5.levels, name, lid + 1)
      ensures BasisLevel(lid, name).Ok? <==> GeometryLevel(h5, lid, name).Some?
      ensures BasisLevel(lid, name).Ok? ==> BasisLevel(lid, name).value == GeometryLevel(h5, lid, name).value
    {
      ResolveDuringScan(h5, lid, name);
    }

    /** `self.patch(lid, basis, 0)` during the first pass and the fold of its pardim
        into max_pardim. */
    method ScanPatchZero(lid: nat, g: nat) returns (ok: bool)
      requires CacheValid() && lid < |h5.levels| && g < |h5.levels[lid]|
      requires h5.levels[lid][g].name in updates
      requires updates[h5.levels[lid][g].name] == UpdateLevels(h5.levels, h5.levels[lid][g].name, lid + 1)
      requires MaxPardimOver(h5, maxPardim, maxAt, lid, g)
      modifies this`maxPardim, this`maxAt, this`patchCache, this`decodeLog
      ensures CacheValid()
      ensures ok <==> PatchZeroAt(h5, lid, g).Some?
      ensures ok ==> MaxPardimOver(h5, maxPardim, maxAt, lid, g + 1)
    {
      var name := h5.levels[lid][g].name;
      ResolvesDuringScan(lid, name);
      var p := GetPatch(lid, name, 0);
      if p.Err? {
        return false;
      }
      MaxPardimStep(h5, maxPardim, maxAt, lid, g, p.value);
      if maxPardim < p.value.pardim {
        maxPardim, maxAt := p.value.pardim, (lid, g);
      }
      ok := true;
    }

    /** The body of the inner loop of the first pass for group g of level lid. */
    method ScanGroup(lid: nat, g: nat) returns (ok: bool)
      requires WellFormed(h5) && CacheValid()
      requires lid < |h5.levels| && g < |h5.levels[lid]| && ScannedTo(lid, g)
      modifies this`basisNames, this`updates, this`maxPardim, this`maxAt, this`patchCache, this`decodeLog
      ensures CacheValid() && BasesScanned(lid, g + 1)
      ensures ok <==> PatchZeroAt(h5, lid, g).Some?
      ensures ok ==> ScannedTo(lid, g + 1)
    {
      RegisterBasis(lid, g);
      ok := ScanPatchZero(lid, g);
    }

    /** The scan state at the end of a level is the state at the start of the next. */
    lemma FinishLevel(lid: nat)
      requires lid < |h5.levels| && ScannedTo(lid, |h5.levels[lid]|)
      ensures ScannedTo(lid + 1, 0)
    {
      NextLevel(h5, maxPardim, maxAt, lid);
    }

    /** One level of the first loop of `check`: every group of the level in order. */
    method ScanLevel(lid: nat) returns (ok: bool, ghost failed: nat)
      requires WellFormed(h5) && CacheValid() && lid < |h5.levels| && ScannedTo(lid, 0)
      modifies this`basisNames, this`updates, this`maxPardim, this`maxAt, this`patchCache, this`decodeLog
      ensures CacheValid()
      ensures !ok ==> failed < |h5.levels[lid]| && PatchZeroAt(h5, lid, failed).None? &&
                      BasesScanned(lid, failed + 1)
      ensures ok ==> ScannedTo(lid, |h5.levels[lid]|)
    {
      var g := 0;
      failed := 0;
      while g < |h5.levels[lid]|
        invariant CacheValid() && ScannedTo(lid, g)
      {
        ok := ScanGroup(lid, g);
        if !ok {
          return ok, g;
        }
        g := g + 1;
      }
      ok := true;
    }

    /** The first loop of `check`: every level in order. */
    method ScanGeometry() returns (ok: bool)
      requires Valid()
      modifies this`basisNames, this`updates, this`maxPardim, this`maxAt, this`patchCache, this`decodeLog
      ensures Valid()
      ensures ok <==> forall l, k :: 0 <= l < |h5.levels| && 0 <= k < |h5.levels[l]| ==>
                        PatchZeroAt(h5, l, k).Some?
      ensures ok ==> ScannedTo(|h5.levels|, 0)
    {
      basisNames, updates, maxPardim := [], map[], 0;
      var lid := 0;
      while lid < |h5.levels|
        invariant CacheValid() && lid <= |h5.levels| && ScannedTo(lid, 0)
      {
        ghost var failed;
        ok, failed := ScanLevel(lid);
        if !ok {
          BasesScannedSound(lid, failed + 1);
          assert PatchZeroAt(h5, lid, failed).None?;
          return;
        }
        FinishLevel(lid);
        lid := lid + 1;
      }
      BasesScannedSound(lid, 0);
      ok := true;
      forall l, k | 0 <= l < |h5.levels| && 0 <= k < |h5.levels[l]|
        ensures PatchZeroAt(h5, l, k).Some?
      {
        assert Visited(l, k, |h5.levels|, 0);
      }
    }

    /** After the first pass: the bases are exactly the group names of the file,
        each update list is strictly increasing and holds exactly the levels whose
        group for that basis has a `basis` subgroup, and max_pardim bounds the
        pardim of every basis at every level. */
    lemma ScannedBases()
      requires WellFormed(h5) && ScannedTo(|h5.levels|, 0)
      ensures forall b :: b in updates <==> b in AllNames(h5.levels)
      ensures forall b :: b in updates ==> StrictlyIncreasing(updates[b])
      ensures forall b, l :: b in updates ==> (l in updates[b] <==> 0 <= l < |h5.levels| && HasGeometry(h5.levels[l], b))
      ensures forall l, k :: 0 <= l < |h5.levels| && 0 <= k < |h5.levels[l]| ==>
                PatchZeroAt(h5, l, k).Some? &&
                PatchZeroAt(h5, l, k).value.pardim <= maxPardim
      ensures maxPardim == 0 ||
              exists l, k :: 0 <= l < |h5.levels| && 0 <= k < |h5.levels[l]| &&
                PatchZeroAt(h5, l, k).Some? &&
                PatchZeroAt(h5, l, k).value.pardim == maxPardim
    {
      BasesScannedSound(|h5.levels|, 0);
      assert h5.levels[..|h5.levels|] == h5.levels;
      assert Seen(h5.levels, |h5.levels|, 0) == AllNames(h5.levels);
      DedupSound(AllNames(h5.levels));
      forall b | b in updates
        ensures StrictlyIncreasing(updates[b])
        ensures forall l :: l in updates[b] <==> 0 <= l < |h5.levels| && HasGeometry(h5.levels[l], b)
      {
        assert updates[b] == UpdateLevels(h5.levels, b, |h5.levels|);
        UpdateLevelsSound(h5.levels, b, |h5.levels|);
      }
    }

    // -------------------------------------------------------------------
    // check, second pass: the fields

    /** The first pass is complete. */
    ghost predicate Scanned()
      reads this`basisNames, this`updates
    {
      BasesScanned(|h5.levels|, 0)
    }

    /** After the first pass a basis of the file has its full update list, so
        `basis_level` resolves every level as GeometryLevel does. */
    lemma ResolvedAfterScan(name: string)
      requires WellFormed(h5) && Scanned() && name in AllNames(h5.levels)
      ensures name in updates && updates[name] == UpdateLevels(h5.levels, name, |h5.levels|)
      ensures forall l :: BasisLevel(l, name).Ok? <==> GeometryLevel(h5, l, name).Some?
      ensures forall l :: BasisLevel(l, name).Ok? ==> BasisLevel(l, name).value == GeometryLevel(h5, l, name).value
    {
      BasesScannedSound(|h5.levels|, 0);
      assert h5.levels[..|h5.levels|] == h5.levels;
      assert Seen(h5.levels, |h5.levels|, 0) == AllNames(h5.levels);
      DedupSound(AllNames(h5.levels));
      assert Pending(h5.levels, name, |h5.levels|, 0) == UpdateLevels(h5.levels, name, |h5.levels|) + [];
    }

    /** A group of the last level names a basis of the file. */
    lemma LastNamesKnown(gi: nat)
      requires |h5.levels| > 0 && gi < |Last(h5)|
      ensures Last(h5)[gi].name in AllNames(h5.levels)
    {
      var n := |h5.levels|;
      assert h5.levels[..n][..n - 1] == h5.levels[..n - 1];
      assert h5.levels[..n] == h5.levels;
      assert Names(Last(h5))[gi] == Last(h5)[gi].name;
    }

    /** The body of the field loop for a name not yet in the fields dict: this only
        happens at level 0, where the component count is computed from patch 0. */
    method AddField(lid: nat, gi: nat, fi: nat) returns (ok: bool)
      requires CacheValid() && BasesValid() && Scanned() && WellFormed(h5)
      requires lid == 0 && |h5.levels| > 0 && gi < |Last(h5)| && fi < NumFields(Last(h5)[gi])
      requires FieldsAt(h5, Last(h5), fields, gi, fi)
      requires Last(h5)[gi].fields.value[fi].name !in fields
      modifies this`fields, this`patchCache, this`decodeLog
      ensures CacheValid()
      ensures Introduces(Last(h5), gi, fi)
      ensures ok <==> NComps(h5, Last(h5)[gi], Last(h5)[gi].fields.value[fi]).Some?
      ensures ok ==> FieldsAt(h5, Last(h5), fields, gi, fi + 1)
    {
      var grp := h5.levels[|h5.levels| - 1][gi];
      var f := grp.fields.value[fi];
      assert Distinct(FieldNames(grp.fields.value));
      ListedBefore(grp, fi);
      if |f.sizes| == 0 {
        return false;
      }
      LastNamesKnown(gi);
      ResolvedAfterScan(grp.name);
      var p := GetPatch(lid, grp.name, 0);
      if p.Err? {
        return false;
      }
      if p.value.ncoeffs == 0 {
        return false;
      }
      FieldsAtAdd(h5, Last(h5), fields, gi, fi);
      fields := fields[f.name := FieldRec(f.name, grp.name, f.sizes[0] / p.value.ncoeffs)];
      ok := true;
    }

    /** The inner loop of the second pass: the fields of group gi of the last
        level, visited at level lid. Only at level 0 can a name be new. */
    method ScanGroupFields(lid: nat, gi: nat) returns (ok: bool, ghost failed: nat)
      requires CacheValid() && BasesValid() && Scanned() && WellFormed(h5)
      requires lid < |h5.levels| && gi < |Last(h5)|
      requires FieldsAt(h5, Last(h5), fields, gi, if lid == 0 then 0 else NumFields(Last(h5)[gi]))
      modifies this`fields, this`patchCache, this`decodeLog
      ensures CacheValid()
      ensures ok ==> FieldsAt(h5, Last(h5), fields, gi, NumFields(Last(h5)[gi]))
      ensures !ok ==> failed < NumFields(Last(h5)[gi]) && Introduces(Last(h5), gi, failed) &&
                      NComps(h5, Last(h5)[gi], Last(h5)[gi].fields.value[failed]).None?
    {
      var grp := h5.levels[|h5.levels| - 1][gi];
      ok, failed := true, 0;
      if grp.fields.None? {
        return;
      }
      var fs := grp.fields.value;
      assert Distinct(FieldNames(fs));
      var fi := 0;
      while fi < |fs|
        invariant fi <= |fs| && CacheValid()
        invariant FieldsAt(h5, Last(h5), fields, gi, if lid == 0 then fi else |fs|)
      {
        if fs[fi].name !in fields {
          ListedAll(grp, fi);
          ok := AddField(lid, gi, fi);
          if !ok {
            return ok, fi;
          }
        } else if lid == 0 {
          FieldsAtSkip(h5, Last(h5), fields, gi, fi);
        }
        fi := fi + 1;
      }
    }

    /** The second pass of `check`. It iterates, for every group of the last level,
        over every level, but looks at the `fields` of that last-level group each
        time; with no time level at all the loop variable it starts from is unbound. */
    method ScanFields() returns (ok: bool)
      requires CacheValid() && BasesValid() && Scanned() && WellFormed(h5)
      modifies this`fields, this`patchCache, this`decodeLog
      ensures CacheValid()
      ensures ok <==> |h5.levels| > 0 && FieldsResolve(h5)
      ensures ok ==> FieldsAt(h5, Last(h5), fields, |Last(h5)|, 0)
    {
      fields := map[];
      if |h5.levels| == 0 {
        return false;
      }
      var groups := h5.levels[|h5.levels| - 1];
      var gi := 0;
      while gi < |groups|
        invariant gi <= |groups| && CacheValid() && BasesValid() && Scanned()
        invariant FieldsAt(h5, Last(h5), fields, gi, 0)
      {
        ghost var failed;
        ok, failed := ScanLevelsFields(gi);
        if !ok {
          assert Introduces(Last(h5), gi, failed);
          return;
        }
        gi := gi + 1;
      }
      ok := true;
    }

    /** The levels visited for group gi of the last level by the second pass. */
    method ScanLevelsFields(gi: nat) returns (ok: bool, ghost failed: nat)
      requires CacheValid() && BasesValid() && Scanned() && WellFormed(h5)
      requires |h5.levels| > 0 && gi < |Last(h5)| && FieldsAt(h5, Last(h5), fields, gi, 0)
      modifies this`fields, this`patchCache, this`decodeLog
      ensures CacheValid()
      ensures ok ==> FieldsAt(h5, Last(h5), fields, gi + 1, 0)
      ensures !ok ==> failed < NumFields(Last(h5)[gi]) && Introduces(Last(h5), gi, failed) &&
                      NComps(h5, Last(h5)[gi], Last(h5)[gi].fields.value[failed]).None?
    {
      ok, failed := true, 0;
      var lid := 0;
      while lid < |h5.levels|
        invariant lid <= |h5.levels| && CacheValid()
        invariant FieldsAt(h5, Last(h5), fields, gi, if lid == 0 then 0 else NumFields(Last(h5)[gi]))
      {
        ok, failed := ScanGroupFields(lid, gi);
        if !ok {
          return;
        }
        lid := lid + 1;
      }
      NextGroupFields(h5, Last(h5), fields, gi);
    }

    /** `check`: the first pass, then the second. */
    method Check() returns (ok: bool)
      requires Valid()
      modifies this`basisNames, this`updates, this`maxPardim, this`maxAt, this`fields, this`patchCache, this`decodeLog
      ensures Valid()
      ensures ok <==> |h5.levels| > 0 && FieldsResolve(h5) &&
                      forall l, k :: 0 <= l < |h5.levels| && 0 <= k < |h5.levels[l]| ==> PatchZeroAt(h5, l, k).Some?
      ensures ok ==> ScannedTo(|h5.levels|, 0) && FieldsAt(h5, Last(h5), fields, |Last(h5)|, 0)
    {
      ok := ScanGeometry();
      if !ok {
        return;
      }
      ok := ScanFields();
    }

    // -------------------------------------------------------------------
    // write_geometry and write

    /** `write_geometry` for basis `name` at level `lid`: the loop over the
        patches of the level `lid` resolves to, or a failure when `npatches`
        raises. */
    function GeometryStep(e: Emission, conn: ElementFn, lid: int, name: string): Emission
      reads this`updates
    {
      if e.failed then e
      else
        match LevelPatches(lid, name)
        case Err(_) => e.(failed := true)
        case Ok(ps) => EmitPatches(e, conn, lid, name, ps, |ps|)
    }

    /** The inner loop of `write` at level `lid` over the first n bases of `bs`:
        geometry is written for a basis exactly when `lid` is one of its updates. */
    function LevelStep(e: Emission, conn: ElementFn, lid: int, bs: seq<string>, n: nat): Emission
      requires n <= |bs|
      reads this`updates
    {
      if n == 0 then e
      else
        var e' := LevelStep(e, conn, lid, bs, n - 1);
        var b := bs[n - 1];
        if b in updates && lid in updates[b] then GeometryStep(e', conn, lid, b) else e'
    }

    /** One iteration of the outer loop of `write`: the bases at level `lid`,
        then `add_time` with the level as time. */
    function Advance(e: Emission, conn: ElementFn, lid: nat): Emission
      reads this`updates, this`basisNames
    {
      var e' := LevelStep(e, conn, lid, basisNames, |basisNames|);
      if e'.failed then e' else e'.(calls := e'.calls + [AddTime(lid as real)])
    }

    /** The first n iterations of the outer loop of `write`. */
    function WriteSteps(e: Emission, conn: ElementFn, n: nat): Emission
      reads this`updates, this`basisNames
    {
      if n == 0 then e else Advance(WriteSteps(e, conn, n - 1), conn, n - 1)
    }

    lemma WriteStepsNext(e: Emission, conn: ElementFn, lid: nat, r: Emission)
      requires LevelStep(WriteSteps(e, conn, lid), conn, lid, basisNames, |basisNames|) == r
      ensures WriteSteps(e, conn, lid + 1) == if r.failed then r else r.(calls := r.calls + [AddTime(lid as real)])
    {
    }

    /** A geometry update at level `lid` for a basis that has `lid` among its updates. */
    ghost predicate UpdateAt(c: WriterCall, lid: int)
      reads this`updates
    {
      c.UpdateGeometry? && c.level == lid && c.basis in updates && lid in updates[c.basis]
    }

    /** The calls from position m on are geometry updates at level `lid`. */
    ghost predicate UpdatesFrom(m: nat, r: Emission, lid: int)
      reads this`updates
    {
      m <= |r.calls| && forall i :: m <= i < |r.calls| ==> UpdateAt(r.calls[i], lid)
    }

    lemma {:induction false} LevelStaysFailed(e: Emission, conn: ElementFn, lid: int, bs: seq<string>, k: nat, n: nat)
      requires k <= n <= |bs| && LevelStep(e, conn, lid, bs, k).failed
      ensures LevelStep(e, conn, lid, bs, n) == LevelStep(e, conn, lid, bs, k)
    {
      if k < n {
        LevelStaysFailed(e, conn, lid, bs, k, n - 1);
      }
    }

    lemma {:induction false} WriteStaysFailed(e: Emission, conn: ElementFn, k: nat, n: nat)
      requires k <= n && WriteSteps(e, conn, k).failed
      ensures WriteSteps(e, conn, n) == WriteSteps(e, conn, k)
    {
      if k < n {
        WriteStaysFailed(e, conn, k, n - 1);
        LevelStaysFailed(WriteSteps(e, conn, n - 1), conn, n - 1, basisNames, 0, |basisNames|);
      }
    }

    /** One basis at one level keeps the catalogue sound, only appends, and
        appends geometry updates at that level for that basis. */
    lemma GeometryCalls(e: Emission, conn: ElementFn, lid: int, name: string)
      requires CatalogueSound(e.catalogue)
      requires name in updates && lid in updates[name]
      ensures var r := GeometryStep(e, conn, lid, name);
              CatalogueSound(r.catalogue) && e.calls <= r.calls && UpdatesFrom(|e.calls|, r, lid)
    {
      if !e.failed && LevelPatches(lid, name).Ok? {
        var ps := LevelPatches(lid, name).value;
        var r := EmitPatches(e, conn, lid, name, ps, |ps|);
        EmitGrows(e, conn, lid, name, ps, |ps|);
        EmitPrefix(e, conn, lid, name, ps, |ps|);
        EmitCalls(e, conn, lid, name, ps, |ps|);
        forall i | |e.calls| <= i < |r.calls|
          ensures UpdateAt(r.calls[i], lid)
        {
          assert Written(r.calls[i], conn, lid, name, ps, |ps|);
        }
      }
    }

    /** The inner loop of `write` at level `lid` keeps the catalogue sound, only
        appends, and appends geometry updates at level `lid` only. */
    lemma {:induction false} LevelCalls(e: Emission, conn: ElementFn, lid: int, bs: seq<string>, n: nat)
      requires n <= |bs| && CatalogueSound(e.catalogue)
      ensures var r := LevelStep(e, conn, lid, bs, n);
              CatalogueSound(r.catalogue) && e.calls <= r.calls && UpdatesFrom(|e.calls|, r, lid)
    {
      if n > 0 {
        LevelCalls(e, conn, lid, bs, n - 1);
        var r' := LevelStep(e, conn, lid, bs, n - 1);
        var b := bs[n - 1];
        if b in updates && lid in updates[b] {
          GeometryCalls(r', conn, lid, b);
          UpdatesGlue(|e.calls|, r', GeometryStep(r', conn, lid, b), lid);
        }
      }
    }

    lemma UpdatesGlue(m: nat, r': Emission, r: Emission, lid: int)
      requires UpdatesFrom(m, r', lid) && r'.calls <= r.calls && UpdatesFrom(|r'.calls|, r, lid)
      ensures UpdatesFrom(m, r, lid)
    {
      forall i | m <= i < |r.calls|
        ensures UpdateAt(r.calls[i], lid)
      {
        if i < |r'.calls| {
          assert r.calls[i] == r'.calls[i];
        }
      }
    }

    /** Every geometry update in `cs` is made at a level where its basis has
        an update, and that level is the number of `add_time` calls before it. */
    ghost predicate UpdatesTimed(cs: seq<WriterCall>)
      reads this`updates
    {
      forall i :: 0 <= i < |cs| && cs[i].UpdateGeometry? ==> UpdateAt(cs[i], |Times(cs[..i])|)
    }

    /** The trace after n levels: the times are 0.0, 1.0, ... in level order,
        one per level completed, all n of them unless a write failed, and the
        geometry updates are timed as above. */
    ghost predicate TraceOk(r: Emission, n: nat)
      reads this`updates
    {
      && CatalogueSound(r.catalogue)
      && |Times(r.calls)| <= n
      && Times(r.calls) == Levels(|Times(r.calls)|)
      && (!r.failed ==> |Times(r.calls)| == n)
      && UpdatesTimed(r.calls)
    }

    /** The trace of `write` from a fresh writer. */
    lemma {:induction false} WriteTrace(e: Emission, conn: ElementFn, n: nat)
      requires CatalogueSound(e.catalogue) && e.calls == [] && !e.failed
      ensures TraceOk(WriteSteps(e, conn, n), n)
    {
      if n == 0 {
        assert Times([]) == Levels(0);
      } else {
        WriteTrace(e, conn, n - 1);
        TraceAdvance(WriteSteps(e, conn, n - 1), conn, n - 1);
      }
    }

    lemma TraceAdvance(r': Emission, conn: ElementFn, lid: nat)
      requires TraceOk(r', lid)
      ensures TraceOk(Advance(r', conn, lid), lid + 1)
    {
      if r'.failed {
        LevelStaysFailed(r', conn, lid, basisNames, 0, |basisNames|);
      } else {
        LevelCalls(r', conn, lid, basisNames, |basisNames|);
        var m := LevelStep(r', conn, lid, basisNames, |basisNames|);
        TraceGlue(r', m, lid);
        if !m.failed {
          TraceAddTime(m, Advance(r', conn, lid), lid);
        }
      }
    }

    /** The geometry updates of one level add no time. */
    lemma TraceGlue(r': Emission, m: Emission, lid: nat)
      requires Times(r'.calls) == Levels(lid) && UpdatesTimed(r'.calls)
      requires r'.calls <= m.calls && UpdatesFrom(|r'.calls|, m, lid)
      ensures Times(m.calls) == Levels(lid) && UpdatesTimed(m.calls)
    {
      var k := |r'.calls|;
      assert m.calls[..k] == r'.calls;
      forall j | k <= j < |m.calls|
        ensures !m.calls[j].AddTime?
      {
        assert UpdateAt(m.calls[j], lid);
      }
      TimesSkip(m.calls, k, |m.calls|);
      assert m.calls[..|m.calls|] == m.calls;
      forall i | 0 <= i < |m.calls| && m.calls[i].UpdateGeometry?
        ensures UpdateAt(m.calls[i], |Times(m.calls[..i])|)
      {
        if i < k {
          assert m.calls[..i] == r'.calls[..i];
          assert m.calls[i] == r'.calls[i];
        } else {
          TimesSkip(m.calls, k, i);
        }
      }
    }

    /** Closing a level with `add_time(lid)`. */
    lemma TraceAddTime(m: Emission, r: Emission, lid: nat)
      requires Times(m.calls) == Levels(lid) && UpdatesTimed(m.calls)
      requires r.calls == m.calls + [AddTime(lid as real)]
      ensures Times(r.calls) == Levels(lid + 1) && UpdatesTimed(r.calls)
    {
      assert r.calls[..|r.calls| - 1] == m.calls;
      assert Levels(lid + 1) == Levels(lid) + [lid as real];
      forall i | 0 <= i < |r.calls| && r.calls[i].UpdateGeometry?
        ensures UpdateAt(r.calls[i], |Times(r.calls[..i])|)
      {
        assert i < |m.calls|;
        assert r.calls[..i] == m.calls[..i];
        assert r.calls[i] == m.calls[i];
      }
    }

    /** One iteration of `write_geometry`: the patch joins the catalogue if
        its geometry is new; unless its node was already written at `lid` or
        later, the node is marked written at `lid` and its object is passed
        to the writer with the element array of its grid. */
    method WriteNode(lid: int, name: string, pid: nat, patch: Patch) returns (ok: bool)
      requires CatalogueSound(catalogue)
      modifies this`catalogue, this`calls
      ensures CatalogueSound(catalogue)
      ensures var r := EmitOne(Emission(old(catalogue), old(calls), false), tesselate, lid, name, pid, patch);
              catalogue == r.catalogue && calls == r.calls && ok == !r.failed
    {
      ghost var before := Emission(catalogue, calls, false);
      OneGrows(before, tesselate, lid, name, pid, patch);
      if patch.canon !in catalogue {
        catalogue := catalogue[patch.canon := Node(patch, None, -1)];
      }
      var node := catalogue[patch.canon];
      if node.lastWritten < lid {
        var elements := tesselate(node.obj.grid);
        if elements.Err? {
          EmitOneFail(before, tesselate, lid, name, pid, patch, catalogue);
          catalogue := catalogue[patch.canon := node.(lastWritten := lid)];
          return false;
        }
        EmitOneWrite(before, tesselate, lid, name, pid, patch, catalogue, elements.value);
        node := node.(lastWritten := lid);
        catalogue := catalogue[patch.canon := node];
        calls := calls + [UpdateGeometry(lid, name, pid, node.obj, elements.value, |node.obj.grid|, node.patchid)];
      } else {
        EmitOneSkip(before, tesselate, lid, name, pid, patch, catalogue);
      }
      ok := true;
    }

    /** `patch` for an index below `npatches`: it cannot fail, and yields the
        listed patch. */
    method ListedPatch(lid: int, name: string, ghost ps: seq<Patch>, pid: nat) returns (p: Patch)
      requires CacheValid() && LevelPatches(lid, name) == Ok(ps) && pid < |ps|
      modifies this`patchCache, this`decodeLog
      ensures CacheValid() && p == ps[pid]
    {
      var r := GetPatch(lid, name, pid);
      p := r.value;
    }

    /** The loop of `write_geometry` over the n patches `ps` of the basis at
        the level `lid` resolves to, taken one by one in patch order. */
    method WritePatches(lid: int, name: string, n: nat, ghost ps: seq<Patch>) returns (ok: bool)
      requires CacheValid() && CatalogueSound(catalogue)
      requires LevelPatches(lid, name) == Ok(ps) && n == |ps|
      modifies this`catalogue, this`calls, this`patchCache, this`decodeLog
      ensures CacheValid() && CatalogueSound(catalogue)
      ensures var r := EmitPatches(Emission(old(catalogue), old(calls), false), tesselate, lid, name, ps, n);
              catalogue == r.catalogue && calls == r.calls && ok == !r.failed
    {
      ghost var e0 := Emission(catalogue, calls, false);
      var pid := 0;
      while pid < n
        invariant pid <= n
        invariant CacheValid() && CatalogueSound(catalogue)
        invariant EmitPatches(e0, tesselate, lid, name, ps, pid) == Emission(catalogue, calls, false)
      {
        var p := ListedPatch(lid, name, ps, pid);
        EmitPatchesNext(e0, tesselate, lid, name, ps, pid);
        ok := WriteNode(lid, name, pid, p);
        if !ok {
          EmitStaysFailed(e0, tesselate, lid, name, ps, pid + 1, n);
          return;
        }
        pid := pid + 1;
      }
      ok := true;
    }

    /** `write_geometry`: fails when `npatches` does, and otherwise writes the
        patches of the basis at the level `lid` resolves to. */
    method WriteGeometry(lid: int, name: string) returns (ok: bool)
      requires CacheValid() && CatalogueSound(catalogue)
      modifies this`catalogue, this`calls, this`patchCache, this`decodeLog
      ensures CacheValid() && CatalogueSound(catalogue)
      ensures var r := GeometryStep(Emission(old(catalogue), old(calls), false), tesselate, lid, name);
              catalogue == r.catalogue && calls == r.calls && ok == !r.failed
    {
      var np := NPatches(lid, name);
      if np.Err? {
        return false;
      }
      ok := WritePatches(lid, name, np.value, LevelPatches(lid, name).value);
    }

    /** The inner loop of `write` at level `lid`: the geometry of every basis,
        in the order the bases were found, that has `lid` among its updates. */
    method WriteLevel(lid: nat) returns (ok: bool)
      requires CacheValid() && CatalogueSound(catalogue) && BasesValid()
      modifies this`catalogue, this`calls, this`patchCache, this`decodeLog
      ensures CacheValid() && CatalogueSound(catalogue)
      ensures var r := LevelStep(Emission(old(catalogue), old(calls), false), tesselate, lid, basisNames, |basisNames|);
              catalogue == r.catalogue && calls == r.calls && ok == !r.failed
    {
      ghost var e0 := Emission(catalogue, calls, false);
      var bi := 0;
      while bi < |basisNames|
        invariant bi <= |basisNames| && CacheValid() && CatalogueSound(catalogue)
        invariant LevelStep(e0, tesselate, lid, basisNames, bi) == Emission(catalogue, calls, false)
      {
        var b := basisNames[bi];
        assert b in updates;
        if lid in updates[b] {
          ok := WriteGeometry(lid, b);
          if !ok {
            LevelStaysFailed(e0, tesselate, lid, basisNames, bi + 1, |basisNames|);
            return;
          }
        }
        bi := bi + 1;
      }
      ok := true;
    }

    /** `write`: for every level in order, the geometry of every basis updated
        at that level, then `add_time` with the level as the time. */
    method Write() returns (ok: bool)
      requires CacheValid() && CatalogueSound(catalogue) && BasesValid()
      modifies this`catalogue, this`calls, this`patchCache, this`decodeLog
      ensures CacheValid() && CatalogueSound(catalogue)
      ensures var r := WriteSteps(Emission(old(catalogue), old(calls), false), tesselate, |h5.levels|);
              catalogue == r.catalogue && calls == r.calls && ok == !r.failed
    {
      ghost var e0 := Emission(catalogue, calls, false);
      var lid := 0;
      while lid < |h5.levels|
        invariant lid <= |h5.levels| && CacheValid() && CatalogueSound(catalogue)
        invariant WriteSteps(e0, tesselate, lid) == Emission(catalogue, calls, false)
      {
        ok := WriteLevel(lid);
        WriteStepsNext(e0, tesselate, lid, Emission(catalogue, calls, !ok));
        if !ok {
          WriteStaysFailed(e0, tesselate, lid + 1, |h5.levels|);
          return;
        }
        calls := calls + [AddTime(lid as real)];
        lid := lid + 1;
      }
      ok := true;
    }
  }
}
