/**
 * The structure editor, T3/builder_part3.js: a wireframe cursor moved over
 * a 35 × 35 grid, a dictionary of placed voxels keyed by the cursor's
 * position, a cycling block-type selection, and saving and loading the
 * dictionary as a JSON list of entries.
 *
 * Cursor coordinates are reals: x and z sit on whole numbers, y on the
 * half-way points 0.5, 1.5, ... (voxel centres, since the voxel size is 1).
 */
module Builder {
  import opened Wrappers
  import opened Voxel
  import Motion

  /** `-halfPlane + voxelSize / 2` and `halfPlane - voxelSize / 2` for `planeSize` 35: the x and z range of the cursor. */
  const MIN_XZ: real := -17.0
  const MAX_XZ: real := 17.0
  /** `voxelSize / 2`: the lowest cursor height. */
  const MIN_Y: real := 0.5
  /** `halfPlane + voxelSize / 2`: the highest cursor height, as written. */
  const MAX_Y: real := 18.0
  /** The highest voxel centre not above MAX_Y. */
  const MAX_Y_FIXED: real := 17.5

  /** A cursor position, and the key `${x},${y},${z}` of the voxel placed there. */
  datatype Spot = Spot(x: real, y: real, z: real)

  predicate IsInt(v: real)
  {
    v == v.Floor as real
  }

  /** `snapToGrid(value, 1, isY)`: the nearest whole number, or for y the nearest voxel centre. */
  function SnapToGrid(v: real, isY: bool): (r: real)
    ensures v - 0.5 < r <= v + 0.5
    ensures if isY then IsInt(r - 0.5) else IsInt(r)
  {
    if isY then 0.5 + Round(v - 0.5) as real else Round(v) as real
  }

  /** A value already on the grid is left where it is, so snapping twice is snapping once. */
  lemma SnapFixesGrid(v: real, isY: bool)
    requires if isY then IsInt(v - 0.5) else IsInt(v)
    ensures SnapToGrid(v, isY) == v
    ensures SnapToGrid(SnapToGrid(v, isY), isY) == SnapToGrid(v, isY)
  {
    if isY {
      assert Round(v - 0.5) == (v - 0.5).Floor;
    } else {
      assert Round(v) == v.Floor;
    }
  }

  /** The keys `handleKeyPress` tells apart; every other key is `Other`. */
  datatype Key = ArrowUp | ArrowDown | ArrowLeft | ArrowRight | PageUp | PageDown | AddKey | RemoveKey | CycleKey | Other

  /** `event.key` to the case of the switch it selects; the letter keys are matched in both cases. */
  function KeyOf(name: string): Key
  {
    if name == "ArrowUp" then ArrowUp
    else if name == "ArrowDown" then ArrowDown
    else if name == "ArrowLeft" then ArrowLeft
    else if name == "ArrowRight" then ArrowRight
    else if name == "PageUp" then PageUp
    else if name == "PageDown" then PageDown
    else if name == "q" || name == "Q" then AddKey
    else if name == "e" || name == "E" then RemoveKey
    else if name == "h" || name == "H" then CycleKey
    else Other
  }

  /**
   * The horizontal step of an arrow key. (fx, fz) is the camera's viewing
   * direction flattened onto the ground and normalised; the side vector is
   * its cross product with the up axis, (-fz, fx).
   */
  function Displacement(k: Key, fx: real, fz: real): (real, real)
  {
    match k
    case ArrowUp => (fx, fz)
    case ArrowDown => (-fx, -fz)
    case ArrowLeft => (fz, -fx)
    case ArrowRight => (-fz, fx)
    case _ => (0.0, 0.0)
  }

  /** The cursor after a move: snapped to the grid, then clamped with `THREE.MathUtils.clamp`, with `top` as the highest y. */
  function Align(x: real, y: real, z: real, top: real): Spot
    requires MIN_Y <= top
  {
    Spot(Motion.Clamp(SnapToGrid(x, false), MIN_XZ, MAX_XZ), Motion.Clamp(SnapToGrid(y, true), MIN_Y, top), Motion.Clamp(SnapToGrid(z, false), MIN_XZ, MAX_XZ))
  }

  /** The cursor before snapping: an arrow key moves it by its step, a page key by one level. */
  function Moved(c: Spot, k: Key, fx: real, fz: real): Spot
  {
    var (dx, dz) := Displacement(k, fx, fz);
    var dy := if k == PageUp then 1.0 else if k == PageDown then -1.0 else 0.0;
    Spot(c.x + dx, c.y + dy, c.z + dz)
  }

  /** Where the cursor may be as written: x and z whole numbers within range, y a voxel centre or exactly 18. */
  predicate Reachable(c: Spot)
  {
    IsInt(c.x) && IsInt(c.z) && MIN_XZ <= c.x <= MAX_XZ && MIN_XZ <= c.z <= MAX_XZ &&
    MIN_Y <= c.y <= MAX_Y && (IsInt(c.y - 0.5) || c.y == MAX_Y)
  }

  /** Where the cursor should be: on a voxel centre of the 35 × 35 grid, at most 17 levels up. */
  predicate OnGrid(c: Spot)
  {
    IsInt(c.x) && IsInt(c.z) && IsInt(c.y - 0.5) &&
    MIN_XZ <= c.x <= MAX_XZ && MIN_XZ <= c.z <= MAX_XZ && MIN_Y <= c.y <= MAX_Y_FIXED
  }

  /**
   * The cursor after a handled key, as written: x and z land on whole
   * numbers in [-17, 17], y in [0.5, 18] on a voxel centre unless the
   * clamp put it at 18.
   */
  function CursorAfter(c: Spot, k: Key, fx: real, fz: real): (r: Spot)
    ensures Reachable(r)
  {
    var m := Moved(c, k, fx, fz);
    Align(m.x, m.y, m.z, MAX_Y)
  }

  /** Raising the cursor from the top voxel centre leaves it at 18, half-way between two voxel centres. */
  lemma CursorLeavesGrid()
    ensures CursorAfter(Spot(0.0, 17.5, 0.0), PageUp, 0.0, 0.0) == Spot(0.0, MAX_Y, 0.0)
    ensures OnGrid(Spot(0.0, 17.5, 0.0)) && !OnGrid(Spot(0.0, MAX_Y, 0.0))
  {
    assert SnapToGrid(18.5, true) == 18.5 by {
      assert Round(18.0) == 18;
    }
    assert SnapToGrid(0.0, false) == 0.0 by {
      assert Round(0.0) == 0;
    }
  }

  /** The cursor after a handled key with the top clamped to the highest voxel centre: always on the grid. */
  function CursorAfterFixed(c: Spot, k: Key, fx: real, fz: real): (r: Spot)
    ensures OnGrid(r)
  {
    var m := Moved(c, k, fx, fz);
    Align(m.x, m.y, m.z, MAX_Y_FIXED)
  }

  /** With the corrected top, a page key moves one level and nothing else while the new level is on the grid. */
  lemma PageKeysStepOneLevel(c: Spot, k: Key, fx: real, fz: real)
    requires OnGrid(c) && (k == PageUp || k == PageDown)
    requires MIN_Y <= (if k == PageUp then c.y + 1.0 else c.y - 1.0) <= MAX_Y_FIXED
    ensures CursorAfterFixed(c, k, fx, fz) == Spot(c.x, if k == PageUp then c.y + 1.0 else c.y - 1.0, c.z)
  {
    var y := if k == PageUp then c.y + 1.0 else c.y - 1.0;
    assert IsInt(y - 0.5) by {
      assert y - 0.5 == (if k == PageUp then (c.y - 0.5).Floor + 1 else (c.y - 0.5).Floor - 1) as real;
    }
    SnapFixesGrid(c.x, false);
    SnapFixesGrid(y, true);
    SnapFixesGrid(c.z, false);
  }

  /** Keys that do not move the cursor leave a reachable cursor where it is, as written. */
  lemma ActionKeysKeepCursor(c: Spot, k: Key, fx: real, fz: real)
    requires Reachable(c) && (k == AddKey || k == RemoveKey || k == CycleKey)
    ensures CursorAfter(c, k, fx, fz) == c
  {
    assert Moved(c, k, fx, fz) == c;
    SnapFixesGrid(c.x, false);
    SnapFixesGrid(c.z, false);
    if IsInt(c.y - 0.5) {
      SnapFixesGrid(c.y, true);
    } else {
      assert Round(c.y - 0.5) == 18 by {
        assert c.y - 0.5 + 0.5 == 18.0;
      }
    }
  }

  /** The types `blockMaterials` has a material for: 0 .. 13 except 6, 8 and 9. */
  predicate HasMaterial(kind: int)
  {
    0 <= kind <= 13 && kind != 6 && kind != 8 && kind != 9
  }

  /**
   * `addVoxel` at a spot: nothing happens when a voxel is there already,
   * or when the type has no material (cloning it throws); otherwise
   * exactly one entry is added and every existing entry is kept.
   */
  function Placed(voxels: map<Spot, int>, s: Spot, kind: int): (r: map<Spot, int>)
    ensures r.Keys == voxels.Keys + (if s !in voxels && HasMaterial(kind) then {s} else {})
    ensures forall t | t in voxels :: r[t] == voxels[t]
    ensures s in r && s !in voxels ==> r[s] == kind
  {
    if s in voxels || !HasMaterial(kind) then voxels else voxels[s := kind]
  }

  /** `removeVoxel` at a spot: the entry there, if any, is deleted and every other entry is kept. */
  function Removed(voxels: map<Spot, int>, s: Spot): (r: map<Spot, int>)
    ensures r.Keys == voxels.Keys - {s}
    ensures forall t | t in r :: r[t] == voxels[t]
  {
    voxels - {s}
  }

  /** Removing what was just placed restores the dictionary; placing twice is placing once. */
  lemma RemoveUndoesPlace(voxels: map<Spot, int>, s: Spot, kind: int, other: int)
    requires s !in voxels
    ensures Removed(Placed(voxels, s, kind), s) == voxels
    ensures HasMaterial(kind) ==> Placed(Placed(voxels, s, kind), s, other) == Placed(voxels, s, kind)
  {
    assert Removed(Placed(voxels, s, kind), s).Keys == voxels.Keys;
  }

  /** The order `cycleBlockType` steps through, as written. */
  const CYCLE: seq<int> := [0, 1, 2, 7, 3, 4, 5, 9, 10, 11, 12, 13]

  /** The same order without 9, the one entry that has no material. */
  const CYCLE_FIXED: seq<int> := [0, 1, 2, 7, 3, 4, 5, 10, 11, 12, 13]

  /** `Array.prototype.indexOf`: the first index holding v, or -1. */
  function IndexOf(xs: seq<int>, v: int): (i: int)
    ensures -1 <= i < |xs|
    ensures i >= 0 ==> xs[i] == v
    ensures forall k | 0 <= k < |xs| && (i < 0 || k < i) :: xs[k] != v
  {
    if |xs| == 0 then -1
    else if xs[0] == v then 0
    else
      var j := IndexOf(xs[1..], v);
      if j < 0 then -1 else j + 1
  }

  /** A list whose elements each have a distinct rank: the first index of an element is its index. */
  lemma IndexOfRanked(xs: seq<int>, rank: map<int, int>, i: int)
    requires 0 <= i < |xs|
    requires forall k | 0 <= k < |xs| :: xs[k] in rank && rank[xs[k]] == k
    ensures IndexOf(xs, xs[i]) == i
  {
    var j := IndexOf(xs, xs[i]);
    assert j >= 0 && xs[j] == xs[i];
  }

  /** The type after the current one in `order`, wrapping round; an unlisted type moves to the first. */
  function Next(order: seq<int>, t: int): (r: int)
    requires |order| > 0
    ensures r in order
    ensures t !in order ==> r == order[0]
  {
    order[(IndexOf(order, t) + 1) % |order|]
  }

  /** `cycleBlockType`, as written. */
  function NextType(t: int): int
  {
    Next(CYCLE, t)
  }

  /** The position of each type in CYCLE. */
  const CYCLE_RANK: map<int, int> := map[0 := 0, 1 := 1, 2 := 2, 7 := 3, 3 := 4, 4 := 5, 5 := 6, 9 := 7, 10 := 8, 11 := 9, 12 := 10, 13 := 11]

  lemma CycleRanked()
    ensures forall k | 0 <= k < |CYCLE| :: CYCLE[k] in CYCLE_RANK && CYCLE_RANK[CYCLE[k]] == k
  {
  }

  /** n presses of the cycle key from type t. */
  function Cycled(t: int, n: nat): int
  {
    if n == 0 then t else NextType(Cycled(t, n - 1))
  }

  /** From the first type, the cycle key visits the list in order and comes back after twelve presses. */
  lemma {:induction false} CycleWalksList(n: nat)
    requires n <= |CYCLE|
    ensures Cycled(0, n) == if n == |CYCLE| then CYCLE[0] else CYCLE[n]
  {
    if n > 0 {
      CycleWalksList(n - 1);
      CycleStep(n - 1);
    }
  }

  /** One press moves from an element of the list to the one after it. */
  lemma CycleStep(i: int)
    requires 0 <= i < |CYCLE|
    ensures NextType(CYCLE[i]) == if i + 1 == |CYCLE| then CYCLE[0] else CYCLE[i + 1]
  {
    CycleRanked();
    IndexOfRanked(CYCLE, CYCLE_RANK, i);
    WrapNext(i, |CYCLE|);
  }

  /** The index after i in a list of length n, wrapping round. */
  lemma WrapNext(i: int, n: int)
    requires 0 <= i < n
    ensures (i + 1) % n == if i + 1 == n then 0 else i + 1
  {
  }

  /** The list as written leads from Snow to 9, and a voxel of type 9 cannot be placed. */
  lemma CycleReachesUnplaceable(voxels: map<Spot, int>, s: Spot)
    ensures NextType(5) == 9 && !HasMaterial(9)
    ensures Placed(voxels, s, NextType(5)) == voxels
  {
    CycleAfterSnow();
  }

  lemma CycleAfterSnow()
    ensures NextType(5) == 9
  {
    CycleStep(6);
  }

  /** `cycleBlockType` over the list without 9. */
  function NextTypeFixed(t: int): (r: int)
    ensures HasMaterial(r)
  {
    Next(CYCLE_FIXED, t)
  }

  /** Every type reached with the cycle key over the corrected list can be placed. */
  lemma CycleFixedPlaceable(voxels: map<Spot, int>, s: Spot, t: int)
    requires s !in voxels
    ensures s in Placed(voxels, s, NextTypeFixed(t))
  {
  }

  /**
   * The characters `String.prototype.trim` strips from the ends: space,
   * tab, line feed, vertical tab, form feed and carriage return (other
   * Unicode white space is not modelled).
   */
  predicate IsSpace(c: char)
  {
    c == ' ' || c == '\t' || c == '\n' || c == '\U{000B}' || c == '\U{000C}' || c == '\r'
  }

  /** Leading white space removed: the removed prefix is all white space, and what is left starts with none. */
  function TrimStart(s: string): (r: string)
    ensures |r| <= |s| && r == s[|s| - |r|..]
    ensures forall i | 0 <= i < |s| - |r| :: IsSpace(s[i])
    ensures r == [] || !IsSpace(r[0])
  {
    if |s| > 0 && IsSpace(s[0]) then TrimStart(s[1..]) else s
  }

  /** Trailing white space removed: the removed suffix is all white space, and what is left ends with none. */
  function TrimEnd(s: string): (r: string)
    ensures |r| <= |s| && r == s[..|r|]
    ensures forall i | |r| <= i < |s| :: IsSpace(s[i])
    ensures r == [] || !IsSpace(r[|r| - 1])
  {
    if |s| > 0 && IsSpace(s[|s| - 1]) then TrimEnd(s[..|s| - 1]) else s
  }

  /** r sits at offset a of s with nothing but white space before and after it. */
  predicate SpaceAround(s: string, a: int, r: string)
  {
    0 <= a <= |s| - |r| && r == s[a..a + |r|] &&
    (forall i | 0 <= i < a :: IsSpace(s[i])) &&
    (forall i | a + |r| <= i < |s| :: IsSpace(s[i]))
  }

  /**
   * `trim`: the input with its leading and trailing white space removed.
   * The result is a slice of the input with only white space around it
   * and none at either of its ends, which determines it uniquely.
   */
  function Trim(s: string): (r: string)
    ensures exists a :: SpaceAround(s, a, r)
    ensures r == [] || (!IsSpace(r[0]) && !IsSpace(r[|r| - 1]))
  {
    var t := TrimStart(s);
    var u := TrimEnd(t);
    TrimAround(s);
    assert u == [] || u[0] == t[0];
    u
  }

  /** The two passes together leave a slice with only white space around it. */
  lemma TrimAround(s: string)
    ensures SpaceAround(s, |s| - |TrimStart(s)|, TrimEnd(TrimStart(s)))
  {
    var t := TrimStart(s);
    var u := TrimEnd(t);
    var a := |s| - |t|;
    assert s[a..a + |u|] == t[..|u|];
    forall i | a + |u| <= i < |s|
      ensures IsSpace(s[i])
    {
      assert s[i] == t[i - a];
    }
  }

  /**
   * `Trim`'s contract pins the result down: any slice of s with only white
   * space around it and none at its own ends is `Trim(s)`.
   */
  lemma TrimUnique(s: string, a: int, r: string)
    requires SpaceAround(s, a, r)
    requires r == [] || (!IsSpace(r[0]) && !IsSpace(r[|r| - 1]))
    ensures r == Trim(s)
  {
    var t := Trim(s);
    var b :| SpaceAround(s, b, t);
  }

  /** A string with no space at either end is its own trim. */
  lemma TrimmedIsFixed(s: string)
    requires s == [] || (!IsSpace(s[0]) && !IsSpace(s[|s| - 1]))
    ensures Trim(s) == s
  {
  }

  predicate EndsWithJson(s: string)
  {
    |s| >= 5 && s[|s| - 5..] == ".json"
  }

  /**
   * The download name of `saveModel`: nothing when the trimmed name is
   * empty (the save is refused), else the trimmed name with ".json"
   * appended unless it already ends with it.
   */
  function SaveName(name: string): (r: Option<string>)
    ensures r.None? <==> Trim(name) == []
    ensures r.Some? ==> EndsWithJson(r.value) && (r.value == Trim(name) || r.value == Trim(name) + ".json")
    ensures EndsWithJson(Trim(name)) ==> r == Some(Trim(name))
  {
    var t := Trim(name);
    if t == [] then None
    else if EndsWithJson(t) then Some(t)
    else Some(t + ".json")
  }

  /** Saving under a name `saveModel` produced produces the same name again. */
  lemma SaveNameIdempotent(name: string)
    requires SaveName(name).Some?
    ensures SaveName(SaveName(name).value) == SaveName(name)
  {
    var f := SaveName(name).value;
    var t := Trim(name);
    assert f[0] == t[0];
    assert f[|f| - 1] == 'n' by {
      assert f[|f| - 5..][4] == 'n';
    }
    TrimmedIsFixed(f);
  }

  /** One element of a model file: each field is a number or is missing / not a number. */
  datatype Item = Item(x: Option<real>, y: Option<real>, z: Option<real>, kind: Option<real>)

  /** An element `loadModel` accepts: all four fields numbers, the type one with a material. */
  predicate ValidItem(it: Item)
  {
    it.x.Some? && it.y.Some? && it.z.Some? && it.kind.Some? &&
    IsInt(it.kind.value) && HasMaterial(it.kind.value.Floor)
  }

  function SpotOf(it: Item): Spot
    requires ValidItem(it)
  {
    Spot(it.x.value, it.y.value, it.z.value)
  }

  /** The number of leading elements `loadModel` accepts before the first one that throws. */
  function FirstInvalid(items: seq<Item>): (n: nat)
    ensures n <= |items|
    ensures forall i | 0 <= i < n :: ValidItem(items[i])
    ensures n < |items| ==> !ValidItem(items[n])
  {
    if |items| == 0 || !ValidItem(items[0]) then 0 else 1 + FirstInvalid(items[1..])
  }

  /** The dictionary after the first n elements are added to an empty one; a later element replaces an earlier one at the same spot. */
  function LoadItems(items: seq<Item>, n: nat): map<Spot, int>
    requires n <= |items| && forall i | 0 <= i < n :: ValidItem(items[i])
  {
    if n == 0 then map[]
    else LoadItems(items, n - 1)[SpotOf(items[n - 1]) := items[n - 1].kind.value.Floor]
  }

  /** What the chosen file turned out to hold. */
  datatype ModelFile = NoFile | NotJson | NotArray | Items(items: seq<Item>)

  /**
   * `loadModel`: no file, text that is not JSON or JSON that is not an
   * array leave the dictionary alone; an array clears it and then adds
   * elements in order up to the first invalid one.
   */
  function LoadModelResult(voxels: map<Spot, int>, file: ModelFile): map<Spot, int>
  {
    match file
    case Items(items) => LoadItems(items, FirstInvalid(items))
    case _ => voxels
  }

  /** After loading, a spot holds a voxel exactly when an accepted element names it, with the type of the last such element. */
  lemma {:induction false} LoadItemsAt(items: seq<Item>, n: nat, s: Spot)
    requires n <= |items| && forall i | 0 <= i < n :: ValidItem(items[i])
    ensures s in LoadItems(items, n) <==> exists i | 0 <= i < n :: SpotOf(items[i]) == s
    ensures forall i | 0 <= i < n && SpotOf(items[i]) == s ::
      (forall j | i < j < n :: SpotOf(items[j]) != s) ==> LoadItems(items, n)[s] == items[i].kind.value.Floor
  {
    if n > 0 {
      LoadItemsAt(items, n - 1, s);
    }
  }

  /** Every entry of a loaded dictionary has a material. */
  lemma {:induction false} LoadItemsPlaceable(items: seq<Item>, n: nat)
    requires n <= |items| && forall i | 0 <= i < n :: ValidItem(items[i])
    ensures forall s | s in LoadItems(items, n) :: HasMaterial(LoadItems(items, n)[s])
  {
    if n > 0 {
      LoadItemsPlaceable(items, n - 1);
    }
  }

  /** The element `saveModel` writes for the voxel at s. */
  function ItemOf(s: Spot, kind: int): Item
  {
    Item(Some(s.x), Some(s.y), Some(s.z), Some(kind as real))
  }

  /** A list naming every voxel of the dictionary once, with its type: what `saveModel` writes. */
  predicate Listing(voxels: map<Spot, int>, items: seq<Item>)
  {
    (forall i | 0 <= i < |items| :: ValidItem(items[i]) && SpotOf(items[i]) in voxels && items[i] == ItemOf(SpotOf(items[i]), voxels[SpotOf(items[i])])) &&
    (forall i, j | 0 <= i < j < |items| :: SpotOf(items[i]) != SpotOf(items[j])) &&
    (forall s | s in voxels :: exists i | 0 <= i < |items| :: SpotOf(items[i]) == s)
  }

  /** Loading what was saved gives back the dictionary. */
  lemma LoadAfterSave(voxels: map<Spot, int>, items: seq<Item>, before: map<Spot, int>)
    requires Listing(voxels, items)
    ensures LoadModelResult(before, Items(items)) == voxels
  {
    assert FirstInvalid(items) == |items|;
    var r := LoadItems(items, |items|);
    forall s | s in r || s in voxels
      ensures s in r && s in voxels && r[s] == voxels[s]
    {
      LoadItemsAt(items, |items|, s);
      var i :| 0 <= i < |items| && SpotOf(items[i]) == s;
      assert (ItemOf(s, voxels[s]).kind.value).Floor == voxels[s];
    }
  }

  /** The editor: placed voxels by spot, the cursor and the selected type. */
  class Editor {
    var voxels: map<Spot, int>
    var cursor: Spot
    var selected: int

    /** Every placed voxel has a material, and the cursor is where the key handler can put it. */
    predicate Valid()
      reads this
    {
      (forall s | s in voxels :: HasMaterial(voxels[s])) && Reachable(cursor)
    }

    /** `init`: no voxels, the cursor at (0, 0.5, 0), Grass selected. */
    constructor ()
      ensures Valid()
      ensures voxels == map[] && cursor == Spot(0.0, 0.5, 0.0) && selected == 0
    {
      voxels := map[];
      cursor := Spot(0.0, 0.5, 0.0);
      selected := 0;
    }

    /** `addVoxel` at the cursor. */
    method AddVoxel()
      modifies this
      ensures voxels == Placed(old(voxels), cursor, selected)
      ensures cursor == old(cursor) && selected == old(selected)
      ensures old(Valid()) ==> Valid()
    {
      if cursor !in voxels && HasMaterial(selected) {
        voxels := voxels[cursor := selected];
      }
    }

    /** `removeVoxel` at the cursor. */
    method RemoveVoxel()
      modifies this
      ensures voxels == Removed(old(voxels), cursor)
      ensures cursor == old(cursor) && selected == old(selected)
      ensures old(Valid()) ==> Valid()
    {
      if cursor in voxels {
        voxels := voxels - {cursor};
      }
    }

    /** `cycleBlockType`. */
    method CycleBlockType()
      modifies this
      ensures selected == NextType(old(selected))
      ensures voxels == old(voxels) && cursor == old(cursor)
    {
      var i := IndexOf(CYCLE, selected);
      selected := CYCLE[(i + 1) % |CYCLE|];
    }

    /**
     * `handleKeyPress` for a key named `name`, the camera looking along
     * (fx, fz). An unhandled key changes nothing. Adding where the selected
     * type has no material throws before the cursor is touched. Otherwise
     * the action is taken and the cursor moved, snapped and clamped.
     */
    method HandleKey(name: string, fx: real, fz: real)
      modifies this
      ensures var k := KeyOf(name);
        var threw := k == AddKey && old(cursor) !in old(voxels) && !HasMaterial(old(selected));
        voxels == (if k == AddKey then Placed(old(voxels), old(cursor), old(selected))
                   else if k == RemoveKey then Removed(old(voxels), old(cursor))
                   else old(voxels)) &&
        selected == (if k == CycleKey then NextType(old(selected)) else old(selected)) &&
        cursor == (if k == Other || threw then old(cursor) else CursorAfter(old(cursor), k, fx, fz))
      ensures old(Valid()) ==> Valid()
    {
      var k := KeyOf(name);
      match k {
        case Other => return;
        case AddKey =>
          if cursor !in voxels && !HasMaterial(selected) {
            return;
          }
          AddVoxel();
        case RemoveKey => RemoveVoxel();
        case CycleKey => CycleBlockType();
        case _ =>
      }
      cursor := CursorAfter(cursor, k, fx, fz);
    }

    /**
     * `saveModel(name)`: refused on an empty name; otherwise the download
     * name and one element per voxel whose type a material identifies.
     */
    method SaveModel(name: string) returns (file: Option<string>, items: seq<Item>)
      ensures file == SaveName(name)
      ensures file.None? ==> items == []
      ensures file.Some? && Valid() ==> Listing(voxels, items)
      ensures forall i | 0 <= i < |items| :: ValidItem(items[i]) && SpotOf(items[i]) in voxels
    {
      file := SaveName(name);
      items := [];
      if file.None? {
        return;
      }
      var rest := voxels.Keys;
      ghost var at: map<Spot, nat> := map[];
      while rest != {}
        invariant rest <= voxels.Keys
        invariant forall i | 0 <= i < |items| :: ValidItem(items[i]) && SpotOf(items[i]) in voxels - rest
        invariant forall i | 0 <= i < |items| :: items[i] == ItemOf(SpotOf(items[i]), voxels[SpotOf(items[i])])
        invariant forall i, j | 0 <= i < j < |items| :: SpotOf(items[i]) != SpotOf(items[j])
        invariant forall s | s in voxels && s !in rest && HasMaterial(voxels[s]) :: s in at && at[s] < |items| && SpotOf(items[at[s]]) == s
        decreases rest
      {
        var s :| s in rest;
        if HasMaterial(voxels[s]) {
          var it := ItemOf(s, voxels[s]);
          assert (voxels[s] as real).Floor == voxels[s];
          assert SpotOf(it) == s;
          items := items + [it];
          at := at[s := |items| - 1];
        }
        rest := rest - {s};
      }
      forall s | s in voxels && HasMaterial(voxels[s])
        ensures exists i | 0 <= i < |items| :: SpotOf(items[i]) == s
      {
        assert SpotOf(items[at[s]]) == s;
      }
    }

    /** `loadModel` of a chosen file. */
    method LoadModel(file: ModelFile)
      modifies this
      ensures voxels == LoadModelResult(old(voxels), file)
      ensures cursor == old(cursor) && selected == old(selected)
      ensures old(Valid()) ==> Valid()
    {
      if !file.Items? {
        return;
      }
      var items := file.items;
      voxels := map[];
      var n := 0;
      while n < |items|
        invariant 0 <= n <= FirstInvalid(items)
        invariant voxels == LoadItems(items, n)
        invariant cursor == old(cursor) && selected == old(selected)
      {
        if !ValidItem(items[n]) {
          break;
        }
        voxels := voxels[SpotOf(items[n]) := items[n].kind.value.Floor];
        n := n + 1;
      }
      LoadItemsPlaceable(items, n);
    }
  }
}
