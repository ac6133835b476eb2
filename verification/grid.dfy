/**
 * Integer sample grids.
 *
 * The samplers visit grid points in nested-loop order and give every visited
 * point one vertex, recording the point's key in a map from keys to vertex
 * handles.  This module defines the visiting orders (a full 2-D grid, the
 * boundary shell of a 3-D grid) as sequences of keys, the map the loops fill
 * (`IndexMap`), and a lookup that yields a null handle for a missing key, as
 * `std::map::operator[]` does.
 */
module Grid {

  type Key2 = (int, int)
  type Key3 = (int, int, int)

  /** The default-constructed vertex handle: what a lookup of a key that was never created yields. */
  const NULL_HANDLE: int := -1

  /** Per-axis sample counts of a 3-D grid: axis a runs over 0 .. n_a. */
  datatype Counts = Counts(n0: int, n1: int, n2: int)

  /** No key occurs twice. */
  predicate Distinct<K(==)>(s: seq<K>)
  {
    forall p, q :: 0 <= p < q < |s| ==> s[p] != s[q]
  }

  lemma DistinctConcat<K>(s: seq<K>, t: seq<K>)
    requires Distinct(s) && Distinct(t)
    requires forall x :: x in s ==> x !in t
    ensures Distinct(s + t)
  {
    forall p, q | 0 <= p < q < |s + t|
      ensures (s + t)[p] != (s + t)[q]
    {
      if q < |s| {
      } else if p >= |s| {
        assert (s + t)[p] == t[p - |s|] && (s + t)[q] == t[q - |s|];
      } else {
        assert (s + t)[p] == s[p] && (s + t)[q] == t[q - |s|];
        assert t[q - |s|] in t;
      }
    }
  }

  /** Distributivity, stated once for the counting proofs. */
  lemma MulAddRight(x: int, y: int, w: int)
    ensures (x + y) * w == x * w + y * w
  {
  }

  lemma MulMonotone(x: int, y: int, w: int)
    requires x <= y && w >= 0
    ensures x * w <= y * w
  {
    MulAddRight(x, y - x, w);
  }

  // ---------------------------------------------------------------------
  // Maps from keys to vertex handles
  // ---------------------------------------------------------------------

  /** The map a vertex loop builds when it gives the keys `ks`, in this order,
      the consecutive handles base, base + 1, ... (a later key overwrites an earlier equal one). */
  function IndexMap<K(==)>(base: int, ks: seq<K>): map<K, int>
    decreases |ks|
  {
    if ks == [] then map[] else IndexMap(base, ks[..|ks| - 1])[ks[|ks| - 1] := base + |ks| - 1]
  }

  /** Appending one key to the visiting order adds exactly that key, with the next handle. */
  lemma IndexMapAppend<K>(base: int, ks: seq<K>, k: K)
    ensures IndexMap(base, ks + [k]) == IndexMap(base, ks)[k := base + |ks|]
  {
    assert (ks + [k])[..|ks|] == ks;
  }

  /** The keys of the map are exactly the visited keys. */
  lemma {:induction false} IndexMapDomain<K>(base: int, ks: seq<K>, k: K)
    ensures k in IndexMap(base, ks) <==> k in ks
    decreases |ks|
  {
    if ks != [] {
      var init := ks[..|ks| - 1];
      assert ks == init + [ks[|ks| - 1]];
      IndexMapDomain(base, init, k);
    }
  }

  /** When no key repeats, the p-th visited key is mapped to handle base + p. */
  lemma {:induction false} IndexMapAt<K>(base: int, ks: seq<K>, p: int)
    requires Distinct(ks)
    requires 0 <= p < |ks|
    ensures ks[p] in IndexMap(base, ks)
    ensures IndexMap(base, ks)[ks[p]] == base + p
    decreases |ks|
  {
    var init := ks[..|ks| - 1];
    if p < |ks| - 1 {
      assert init[p] == ks[p];
      assert ks[p] != ks[|ks| - 1];
      IndexMapAt(base, init, p);
    }
  }

  /** Every handle in the map lies in base .. base + |ks| - 1. */
  lemma {:induction false} IndexMapRange<K>(base: int, ks: seq<K>, k: K)
    requires k in IndexMap(base, ks)
    ensures base <= IndexMap(base, ks)[k] < base + |ks|
    decreases |ks|
  {
    var init := ks[..|ks| - 1];
    if k != ks[|ks| - 1] {
      IndexMapRange(base, init, k);
    }
  }

  /** A lookup: the recorded handle, or the null handle for a key never created. */
  function Lookup<K(==)>(m: map<K, int>, k: K): (h: int)
    ensures k in m ==> h == m[k]
    ensures k !in m ==> h == NULL_HANDLE
  {
    if k in m then m[k] else NULL_HANDLE
  }

  // ---------------------------------------------------------------------
  // The full 2-D grid
  // ---------------------------------------------------------------------

  /** Keys (i, 0), ..., (i, jEnd - 1). */
  function GridRow(i: int, jEnd: int): seq<Key2>
    decreases jEnd
  {
    if jEnd <= 0 then [] else GridRow(i, jEnd - 1) + [(i, jEnd - 1)]
  }

  /** Rows 0 .. iEnd - 1 of the grid whose second axis runs over 0 .. n1:
      the visiting order of the surface vertex loop (i-major, j-minor). */
  function GridKeys(iEnd: int, n1: int): seq<Key2>
    decreases iEnd
  {
    if iEnd <= 0 then [] else GridKeys(iEnd - 1, n1) + GridRow(iEnd - 1, n1 + 1)
  }

  lemma {:induction false} GridRowLength(i: int, jEnd: int)
    requires jEnd >= 0
    ensures |GridRow(i, jEnd)| == jEnd
    decreases jEnd
  {
    if jEnd > 0 {
      GridRowLength(i, jEnd - 1);
    }
  }

  lemma {:induction false} GridRowAt(i: int, jEnd: int, b: int)
    requires 0 <= b < jEnd
    ensures |GridRow(i, jEnd)| == jEnd && GridRow(i, jEnd)[b] == (i, b)
    decreases jEnd
  {
    GridRowLength(i, jEnd - 1);
    if b < jEnd - 1 {
      GridRowAt(i, jEnd - 1, b);
    }
  }

  lemma {:induction false} GridRowMember(i: int, jEnd: int, k: Key2)
    ensures k in GridRow(i, jEnd) <==> k.0 == i && 0 <= k.1 < jEnd
    decreases jEnd
  {
    if jEnd > 0 {
      GridRowMember(i, jEnd - 1, k);
      assert k in GridRow(i, jEnd) <==> k in GridRow(i, jEnd - 1) || k == (i, jEnd - 1);
    }
  }

  lemma {:induction false} GridRowDistinct(i: int, jEnd: int)
    ensures Distinct(GridRow(i, jEnd))
    decreases jEnd
  {
    if jEnd > 0 {
      var s, t := GridRow(i, jEnd - 1), [(i, jEnd - 1)];
      GridRowDistinct(i, jEnd - 1);
      forall x | x in s
        ensures x !in t
      {
        GridRowMember(i, jEnd - 1, x);
      }
      DistinctConcat(s, t);
      assert GridRow(i, jEnd) == s + t;
    }
  }

  /** The grid keys are exactly the points (a, b) with 0 <= a < iEnd and
      0 <= b <= n1, each once. */
  lemma GridKeysFacts(iEnd: int, n1: int)
    requires iEnd >= 0 && n1 >= 0
    ensures |GridKeys(iEnd, n1)| == iEnd * (n1 + 1)
    ensures Distinct(GridKeys(iEnd, n1))
    ensures forall k :: k in GridKeys(iEnd, n1) <==> 0 <= k.0 < iEnd && 0 <= k.1 <= n1
  {
    GridKeysCount(iEnd, n1);
    GridKeysDistinct(iEnd, n1);
    forall k
      ensures k in GridKeys(iEnd, n1) <==> 0 <= k.0 < iEnd && 0 <= k.1 <= n1
    {
      GridKeysMember(iEnd, n1, k);
    }
  }

  lemma {:induction false} GridKeysCount(iEnd: int, n1: int)
    requires iEnd >= 0 && n1 >= 0
    ensures |GridKeys(iEnd, n1)| == iEnd * (n1 + 1)
    decreases iEnd
  {
    if iEnd > 0 {
      GridKeysCount(iEnd - 1, n1);
      GridRowLength(iEnd - 1, n1 + 1);
      MulAddRight(iEnd - 1, 1, n1 + 1);
    }
  }

  lemma {:induction false} GridKeysMember(iEnd: int, n1: int, k: Key2)
    ensures k in GridKeys(iEnd, n1) <==> 0 <= k.0 < iEnd && 0 <= k.1 <= n1
    decreases iEnd
  {
    if iEnd > 0 {
      GridKeysMember(iEnd - 1, n1, k);
      GridKeysSplit(iEnd, n1, k);
      GridKeysMemberStep(iEnd, n1, k);
    }
  }

  lemma GridKeysSplit(iEnd: int, n1: int, k: Key2)
    requires iEnd > 0
    ensures k in GridKeys(iEnd, n1) <==> k in GridKeys(iEnd - 1, n1) || k in GridRow(iEnd - 1, n1 + 1)
  {
  }

  lemma GridKeysMemberStep(iEnd: int, n1: int, k: Key2)
    requires iEnd > 0
    requires k in GridKeys(iEnd - 1, n1) <==> 0 <= k.0 < iEnd - 1 && 0 <= k.1 <= n1
    requires k in GridKeys(iEnd, n1) <==> k in GridKeys(iEnd - 1, n1) || k in GridRow(iEnd - 1, n1 + 1)
    ensures k in GridKeys(iEnd, n1) <==> 0 <= k.0 < iEnd && 0 <= k.1 <= n1
  {
    GridRowMember(iEnd - 1, n1 + 1, k);
  }

  lemma {:induction false} GridKeysDistinct(iEnd: int, n1: int)
    ensures Distinct(GridKeys(iEnd, n1))
    decreases iEnd
  {
    if iEnd > 0 {
      GridKeysDistinct(iEnd - 1, n1);
      GridKeysDistinctStep(iEnd, n1);
    }
  }

  lemma GridKeysDistinctStep(iEnd: int, n1: int)
    requires iEnd > 0
    requires Distinct(GridKeys(iEnd - 1, n1))
    ensures Distinct(GridKeys(iEnd, n1))
  {
    var s, t := GridKeys(iEnd - 1, n1), GridRow(iEnd - 1, n1 + 1);
    GridRowDistinct(iEnd - 1, n1 + 1);
    GridKeysDisjoint(iEnd - 1, n1);
    DistinctConcat(s, t);
    assert GridKeys(iEnd, n1) == s + t;
  }

  /** Row i shares no key with the rows before it. */
  lemma GridKeysDisjoint(i: int, n1: int)
    ensures forall x :: x in GridKeys(i, n1) ==> x !in GridRow(i, n1 + 1)
  {
    forall x | x in GridKeys(i, n1)
      ensures x !in GridRow(i, n1 + 1)
    {
      GridKeysDisjointAt(i, n1, x);
    }
  }

  lemma GridKeysDisjointAt(i: int, n1: int, x: Key2)
    requires x in GridKeys(i, n1)
    ensures x !in GridRow(i, n1 + 1)
  {
    GridKeysMember(i, n1, x);
    GridRowMember(i, n1 + 1, x);
  }

  lemma {:induction false} GridKeyAt(iEnd: int, n1: int, a: int, b: int)
    requires n1 >= 0 && 0 <= a < iEnd && 0 <= b <= n1
    ensures 0 <= a * (n1 + 1) + b < |GridKeys(iEnd, n1)|
    ensures GridKeys(iEnd, n1)[a * (n1 + 1) + b] == (a, b)
    decreases iEnd
  {
    var w := n1 + 1;
    var prefix := GridKeys(iEnd - 1, n1);
    var row := GridRow(iEnd - 1, w);
    GridKeysCount(iEnd - 1, n1);
    GridKeysCount(iEnd, n1);
    assert GridKeys(iEnd, n1) == prefix + row;
    if a < iEnd - 1 {
      GridKeyAt(iEnd - 1, n1, a, b);
    } else {
      GridRowAt(iEnd - 1, w, b);
      assert a * w + b == |prefix| + b;
    }
  }

  /** Starting from `base` handles already in the mesh, grid point (a, b) of the
      surface sampler gets handle base + a * (n1 + 1) + b. */
  lemma GridHandle(base: int, n0: int, n1: int, a: int, b: int)
    requires n0 >= 0 && n1 >= 0 && 0 <= a <= n0 && 0 <= b <= n1
    ensures (a, b) in IndexMap(base, GridKeys(n0 + 1, n1))
    ensures IndexMap(base, GridKeys(n0 + 1, n1))[(a, b)] == base + a * (n1 + 1) + b
  {
    GridKeysFacts(n0 + 1, n1);
    GridKeyAt(n0 + 1, n1, a, b);
    IndexMapAt(base, GridKeys(n0 + 1, n1), a * (n1 + 1) + b);
  }

  // ---------------------------------------------------------------------
  // The boundary shell of a 3-D grid
  // ---------------------------------------------------------------------

  /** Some coordinate of the key is 0 or equals its axis count. */
  predicate OnShell(k: Key3, c: Counts)
  {
    k.0 == 0 || k.0 == c.n0 || k.1 == 0 || k.1 == c.n1 || k.2 == 0 || k.2 == c.n2
  }

  /** Every coordinate of the key lies in 0 .. its axis count. */
  predicate InBox(k: Key3, c: Counts)
  {
    0 <= k.0 <= c.n0 && 0 <= k.1 <= c.n1 && 0 <= k.2 <= c.n2
  }

  /** Shell keys (i, j, k) for k = 0 .. kEnd - 1, in increasing k. */
  function ShellRow(i: int, j: int, kEnd: int, c: Counts): seq<Key3>
    decreases kEnd
  {
    if kEnd <= 0 then []
    else ShellRow(i, j, kEnd - 1, c) + (if OnShell((i, j, kEnd - 1), c) then [(i, j, kEnd - 1)] else [])
  }

  /** Shell keys (i, j, k) for j = 0 .. jEnd - 1 and k = 0 .. n2. */
  function ShellPlane(i: int, jEnd: int, c: Counts): seq<Key3>
    decreases jEnd
  {
    if jEnd <= 0 then [] else ShellPlane(i, jEnd - 1, c) + ShellRow(i, jEnd - 1, c.n2 + 1, c)
  }

  /** Shell keys with i = 0 .. iEnd - 1, j = 0 .. n1 and k = 0 .. n2. */
  function ShellBlock(iEnd: int, c: Counts): seq<Key3>
    decreases iEnd
  {
    if iEnd <= 0 then [] else ShellBlock(iEnd - 1, c) + ShellPlane(iEnd - 1, c.n1 + 1, c)
  }

  /** The visiting order of the volume vertex loop: every boundary point of the
      grid, in (i, j, k) lexicographic order. */
  function ShellKeys(c: Counts): seq<Key3>
  {
    ShellBlock(c.n0 + 1, c)
  }

  lemma {:induction false} ShellRowMember(i: int, j: int, kEnd: int, c: Counts, k: Key3)
    ensures k in ShellRow(i, j, kEnd, c) <==> k.0 == i && k.1 == j && 0 <= k.2 < kEnd && OnShell(k, c)
    decreases kEnd
  {
    if kEnd > 0 {
      ShellRowMember(i, j, kEnd - 1, c, k);
      var last := if OnShell((i, j, kEnd - 1), c) then [(i, j, kEnd - 1)] else [];
      assert k in ShellRow(i, j, kEnd, c) <==> k in ShellRow(i, j, kEnd - 1, c) || k in last;
    }
  }

  lemma {:induction false} ShellRowDistinct(i: int, j: int, kEnd: int, c: Counts)
    ensures Distinct(ShellRow(i, j, kEnd, c))
    decreases kEnd
  {
    if kEnd > 0 {
      var s := ShellRow(i, j, kEnd - 1, c);
      var t := if OnShell((i, j, kEnd - 1), c) then [(i, j, kEnd - 1)] else [];
      ShellRowDistinct(i, j, kEnd - 1, c);
      forall x | x in s
        ensures x !in t
      {
        ShellRowMember(i, j, kEnd - 1, c, x);
      }
      DistinctConcat(s, t);
      assert ShellRow(i, j, kEnd, c) == s + t;
    }
  }

  lemma {:induction false} ShellPlaneMember(i: int, jEnd: int, c: Counts, k: Key3)
    ensures k in ShellPlane(i, jEnd, c) <==> k.0 == i && 0 <= k.1 < jEnd && 0 <= k.2 <= c.n2 && OnShell(k, c)
    decreases jEnd
  {
    if jEnd > 0 {
      ShellPlaneMember(i, jEnd - 1, c, k);
      ShellPlaneSplit(i, jEnd, c, k);
      ShellPlaneMemberStep(i, jEnd, c, k);
    }
  }

  lemma ShellPlaneSplit(i: int, jEnd: int, c: Counts, k: Key3)
    requires jEnd > 0
    ensures k in ShellPlane(i, jEnd, c) <==> k in ShellPlane(i, jEnd - 1, c) || k in ShellRow(i, jEnd - 1, c.n2 + 1, c)
  {
  }

  lemma ShellPlaneMemberStep(i: int, jEnd: int, c: Counts, k: Key3)
    requires jEnd > 0
    requires k in ShellPlane(i, jEnd - 1, c) <==> k.0 == i && 0 <= k.1 < jEnd - 1 && 0 <= k.2 <= c.n2 && OnShell(k, c)
    requires k in ShellPlane(i, jEnd, c) <==> k in ShellPlane(i, jEnd - 1, c) || k in ShellRow(i, jEnd - 1, c.n2 + 1, c)
    ensures k in ShellPlane(i, jEnd, c) <==> k.0 == i && 0 <= k.1 < jEnd && 0 <= k.2 <= c.n2 && OnShell(k, c)
  {
    ShellRowMember(i, jEnd - 1, c.n2 + 1, c, k);
  }

  lemma {:induction false} ShellPlaneDistinct(i: int, jEnd: int, c: Counts)
    ensures Distinct(ShellPlane(i, jEnd, c))
    decreases jEnd
  {
    if jEnd > 0 {
      ShellPlaneDistinct(i, jEnd - 1, c);
      ShellPlaneDistinctStep(i, jEnd, c);
    }
  }

  lemma ShellPlaneDistinctStep(i: int, jEnd: int, c: Counts)
    requires jEnd > 0
    requires Distinct(ShellPlane(i, jEnd - 1, c))
    ensures Distinct(ShellPlane(i, jEnd, c))
  {
    var s, t := ShellPlane(i, jEnd - 1, c), ShellRow(i, jEnd - 1, c.n2 + 1, c);
    ShellRowDistinct(i, jEnd - 1, c.n2 + 1, c);
    ShellPlaneDisjoint(i, jEnd - 1, c);
    DistinctConcat(s, t);
    assert ShellPlane(i, jEnd, c) == s + t;
  }

  /** Row j of a plane shares no key with the rows before it. */
  lemma ShellPlaneDisjoint(i: int, j: int, c: Counts)
    ensures forall x :: x in ShellPlane(i, j, c) ==> x !in ShellRow(i, j, c.n2 + 1, c)
  {
    forall x | x in ShellPlane(i, j, c)
      ensures x !in ShellRow(i, j, c.n2 + 1, c)
    {
      ShellPlaneDisjointAt(i, j, c, x);
    }
  }

  lemma ShellPlaneDisjointAt(i: int, j: int, c: Counts, x: Key3)
    requires x in ShellPlane(i, j, c)
    ensures x !in ShellRow(i, j, c.n2 + 1, c)
  {
    ShellPlaneMember(i, j, c, x);
    ShellRowMember(i, j, c.n2 + 1, c, x);
  }

  lemma {:induction false} ShellBlockMember(iEnd: int, c: Counts, k: Key3)
    ensures k in ShellBlock(iEnd, c) <==> 0 <= k.0 < iEnd && 0 <= k.1 <= c.n1 && 0 <= k.2 <= c.n2 && OnShell(k, c)
    decreases iEnd
  {
    if iEnd > 0 {
      ShellBlockMember(iEnd - 1, c, k);
      ShellBlockSplit(iEnd, c, k);
      ShellBlockMemberStep(iEnd, c, k);
    }
  }

  lemma ShellBlockSplit(iEnd: int, c: Counts, k: Key3)
    requires iEnd > 0
    ensures k in ShellBlock(iEnd, c) <==> k in ShellBlock(iEnd - 1, c) || k in ShellPlane(iEnd - 1, c.n1 + 1, c)
  {
  }

  lemma ShellBlockMemberStep(iEnd: int, c: Counts, k: Key3)
    requires iEnd > 0
    requires k in ShellBlock(iEnd - 1, c) <==> 0 <= k.0 < iEnd - 1 && 0 <= k.1 <= c.n1 && 0 <= k.2 <= c.n2 && OnShell(k, c)
    requires k in ShellBlock(iEnd, c) <==> k in ShellBlock(iEnd - 1, c) || k in ShellPlane(iEnd - 1, c.n1 + 1, c)
    ensures k in ShellBlock(iEnd, c) <==> 0 <= k.0 < iEnd && 0 <= k.1 <= c.n1 && 0 <= k.2 <= c.n2 && OnShell(k, c)
  {
    ShellPlaneMember(iEnd - 1, c.n1 + 1, c, k);
  }

  lemma {:induction false} ShellBlockDistinct(iEnd: int, c: Counts)
    ensures Distinct(ShellBlock(iEnd, c))
    decreases iEnd
  {
    if iEnd > 0 {
      ShellBlockDistinct(iEnd - 1, c);
      ShellBlockDistinctStep(iEnd, c);
    }
  }

  lemma ShellBlockDistinctStep(iEnd: int, c: Counts)
    requires iEnd > 0
    requires Distinct(ShellBlock(iEnd - 1, c))
    ensures Distinct(ShellBlock(iEnd, c))
  {
    var s, t := ShellBlock(iEnd - 1, c), ShellPlane(iEnd - 1, c.n1 + 1, c);
    ShellPlaneDistinct(iEnd - 1, c.n1 + 1, c);
    ShellBlockDisjoint(iEnd - 1, c);
    DistinctConcat(s, t);
    assert ShellBlock(iEnd, c) == s + t;
  }

  /** Plane i of a block shares no key with the planes before it. */
  lemma ShellBlockDisjoint(i: int, c: Counts)
    ensures forall x :: x in ShellBlock(i, c) ==> x !in ShellPlane(i, c.n1 + 1, c)
  {
    forall x | x in ShellBlock(i, c)
      ensures x !in ShellPlane(i, c.n1 + 1, c)
    {
      ShellBlockDisjointAt(i, c, x);
    }
  }

  lemma ShellBlockDisjointAt(i: int, c: Counts, x: Key3)
    requires x in ShellBlock(i, c)
    ensures x !in ShellPlane(i, c.n1 + 1, c)
  {
    ShellBlockMember(i, c, x);
    ShellPlaneMember(i, c.n1 + 1, c, x);
  }

  /** A key is visited by the volume vertex loop iff it lies in the grid and on
      its boundary, and no key is visited twice: each boundary point gets
      exactly one vertex, interior points get none. */
  lemma ShellKeysExactlyBoundary(c: Counts)
    ensures Distinct(ShellKeys(c))
    ensures forall k :: k in ShellKeys(c) <==> InBox(k, c) && OnShell(k, c)
  {
    ShellBlockDistinct(c.n0 + 1, c);
    forall k
      ensures k in ShellKeys(c) <==> InBox(k, c) && OnShell(k, c)
    {
      ShellBlockMember(c.n0 + 1, c, k);
    }
  }

  // ----- counting the shell ---------------------------------------------

  /** A row whose (i, j) already lies on the boundary keeps every k. */
  lemma {:induction false} BoundaryRowCount(i: int, j: int, kEnd: int, c: Counts)
    requires i == 0 || i == c.n0 || j == 0 || j == c.n1
    requires kEnd >= 0
    ensures |ShellRow(i, j, kEnd, c)| == kEnd
    decreases kEnd
  {
    if kEnd > 0 {
      BoundaryRowCount(i, j, kEnd - 1, c);
    }
  }

  /** A row through the interior of the (i, j) rectangle keeps only k = 0 and k = n2. */
  lemma {:induction false} InteriorRowCount(i: int, j: int, kEnd: int, c: Counts)
    requires !(i == 0 || i == c.n0 || j == 0 || j == c.n1)
    requires c.n2 >= 1 && 0 <= kEnd <= c.n2 + 1
    ensures |ShellRow(i, j, kEnd, c)| == (if kEnd >= 1 then 1 else 0) + (if kEnd == c.n2 + 1 then 1 else 0)
    decreases kEnd
  {
    if kEnd > 0 {
      InteriorRowCount(i, j, kEnd - 1, c);
    }
  }

  lemma {:induction false} BoundaryPlaneCount(i: int, jEnd: int, c: Counts)
    requires i == 0 || i == c.n0
    requires jEnd >= 0 && c.n2 >= 0
    ensures |ShellPlane(i, jEnd, c)| == jEnd * (c.n2 + 1)
    decreases jEnd
  {
    if jEnd > 0 {
      BoundaryPlaneCount(i, jEnd - 1, c);
      BoundaryRowCount(i, jEnd - 1, c.n2 + 1, c);
      assert (jEnd - 1) * (c.n2 + 1) + (c.n2 + 1) == jEnd * (c.n2 + 1);
    }
  }

  lemma {:induction false} InteriorPlaneCount(i: int, jEnd: int, c: Counts)
    requires 0 < i < c.n0
    requires c.n1 >= 1 && c.n2 >= 1 && 0 <= jEnd <= c.n1 + 1
    ensures |ShellPlane(i, jEnd, c)| == 2 * jEnd + (c.n2 - 1) * ((if jEnd >= 1 then 1 else 0) + (if jEnd == c.n1 + 1 then 1 else 0))
    decreases jEnd
  {
    if jEnd > 0 {
      var j := jEnd - 1;
      InteriorPlaneCount(i, j, c);
      if j == 0 || j == c.n1 {
        BoundaryRowCount(i, j, c.n2 + 1, c);
      } else {
        InteriorRowCount(i, j, c.n2 + 1, c);
      }
    }
  }

  /** How many of the first iEnd values of axis 0 lie on the boundary (0 or n0). */
  function BoundaryPrefix(iEnd: int, n0: int): int
  {
    (if iEnd >= 1 then 1 else 0) + (if iEnd == n0 + 1 then 1 else 0)
  }

  lemma {:induction false} BlockCount(iEnd: int, c: Counts)
    requires c.n0 >= 1 && c.n1 >= 1 && c.n2 >= 1 && 0 <= iEnd <= c.n0 + 1
    ensures |ShellBlock(iEnd, c)| ==
      BoundaryPrefix(iEnd, c.n0) * ((c.n1 + 1) * (c.n2 + 1)) + (iEnd - BoundaryPrefix(iEnd, c.n0)) * (2 * c.n1 + 2 * c.n2)
    decreases iEnd
  {
    if iEnd > 0 {
      BlockCount(iEnd - 1, c);
      BlockCountStep(iEnd, c);
    }
  }

  lemma BlockCountStep(iEnd: int, c: Counts)
    requires c.n0 >= 1 && c.n1 >= 1 && c.n2 >= 1 && 0 < iEnd <= c.n0 + 1
    requires |ShellBlock(iEnd - 1, c)| ==
      BoundaryPrefix(iEnd - 1, c.n0) * ((c.n1 + 1) * (c.n2 + 1)) + (iEnd - 1 - BoundaryPrefix(iEnd - 1, c.n0)) * (2 * c.n1 + 2 * c.n2)
    ensures |ShellBlock(iEnd, c)| ==
      BoundaryPrefix(iEnd, c.n0) * ((c.n1 + 1) * (c.n2 + 1)) + (iEnd - BoundaryPrefix(iEnd, c.n0)) * (2 * c.n1 + 2 * c.n2)
  {
    var i := iEnd - 1;
    var boundary := i == 0 || i == c.n0;
    if boundary {
      BoundaryPlaneCount(i, c.n1 + 1, c);
    } else {
      InteriorPlaneCount(i, c.n1 + 1, c);
    }
    BlockCountArith(|ShellBlock(iEnd, c)|, |ShellBlock(i, c)|, |ShellPlane(i, c.n1 + 1, c)|,
                    i, BoundaryPrefix(i, c.n0), BoundaryPrefix(iEnd, c.n0), boundary,
                    (c.n1 + 1) * (c.n2 + 1), 2 * c.n1 + 2 * c.n2);
  }

  /** The arithmetic of one BlockCount step, over plain integers. */
  lemma BlockCountArith(total: int, below: int, plane: int, i: int, bp: int, bp': int, boundary: bool, full: int, ring: int)
    requires total == below + plane
    requires below == bp * full + (i - bp) * ring
    requires boundary ==> plane == full && bp' == bp + 1
    requires !boundary ==> plane == ring && bp' == bp
    ensures total == bp' * full + (i + 1 - bp') * ring
  {
    if boundary {
      assert bp' * full == bp * full + full;
    } else {
      assert (i + 1 - bp) * ring == (i - bp) * ring + ring;
    }
  }

  /** The volume vertex loop creates (n0+1)(n1+1)(n2+1) - (n0-1)(n1-1)(n2-1)
      vertices: all grid points minus the strictly interior ones. */
  lemma ShellKeysCount(c: Counts)
    requires c.n0 >= 1 && c.n1 >= 1 && c.n2 >= 1
    ensures |ShellKeys(c)| == (c.n0 + 1) * (c.n1 + 1) * (c.n2 + 1) - (c.n0 - 1) * (c.n1 - 1) * (c.n2 - 1)
  {
    BlockCount(c.n0 + 1, c);
    assert BoundaryPrefix(c.n0 + 1, c.n0) == 2;
    ShellCountArith(c.n0, c.n1, c.n2);
  }

  /** Grid points minus interior points, as two full end planes plus n0 - 1 rings. */
  lemma ShellCountArith(a: int, b: int, d: int)
    ensures (a + 1) * (b + 1) * (d + 1) - (a - 1) * (b - 1) * (d - 1) == 2 * ((b + 1) * (d + 1)) + (a - 1) * (2 * b + 2 * d)
  {
    calc {
      (a + 1) * (b + 1) * (d + 1) - (a - 1) * (b - 1) * (d - 1);
      (a * b + a + b + 1) * (d + 1) - (a * b - a - b + 1) * (d - 1);
      2 * (a * b) + 2 * (a * d) + 2 * (b * d) + 2;
      2 * ((b + 1) * (d + 1)) + (a - 1) * (2 * b + 2 * d);
    }
  }
}
