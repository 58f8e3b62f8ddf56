// The dense side of the linear-solver test driver (main.cpp of the
// linear-solvers test): `build_matrix_block` registers the full n x n
// pattern, copies the entries read from a file into a dense n x n array and
// the right-hand side into an array of n values; `testPrint` compares an
// outcome with the expected one.

module SolverTestDriver {
  import opened MatrixReader

  // ---------------------------------------------------------------------------
  // The sparsity pattern

  /** The cells (r, 0) .. (r, n-1) of row r. */
  function PatternRow(n: nat, r: nat): (cells: seq<(nat, nat)>)
    ensures |cells| == n
    ensures forall c :: 0 <= c < n ==> cells[c] == (r, c)
  {
    seq(n, c requires 0 <= c < n => (r, c))
  }

  /** The cells of rows 0 .. rows-1 of an n-column matrix, row after row. */
  function RowMajor(n: nat, rows: nat): seq<(nat, nat)>
    decreases rows
  {
    if rows == 0 then [] else RowMajor(n, rows - 1) + PatternRow(n, rows - 1)
  }

  /** The first `rows` rows list each cell (i, j) with i < rows and j < n, and nothing else, once each. */
  lemma {:induction false} RowMajorCells(n: nat, rows: nat)
    ensures |RowMajor(n, rows)| == rows * n
    ensures forall i: nat, j: nat :: (i, j) in RowMajor(n, rows) <==> i < rows && j < n
    ensures forall p, q :: 0 <= p < q < |RowMajor(n, rows)| ==> RowMajor(n, rows)[p] != RowMajor(n, rows)[q]
    decreases rows
  {
    if rows > 0 {
      RowMajorCells(n, rows - 1);
      var front, row := RowMajor(n, rows - 1), PatternRow(n, rows - 1);
      assert RowMajor(n, rows) == front + row;
      forall i: nat, j: nat
        ensures (i, j) in front + row <==> i < rows && j < n
      {
        if i == rows - 1 && j < n {
          assert row[j] == (i, j);
        }
      }
      forall p, q | 0 <= p < q < |front + row|
        ensures (front + row)[p] != (front + row)[q]
      {
        if p < |front| && q >= |front| {
          assert (front + row)[p] in front;
        }
      }
    }
  }

  /** `matrix->pre_add_ij(i, j)` for i and j from 0 to n-1: the calls, in order. */
  method DensePattern(n: nat) returns (cells: seq<(nat, nat)>)
    ensures cells == RowMajor(n, n)
  {
    cells := [];
    for i := 0 to n
      invariant cells == RowMajor(n, i)
    {
      for j := 0 to n
        invariant cells == RowMajor(n, i) + PatternRow(n, i)[..j]
      {
        cells := cells + [(i, j)];
        assert PatternRow(n, i)[..j + 1] == PatternRow(n, i)[..j] + [(i, j)];
      }
      assert PatternRow(n, i)[..n] == PatternRow(n, i);
    }
  }

  /** `rows` and `cols`: index i at position i, for i from 0 to n-1. */
  method Indices(n: nat) returns (idx: array<int>)
    ensures fresh(idx) && idx.Length == n
    ensures forall i :: 0 <= i < n ==> idx[i] == i
  {
    idx := new int[n];
    for i := 0 to n
      invariant forall x :: 0 <= x < i ==> idx[x] == x
    {
      idx[i] := i;
    }
  }

  /** `u_rows[i] = rows[i] >= 0 ? rows[i] : 0`: the row indices clamped at 0. */
  method ClampedRows(rows: array<int>) returns (uRows: array<nat>)
    ensures fresh(uRows) && uRows.Length == rows.Length
    ensures forall i :: 0 <= i < rows.Length ==> uRows[i] == if rows[i] >= 0 then rows[i] else 0
  {
    uRows := new nat[rows.Length];
    for i := 0 to rows.Length
      invariant forall x :: 0 <= x < i ==> uRows[x] == if rows[x] >= 0 then rows[x] else 0
    {
      uRows[i] := if rows[i] >= 0 then rows[i] else 0;
    }
  }

  /**
   * The index arrays `build_matrix_block` hands to the matrix and the vector:
   * `rows`, `cols` and the clamped `u_rows`. On these indices the clamp changes
   * nothing, so all three list 0 .. n-1.
   */
  method BlockIndices(n: nat) returns (rows: array<int>, cols: array<int>, uRows: array<nat>)
    ensures fresh(rows) && fresh(cols) && fresh(uRows)
    ensures rows.Length == n && cols.Length == n && uRows.Length == n
    ensures forall i :: 0 <= i < n ==> rows[i] == i && cols[i] == i && uRows[i] == i
  {
    cols := Indices(n);
    rows := Indices(n);
    uRows := ClampedRows(rows);
  }

  // ---------------------------------------------------------------------------
  // The dense copies

  /** `keys` lists the keys of `m` in ascending order: the order a `std::map` iterator visits them. */
  ghost predicate KeyOrder<V>(m: map<nat, V>, keys: seq<nat>)
  {
    && (forall p, q :: 0 <= p < q < |keys| ==> keys[p] < keys[q])
    && (forall k :: k in m <==> k in keys)
  }

  /** The entry `e` is at cell (i, j). */
  predicate At<S>(e: Entry<S>, i: int, j: int)
  {
    e.m == i && e.n == j
  }

  /**
   * The value cell (i, j) holds once the entries under `keys` are written in
   * turn, starting from `d`: the value of the last entry at (i, j), or `d`.
   */
  function LastWrite<S>(mat: map<nat, Entry<S>>, keys: seq<nat>, i: int, j: int, d: S): S
    requires forall t :: 0 <= t < |keys| ==> keys[t] in mat
    decreases |keys|
  {
    if keys == [] then d
    else
      var e := mat[keys[|keys| - 1]];
      if At(e, i, j) then e.value else LastWrite(mat, keys[..|keys| - 1], i, j, d)
  }

  /** When no entry listed in `keys` is at (i, j), the cell keeps its value. */
  lemma {:induction false} LastWriteUntouched<S>(mat: map<nat, Entry<S>>, keys: seq<nat>, i: int, j: int, d: S)
    requires forall t :: 0 <= t < |keys| ==> keys[t] in mat
    requires forall t :: 0 <= t < |keys| ==> !At(mat[keys[t]], i, j)
    ensures LastWrite(mat, keys, i, j, d) == d
    decreases |keys|
  {
    if keys != [] {
      LastWriteUntouched(mat, keys[..|keys| - 1], i, j, d);
    }
  }

  /** The entry at position t of `keys` is the one that stays when no later position is at the same cell. */
  lemma {:induction false} LastWriteIsLatest<S>(mat: map<nat, Entry<S>>, keys: seq<nat>, i: int, j: int, d: S, t: nat)
    requires forall x :: 0 <= x < |keys| ==> keys[x] in mat
    requires t < |keys| && At(mat[keys[t]], i, j)
    requires forall x :: t < x < |keys| ==> !At(mat[keys[x]], i, j)
    ensures LastWrite(mat, keys, i, j, d) == mat[keys[t]].value
    decreases |keys|
  {
    if t < |keys| - 1 {
      LastWriteIsLatest(mat, keys[..|keys| - 1], i, j, d, t);
    }
  }

  /**
   * In the iteration order of the map, the cell (i, j) ends with the value of
   * the entry at (i, j) under the largest key, and keeps its value when no
   * entry is at (i, j).
   */
  lemma {:induction false} LargestKeyWins<S>(mat: map<nat, Entry<S>>, keys: seq<nat>, i: int, j: int, d: S)
    requires KeyOrder(mat, keys)
    ensures (forall k :: k in mat ==> !At(mat[k], i, j)) ==> LastWrite(mat, keys, i, j, d) == d
    ensures forall k :: k in mat && At(mat[k], i, j) && (forall k' :: k' in mat && k < k' ==> !At(mat[k'], i, j))
                ==> LastWrite(mat, keys, i, j, d) == mat[k].value
  {
    assert forall t :: 0 <= t < |keys| ==> keys[t] in mat;
    if forall k :: k in mat ==> !At(mat[k], i, j) {
      LastWriteUntouched(mat, keys, i, j, d);
    }
    forall k | k in mat && At(mat[k], i, j) && (forall k' :: k' in mat && k < k' ==> !At(mat[k'], i, j))
      ensures LastWrite(mat, keys, i, j, d) == mat[k].value
    {
      var t :| 0 <= t < |keys| && keys[t] == k;
      forall x | t < x < |keys|
        ensures !At(mat[keys[x]], i, j)
      {
        assert k < keys[x] && keys[x] in mat;
      }
      LastWriteIsLatest(mat, keys, i, j, d, t);
    }
  }

  /**
   * `mat[me.m][me.n] = me.value` for each entry of the map, in key order,
   * into an n x n array whose prior contents are unknown.
   */
  method FillDense<S>(a: array2<S>, mat: map<nat, Entry<S>>, keys: seq<nat>)
    requires KeyOrder(mat, keys)
    requires forall k :: k in mat ==> 0 <= mat[k].m < a.Length0 && 0 <= mat[k].n < a.Length1
    modifies a
    ensures forall i, j :: 0 <= i < a.Length0 && 0 <= j < a.Length1 ==> a[i, j] == LastWrite(mat, keys, i, j, old(a[i, j]))
  {
    assert forall t :: 0 <= t < |keys| ==> keys[t] in mat;
    for t := 0 to |keys|
      invariant forall i, j :: 0 <= i < a.Length0 && 0 <= j < a.Length1 ==> a[i, j] == LastWrite(mat, keys[..t], i, j, old(a[i, j]))
    {
      var e := mat[keys[t]];
      a[e.m, e.n] := e.value;
      assert keys[..t + 1][..t] == keys[..t];
    }
    assert keys[..|keys|] == keys;
  }

  /**
   * `rs[it->first] = it->second` for each entry of the right-hand-side map,
   * in key order, into an array of n values whose prior contents are unknown.
   */
  method FillRhs<S>(rs: array<S>, rhs: map<nat, S>, keys: seq<nat>)
    requires KeyOrder(rhs, keys)
    requires forall k :: k in rhs ==> k < rs.Length
    modifies rs
    ensures forall i :: 0 <= i < rs.Length ==> rs[i] == if i in rhs then rhs[i] else old(rs[i])
  {
    assert forall t :: 0 <= t < |keys| ==> keys[t] in rhs;
    for t := 0 to |keys|
      invariant forall i :: 0 <= i < rs.Length ==> rs[i] == if i in keys[..t] then rhs[i] else old(rs[i])
    {
      rs[keys[t]] := rhs[keys[t]];
      assert forall i :: i in keys[..t + 1] <==> i in keys[..t] || i == keys[t];
    }
    assert keys[..|keys|] == keys;
  }

  /** The keys of a map whose keys are 0 .. size-1 (a real-mode matrix or right-hand side), in order. */
  lemma DenseKeyOrder<V>(m: map<nat, V>)
    requires Dense(m)
    ensures KeyOrder(m, seq(|m|, i requires 0 <= i < |m| => i as nat))
  {
    var keys := seq(|m|, i requires 0 <= i < |m| => i as nat);
    forall k | k in keys
      ensures k in m
    {
      var t :| 0 <= t < |keys| && keys[t] == k;
    }
    forall k | k in m
      ensures k in keys
    {
      assert keys[k] == k;
    }
  }

  // ---------------------------------------------------------------------------
  // The verdict of one check

  /** `testPrint`: true exactly when the outcome is the expected one; the log line is not modelled. */
  function TestPrint(value: bool, correct: bool): (ok: bool)
    ensures ok <==> value == correct
  {
    value == correct
  }
}
