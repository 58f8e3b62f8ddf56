/**
 * Properties of whole files read by `read_matrix_and_rhs`: reading in pieces,
 * the phases that are never left, the file-order layout of the matrix maps,
 * the collision-free block layout of the complex-to-real expansion and the
 * placement of the split right-hand side.
 */
module ReaderProperties {
  import opened Wrappers
  import opened Tokenizer
  import opened MatrixReader

  /** Reading `a + b` is reading `a` and then `b` from where `a` left off. */
  lemma {:induction false} RunRealAppend(s: Reader<real>, a: seq<seq<string>>, b: seq<seq<string>>, cplx2Real: bool,
                                         scan: string -> real)
    ensures RunReal(s, a + b, cplx2Real, scan)
            == match RunReal(s, a, cplx2Real, scan)
               case None => None
               case Some(t) => RunReal(t, b, cplx2Real, scan)
    decreases |a|
  {
    if a == [] {
      assert a + b == b;
    } else {
      assert (a + b)[0] == a[0] && (a + b)[1..] == a[1..] + b;
      match RealStep(s, a[0], cplx2Real, scan) {
        case None =>
        case Some(t) => RunRealAppend(t, a[1..], b, cplx2Real, scan);
      }
    }
  }

  /** Reading `a + b` with the complex overload is reading `a` and then `b`. */
  lemma {:induction false} RunComplexAppend(s: Reader<Complex>, a: seq<seq<string>>, b: seq<seq<string>>, cplx2Real: bool,
                                            scan: string -> real)
    ensures RunComplex(s, a + b, cplx2Real, scan)
            == match RunComplex(s, a, cplx2Real, scan)
               case None => None
               case Some(t) => RunComplex(t, b, cplx2Real, scan)
    decreases |a|
  {
    if a == [] {
      assert a + b == b;
    } else {
      assert (a + b)[0] == a[0] && (a + b)[1..] == a[1..] + b;
      match ComplexStep(s, a[0], cplx2Real, scan) {
        case None =>
        case Some(t) => RunComplexAppend(t, a[1..], b, cplx2Real, scan);
      }
    }
  }

  /** Reading one row is one step. */
  lemma {:induction false} RunRealOne(s: Reader<real>, row: seq<string>, cplx2Real: bool, scan: string -> real)
    ensures RunReal(s, [row], cplx2Real, scan) == RealStep(s, row, cplx2Real, scan)
  {
    assert [row][1..] == [];
  }

  /** Without cplx2Real the real overload has a defined outcome on every file. */
  lemma {:induction false} RealModeIsDefined(s: Reader<real>, rows: seq<seq<string>>, scan: string -> real)
    ensures RunReal(s, rows, false, scan).Some?
    decreases |rows|
  {
    if rows != [] {
      RealModeIsDefined(RealStep(s, rows[0], false, scan).value, rows[1..], scan);
    }
  }

  /** Without cplx2Real the complex overload has a defined outcome on every file. */
  lemma {:induction false} ComplexModeIsDefined(s: Reader<Complex>, rows: seq<seq<string>>, scan: string -> real)
    ensures RunComplex(s, rows, false, scan).Some?
    decreases |rows|
  {
    if rows != [] {
      ComplexModeIsDefined(ComplexStep(s, rows[0], false, scan).value, rows[1..], scan);
    }
  }

  /** STATE_RHS is never left, and the matrix, n and nnz are final once it is reached. */
  lemma {:induction false} RhsIsTerminal(s: Reader<real>, rows: seq<seq<string>>, cplx2Real: bool, scan: string -> real)
    requires s.phase == InRhs
    ensures RunReal(s, rows, cplx2Real, scan).Some? ==>
              var t := RunReal(s, rows, cplx2Real, scan).value;
              t.phase == InRhs && t.mat == s.mat && t.n == s.n && t.nnz == s.nnz
    decreases |rows|
  {
    if rows != [] {
      match RealStep(s, rows[0], cplx2Real, scan) {
        case None =>
        case Some(t) => RhsIsTerminal(t, rows[1..], cplx2Real, scan);
      }
    }
  }

  /** STATE_RHS of the complex overload is never left, and the matrix is final once it is reached. */
  lemma {:induction false} ComplexRhsIsTerminal(s: Reader<Complex>, rows: seq<seq<string>>, cplx2Real: bool,
                                                scan: string -> real)
    requires s.phase == InRhs
    ensures RunComplex(s, rows, cplx2Real, scan).Some? ==>
              var t := RunComplex(s, rows, cplx2Real, scan).value;
              t.phase == InRhs && t.mat == s.mat && t.n == s.n && t.nnz == s.nnz
    decreases |rows|
  {
    if rows != [] {
      match ComplexStep(s, rows[0], cplx2Real, scan) {
        case None =>
        case Some(t) => ComplexRhsIsTerminal(t, rows[1..], cplx2Real, scan);
      }
    }
  }

  // ---------------------------------------------------------------------------
  // Maps filled at key `size()`

  /** `m[m.size()] = v` for each `v` of `vs` in turn. */
  function Appended<V>(m: map<nat, V>, vs: seq<V>): map<nat, V>
    decreases |vs|
  {
    if vs == [] then m else Appended(m[|m| := vs[0]], vs[1..])
  }

  /** Adding at key `size` keeps a map's keys 0 .. size-1 contiguous. */
  lemma {:induction false} AppendDense<V>(m: map<nat, V>, v: V)
    requires Dense(m)
    ensures Dense(m[|m| := v]) && |m[|m| := v]| == |m| + 1
  {
    assert |m| !in m;
    var m' := m[|m| := v];
    forall x: nat ensures x in m' <==> x < |m'| {
    }
  }

  /** On a map with keys 0 .. size-1 the appended values take the next keys, in order. */
  lemma {:induction false} AppendedDense<V>(m: map<nat, V>, vs: seq<V>)
    requires Dense(m)
    ensures var r := Appended(m, vs);
            && Dense(r) && |r| == |m| + |vs|
            && (forall x: nat :: x < |m| ==> r[x] == m[x])
            && (forall x: nat :: |m| <= x < |r| ==> r[x] == vs[x - |m|])
    decreases |vs|
  {
    if vs != [] {
      var m1 := m[|m| := vs[0]];
      AppendDense(m, vs[0]);
      AppendedDense(m1, vs[1..]);
      var r := Appended(m, vs);
      assert r == Appended(m1, vs[1..]);
      forall x: nat | |m| <= x < |r|
        ensures r[x] == vs[x - |m|]
      {
        if x == |m| {
          assert r[x] == m1[x];
        } else {
          assert r[x] == vs[1..][x - |m1|];
        }
      }
    }
  }

  /** Appending `a + b` is appending `a` and then `b`. */
  lemma {:induction false} AppendedConcat<V>(m: map<nat, V>, a: seq<V>, b: seq<V>)
    ensures Appended(m, a + b) == Appended(Appended(m, a), b)
    decreases |a|
  {
    if a == [] {
      assert a + b == b;
    } else {
      assert (a + b)[0] == a[0] && (a + b)[1..] == a[1..] + b;
      AppendedConcat(m[|m| := a[0]], a[1..], b);
    }
  }

  /** The flush loop of the cplx2Real right-hand side appends `rhs_buffer[i .. count-1]`. */
  lemma {:induction false} AppendBufferedIsAppended(rhs: map<nat, real>, buffer: seq<real>, i: nat, count: nat)
    requires i <= count <= |buffer|
    ensures AppendBuffered(rhs, buffer, i, count) == Appended(rhs, buffer[i..count])
    decreases count - i
  {
    if i < count {
      assert buffer[i..count][0] == buffer[i] && buffer[i..count][1..] == buffer[i + 1..count];
      AppendBufferedIsAppended(rhs[|rhs| := buffer[i]], buffer, i + 1, count);
    } else {
      assert buffer[i..count] == [];
    }
  }

  // ---------------------------------------------------------------------------
  // The numbers of a run of rows

  /** Column `c` of rows that all have more than `c` numbers. */
  function Column(rows: seq<seq<string>>, c: nat, scan: string -> real): (col: seq<real>)
    requires forall j :: 0 <= j < |rows| ==> |rows[j]| > c
    ensures |col| == |rows|
    ensures forall j :: 0 <= j < |rows| ==> col[j] == scan(rows[j][c])
  {
    if rows == [] then []
    else
      assert forall j :: 0 <= j < |rows| - 1 ==> rows[1..][j] == rows[j + 1];
      [scan(rows[0][c])] + Column(rows[1..], c, scan)
  }

  /** Dropping the first row drops the first value of a column. */
  lemma {:induction false} ColumnTail(rows: seq<seq<string>>, c: nat, scan: string -> real)
    requires rows != [] && forall j :: 0 <= j < |rows| ==> |rows[j]| > c
    ensures forall j :: 0 <= j < |rows| - 1 ==> |rows[1..][j]| > c
    ensures Column(rows, c, scan)[1..] == Column(rows[1..], c, scan)
  {
    assert forall j :: 0 <= j < |rows| - 1 ==> rows[1..][j] == rows[j + 1];
  }

  /** The entries real-mode matrix rows describe, in file order. */
  function RealEntries(rows: seq<seq<string>>, scan: string -> real): (es: seq<Entry<real>>)
    requires forall j :: 0 <= j < |rows| ==> |rows[j]| >= 3
    ensures |es| == |rows|
    ensures forall j :: 0 <= j < |rows| ==> es[j] == RealEntry(ReadN(rows[j], 3, scan).value)
  {
    if rows == [] then []
    else
      assert forall j :: 0 <= j < |rows| - 1 ==> rows[1..][j] == rows[j + 1];
      [RealEntry(ReadN(rows[0], 3, scan).value)] + RealEntries(rows[1..], scan)
  }

  /** The entries complex matrix rows describe, in file order. */
  function ComplexEntries(rows: seq<seq<string>>, scan: string -> real): (es: seq<Entry<Complex>>)
    requires forall j :: 0 <= j < |rows| ==> |rows[j]| >= 4
    ensures |es| == |rows|
    ensures forall j :: 0 <= j < |rows| ==>
              var v := ReadN(rows[j], 4, scan).value;
              es[j] == Entry(Trunc(v[0]), Trunc(v[1]), Complex(v[2], v[3]))
  {
    if rows == [] then []
    else
      assert forall j :: 0 <= j < |rows| - 1 ==> rows[1..][j] == rows[j + 1];
      var v := ReadN(rows[0], 4, scan).value;
      [Entry(Trunc(v[0]), Trunc(v[1]), Complex(v[2], v[3]))] + ComplexEntries(rows[1..], scan)
  }

  /** The numbers of a complex matrix row. */
  type Quad = v: seq<real> | |v| == 4 witness [0.0, 0.0, 0.0, 0.0]

  /** The four numbers of each row. */
  function Quads(rows: seq<seq<string>>, scan: string -> real): (vs: seq<Quad>)
    requires forall j :: 0 <= j < |rows| ==> |rows[j]| >= 4
    ensures |vs| == |rows|
    ensures forall j :: 0 <= j < |rows| ==> vs[j] == ReadN(rows[j], 4, scan).value
  {
    if rows == [] then []
    else
      assert forall j :: 0 <= j < |rows| - 1 ==> rows[1..][j] == rows[j + 1];
      [ReadN(rows[0], 4, scan).value] + Quads(rows[1..], scan)
  }

  // ---------------------------------------------------------------------------
  // Right-hand-side rows written with `rhs[(int) buffer[0]] = ...`

  /** The key and value a row writes into a map, or None when the row writes nothing. */
  type Write<V> = Option<(nat, V)>

  /** `rhs[key] = value` for each write in turn, skipping the rows that write nothing. */
  function Written<V>(rhs: map<nat, V>, ws: seq<Write<V>>): map<nat, V>
    decreases |ws|
  {
    if ws == [] then rhs
    else
      var rhs1 := match ws[0] case None => rhs case Some(w) => rhs[w.0 := w.1];
      Written(rhs1, ws[1..])
  }

  /** The write `w` is to `key`. */
  predicate WritesKey<V>(w: Write<V>, key: nat)
  {
    w.Some? && w.value.0 == key
  }

  /**
   * What a run of writes leaves under `key`: the key is present exactly when
   * it was before or some write is to it; the value is the one of the last
   * write to it, or the earlier value when no write is to it.
   */
  lemma {:induction false} WrittenAt<V>(rhs: map<nat, V>, ws: seq<Write<V>>, key: nat)
    ensures key in Written(rhs, ws) <==> key in rhs || exists j :: 0 <= j < |ws| && WritesKey(ws[j], key)
    ensures (forall j :: 0 <= j < |ws| ==> !WritesKey(ws[j], key)) && key in rhs ==> Written(rhs, ws)[key] == rhs[key]
    ensures forall j :: 0 <= j < |ws| && WritesKey(ws[j], key) && (forall j' :: j < j' < |ws| ==> !WritesKey(ws[j'], key))
                        ==> Written(rhs, ws)[key] == ws[j].value.1
    decreases |ws|
  {
    if ws != [] {
      var rhs1 := match ws[0] case None => rhs case Some(w) => rhs[w.0 := w.1];
      var rest := ws[1..];
      WrittenAt(rhs1, rest, key);
      assert forall j :: 0 < j < |ws| ==> ws[j] == rest[j - 1];
      if exists j :: 0 <= j < |rest| && WritesKey(rest[j], key) {
        var j :| 0 <= j < |rest| && WritesKey(rest[j], key);
        assert WritesKey(ws[j + 1], key);
      }
      forall j | 0 <= j < |ws| && WritesKey(ws[j], key) && (forall j' :: j < j' < |ws| ==> !WritesKey(ws[j'], key))
        ensures Written(rhs, ws)[key] == ws[j].value.1
      {
        if j == 0 {
          assert forall i :: 0 <= i < |rest| ==> !WritesKey(rest[i], key) by {
            forall i | 0 <= i < |rest| ensures !WritesKey(rest[i], key) {
              assert rest[i] == ws[i + 1];
            }
          }
        } else {
          assert rest[j - 1] == ws[j];
          assert forall i :: j - 1 < i < |rest| ==> !WritesKey(rest[i], key) by {
            forall i | j - 1 < i < |rest| ensures !WritesKey(rest[i], key) {
              assert rest[i] == ws[i + 1];
            }
          }
        }
      }
    }
  }

  /** A right-hand-side row of the real overload without cplx2Real: `rhs[(int) b0] = b1` when it has two numbers. */
  function RealRhsWrite(row: seq<string>, scan: string -> real): Write<real>
  {
    if |row| >= 2 then Some((ToUnsigned(Trunc(scan(row[0]))), scan(row[1]))) else None
  }

  /** A right-hand-side row of the complex overload: `rhs[(int) b0] = (b1, b2)` when it has three numbers. */
  function ComplexRhsWrite(row: seq<string>, scan: string -> real): Write<Complex>
  {
    if |row| >= 3 then Some((ToUnsigned(Trunc(scan(row[0]))), Complex(scan(row[1]), scan(row[2])))) else None
  }

  /** The writes of real right-hand-side rows, in file order. */
  function RealRhsWrites(rows: seq<seq<string>>, scan: string -> real): (ws: seq<Write<real>>)
    ensures |ws| == |rows| && forall j :: 0 <= j < |rows| ==> ws[j] == RealRhsWrite(rows[j], scan)
  {
    seq(|rows|, j requires 0 <= j < |rows| => RealRhsWrite(rows[j], scan))
  }

  /** The writes of complex right-hand-side rows, in file order. */
  function ComplexRhsWrites(rows: seq<seq<string>>, scan: string -> real): (ws: seq<Write<Complex>>)
    ensures |ws| == |rows| && forall j :: 0 <= j < |rows| ==> ws[j] == ComplexRhsWrite(rows[j], scan)
  {
    seq(|rows|, j requires 0 <= j < |rows| => ComplexRhsWrite(rows[j], scan))
  }

  /** Without cplx2Real the right-hand-side rows of the real overload are the writes `rhs[(int) b0] = b1`, in file order. */
  lemma {:induction false} RealRhsRows(s: Reader<real>, rows: seq<seq<string>>, scan: string -> real)
    requires s.phase == InRhs
    ensures RunReal(s, rows, false, scan) == Some(s.(rhs := Written(s.rhs, RealRhsWrites(rows, scan))))
    decreases |rows|
  {
    if rows != [] {
      var ws := RealRhsWrites(rows, scan);
      var s1 := s.(rhs := match ws[0] case None => s.rhs case Some(w) => s.rhs[w.0 := w.1]);
      assert RealStep(s, rows[0], false, scan) == Some(s1);
      RealRhsRows(s1, rows[1..], scan);
      assert ws[1..] == RealRhsWrites(rows[1..], scan);
    }
  }

  /** The right-hand-side rows of the complex overload are the writes `rhs[(int) b0] = (b1, b2)`, in file order. */
  lemma {:induction false} ComplexRhsRows(s: Reader<Complex>, rows: seq<seq<string>>, cplx2Real: bool, scan: string -> real)
    requires s.phase == InRhs
    ensures RunComplex(s, rows, cplx2Real, scan) == Some(s.(rhs := Written(s.rhs, ComplexRhsWrites(rows, scan))))
    decreases |rows|
  {
    if rows != [] {
      var ws := ComplexRhsWrites(rows, scan);
      var s1 := s.(rhs := match ws[0] case None => s.rhs case Some(w) => s.rhs[w.0 := w.1]);
      assert ComplexStep(s, rows[0], cplx2Real, scan) == Some(s1);
      ComplexRhsRows(s1, rows[1..], cplx2Real, scan);
      assert ws[1..] == ComplexRhsWrites(rows[1..], scan);
    }
  }

  // ---------------------------------------------------------------------------
  // Matrix rows in file order

  /**
   * In real mode every matrix row with three numbers is stored at key
   * `mat.size()`, in file order.
   */
  lemma {:induction false} RealRowsAppend(s: Reader<real>, rows: seq<seq<string>>, scan: string -> real)
    requires s.phase == InMatrix
    requires forall j :: 0 <= j < |rows| ==> |rows[j]| >= 3
    ensures RunReal(s, rows, false, scan) == Some(s.(mat := Appended(s.mat, RealEntries(rows, scan))))
    decreases |rows|
  {
    if rows != [] {
      var es := RealEntries(rows, scan);
      var s1 := s.(mat := s.mat[|s.mat| := es[0]]);
      assert RealStep(s, rows[0], false, scan) == Some(s1);
      RealRowsAppend(s1, rows[1..], scan);
      assert es[1..] == RealEntries(rows[1..], scan);
    }
  }

  /** In the complex overload every matrix row with four numbers is stored at key `mat.size()`, in file order. */
  lemma {:induction false} ComplexRowsAppend(s: Reader<Complex>, rows: seq<seq<string>>, cplx2Real: bool,
                                             scan: string -> real)
    requires s.phase == InMatrix
    requires forall j :: 0 <= j < |rows| ==> |rows[j]| >= 4
    ensures RunComplex(s, rows, cplx2Real, scan) == Some(s.(mat := Appended(s.mat, ComplexEntries(rows, scan))))
    decreases |rows|
  {
    if rows != [] {
      var es := ComplexEntries(rows, scan);
      var s1 := s.(mat := s.mat[|s.mat| := es[0]]);
      assert ComplexStep(s, rows[0], cplx2Real, scan) == Some(s1);
      ComplexRowsAppend(s1, rows[1..], cplx2Real, scan);
      assert es[1..] == ComplexEntries(rows[1..], scan);
    }
  }

  /** The state after the two header rows: n and nnz as read, phase STATE_MATRIX. */
  lemma {:induction false} HeaderRows<S>(s: Reader<S>, nRow: seq<string>, nnzRow: seq<string>, cplx2Real: bool, scan: string -> real)
    requires s.phase == ExpectN
    requires |nRow| >= 1
    requires cplx2Real ==> Trunc(scan(nRow[0])) >= 0
    ensures HeaderStep(s, nRow, cplx2Real, scan).Some?
    ensures var t := HeaderStep(HeaderStep(s, nRow, cplx2Real, scan).value, nnzRow, cplx2Real, scan);
            var h := Trunc(scan(nRow[0]));
            && t.Some? && t.value.phase == InMatrix
            && t.value.n == (if cplx2Real then 2 * h else h)
            && t.value.nnz == (if |nnzRow| >= 1 then Trunc(scan(nnzRow[0])) else s.nnz)
            && t.value.rhsBuffer == (if cplx2Real then seq(2 * h, _ => 0.0) else s.rhsBuffer)
            && t.value.k == s.k && t.value.l == s.l && t.value.mat == s.mat && t.value.rhs == s.rhs
  {
  }

  /** The header rows of a real-overload file as one run. */
  lemma {:induction false} RealHeaderRun(s0: Reader<real>, nRow: seq<string>, nnzRow: seq<string>, cplx2Real: bool, scan: string -> real)
    requires s0.phase == ExpectN
    requires |nRow| >= 1
    requires cplx2Real ==> Trunc(scan(nRow[0])) >= 0
    ensures HeaderStep(s0, nRow, cplx2Real, scan).Some?
    ensures RunReal(s0, [nRow, nnzRow], cplx2Real, scan)
            == HeaderStep(HeaderStep(s0, nRow, cplx2Real, scan).value, nnzRow, cplx2Real, scan)
  {
    HeaderRows(s0, nRow, nnzRow, cplx2Real, scan);
    var s1 := HeaderStep(s0, nRow, cplx2Real, scan).value;
    var s2 := HeaderStep(s1, nnzRow, cplx2Real, scan).value;
    assert RealStep(s0, nRow, cplx2Real, scan) == Some(s1);
    assert RealStep(s1, nnzRow, cplx2Real, scan) == Some(s2);
    RunRealOne(s1, nnzRow, cplx2Real, scan);
    assert [nRow, nnzRow][1..] == [nnzRow];
  }

  /**
   * A real-mode file: the header rows, matrix rows of three numbers, a short
   * row and right-hand-side rows. The matrix keys are 0 .. m-1 in file order,
   * and the right-hand side is the caller's map overwritten by the rows'
   * writes in file order.
   */
  lemma {:induction false} RealFileLayout(nRow: seq<string>, nnzRow: seq<string>, entries: seq<seq<string>>, shortRow: seq<string>, rhsRows: seq<seq<string>>,
                       n0: int, nnz0: int, rhs0: map<nat, real>, scan: string -> real)
    requires |nRow| >= 1
    requires forall j :: 0 <= j < |entries| ==> |entries[j]| >= 3
    requires |shortRow| < 3
    ensures RunReal(Start(n0, nnz0, map[], rhs0), [nRow, nnzRow] + entries + [shortRow] + rhsRows, false, scan).Some?
    ensures var t := RunReal(Start(n0, nnz0, map[], rhs0), [nRow, nnzRow] + entries + [shortRow] + rhsRows, false, scan).value;
            && t.phase == InRhs
            && t.n == Trunc(scan(nRow[0]))
            && t.nnz == (if |nnzRow| >= 1 then Trunc(scan(nnzRow[0])) else nnz0)
            && t.mat == Appended(map[], RealEntries(entries, scan))
            && t.rhs == Written(rhs0, RealRhsWrites(rhsRows, scan))
  {
    var s4 := RealFileRun(nRow, nnzRow, entries, shortRow, rhsRows, n0, nnz0, rhs0, scan);
    RealRhsRows(s4, rhsRows, scan);
  }

  /** The matrix a real-mode file builds holds entry j, read from the j-th matrix row, under key j. */
  lemma {:induction false} RealFileMatrix(entries: seq<seq<string>>, scan: string -> real)
    requires forall j :: 0 <= j < |entries| ==> |entries[j]| >= 3
    ensures var mat := Appended(map[], RealEntries(entries, scan));
            && Dense(mat) && |mat| == |entries|
            && (forall j :: 0 <= j < |entries| ==> mat[j] == RealEntry(ReadN(entries[j], 3, scan).value))
  {
    var es := RealEntries(entries, scan);
    AppendedDense(map[], es);
    var mat := Appended(map[], es);
    forall j | 0 <= j < |entries|
      ensures mat[j] == RealEntry(ReadN(entries[j], 3, scan).value)
    {
      assert mat[j] == es[j];
    }
  }

  /** The state a real-mode file reaches when its short matrix row is read. */
  lemma {:induction false} RealFileRun(nRow: seq<string>, nnzRow: seq<string>, entries: seq<seq<string>>, shortRow: seq<string>,
                                       rhsRows: seq<seq<string>>, n0: int, nnz0: int, rhs0: map<nat, real>, scan: string -> real)
    returns (s4: Reader<real>)
    requires |nRow| >= 1
    requires forall j :: 0 <= j < |entries| ==> |entries[j]| >= 3
    requires |shortRow| < 3
    ensures s4.phase == InRhs && s4.n == Trunc(scan(nRow[0]))
    ensures s4.nnz == (if |nnzRow| >= 1 then Trunc(scan(nnzRow[0])) else nnz0)
    ensures s4.mat == Appended(map[], RealEntries(entries, scan)) && s4.rhs == rhs0
    ensures RunReal(Start(n0, nnz0, map[], rhs0), [nRow, nnzRow] + entries + [shortRow] + rhsRows, false, scan)
            == RunReal(s4, rhsRows, false, scan)
  {
    var s0: Reader<real> := Start(n0, nnz0, map[], rhs0);
    RealHeaderRun(s0, nRow, nnzRow, false, scan);
    HeaderRows(s0, nRow, nnzRow, false, scan);
    var s2 := HeaderStep(HeaderStep(s0, nRow, false, scan).value, nnzRow, false, scan).value;
    RunRealAppend(s0, [nRow, nnzRow], entries, false, scan);
    RealRowsAppend(s2, entries, scan);
    var s3 := s2.(mat := Appended(map[], RealEntries(entries, scan)));
    RunRealAppend(s0, [nRow, nnzRow] + entries, [shortRow], false, scan);
    RunRealOne(s3, shortRow, false, scan);
    s4 := RealStep(s3, shortRow, false, scan).value;
    RunRealAppend(s0, [nRow, nnzRow] + entries + [shortRow], rhsRows, false, scan);
  }

  /** The header rows of a complex-overload file as one run. */
  lemma {:induction false} ComplexHeaderRun(s0: Reader<Complex>, nRow: seq<string>, nnzRow: seq<string>, cplx2Real: bool,
                                            scan: string -> real)
    requires s0.phase == ExpectN
    requires |nRow| >= 1
    requires cplx2Real ==> Trunc(scan(nRow[0])) >= 0
    ensures HeaderStep(s0, nRow, cplx2Real, scan).Some?
    ensures RunComplex(s0, [nRow, nnzRow], cplx2Real, scan)
            == HeaderStep(HeaderStep(s0, nRow, cplx2Real, scan).value, nnzRow, cplx2Real, scan)
  {
    HeaderRows(s0, nRow, nnzRow, cplx2Real, scan);
    var s1 := HeaderStep(s0, nRow, cplx2Real, scan).value;
    var s2 := HeaderStep(s1, nnzRow, cplx2Real, scan).value;
    assert ComplexStep(s0, nRow, cplx2Real, scan) == Some(s1);
    assert ComplexStep(s1, nnzRow, cplx2Real, scan) == Some(s2);
    assert [nnzRow][1..] == [];
    assert RunComplex(s1, [nnzRow], cplx2Real, scan) == Some(s2);
    assert [nRow, nnzRow][1..] == [nnzRow];
  }

  /**
   * A file read by the complex overload: the header rows, matrix rows of four
   * numbers, a short row and right-hand-side rows. The matrix keys are
   * 0 .. m-1 in file order, and the right-hand side is the caller's map
   * overwritten by the rows' writes in file order.
   */
  lemma {:induction false} ComplexFileLayout(nRow: seq<string>, nnzRow: seq<string>, entries: seq<seq<string>>, shortRow: seq<string>,
                                             rhsRows: seq<seq<string>>, n0: int, nnz0: int, rhs0: map<nat, Complex>,
                                             cplx2Real: bool, scan: string -> real)
    requires |nRow| >= 1
    requires cplx2Real ==> Trunc(scan(nRow[0])) >= 0
    requires forall j :: 0 <= j < |entries| ==> |entries[j]| >= 4
    requires |shortRow| < 4
    ensures RunComplex(Start(n0, nnz0, map[], rhs0), [nRow, nnzRow] + entries + [shortRow] + rhsRows, cplx2Real, scan).Some?
    ensures var t := RunComplex(Start(n0, nnz0, map[], rhs0), [nRow, nnzRow] + entries + [shortRow] + rhsRows, cplx2Real, scan).value;
            var h := Trunc(scan(nRow[0]));
            && t.phase == InRhs
            && t.n == (if cplx2Real then 2 * h else h)
            && t.nnz == (if |nnzRow| >= 1 then Trunc(scan(nnzRow[0])) else nnz0)
            && t.mat == Appended(map[], ComplexEntries(entries, scan))
            && t.rhs == Written(rhs0, ComplexRhsWrites(rhsRows, scan))
  {
    var s0: Reader<Complex> := Start(n0, nnz0, map[], rhs0);
    ComplexHeaderRun(s0, nRow, nnzRow, cplx2Real, scan);
    HeaderRows(s0, nRow, nnzRow, cplx2Real, scan);
    var s2 := HeaderStep(HeaderStep(s0, nRow, cplx2Real, scan).value, nnzRow, cplx2Real, scan).value;
    RunComplexAppend(s0, [nRow, nnzRow], entries, cplx2Real, scan);
    ComplexRowsAppend(s2, entries, cplx2Real, scan);
    var s3 := s2.(mat := Appended(map[], ComplexEntries(entries, scan)));
    RunComplexAppend(s0, [nRow, nnzRow] + entries, [shortRow], cplx2Real, scan);
    var s4 := s3.(phase := InRhs);
    assert ComplexStep(s3, shortRow, cplx2Real, scan) == Some(s4);
    assert [shortRow][1..] == [];
    RunComplexAppend(s0, [nRow, nnzRow] + entries + [shortRow], rhsRows, cplx2Real, scan);
    ComplexRhsRows(s4, rhsRows, cplx2Real, scan);
  }

  // ---------------------------------------------------------------------------
  // The complex-to-real expansion

  /** The keys of the complex-to-real matrix after `k / 2` complex rows: [0, k) and [2 nnz, 2 nnz + k). */
  function LayoutKeys(k: nat, nnz: int): set<nat>
  {
    set key: nat | key < 2 * nnz + k && InLayout(key, k, nnz)
  }

  /** Below k, or at least 2 nnz. */
  predicate InLayout(key: nat, k: nat, nnz: int)
  {
    key < k || 2 * nnz <= key
  }

  /** `mat` has exactly the keys of `k / 2` complex rows. */
  predicate BlockLayout(mat: map<nat, Entry<real>>, k: nat, nnz: int)
  {
    mat.Keys == LayoutKeys(k, nnz)
  }

  /** The layout of no rows is the empty map's. */
  lemma {:induction false} EmptyLayout(nnz: int)
    ensures BlockLayout(map[], 0, nnz)
  {
    assert forall key :: key !in LayoutKeys(0, nnz);
  }

  /** While at most nnz rows are stored, each row adds two keys to each half: 2k keys in all. */
  lemma {:induction false} LayoutKeysSize(k: nat, nnz: int)
    requires k <= 2 * nnz
    ensures |LayoutKeys(k, nnz)| == 2 * k
    decreases k
  {
    if k == 0 {
      assert LayoutKeys(k, nnz) == {} by {
        assert forall key :: key !in LayoutKeys(k, nnz);
      }
    } else {
      LayoutKeysSize(k - 1, nnz);
      var prev := LayoutKeys(k - 1, nnz);
      assert LayoutKeys(k, nnz) == prev + {k - 1, 2 * nnz + k - 1};
      assert k - 1 !in prev && 2 * nnz + k - 1 !in prev;
    }
  }

  /**
   * The four real entries of the complex entry (i, j, a + bi): the 2x2 block
   * [a, -b; b, a] spread over the four quadrants, h = n/2 apart.
   */
  function BlockEntries(n: int, v: Quad): (es: seq<Entry<real>>)
    ensures |es| == 4
  {
    var i, j, h := Trunc(v[0]), Trunc(v[1]), Half(n);
    [Entry(i, j, v[2]), Entry(i + h, j, v[3]), Entry(i, j + h, -v[3]), Entry(i + h, j + h, v[2])]
  }

  /** The four entries of the block of `v` stored one after the other at keys k, k+1, k+2nnz and k+2nnz+1. */
  function AddBlock(mat: map<nat, Entry<real>>, k: nat, n: int, nnz: nat, v: Quad): map<nat, Entry<real>>
  {
    var es := BlockEntries(n, v);
    mat[k := es[0]][k + 1 := es[1]][k + 2 * nnz := es[2]][k + 2 * nnz + 1 := es[3]]
  }

  /** `mat` holds the block `es` at the keys of `k`. */
  predicate HoldsBlock(mat: map<nat, Entry<real>>, k: nat, nnz: nat, es: seq<Entry<real>>)
    requires |es| == 4
  {
    && k in mat && mat[k] == es[0]
    && k + 1 in mat && mat[k + 1] == es[1]
    && k + 2 * nnz in mat && mat[k + 2 * nnz] == es[2]
    && k + 2 * nnz + 1 in mat && mat[k + 2 * nnz + 1] == es[3]
  }

  /** `x` is its own `unsigned int` conversion when it is in range. */
  lemma {:induction false} SmallIsUnsigned(x: int)
    requires 0 <= x < UnsignedRange
    ensures ToUnsigned(x) == x
  {
  }

  /** An `insert` at an absent key within the range of `unsigned int` stores its entry there. */
  lemma {:induction false} InsertAllFresh(mat: map<nat, Entry<real>>, pairs: seq<(int, Entry<real>)>)
    requires pairs != [] && 0 <= pairs[0].0 < UnsignedRange && pairs[0].0 !in mat
    ensures InsertAll(mat, pairs) == InsertAll(mat[pairs[0].0 := pairs[0].1], pairs[1..])
  {
    SmallIsUnsigned(pairs[0].0);
    assert Insert(mat, pairs[0].0, pairs[0].1) == mat[pairs[0].0 := pairs[0].1];
  }

  /** The (key, entry) pairs the expansion inserts for the block `es` of `k`. */
  function BlockPairs(k: nat, nnz: nat, es: seq<Entry<real>>): seq<(int, Entry<real>)>
    requires |es| == 4
  {
    [(k, es[0]), (k + 1, es[1]), (k + 2 * nnz, es[2]), (k + 2 * nnz + 1, es[3])]
  }

  /** The expansion inserts the block entries at the block keys. */
  lemma {:induction false} ExpandComplexPairs(mat: map<nat, Entry<real>>, k: nat, n: int, nnz: nat, v: Quad)
    ensures ExpandComplex(mat, k, n, nnz, v) == InsertAll(mat, BlockPairs(k, nnz, BlockEntries(n, v)))
  {
  }

  /** Inserting a block at four absent keys within the range of `unsigned int` stores each entry. */
  lemma {:induction false} InsertPairsFresh(mat: map<nat, Entry<real>>, k: nat, nnz: nat, es: seq<Entry<real>>)
    requires |es| == 4 && nnz >= 1 && k + 2 * nnz + 1 < UnsignedRange
    requires k !in mat && k + 1 !in mat && k + 2 * nnz !in mat && k + 2 * nnz + 1 !in mat
    ensures InsertAll(mat, BlockPairs(k, nnz, es)) == mat[k := es[0]][k + 1 := es[1]][k + 2 * nnz := es[2]][k + 2 * nnz + 1 := es[3]]
  {
    var ps := BlockPairs(k, nnz, es);
    var m1 := mat[k := es[0]];
    var m2 := m1[k + 1 := es[1]];
    var m3 := m2[k + 2 * nnz := es[2]];
    InsertAllFresh(mat, ps);
    InsertAllFresh(m1, ps[1..]);
    InsertAllFresh(m2, ps[2..]);
    InsertAllFresh(m3, ps[3..]);
    assert ps[1..][1..] == ps[2..] && ps[2..][1..] == ps[3..] && ps[3..][1..] == [];
  }

  /**
   * While at most nnz complex rows are read, none of the four insertions of a
   * row hits an existing key: the expansion stores the row's whole block.
   */
  lemma {:induction false} ExpandComplexIsFresh(mat: map<nat, Entry<real>>, k: nat, n: int, nnz: nat, v: Quad)
    requires BlockLayout(mat, k, nnz)
    requires k + 2 <= 2 * nnz && 4 * nnz <= UnsignedRange
    ensures ExpandComplex(mat, k, n, nnz, v) == AddBlock(mat, k, n, nnz, v)
  {
    ExpandComplexPairs(mat, k, n, nnz, v);
    assert k !in LayoutKeys(k, nnz) && k + 1 !in LayoutKeys(k, nnz);
    assert k + 2 * nnz !in LayoutKeys(k, nnz) && k + 2 * nnz + 1 !in LayoutKeys(k, nnz);
    InsertPairsFresh(mat, k, nnz, BlockEntries(n, v));
  }

  /** Adding the block of `k` to a layout of `k / 2` rows gives the layout of one row more. */
  lemma {:induction false} AddBlockLayout(mat: map<nat, Entry<real>>, k: nat, n: int, nnz: nat, v: Quad)
    requires BlockLayout(mat, k, nnz) && k + 2 <= 2 * nnz
    ensures BlockLayout(AddBlock(mat, k, n, nnz, v), k + 2, nnz)
  {
    assert AddBlock(mat, k, n, nnz, v).Keys == mat.Keys + {k, k + 1, k + 2 * nnz, k + 2 * nnz + 1};
    assert LayoutKeys(k + 2, nnz) == LayoutKeys(k, nnz) + {k, k + 1, k + 2 * nnz, k + 2 * nnz + 1};
  }

  /** Storing the block of a later row keeps the block of an earlier one. */
  lemma {:induction false} AddBlockKeepsBlock(mat: map<nat, Entry<real>>, k: nat, n: int, nnz: nat, v: Quad,
                                              k0: nat, es0: seq<Entry<real>>)
    requires |es0| == 4
    requires HoldsBlock(mat, k0, nnz, es0) && k0 + 2 <= k && k + 2 <= 2 * nnz
    ensures HoldsBlock(AddBlock(mat, k, n, nnz, v), k0, nnz, es0)
  {
  }

  /** The block of each row stored in turn, `k` advancing by 2. */
  function Blocks(mat: map<nat, Entry<real>>, k: nat, n: int, nnz: nat, vs: seq<Quad>): map<nat, Entry<real>>
    decreases |vs|
  {
    if vs == [] then mat else Blocks(AddBlock(mat, k, n, nnz, vs[0]), k + 2, n, nnz, vs[1..])
  }

  /** Storing the blocks of at most nnz rows on a layout of `k / 2` rows gives the layout of `|vs|` rows more. */
  lemma {:induction false} BlocksLayout(mat: map<nat, Entry<real>>, k: nat, n: int, nnz: nat, vs: seq<Quad>)
    requires BlockLayout(mat, k, nnz) && k + 2 * |vs| <= 2 * nnz
    ensures BlockLayout(Blocks(mat, k, n, nnz, vs), k + 2 * |vs|, nnz)
    decreases |vs|
  {
    if vs != [] {
      AddBlockLayout(mat, k, n, nnz, vs[0]);
      BlocksLayout(AddBlock(mat, k, n, nnz, vs[0]), k + 2, n, nnz, vs[1..]);
    }
  }

  /** Storing the blocks of later rows, at most nnz in all, keeps the block of an earlier row. */
  lemma {:induction false} BlocksKeepBlock(mat: map<nat, Entry<real>>, k: nat, n: int, nnz: nat, vs: seq<Quad>,
                                           k0: nat, es0: seq<Entry<real>>)
    requires |es0| == 4 && HoldsBlock(mat, k0, nnz, es0) && k0 + 2 <= k && k + 2 * |vs| <= 2 * nnz
    ensures HoldsBlock(Blocks(mat, k, n, nnz, vs), k0, nnz, es0)
    decreases |vs|
  {
    if vs != [] {
      AddBlockKeepsBlock(mat, k, n, nnz, vs[0], k0, es0);
      BlocksKeepBlock(AddBlock(mat, k, n, nnz, vs[0]), k + 2, n, nnz, vs[1..], k0, es0);
    }
  }

  /** Storing the blocks of at most nnz rows leaves the block of row t at key k + 2t. */
  lemma {:induction false} BlocksHoldRow(mat: map<nat, Entry<real>>, k: nat, n: int, nnz: nat, vs: seq<Quad>, t: nat)
    requires k + 2 * |vs| <= 2 * nnz && t < |vs|
    ensures HoldsBlock(Blocks(mat, k, n, nnz, vs), k + 2 * t, nnz, BlockEntries(n, vs[t]))
    decreases t
  {
    var m1 := AddBlock(mat, k, n, nnz, vs[0]);
    if t == 0 {
      BlocksKeepBlock(m1, k + 2, n, nnz, vs[1..], k, BlockEntries(n, vs[0]));
    } else {
      BlocksHoldRow(m1, k + 2, n, nnz, vs[1..], t - 1);
      assert vs[1..][t - 1] == vs[t];
    }
  }

  /** The expansion of each complex row in turn, `k` advancing by 2. */
  function ExpandAll(mat: map<nat, Entry<real>>, k: nat, n: int, nnz: int, vs: seq<Quad>): map<nat, Entry<real>>
    decreases |vs|
  {
    if vs == [] then mat else ExpandAll(ExpandComplex(mat, k, n, nnz, vs[0]), k + 2, n, nnz, vs[1..])
  }

  /** On a layout with room for one more row, expanding the first row stores its block and extends the layout. */
  lemma {:induction false} ExpandAllStep(mat: map<nat, Entry<real>>, k: nat, n: int, nnz: nat, vs: seq<Quad>)
    requires vs != [] && BlockLayout(mat, k, nnz)
    requires k + 2 <= 2 * nnz && 4 * nnz <= UnsignedRange
    ensures ExpandAll(mat, k, n, nnz, vs) == ExpandAll(AddBlock(mat, k, n, nnz, vs[0]), k + 2, n, nnz, vs[1..])
    ensures BlockLayout(AddBlock(mat, k, n, nnz, vs[0]), k + 2, nnz)
  {
    ExpandComplexIsFresh(mat, k, n, nnz, vs[0]);
    AddBlockLayout(mat, k, n, nnz, vs[0]);
  }

  /** While at most nnz rows are expanded from a layout, every `insert` stores its entry. */
  lemma {:induction false} ExpandAllIsBlocks(mat: map<nat, Entry<real>>, k: nat, n: int, nnz: nat, vs: seq<Quad>)
    requires BlockLayout(mat, k, nnz)
    requires k + 2 * |vs| <= 2 * nnz && 4 * nnz <= UnsignedRange
    ensures ExpandAll(mat, k, n, nnz, vs) == Blocks(mat, k, n, nnz, vs)
    decreases |vs|
  {
    if vs != [] {
      ExpandAllStep(mat, k, n, nnz, vs);
      ExpandAllIsBlocks(AddBlock(mat, k, n, nnz, vs[0]), k + 2, n, nnz, vs[1..]);
    }
  }

  /** Complex matrix rows in cplx2Real mode are expanded one after the other. */
  lemma {:induction false} ComplexRowsExpand(s: Reader<real>, rows: seq<seq<string>>, scan: string -> real)
    requires s.phase == InMatrix
    requires forall j :: 0 <= j < |rows| ==> |rows[j]| >= 4
    ensures RunReal(s, rows, true, scan)
            == Some(s.(mat := ExpandAll(s.mat, s.k, s.n, s.nnz, Quads(rows, scan)), k := s.k + 2 * |rows|))
    decreases |rows|
  {
    if rows != [] {
      var s1 := ExpandFirst(s, rows, scan);
      ComplexRowsExpand(s1, rows[1..], scan);
    }
  }

  /** The first of the rows of ComplexRowsExpand, and what the rest of them still satisfy. */
  lemma {:induction false} ExpandFirst(s: Reader<real>, rows: seq<seq<string>>, scan: string -> real)
    returns (s1: Reader<real>)
    requires s.phase == InMatrix
    requires rows != [] && forall j :: 0 <= j < |rows| ==> |rows[j]| >= 4
    ensures forall j :: 0 <= j < |rows| - 1 ==> |rows[1..][j]| >= 4
    ensures s1 == s.(mat := ExpandComplex(s.mat, s.k, s.n, s.nnz, Quads(rows, scan)[0]), k := s.k + 2)
    ensures RunReal(s, rows, true, scan) == RunReal(s1, rows[1..], true, scan)
    ensures Quads(rows, scan)[1..] == Quads(rows[1..], scan)
  {
    var vs := Quads(rows, scan);
    s1 := s.(mat := ExpandComplex(s.mat, s.k, s.n, s.nnz, vs[0]), k := s.k + 2);
    assert RealStep(s, rows[0], true, scan) == Some(s1);
    assert vs[1..] == Quads(rows[1..], scan);
  }

  /**
   * The blocks of at most nnz complex rows stored from an empty map: exactly
   * four entries per row, in [0, 2m) and [2 nnz, 2 nnz + 2m), with the block
   * of row t at key 2t.
   */
  lemma {:induction false} BlocksMatrix(n: int, nnz: nat, vs: seq<Quad>)
    requires |vs| <= nnz
    ensures |Blocks(map[], 0, n, nnz, vs)| == 4 * |vs|
    ensures BlockLayout(Blocks(map[], 0, n, nnz, vs), 2 * |vs|, nnz)
    ensures forall t :: 0 <= t < |vs| ==> HoldsBlock(Blocks(map[], 0, n, nnz, vs), 2 * t, nnz, BlockEntries(n, vs[t]))
  {
    EmptyLayout(nnz);
    BlocksLayout(map[], 0, n, nnz, vs);
    LayoutKeysSize(2 * |vs|, nnz);
    forall t | 0 <= t < |vs|
      ensures HoldsBlock(Blocks(map[], 0, n, nnz, vs), 2 * t, nnz, BlockEntries(n, vs[t]))
    {
      BlocksHoldRow(map[], 0, n, nnz, vs, t);
    }
  }

  /**
   * A cplx2Real file with a non-negative n, nnz >= 0 and at most nnz complex
   * matrix rows: the matrix ends with exactly four entries per row, in
   * [0, 2m) and [2 nnz, 2 nnz + 2m), and holds the block of row j at key 2j.
   */
  lemma {:induction false} ComplexToRealLayout(nRow: seq<string>, nnzRow: seq<string>, entries: seq<seq<string>>, shortRow: seq<string>,
                            rhsRows: seq<seq<string>>, n0: int, nnz0: int, rhs0: map<nat, real>, scan: string -> real)
    requires |nRow| >= 1 && Trunc(scan(nRow[0])) >= 0
    requires |nnzRow| >= 1
    requires var nnz := Trunc(scan(nnzRow[0])); 0 <= |entries| <= nnz && 4 * nnz <= UnsignedRange
    requires forall j :: 0 <= j < |entries| ==> |entries[j]| >= 4
    requires |shortRow| < 4
    ensures var r := RunReal(Start(n0, nnz0, map[], rhs0), [nRow, nnzRow] + entries + [shortRow] + rhsRows, true, scan);
            var nnz := Trunc(scan(nnzRow[0]));
            r.Some? ==>
              && r.value.phase == InRhs && r.value.nnz == nnz
              && r.value.n == 2 * Trunc(scan(nRow[0]))
              && |r.value.mat| == 4 * |entries|
              && BlockLayout(r.value.mat, 2 * |entries|, nnz)
              && (forall j :: 0 <= j < |entries| ==>
                    HoldsBlock(r.value.mat, 2 * j, nnz, BlockEntries(r.value.n, ReadN(entries[j], 4, scan).value)))
  {
    var vs := Quads(entries, scan);
    var s4 := ComplexFileRun(nRow, nnzRow, entries, shortRow, rhsRows, n0, nnz0, rhs0, scan);
    RhsIsTerminal(s4, rhsRows, true, scan);
    EmptyLayout(s4.nnz);
    ExpandAllIsBlocks(map[], 0, s4.n, s4.nnz, vs);
    BlocksMatrix(s4.n, s4.nnz, vs);
  }

  /** The state a cplx2Real file reaches when its first short matrix row is read. */
  lemma {:induction false} ComplexFileRun(nRow: seq<string>, nnzRow: seq<string>, entries: seq<seq<string>>, shortRow: seq<string>,
                       rhsRows: seq<seq<string>>, n0: int, nnz0: int, rhs0: map<nat, real>, scan: string -> real)
    returns (s4: Reader<real>)
    requires |nRow| >= 1 && Trunc(scan(nRow[0])) >= 0
    requires |nnzRow| >= 1
    requires forall j :: 0 <= j < |entries| ==> |entries[j]| >= 4
    requires |shortRow| < 4
    ensures s4.phase == InRhs && s4.nnz == Trunc(scan(nnzRow[0])) && s4.n == 2 * Trunc(scan(nRow[0]))
    ensures s4.mat == ExpandAll(map[], 0, s4.n, s4.nnz, Quads(entries, scan))
    ensures s4.rhs == rhs0 && s4.l == 0 && s4.rhsBuffer == seq(s4.n, _ => 0.0)
    ensures RunReal(Start(n0, nnz0, map[], rhs0), [nRow, nnzRow] + entries + [shortRow] + rhsRows, true, scan)
            == RunReal(s4, rhsRows, true, scan)
  {
    var s0: Reader<real> := Start(n0, nnz0, map[], rhs0);
    RealHeaderRun(s0, nRow, nnzRow, true, scan);
    HeaderRows(s0, nRow, nnzRow, true, scan);
    var s2 := HeaderStep(HeaderStep(s0, nRow, true, scan).value, nnzRow, true, scan).value;
    RunRealAppend(s0, [nRow, nnzRow], entries, true, scan);
    ComplexRowsExpand(s2, entries, scan);
    var s3 := s2.(mat := ExpandAll(map[], 0, s2.n, s2.nnz, Quads(entries, scan)), k := 2 * |entries|);
    RunRealAppend(s0, [nRow, nnzRow] + entries, [shortRow], true, scan);
    RunRealOne(s3, shortRow, true, scan);
    s4 := RealStep(s3, shortRow, true, scan).value;
    RunRealAppend(s0, [nRow, nnzRow] + entries + [shortRow], rhsRows, true, scan);
  }

  // ---------------------------------------------------------------------------
  // The split right-hand side of cplx2Real mode

  /** `rhs_buffer[l] = v` for each `v` of `vs` in turn, `l` advancing. */
  function Buffered(buffer: seq<real>, l: nat, vs: seq<real>): (b: seq<real>)
    requires l + |vs| <= |buffer|
    ensures |b| == |buffer|
    ensures forall x :: 0 <= x < |buffer| ==> b[x] == if l <= x < l + |vs| then vs[x - l] else buffer[x]
    decreases |vs|
  {
    if vs == [] then buffer else Buffered(buffer[l := vs[0]], l + 1, vs[1..])
  }

  /**
   * A right-hand-side row of cplx2Real mode at index `l` before the last
   * one: the real part is stored at key l and the imaginary part buffered.
   */
  lemma {:induction false} BufferRow(s: Reader<real>, row: seq<string>, h: nat, scan: string -> real)
    requires s.phase == InRhs && s.n == 2 * h && |s.rhsBuffer| == s.n && h <= UnsignedRange && s.l + 1 < h
    requires |row| >= 3 && scan(row[0]) == s.l as real
    ensures RealStep(s, row, true, scan)
            == Some(s.(rhs := s.rhs[s.l := scan(row[1])],
                       rhsBuffer := s.rhsBuffer[s.l := scan(row[2])], l := s.l + 1))
  {
    assert Trunc(s.l as real) == s.l;
    SmallIsUnsigned(s.l);
    assert Half(s.n) == h;
  }

  /**
   * The rows before the last one of a right-hand side given densely and in
   * order: the real parts are stored at keys l, l+1, ... and the imaginary
   * parts buffered at the same positions.
   */
  lemma {:induction false} BufferRealParts(s: Reader<real>, rows: seq<seq<string>>, h: nat, scan: string -> real)
    requires s.phase == InRhs && s.n == 2 * h && |s.rhsBuffer| == s.n && h <= UnsignedRange
    requires Dense(s.rhs) && |s.rhs| == s.l && s.l + |rows| < h
    requires forall j :: 0 <= j < |rows| ==> |rows[j]| >= 3
    requires forall j :: 0 <= j < |rows| ==> scan(rows[j][0]) == (s.l + j) as real
    ensures RunReal(s, rows, true, scan)
            == Some(s.(rhs := Appended(s.rhs, Column(rows, 1, scan)),
                       rhsBuffer := Buffered(s.rhsBuffer, s.l, Column(rows, 2, scan)),
                       l := s.l + |rows|))
    decreases |rows|
  {
    if rows != [] {
      var s1 := BufferFirst(s, rows, h, scan);
      RealPartOfFirst(s.rhs, rows, scan);
      ImagPartOfFirst(s.rhsBuffer, s.l, rows, scan);
      BufferRealParts(s1, rows[1..], h, scan);
    }
  }

  /** The first of the rows of BufferRealParts, and what the rest of them still satisfy. */
  lemma {:induction false} BufferFirst(s: Reader<real>, rows: seq<seq<string>>, h: nat, scan: string -> real)
    returns (s1: Reader<real>)
    requires s.phase == InRhs && s.n == 2 * h && |s.rhsBuffer| == s.n && h <= UnsignedRange
    requires Dense(s.rhs) && |s.rhs| == s.l && s.l + |rows| < h
    requires rows != [] && forall j :: 0 <= j < |rows| ==> |rows[j]| >= 3
    requires forall j :: 0 <= j < |rows| ==> scan(rows[j][0]) == (s.l + j) as real
    ensures s1 == s.(rhs := s.rhs[|s.rhs| := scan(rows[0][1])], rhsBuffer := s.rhsBuffer[s.l := scan(rows[0][2])], l := s.l + 1)
    ensures RunReal(s, rows, true, scan) == RunReal(s1, rows[1..], true, scan)
    ensures Dense(s1.rhs) && |s1.rhs| == s1.l
    ensures forall j :: 0 <= j < |rows| - 1 ==> |rows[1..][j]| >= 3 && scan(rows[1..][j][0]) == (s1.l + j) as real
  {
    BufferRow(s, rows[0], h, scan);
    s1 := s.(rhs := s.rhs[s.l := scan(rows[0][1])], rhsBuffer := s.rhsBuffer[s.l := scan(rows[0][2])], l := s.l + 1);
    AppendDense(s.rhs, scan(rows[0][1]));
    assert forall j :: 0 <= j < |rows| - 1 ==> rows[1..][j] == rows[j + 1];
  }

  /** Storing the real part of the first row leaves the real parts of the rest to store. */
  lemma {:induction false} RealPartOfFirst(rhs: map<nat, real>, rows: seq<seq<string>>, scan: string -> real)
    requires rows != [] && forall j :: 0 <= j < |rows| ==> |rows[j]| >= 3
    ensures forall j :: 0 <= j < |rows| - 1 ==> |rows[1..][j]| >= 3
    ensures Appended(rhs, Column(rows, 1, scan)) == Appended(rhs[|rhs| := scan(rows[0][1])], Column(rows[1..], 1, scan))
  {
    ColumnTail(rows, 1, scan);
  }

  /** Buffering the imaginary part of the first row leaves the imaginary parts of the rest to buffer. */
  lemma {:induction false} ImagPartOfFirst(buffer: seq<real>, l: nat, rows: seq<seq<string>>, scan: string -> real)
    requires rows != [] && l + |rows| <= |buffer|
    requires forall j :: 0 <= j < |rows| ==> |rows[j]| >= 3
    ensures forall j :: 0 <= j < |rows| - 1 ==> |rows[1..][j]| >= 3
    ensures Buffered(buffer, l, Column(rows, 2, scan)) == Buffered(buffer[l := scan(rows[0][2])], l + 1, Column(rows[1..], 2, scan))
  {
    ColumnTail(rows, 2, scan);
  }

  /**
   * The right-hand-side row at index n/2 - 1 in cplx2Real mode: its real part
   * is stored at key l, then the buffered imaginary parts 0 .. l, its own
   * last, are appended at key `rhs.size()` onward.
   */
  lemma {:induction false} FlushRow(s: Reader<real>, row: seq<string>, h: nat, scan: string -> real)
    requires s.phase == InRhs && s.n == 2 * h && |s.rhsBuffer| == s.n && h <= UnsignedRange && s.l + 1 == h
    requires |s.rhs| == s.l
    requires |row| >= 3 && scan(row[0]) == s.l as real
    ensures RealStep(s, row, true, scan)
            == Some(s.(rhs := Appended(s.rhs, [scan(row[1])] + s.rhsBuffer[..s.l] + [scan(row[2])]),
                       rhsBuffer := s.rhsBuffer[s.l := scan(row[2])], l := h))
  {
    var ts := row;
    var a, b := scan(ts[1]), scan(ts[2]);
    assert Trunc(s.l as real) == s.l;
    SmallIsUnsigned(s.l);
    assert Half(s.n) == h;
    var rhs1 := s.rhs[s.l := a];
    var buffer1 := s.rhsBuffer[s.l := b];
    assert rhs1 == Appended(s.rhs, [a]);
    AppendBufferedIsAppended(rhs1, buffer1, 0, h);
    assert buffer1[0..h] == s.rhsBuffer[..s.l] + [b];
    AppendedConcat(s.rhs, [a], s.rhsBuffer[..s.l] + [b]);
    assert [a] + (s.rhsBuffer[..s.l] + [b]) == [a] + s.rhsBuffer[..s.l] + [b];
  }

  /** The column of a non-empty file is the column of its front rows followed by that of its last row. */
  lemma {:induction false} ColumnOfLast(rows: seq<seq<string>>, c: nat, scan: string -> real)
    requires |rows| >= 1
    requires forall j :: 0 <= j < |rows| ==> |rows[j]| > c
    ensures Column(rows, c, scan) == Column(rows[..|rows| - 1], c, scan) + [scan(rows[|rows| - 1][c])]
  {
  }

  /** The real column of the front rows, the last real part, the imaginary column of the front rows and the last imaginary part, in this order, are the two columns. */
  lemma {:induction false} SplitColumns(rows: seq<seq<string>>, scan: string -> real)
    requires |rows| >= 1
    requires forall j :: 0 <= j < |rows| ==> |rows[j]| >= 3
    ensures var front, last := rows[..|rows| - 1], rows[|rows| - 1];
            Column(front, 1, scan) + ([scan(last[1])] + Column(front, 2, scan) + [scan(last[2])])
            == Column(rows, 1, scan) + Column(rows, 2, scan)
  {
    var front, last := rows[..|rows| - 1], rows[|rows| - 1];
    Regroup(Column(front, 1, scan), Column(front, 2, scan), scan(last[1]), scan(last[2]));
    ColumnOfLast(rows, 1, scan);
    ColumnOfLast(rows, 2, scan);
  }

  /** Concatenation regrouped around two single elements. */
  lemma {:induction false} Regroup<T>(xs: seq<T>, ys: seq<T>, a: T, b: T)
    ensures xs + ([a] + ys + [b]) == (xs + [a]) + (ys + [b])
  {
  }

  /** The rows of such a right-hand side before the last one buffer their imaginary parts. */
  lemma {:induction false} ComplexRhsFront(s: Reader<real>, rows: seq<seq<string>>, scan: string -> real)
    returns (s1: Reader<real>)
    requires s.phase == InRhs && s.rhs == map[] && s.l == 0
    requires |rows| >= 1 && s.n == 2 * |rows| && |s.rhsBuffer| == s.n && |rows| <= UnsignedRange
    requires forall j :: 0 <= j < |rows| ==> |rows[j]| >= 3
    requires forall j :: 0 <= j < |rows| ==> scan(rows[j][0]) == j as real
    ensures s1.phase == InRhs && s1.n == s.n && |s1.rhsBuffer| == s1.n && s1.l + 1 == |rows|
    ensures |s1.rhs| == s1.l && s1.rhs == Appended(map[], Column(rows[..|rows| - 1], 1, scan))
    ensures s1.rhsBuffer[..s1.l] == Column(rows[..|rows| - 1], 2, scan)
    ensures RunReal(s, rows, true, scan) == RealStep(s1, rows[|rows| - 1], true, scan)
  {
    var h := |rows|;
    var front := FrontRows(rows, scan);
    var last := rows[h - 1];
    BufferRealParts(s, front, h, scan);
    var re, im := Column(front, 1, scan), Column(front, 2, scan);
    s1 := s.(rhs := Appended(map[], re), rhsBuffer := Buffered(s.rhsBuffer, 0, im), l := h - 1);
    RunRealAppend(s, front, [last], true, scan);
    RunRealOne(s1, last, true, scan);
    AppendedDense(map[], re);
  }

  /** The rows before the last one of a right-hand side given densely and in order are still so. */
  lemma {:induction false} FrontRows(rows: seq<seq<string>>, scan: string -> real) returns (front: seq<seq<string>>)
    requires |rows| >= 1
    requires forall j :: 0 <= j < |rows| ==> |rows[j]| >= 3
    requires forall j :: 0 <= j < |rows| ==> scan(rows[j][0]) == j as real
    ensures front == rows[..|rows| - 1] && rows == front + [rows[|rows| - 1]]
    ensures forall j :: 0 <= j < |front| ==> |front[j]| >= 3 && scan(front[j][0]) == j as real
  {
    front := rows[..|rows| - 1];
    assert rows == front + [rows[|rows| - 1]];
    forall j | 0 <= j < |front|
      ensures |front[j]| >= 3 && scan(front[j][0]) == j as real
    {
      assert front[j] == rows[j];
    }
  }

  /**
   * A cplx2Real right-hand side given densely and in order, rows 0 .. h-1:
   * the map ends as the real parts followed by the imaginary parts, each
   * stored at key `rhs.size()`.
   */
  lemma {:induction false} ComplexRhsSplit(s: Reader<real>, rows: seq<seq<string>>, scan: string -> real)
    requires s.phase == InRhs && s.rhs == map[] && s.l == 0
    requires |rows| >= 1 && s.n == 2 * |rows| && |s.rhsBuffer| == s.n && |rows| <= UnsignedRange
    requires forall j :: 0 <= j < |rows| ==> |rows[j]| >= 3
    requires forall j :: 0 <= j < |rows| ==> scan(rows[j][0]) == j as real
    ensures RunReal(s, rows, true, scan).Some?
    ensures RunReal(s, rows, true, scan).value.rhs == Appended(map[], Column(rows, 1, scan) + Column(rows, 2, scan))
  {
    var h := |rows|;
    var last := rows[h - 1];
    var s1 := ComplexRhsFront(s, rows, scan);
    FlushRow(s1, last, h, scan);
    var im := Column(rows[..h - 1], 2, scan);
    AppendedConcat(map[], Column(rows[..h - 1], 1, scan), [scan(last[1])] + im + [scan(last[2])]);
    SplitColumns(rows, scan);
  }

  /**
   * For such a right-hand side the real part of row x ends at key x and its
   * imaginary part at key n/2 + x, and there are no other keys.
   */
  lemma {:induction false} ComplexRhsPlacement(s: Reader<real>, rows: seq<seq<string>>, scan: string -> real)
    requires s.phase == InRhs && s.rhs == map[] && s.l == 0
    requires |rows| >= 1 && s.n == 2 * |rows| && |s.rhsBuffer| == s.n && |rows| <= UnsignedRange
    requires forall j :: 0 <= j < |rows| ==> |rows[j]| >= 3
    requires forall j :: 0 <= j < |rows| ==> scan(rows[j][0]) == j as real
    ensures RunReal(s, rows, true, scan).Some?
    ensures var rhs := RunReal(s, rows, true, scan).value.rhs;
            && Dense(rhs) && |rhs| == s.n
            && (forall x :: 0 <= x < |rows| ==> rhs[x] == scan(rows[x][1]))
            && (forall x :: 0 <= x < |rows| ==> rhs[|rows| + x] == scan(rows[x][2]))
  {
    ComplexRhsSplit(s, rows, scan);
    var re, im := Column(rows, 1, scan), Column(rows, 2, scan);
    AppendedDense(map[], re + im);
    var rhs := RunReal(s, rows, true, scan).value.rhs;
    forall x | 0 <= x < |rows|
      ensures rhs[x] == scan(rows[x][1]) && rhs[|rows| + x] == scan(rows[x][2])
    {
      assert (re + im)[x] == re[x];
      assert (re + im)[|rows| + x] == im[x];
    }
  }

  /**
   * A whole cplx2Real file whose right-hand side lists the complex values
   * 0 .. h-1 densely and in order, h being the header number, read into an
   * empty `rhs`: the real part of row x ends at key x, its imaginary part at
   * key h + x, and there are no other keys.
   */
  lemma {:induction false} ComplexToRealRhs(nRow: seq<string>, nnzRow: seq<string>, entries: seq<seq<string>>, shortRow: seq<string>,
                          rhsRows: seq<seq<string>>, n0: int, nnz0: int, scan: string -> real)
    requires |nRow| >= 1 && Trunc(scan(nRow[0])) == |rhsRows| >= 1 && |rhsRows| <= UnsignedRange
    requires |nnzRow| >= 1
    requires forall j :: 0 <= j < |entries| ==> |entries[j]| >= 4
    requires |shortRow| < 4
    requires forall j :: 0 <= j < |rhsRows| ==> |rhsRows[j]| >= 3
    requires forall j :: 0 <= j < |rhsRows| ==> scan(rhsRows[j][0]) == j as real
    ensures var r := RunReal(Start(n0, nnz0, map[], map[]), [nRow, nnzRow] + entries + [shortRow] + rhsRows, true, scan);
            var h := |rhsRows|;
            && r.Some? && Dense(r.value.rhs) && |r.value.rhs| == 2 * h
            && (forall x :: 0 <= x < h ==> r.value.rhs[x] == scan(rhsRows[x][1]))
            && (forall x :: 0 <= x < h ==> r.value.rhs[h + x] == scan(rhsRows[x][2]))
  {
    var s4 := ComplexFileRun(nRow, nnzRow, entries, shortRow, rhsRows, n0, nnz0, map[], scan);
    ComplexRhsPlacement(s4, rhsRows, scan);
  }

  /**
   * The last right-hand-side row (index n/2 - 1) in cplx2Real mode, for any
   * state: its real part is written at its index, then the buffered imaginary
   * parts 0 .. l, its own last, are appended from key `rhs.size()` of the map
   * as it is after that write, whatever keys the map holds.
   */
  lemma {:induction false} LastRowFlush(s: Reader<real>, row: seq<string>, scan: string -> real)
    requires s.phase == InRhs && s.l < |s.rhsBuffer|
    requires |row| >= 3 && scan(row[0]) == (Half(s.n) - 1) as real
    ensures var rhs1 := s.rhs[ToUnsigned(Trunc(scan(row[0]))) := scan(row[1])];
            var buffer1 := s.rhsBuffer[s.l := scan(row[2])];
            RealStep(s, row, true, scan) == Some(s.(rhs := Appended(rhs1, buffer1[..s.l + 1]), rhsBuffer := buffer1, l := s.l + 1))
  {
    var rhs1 := s.rhs[ToUnsigned(Trunc(scan(row[0]))) := scan(row[1])];
    var buffer1 := s.rhsBuffer[s.l := scan(row[2])];
    AppendBufferedIsAppended(rhs1, buffer1, 0, s.l + 1);
    assert buffer1[0..s.l + 1] == buffer1[..s.l + 1];
  }

  /**
   * The flush appends at `rhs.size()`, not at n/2: when the right-hand side
   * skips index 0, the last row's imaginary part lands on key 1 and replaces
   * the real part just stored there.
   */
  lemma {:induction false} SparseRhsOverwrite(s: Reader<real>, row: seq<string>, scan: string -> real)
    requires s.phase == InRhs && s.n == 4 && s.l == 0 && s.rhsBuffer == [0.0, 0.0, 0.0, 0.0] && s.rhs == map[]
    requires |row| >= 3 && scan(row[0]) == 1.0
    ensures RealStep(s, row, true, scan).Some?
    ensures RealStep(s, row, true, scan).value.rhs == map[1 := scan(row[2])]
  {
    assert Trunc(1.0) == 1 && Half(4) == 2;
    LastRowFlush(s, row, scan);
    var rhs1 := map[1 := scan(row[1])];
    var buffer1 := [scan(row[2]), 0.0, 0.0, 0.0];
    assert buffer1[..1] == [scan(row[2])];
    assert |rhs1| == 1;
  }
}
