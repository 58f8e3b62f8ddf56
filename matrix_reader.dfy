/**
 * The matrix and right-hand-side reader of the linear-solver test
 * (`read_matrix_and_rhs`, a real and a complex overload). A file is a sequence
 * of rows, each row is read with `read_n_nums`, and a four-phase machine
 * (number of unknowns, number of non-zeros, matrix rows, right-hand-side rows)
 * fills index-keyed maps. In `cplx2Real` mode the real overload expands each
 * complex matrix entry into the 2x2 real block and splits each complex
 * right-hand-side value into a real and an imaginary half.
 */
module MatrixReader {
  import opened Wrappers
  import opened Tokenizer

  /** Number of values of C++ `unsigned int`, the key type of the maps. */
  const UnsignedRange: int := 0x1_0000_0000

  /** STATE_N, STATE_NNZ, STATE_MATRIX and STATE_RHS. */
  datatype Phase = ExpectN | ExpectNnz | InMatrix | InRhs

  /** MatrixEntry: row `m`, column `n`, value. */
  datatype Entry<S> = Entry(m: int, n: int, value: S)

  datatype Complex = Complex(re: real, im: real)

  /**
   * TEST_SUCCESS, TEST_FAILURE, or Undefined where the C++ code has no defined
   * outcome (an array allocated with a negative size, a write past its end).
   */
  datatype Status = TestSuccess | TestFailure | Undefined

  /** C's `(int)` cast of a double: truncation toward zero. */
  function Trunc(x: real): int
  {
    if x >= 0.0 then x.Floor else -((-x).Floor)
  }

  /** The cast drops the fraction: the result has the sign of `x` and lies within 1 of it, on the side of 0. */
  lemma TruncTowardZero(x: real)
    ensures x >= 0.0 ==> 0 <= Trunc(x) && Trunc(x) as real <= x < Trunc(x) as real + 1.0
    ensures x < 0.0 ==> Trunc(x) <= 0 && Trunc(x) as real - 1.0 < x <= Trunc(x) as real
  {
  }

  /** C's `x / 2` on `int`: truncation toward zero. */
  function Half(x: int): (r: int)
    ensures x >= 0 ==> 0 <= 2 * r <= x <= 2 * r + 1
    ensures x < 0 ==> 2 * r - 1 <= x <= 2 * r <= 0
  {
    if x >= 0 then x / 2 else -((-x) / 2)
  }

  /** Conversion of an `int` key to `unsigned int`. */
  function ToUnsigned(x: int): (r: nat)
    ensures r < UnsignedRange
    ensures 0 <= x < UnsignedRange ==> r == x
    ensures (x - r) % UnsignedRange == 0
  {
    x % UnsignedRange
  }

  /**
   * std::map::insert: the entry is added only when its key is absent. In the
   * union the right operand wins, so an existing entry of `m` is kept.
   */
  function Insert<V>(m: map<nat, V>, key: nat, v: V): map<nat, V>
  {
    map[key := v] + m
  }

  /** `insert` adds the key, stores the value only when the key is new, and keeps every existing entry. */
  lemma InsertKeeps<V>(m: map<nat, V>, key: nat, v: V)
    ensures Insert(m, key, v).Keys == m.Keys + {key}
    ensures key !in m ==> Insert(m, key, v)[key] == v
    ensures forall x :: x in m ==> Insert(m, key, v)[x] == m[x]
  {
  }

  /** The keys of `m` are exactly 0 .. |m|-1. */
  ghost predicate Dense<V>(m: map<nat, V>)
  {
    forall x: nat :: x in m <==> x < |m|
  }

  /**
   * The reader's variables: the phase, the outputs `n` and `nnz` (which keep
   * the caller's values until they are read), the counters `k` and `l`, the
   * imaginary-part buffer `rhs_buffer` (empty until allocated) and the maps.
   */
  datatype Reader<S> = Reader(
    phase: Phase,
    n: int,
    nnz: int,
    k: nat,
    l: nat,
    rhsBuffer: seq<real>,
    mat: map<nat, Entry<S>>,
    rhs: map<nat, S>)

  function Start<S>(n: int, nnz: int, mat: map<nat, Entry<S>>, rhs: map<nat, S>): Reader<S>
  {
    Reader(ExpectN, n, nnz, 0, 0, [], mat, rhs)
  }

  /** The two header phases, shared by both overloads; None when `new double[n]` gets a negative size. */
  function HeaderStep<S>(s: Reader<S>, ts: seq<string>, cplx2Real: bool, scan: string -> real): (r: Option<Reader<S>>)
    requires s.phase == ExpectN || s.phase == ExpectNnz
    ensures r.None? <==> cplx2Real && s.phase == ExpectN && |ts| >= 1 && Trunc(scan(ts[0])) < 0
    ensures r.Some? ==> Transition(s.phase, r.value.phase, |ts|, 0)
    ensures r.Some? ==> r.value.k == s.k && r.value.l == s.l && r.value.mat == s.mat && r.value.rhs == s.rhs
    ensures r.Some? && s.phase == ExpectNnz ==> r.value.n == s.n && r.value.rhsBuffer == s.rhsBuffer
    ensures r.Some? && cplx2Real && r.value.phase != s.phase && s.phase == ExpectN ==>
              r.value.n >= 0 && r.value.n % 2 == 0 && |r.value.rhsBuffer| == r.value.n
  {
    if s.phase == ExpectN then
      match ReadN(ts, 1, scan)
      case None => Some(s)
      case Some(v) =>
        if !cplx2Real then Some(s.(phase := ExpectNnz, n := Trunc(v[0])))
        else if 2 * Trunc(v[0]) < 0 then None
        else Some(s.(phase := ExpectNnz, n := 2 * Trunc(v[0]), rhsBuffer := seq(2 * Trunc(v[0]), _ => 0.0)))
    else
      var nnz := match ReadN(ts, 1, scan) case Some(v) => Trunc(v[0]) case None => s.nnz;
      Some(s.(phase := InMatrix, nnz := nnz))
  }

  function RealEntry(v: seq<real>): Entry<real>
    requires |v| >= 3
  {
    Entry(Trunc(v[0]), Trunc(v[1]), v[2])
  }

  /** `mat.insert` of each (key, entry) pair in turn, the key converted to `unsigned int`. */
  function InsertAll(mat: map<nat, Entry<real>>, pairs: seq<(int, Entry<real>)>): map<nat, Entry<real>>
    decreases |pairs|
  {
    if pairs == [] then mat else InsertAll(Insert(mat, ToUnsigned(pairs[0].0), pairs[0].1), pairs[1..])
  }

  /** A run of inserts keeps every existing entry and ends with each inserted key present. */
  lemma {:induction false} InsertAllKeeps(mat: map<nat, Entry<real>>, pairs: seq<(int, Entry<real>)>)
    ensures forall x :: x in mat ==> x in InsertAll(mat, pairs) && InsertAll(mat, pairs)[x] == mat[x]
    ensures forall p :: p in pairs ==> ToUnsigned(p.0) in InsertAll(mat, pairs)
    decreases |pairs|
  {
    if pairs != [] {
      var m1 := Insert(mat, ToUnsigned(pairs[0].0), pairs[0].1);
      InsertKeeps(mat, ToUnsigned(pairs[0].0), pairs[0].1);
      InsertAllKeeps(m1, pairs[1..]);
      forall p | p in pairs
        ensures ToUnsigned(p.0) in InsertAll(mat, pairs)
      {
        if p != pairs[0] {
          assert p in pairs[1..];
        }
      }
    }
  }

  /**
   * The four insertions of one complex entry (i, j, a + bi) into the real
   * block matrix: the 2x2 block [a, -b; b, a] spread over the four quadrants.
   */
  function ExpandComplex(mat: map<nat, Entry<real>>, k: nat, n: int, nnz: int, v: seq<real>): map<nat, Entry<real>>
    requires |v| == 4
  {
    var i, j, h := Trunc(v[0]), Trunc(v[1]), Half(n);
    InsertAll(mat, [(k, Entry(i, j, v[2])), (k + 1, Entry(i + h, j, v[3])),
                    (k + 2 * nnz, Entry(i, j + h, -v[3])), (k + 2 * nnz + 1, Entry(i + h, j + h, v[2]))])
  }

  /**
   * The expansion never overwrites an entry already in the matrix, and the four
   * block keys (wrapped to `unsigned int`) are present afterwards.
   */
  lemma ExpandComplexKeeps(mat: map<nat, Entry<real>>, k: nat, n: int, nnz: int, v: seq<real>)
    requires |v| == 4
    ensures forall x :: x in mat ==> x in ExpandComplex(mat, k, n, nnz, v) && ExpandComplex(mat, k, n, nnz, v)[x] == mat[x]
    ensures var r := ExpandComplex(mat, k, n, nnz, v);
            ToUnsigned(k) in r && ToUnsigned(k + 1) in r && ToUnsigned(k + 2 * nnz) in r && ToUnsigned(k + 2 * nnz + 1) in r
  {
    var i, j, h := Trunc(v[0]), Trunc(v[1]), Half(n);
    var pairs := [(k, Entry(i, j, v[2])), (k + 1, Entry(i + h, j, v[3])),
                  (k + 2 * nnz, Entry(i, j + h, -v[3])), (k + 2 * nnz + 1, Entry(i + h, j + h, v[2]))];
    InsertAllKeeps(mat, pairs);
    assert pairs[0] in pairs && pairs[1] in pairs && pairs[2] in pairs && pairs[3] in pairs;
  }

  /** `rhs[rhs.size()] = rhs_buffer[i]` for i from `i` up to `count`. */
  function AppendBuffered(rhs: map<nat, real>, buffer: seq<real>, i: nat, count: nat): map<nat, real>
    requires i <= count <= |buffer|
    decreases count - i
  {
    if i == count then rhs else AppendBuffered(rhs[|rhs| := buffer[i]], buffer, i + 1, count)
  }

  /** A matrix row of the real overload. */
  function RealMatrixStep(s: Reader<real>, ts: seq<string>, cplx2Real: bool, scan: string -> real): (r: Reader<real>)
    ensures r.phase == (if |ts| >= (if cplx2Real then 4 else 3) then s.phase else InRhs)
    ensures r.n == s.n && r.nnz == s.nnz && r.l == s.l && r.rhsBuffer == s.rhsBuffer && r.rhs == s.rhs
    ensures |ts| < (if cplx2Real then 4 else 3) ==> r.mat == s.mat && r.k == s.k
  {
    if cplx2Real then
      match ReadN(ts, 4, scan)
      case None => s.(phase := InRhs)
      case Some(v) => s.(mat := ExpandComplex(s.mat, s.k, s.n, s.nnz, v), k := s.k + 2)
    else
      match ReadN(ts, 3, scan)
      case None => s.(phase := InRhs)
      case Some(v) => s.(mat := s.mat[|s.mat| := RealEntry(v)])
  }

  /** A right-hand-side row of the real overload; None when it writes past the end of `rhs_buffer`. */
  function RealRhsStep(s: Reader<real>, ts: seq<string>, cplx2Real: bool, scan: string -> real): (r: Option<Reader<real>>)
    ensures r.None? <==> cplx2Real && |ts| >= 3 && s.l >= |s.rhsBuffer|
    ensures r.Some? ==> r.value.phase == s.phase && r.value.n == s.n && r.value.nnz == s.nnz
                        && r.value.k == s.k && r.value.mat == s.mat && |r.value.rhsBuffer| == |s.rhsBuffer|
    ensures !cplx2Real ==>
              r == Some(if |ts| >= 2 then s.(rhs := s.rhs[ToUnsigned(Trunc(scan(ts[0]))) := scan(ts[1])]) else s)
    ensures cplx2Real && |ts| < 3 ==> r == Some(s)
    ensures cplx2Real && |ts| >= 3 && s.l < |s.rhsBuffer| ==>
              var stored := s.rhs[ToUnsigned(Trunc(scan(ts[0]))) := scan(ts[1])];
              var buffer := s.rhsBuffer[s.l := scan(ts[2])];
              r == Some(s.(rhs := if scan(ts[0]) != (Half(s.n) - 1) as real then stored
                                  else AppendBuffered(stored, buffer, 0, s.l + 1),
                           rhsBuffer := buffer, l := s.l + 1))
  {
    if cplx2Real then
      match ReadN(ts, 3, scan)
      case None => Some(s)
      case Some(v) =>
        if s.l >= |s.rhsBuffer| then None
        else
          var rhs := s.rhs[ToUnsigned(Trunc(v[0])) := v[1]];
          var buffer := s.rhsBuffer[s.l := v[2]];
          var l := s.l + 1;
          if v[0] != (Half(s.n) - 1) as real then Some(s.(rhs := rhs, rhsBuffer := buffer, l := l))
          else Some(s.(rhs := AppendBuffered(rhs, buffer, 0, l), rhsBuffer := buffer, l := l))
    else
      match ReadN(ts, 2, scan)
      case None => Some(s)
      case Some(v) => Some(s.(rhs := s.rhs[ToUnsigned(Trunc(v[0])) := v[1]]))
  }

  /**
   * The phase moves of `read_matrix_and_rhs` for a row with `tokens` tokens,
   * where a matrix row needs `width` numbers: the header of n waits for a
   * number, the header of nnz is left after one row whatever it holds, the
   * first short matrix row starts the right-hand side, which is never left.
   */
  predicate Transition(from: Phase, to: Phase, tokens: nat, width: nat)
  {
    match from
    case ExpectN => to == (if tokens >= 1 then ExpectNnz else ExpectN)
    case ExpectNnz => to == InMatrix
    case InMatrix => to == (if tokens >= width then InMatrix else InRhs)
    case InRhs => to == InRhs
  }

  /** The position of a phase in the order the reader goes through them. */
  function Rank(p: Phase): nat
  {
    match p
    case ExpectN => 0
    case ExpectNnz => 1
    case InMatrix => 2
    case InRhs => 3
  }

  /** One row of the real overload; None when the C++ code has no defined outcome. */
  function RealStep(s: Reader<real>, ts: seq<string>, cplx2Real: bool, scan: string -> real): (r: Option<Reader<real>>)
    ensures r.None? <==> cplx2Real && |ts| >= (if s.phase == InRhs then 3 else 1) &&
                         ((s.phase == ExpectN && Trunc(scan(ts[0])) < 0) ||
                          (s.phase == InRhs && s.l >= |s.rhsBuffer|))
    ensures r.Some? ==> Transition(s.phase, r.value.phase, |ts|, if cplx2Real then 4 else 3)
    ensures r.Some? && s.phase != InMatrix ==> r.value.mat == s.mat
    ensures r.Some? && s.phase != InRhs ==> r.value.rhs == s.rhs
    ensures r.Some? && s.phase == InMatrix && r.value.phase == InRhs ==> r.value.mat == s.mat
  {
    match s.phase
    case ExpectN => HeaderStep(s, ts, cplx2Real, scan)
    case ExpectNnz => HeaderStep(s, ts, cplx2Real, scan)
    case InMatrix => Some(RealMatrixStep(s, ts, cplx2Real, scan))
    case InRhs => RealRhsStep(s, ts, cplx2Real, scan)
  }

  /**
   * The `fgets` loop of the real overload: the steps of the rows in turn, None
   * as soon as one has no defined outcome. The phase never moves backwards.
   */
  function RunReal(s: Reader<real>, rows: seq<seq<string>>, cplx2Real: bool, scan: string -> real): (r: Option<Reader<real>>)
    ensures r.Some? ==> Rank(s.phase) <= Rank(r.value.phase)
    decreases |rows|
  {
    if rows == [] then Some(s)
    else
      match RealStep(s, rows[0], cplx2Real, scan)
      case None => None
      case Some(s') => RunReal(s', rows[1..], cplx2Real, scan)
  }

  /** One row of the complex overload. */
  function ComplexStep(s: Reader<Complex>, ts: seq<string>, cplx2Real: bool, scan: string -> real): (r: Option<Reader<Complex>>)
    ensures r.None? <==> cplx2Real && s.phase == ExpectN && |ts| >= 1 && Trunc(scan(ts[0])) < 0
    ensures r.Some? ==> Transition(s.phase, r.value.phase, |ts|, 4)
    ensures r.Some? && s.phase != InMatrix ==> r.value.mat == s.mat
    ensures r.Some? && s.phase != InRhs ==> r.value.rhs == s.rhs
    ensures r.Some? && s.phase == InMatrix && r.value.phase == InRhs ==> r.value.mat == s.mat
    ensures s.phase == InRhs ==>
              r == Some(if |ts| >= 3 then s.(rhs := s.rhs[ToUnsigned(Trunc(scan(ts[0]))) := Complex(scan(ts[1]), scan(ts[2]))])
                        else s)
  {
    match s.phase
    case ExpectN => HeaderStep(s, ts, cplx2Real, scan)
    case ExpectNnz => HeaderStep(s, ts, cplx2Real, scan)
    case InMatrix =>
      (match ReadN(ts, 4, scan)
       case None => Some(s.(phase := InRhs))
       case Some(v) => Some(s.(mat := s.mat[|s.mat| := Entry(Trunc(v[0]), Trunc(v[1]), Complex(v[2], v[3]))])))
    case InRhs =>
      match ReadN(ts, 3, scan)
      case None => Some(s)
      case Some(v) => Some(s.(rhs := s.rhs[ToUnsigned(Trunc(v[0])) := Complex(v[1], v[2])]))
  }

  /** The `fgets` loop of the complex overload; the phase never moves backwards. */
  function RunComplex(s: Reader<Complex>, rows: seq<seq<string>>, cplx2Real: bool, scan: string -> real): (r: Option<Reader<Complex>>)
    ensures r.Some? ==> Rank(s.phase) <= Rank(r.value.phase)
    decreases |rows|
  {
    if rows == [] then Some(s)
    else
      match ComplexStep(s, rows[0], cplx2Real, scan)
      case None => None
      case Some(s') => RunComplex(s', rows[1..], cplx2Real, scan)
  }

  /**
   * The STATE_N and STATE_NNZ rows, shared by both overloads. In cplx2Real
   * mode the STATE_N row allocates `rhs_buffer` with 2 * n zeros; `defined`
   * is false when that size is negative.
   */
  method ReadHeaderRow<S>(row: string, cplx2Real: bool, phase: Phase, n: int, nnz: int, rhsBuffer: array<real>,
                          buffer: array<real>, scan: string -> real, ghost s: Reader<S>)
    returns (defined: bool, phase': Phase, n': int, nnz': int, rhsBuffer': array<real>)
    requires phase == ExpectN || phase == ExpectNnz
    requires s.phase == phase && s.n == n && s.nnz == nnz && s.rhsBuffer == rhsBuffer[..]
    requires buffer.Length == 4 && buffer != rhsBuffer
    modifies buffer
    ensures buffer != rhsBuffer' && (rhsBuffer' == rhsBuffer || fresh(rhsBuffer'))
    ensures defined <==> HeaderStep(s, Tokens(row), cplx2Real, scan).Some?
    ensures defined ==> HeaderStep(s, Tokens(row), cplx2Real, scan)
                        == Some(s.(phase := phase', n := n', nnz := nnz', rhsBuffer := rhsBuffer'[..]))
  {
    phase', n', nnz', rhsBuffer' := phase, n, nnz, rhsBuffer;
    defined := true;
    if phase == ExpectN {
      var ok := ReadNNums(row, 1, buffer, scan);
      if ok {
        if cplx2Real {
          n' := 2 * Trunc(buffer[0]);
          if n' < 0 {
            // new double[n] with a negative size
            return false, phase', n', nnz', rhsBuffer';
          }
          rhsBuffer' := new real[n'];
          for j := 0 to n'
            invariant forall x :: 0 <= x < j ==> rhsBuffer'[x] == 0.0
          {
            rhsBuffer'[j] := 0.0;
          }
          assert rhsBuffer'[..] == seq(n', _ => 0.0);
        } else {
          n' := Trunc(buffer[0]);
        }
        phase' := ExpectNnz;
      }
    } else {
      var ok := ReadNNums(row, 1, buffer, scan);
      if ok {
        nnz' := Trunc(buffer[0]);
      }
      phase' := InMatrix;
    }
  }

  /** A STATE_MATRIX row of the real overload. */
  method ReadRealMatrixRow(row: string, cplx2Real: bool, n: int, nnz: int, k: nat, mat: map<nat, Entry<real>>,
                           buffer: array<real>, scan: string -> real, ghost s: Reader<real>)
    returns (phase': Phase, k': nat, mat': map<nat, Entry<real>>)
    requires s.phase == InMatrix && s.n == n && s.nnz == nnz && s.k == k && s.mat == mat
    requires buffer.Length == 4
    modifies buffer
    ensures RealMatrixStep(s, Tokens(row), cplx2Real, scan) == s.(phase := phase', k := k', mat := mat')
  {
    phase', k', mat' := InMatrix, k, mat;
    if cplx2Real {
      var ok := ReadNNums(row, 4, buffer, scan);
      if ok {
        mat' := ExpandRow(mat, k, n, nnz, buffer[0], buffer[1], buffer[2], buffer[3]);
        assert buffer[..4] == [buffer[0], buffer[1], buffer[2], buffer[3]];
        k' := k + 2;
      } else {
        phase' := InRhs;
      }
    } else {
      var ok := ReadNNums(row, 3, buffer, scan);
      if ok {
        mat' := mat'[|mat'| := Entry(Trunc(buffer[0]), Trunc(buffer[1]), buffer[2])];
      } else {
        phase' := InRhs;
      }
    }
  }

  /** The four `mat.insert` calls of one complex entry in cplx2Real mode. */
  method ExpandRow(mat: map<nat, Entry<real>>, k: nat, n: int, nnz: int, a0: real, a1: real, a2: real, a3: real)
    returns (mat': map<nat, Entry<real>>)
    ensures mat' == ExpandComplex(mat, k, n, nnz, [a0, a1, a2, a3])
  {
    var i, j, h := Trunc(a0), Trunc(a1), Half(n);
    ghost var pairs := [(k, Entry(i, j, a2)), (k + 1, Entry(i + h, j, a3)),
                        (k + 2 * nnz, Entry(i, j + h, -a3)), (k + 2 * nnz + 1, Entry(i + h, j + h, a2))];
    assert InsertAll(mat, pairs) == InsertAll(Insert(mat, ToUnsigned(k), pairs[0].1), pairs[1..]);
    mat' := Insert(mat, ToUnsigned(k), Entry(i, j, a2));
    assert InsertAll(mat', pairs[1..]) == InsertAll(Insert(mat', ToUnsigned(k + 1), pairs[1].1), pairs[2..]);
    mat' := Insert(mat', ToUnsigned(k + 1), Entry(i + h, j, a3));
    assert InsertAll(mat', pairs[2..]) == InsertAll(Insert(mat', ToUnsigned(k + 2 * nnz), pairs[2].1), pairs[3..]);
    mat' := Insert(mat', ToUnsigned(k + 2 * nnz), Entry(i, j + h, -a3));
    assert InsertAll(mat', pairs[3..]) == InsertAll(Insert(mat', ToUnsigned(k + 2 * nnz + 1), pairs[3].1), pairs[4..]);
    mat' := Insert(mat', ToUnsigned(k + 2 * nnz + 1), Entry(i + h, j + h, a2));
    assert pairs[4..] == [];
  }

  /** A STATE_RHS row of the real overload; `defined` is false when `rhs_buffer[l]` lies past its end. */
  method ReadRealRhsRow(row: string, cplx2Real: bool, n: int, l: nat, rhs: map<nat, real>, rhsBuffer: array<real>,
                        buffer: array<real>, scan: string -> real, ghost s: Reader<real>)
    returns (defined: bool, l': nat, rhs': map<nat, real>)
    requires s.phase == InRhs && s.n == n && s.l == l && s.rhs == rhs && s.rhsBuffer == rhsBuffer[..]
    requires buffer.Length == 4 && buffer != rhsBuffer
    modifies buffer, rhsBuffer
    ensures defined <==> RealRhsStep(s, Tokens(row), cplx2Real, scan).Some?
    ensures defined ==> RealRhsStep(s, Tokens(row), cplx2Real, scan) == Some(s.(l := l', rhs := rhs', rhsBuffer := rhsBuffer[..]))
  {
    l', rhs' := l, rhs;
    defined := true;
    if cplx2Real {
      var ok := ReadNNums(row, 3, buffer, scan);
      if ok {
        if l >= rhsBuffer.Length {
          // rhs_buffer[l] lies past the end of rhs_buffer
          return false, l', rhs';
        }
        rhs' := rhs'[ToUnsigned(Trunc(buffer[0])) := buffer[1]];
        rhsBuffer[l] := buffer[2];
        l' := l + 1;
        if buffer[0] == (Half(n) - 1) as real {
          // the last row: the buffered imaginary parts follow the real ones
          rhs' := FlushBuffered(rhs', rhsBuffer, l');
        }
      }
    } else {
      var ok := ReadNNums(row, 2, buffer, scan);
      if ok {
        rhs' := rhs'[ToUnsigned(Trunc(buffer[0])) := buffer[1]];
      }
    }
  }

  /** The loop `rhs[rhs.size()] = rhs_buffer[i]` over the first `count` buffered values. */
  method FlushBuffered(rhs: map<nat, real>, rhsBuffer: array<real>, count: nat) returns (rhs': map<nat, real>)
    requires count <= rhsBuffer.Length
    ensures rhs' == AppendBuffered(rhs, rhsBuffer[..], 0, count)
  {
    rhs' := rhs;
    for j := 0 to count
      invariant AppendBuffered(rhs', rhsBuffer[..], j, count) == AppendBuffered(rhs, rhsBuffer[..], 0, count)
    {
      rhs' := rhs'[|rhs'| := rhsBuffer[j]];
    }
  }

  /**
   * read_matrix_and_rhs for real matrices. `file` is None when it cannot be
   * opened; `n0`, `nnz0`, `mat0` and `rhs0` are the caller's variables passed
   * by reference.
   */
  method ReadMatrixAndRhs(file: Option<seq<string>>, n0: int, nnz0: int, mat0: map<nat, Entry<real>>,
                          rhs0: map<nat, real>, cplx2Real: bool, scan: string -> real)
    returns (status: Status, n: int, nnz: int, mat: map<nat, Entry<real>>, rhs: map<nat, real>)
    ensures file.None? ==> status == TestFailure && n == n0 && nnz == nnz0 && mat == mat0 && rhs == rhs0
    ensures file.Some? ==>
              var r := RunReal(Start(n0, nnz0, mat0, rhs0), TokenRows(file.value), cplx2Real, scan);
              && (status == Undefined <==> r.None?)
              && (r.Some? ==> status == TestSuccess && n == r.value.n && nnz == r.value.nnz
                                && mat == r.value.mat && rhs == r.value.rhs)
  {
    if file.None? {
      return TestFailure, n0, nnz0, mat0, rhs0;
    }
    var rows := file.value;
    n, nnz, mat, rhs := n0, nnz0, mat0, rhs0;
    var phase := ExpectN;
    var k: nat, l: nat := 0, 0;
    var rhsBuffer := new real[0];
    var buffer := new real[4];
    ghost var start := Start(n0, nnz0, mat0, rhs0);
    assert TokenRows(rows)[0..] == TokenRows(rows) && rhsBuffer[..] == [];
    var i := 0;
    while i < |rows|
      invariant 0 <= i <= |rows|
      invariant buffer.Length == 4 && buffer != rhsBuffer && fresh(rhsBuffer)
      invariant RunReal(start, TokenRows(rows), cplx2Real, scan)
                == RunReal(Reader(phase, n, nnz, k, l, rhsBuffer[..], mat, rhs), TokenRows(rows)[i..], cplx2Real, scan)
    {
      ghost var before := Reader(phase, n, nnz, k, l, rhsBuffer[..], mat, rhs);
      var row := rows[i];
      assert TokenRows(rows)[i..][0] == Tokens(row) && TokenRows(rows)[i..][1..] == TokenRows(rows)[i + 1..];
      var defined := true;
      match phase {
        case ExpectN =>
          defined, phase, n, nnz, rhsBuffer := ReadHeaderRow(row, cplx2Real, phase, n, nnz, rhsBuffer, buffer, scan, before);
        case ExpectNnz =>
          defined, phase, n, nnz, rhsBuffer := ReadHeaderRow(row, cplx2Real, phase, n, nnz, rhsBuffer, buffer, scan, before);
        case InMatrix =>
          phase, k, mat := ReadRealMatrixRow(row, cplx2Real, n, nnz, k, mat, buffer, scan, before);
        case InRhs =>
          defined, l, rhs := ReadRealRhsRow(row, cplx2Real, n, l, rhs, rhsBuffer, buffer, scan, before);
      }
      if !defined {
        return Undefined, n, nnz, mat, rhs;
      }
      assert RealStep(before, Tokens(row), cplx2Real, scan) == Some(Reader(phase, n, nnz, k, l, rhsBuffer[..], mat, rhs));
      i := i + 1;
    }
    status := TestSuccess;
  }

  /** A STATE_MATRIX row of the complex overload: an entry stored at key `mat.size()`, or the end of the matrix. */
  method ReadComplexMatrixRow(row: string, cplx2Real: bool, mat: map<nat, Entry<Complex>>, buffer: array<real>,
                              scan: string -> real, ghost s: Reader<Complex>)
    returns (phase': Phase, mat': map<nat, Entry<Complex>>)
    requires s.phase == InMatrix && s.mat == mat
    requires buffer.Length == 4
    modifies buffer
    ensures ComplexStep(s, Tokens(row), cplx2Real, scan) == Some(s.(phase := phase', mat := mat'))
  {
    phase', mat' := InMatrix, mat;
    var ok := ReadNNums(row, 4, buffer, scan);
    if ok {
      mat' := mat[|mat| := Entry(Trunc(buffer[0]), Trunc(buffer[1]), Complex(buffer[2], buffer[3]))];
    } else {
      phase' := InRhs;
    }
  }

  /** A STATE_RHS row of the complex overload: the value stored under its index converted to `unsigned int`. */
  method ReadComplexRhsRow(row: string, cplx2Real: bool, rhs: map<nat, Complex>, buffer: array<real>,
                           scan: string -> real, ghost s: Reader<Complex>)
    returns (rhs': map<nat, Complex>)
    requires s.phase == InRhs && s.rhs == rhs
    requires buffer.Length == 4
    modifies buffer
    ensures ComplexStep(s, Tokens(row), cplx2Real, scan) == Some(s.(rhs := rhs'))
  {
    rhs' := rhs;
    var ok := ReadNNums(row, 3, buffer, scan);
    if ok {
      rhs' := rhs[ToUnsigned(Trunc(buffer[0])) := Complex(buffer[1], buffer[2])];
    }
  }

  /** read_matrix_and_rhs for complex matrices. */
  method ReadComplexMatrixAndRhs(file: Option<seq<string>>, n0: int, nnz0: int, mat0: map<nat, Entry<Complex>>,
                                 rhs0: map<nat, Complex>, cplx2Real: bool, scan: string -> real)
    returns (status: Status, n: int, nnz: int, mat: map<nat, Entry<Complex>>, rhs: map<nat, Complex>)
    ensures file.None? ==> status == TestFailure && n == n0 && nnz == nnz0 && mat == mat0 && rhs == rhs0
    ensures file.Some? ==>
              var r := RunComplex(Start(n0, nnz0, mat0, rhs0), TokenRows(file.value), cplx2Real, scan);
              && (status == Undefined <==> r.None?)
              && (r.Some? ==> status == TestSuccess && n == r.value.n && nnz == r.value.nnz
                                && mat == r.value.mat && rhs == r.value.rhs)
  {
    if file.None? {
      return TestFailure, n0, nnz0, mat0, rhs0;
    }
    var rows := file.value;
    n, nnz, mat, rhs := n0, nnz0, mat0, rhs0;
    var phase := ExpectN;
    var k: nat, l: nat := 0, 0;
    var rhsBuffer := new real[0];
    var buffer := new real[4];
    ghost var start := Start(n0, nnz0, mat0, rhs0);
    assert TokenRows(rows)[0..] == TokenRows(rows) && rhsBuffer[..] == [];
    var i := 0;
    while i < |rows|
      invariant 0 <= i <= |rows|
      invariant buffer.Length == 4 && buffer != rhsBuffer && fresh(rhsBuffer)
      invariant RunComplex(start, TokenRows(rows), cplx2Real, scan)
                == RunComplex(Reader(phase, n, nnz, k, l, rhsBuffer[..], mat, rhs), TokenRows(rows)[i..], cplx2Real, scan)
    {
      ghost var before := Reader(phase, n, nnz, k, l, rhsBuffer[..], mat, rhs);
      var row := rows[i];
      assert TokenRows(rows)[i..][0] == Tokens(row) && TokenRows(rows)[i..][1..] == TokenRows(rows)[i + 1..];
      var defined := true;
      match phase {
        case ExpectN =>
          defined, phase, n, nnz, rhsBuffer := ReadHeaderRow(row, cplx2Real, phase, n, nnz, rhsBuffer, buffer, scan, before);
        case ExpectNnz =>
          defined, phase, n, nnz, rhsBuffer := ReadHeaderRow(row, cplx2Real, phase, n, nnz, rhsBuffer, buffer, scan, before);
        case InMatrix =>
          phase, mat := ReadComplexMatrixRow(row, cplx2Real, mat, buffer, scan, before);
        case InRhs =>
          rhs := ReadComplexRhsRow(row, cplx2Real, rhs, buffer, scan, before);
      }
      if !defined {
        return Undefined, n, nnz, mat, rhs;
      }
      assert ComplexStep(before, Tokens(row), cplx2Real, scan) == Some(Reader(phase, n, nnz, k, l, rhsBuffer[..], mat, rhs));
      i := i + 1;
    }
    status := TestSuccess;
  }
}
