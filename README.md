# Hermes: calculation continuity and the linear-solver test reader

This project models two pieces of the Hermes finite-element library in Dafny
and proves properties of them.

**The checkpoint registry of Hermes2D.** A `Continuity` object collects the
`Record`s of a calculation so that the calculation can be resumed later
(`hermes2d/include/calculation_continuity.h`). Records are identified in one
of three ways, chosen when the registry is built:
- by time and step number, stored in `records`;
- by time only, stored in `time_records`;
- by number only, stored in `numbered_records`.

A record keeps:
- the names of the mesh, space and solution files it saved;
- an optional time-step length;
- an optional error estimate.

The header gives only signatures and one-line comments; the C++ functions
return `void`, plain values or pointers and have no failure channel. The
behaviour below, and every failure result in it, is this model's own reading
of those names and comments:
- `add_record` refuses an overload that does not fit the identification method
  (`PolicyMismatch`).
- `add_record` refuses a key that is already registered (`DuplicateKey`).
- Otherwise it stores a fresh, blank record and makes it the last record.
- Saving appends file names numbered in save order.
- Loading pairs each handle with the file saved at the same position. It fails
  with `ArityMismatch` when the counts differ.
- Loading a scalar that was never saved fails with `NotFound`.
- `get_time` and `get_number` fail with `InvalidIdentityAccess` on a record
  that was not built with that field.

`std::map` iterates its keys in ascending order. `OrderedKeys` enumerates the
`(time, number)` keys in that order, and `AscendingIsUnique` proves that the
order is unique.

**The test driver of the linear solvers**
(`hermes_common/solvers/tests/linear-solvers/main.cpp`):
- `read_n_nums` splits a row into tokens as `strtok` does and converts the
  first `n` of them. It is modelled as a method that calls `NextToken`, plus
  the specification functions `Tokens` and `ReadN`.
- Both overloads of `read_matrix_and_rhs` are modelled. Each is a loop over the
  rows of a file, driving a four-state machine: `STATE_N`, `STATE_NNZ`,
  `STATE_MATRIX`, `STATE_RHS`.
  - The loop is `ReadMatrixAndRhs` / `ReadComplexMatrixAndRhs`.
  - The per-row specification is `RealStep` / `ComplexStep`, folded over the
    file by `RunReal` / `RunComplex`.
  - Each method's `ensures` ties its outputs to that fold.
  - The outcome is `TestFailure` when the file cannot be opened.
  - It is `Undefined` when the C++ code has no defined behaviour: a negative
    array size passed to `new double[n]`, or a write past the end of
    `rhs_buffer`.
  - It is `TestSuccess` otherwise.
- `build_matrix_block` registers the full n × n pattern, then copies the map
  entries into a dense array and the right-hand side into a vector, in key
  order. It is modelled by `DensePattern`, `Indices`, `ClampedRows`,
  `BlockIndices`, `FillDense` and `FillRhs`.
- `testPrint` is modelled by `TestPrint`.

These C behaviours are written out explicitly:
- The `(int)` cast of a double truncates toward zero (`Trunc`, with
  `TruncTowardZero`).
- `n/2` on an `int` truncates toward zero (`Half`).
- Keys converted to `unsigned int` wrap modulo 2^32 (`ToUnsigned`).
- `std::map::insert` never overwrites an existing key (`Insert`, with
  `InsertKeeps`), while `operator[]` does.

`ReaderProperties` proves what whole files produce:
- In real mode the matrix holds the entries under keys 0 .. m-1, in file
  order, and the right-hand side is the caller's map overwritten by each row's
  `rhs[(int) b0] = b1`, so every key holds its last write (`RealFileLayout`,
  `WrittenAt`).
- The complex overload does the same with complex entries and
  `rhs[(int) b0] = (b1, b2)` (`ComplexFileLayout`).
- In complex-to-real mode:
  - the matrix is an expansion into 2 × 2 blocks whose keys never collide
    while at most `nnz` rows are read (`ComplexToRealLayout`);
  - for a dense, ordered right-hand side, the real parts are followed by the
    imaginary parts (`ComplexRhsPlacement`, and for a whole file
    `ComplexToRealRhs`);
  - for a sparse one, a real part is overwritten (`SparseRhsOverwrite`).

Files:
- `wrappers.dfy`: `Option`, `Result`, `Outcome`.
- `continuity.dfy`: module `CalculationContinuity`.
- `tokenizer.dfy`: module `Tokenizer`.
- `matrix_reader.dfy`: module `MatrixReader`.
- `reader_properties.dfy`: module `ReaderProperties`.
- `solver_test_driver.dfy`: module `SolverTestDriver`.

## Model

| member | source | states |
|---|---|---|
| CalculationContinuity.Record.WithTimeAndNumber | hermes2d/include/calculation_continuity.h:53 | a record built from a time and a number carries exactly that identity and starts with no files and no scalars |
| CalculationContinuity.Record.WithTime | hermes2d/include/calculation_continuity.h:54 | a record built from a time carries that time only and starts blank |
| CalculationContinuity.Record.WithNumber | hermes2d/include/calculation_continuity.h:55 | a record built from a number carries that number only and starts blank |
| CalculationContinuity.Record.SaveMeshes | hermes2d/include/calculation_continuity.h:57-58 | one mesh file name per mesh is appended, numbered on from the names already saved, which are kept; the file lists stay well formed |
| CalculationContinuity.Record.SaveMesh | hermes2d/include/calculation_continuity.h:59-60 | exactly one mesh file name, with the next number, is appended |
| CalculationContinuity.Record.SaveSpaces | hermes2d/include/calculation_continuity.h:62-63 | one space file name per space is appended and the earlier names are kept |
| CalculationContinuity.Record.SaveSpace | hermes2d/include/calculation_continuity.h:64-65 | exactly one space file name, with the next number, is appended |
| CalculationContinuity.Record.SaveSolutions | hermes2d/include/calculation_continuity.h:67-68 | one solution file name per solution is appended and the earlier names are kept |
| CalculationContinuity.Record.SaveSolution | hermes2d/include/calculation_continuity.h:69-70 | exactly one solution file name, with the next number, is appended |
| CalculationContinuity.Record.SaveTimeStepLength | hermes2d/include/calculation_continuity.h:72-73 | the time-step length becomes present with the saved value |
| CalculationContinuity.Record.SaveError | hermes2d/include/calculation_continuity.h:75-76 | the error estimate becomes present with the saved value |
| CalculationContinuity.Record.LoadMeshes | hermes2d/include/calculation_continuity.h:78-79 | fails with ArityMismatch exactly when the number of handles differs from the number of saved mesh files; otherwise handle i is read from mesh file i |
| CalculationContinuity.Record.LoadMesh | hermes2d/include/calculation_continuity.h:80-81 | succeeds exactly when one mesh file was saved, and reads mesh file 0; otherwise fails with ArityMismatch |
| CalculationContinuity.Record.LoadSpaces | hermes2d/include/calculation_continuity.h:83-84 | fails exactly when the counts differ; otherwise handle i is read from space file i |
| CalculationContinuity.Record.LoadSpace | hermes2d/include/calculation_continuity.h:85-86 | succeeds exactly when one space file was saved, and reads space file 0; otherwise fails with ArityMismatch |
| CalculationContinuity.Record.LoadSolutions | hermes2d/include/calculation_continuity.h:88-89 | fails exactly when the counts differ; otherwise handle i is read from solution file i |
| CalculationContinuity.Record.LoadSolution | hermes2d/include/calculation_continuity.h:90-91 | succeeds exactly when one solution file was saved, and reads solution file 0; otherwise fails with ArityMismatch |
| CalculationContinuity.Record.LoadTimeStepLength | hermes2d/include/calculation_continuity.h:93-94 | returns the saved time-step length, and fails with NotFound exactly when none was saved |
| CalculationContinuity.Record.LoadError | hermes2d/include/calculation_continuity.h:96-97 | returns the saved error estimate, and fails with NotFound exactly when none was saved |
| CalculationContinuity.Record.GetTime | hermes2d/include/calculation_continuity.h:99-100 | returns the construction time, and fails exactly for a record identified by number only |
| CalculationContinuity.Record.GetNumber | hermes2d/include/calculation_continuity.h:102-103 | returns the construction number, and fails exactly for a record identified by time only |
| CalculationContinuity.Continuity.constructor | hermes2d/include/calculation_continuity.h:46 | the registry starts with no records and no last record, and with the chosen identification method and disk flag |
| CalculationContinuity.Continuity.AddRecord | hermes2d/include/calculation_continuity.h:124-126 | succeeds exactly when the method is time-and-number and (time, number) is not yet registered; then a fresh blank record with that identity is stored under (time, number), becomes the last record, and `GetLastRecord` returns it; a refusal changes nothing; the other maps never change |
| CalculationContinuity.Continuity.AddTimeRecord | hermes2d/include/calculation_continuity.h:128-130 | succeeds exactly when the method is time-only and the time is new; then the new record is stored under the time and `GetLastRecord` returns it |
| CalculationContinuity.Continuity.AddNumberRecord | hermes2d/include/calculation_continuity.h:132-134 | succeeds exactly when the method is number-only and the number is new; then the new record is stored under the number and `GetLastRecord` returns it |
| CalculationContinuity.Continuity.HaveRecordAvailable | hermes2d/include/calculation_continuity.h:136-138 | returns `record_available` |
| CalculationContinuity.Continuity.GetLastRecord | hermes2d/include/calculation_continuity.h:140-141 | fails with NoRecords exactly when nothing has been added; otherwise returns the last record added, which is held in the map of its identity under its own key and is a well-formed record that can be saved to and loaded from |
| CalculationContinuity.KeyOrderIsStrictTotal | hermes2d/include/calculation_continuity.h:159 | the lexicographic order of (time, number) keys is irreflexive, transitive and total |
| CalculationContinuity.LeastKeyExists | hermes2d/include/calculation_continuity.h:159 | every non-empty set of keys has a least key |
| CalculationContinuity.AscendingIsUnique | hermes2d/include/calculation_continuity.h:159 | two strictly ascending sequences with the same keys are equal |
| CalculationContinuity.Continuity.OrderedKeys | hermes2d/include/calculation_continuity.h:159 | lists the keys of `records` in strictly ascending order, each exactly once |
| Tokenizer.Word | hermes_common/solvers/tests/linear-solvers/main.cpp:83-84 | the word is the longest prefix free of the delimiters " \t\n\r" |
| Tokenizer.TokensAreWords | hermes_common/solvers/tests/linear-solvers/main.cpp:83-90 | every token is non-empty and holds no delimiter |
| Tokenizer.WordHasLength | hermes_common/solvers/tests/linear-solvers/main.cpp:84 | a delimiter-free prefix that ends at a delimiter or at the end of the row is the first word |
| Tokenizer.TokensOfJoined | hermes_common/solvers/tests/linear-solvers/main.cpp:83-90 | splitting words joined by blanks gives the words back |
| Tokenizer.SkipDelimiters | hermes_common/solvers/tests/linear-solvers/main.cpp:84 | stops at the first non-delimiter, skipping no token; reaches the end exactly when no token is left |
| Tokenizer.WordEnd | hermes_common/solvers/tests/linear-solvers/main.cpp:84 | stops at the end of the word that starts at the given position |
| Tokenizer.TokensAfterDelimiter | hermes_common/solvers/tests/linear-solvers/main.cpp:84 | a delimiter yields no token |
| Tokenizer.TokenAt | hermes_common/solvers/tests/linear-solvers/main.cpp:84-90 | a word at the scan position is the next token, and the tokens after it start behind the delimiter that ended it |
| Tokenizer.NextToken | hermes_common/solvers/tests/linear-solvers/main.cpp:84-90 | one strtok call: NULL exactly when no token is left; otherwise the next token, with the following call resuming at the rest |
| Tokenizer.Tokens | hermes_common/solvers/tests/linear-solvers/main.cpp:83-90 | the `strtok` tokens of a row, at most one per two characters since tokens are separated by delimiters |
| Tokenizer.ReadN | hermes_common/solvers/tests/linear-solvers/main.cpp:81-94 | defined exactly when the row has at least n tokens, and then holds the conversions of the first n |
| Tokenizer.ReadNNums | hermes_common/solvers/tests/linear-solvers/main.cpp:81-94 | true exactly when the row has at least n tokens; stores the conversions of the first min(n, tokens) tokens and leaves the rest of `values` unchanged |
| MatrixReader.TruncTowardZero | hermes_common/solvers/tests/linear-solvers/main.cpp:122-129 | the `(int)` cast has the sign of its operand and lies within 1 of it, on the side of 0 |
| MatrixReader.Half | hermes_common/solvers/tests/linear-solvers/main.cpp:146-148 | `n/2` rounds toward zero: twice the result is n, or n - 1 for odd positive n and n + 1 for odd negative n |
| MatrixReader.ToUnsigned | hermes_common/solvers/tests/linear-solvers/main.cpp:145-148 | the `unsigned int` key is below 2^32, differs from the `int` key by a multiple of 2^32 (so a negative key wraps), and equals it when it is already in range |
| MatrixReader.InsertKeeps | hermes_common/solvers/tests/linear-solvers/main.cpp:145-148 | `insert` adds its key, stores its value only when the key is new and keeps every existing entry |
| MatrixReader.InsertAllKeeps | hermes_common/solvers/tests/linear-solvers/main.cpp:145-148 | a run of `insert` calls keeps every existing entry and leaves every inserted key present |
| MatrixReader.ExpandComplexKeeps | hermes_common/solvers/tests/linear-solvers/main.cpp:145-148 | expanding a complex entry never overwrites an entry of the matrix and leaves its four block keys present |
| MatrixReader.HeaderStep | hermes_common/solvers/tests/linear-solvers/main.cpp:119-140 | undefined exactly when cplx2Real allocates a negative size; the STATE_N row waits for a number and the STATE_NNZ row is left whatever it holds; the counters and maps are untouched; the STATE_NNZ row keeps n and `rhs_buffer`; in cplx2Real mode a read n is even and sizes `rhs_buffer` |
| MatrixReader.RealMatrixStep | hermes_common/solvers/tests/linear-solvers/main.cpp:142-161 | a row with too few numbers ends the matrix and changes nothing else; n, nnz, l, `rhs_buffer` and the right-hand side never change |
| MatrixReader.RealRhsStep | hermes_common/solvers/tests/linear-solvers/main.cpp:163-193 | undefined exactly when a cplx2Real row writes `rhs_buffer[l]` past its end; otherwise the phase, n, nnz, k, the matrix and the buffer's size are kept; without cplx2Real a row of at least two numbers b0 b1 sets `rhs[(unsigned) (int) b0] = b1` and a shorter row changes nothing; in cplx2Real mode a row of three numbers b0 b1 b2 sets `rhs[(unsigned) (int) b0] = b1` and `rhs_buffer[l] = b2` and advances l, whatever b0 is, and when b0 is n/2-1 it then appends `rhs_buffer[0..l)` from `rhs.size()`; a shorter row changes nothing |
| MatrixReader.RunReal | hermes_common/solvers/tests/linear-solvers/main.cpp:117-195 | the `fgets` loop over the rows never moves the phase backwards |
| MatrixReader.RunComplex | hermes_common/solvers/tests/linear-solvers/main.cpp:229-270 | the same for the complex overload |
| MatrixReader.RealStep | hermes_common/solvers/tests/linear-solvers/main.cpp:117-194 | undefined exactly in cplx2Real mode when `new double` gets a negative size or `rhs_buffer[l]` lies past its end; otherwise the phase moves only along N → NNZ → MATRIX → RHS; the matrix changes only in STATE_MATRIX and the right-hand side only in STATE_RHS |
| MatrixReader.ComplexStep | hermes_common/solvers/tests/linear-solvers/main.cpp:229-269 | undefined exactly when cplx2Real allocates a negative size; otherwise the same phase and frame discipline; in STATE_RHS a row of at least three numbers b0 b1 b2 sets `rhs[(unsigned) (int) b0] = (b1, b2)` and a shorter row changes nothing |
| MatrixReader.ReadHeaderRow | hermes_common/solvers/tests/linear-solvers/main.cpp:119-140 | the STATE_N and STATE_NNZ rows update n, nnz, the phase and `rhs_buffer` as the header step specifies, and report the undefined allocation |
| MatrixReader.ReadRealMatrixRow | hermes_common/solvers/tests/linear-solvers/main.cpp:142-161 | a STATE_MATRIX row changes the state as the real matrix step specifies |
| MatrixReader.ExpandRow | hermes_common/solvers/tests/linear-solvers/main.cpp:145-148 | the four `insert` calls give the specified expansion of a complex entry |
| MatrixReader.FlushBuffered | hermes_common/solvers/tests/linear-solvers/main.cpp:182-185 | the loop `rhs[rhs.size()] = rhs_buffer[i]` gives the flush the right-hand-side step specifies |
| MatrixReader.ReadRealRhsRow | hermes_common/solvers/tests/linear-solvers/main.cpp:163-193 | a STATE_RHS row changes the state as the real right-hand-side step specifies, and is undefined exactly when that step is |
| MatrixReader.ReadMatrixAndRhs | hermes_common/solvers/tests/linear-solvers/main.cpp:96-206 | TEST_FAILURE with nothing changed when the file cannot be opened; otherwise undefined exactly when the run over the file's rows is, and else TEST_SUCCESS with n, nnz, the matrix and the right-hand side the run produces |
| MatrixReader.ReadComplexMatrixRow | hermes_common/solvers/tests/linear-solvers/main.cpp:254-261 | a STATE_MATRIX row of the complex overload changes the state as the complex step specifies |
| MatrixReader.ReadComplexRhsRow | hermes_common/solvers/tests/linear-solvers/main.cpp:263-268 | a STATE_RHS row of the complex overload changes the state as the complex step specifies |
| MatrixReader.ReadComplexMatrixAndRhs | hermes_common/solvers/tests/linear-solvers/main.cpp:208-281 | the same for the complex overload |
| ReaderProperties.RunRealAppend | hermes_common/solvers/tests/linear-solvers/main.cpp:117-195 | reading a + b is reading a and then b from the state a leaves |
| ReaderProperties.RunComplexAppend | hermes_common/solvers/tests/linear-solvers/main.cpp:229-270 | the same for the complex overload |
| ReaderProperties.RunRealOne | hermes_common/solvers/tests/linear-solvers/main.cpp:117-195 | reading one row is one step |
| ReaderProperties.RealModeIsDefined | hermes_common/solvers/tests/linear-solvers/main.cpp:117-195 | without cplx2Real the real overload has a defined outcome on every file |
| ReaderProperties.ComplexModeIsDefined | hermes_common/solvers/tests/linear-solvers/main.cpp:229-270 | without cplx2Real the complex overload has a defined outcome on every file |
| ReaderProperties.RhsIsTerminal | hermes_common/solvers/tests/linear-solvers/main.cpp:163-193 | STATE_RHS is never left, and once it is reached the matrix, n and nnz no longer change |
| ReaderProperties.ComplexRhsIsTerminal | hermes_common/solvers/tests/linear-solvers/main.cpp:263-268 | the same for the complex overload |
| ReaderProperties.WrittenAt | hermes_common/solvers/tests/linear-solvers/main.cpp:189-191 | after a run of `rhs[key] = value` writes a key is present exactly when it was before or some write is to it; it holds the value of the last write to it, or its earlier value when no write is to it |
| ReaderProperties.RealRhsRows | hermes_common/solvers/tests/linear-solvers/main.cpp:189-191 | without cplx2Real, STATE_RHS rows are exactly the writes `rhs[(int) b0] = b1` of the rows with two numbers, in file order; shorter rows are skipped and nothing else changes |
| ReaderProperties.ComplexRhsRows | hermes_common/solvers/tests/linear-solvers/main.cpp:263-268 | STATE_RHS rows of the complex overload are exactly the writes `rhs[(int) b0] = (b1, b2)` of the rows with three numbers, in file order |
| ReaderProperties.AppendedDense | hermes_common/solvers/tests/linear-solvers/main.cpp:156 | `m[m.size()] = v` on a map with keys 0 .. size-1 puts the values at the next keys, in order, and keeps the earlier ones |
| ReaderProperties.AppendBufferedIsAppended | hermes_common/solvers/tests/linear-solvers/main.cpp:182-185 | the flush loop appends `rhs_buffer[i .. l-1]` in order |
| ReaderProperties.RealRowsAppend | hermes_common/solvers/tests/linear-solvers/main.cpp:154-160 | in real mode each matrix row of three numbers is stored at key `mat.size()`, in file order |
| ReaderProperties.ComplexRowsAppend | hermes_common/solvers/tests/linear-solvers/main.cpp:254-261 | in the complex overload each matrix row of four numbers is stored at key `mat.size()`, in file order |
| ReaderProperties.HeaderRows | hermes_common/solvers/tests/linear-solvers/main.cpp:119-140 | after the two header rows the phase is STATE_MATRIX; n is the truncated first number, doubled in cplx2Real mode; nnz is the truncated second number, or unchanged when that row is empty; in cplx2Real mode `rhs_buffer` holds n zeros, twice the header number |
| ReaderProperties.RealHeaderRun | hermes_common/solvers/tests/linear-solvers/main.cpp:119-140 | the two header rows, read as a run, give that header state |
| ReaderProperties.RealFileRun | hermes_common/solvers/tests/linear-solvers/main.cpp:117-160 | a real-mode file reaches STATE_RHS at its short row, with the header's n and nnz, the matrix rows appended and the caller's right-hand side untouched |
| ReaderProperties.RealFileLayout | hermes_common/solvers/tests/linear-solvers/main.cpp:96-206 | a whole real-mode file is defined and ends in STATE_RHS with the header's n and nnz, with its matrix rows appended in file order, and with the caller's right-hand side overwritten by the writes of its right-hand-side rows in file order |
| ReaderProperties.ComplexHeaderRun | hermes_common/solvers/tests/linear-solvers/main.cpp:231-252 | the two header rows of the complex overload, read as a run, give the header state |
| ReaderProperties.ComplexFileLayout | hermes_common/solvers/tests/linear-solvers/main.cpp:208-281 | a whole file read by the complex overload is defined (with cplx2Real, when n is not negative) and ends in STATE_RHS with the header's n (doubled in cplx2Real mode) and nnz, its matrix rows at keys 0 .. m-1 in file order, and the caller's right-hand side overwritten by the writes of its right-hand-side rows in file order |
| ReaderProperties.RealFileMatrix | hermes_common/solvers/tests/linear-solvers/main.cpp:154-160 | that matrix has keys 0 .. m-1, and key j holds the entry of matrix row j |
| ReaderProperties.LayoutKeysSize | hermes_common/solvers/tests/linear-solvers/main.cpp:145-149 | while at most nnz complex rows are read, the keys of k/2 rows number 2k |
| ReaderProperties.ExpandComplexPairs | hermes_common/solvers/tests/linear-solvers/main.cpp:145-148 | the expansion of a row is the four inserts of its block entries at k, k+1, k+2nnz and k+2nnz+1 |
| ReaderProperties.InsertPairsFresh | hermes_common/solvers/tests/linear-solvers/main.cpp:145-148 | on keys not yet present, the four inserts behave as plain assignments |
| ReaderProperties.ExpandComplexIsFresh | hermes_common/solvers/tests/linear-solvers/main.cpp:145-149 | on a matrix with the layout of the rows so far, expanding the next row adds its block without touching earlier keys |
| ReaderProperties.AddBlockLayout | hermes_common/solvers/tests/linear-solvers/main.cpp:145-149 | adding a block extends the key layout by one row |
| ReaderProperties.AddBlockKeepsBlock | hermes_common/solvers/tests/linear-solvers/main.cpp:145-149 | adding a block keeps every earlier block intact |
| ReaderProperties.BlocksLayout | hermes_common/solvers/tests/linear-solvers/main.cpp:143-153 | the blocks of m rows have exactly the keys [0, 2m) and [2nnz, 2nnz + 2m) |
| ReaderProperties.BlocksKeepBlock | hermes_common/solvers/tests/linear-solvers/main.cpp:143-153 | later rows leave an earlier block intact |
| ReaderProperties.BlocksHoldRow | hermes_common/solvers/tests/linear-solvers/main.cpp:143-153 | row t's block sits at keys 2t, 2t+1, 2nnz+2t and 2nnz+2t+1 |
| ReaderProperties.ExpandAllStep | hermes_common/solvers/tests/linear-solvers/main.cpp:143-153 | expanding rows one after the other keeps the layout |
| ReaderProperties.ExpandAllIsBlocks | hermes_common/solvers/tests/linear-solvers/main.cpp:143-153 | within the nnz bound the inserts never collide, so the expansion is the plain block map |
| ReaderProperties.ComplexRowsExpand | hermes_common/solvers/tests/linear-solvers/main.cpp:143-153 | in cplx2Real mode the matrix rows of four numbers are expanded one after the other, in file order, and each advances k by 2 |
| ReaderProperties.BlocksMatrix | hermes_common/solvers/tests/linear-solvers/main.cpp:143-153 | m rows give 4m entries, laid out with row t's real and imaginary parts as the block [[re, -im], [im, re]] shifted by n/2 |
| ReaderProperties.ComplexFileRun | hermes_common/solvers/tests/linear-solvers/main.cpp:117-153 | a cplx2Real file reaches STATE_RHS at its short row with n doubled and the rows expanded, the caller's rhs untouched, l at 0 and `rhs_buffer` holding n zeros |
| ReaderProperties.ComplexToRealLayout | hermes_common/solvers/tests/linear-solvers/main.cpp:96-206 | a whole cplx2Real file with at most nnz matrix rows gives a 4m-entry matrix whose blocks hold each row's expansion |
| ReaderProperties.BufferRow | hermes_common/solvers/tests/linear-solvers/main.cpp:167-172 | a row of a dense, in-order right-hand side whose index is l, before the last row, stores its real part at key l and buffers its imaginary part at l |
| ReaderProperties.BufferRealParts | hermes_common/solvers/tests/linear-solvers/main.cpp:163-172 | rows before the last append their real parts and buffer their imaginary parts in order |
| ReaderProperties.FlushRow | hermes_common/solvers/tests/linear-solvers/main.cpp:174-186 | the last row stores its real part, then appends every buffered imaginary part, its own last |
| ReaderProperties.LastRowFlush | hermes_common/solvers/tests/linear-solvers/main.cpp:174-186 | in any state, the row with index n/2 - 1 writes its real part at its index and then appends the buffered imaginary parts 0 .. l, its own last, from key `rhs.size()` of the map as that write left it |
| ReaderProperties.ComplexRhsFront | hermes_common/solvers/tests/linear-solvers/main.cpp:163-186 | before the last row, the right-hand side holds the real parts and the buffer holds the imaginary parts |
| ReaderProperties.ComplexRhsSplit | hermes_common/solvers/tests/linear-solvers/main.cpp:163-186 | a dense, in-order right-hand side of n/2 rows ends as all real parts followed by all imaginary parts |
| ReaderProperties.ComplexRhsPlacement | hermes_common/solvers/tests/linear-solvers/main.cpp:163-186 | such a right-hand side has keys 0 .. n-1, with row x's real part at x and its imaginary part at n/2 + x |
| ReaderProperties.ComplexToRealRhs | hermes_common/solvers/tests/linear-solvers/main.cpp:117-186 | a whole cplx2Real file read into an empty rhs, whose right-hand side lists rows 0 .. h-1 in order (h the header number), ends with keys 0 .. 2h-1: row x's real part at x and its imaginary part at h + x |
| ReaderProperties.SparseRhsOverwrite | hermes_common/solvers/tests/linear-solvers/main.cpp:174-185 | an instance of LastRowFlush: with n = 4 and only the last row (index 1) present, its real part goes to key 1 and the flush then writes its imaginary part to key `rhs.size()` = 1, overwriting it: the right-hand side ends as {1: imaginary part} |
| SolverTestDriver.RowMajorCells | hermes_common/solvers/tests/linear-solvers/main.cpp:311-313 | the row-major cells of an n-column matrix are exactly the (i, j) with i < rows and j < n, once each |
| SolverTestDriver.DensePattern | hermes_common/solvers/tests/linear-solvers/main.cpp:310-313 | the `pre_add_ij` calls are every cell of the n × n matrix, row after row |
| SolverTestDriver.Indices | hermes_common/solvers/tests/linear-solvers/main.cpp:317-322 | `rows` and `cols` hold i at position i |
| SolverTestDriver.ClampedRows | hermes_common/solvers/tests/linear-solvers/main.cpp:335-337 | each row index is clamped at 0 |
| SolverTestDriver.BlockIndices | hermes_common/solvers/tests/linear-solvers/main.cpp:317-337 | `rows`, `cols` and `u_rows` are fresh arrays of n elements that all list 0 .. n-1 |
| SolverTestDriver.LastWriteUntouched | hermes_common/solvers/tests/linear-solvers/main.cpp:323-326 | a cell that no entry addresses keeps its previous value |
| SolverTestDriver.LastWriteIsLatest | hermes_common/solvers/tests/linear-solvers/main.cpp:323-326 | a cell holds the value of the last entry written to it |
| SolverTestDriver.LargestKeyWins | hermes_common/solvers/tests/linear-solvers/main.cpp:323-326 | in the map's key order, each cell ends with the value of the entry at that cell under the largest key, or keeps its value when no entry is there |
| SolverTestDriver.FillDense | hermes_common/solvers/tests/linear-solvers/main.cpp:316-326 | every cell of the dense array ends with the last write to it in key order, or keeps its prior contents |
| SolverTestDriver.FillRhs | hermes_common/solvers/tests/linear-solvers/main.cpp:331-334 | position i holds `rhs[i]` when i is a key and keeps its prior contents otherwise |
| SolverTestDriver.DenseKeyOrder | hermes_common/solvers/tests/linear-solvers/main.cpp:323-334 | for a map with keys 0 .. size-1 the iteration order is 0, 1, …, size-1 |
| SolverTestDriver.TestPrint | hermes_common/solvers/tests/linear-solvers/main.cpp:69-79 | true exactly when the outcome equals the expected one |

## Left out

- Files and the disk. `fopen`, `fgets` and `fclose` are not modelled. A file is a sequence of rows, or `None` when it cannot be opened.
- Row length. Rows longer than `MAX_ROW_LEN`, which `fgets` would split into several rows, are not modelled: each row is read whole.
- Number parsing. `sscanf("%lf")` is the parameter `scan` from a token to a real. Its parse failures and floating-point rounding are not modelled.
- The reader's arithmetic is on unbounded integers:
  - `int` overflow of `2*n`, `k+2*nnz+1`, `l+1` and the `(int)` casts of out-of-range doubles are not modelled;
  - only the `unsigned int` wrap of the expansion keys and the truncations are.
- MatrixReader.RealStep, MatrixReader.ComplexStep, MatrixReader.AppendBuffered: the keys `mat.size()` (main.cpp:156 and 257) and `rhs.size()` (main.cpp:184) are not wrapped to `unsigned int`. A map of 2^32 entries cannot arise.
- `main`, `build_matrix` and the other test helpers are not part of this model:
  - the solver selection, `solve`, `show_mat` and `show_rhs`;
  - the printing helpers;
  - `build_matrix`;
  - the Epetra and other back-end solvers.
- The calls of `build_matrix_block` into `SparseMatrix` and `Vector` are foreign code: `prealloc`, `alloc`, `add` and `finish`.
  - They are modelled only by their arguments: the pattern list, the dense array, `rows`, `cols`, `rs` and `u_rows`.
  - The initial contents of `new_matrix` and `new Scalar[n]` are unknown, so they stay the arrays' previous values.
- SolverTestDriver.FillDense: the iteration order of `std::map` is passed in as `keys`, with `KeyOrder` stating that it is ascending.
- SolverTestDriver.FillDense: an entry whose (m, n) lies outside the n × n array is a write out of bounds, which has no defined behaviour in C++. A `requires` keeps every entry in range; such writes are not modelled as `Undefined`.
- SolverTestDriver.FillRhs: a right-hand-side key of n or more writes past the end of `rs`, which has no defined behaviour in C++. A `requires` keeps every key below n; such writes are not modelled as `Undefined`.
- SolverTestDriver.TestPrint: the `info` log lines are not modelled.
- CalculationContinuity.Continuity.constructor: the header takes only the identification method. The search for an old record on disk that sets `record_available` is not modelled. Its result is a constructor parameter, returned unchanged by `HaveRecordAvailable`.
- The static base file names and their setters (lines 144-156 of the header) are not modelled. A file name is the structured value `FileName(kind, owner, index)`, not its text.
- Serialisation of meshes, spaces and solutions is not modelled. Only the bookkeeping of which file holds which artifact is.
- Record.LoadSpaces and Record.LoadSpace: the extra parameters (space types, meshes, boundary conditions, polynomial degree, shapeset) only configure how a space is rebuilt. They are not modelled.
- Record.GetTime, Record.GetNumber, Record.LoadMeshes, Record.LoadMesh, Record.LoadSpaces, Record.LoadSpace, Record.LoadSolutions, Record.LoadSolution: the header gives these no failure channel. The failures `InvalidIdentityAccess` (a field the record was not built with) and `ArityMismatch` (a handle count that differs from the saved file count) are the model's own.
- Refusals in the registry. The header states no behaviour for a mismatched `add_record` overload or a repeated key. The model refuses both, with `PolicyMismatch` and `DuplicateKey`, and leaves the registry unchanged.
- Record: `time_step_length` and `error` are plain doubles in the header. "Never saved" is modelled as `None`, where the C++ object would hold an indeterminate value.
