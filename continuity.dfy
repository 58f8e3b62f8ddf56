/**
 * The checkpoint registry of Hermes2D (calculation_continuity.h): a `Continuity`
 * object keeps the `Record`s of an interrupted calculation, keyed by time and
 * number, by time only or by number only, depending on the identification
 * method chosen when it is built.
 */
module CalculationContinuity {
  import opened Wrappers

  /** C++ `unsigned int`. */
  newtype uint32 = x: int | 0 <= x < 0x1_0000_0000

  /** How records are identified; fixed when the registry is built. */
  datatype IdentificationMethod = TimeAndNumber | OnlyTime | OnlyNumber

  /** The identity a record is constructed with; one shape per constructor. */
  datatype Identity =
    | TimeNumberId(time: real, number: uint32)
    | TimeId(time: real)
    | NumberId(number: uint32)

  datatype ArtifactKind = MeshKind | SpaceKind | SolutionKind

  /**
   * The name under which one saved artifact is stored: its kind, the record it
   * belongs to and its position among that record's artifacts of this kind.
   */
  datatype FileName = FileName(kind: ArtifactKind, owner: Identity, index: nat)

  datatype Error =
    | PolicyMismatch        // the add_record overload does not fit the identification method
    | DuplicateKey          // a record with this key is already registered
    | NoRecords             // no record has been added yet
    | NotFound              // an optional scalar was never saved
    | ArityMismatch         // number of handles differs from the number of saved files
    | InvalidIdentityAccess // the record was not identified by the requested field

  /** The names of the first `count` artifacts of one kind of one record. */
  function NamesFor(kind: ArtifactKind, owner: Identity, count: nat): seq<FileName>
  {
    seq(count, i requires 0 <= i => FileName(kind, owner, i))
  }

  /**
   * Appends one file name per artifact to `files`, continuing the numbering;
   * the artifacts themselves are written through the artifact port, which is
   * not part of this model.
   */
  method RecordSaves<A>(kind: ArtifactKind, owner: Identity, files: seq<FileName>, artifacts: seq<A>)
    returns (updated: seq<FileName>)
    requires files == NamesFor(kind, owner, |files|)
    ensures updated == NamesFor(kind, owner, |files| + |artifacts|)
    ensures updated[..|files|] == files
  {
    updated := files;
    for i := 0 to |artifacts|
      invariant updated == NamesFor(kind, owner, |files| + i)
    {
      updated := updated + [FileName(kind, owner, |updated|)];
    }
  }

  /**
   * Pairs each handle to be loaded with the file it is read from, in order;
   * fails with ArityMismatch when the counts differ.
   */
  method PairWithFiles<A>(handles: seq<A>, files: seq<FileName>)
    returns (r: Result<seq<(A, FileName)>, Error>)
    ensures r.Failure? <==> |handles| != |files|
    ensures r.Failure? ==> r.error == ArityMismatch
    ensures r.Success? ==> |r.value| == |handles|
    ensures r.Success? ==> forall i :: 0 <= i < |handles| ==> r.value[i] == (handles[i], files[i])
  {
    if |handles| != |files| {
      return Failure(ArityMismatch);
    }
    var pairs := [];
    for i := 0 to |handles|
      invariant |pairs| == i
      invariant forall j :: 0 <= j < i ==> pairs[j] == (handles[j], files[j])
    {
      pairs := pairs + [(handles[i], files[i])];
    }
    return Success(pairs);
  }

  /** One checkpoint: an identity fixed at construction, the saved file names and optional scalars. */
  class Record {
    const identity: Identity
    var meshFiles: seq<FileName>
    var spaceFiles: seq<FileName>
    var solutionFiles: seq<FileName>
    var timeStepLength: Option<real>
    var error: Option<real>

    /** Every file list holds the names of its own kind, numbered from 0 in save order. */
    ghost predicate Valid()
      reads this
    {
      && meshFiles == NamesFor(MeshKind, identity, |meshFiles|)
      && spaceFiles == NamesFor(SpaceKind, identity, |spaceFiles|)
      && solutionFiles == NamesFor(SolutionKind, identity, |solutionFiles|)
    }

    ghost predicate IsBlank()
      reads this
    {
      meshFiles == [] && spaceFiles == [] && solutionFiles == [] && timeStepLength == None && error == None
    }

    constructor WithTimeAndNumber(time: real, number: uint32)
      ensures Valid() && IsBlank() && identity == TimeNumberId(time, number)
    {
      identity := TimeNumberId(time, number);
      meshFiles, spaceFiles, solutionFiles := [], [], [];
      timeStepLength, error := None, None;
    }

    constructor WithTime(time: real)
      ensures Valid() && IsBlank() && identity == TimeId(time)
    {
      identity := TimeId(time);
      meshFiles, spaceFiles, solutionFiles := [], [], [];
      timeStepLength, error := None, None;
    }

    constructor WithNumber(number: uint32)
      ensures Valid() && IsBlank() && identity == NumberId(number)
    {
      identity := NumberId(number);
      meshFiles, spaceFiles, solutionFiles := [], [], [];
      timeStepLength, error := None, None;
    }

    /** The time the record was built with; an error for a record identified by number only. */
    function GetTime(): (r: Result<real, Error>)
      ensures r.Success? <==> !identity.NumberId?
      ensures r.Success? ==> r.value == identity.time
      ensures r.Failure? ==> r.error == InvalidIdentityAccess
    {
      match identity
      case TimeNumberId(t, _) => Success(t)
      case TimeId(t) => Success(t)
      case NumberId(_) => Failure(InvalidIdentityAccess)
    }

    /** The number the record was built with; an error for a record identified by time only. */
    function GetNumber(): (r: Result<uint32, Error>)
      ensures r.Success? <==> !identity.TimeId?
      ensures r.Success? ==> r.value == identity.number
      ensures r.Failure? ==> r.error == InvalidIdentityAccess
    {
      match identity
      case TimeNumberId(_, m) => Success(m)
      case TimeId(_) => Failure(InvalidIdentityAccess)
      case NumberId(m) => Success(m)
    }

    method SaveMeshes<M>(meshes: seq<M>)
      requires Valid()
      modifies this`meshFiles
      ensures Valid()
      ensures meshFiles == NamesFor(MeshKind, identity, old(|meshFiles|) + |meshes|)
      ensures meshFiles[..old(|meshFiles|)] == old(meshFiles)
    {
      meshFiles := RecordSaves(MeshKind, identity, meshFiles, meshes);
    }

    method SaveMesh<M>(mesh: M)
      requires Valid()
      modifies this`meshFiles
      ensures Valid()
      ensures meshFiles == old(meshFiles) + [FileName(MeshKind, identity, old(|meshFiles|))]
    {
      meshFiles := meshFiles + [FileName(MeshKind, identity, |meshFiles|)];
    }

    method SaveSpaces<S>(spaces: seq<S>)
      requires Valid()
      modifies this`spaceFiles
      ensures Valid()
      ensures spaceFiles == NamesFor(SpaceKind, identity, old(|spaceFiles|) + |spaces|)
      ensures spaceFiles[..old(|spaceFiles|)] == old(spaceFiles)
    {
      spaceFiles := RecordSaves(SpaceKind, identity, spaceFiles, spaces);
    }

    method SaveSpace<S>(space: S)
      requires Valid()
      modifies this`spaceFiles
      ensures Valid()
      ensures spaceFiles == old(spaceFiles) + [FileName(SpaceKind, identity, old(|spaceFiles|))]
    {
      spaceFiles := spaceFiles + [FileName(SpaceKind, identity, |spaceFiles|)];
    }

    method SaveSolutions<S>(solutions: seq<S>)
      requires Valid()
      modifies this`solutionFiles
      ensures Valid()
      ensures solutionFiles == NamesFor(SolutionKind, identity, old(|solutionFiles|) + |solutions|)
      ensures solutionFiles[..old(|solutionFiles|)] == old(solutionFiles)
    {
      solutionFiles := RecordSaves(SolutionKind, identity, solutionFiles, solutions);
    }

    method SaveSolution<S>(solution: S)
      requires Valid()
      modifies this`solutionFiles
      ensures Valid()
      ensures solutionFiles == old(solutionFiles) + [FileName(SolutionKind, identity, old(|solutionFiles|))]
    {
      solutionFiles := solutionFiles + [FileName(SolutionKind, identity, |solutionFiles|)];
    }

    method SaveTimeStepLength(length: real)
      modifies this`timeStepLength
      ensures timeStepLength == Some(length)
    {
      timeStepLength := Some(length);
    }

    method SaveError(estimate: real)
      modifies this`error
      ensures error == Some(estimate)
    {
      error := Some(estimate);
    }

    /** Each mesh handle is read back from the file saved at the same position. */
    method LoadMeshes<M>(meshes: seq<M>) returns (r: Result<seq<(M, FileName)>, Error>)
      requires Valid()
      ensures r.Failure? <==> |meshes| != |meshFiles|
      ensures r.Failure? ==> r.error == ArityMismatch
      ensures r.Success? ==> |r.value| == |meshes|
      ensures r.Success? ==> forall i :: 0 <= i < |meshes| ==> r.value[i] == (meshes[i], FileName(MeshKind, identity, i))
    {
      r := PairWithFiles(meshes, meshFiles);
    }

    method LoadMesh<M>(mesh: M) returns (r: Result<FileName, Error>)
      requires Valid()
      ensures r.Failure? <==> |meshFiles| != 1
      ensures r.Failure? ==> r.error == ArityMismatch
      ensures r.Success? ==> r.value == FileName(MeshKind, identity, 0)
    {
      var pairs := LoadMeshes([mesh]);
      r := if pairs.Success? then Success(pairs.value[0].1) else Failure(pairs.error);
    }

    /** Each space handle is read back from the file saved at the same position. */
    method LoadSpaces<S>(spaces: seq<S>) returns (r: Result<seq<(S, FileName)>, Error>)
      requires Valid()
      ensures r.Failure? <==> |spaces| != |spaceFiles|
      ensures r.Failure? ==> r.error == ArityMismatch
      ensures r.Success? ==> |r.value| == |spaces|
      ensures r.Success? ==> forall i :: 0 <= i < |spaces| ==> r.value[i] == (spaces[i], FileName(SpaceKind, identity, i))
    {
      r := PairWithFiles(spaces, spaceFiles);
    }

    method LoadSpace<S>(space: S) returns (r: Result<FileName, Error>)
      requires Valid()
      ensures r.Failure? <==> |spaceFiles| != 1
      ensures r.Failure? ==> r.error == ArityMismatch
      ensures r.Success? ==> r.value == FileName(SpaceKind, identity, 0)
    {
      var pairs := LoadSpaces([space]);
      r := if pairs.Success? then Success(pairs.value[0].1) else Failure(pairs.error);
    }

    /** Each solution handle is read back from the file saved at the same position. */
    method LoadSolutions<S>(solutions: seq<S>) returns (r: Result<seq<(S, FileName)>, Error>)
      requires Valid()
      ensures r.Failure? <==> |solutions| != |solutionFiles|
      ensures r.Failure? ==> r.error == ArityMismatch
      ensures r.Success? ==> |r.value| == |solutions|
      ensures r.Success? ==> forall i :: 0 <= i < |solutions| ==> r.value[i] == (solutions[i], FileName(SolutionKind, identity, i))
    {
      r := PairWithFiles(solutions, solutionFiles);
    }

    method LoadSolution<S>(solution: S) returns (r: Result<FileName, Error>)
      requires Valid()
      ensures r.Failure? <==> |solutionFiles| != 1
      ensures r.Failure? ==> r.error == ArityMismatch
      ensures r.Success? ==> r.value == FileName(SolutionKind, identity, 0)
    {
      var pairs := LoadSolutions([solution]);
      r := if pairs.Success? then Success(pairs.value[0].1) else Failure(pairs.error);
    }

    /** The step length saved last, or NotFound when none was saved. */
    method LoadTimeStepLength() returns (r: Result<real, Error>)
      ensures r.Success? <==> timeStepLength.Some?
      ensures r.Success? ==> r.value == timeStepLength.value
      ensures r.Failure? ==> r.error == NotFound
    {
      r := if timeStepLength.Some? then Success(timeStepLength.value) else Failure(NotFound);
    }

    /** The error estimate saved last, or NotFound when none was saved. */
    method LoadError() returns (r: Result<real, Error>)
      ensures r.Success? <==> error.Some?
      ensures r.Success? ==> r.value == error.value
      ensures r.Failure? ==> r.error == NotFound
    {
      r := if error.Some? then Success(error.value) else Failure(NotFound);
    }
  }

  /** Lexicographic order of the (time, number) keys: time first, then number. */
  predicate KeyBefore(a: (real, uint32), b: (real, uint32))
  {
    a.0 < b.0 || (a.0 == b.0 && a.1 < b.1)
  }

  lemma KeyOrderIsStrictTotal(a: (real, uint32), b: (real, uint32), c: (real, uint32))
    ensures !KeyBefore(a, a)
    ensures KeyBefore(a, b) && KeyBefore(b, c) ==> KeyBefore(a, c)
    ensures a == b || KeyBefore(a, b) || KeyBefore(b, a)
  {
  }

  predicate StrictlyAscending(keys: seq<(real, uint32)>)
  {
    forall i, j :: 0 <= i < j < |keys| ==> KeyBefore(keys[i], keys[j])
  }

  /** Every finite non-empty set of keys has a least element. */
  lemma {:induction false} LeastKeyExists(s: set<(real, uint32)>)
    requires s != {}
    ensures exists m :: m in s && forall b :: b in s && b != m ==> KeyBefore(m, b)
  {
    var x :| x in s;
    if s != {x} {
      LeastKeyExists(s - {x});
      var m :| m in s - {x} && forall b :: b in s - {x} && b != m ==> KeyBefore(m, b);
      if KeyBefore(x, m) {
        forall b | b in s && b != x
          ensures KeyBefore(x, b)
        {
          KeyOrderIsStrictTotal(x, m, b);
        }
      } else {
        KeyOrderIsStrictTotal(x, m, x);
        assert forall b :: b in s && b != m ==> KeyBefore(m, b);
      }
    }
  }

  /** Two ascending enumerations of the same keys are the same sequence: the order is deterministic. */
  lemma {:induction false} AscendingIsUnique(a: seq<(real, uint32)>, b: seq<(real, uint32)>)
    requires StrictlyAscending(a) && StrictlyAscending(b)
    requires forall key :: key in a <==> key in b
    ensures a == b
  {
    assert a != [] ==> a[0] in b;
    assert b != [] ==> b[0] in a;
    if a != [] {
      if a[0] != b[0] {
        var i :| 0 <= i < |b| && b[i] == a[0];
        assert b[0] in b;
        var j :| 0 <= j < |a| && a[j] == b[0];
        assert KeyBefore(b[0], a[0]);
        assert KeyBefore(a[0], b[0]);
        KeyOrderIsStrictTotal(a[0], b[0], a[0]);
      }
      forall key
        ensures key in a[1..] <==> key in b[1..]
      {
        if key in a[1..] {
          var i :| 0 <= i < |a| - 1 && a[1..][i] == key;
          assert KeyBefore(a[0], a[i + 1]);
          KeyOrderIsStrictTotal(a[0], key, a[0]);
          assert key in b && key != b[0];
          var j :| 0 <= j < |b| && b[j] == key;
          assert b[1..][j - 1] == key;
        }
        if key in b[1..] {
          var i :| 0 <= i < |b| - 1 && b[1..][i] == key;
          assert KeyBefore(b[0], b[i + 1]);
          KeyOrderIsStrictTotal(b[0], key, b[0]);
          assert key in a && key != a[0];
          var j :| 0 <= j < |a| && a[j] == key;
          assert a[1..][j - 1] == key;
        }
      }
      AscendingIsUnique(a[1..], b[1..]);
      assert a == [a[0]] + a[1..] && b == [b[0]] + b[1..];
    }
  }

  /** The registry of records of one calculation. */
  class Continuity {
    const identificationMethod: IdentificationMethod
    /** Whether an old record was found on disk when the registry was built. */
    const recordAvailable: bool
    /** Records keyed by (time, number); used with TimeAndNumber. */
    var records: map<(real, uint32), Record>
    /** Records keyed by time; used with OnlyTime. */
    var timeRecords: map<real, Record>
    /** Records keyed by number; used with OnlyNumber. */
    var numberedRecords: map<uint32, Record>
    /** The record added last, or null before the first one. */
    var lastRecord: Record?

    ghost predicate IsEmpty()
      reads this
    {
      records == map[] && timeRecords == map[] && numberedRecords == map[]
    }

    /** `r` is stored in the map of its identity's shape, under the key its identity gives. */
    ghost predicate Holds(r: Record)
      reads this
    {
      match r.identity
      case TimeNumberId(t, m) => (t, m) in records && records[(t, m)] == r
      case TimeId(t) => t in timeRecords && timeRecords[t] == r
      case NumberId(m) => m in numberedRecords && numberedRecords[m] == r
    }

    /**
     * Each map holds records of its own identity shape under the key that
     * identity gives, every held record is well formed, only the map of the
     * identification method is used, and the last record is a held one.
     */
    ghost predicate Valid()
      reads this, records.Values, timeRecords.Values, numberedRecords.Values
    {
      && (forall rec | rec in records.Values :: rec.Valid())
      && (forall rec | rec in timeRecords.Values :: rec.Valid())
      && (forall rec | rec in numberedRecords.Values :: rec.Valid())
      && (forall key | key in records :: records[key].identity == TimeNumberId(key.0, key.1))
      && (forall t | t in timeRecords :: timeRecords[t].identity == TimeId(t))
      && (forall m | m in numberedRecords :: numberedRecords[m].identity == NumberId(m))
      && (identificationMethod != TimeAndNumber ==> records == map[])
      && (identificationMethod != OnlyTime ==> timeRecords == map[])
      && (identificationMethod != OnlyNumber ==> numberedRecords == map[])
      && (lastRecord == null <==> IsEmpty())
      && (lastRecord != null ==> Holds(lastRecord))
    }

    /** `recordAvailable` is the result of probing the disk, which is not part of this model. */
    constructor (identificationMethod: IdentificationMethod, recordAvailable: bool)
      ensures Valid() && IsEmpty() && lastRecord == null
      ensures this.identificationMethod == identificationMethod
      ensures this.recordAvailable == recordAvailable
    {
      this.identificationMethod := identificationMethod;
      this.recordAvailable := recordAvailable;
      records, timeRecords, numberedRecords := map[], map[], map[];
      lastRecord := null;
    }

    /** add_record(double time, unsigned int number). */
    method AddRecord(time: real, number: uint32) returns (r: Outcome<Error>)
      requires Valid()
      modifies this
      ensures Valid()
      ensures r == Fail(PolicyMismatch) <==> identificationMethod != TimeAndNumber
      ensures r == Fail(DuplicateKey) <==> identificationMethod == TimeAndNumber && (time, number) in old(records)
      ensures r.Pass? <==> identificationMethod == TimeAndNumber && (time, number) !in old(records)
      ensures r.Pass? ==> && (time, number) in records
                          && fresh(records[(time, number)])
                          && records == old(records)[(time, number) := records[(time, number)]]
                          && records[(time, number)].identity == TimeNumberId(time, number)
                          && records[(time, number)].Valid() && records[(time, number)].IsBlank()
                          && lastRecord == records[(time, number)]
      ensures r.Pass? ==> GetLastRecord() == Success(records[(time, number)])
      ensures r.Fail? ==> records == old(records) && lastRecord == old(lastRecord)
      ensures timeRecords == old(timeRecords) && numberedRecords == old(numberedRecords)
    {
      if identificationMethod != TimeAndNumber {
        return Fail(PolicyMismatch);
      }
      if (time, number) in records {
        return Fail(DuplicateKey);
      }
      var record := new Record.WithTimeAndNumber(time, number);
      records := records[(time, number) := record];
      lastRecord := record;
      r := Pass;
    }

    /** add_record(double time). */
    method AddTimeRecord(time: real) returns (r: Outcome<Error>)
      requires Valid()
      modifies this
      ensures Valid()
      ensures r == Fail(PolicyMismatch) <==> identificationMethod != OnlyTime
      ensures r == Fail(DuplicateKey) <==> identificationMethod == OnlyTime && time in old(timeRecords)
      ensures r.Pass? <==> identificationMethod == OnlyTime && time !in old(timeRecords)
      ensures r.Pass? ==> && time in timeRecords
                          && fresh(timeRecords[time])
                          && timeRecords == old(timeRecords)[time := timeRecords[time]]
                          && timeRecords[time].identity == TimeId(time)
                          && timeRecords[time].Valid() && timeRecords[time].IsBlank()
                          && lastRecord == timeRecords[time]
      ensures r.Pass? ==> GetLastRecord() == Success(timeRecords[time])
      ensures r.Fail? ==> timeRecords == old(timeRecords) && lastRecord == old(lastRecord)
      ensures records == old(records) && numberedRecords == old(numberedRecords)
    {
      if identificationMethod != OnlyTime {
        return Fail(PolicyMismatch);
      }
      if time in timeRecords {
        return Fail(DuplicateKey);
      }
      var record := new Record.WithTime(time);
      timeRecords := timeRecords[time := record];
      lastRecord := record;
      r := Pass;
    }

    /** add_record(unsigned int number). */
    method AddNumberRecord(number: uint32) returns (r: Outcome<Error>)
      requires Valid()
      modifies this
      ensures Valid()
      ensures r == Fail(PolicyMismatch) <==> identificationMethod != OnlyNumber
      ensures r == Fail(DuplicateKey) <==> identificationMethod == OnlyNumber && number in old(numberedRecords)
      ensures r.Pass? <==> identificationMethod == OnlyNumber && number !in old(numberedRecords)
      ensures r.Pass? ==> && number in numberedRecords
                          && fresh(numberedRecords[number])
                          && numberedRecords == old(numberedRecords)[number := numberedRecords[number]]
                          && numberedRecords[number].identity == NumberId(number)
                          && numberedRecords[number].Valid() && numberedRecords[number].IsBlank()
                          && lastRecord == numberedRecords[number]
      ensures r.Pass? ==> GetLastRecord() == Success(numberedRecords[number])
      ensures r.Fail? ==> numberedRecords == old(numberedRecords) && lastRecord == old(lastRecord)
      ensures records == old(records) && timeRecords == old(timeRecords)
    {
      if identificationMethod != OnlyNumber {
        return Fail(PolicyMismatch);
      }
      if number in numberedRecords {
        return Fail(DuplicateKey);
      }
      var record := new Record.WithNumber(number);
      numberedRecords := numberedRecords[number := record];
      lastRecord := record;
      r := Pass;
    }

    /** have_record_available(): the flag fixed at construction. */
    function HaveRecordAvailable(): (r: bool)
      ensures r == recordAvailable
    {
      recordAvailable
    }

    /** get_last_record(): a registered record, or NoRecords while nothing has been added. */
    function GetLastRecord(): (r: Result<Record, Error>)
      reads this, records.Values, timeRecords.Values, numberedRecords.Values
      requires Valid()
      ensures r.Failure? <==> IsEmpty()
      ensures r.Failure? ==> r.error == NoRecords
      ensures r.Success? ==> r.value == lastRecord && Holds(r.value) && r.value.Valid()
    {
      if lastRecord == null then Failure(NoRecords) else Success(lastRecord)
    }

    /** The (time, number) keys in the order the map iterates them. */
    method OrderedKeys() returns (keys: seq<(real, uint32)>)
      ensures StrictlyAscending(keys)
      ensures forall key :: key in keys <==> key in records
    {
      var rest := records.Keys;
      keys := [];
      while rest != {}
        invariant forall key :: key in keys <==> key in records && key !in rest
        invariant rest <= records.Keys
        invariant StrictlyAscending(keys)
        invariant forall a, b :: a in keys && b in rest ==> KeyBefore(a, b)
        decreases rest
      {
        LeastKeyExists(rest);
        var least :| least in rest && forall b :: b in rest && b != least ==> KeyBefore(least, b);
        keys := keys + [least];
        rest := rest - {least};
      }
    }
  }
}
