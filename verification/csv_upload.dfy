/** The file list of `src/components/CSVUpload.jsx`: dropping and picking files, removing
    one, guarding the upload, and the size label. Reading file contents (`FileReader`) and
    the drag highlight are not part of this model; a file is its name and size. */
module CsvUpload {
  import opened Wrappers
  import opened Text
  import opened Lists

  datatype File = File(name: string, size: int)

  /** The component's list and error message. */
  datatype State = State(files: seq<File>, error: Option<string>)

  const CsvOnly := "Please drop CSV files only"
  const AlreadyAdded := "Some files were already added"
  const NoFiles := "Please add at least one CSV file"

  function Names(fs: seq<File>): (r: seq<string>)
    ensures |r| == |fs| && forall i :: 0 <= i < |fs| ==> r[i] == fs[i].name
  {
    seq(|fs|, i requires 0 <= i < |fs| => fs[i].name)
  }

  predicate IsCsv(f: File) {
    EndsWith(f.name, ".csv")
  }

  /** The test `!existingNames.includes(f.name)`. */
  function NotListed(names: seq<string>): File -> bool {
    (f: File) => f.name !in names
  }

  /** `addFiles(newFiles)`: the incoming files whose names are not listed yet are appended in
      their order, and the error says so when any was left out. Names are compared with the
      list as it was, so two files of one batch with the same name are both added. */
  function AddFiles(s: State, incoming: seq<File>): (r: State)
    ensures |r.files| >= |s.files| && r.files[..|s.files|] == s.files
    ensures forall f :: f in r.files[|s.files|..] <==> f in incoming && f.name !in Names(s.files)
    ensures r.error.Some? <==> exists i :: 0 <= i < |incoming| && incoming[i].name in Names(s.files)
    ensures r.error.Some? ==> r.error.value == AlreadyAdded
  {
    var keep := NotListed(Names(s.files));
    var unique := Filter(incoming, keep);
    FilterDrops(incoming, keep);
    assert (s.files + unique)[..|s.files|] == s.files;
    assert (s.files + unique)[|s.files|..] == unique;
    State(s.files + unique, if |unique| < |incoming| then Some(AlreadyAdded) else None)
  }

  /** The appended files are the incoming ones in their order, filtered by name. */
  lemma AddFilesTail(s: State, incoming: seq<File>)
    ensures AddFiles(s, incoming).files[|s.files|..] == Filter(incoming, NotListed(Names(s.files)))
  {
    var unique := Filter(incoming, NotListed(Names(s.files)));
    assert (s.files + unique)[|s.files|..] == unique;
  }

  /** Files with new names are all added, duplicates within the batch included, and no error
      is set. */
  lemma AddFresh(s: State, incoming: seq<File>)
    requires forall i :: 0 <= i < |incoming| ==> incoming[i].name !in Names(s.files)
    ensures AddFiles(s, incoming) == State(s.files + incoming, None)
  {
    FilterKeepsAll(incoming, NotListed(Names(s.files)));
    AddFilesTail(s, incoming);
  }

  /** `handleDrop`: only names ending in `.csv` are kept; if none is, the error is set and
      the list stays as it was. */
  function Drop(s: State, dropped: seq<File>): (r: State)
    ensures (forall i :: 0 <= i < |dropped| ==> !IsCsv(dropped[i])) ==> r == s.(error := Some(CsvOnly))
    ensures |r.files| >= |s.files| && r.files[..|s.files|] == s.files
    ensures forall f :: f in r.files[|s.files|..] ==> f in dropped && IsCsv(f)
    ensures (exists i :: 0 <= i < |dropped| && IsCsv(dropped[i])) ==> r == AddFiles(s, Filter(dropped, IsCsv))
  {
    var csvs := Filter(dropped, IsCsv);
    FilterEmpty(dropped, IsCsv);
    if |csvs| == 0 then s.(error := Some(CsvOnly)) else AddFiles(s, csvs)
  }

  /** `removeFile(index)`: drops exactly the element at `index`, keeping the rest in order; an
      index outside the list changes nothing. */
  function RemoveFile(s: State, index: int): (r: State)
    ensures r.error == s.error
    ensures 0 <= index < |s.files| ==>
      && |r.files| == |s.files| - 1
      && (forall j :: 0 <= j < index ==> r.files[j] == s.files[j])
      && (forall j :: index <= j < |r.files| ==> r.files[j] == s.files[j + 1])
    ensures !(0 <= index < |s.files|) ==> r.files == s.files
  {
    if 0 <= index < |s.files| then s.(files := s.files[..index] + s.files[index + 1..]) else s
  }

  /** Removing the file just added by a one-file pick restores the list. */
  lemma RemoveAfterAdd(s: State, f: File)
    requires f.name !in Names(s.files)
    ensures RemoveFile(AddFiles(s, [f]), |s.files|).files == s.files
  {
    AddFresh(s, [f]);
    assert (s.files + [f])[..|s.files|] == s.files;
  }

  /** What `processFiles` does: refuse an empty list, or hand every listed file, in order, to
      `onUpload`. */
  datatype Outcome = Refused(state: State) | Upload(files: seq<File>)

  function ProcessFiles(s: State): (r: Outcome)
    ensures r.Refused? <==> |s.files| == 0
    ensures r.Refused? ==> r.state == s.(error := Some(NoFiles))
    ensures r.Upload? ==> r.files == s.files
  {
    if |s.files| == 0 then Refused(s.(error := Some(NoFiles))) else Upload(s.files)
  }

  // ---- formatFileSize ----

  datatype SizeUnit = Bytes | Kilobytes | Megabytes

  function UnitRank(u: SizeUnit): nat {
    match u
    case Bytes => 0
    case Kilobytes => 1
    case Megabytes => 2
  }

  /** The unit `formatFileSize(bytes)` prints: B below 1024, KB below 1024², MB beyond. */
  function SizeUnitOf(bytes: int): (u: SizeUnit)
    ensures u == Bytes <==> bytes < 1024
    ensures u == Kilobytes <==> 1024 <= bytes < 1024 * 1024
    ensures u == Megabytes <==> bytes >= 1024 * 1024
  {
    if bytes < 1024 then Bytes else if bytes < 1024 * 1024 then Kilobytes else Megabytes
  }

  /** A larger file never gets a smaller unit. */
  lemma SizeUnitMonotone(a: int, b: int)
    requires a <= b
    ensures UnitRank(SizeUnitOf(a)) <= UnitRank(SizeUnitOf(b))
  {
  }
}
