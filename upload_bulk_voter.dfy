/** The "Upload bulk voters" modal (src/components/modals/UploadBulkVoter.tsx): the spreadsheets
    the user has selected, how a drop adds to them, how files and single voters are removed, and
    the e-mail list the upload sends. */
module UploadBulkVoter {
  import opened Basics
  import opened Text

  /** A spreadsheet cell as the sheet reader returns it. Strings, numbers, booleans and null
      compare by value; `Fractional` is a non-integral number, carrying the text its
      `toString()` prints (which tells distinct numbers apart). A date cell is a `Date` object,
      and `!==` compares objects: `ref` is the identity of the object the reader created for
      that cell, so two date cells are equal only when they are the same object. */
  datatype Cell = Str(s: string) | Int(n: int) | Bool(b: bool) | Null | Fractional(text: string)
                | DateObject(text: string, ref: nat)

  type Row = seq<Cell>

  /** `row[0]`: `None` is `undefined`, for a row with no cells. */
  function FirstCell(row: Row): Option<Cell> {
    if row == [] then None else Some(row[0])
  }

  /** One selected spreadsheet: its name and its rows after the header. */
  datatype SelectedFile = SelectedFile(fileName: string, voters: seq<Row>)

  function FileNameOf(f: SelectedFile): string { f.fileName }

  /** A dropped file together with the rows the sheet reader read from it. */
  datatype DroppedFile = DroppedFile(name: string, rows: seq<Row>)

  // ---- Dropping files ----

  /** Some dropped file has the name of a file already selected. */
  predicate Clashes(selected: seq<SelectedFile>, files: seq<DroppedFile>) {
    exists i, j :: 0 <= i < |selected| && 0 <= j < |files| && files[j].name == selected[i].fileName
  }

  /** A sheet is taken when it has a row and the first cell of its first row is the string
      "Email"; an empty first row has no first cell and is refused. */
  predicate IsVoterSheet(rows: seq<Row>) {
    |rows| >= 1 && FirstCell(rows[0]) == Some(Str("Email"))
  }

  /** Whether a dropped file is appended: a voter sheet whose name was not selected when the
      drop began. */
  predicate Admitted(before: seq<SelectedFile>, f: DroppedFile) {
    IsVoterSheet(f.rows) && f.name !in KeysOf(before, FileNameOf)
  }

  /** The entries a drop appends, file by file in drop order: each admitted file with its rows
      after the header. */
  function AdmittedFiles(before: seq<SelectedFile>, files: seq<DroppedFile>): (r: seq<SelectedFile>)
    ensures |r| <= |files|
    ensures forall e :: e in r <==>
      exists f :: f in files && Admitted(before, f) && e == SelectedFile(f.name, f.rows[1..])
    decreases |files|
  {
    if files == [] then []
    else
      var f := files[|files| - 1];
      var init := AdmittedFiles(before, files[..|files| - 1]);
      assert files == files[..|files| - 1] + [f];
      if Admitted(before, f) then init + [SelectedFile(f.name, f.rows[1..])] else init
  }

  /** The selection after a drop. */
  function Dropped(selected: seq<SelectedFile>, files: seq<DroppedFile>): seq<SelectedFile> {
    if Clashes(selected, files) then selected else selected + AdmittedFiles(selected, files)
  }

  /** A drop that repeats a selected name changes nothing. Otherwise the selection keeps its
      entries in front and gains exactly the voter sheets of the drop, each with its rows after
      the header; the name check made while reading a file never refuses anything then. */
  lemma DropEffect(selected: seq<SelectedFile>, files: seq<DroppedFile>)
    ensures Clashes(selected, files) ==> Dropped(selected, files) == selected
    ensures !Clashes(selected, files) ==>
      var r := Dropped(selected, files);
      r[..|selected|] == selected &&
      (forall e :: e in r[|selected|..] <==>
        exists f :: f in files && IsVoterSheet(f.rows) && e == SelectedFile(f.name, f.rows[1..]))
  {
    if !Clashes(selected, files) {
      var r := Dropped(selected, files);
      assert r[|selected|..] == AdmittedFiles(selected, files);
      forall f | f in files
        ensures Admitted(selected, f) == IsVoterSheet(f.rows)
      {
        var j :| 0 <= j < |files| && files[j] == f;
        assert forall i :: 0 <= i < |selected| ==> KeysOf(selected, FileNameOf)[i] != files[j].name;
      }
    }
  }

  // ---- Removing ----

  /** "Remove voter": in the named file, drop every row whose first cell is `first`; then drop
      every file left without rows. */
  function WithoutVoter(selected: seq<SelectedFile>, fileName: string, first: Option<Cell>): (r: seq<SelectedFile>)
    ensures |r| <= |selected|
    ensures forall e :: e in r ==> e.voters != []
    decreases |selected|
  {
    if selected == [] then []
    else
      var f := selected[|selected| - 1];
      var g := if f.fileName == fileName then f.(voters := WithoutKey(f.voters, FirstCell, first)) else f;
      var init := WithoutVoter(selected[..|selected| - 1], fileName, first);
      if g.voters != [] then init + [g] else init
  }

  /** What survives a voter removal: the other files untouched, the named file without the rows
      that start with that cell, and no file without rows. */
  lemma {:induction false} WithoutVoterEntries(selected: seq<SelectedFile>, fileName: string, first: Option<Cell>)
    ensures forall e :: e in WithoutVoter(selected, fileName, first) <==>
      e.voters != [] &&
      ((e in selected && e.fileName != fileName) ||
       (exists f :: f in selected && f.fileName == fileName &&
                    e == f.(voters := WithoutKey(f.voters, FirstCell, first))))
    decreases |selected|
  {
    if selected != [] {
      var init := selected[..|selected| - 1];
      assert selected == init + [selected[|selected| - 1]];
      WithoutVoterEntries(init, fileName, first);
    }
  }

  /** No row that starts with the removed cell is left in the named file. */
  lemma WithoutVoterRemovesRows(selected: seq<SelectedFile>, fileName: string, first: Option<Cell>)
    ensures forall e :: e in WithoutVoter(selected, fileName, first) && e.fileName == fileName ==>
      forall row :: row in e.voters ==> FirstCell(row) != first
  {
    WithoutVoterEntries(selected, fileName, first);
  }

  /** Removing the voter whose first cell is a date removes only the rows holding that very
      object: a row of the same file whose date prints the same text but was read as another
      object stays. */
  lemma WithoutVoterDateByIdentity(selected: seq<SelectedFile>, fileName: string, text: string, ref: nat, row: Row)
    requires exists f :: f in selected && f.fileName == fileName && row in f.voters
    requires FirstCell(row).Some? && FirstCell(row).value.DateObject?
    requires FirstCell(row).value.text == text && FirstCell(row).value.ref != ref
    ensures exists e :: e in WithoutVoter(selected, fileName, Some(DateObject(text, ref))) && e.fileName == fileName && row in e.voters
  {
    var first := Some(DateObject(text, ref));
    var f :| f in selected && f.fileName == fileName && row in f.voters;
    var g := f.(voters := WithoutKey(f.voters, FirstCell, first));
    assert row in g.voters;
    WithoutVoterEntries(selected, fileName, first);
    assert g in WithoutVoter(selected, fileName, first);
  }

  // ---- The upload ----

  /** `v[0]?.toString() ?? ""`. */
  function CellText(c: Option<Cell>): string {
    match c
    case None => ""
    case Some(Null) => ""
    case Some(Str(s)) => s
    case Some(Int(n)) => IntText(n)
    case Some(Bool(b)) => if b then "true" else "false"
    case Some(Fractional(t)) => t
    case Some(DateObject(t, _)) => t
  }

  function RowCount(selected: seq<SelectedFile>): nat
    decreases |selected|
  {
    if selected == [] then 0 else RowCount(selected[..|selected| - 1]) + |selected[|selected| - 1].voters|
  }

  /** The e-mails sent: file by file, row by row, the text of each row's first cell. */
  function Emails(selected: seq<SelectedFile>): (r: seq<string>)
    ensures |r| == RowCount(selected)
    decreases |selected|
  {
    if selected == [] then []
    else
      var f := selected[|selected| - 1];
      Emails(selected[..|selected| - 1]) + seq(|f.voters|, k requires 0 <= k < |f.voters| => CellText(FirstCell(f.voters[k])))
  }

  /** The e-mail list of two selections one after the other is the two lists one after the
      other: a drop adds the new sheets' e-mails after the old ones. */
  lemma {:induction false} EmailsAppend(a: seq<SelectedFile>, b: seq<SelectedFile>)
    ensures Emails(a + b) == Emails(a) + Emails(b)
    decreases |b|
  {
    if b == [] {
      assert a + b == a;
    } else {
      var init := b[..|b| - 1];
      assert (a + b)[..|a + b| - 1] == a + init;
      assert (a + b)[|a + b| - 1] == b[|b| - 1];
      EmailsAppend(a, init);
    }
  }

  /** One file's e-mails are its rows' first cells, in row order. */
  lemma EmailsOfOneFile(f: SelectedFile)
    ensures |Emails([f])| == |f.voters|
    ensures forall k :: 0 <= k < |f.voters| ==> Emails([f])[k] == CellText(FirstCell(f.voters[k]))
  {
    assert [f][..0] == [];
  }

  // ---- The modal's state ----

  /** The modal, holding the files selected so far. */
  class VoterUpload {
    var selectedFiles: seq<SelectedFile>

    constructor ()
      ensures selectedFiles == []
    {
      selectedFiles := [];
    }

    /** The modal opening (or closing): opening empties the selection. */
    method SetOpen(isOpen: bool)
      modifies this
      ensures isOpen ==> selectedFiles == []
      ensures !isOpen ==> selectedFiles == old(selectedFiles)
    {
      if isOpen {
        selectedFiles := [];
      }
    }

    /** "Clear all". */
    method ClearAll()
      modifies this
      ensures selectedFiles == []
    {
      selectedFiles := [];
    }

    /** "Remove file": every entry with that name goes, the rest stay in order. */
    method RemoveFile(fileName: string)
      modifies this
      ensures selectedFiles == WithoutKey(old(selectedFiles), FileNameOf, fileName)
      ensures fileName !in KeysOf(selectedFiles, FileNameOf)
    {
      selectedFiles := WithoutKey(selectedFiles, FileNameOf, fileName);
      assert forall k :: 0 <= k < |selectedFiles| ==> selectedFiles[k] in selectedFiles;
    }

    /** "Remove voter" on a row of the named file. */
    method RemoveVoter(fileName: string, first: Option<Cell>)
      modifies this
      ensures selectedFiles == WithoutVoter(old(selectedFiles), fileName, first)
    {
      selectedFiles := WithoutVoter(selectedFiles, fileName, first);
    }

    /** A drop: ignored when a dropped name is already selected; otherwise each file the reader
        accepts is appended in turn. */
    method Drop(files: seq<DroppedFile>)
      modifies this
      ensures selectedFiles == Dropped(old(selectedFiles), files)
    {
      var before := selectedFiles;
      if Clashes(before, files) {
        return;
      }
      for i := 0 to |files|
        invariant selectedFiles == before + AdmittedFiles(before, files[..i])
      {
        var f := files[i];
        assert files[..i + 1][..i] == files[..i];
        if |f.rows| >= 1 && FirstCell(f.rows[0]) == Some(Str("Email")) && f.name !in KeysOf(before, FileNameOf) {
          selectedFiles := selectedFiles + [SelectedFile(f.name, f.rows[1..])];
        }
      }
      assert files[..|files|] == files;
    }

    /** The upload button is disabled while nothing is selected. */
    predicate UploadDisabled()
      reads this
    {
      |selectedFiles| == 0
    }

    /** What the upload sends. */
    function UploadEmails(): (r: seq<string>)
      reads this
      ensures |r| == RowCount(selectedFiles)
      ensures !UploadDisabled() || r == []
    {
      Emails(selectedFiles)
    }
  }
}
