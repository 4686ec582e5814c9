/** The upload and history endpoints of api/views.py over the CSVSummary
    table of api/models.py. The table is a sequence of rows in insertion
    order; `uploaded_at` (auto_now_add) is a number that grows with every
    insertion. pandas is not modelled: what `read_csv` and the analytics
    give is an input. */
module SummaryApi {
  import opened Wrappers
  import opened Strings

  /** How many summaries an upload leaves in the table. */
  const Retention: nat := 5

  const NoFileError: string := "No file uploaded"
  const SuccessMessage: string := "CSV file processed and saved successfully"

  /** The columns the analytics index; a missing one raises KeyError. */
  const AnalyzedColumns: seq<string> := ["flowrate", "pressure", "temperature", "type"]

  /** One CSVSummary row. */
  datatype StoredSummary = StoredSummary(rows: int, columns: int, columnNames: string, uploadedAt: int)

  /** Insertion order is chronological: timestamps strictly increase. */
  predicate Chronological(rs: seq<StoredSummary>) {
    forall i, j :: 0 <= i < j < |rs| ==> rs[i].uploadedAt < rs[j].uploadedAt
  }

  /** Every stored timestamp is before `now`. */
  predicate Before(rs: seq<StoredSummary>, now: int) {
    forall i :: 0 <= i < |rs| ==> rs[i].uploadedAt < now
  }

  /** `order_by('-uploaded_at')` of a chronological table. */
  function NewestFirst(rs: seq<StoredSummary>): seq<StoredSummary> {
    seq(|rs|, i requires 0 <= i < |rs| => rs[|rs| - 1 - i])
  }

  /** The table after the retention step: all but the 5 newest removed. */
  function Retained(rs: seq<StoredSummary>): seq<StoredSummary> {
    if |rs| > Retention then rs[|rs| - Retention..] else rs
  }

  /** How many rows of `rs` are newer than `t`. */
  function CountNewer(rs: seq<StoredSummary>, t: int): nat
    decreases |rs|
  {
    if rs == [] then 0 else (if rs[0].uploadedAt > t then 1 else 0) + CountNewer(rs[1..], t)
  }

  /** `s.delete()`: the row with that timestamp removed. */
  function Without(rs: seq<StoredSummary>, t: int): seq<StoredSummary>
    decreases |rs|
  {
    if rs == [] then []
    else if rs[0].uploadedAt == t then Without(rs[1..], t)
    else [rs[0]] + Without(rs[1..], t)
  }

  lemma {:induction false} WithoutAt(rs: seq<StoredSummary>, k: nat)
    requires Chronological(rs) && k < |rs|
    ensures Without(rs, rs[k].uploadedAt) == rs[..k] + rs[k + 1..]
    decreases |rs|
  {
    var t := rs[k].uploadedAt;
    if k == 0 {
      WithoutNone(rs[1..], t);
    } else {
      WithoutAt(rs[1..], k - 1);
      assert rs[1..][..k - 1] == rs[1..k];
      assert rs[..k] == [rs[0]] + rs[1..k];
    }
  }

  lemma {:induction false} WithoutNone(rs: seq<StoredSummary>, t: int)
    requires forall i :: 0 <= i < |rs| ==> rs[i].uploadedAt > t
    ensures Without(rs, t) == rs
    decreases |rs|
  {
    if rs != [] {
      WithoutNone(rs[1..], t);
      assert rs == [rs[0]] + rs[1..];
    }
  }

  lemma {:induction false} WithoutSubset(rs: seq<StoredSummary>, t: int)
    ensures forall x :: x in Without(rs, t) ==> x in rs && x.uploadedAt != t
    decreases |rs|
  {
    if rs != [] {
      WithoutSubset(rs[1..], t);
    }
  }

  lemma {:induction false} WithoutChronological(rs: seq<StoredSummary>, t: int)
    requires Chronological(rs)
    ensures Chronological(Without(rs, t))
    decreases |rs|
  {
    if rs != [] {
      WithoutChronological(rs[1..], t);
      WithoutSubset(rs[1..], t);
      var w := Without(rs[1..], t);
      forall x | x in w ensures rs[0].uploadedAt < x.uploadedAt {
        var j :| 0 <= j < |rs[1..]| && rs[1..][j] == x;
        assert rs[j + 1] == x;
      }
    }
  }

  /** Listing a chronological table newest first gives strictly decreasing
      timestamps, and every row exactly once. */
  lemma NewestFirstDescending(rs: seq<StoredSummary>)
    requires Chronological(rs)
    ensures |NewestFirst(rs)| == |rs|
    ensures forall i, j :: 0 <= i < j < |rs| ==> NewestFirst(rs)[i].uploadedAt > NewestFirst(rs)[j].uploadedAt
    ensures multiset(NewestFirst(rs)) == multiset(rs)
  {
    NewestFirstPermutes(rs);
  }

  lemma {:induction false} NewestFirstPermutes(rs: seq<StoredSummary>)
    ensures multiset(NewestFirst(rs)) == multiset(rs)
    decreases |rs|
  {
    if rs != [] {
      var p := rs[..|rs| - 1];
      NewestFirstPermutes(p);
      assert NewestFirst(rs) == [rs[|rs| - 1]] + NewestFirst(p);
      assert rs == p + [rs[|rs| - 1]];
    }
  }

  lemma {:induction false} CountNewerAll(rs: seq<StoredSummary>, t: int)
    requires forall i :: 0 <= i < |rs| ==> rs[i].uploadedAt > t
    ensures CountNewer(rs, t) == |rs|
    decreases |rs|
  {
    if rs != [] {
      CountNewerAll(rs[1..], t);
    }
  }

  lemma {:induction false} CountNewerAt(rs: seq<StoredSummary>, k: nat)
    requires Chronological(rs) && k < |rs|
    ensures CountNewer(rs, rs[k].uploadedAt) == |rs| - 1 - k
    decreases |rs|
  {
    if k == 0 {
      CountNewerAll(rs[1..], rs[0].uploadedAt);
    } else {
      CountNewerAt(rs[1..], k - 1);
    }
  }

  /** Retention keeps at most 5 rows, keeps a row exactly when fewer than 5
      rows are newer, and keeps everything when there were at most 5. */
  lemma RetainedSpec(rs: seq<StoredSummary>)
    requires Chronological(rs)
    ensures |Retained(rs)| <= Retention
    ensures |rs| <= Retention ==> Retained(rs) == rs
    ensures Chronological(Retained(rs))
    ensures forall k :: 0 <= k < |rs| ==>
              (rs[k] in Retained(rs) <==> CountNewer(rs, rs[k].uploadedAt) < Retention)
  {
    forall k | 0 <= k < |rs|
      ensures rs[k] in Retained(rs) <==> CountNewer(rs, rs[k].uploadedAt) < Retention
    {
      CountNewerAt(rs, k);
      if |rs| > Retention {
        var cut := |rs| - Retention;
        if k >= cut {
          assert rs[k] == Retained(rs)[k - cut];
        } else {
          forall j | 0 <= j < Retention ensures Retained(rs)[j] != rs[k] {
            assert Retained(rs)[j] == rs[cut + j];
            assert rs[k].uploadedAt < rs[cut + j].uploadedAt;
          }
        }
      }
    }
  }

  /** After an insertion at a time later than every stored row, retention
      keeps the new row, as the newest one. */
  lemma RetainsNewRow(rs: seq<StoredSummary>, row: StoredSummary)
    requires Chronological(rs) && Before(rs, row.uploadedAt)
    ensures Chronological(rs + [row])
    ensures |Retained(rs + [row])| <= Retention
    ensures row in Retained(rs + [row])
    ensures Retained(rs + [row])[|Retained(rs + [row])| - 1] == row
  {
    var all := rs + [row];
    assert Chronological(all);
    RetainedSpec(all);
    var r := Retained(all);
    assert r[|r| - 1] == all[|all| - 1] == row;
  }

  // ---- column_names: ",".join on the way in, split(',') on the way out ----

  /** Python's `s.split(sep)`: the pieces between every occurrence of `sep`. */
  function SplitAt(s: string, sep: char): (parts: seq<string>)
    ensures |parts| >= 1
    decreases |s|
  {
    if s == [] then [""]
    else if s[0] == sep then [""] + SplitAt(s[1..], sep)
    else
      var rest := SplitAt(s[1..], sep);
      [[s[0]] + rest[0]] + rest[1..]
  }

  function EncodeColumnNames(names: seq<string>): string {
    Join(names, ",")
  }

  function DecodeColumnNames(s: string): seq<string> {
    SplitAt(s, ',')
  }

  lemma {:induction false} SplitAtCount(s: string, sep: char)
    ensures |SplitAt(s, sep)| == Count(s, sep) + 1
    decreases |s|
  {
    if s != [] {
      SplitAtCount(s[1..], sep);
    }
  }

  lemma {:induction false} SplitAtPlain(s: string, sep: char)
    requires sep !in s
    ensures SplitAt(s, sep) == [s]
    decreases |s|
  {
    if s != [] {
      SplitAtPlain(s[1..], sep);
      assert s == [s[0]] + s[1..];
    }
  }

  lemma {:induction false} SplitAtConcat(a: string, b: string, sep: char)
    requires sep !in a
    ensures SplitAt(a + [sep] + b, sep) == [a] + SplitAt(b, sep)
    decreases |a|
  {
    if a == [] {
      assert a + [sep] + b == [sep] + b;
      assert ([sep] + b)[1..] == b;
    } else {
      assert (a + [sep] + b)[1..] == a[1..] + [sep] + b;
      SplitAtConcat(a[1..], b, sep);
      assert a == [a[0]] + a[1..];
    }
  }

  lemma {:induction false} DecodeEncode(names: seq<string>)
    requires |names| >= 1 && forall k :: 0 <= k < |names| ==> ',' !in names[k]
    ensures DecodeColumnNames(EncodeColumnNames(names)) == names
    decreases |names|
  {
    if |names| == 1 {
      SplitAtPlain(names[0], ',');
    } else {
      DecodeEncode(names[1..]);
      SplitAtConcat(names[0], Join(names[1..], ","), ',');
      assert Join(names, ",") == names[0] + [','] + Join(names[1..], ",");
      assert names == [names[0]] + names[1..];
    }
  }

  lemma {:induction false} JoinCount(names: seq<string>, c: char)
    requires |names| >= 1
    ensures Count(Join(names, [c]), c) >= |names| - 1
    ensures (exists k :: 0 <= k < |names| && c in names[k]) ==> Count(Join(names, [c]), c) >= |names|
    decreases |names|
  {
    CountZero(names[0], c);
    if |names| > 1 {
      JoinCount(names[1..], c);
      CountConcat(names[0], [c] + Join(names[1..], [c]), c);
      CountConcat([c], Join(names[1..], [c]), c);
      assert Join(names, [c]) == names[0] + ([c] + Join(names[1..], [c]));
      if exists k :: 0 <= k < |names| && c in names[k] {
        var k :| 0 <= k < |names| && c in names[k];
        if k > 0 {
          assert c in names[1..][k - 1];
        }
      }
    }
  }

  /** The stored column names read back as the original list exactly when
      the list is non-empty and no name contains a comma. */
  lemma ColumnNamesRoundTrip(names: seq<string>)
    ensures DecodeColumnNames(EncodeColumnNames(names)) == names <==>
              |names| >= 1 && forall k :: 0 <= k < |names| ==> ',' !in names[k]
  {
    if |names| >= 1 && forall k :: 0 <= k < |names| ==> ',' !in names[k] {
      DecodeEncode(names);
    } else if |names| == 0 {
      assert DecodeColumnNames(EncodeColumnNames(names)) == [""];
    } else {
      JoinCount(names, ',');
      SplitAtCount(EncodeColumnNames(names), ',');
    }
  }

  // ---- The table and the endpoints ----

  class SummaryTable {
    /** The rows in insertion order. */
    var records: seq<StoredSummary>

    ghost predicate Valid()
      reads this
    {
      Chronological(records)
    }

    constructor ()
      ensures Valid() && records == []
    {
      records := [];
    }

    /** `CSVSummary.objects.create(...)` at server time `now`. */
    method Create(rows: int, columns: int, columnNames: string, now: int)
      requires Valid() && Before(records, now)
      modifies this
      ensures Valid()
      ensures records == old(records) + [StoredSummary(rows, columns, columnNames, now)]
    {
      records := records + [StoredSummary(rows, columns, columnNames, now)];
    }

    /** `s.delete()`. */
    method Delete(s: StoredSummary)
      requires Valid()
      modifies this
      ensures Valid()
      ensures records == Without(old(records), s.uploadedAt)
    {
      WithoutChronological(records, s.uploadedAt);
      records := Without(records, s.uploadedAt);
    }
  }

  /** The uploaded file, when the request carries a truthy one. */
  datatype UploadedFile = UploadedFile(name: string)

  /** The analytics pandas computes (rounded means and the type counts in
      `value_counts` order); none when computing them raises. */
  datatype Analytics = Analytics(flowrate: string, pressure: string, temperature: string,
                                 typeDistribution: seq<(string, int)>)

  /** What `pd.read_csv` gives: an error message, or a frame's shape, column
      labels and analytics. */
  datatype ReadResult =
    | ReadError(message: string)
    | Frame(rowCount: nat, columnNames: seq<string>, analytics: Option<Analytics>)

  datatype UploadResponse =
    | Rejected(error: string)           // {"success": false, "error": ...}
    | Processed(rows: nat, columns: nat, columnNames: seq<string>, message: string, analytics: Analytics)
    | ServerFault                       // an exception escaped the view

  function Status(r: UploadResponse): int {
    match r
    case Rejected(_) => 400
    case Processed(_, _, _, _, _) => 200
    case ServerFault => 500
  }

  /** The frame has every analysed column and the analytics did not raise. */
  predicate Analyzable(frame: ReadResult)
    requires frame.Frame?
  {
    (forall c :: c in AnalyzedColumns ==> c in frame.columnNames) && frame.analytics.Some?
  }

  /** `upload_csv`. A missing file or a parse error is answered with 400 and
      stores nothing; a frame without the analysed columns raises before
      anything is stored; otherwise one row is stored, all but the 5 newest
      rows are deleted, and the frame's shape and columns are answered. */
  method UploadCsv(db: SummaryTable, file: Option<UploadedFile>, read: ReadResult, now: int)
    returns (resp: UploadResponse)
    requires db.Valid() && Before(db.records, now)
    modifies db
    ensures db.Valid()
    ensures file.None? ==> resp == Rejected(NoFileError)
    ensures file.Some? && read.ReadError? ==> resp == Rejected(read.message)
    ensures file.Some? && read.Frame? && !Analyzable(read) ==> resp == ServerFault
    ensures file.Some? && read.Frame? && Analyzable(read) ==>
              resp == Processed(read.rowCount, |read.columnNames|, read.columnNames,
                                SuccessMessage, read.analytics.value)
    ensures (file.None? || read.ReadError?) <==> Status(resp) == 400
    ensures resp.Processed? <==> Status(resp) == 200
    ensures !resp.Processed? ==> db.records == old(db.records)
    ensures resp.Processed? ==>
              db.records == Retained(old(db.records) +
                [StoredSummary(read.rowCount, |read.columnNames|, EncodeColumnNames(read.columnNames), now)])
  {
    if file.None? {
      return Rejected(NoFileError);
    }
    if read.ReadError? {
      return Rejected(read.message);
    }
    if !Analyzable(read) {
      return ServerFault;
    }
    var rows := read.rowCount;
    var columns := |read.columnNames|;
    db.Create(rows, columns, EncodeColumnNames(read.columnNames), now);
    ghost var before := db.records;
    var allSummaries := NewestFirst(db.records);
    if |allSummaries| > Retention {
      var oldSummaries := allSummaries[Retention..];
      var n := |before|;
      var i := 0;
      while i < |oldSummaries|
        invariant 0 <= i <= |oldSummaries|
        invariant db.Valid()
        invariant db.records == before[..n - Retention - i] + before[n - Retention..]
      {
        var k := n - Retention - i - 1;
        assert oldSummaries[i] == before[k];
        WithoutAt(db.records, k);
        assert db.records[k] == before[k];
        db.Delete(oldSummaries[i]);
        assert db.records == before[..k] + before[n - Retention..] by {
          assert (before[..k + 1] + before[n - Retention..])[..k] == before[..k];
          assert (before[..k + 1] + before[n - Retention..])[k + 1..] == before[n - Retention..];
        }
        i := i + 1;
      }
      assert before[..0] + before[n - Retention..] == before[n - Retention..];
    }
    resp := Processed(rows, columns, read.columnNames, SuccessMessage, read.analytics.value);
  }

  /** One entry of the history listing; the timestamp's `strftime` text is
      not modelled, the timestamp itself is passed on. */
  datatype SummaryEntry = SummaryEntry(rows: int, columns: int, columnNames: seq<string>, uploadedAt: int)

  function EntryOf(s: StoredSummary): SummaryEntry {
    SummaryEntry(s.rows, s.columns, DecodeColumnNames(s.columnNames), s.uploadedAt)
  }

  /** `get_summaries`: one entry per stored row, newest first. */
  method GetSummaries(db: SummaryTable) returns (data: seq<SummaryEntry>)
    requires db.Valid()
    ensures |data| == |db.records|
    ensures forall i :: 0 <= i < |data| ==> data[i] == EntryOf(db.records[|db.records| - 1 - i])
    ensures forall i, j :: 0 <= i < j < |data| ==> data[i].uploadedAt > data[j].uploadedAt
  {
    var summaries := NewestFirst(db.records);
    data := [];
    var i := 0;
    while i < |summaries|
      invariant 0 <= i <= |summaries|
      invariant |data| == i
      invariant forall k :: 0 <= k < i ==> data[k] == EntryOf(summaries[k])
    {
      data := data + [EntryOf(summaries[i])];
      i := i + 1;
    }
    NewestFirstDescending(db.records);
  }
}
