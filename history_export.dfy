/** `exportHistoryToCSV` of frontend/src/App.js up to the assembled text
    `csvContent`: header, one row per record, fields joined by ",", lines by
    "\n". The download itself is not modelled. */
module HistoryExport {
  import opened Wrappers
  import opened Strings
  import opened JsValues
  import opened Csv
  import opened StringOrder
  import opened KeyCollection

  const BaseHeaders: seq<string> := ["success", "rows", "columns", "column_names", "message"]

  /** The header for the given key sets: the base names, then the sorted
      averages keys, then the sorted type-distribution keys. */
  function HeaderOf(a: seq<string>, t: seq<string>): seq<string> {
    BaseHeaders + Sort(a) + Sort(t)
  }

  function Header(h: seq<Summary>): seq<string> {
    HeaderOf(CollectedKeys(h, Averages), CollectedKeys(h, TypeDistribution))
  }

  /** The keys the dynamic fields of every data row are looked up by: both
      sets in insertion order, as `Array.from(averagesKeys).map(...)` reads them. */
  function RowKeys(h: seq<Summary>): seq<string> {
    CollectedKeys(h, Averages) + CollectedKeys(h, TypeDistribution)
  }

  /** `item[h]` for each base name, with an array of column names joined by ", ". */
  function BaseValues(r: Summary): seq<Value> {
    [r.success, r.rows, r.columns,
     match r.columnNames
     case List(ns) => Str(Join(ns, ", "))
     case NotList(v) => v,
     r.message]
  }

  /** `item.averages ? item.averages[k] : ""`. */
  function Lookup(sec: Section, k: string): Value {
    match sec
    case Obj(e) => Get(e, k)
    case Scalar(v) => if Truthy(v) then Undefined else Str("")
  }

  function DynamicCells(sec: Section, keys: seq<string>): seq<string> {
    seq(|keys|, i requires 0 <= i < |keys| => FormatCsvValue(Lookup(sec, keys[i])))
  }

  /** One data row, with its dynamic fields in the order of the given key lists. */
  function Row(r: Summary, a: seq<string>, t: seq<string>): seq<string> {
    BaseCells(r) + DynamicCells(r.averages, a) + DynamicCells(r.typeDistribution, t)
  }

  /** The five formatted base fields of a record. */
  function BaseCells(r: Summary): (cells: seq<string>)
    ensures |cells| == 5
  {
    var base := BaseValues(r);
    seq(5, i requires 0 <= i < 5 => FormatCsvValue(base[i]))
  }

  function Rows(h: seq<Summary>, a: seq<string>, t: seq<string>): seq<seq<string>> {
    seq(|h|, i requires 0 <= i < |h| => Row(h[i], a, t))
  }

  /** The header line over the rows, with the rows reading the key lists as given. */
  function TableOf(h: seq<Summary>, a: seq<string>, t: seq<string>): seq<seq<string>> {
    [HeaderOf(a, t)] + Rows(h, a, t)
  }

  /** The table as the source builds it: sorted header, rows in first-seen key order. */
  function Table(h: seq<Summary>): seq<seq<string>> {
    TableOf(h, CollectedKeys(h, Averages), CollectedKeys(h, TypeDistribution))
  }

  /** `csvContent`, or nothing when there is no history to export. */
  function ExportCsv(h: seq<Summary>): (doc: Option<string>)
    ensures doc.None? <==> |h| == 0
  {
    if |h| == 0 then None else Some(Render(Table(h)))
  }

  function Pick(a: seq<string>, t: seq<string>, g: Group): seq<string> {
    match g
    case Averages => a
    case TypeDistribution => t
  }

  /** Where the dynamic fields of group `g` begin in a line. */
  function Start(a: seq<string>, g: Group): nat {
    match g
    case Averages => 5
    case TypeDistribution => 5 + |a|
  }

  function Offset(h: seq<Summary>, g: Group): nat {
    Start(CollectedKeys(h, Averages), g)
  }

  // ---- Facts about the table for explicit key lists ----

  /** Slicing a concatenation of three sequences back into its parts. */
  lemma Parts3(x: seq<string>, y: seq<string>, z: seq<string>)
    ensures |x + y + z| == |x| + |y| + |z|
    ensures (x + y + z)[..|x|] == x
    ensures (x + y + z)[|x|..|x| + |y|] == y
    ensures (x + y + z)[|x| + |y|..] == z
    ensures (x + y + z)[|x|..] == y + z
  {
  }

  lemma HeaderParts(a: seq<string>, t: seq<string>)
    ensures |Sort(a)| == |a| && |Sort(t)| == |t|
    ensures |HeaderOf(a, t)| == 5 + |a| + |t|
    ensures HeaderOf(a, t)[..5] == BaseHeaders
    ensures HeaderOf(a, t)[5..5 + |a|] == Sort(a)
    ensures HeaderOf(a, t)[5 + |a|..] == Sort(t)
    ensures HeaderOf(a, t)[5..] == Sort(a) + Sort(t)
  {
    SortPermutes(a);
    SortPermutes(t);
    Parts3(BaseHeaders, Sort(a), Sort(t));
  }

  /** Indexing into the middle or last part of a three-part concatenation. */
  lemma CellAt(b: seq<string>, x: seq<string>, y: seq<string>, m: nat)
    ensures |b + x + y| == |b| + |x| + |y|
    ensures m < |x| ==> (b + x + y)[|b| + m] == x[m]
    ensures m < |y| ==> (b + x + y)[|b| + |x| + m] == y[m]
  {
  }

  lemma RowField(r: Summary, a: seq<string>, t: seq<string>, g: Group, m: nat)
    requires m < |Pick(a, t, g)|
    ensures |Row(r, a, t)| == 5 + |a| + |t|
    ensures Start(a, g) + m < |Row(r, a, t)|
    ensures Row(r, a, t)[Start(a, g) + m] == DynamicCells(SectionOf(r, g), Pick(a, t, g))[m]
  {
    CellAt(BaseCells(r), DynamicCells(r.averages, a), DynamicCells(r.typeDistribution, t), m);
    match g {
      case Averages =>
      case TypeDistribution =>
    }
  }

  lemma RowBase(r: Summary, a: seq<string>, t: seq<string>, j: nat)
    requires j < 5
    ensures |Row(r, a, t)| == 5 + |a| + |t|
    ensures Row(r, a, t)[j] == FormatCsvValue(BaseValues(r)[j])
  {
    var b := BaseCells(r);
    assert (b + DynamicCells(r.averages, a) + DynamicCells(r.typeDistribution, t))[j] == b[j];
  }

  lemma TableRow(h: seq<Summary>, a: seq<string>, t: seq<string>, i: nat)
    requires i < |h|
    ensures |TableOf(h, a, t)| == |h| + 1
    ensures TableOf(h, a, t)[0] == HeaderOf(a, t)
    ensures TableOf(h, a, t)[i + 1] == Row(h[i], a, t)
  {
  }

  lemma TableShapeOf(h: seq<Summary>, a: seq<string>, t: seq<string>)
    ensures |TableOf(h, a, t)| == |h| + 1
    ensures |HeaderOf(a, t)| == 5 + |a| + |t|
    ensures forall i :: 0 <= i < |TableOf(h, a, t)| ==> |TableOf(h, a, t)[i]| == |HeaderOf(a, t)|
  {
    HeaderParts(a, t);
    forall i | 1 <= i < |TableOf(h, a, t)| ensures |TableOf(h, a, t)[i]| == |HeaderOf(a, t)| {
      TableRow(h, a, t, i - 1);
      RowBase(h[i - 1], a, t, 0);
    }
  }

  lemma RowClosed(r: Summary, a: seq<string>, t: seq<string>, j: nat)
    requires j < |Row(r, a, t)|
    ensures Closed(Row(r, a, t)[j], ',') && Closed(Row(r, a, t)[j], '\n')
  {
    RowBase(r, a, t, 0);
    var v: Value;
    if j < 5 {
      RowBase(r, a, t, j);
      v := BaseValues(r)[j];
    } else if j < 5 + |a| {
      RowField(r, a, t, Averages, j - 5);
      v := Lookup(r.averages, a[j - 5]);
    } else {
      RowField(r, a, t, TypeDistribution, j - 5 - |a|);
      v := Lookup(r.typeDistribution, t[j - 5 - |a|]);
    }
    assert Row(r, a, t)[j] == FormatCsvValue(v);
    FormatClosed(v, ',');
    FormatClosed(v, '\n');
  }

  lemma BaseHeadersPlain(j: nat)
    requires j < 5
    ensures Dq !in BaseHeaders[j] && ',' !in BaseHeaders[j] && '\n' !in BaseHeaders[j]
  {
    if j == 0 {
      assert BaseHeaders[0] == "success";
    } else if j == 1 {
      assert BaseHeaders[1] == "rows";
    } else if j == 2 {
      assert BaseHeaders[2] == "columns";
    } else if j == 3 {
      assert BaseHeaders[3] == "column_names";
    } else {
      assert BaseHeaders[4] == "message";
    }
  }

  lemma SortedMember(s: seq<string>, j: nat)
    requires j < |Sort(s)|
    ensures Sort(s)[j] in s
  {
    SortPermutes(s);
    assert Sort(s)[j] in multiset(Sort(s));
  }

  lemma HeaderName(a: seq<string>, t: seq<string>, j: nat)
    requires 5 <= j < |HeaderOf(a, t)|
    ensures HeaderOf(a, t)[j] in a + t
  {
    HeaderParts(a, t);
    if j < 5 + |a| {
      assert HeaderOf(a, t)[j] == Sort(a)[j - 5];
      SortedMember(a, j - 5);
    } else {
      assert HeaderOf(a, t)[j] == Sort(t)[j - 5 - |a|];
      SortedMember(t, j - 5 - |a|);
    }
  }

  lemma HeaderClosed(a: seq<string>, t: seq<string>, j: nat)
    requires forall k :: k in a + t ==> Plain(k)
    requires j < |HeaderOf(a, t)|
    ensures Closed(HeaderOf(a, t)[j], ',') && Closed(HeaderOf(a, t)[j], '\n')
  {
    var name := HeaderOf(a, t)[j];
    if j < 5 {
      BaseHeadersPlain(j);
      assert name == BaseHeaders[j];
    } else {
      HeaderName(a, t, j);
    }
    UnquotedClosed(name, ',');
    UnquotedClosed(name, '\n');
  }

  lemma TableReadsBack(h: seq<Summary>, a: seq<string>, t: seq<string>)
    requires forall k :: k in a + t ==> Plain(k)
    ensures ParseTable(Render(TableOf(h, a, t))) == TableOf(h, a, t)
  {
    var tb := TableOf(h, a, t);
    TableShapeOf(h, a, t);
    forall i, j | 0 <= i < |tb| && 0 <= j < |tb[i]|
      ensures Closed(tb[i][j], ',') && Closed(tb[i][j], '\n')
    {
      if i == 0 {
        HeaderClosed(a, t, j);
      } else {
        TableRow(h, a, t, i - 1);
        RowClosed(h[i - 1], a, t, j);
      }
    }
    ParseRender(tb);
  }

  lemma ConcatEqual(x: seq<string>, y: seq<string>, u: seq<string>, w: seq<string>)
    requires |x| == |u|
    ensures x + y == u + w <==> x == u && y == w
  {
    if x + y == u + w {
      assert x == (x + y)[..|x|] == (u + w)[..|u|] == u;
      assert y == (x + y)[|x|..] == (u + w)[|u|..] == w;
    }
  }

  // ---- Properties of the export ----

  /** The header line is followed by exactly one line per record, and every
      line has as many fields as the header: five plus one per distinct key. */
  lemma TableShape(h: seq<Summary>)
    ensures |Table(h)| == |h| + 1
    ensures |Header(h)| == 5 + |CollectedKeys(h, Averages)| + |CollectedKeys(h, TypeDistribution)|
    ensures forall i :: 0 <= i < |Table(h)| ==> |Table(h)[i]| == |Header(h)|
  {
    TableShapeOf(h, CollectedKeys(h, Averages), CollectedKeys(h, TypeDistribution));
  }

  lemma HeaderGroup(a: seq<string>, t: seq<string>, g: Group)
    ensures Start(a, g) + |Pick(a, t, g)| <= |HeaderOf(a, t)|
    ensures HeaderOf(a, t)[Start(a, g)..Start(a, g) + |Pick(a, t, g)|] == Sort(Pick(a, t, g))
  {
    HeaderParts(a, t);
    if g == TypeDistribution {
      assert HeaderOf(a, t)[5 + |a|..] == Sort(t);
    }
  }

  lemma SortSpec(keys: seq<string>)
    requires NoDuplicates(keys)
    ensures Ascending(Sort(keys))
    ensures forall k :: k in Sort(keys) <==> k in keys
  {
    SortAscending(keys);
    SortPermutes(keys);
    forall k ensures k in Sort(keys) <==> k in keys {
      assert k in Sort(keys) <==> k in multiset(Sort(keys));
      assert k in keys <==> k in multiset(keys);
    }
  }

  /** For explicit key lists: a group's header names are its keys, sorted. */
  lemma GroupNamesOf(a: seq<string>, t: seq<string>, g: Group)
    requires NoDuplicates(Pick(a, t, g))
    ensures HeaderOf(a, t)[..5] == BaseHeaders
    ensures Start(a, g) + |Pick(a, t, g)| <= |HeaderOf(a, t)|
    ensures var names := HeaderOf(a, t)[Start(a, g)..Start(a, g) + |Pick(a, t, g)|];
            && Ascending(names)
            && forall k :: k in names <==> k in Pick(a, t, g)
  {
    HeaderParts(a, t);
    HeaderGroup(a, t, g);
    SortSpec(Pick(a, t, g));
  }

  /** The header holds the five base names in their fixed order, then for each
      group the keys found in any record's object of that group, ascending and
      each once. */
  lemma HeaderColumns(h: seq<Summary>, g: Group)
    ensures Header(h)[..5] == BaseHeaders
    ensures Offset(h, g) + |CollectedKeys(h, g)| <= |Header(h)|
    ensures var names := Header(h)[Offset(h, g)..Offset(h, g) + |CollectedKeys(h, g)|];
            && Ascending(names)
            && forall k :: k in names <==>
                 exists i :: 0 <= i < |h| && k in ObjectKeys(SectionOf(h[i], g))
  {
    var a, t := CollectedKeys(h, Averages), CollectedKeys(h, TypeDistribution);
    assert Pick(a, t, g) == CollectedKeys(h, g);
    assert Header(h) == HeaderOf(a, t);
    assert Offset(h, g) == Start(a, g);
    CollectedKeysSpec(h, g);
    GroupNamesOf(a, t, g);
  }

  /** What the dynamic field for key `k` holds, given the record's section `sec`. */
  lemma FieldFill(sec: Section, k: string)
    ensures var field := FormatCsvValue(Lookup(sec, k));
            && (sec.Obj? && k in Keys(sec.entries) ==>
                  (k, Get(sec.entries, k)) in sec.entries && field == FormatCsvValue(Get(sec.entries, k)))
            && (sec.Obj? && k !in Keys(sec.entries) ==> field == "")
            && (sec.Scalar? && Truthy(sec.v) ==> field == "")
            && (sec.Scalar? && !Truthy(sec.v) ==> field == [Dq, Dq])
  {
    if sec.Obj? {
      if k in Keys(sec.entries) {
        GetPresent(sec.entries, k);
      } else {
        GetMissing(sec.entries, k);
      }
    }
    assert Escape("") == "";
  }

  /** Each data line is the record at that position of the history. Its field
      at offset `m` of group `g` is read by the `m`-th key in first-seen
      order: the formatted value when the record's object has the key, an
      unquoted empty field when its object lacks the key or its slot is a
      truthy non-object, and `""` when the slot is missing or falsy. */
  lemma DynamicField(h: seq<Summary>, i: nat, g: Group, m: nat)
    requires i < |h| && m < |CollectedKeys(h, g)|
    ensures Offset(h, g) + m < |Table(h)[i + 1]|
    ensures var k := CollectedKeys(h, g)[m];
            var sec := SectionOf(h[i], g);
            var field := Table(h)[i + 1][Offset(h, g) + m];
            && (sec.Obj? && k in Keys(sec.entries) ==>
                  (k, Get(sec.entries, k)) in sec.entries && field == FormatCsvValue(Get(sec.entries, k)))
            && (sec.Obj? && k !in Keys(sec.entries) ==> field == "")
            && (sec.Scalar? && Truthy(sec.v) ==> field == "")
            && (sec.Scalar? && !Truthy(sec.v) ==> field == [Dq, Dq])
  {
    var a, t := CollectedKeys(h, Averages), CollectedKeys(h, TypeDistribution);
    assert Pick(a, t, g) == CollectedKeys(h, g);
    assert Table(h) == TableOf(h, a, t);
    assert Offset(h, g) == Start(a, g);
    DynamicFieldOf(h, a, t, i, g, m);
  }

  /** `DynamicField` for explicit key lists. */
  lemma DynamicFieldOf(h: seq<Summary>, a: seq<string>, t: seq<string>, i: nat, g: Group, m: nat)
    requires i < |h| && m < |Pick(a, t, g)|
    ensures Start(a, g) + m < |TableOf(h, a, t)[i + 1]|
    ensures var k := Pick(a, t, g)[m];
            var sec := SectionOf(h[i], g);
            var field := TableOf(h, a, t)[i + 1][Start(a, g) + m];
            && (sec.Obj? && k in Keys(sec.entries) ==>
                  (k, Get(sec.entries, k)) in sec.entries && field == FormatCsvValue(Get(sec.entries, k)))
            && (sec.Obj? && k !in Keys(sec.entries) ==> field == "")
            && (sec.Scalar? && Truthy(sec.v) ==> field == "")
            && (sec.Scalar? && !Truthy(sec.v) ==> field == [Dq, Dq])
  {
    TableRow(h, a, t, i);
    RowField(h[i], a, t, g, m);
    FieldFill(SectionOf(h[i], g), Pick(a, t, g)[m]);
  }

  /** The five base fields of each data line: success, rows, columns, the
      column names (an array joined by ", "), message, each read back as the
      value's text, or blank for null and undefined. */
  lemma BaseFields(h: seq<Summary>, i: nat, j: nat)
    requires i < |h| && j < 5
    ensures j < |Table(h)[i + 1]|
    ensures DecodeCell(Table(h)[i + 1][j]) == Expected(BaseValues(h[i])[j])
  {
    var a, t := CollectedKeys(h, Averages), CollectedKeys(h, TypeDistribution);
    TableRow(h, a, t, i);
    RowBase(h[i], a, t, j);
    FormatDecodes(BaseValues(h[i])[j]);
  }

  /** When no key contains a quote, comma or line feed, a quote-aware reader
      splits the document back into exactly the header and the data rows. */
  lemma ExportReadsBack(h: seq<Summary>)
    requires |h| > 0
    requires forall k :: k in RowKeys(h) ==> Plain(k)
    ensures ParseTable(ExportCsv(h).value) == Table(h)
  {
    TableReadsBack(h, CollectedKeys(h, Averages), CollectedKeys(h, TypeDistribution));
  }

  /** The header names a dynamic column by the sorted keys while the rows
      fill it by the first-seen keys: the two agree exactly when both sets
      were already filled in ascending order. */
  lemma ColumnsAlignIff(h: seq<Summary>)
    ensures Header(h)[5..] == RowKeys(h) <==>
              Ascending(CollectedKeys(h, Averages)) && Ascending(CollectedKeys(h, TypeDistribution))
  {
    var a, t := CollectedKeys(h, Averages), CollectedKeys(h, TypeDistribution);
    HeaderParts(a, t);
    CollectedKeysSpec(h, Averages);
    CollectedKeysSpec(h, TypeDistribution);
    SortFixedIff(a);
    SortFixedIff(t);
    ConcatEqual(Sort(a), Sort(t), a, t);
  }

  lemma PumpCompressorKeys(r: Summary)
    requires r.averages == Scalar(Undefined)
    requires r.typeDistribution == Obj([("Pump", Num("5")), ("Compressor", Num("3"))])
    ensures CollectedKeys([r], Averages) == []
    ensures CollectedKeys([r], TypeDistribution) == ["Pump", "Compressor"]
  {
    var h := [r];
    assert h[..0] == [];
    assert AllKeys(h, Averages) == [];
    assert Keys(r.typeDistribution.entries) == ["Pump", "Compressor"];
    assert AllKeys(h, TypeDistribution) == ["Pump", "Compressor"];
    var s := ["Pump", "Compressor"];
    assert s[..1] == ["Pump"];
    assert [s[0]][..0] == [];
    assert FirstSeen(s) == s;
  }

  lemma SortPumpCompressor()
    ensures Sort(["Pump", "Compressor"]) == ["Compressor", "Pump"]
  {
    assert Below("Compressor", "Pump");
    assert Sort(["Compressor"]) == ["Compressor"];
  }

  /** The record of the finding below: its type distribution lists "Pump"
      before "Compressor", as pandas' `value_counts` does when pumps are the
      more frequent type. */
  function PumpRecord(): Summary {
    Summary(Bool(true), Num("8"), Num("5"), List(["type"]), Str("ok"),
            Scalar(Undefined), Obj([("Pump", Num("5")), ("Compressor", Num("3"))]))
  }

  lemma PumpHeader(h: seq<Summary>)
    requires CollectedKeys(h, Averages) == []
    requires CollectedKeys(h, TypeDistribution) == ["Pump", "Compressor"]
    ensures Header(h)[5..] == ["Compressor", "Pump"]
  {
    SortPumpCompressor();
    HeaderParts([], ["Pump", "Compressor"]);
  }

  lemma PumpRow(r: Summary, t: seq<string>)
    requires r == PumpRecord() && t == ["Pump", "Compressor"]
    ensures Row(r, [], t)[5..] == ["\"5\"", "\"3\""]
  {
    RowField(r, [], t, TypeDistribution, 0);
    RowField(r, [], t, TypeDistribution, 1);
    assert Lookup(r.typeDistribution, "Pump") == Num("5");
    assert Lookup(r.typeDistribution, "Compressor") == Num("3");
    assert Escape("5") == "5" && Escape("3") == "3";
    assert FormatCsvValue(Num("5")) == "\"5\"" && FormatCsvValue(Num("3")) == "\"3\"";
    var row := Row(r, [], t);
    assert |row| == 7;
    assert row[5..] == [row[5], row[6]];
  }

  lemma PumpRecordMisplaced(h: seq<Summary>)
    requires |h| >= 1 && h[0] == PumpRecord()
    requires CollectedKeys(h, Averages) == []
    requires CollectedKeys(h, TypeDistribution) == ["Pump", "Compressor"]
    ensures Header(h)[5..] == ["Compressor", "Pump"]
    ensures Table(h)[1][5..] == ["\"5\"", "\"3\""]
  {
    var t := ["Pump", "Compressor"];
    PumpHeader(h);
    TableRow(h, [], t, 0);
    PumpRow(h[0], t);
  }

  /** For that record the header's first dynamic column is "Compressor", yet
      the data row puts the pump count (5) under it and the compressor count
      (3) under "Pump". */
  lemma FirstSeenOrderMisplacesCounts()
    ensures Header([PumpRecord()])[5..] == ["Compressor", "Pump"]
    ensures Table([PumpRecord()])[1][5..] == ["\"5\"", "\"3\""]
  {
    PumpCompressorKeys(PumpRecord());
    PumpRecordMisplaced([PumpRecord()]);
  }

  // ---- Corrected export: rows read the dynamic fields in header order ----

  /** The header over rows that read the key lists in the header's own order. */
  function SortedTableOf(h: seq<Summary>, a: seq<string>, t: seq<string>): seq<seq<string>> {
    [HeaderOf(a, t)] + Rows(h, Sort(a), Sort(t))
  }

  function SortedTable(h: seq<Summary>): seq<seq<string>> {
    SortedTableOf(h, CollectedKeys(h, Averages), CollectedKeys(h, TypeDistribution))
  }

  function ExportCsvSorted(h: seq<Summary>): (doc: Option<string>)
    ensures doc.None? <==> |h| == 0
  {
    if |h| == 0 then None else Some(Render(SortedTable(h)))
  }

  /** The header name at position `m` of group `g` is the `m`-th sorted key. */
  lemma HeaderAt(a: seq<string>, t: seq<string>, g: Group, m: nat)
    requires m < |Pick(a, t, g)|
    ensures |Sort(a)| == |a| && |Sort(t)| == |t| && |HeaderOf(a, t)| == 5 + |a| + |t|
    ensures Start(a, g) + m < |HeaderOf(a, t)|
    ensures HeaderOf(a, t)[Start(a, g) + m] == Pick(Sort(a), Sort(t), g)[m]
  {
    HeaderParts(a, t);
    if g == Averages {
      assert HeaderOf(a, t)[5..5 + |a|][m] == Sort(a)[m];
    } else {
      assert HeaderOf(a, t)[5 + |a|..][m] == Sort(t)[m];
    }
  }

  /** For explicit key lists: a row read in sorted key order puts under each
      dynamic header name the value of that key. */
  lemma SortedRowField(r: Summary, a: seq<string>, t: seq<string>, g: Group, m: nat)
    requires m < |Pick(a, t, g)|
    ensures |Row(r, Sort(a), Sort(t))| == |HeaderOf(a, t)| && Start(a, g) + m < |HeaderOf(a, t)|
    ensures Row(r, Sort(a), Sort(t))[Start(a, g) + m]
              == FormatCsvValue(Lookup(SectionOf(r, g), HeaderOf(a, t)[Start(a, g) + m]))
  {
    HeaderAt(a, t, g, m);
    var sa, st := Sort(a), Sort(t);
    assert Start(sa, g) == Start(a, g);
    RowField(r, sa, st, g, m);
  }

  /** In the corrected table every dynamic field holds the value of the key
      its header names, from the record's section of that group. This holds
      for any key lists; `SortedTable(h)` is the case of the collected ones. */
  lemma SortedColumnsAligned(h: seq<Summary>, a: seq<string>, t: seq<string>, i: nat, g: Group, m: nat)
    requires i < |h| && m < |Pick(a, t, g)|
    ensures |SortedTableOf(h, a, t)[i + 1]| == |HeaderOf(a, t)| && Start(a, g) + m < |HeaderOf(a, t)|
    ensures SortedTableOf(h, a, t)[i + 1][Start(a, g) + m]
              == FormatCsvValue(Lookup(SectionOf(h[i], g), HeaderOf(a, t)[Start(a, g) + m]))
  {
    assert SortedTableOf(h, a, t)[i + 1] == Row(h[i], Sort(a), Sort(t));
    SortedRowField(h[i], a, t, g, m);
  }

  /** When both sets happen to be filled in ascending order, the corrected
      export and the source's export produce the same document. */
  lemma SortedExportAgrees(h: seq<Summary>)
    requires Ascending(CollectedKeys(h, Averages)) && Ascending(CollectedKeys(h, TypeDistribution))
    ensures ExportCsvSorted(h) == ExportCsv(h)
  {
    SortKeepsAscending(CollectedKeys(h, Averages));
    SortKeepsAscending(CollectedKeys(h, TypeDistribution));
  }

  /** The export as the source runs it: the key-collecting loop, then the
      header and rows. None stands for the "No data to export!" alert. */
  method ExportHistoryToCsv(historyData: seq<Summary>) returns (csvContent: Option<string>)
    ensures csvContent == ExportCsv(historyData)
  {
    if |historyData| == 0 {
      return None;
    }
    var averagesKeys, typeDistKeys := CollectKeys(historyData);
    var headers := BaseHeaders + Sort(averagesKeys) + Sort(typeDistKeys);
    var rows := Rows(historyData, averagesKeys, typeDistKeys);
    csvContent := Some(Render([headers] + rows));
  }
}
