/** The per-field quoting of `formatCSVValue` (frontend/src/App.js) and the
    line/field layout of the exported document, with a quote-aware reader
    that recovers the fields. The quoting follows rules 5-7 of section 2 of
    RFC 4180 (every field quoted, embedded quotes doubled) except that null
    and undefined become an unquoted empty field; lines are separated by a
    bare LF rather than the CRLF of rule 1. */
module Csv {
  import opened Wrappers
  import opened Strings
  import opened JsValues

  const Dq: char := '"'

  /** `value.replace(/"/g, '""')`: every double quote doubled. */
  function Escape(s: string): string
    decreases |s|
  {
    if s == [] then []
    else (if s[0] == Dq then [Dq, Dq] else [s[0]]) + Escape(s[1..])
  }

  /** `formatCSVValue`: null and undefined give an empty field; any other
      value is its text, quotes doubled, wrapped in double quotes. */
  function FormatCsvValue(v: Value): string {
    if IsNullish(v) then "" else [Dq] + Escape(Text(v)) + [Dq]
  }

  /** The field is empty exactly for null and undefined; any other field is
      wrapped in double quotes. */
  lemma FormatShape(v: Value)
    ensures FormatCsvValue(v) == "" <==> IsNullish(v)
    ensures !IsNullish(v) ==>
              var cell := FormatCsvValue(v);
              |cell| >= 2 && cell[0] == Dq && cell[|cell| - 1] == Dq
  {
  }

  /** Reads an escaped field body back: `""` stands for `"`, a lone `"` is malformed. */
  function Unescape(t: string): Option<string>
    decreases |t|
  {
    if t == [] then Some([])
    else if t[0] == Dq then
      if |t| >= 2 && t[1] == Dq then
        match Unescape(t[2..])
        case Some(u) => Some([Dq] + u)
        case None => None
      else None
    else
      match Unescape(t[1..])
      case Some(u) => Some([t[0]] + u)
      case None => None
  }

  /** What a reader makes of one field: empty, a quoted text, or neither. */
  datatype Cell = Blank | Quoted(text: string) | Malformed

  function DecodeCell(cell: string): Cell {
    if cell == [] then Blank
    else if |cell| >= 2 && cell[0] == Dq && cell[|cell| - 1] == Dq then
      match Unescape(cell[1..|cell| - 1])
      case Some(u) => Quoted(u)
      case None => Malformed
    else Malformed
  }

  /** The reading a field is meant to have: blank for null and undefined,
      the value's text otherwise. */
  function Expected(v: Value): Cell {
    if IsNullish(v) then Blank else Quoted(Text(v))
  }

  lemma {:induction false} UnescapeEscape(s: string)
    ensures Unescape(Escape(s)) == Some(s)
    decreases |s|
  {
    if s != [] {
      UnescapeEscape(s[1..]);
      var e := Escape(s);
      if s[0] == Dq {
        assert e == [Dq, Dq] + Escape(s[1..]);
        assert e[2..] == Escape(s[1..]);
      } else {
        assert e == [s[0]] + Escape(s[1..]);
        assert e[1..] == Escape(s[1..]);
      }
      assert s == [s[0]] + s[1..];
    }
  }

  lemma {:induction false} EscapeLength(s: string)
    ensures |Escape(s)| == |s| + Count(s, Dq)
    decreases |s|
  {
    if s != [] {
      EscapeLength(s[1..]);
    }
  }

  /** Decoding a formatted field gives back the value's text, or blank for
      null and undefined. */
  lemma FormatDecodes(v: Value)
    ensures DecodeCell(FormatCsvValue(v)) == Expected(v)
  {
    if !IsNullish(v) {
      var e := Escape(Text(v));
      var cell := [Dq] + e + [Dq];
      assert cell[1..|cell| - 1] == e;
      UnescapeEscape(Text(v));
    }
  }

  /** A formatted value is its text plus one character per embedded quote
      plus the two enclosing quotes. */
  lemma FormatLength(v: Value)
    requires !IsNullish(v)
    ensures |FormatCsvValue(v)| == |Text(v)| + Count(Text(v), Dq) + 2
  {
    EscapeLength(Text(v));
  }

  // ---- Quote-aware splitting: a separator inside quotes does not split ----

  /** The quoting state after reading `s` from state `inQuotes`: each quote toggles it. */
  function QuoteState(s: string, inQuotes: bool): bool
    decreases |s|
  {
    if s == [] then inQuotes
    else QuoteState(s[1..], if s[0] == Dq then !inQuotes else inQuotes)
  }

  /** No `sep` in `s` outside quotes, reading from state `inQuotes`. */
  predicate NoBareSep(s: string, sep: char, inQuotes: bool)
    decreases |s|
  {
    s == [] ||
    ((inQuotes || s[0] != sep) &&
     NoBareSep(s[1..], sep, if s[0] == Dq then !inQuotes else inQuotes))
  }

  /** The position of the first `sep` outside quotes, or `|s|` when there is none. */
  function BareSepIndex(s: string, sep: char, inQuotes: bool): (i: nat)
    ensures i <= |s|
    decreases |s|
  {
    if s == [] then 0
    else if !inQuotes && s[0] == sep then 0
    else 1 + BareSepIndex(s[1..], sep, if s[0] == Dq then !inQuotes else inQuotes)
  }

  /** A field a reader can delimit: no bare `sep`, and its quotes balance. */
  predicate Closed(cell: string, sep: char) {
    NoBareSep(cell, sep, false) && !QuoteState(cell, false)
  }

  /** Splits `s` at every `sep` outside quotes. */
  function SplitBare(s: string, sep: char): (parts: seq<string>)
    ensures |parts| >= 1
    decreases |s|
  {
    var i := BareSepIndex(s, sep, false);
    if i == |s| then [s] else [s[..i]] + SplitBare(s[i + 1..], sep)
  }

  /** Each row's fields joined by "," and the rows joined by "\n", as
      `[headers.join(","), ...rows.map(r => r.join(","))].join("\n")` does. */
  function Render(table: seq<seq<string>>): string {
    Join(RenderLines(table), "\n")
  }

  function RenderLines(table: seq<seq<string>>): seq<string> {
    seq(|table|, i requires 0 <= i < |table| => Join(table[i], ","))
  }

  /** A quote-aware reader: lines at bare "\n", fields at bare ",". */
  function ParseTable(doc: string): seq<seq<string>> {
    var lines := SplitBare(doc, '\n');
    seq(|lines|, i requires 0 <= i < |lines| => SplitBare(lines[i], ','))
  }

  lemma {:induction false} QuoteStateConcat(a: string, b: string, q: bool)
    ensures QuoteState(a + b, q) == QuoteState(b, QuoteState(a, q))
    decreases |a|
  {
    if a == [] {
      assert a + b == b;
    } else {
      assert (a + b)[1..] == a[1..] + b;
      QuoteStateConcat(a[1..], b, if a[0] == Dq then !q else q);
    }
  }

  lemma {:induction false} NoBareSepConcat(a: string, b: string, sep: char, q: bool)
    ensures NoBareSep(a + b, sep, q) <==> NoBareSep(a, sep, q) && NoBareSep(b, sep, QuoteState(a, q))
    decreases |a|
  {
    if a == [] {
      assert a + b == b;
    } else {
      assert (a + b)[1..] == a[1..] + b;
      NoBareSepConcat(a[1..], b, sep, if a[0] == Dq then !q else q);
    }
  }

  lemma {:induction false} BareSepIndexConcat(a: string, b: string, sep: char, q: bool)
    requires NoBareSep(a, sep, q)
    ensures BareSepIndex(a + b, sep, q) == |a| + BareSepIndex(b, sep, QuoteState(a, q))
    decreases |a|
  {
    if a == [] {
      assert a + b == b;
    } else {
      assert (a + b)[1..] == a[1..] + b;
      BareSepIndexConcat(a[1..], b, sep, if a[0] == Dq then !q else q);
    }
  }

  lemma ClosedConcat(a: string, b: string, sep: char)
    requires Closed(a, sep) && Closed(b, sep)
    ensures Closed(a + b, sep)
  {
    NoBareSepConcat(a, b, sep, false);
    QuoteStateConcat(a, b, false);
  }

  /** Joining closed fields by a separator that is not a quote and splitting
      at that separator gives the fields back. */
  lemma {:induction false} SplitJoin(parts: seq<string>, c: char)
    requires |parts| >= 1 && c != Dq
    requires forall k :: 0 <= k < |parts| ==> Closed(parts[k], c)
    ensures SplitBare(Join(parts, [c]), c) == parts
    decreases |parts|
  {
    var p := parts[0];
    if |parts| == 1 {
      BareSepIndexConcat(p, [], c, false);
      assert p + [] == p;
    } else {
      var rest := Join(parts[1..], [c]);
      var s := p + ([c] + rest);
      assert Join(parts, [c]) == s;
      BareSepIndexConcat(p, [c] + rest, c, false);
      assert BareSepIndex([c] + rest, c, false) == 0;
      assert s[..|p|] == p;
      assert s[|p| + 1..] == rest;
      SplitJoin(parts[1..], c);
      assert parts == [p] + parts[1..];
    }
  }

  /** Fields closed for `sep`, joined by a character that is neither a quote
      nor `sep`, make a line that is closed for `sep`. */
  lemma {:induction false} JoinClosed(parts: seq<string>, c: char, sep: char)
    requires c != Dq && c != sep
    requires forall k :: 0 <= k < |parts| ==> Closed(parts[k], sep)
    ensures Closed(Join(parts, [c]), sep)
    decreases |parts|
  {
    if |parts| >= 2 {
      JoinClosed(parts[1..], c, sep);
      var rest := Join(parts[1..], [c]);
      UnquotedClosed([c], sep);
      ClosedConcat([c], rest, sep);
      ClosedConcat(parts[0], [c] + rest, sep);
      assert Join(parts, [c]) == parts[0] + ([c] + rest);
    } else if |parts| == 0 {
      assert Closed("", sep);
    }
  }

  /** Reading back a rendered table whose fields are all closed yields the table. */
  lemma ParseRender(table: seq<seq<string>>)
    requires |table| >= 1
    requires forall i :: 0 <= i < |table| ==> |table[i]| >= 1
    requires forall i, j :: 0 <= i < |table| && 0 <= j < |table[i]| ==>
               Closed(table[i][j], ',') && Closed(table[i][j], '\n')
    ensures ParseTable(Render(table)) == table
  {
    var lines := RenderLines(table);
    forall i | 0 <= i < |lines|
      ensures Closed(lines[i], '\n')
    {
      JoinClosed(table[i], ',', '\n');
    }
    SplitJoin(lines, '\n');
    forall i | 0 <= i < |table|
      ensures SplitBare(lines[i], ',') == table[i]
    {
      SplitJoin(table[i], ',');
    }
  }

  lemma {:induction false} EscapeInside(s: string, sep: char)
    requires sep != Dq
    ensures NoBareSep(Escape(s), sep, true) && QuoteState(Escape(s), true)
    decreases |s|
  {
    if s != [] {
      EscapeInside(s[1..], sep);
      var head := if s[0] == Dq then [Dq, Dq] else [s[0]];
      assert Escape(s) == head + Escape(s[1..]);
      assert head[1..] == (if s[0] == Dq then [Dq] else []);
      NoBareSepConcat(head, Escape(s[1..]), sep, true);
      QuoteStateConcat(head, Escape(s[1..]), true);
    }
  }

  /** Every formatted value is a closed field for any separator but the quote. */
  lemma FormatClosed(v: Value, sep: char)
    requires sep != Dq
    ensures Closed(FormatCsvValue(v), sep)
  {
    if !IsNullish(v) {
      var e := Escape(Text(v));
      EscapeInside(Text(v), sep);
      NoBareSepConcat([Dq], e, sep, false);
      QuoteStateConcat([Dq], e, false);
      NoBareSepConcat([Dq] + e, [Dq], sep, false);
      QuoteStateConcat([Dq] + e, [Dq], false);
    }
  }

  /** A name with no quote, comma or line feed: it needs no quoting. */
  predicate Plain(s: string) {
    Dq !in s && ',' !in s && '\n' !in s
  }

  lemma {:induction false} UnquotedClosed(s: string, sep: char)
    requires Dq !in s && sep !in s
    ensures Closed(s, sep)
    ensures NoBareSep(s, sep, false) && !QuoteState(s, false)
    decreases |s|
  {
    if s != [] {
      assert s == [s[0]] + s[1..];
      UnquotedClosed(s[1..], sep);
    }
  }
}
