/** The content, media type and file name that `exportData` of
    src/utils/export.ts computes before handing them to the browser. */
module Export {

  /** A record as `Object.keys` / `Object.values` enumerate it: its
      properties, as key/value text, in enumeration order. */
  type Record = seq<(string, string)>

  /** `data[0]` of an empty array is `undefined`, and `Object.keys(undefined)` throws. */
  datatype ExportError = NoRecords

  datatype Result<T> = Ok(value: T) | Err(error: ExportError)

  datatype Download = Download(content: string, mediaType: string, extension: string, fileName: string)

  function Keys(r: Record): (ks: seq<string>)
    ensures |ks| == |r| && forall i :: 0 <= i < |r| ==> ks[i] == r[i].0
  {
    seq(|r|, i requires 0 <= i < |r| => r[i].0)
  }

  function Values(r: Record): (vs: seq<string>)
    ensures |vs| == |r| && forall i :: 0 <= i < |r| ==> vs[i] == r[i].1
  {
    seq(|r|, i requires 0 <= i < |r| => r[i].1)
  }

  // ------------------------------------------------------- join and split

  /** `Array.prototype.join(sep)` on strings. */
  function Join(parts: seq<string>, sep: char): string
    decreases |parts|
  {
    if parts == [] then ""
    else if |parts| == 1 then parts[0]
    else parts[0] + [sep] + Join(parts[1..], sep)
  }

  /** `String.prototype.split(sep)`: the pieces between separators, so one
      more piece than there are separators; the empty string splits to `[""]`. */
  function Split(s: string, sep: char): (parts: seq<string>)
    ensures |parts| >= 1
    decreases |s|
  {
    if s == [] then [""]
    else
      var rest := Split(s[1..], sep);
      if s[0] == sep then [""] + rest else [[s[0]] + rest[0]] + rest[1..]
  }

  /** How often `c` occurs in `s`. */
  function Count(s: string, c: char): nat
    decreases |s|
  {
    if s == [] then 0 else (if s[0] == c then 1 else 0) + Count(s[1..], c)
  }

  /** How often `c` occurs in all of `parts`. */
  function CountIn(parts: seq<string>, c: char): nat
    decreases |parts|
  {
    if parts == [] then 0 else Count(parts[0], c) + CountIn(parts[1..], c)
  }

  /** A separator-free prefix becomes the front of the first piece. */
  lemma {:induction false} SplitFreePrefix(a: string, t: string, sep: char)
    requires sep !in a
    ensures Split(a + t, sep) == [a + Split(t, sep)[0]] + Split(t, sep)[1..]
    decreases |a|
  {
    if a != [] {
      var a' := a[1..];
      assert (a + t)[0] == a[0] && (a + t)[1..] == a' + t;
      SplitFreePrefix(a', t, sep);
      assert [a[0]] + (a' + Split(t, sep)[0]) == a + Split(t, sep)[0];
    } else {
      var r := Split(t, sep);
      assert a + t == t && a + r[0] == r[0];
      assert [r[0]] + r[1..] == r;
    }
  }

  /** Round trip: splitting a join of separator-free pieces gives the pieces back. */
  lemma {:induction false} SplitJoin(parts: seq<string>, sep: char)
    requires parts != []
    requires forall i :: 0 <= i < |parts| ==> sep !in parts[i]
    ensures Split(Join(parts, sep), sep) == parts
    decreases |parts|
  {
    if |parts| == 1 {
      SplitFreePrefix(parts[0], "", sep);
      assert parts[0] + "" == parts[0];
    } else {
      var rest := parts[1..];
      SplitJoin(rest, sep);
      var j := Join(rest, sep);
      assert Join(parts, sep) == parts[0] + ([sep] + j);
      SplitFreePrefix(parts[0], [sep] + j, sep);
      assert ([sep] + j)[1..] == j;
      assert parts[0] + "" == parts[0];
      assert [parts[0]] + rest == parts;
    }
  }

  lemma {:induction false} CountAppend(a: string, b: string, c: char)
    ensures Count(a + b, c) == Count(a, c) + Count(b, c)
    decreases |a|
  {
    if a == [] {
      assert a + b == b;
    } else {
      assert (a + b)[1..] == a[1..] + b;
      CountAppend(a[1..], b, c);
    }
  }

  lemma {:induction false} SplitCount(s: string, c: char)
    ensures |Split(s, c)| == Count(s, c) + 1
    decreases |s|
  {
    if s != [] {
      SplitCount(s[1..], c);
    }
  }

  /** The separators of a join: those inside the pieces plus one between each two. */
  lemma {:induction false} JoinCount(parts: seq<string>, c: char)
    requires parts != []
    ensures Count(Join(parts, c), c) == CountIn(parts, c) + |parts| - 1
    decreases |parts|
  {
    if |parts| == 1 {
      assert parts[1..] == [];
    } else {
      JoinCount(parts[1..], c);
      CountAppend(parts[0], [c] + Join(parts[1..], c), c);
      CountAppend([c], Join(parts[1..], c), c);
      assert parts[0] + [c] + Join(parts[1..], c) == parts[0] + ([c] + Join(parts[1..], c));
      assert [c][1..] == [];
    }
  }

  lemma {:induction false} CountPositive(s: string, c: char)
    requires c in s
    ensures Count(s, c) >= 1
    decreases |s|
  {
    if s[0] != c {
      assert c in s[1..];
      CountPositive(s[1..], c);
    }
  }

  lemma {:induction false} CountInBoundsEach(parts: seq<string>, c: char, j: int)
    requires 0 <= j < |parts|
    ensures Count(parts[j], c) <= CountIn(parts, c)
    decreases |parts|
  {
    if j > 0 {
      CountInBoundsEach(parts[1..], c, j - 1);
    }
  }

  /** A character that is in no piece and is not the separator is not in the join. */
  lemma {:induction false} JoinAvoids(parts: seq<string>, sep: char, c: char)
    requires c != sep
    requires forall i :: 0 <= i < |parts| ==> c !in parts[i]
    ensures c !in Join(parts, sep)
    decreases |parts|
  {
    if |parts| > 1 {
      JoinAvoids(parts[1..], sep, c);
    }
  }

  /** `split` counts one more piece than there are separators in all pieces
      of the join, so a piece holding the separator adds pieces. */
  lemma SplitJoinPieces(parts: seq<string>, sep: char)
    requires parts != []
    ensures |Split(Join(parts, sep), sep)| == |parts| + CountIn(parts, sep)
  {
    SplitCount(Join(parts, sep), sep);
    JoinCount(parts, sep);
  }

  // ------------------------------------------------------------------ csv

  /** The lines of the CSV text: the header from the first record's keys,
      then each record's own values, commas between, nothing quoted. */
  function CsvLines(data: seq<Record>): (lines: seq<string>)
    requires data != []
    ensures |lines| == |data| + 1
    ensures lines[0] == Join(Keys(data[0]), ',')
    ensures forall i :: 0 <= i < |data| ==> lines[i + 1] == Join(Values(data[i]), ',')
  {
    [Join(Keys(data[0]), ',')] + seq(|data|, i requires 0 <= i < |data| => Join(Values(data[i]), ','))
  }

  /** `[headers, ...rows].join('\n')`; no records is an error. */
  function CsvContent(data: seq<Record>): (r: Result<string>)
    ensures r.Err? <==> data == []
    ensures r.Ok? ==> r.value == Join(Keys(data[0]), ',') + "\n" + Join(CsvLines(data)[1..], '\n')
  {
    if data == [] then Err(NoRecords)
    else
      var lines := CsvLines(data);
      assert |lines| > 1;
      Ok(Join(lines, '\n'))
  }

  /** Text free of both CSV separators. */
  predicate Plain(s: string) {
    ',' !in s && '\n' !in s
  }

  /** Line structure: when no emitted key or value holds a newline, the
      content splits into exactly the header and one line per record. */
  lemma CsvLineStructure(data: seq<Record>)
    requires data != []
    requires forall j :: 0 <= j < |data[0]| ==> '\n' !in data[0][j].0
    requires forall i, j :: 0 <= i < |data| && 0 <= j < |data[i]| ==> '\n' !in data[i][j].1
    ensures Split(CsvContent(data).value, '\n') == CsvLines(data)
    ensures |Split(CsvContent(data).value, '\n')| == |data| + 1
  {
    var lines := CsvLines(data);
    forall i | 0 <= i < |lines|
      ensures '\n' !in lines[i]
    {
      if i == 0 {
        JoinAvoids(Keys(data[0]), ',', '\n');
      } else {
        JoinAvoids(Values(data[i - 1]), ',', '\n');
      }
    }
    SplitJoin(lines, '\n');
  }

  /** Round trip: when no emitted key or value holds a comma or a newline
      and no record is empty, splitting the content on newlines and each
      line on commas gives back the first record's keys and every record's
      values. */
  lemma CsvRoundTrip(data: seq<Record>)
    requires data != []
    requires forall i :: 0 <= i < |data| ==> data[i] != []
    requires forall j :: 0 <= j < |data[0]| ==> Plain(data[0][j].0)
    requires forall i, j :: 0 <= i < |data| && 0 <= j < |data[i]| ==> Plain(data[i][j].1)
    ensures var lines := Split(CsvContent(data).value, '\n');
      && |lines| == |data| + 1
      && Split(lines[0], ',') == Keys(data[0])
      && forall i :: 0 <= i < |data| ==> Split(lines[i + 1], ',') == Values(data[i])
  {
    CsvLineStructure(data);
    SplitJoin(Keys(data[0]), ',');
    forall i | 0 <= i < |data|
      ensures Split(CsvLines(data)[i + 1], ',') == Values(data[i])
    {
      SplitJoin(Values(data[i]), ',');
    }
  }

  /** No escaping: a value holding a comma makes its line split into more
      columns than the record has fields. */
  lemma CsvCommaAddsColumns(data: seq<Record>, i: int, j: int)
    requires 0 <= i < |data| && 0 <= j < |data[i]| && ',' in data[i][j].1
    requires forall j :: 0 <= j < |data[0]| ==> '\n' !in data[0][j].0
    requires forall i, j :: 0 <= i < |data| && 0 <= j < |data[i]| ==> '\n' !in data[i][j].1
    ensures |Split(CsvContent(data).value, '\n')| == |data| + 1
    ensures |Split(Split(CsvContent(data).value, '\n')[i + 1], ',')| > |data[i]|
  {
    CsvLineStructure(data);
    var values := Values(data[i]);
    SplitJoinPieces(values, ',');
    CountPositive(values[j], ',');
    CountInBoundsEach(values, ',', j);
  }

  // --------------------------------------------------------------- export

  /** `exportData` up to the download: "csv" gives the CSV text, any other
      format the JSON text, produced by `stringify`, which stands for
      `JSON.stringify(data, null, 2)`. */
  function ExportData(data: seq<Record>, format: string, stringify: seq<Record> -> string): (r: Result<Download>)
    ensures format == "csv" ==> (r.Err? <==> data == [])
    ensures format == "csv" && r.Ok? ==>
      r.value.content == CsvContent(data).value && r.value.mediaType == "text/csv" && r.value.extension == "csv"
    ensures format != "csv" ==>
      r.Ok? && r.value.content == stringify(data) && r.value.mediaType == "application/json" && r.value.extension == "json"
    ensures r.Ok? ==> r.value.fileName == "sensor-data." + r.value.extension
  {
    if format == "csv" then
      match CsvContent(data)
      case Err(e) => Err(e)
      case Ok(content) => Ok(Download(content, "text/csv", "csv", "sensor-data.csv"))
    else
      Ok(Download(stringify(data), "application/json", "json", "sensor-data.json"))
  }
}
