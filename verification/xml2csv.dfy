/** spritesheet_xml2csv.py: a converter from a sprite sheet exported as XML
    (one element per line, `name="…" x="…" y="…" width="…" height="…"`) to
    the `.csv` manifest that `load_sprite` reads. The input is the file's
    text after Python's newline translation. */
module Xml2Csv {
  import opened Wrappers
  import opened Text
  import opened Csv
  import opened Registries

  /** The attributes read from every line, in the order of the CSV columns. */
  const Columns: seq<string> := ["name", "x", "y", "width", "height"]

  /** The number of columns of every row. */
  const ColumnCount: nat := 5

  /** The header line written before any row. */
  const CsvHeader: string := "name,x,y,width,height"

  /** Why `findattr` raised: the attribute is absent or its value has no
      closing quote, or the value holds a comma. */
  datatype AttrError = Missing(attr: string) | HasComma(attr: string)

  /** The text `findattr` searches for: the attribute name, '=' and '"'. */
  function Key(attr: string): (r: string)
    ensures |r| == |attr| + 2 && r[|attr|] == '=' && r[|attr| + 1] == '"'
  {
    attr + "=\""
  }

  /** `t` occurs at `i` and nowhere before. */
  predicate FirstAt(s: string, t: string, i: nat) {
    OccursAt(s, t, i) && forall k :: 0 <= k < i ==> !OccursAt(s, t, k)
  }

  /** `v` is the value of `attr` on `line`: the first `attr="` starts at `i`,
      and `v` is all that follows it up to the next '"'. */
  predicate ValueAt(line: string, attr: string, i: nat, v: string) {
    FirstAt(line, Key(attr), i) && OccursAt(line, v + "\"", i + |attr| + 2) && '"' !in v
  }

  /** `findattr`: the text between the first `attr="` and the next '"'. */
  function FindAttr(line: string, attr: string): (r: Result<string, AttrError>)
    ensures r.Success? ==> ',' !in r.value && '"' !in r.value
    ensures r.Success? && '\n' !in line ==> '\n' !in r.value
    ensures r.Failure? ==> r.error.attr == attr
  {
    match FindSubFrom(line, Key(attr), 0)
    case None => Failure(Missing(attr))
    case Some(start) =>
      FindFromSpec(line, '"', start + |attr| + 2);
      match FindFrom(line, '"', start + |attr| + 2)
      case None => Failure(Missing(attr))
      case Some(end) =>
        var v := line[start + |attr| + 2..end];
        assert forall k :: 0 <= k < |v| ==> v[k] == line[start + |attr| + 2 + k];
        if ',' in v then Failure(HasComma(attr)) else Success(v)
  }

  /** Where a value is, the searches of `findattr` stop at its two ends. */
  lemma {:induction false} ValueAtFound(line: string, attr: string, i: nat, v: string)
    requires ValueAt(line, attr, i, v)
    ensures FindSubFrom(line, Key(attr), 0) == Some(i)
    ensures FindFrom(line, '"', i + |attr| + 2) == Some(i + |attr| + 2 + |v|)
    ensures line[i + |attr| + 2..i + |attr| + 2 + |v|] == v
  {
    var b := i + |attr| + 2;
    FindSubAt(line, Key(attr), i);
    assert line[b..b + |v| + 1] == v + "\"";
    assert line[b + |v|] == '"';
    assert forall k :: 0 <= k < |v| ==> line[b + k] == v[k];
    forall k | b <= k < b + |v|
      ensures line[k] != '"'
    {
      assert line[k] == v[k - b];
    }
    FindFromAt(line, '"', b, b + |v|);
    assert line[b..b + |v|] == v;
  }

  /** What the searches of `findattr` find is a value in the sense of `ValueAt`. */
  lemma {:induction false} FoundValueAt(line: string, attr: string)
    requires FindAttr(line, attr) != Failure(Missing(attr))
    ensures exists i, v :: ValueAt(line, attr, i, v)
  {
    var f := FindSubFrom(line, Key(attr), 0);
    assert f.Some?;
    var e := FindFrom(line, '"', f.value + |attr| + 2);
    assert e.Some?;
    SearchedValueAt(line, attr, f.value, e.value);
  }

  lemma {:induction false} SearchedValueAt(line: string, attr: string, s: nat, e: nat)
    requires FindSubFrom(line, Key(attr), 0) == Some(s)
    requires FindFrom(line, '"', s + |attr| + 2) == Some(e)
    ensures ValueAt(line, attr, s, line[s + |attr| + 2..e])
  {
    var b := s + |attr| + 2;
    var v := line[b..e];
    FindSubFromSpec(line, Key(attr), 0);
    FindFromSpec(line, '"', b);
    assert line[b..e + 1] == v + "\"";
    assert forall k :: 0 <= k < |v| ==> v[k] == line[b + k];
  }

  /** `findattr` in full: it returns the value when there is one without a
      comma, raises for a comma when the value has one, and raises for a
      missing attribute otherwise. */
  lemma {:induction false} FindAttrSpec(line: string, attr: string)
    ensures forall i, v :: ValueAt(line, attr, i, v) ==>
      FindAttr(line, attr) == (if ',' in v then Failure(HasComma(attr)) else Success(v))
    ensures (forall i, v :: !ValueAt(line, attr, i, v)) ==> FindAttr(line, attr) == Failure(Missing(attr))
  {
    forall i, v | ValueAt(line, attr, i, v)
      ensures FindAttr(line, attr) == (if ',' in v then Failure(HasComma(attr)) else Success(v))
    {
      ValueAtFound(line, attr, i, v);
    }
    if FindAttr(line, attr) != Failure(Missing(attr)) {
      FoundValueAt(line, attr);
    }
  }

  /** The list comprehension over the attributes: every value in order, or the
      first attribute's error. */
  function FindAll(line: string, attrs: seq<string>): (r: Result<seq<string>, AttrError>)
    ensures r.Success? ==> |r.value| == |attrs|
    ensures r.Success? ==> forall k :: 0 <= k < |attrs| ==> FindAttr(line, attrs[k]) == Success(r.value[k])
  {
    FindAllFrom(line, attrs, 0)
  }

  /** The comprehension from attribute `i` on. */
  function FindAllFrom(line: string, attrs: seq<string>, i: nat): (r: Result<seq<string>, AttrError>)
    requires i <= |attrs|
    ensures r.Success? ==> |r.value| == |attrs| - i
    ensures r.Success? ==> forall k :: i <= k < |attrs| ==> FindAttr(line, attrs[k]) == Success(r.value[k - i])
    decreases |attrs| - i
  {
    if i == |attrs| then Success([])
    else
      match FindAttr(line, attrs[i])
      case Failure(e) => Failure(e)
      case Success(v) =>
        match FindAllFrom(line, attrs, i + 1)
        case Failure(e) => Failure(e)
        case Success(vs) => Success([v] + vs)
  }

  /** The comprehension fails with the error of the first attribute that
      is not found. */
  lemma {:induction false} FindAllError(line: string, attrs: seq<string>)
    ensures var r := FindAll(line, attrs);
      r.Failure? ==> exists k :: (0 <= k < |attrs| && FindAttr(line, attrs[k]) == Failure(r.error)
        && forall j :: 0 <= j < k ==> FindAttr(line, attrs[j]).Success?)
  {
    var r := FindAll(line, attrs);
    if r.Failure? {
      var k := FindAllFromError(line, attrs, 0);
    }
  }

  /** The attribute whose error the comprehension from `i` on fails with:
      every attribute from `i` up to it is found. */
  lemma {:induction false} FindAllFromError(line: string, attrs: seq<string>, i: nat) returns (k: nat)
    requires i <= |attrs| && FindAllFrom(line, attrs, i).Failure?
    ensures i <= k < |attrs| && FindAttr(line, attrs[k]) == Failure(FindAllFrom(line, attrs, i).error)
    ensures forall j :: i <= j < k ==> FindAttr(line, attrs[j]).Success?
    decreases |attrs| - i
  {
    if FindAttr(line, attrs[i]).Failure? {
      k := i;
    } else {
      k := FindAllFromError(line, attrs, i + 1);
    }
  }

  /** A whole row as the specification of one line would have it: one
      comma-free value per column, each found where `ValueAt` says. */
  ghost predicate Describes(line: string, vs: seq<string>) {
    |vs| == |Columns| && forall j :: 0 <= j < |Columns| ==>
      ',' !in vs[j] && exists i :: ValueAt(line, Columns[j], i, vs[j])
  }

  /** The characters Python's `str.strip` removes. */
  predicate PySpace(ch: char) {
    ('\t' <= ch <= '\r') || ('\U{1C}' <= ch <= ' ') || ch == '\U{85}' || ch == '\U{A0}'
    || ch == '\U{1680}' || ('\U{2000}' <= ch <= '\U{200A}') || ch == '\U{2028}' || ch == '\U{2029}'
    || ch == '\U{202F}' || ch == '\U{205F}' || ch == '\U{3000}'
  }

  function TrimStart(s: string): (r: string)
    ensures |r| <= |s| && r == s[|s| - |r|..]
    ensures r != [] ==> !PySpace(r[0])
    ensures forall k :: 0 <= k < |s| - |r| ==> PySpace(s[k])
  {
    if s != [] && PySpace(s[0]) then TrimStart(s[1..]) else s
  }

  function TrimEnd(s: string): (r: string)
    ensures |r| <= |s| && r == s[..|r|]
    ensures r != [] ==> !PySpace(r[|r| - 1])
    ensures forall k :: |r| <= k < |s| ==> PySpace(s[k])
  {
    if s != [] && PySpace(s[|s| - 1]) then TrimEnd(s[..|s| - 1]) else s
  }

  /** `str.strip()`: `s` less its leading and trailing white space. */
  function PyStrip(s: string): (r: string)
    ensures r != [] ==> !PySpace(r[0]) && !PySpace(r[|r| - 1])
    ensures '\n' !in s ==> '\n' !in r
  {
    TrimEnd(TrimStart(s))
  }

  /** `strip` removes the line break `readlines` leaves on a line, so the
      model may hand the lines over without it. */
  lemma {:induction false} StripLineBreak(line: string)
    ensures PyStrip(line + "\n") == PyStrip(line)
  {
    TrimStartAppend(line, "\n");
    if TrimStart(line) == [] {
      assert TrimStart("\n") == [];
    } else {
      TrimEndBreak(TrimStart(line));
    }
  }

  lemma {:induction false} TrimEndBreak(t: string)
    ensures TrimEnd(t + "\n") == TrimEnd(t)
  {
    assert (t + "\n")[..|t|] == t;
  }

  lemma {:induction false} TrimStartAppend(a: string, b: string)
    ensures TrimStart(a + b) == if TrimStart(a) == [] then TrimStart(b) else TrimStart(a) + b
    decreases |a|
  {
    if a == [] {
      assert a + b == b;
    } else if PySpace(a[0]) {
      assert (a + b)[1..] == a[1..] + b;
      TrimStartAppend(a[1..], b);
    }
  }

  /** The lines of `readlines`, without their line breaks: a final line break
      ends the last line rather than starting an empty one. */
  function PyLines(text: string): (r: seq<string>)
    ensures forall k :: 0 <= k < |r| ==> '\n' !in r[k]
    decreases |text|
  {
    if text == [] then []
    else
      FindSpec(text, '\n');
      match Find(text, '\n')
      case None => [text]
      case Some(i) => [text[..i]] + PyLines(text[i + 1..])
  }

  /** Lines each ended by a line break are read back as they were, empty ones
      included. */
  lemma {:induction false} PyLinesOfTerminated(lines: seq<string>)
    requires forall k :: 0 <= k < |lines| ==> '\n' !in lines[k]
    ensures PyLines(Terminated(lines)) == lines
    decreases |lines|
  {
    if lines != [] {
      var d := Terminated(lines);
      var rest := Terminated(lines[1..]);
      assert d == lines[0] + "\n" + rest;
      FindAfter(d, lines[0], '\n', rest);
      PyLinesOfTerminated(lines[1..]);
    }
  }

  /** A line as the loop sees it: stripped, with what the attributes read
      from it came to. */
  datatype LineResult = LineResult(line: string, parsed: Result<seq<string>, AttrError>)

  /** Read values are one comma-free piece of the line per column. */
  predicate Sound(p: LineResult) {
    p.parsed.Success? ==> (|p.parsed.value| == ColumnCount &&
      forall j :: 0 <= j < ColumnCount ==>
        (',' !in p.parsed.value[j] && ('\n' !in p.line ==> '\n' !in p.parsed.value[j])))
  }

  /** One iteration's reading: strip the line, then look up every column. */
  function ParseLine(raw: string): (r: LineResult)
  {
    LineResult(PyStrip(raw), FindAll(PyStrip(raw), Columns))
  }

  /** A line's reading is sound, and a line without a break stays without
      one once stripped. */
  lemma {:induction false} ParseLineSound(raw: string)
    ensures Sound(ParseLine(raw))
    ensures '\n' !in raw ==> '\n' !in ParseLine(raw).line
  {
    var s := PyStrip(raw);
    var f := FindAll(s, Columns);
    if f.Success? {
      forall j | 0 <= j < ColumnCount
        ensures ',' !in f.value[j] && ('\n' !in s ==> '\n' !in f.value[j])
      {
        assert FindAttr(s, Columns[j]) == Success(f.value[j]);
      }
    }
  }

  /** The reading of every line, in order. */
  function ParseLines(lines: seq<string>): (r: seq<LineResult>)
    ensures |r| == |lines|
    decreases |lines|
  {
    if lines == [] then [] else [ParseLine(lines[0])] + ParseLines(lines[1..])
  }

  lemma {:induction false} ParseLinesAt(lines: seq<string>, k: nat)
    requires k < |lines|
    ensures ParseLines(lines)[k] == ParseLine(lines[k])
    decreases k
  {
    if k > 0 {
      ParseLinesAt(lines[1..], k - 1);
    }
  }

  lemma {:induction false} ParseLinesAppend(a: seq<string>, b: seq<string>)
    ensures ParseLines(a + b) == ParseLines(a) + ParseLines(b)
    decreases |a|
  {
    if a == [] {
      assert a + b == b;
    } else {
      assert (a + b)[0] == a[0] && (a + b)[1..] == a[1..] + b;
      ParseLinesAppend(a[1..], b);
    }
  }

  /** The rows written and the errors printed for the lines read. */
  datatype Conversion = Conversion(rows: seq<seq<string>>, errors: seq<(string, AttrError)>)

  /** The rows and errors of read lines, in the order of the lines. */
  function Collect(ps: seq<LineResult>): (r: Conversion)
    ensures |r.rows| + |r.errors| == |ps|
    decreases |ps|
  {
    if ps == [] then Conversion([], [])
    else
      var rest := Collect(ps[1..]);
      match ps[0].parsed
      case Success(vs) =>
        Conversion([vs] + rest.rows, rest.errors)
      case Failure(e) => Conversion(rest.rows, [(ps[0].line, e)] + rest.errors)
  }

  /** Rows of one value per column, none of them holding a comma. */
  predicate CommaFreeRows(rows: seq<seq<string>>) {
    forall k :: 0 <= k < |rows| ==>
      |rows[k]| == ColumnCount && forall j :: 0 <= j < |rows[k]| ==> ',' !in rows[k][j]
  }

  /** Rows none of whose values holds a line break. */
  predicate BreakFreeRows(rows: seq<seq<string>>) {
    forall k, j :: 0 <= k < |rows| && 0 <= j < |rows[k]| ==> '\n' !in rows[k][j]
  }

  /** The rows collected from sound readings are five comma-free values each. */
  lemma {:induction false} CollectRows(ps: seq<LineResult>)
    requires forall k :: 0 <= k < |ps| ==> Sound(ps[k])
    ensures CommaFreeRows(Collect(ps).rows)
    decreases |ps|
  {
    if ps != [] {
      var rest := Collect(ps[1..]).rows;
      CollectRows(ps[1..]);
      match ps[0].parsed
      case Success(vs) =>
        assert Sound(ps[0]);
        assert Collect(ps).rows == [vs] + rest;
      case Failure(_) =>
    }
  }

  /** Read from lines without line breaks, the rows hold none either. */
  lemma {:induction false} CollectNoBreaks(ps: seq<LineResult>)
    requires forall k :: 0 <= k < |ps| ==> Sound(ps[k]) && '\n' !in ps[k].line
    ensures BreakFreeRows(Collect(ps).rows)
    decreases |ps|
  {
    if ps != [] {
      var rest := Collect(ps[1..]).rows;
      CollectNoBreaks(ps[1..]);
      match ps[0].parsed
      case Success(vs) =>
        assert Sound(ps[0]);
        assert Collect(ps).rows == [vs] + rest;
      case Failure(_) =>
    }
  }

  lemma {:induction false} CollectAppend(a: seq<LineResult>, b: seq<LineResult>)
    ensures Collect(a + b) == Conversion(Collect(a).rows + Collect(b).rows, Collect(a).errors + Collect(b).errors)
    decreases |a|
  {
    if a == [] {
      assert a + b == b;
    } else {
      assert (a + b)[0] == a[0] && (a + b)[1..] == a[1..] + b;
      CollectAppend(a[1..], b);
      var ra, rb := Collect(a[1..]), Collect(b);
      match a[0].parsed
      case Success(vs) =>
        assert Collect(a + b) == Conversion([vs] + (ra.rows + rb.rows), ra.errors + rb.errors);
        assert [vs] + (ra.rows + rb.rows) == [vs] + ra.rows + rb.rows;
      case Failure(e) =>
        var err := (a[0].line, e);
        assert Collect(a + b) == Conversion(ra.rows + rb.rows, [err] + (ra.errors + rb.errors));
        assert [err] + (ra.errors + rb.errors) == [err] + ra.errors + rb.errors;
    }
  }

  /** The loop over the lines: a stripped line whose five attributes are all
      found becomes a row; any other line is reported with its error. */
  function Process(lines: seq<string>): (r: Conversion)
    ensures |r.rows| + |r.errors| == |lines|
  {
    Collect(ParseLines(lines))
  }

  /** Every row written has five values, none of them holding a comma. */
  lemma {:induction false} ProcessRows(lines: seq<string>)
    ensures CommaFreeRows(Process(lines).rows)
  {
    var ps := ParseLines(lines);
    forall k | 0 <= k < |ps|
      ensures Sound(ps[k])
    {
      ParseLinesAt(lines, k);
      ParseLineSound(lines[k]);
    }
    CollectRows(ps);
  }

  /** Lines without line breaks give rows without line breaks. */
  lemma {:induction false} ProcessNoBreaks(lines: seq<string>)
    requires forall k :: 0 <= k < |lines| ==> '\n' !in lines[k]
    ensures BreakFreeRows(Process(lines).rows)
  {
    var ps := ParseLines(lines);
    forall k | 0 <= k < |ps|
      ensures Sound(ps[k]) && '\n' !in ps[k].line
    {
      ParseLinesAt(lines, k);
      ParseLineSound(lines[k]);
    }
    CollectNoBreaks(ps);
  }

  /** Lines are handled one at a time, independently of one another. */
  lemma {:induction false} ProcessAppend(a: seq<string>, b: seq<string>)
    ensures Process(a + b) == Conversion(Process(a).rows + Process(b).rows, Process(a).errors + Process(b).errors)
  {
    ParseLinesAppend(a, b);
    CollectAppend(ParseLines(a), ParseLines(b));
  }

  /** One line gives the row `vs` exactly when `vs` describes the stripped
      line, and gives no row exactly when nothing does. */
  lemma {:induction false} ProcessOne(line: string, vs: seq<string>)
    ensures Process([line]).rows == [vs] <==> Describes(PyStrip(line), vs)
    ensures Process([line]).rows == [] <==> forall ws :: !Describes(PyStrip(line), ws)
  {
    var s := PyStrip(line);
    var f := FindAll(s, Columns);
    assert Process([line]).rows == (if f.Success? then [f.value] else []) by {
      ParseLinesAt([line], 0);
      assert ParseLines([line]) == [LineResult(s, f)];
      assert [LineResult(s, f)][1..] == [];
    }
    forall ws | Describes(s, ws)
      ensures f == Success(ws)
    {
      DescribesFound(s, ws);
    }
    if f.Success? {
      DescribedRow(s, f.value);
    }
  }

  /** A described row is what `FindAll` reads. */
  lemma {:induction false} DescribesFound(s: string, vs: seq<string>)
    requires Describes(s, vs)
    ensures FindAll(s, Columns) == Success(vs)
  {
    forall j | 0 <= j < |Columns|
      ensures FindAttr(s, Columns[j]) == Success(vs[j])
    {
      var i :| ValueAt(s, Columns[j], i, vs[j]);
      FindAttrSpec(s, Columns[j]);
    }
    FindAllAll(s, Columns, vs);
  }

  /** `FindAll` succeeds with the values when every lookup does. */
  lemma {:induction false} FindAllAll(s: string, attrs: seq<string>, vs: seq<string>)
    requires |vs| == |attrs| && forall j :: 0 <= j < |attrs| ==> FindAttr(s, attrs[j]) == Success(vs[j])
    ensures FindAll(s, attrs) == Success(vs)
  {
    FindAllFromAll(s, attrs, vs, 0);
  }

  lemma {:induction false} FindAllFromAll(s: string, attrs: seq<string>, vs: seq<string>, i: nat)
    requires i <= |attrs| == |vs| && forall j :: 0 <= j < |attrs| ==> FindAttr(s, attrs[j]) == Success(vs[j])
    ensures FindAllFrom(s, attrs, i) == Success(vs[i..])
    decreases |attrs| - i
  {
    if i < |attrs| {
      FindAllFromAll(s, attrs, vs, i + 1);
      assert vs[i..] == [vs[i]] + vs[i + 1..];
    }
  }

  lemma {:induction false} DescribesUnique(s: string, vs: seq<string>, ws: seq<string>)
    requires Describes(s, vs) && Describes(s, ws)
    ensures vs == ws
  {
    DescribesFound(s, vs);
    DescribesFound(s, ws);
  }

  /** The values `FindAll` returns for the columns describe the line. */
  lemma {:induction false} DescribedRow(s: string, vs: seq<string>)
    requires FindAll(s, Columns) == Success(vs)
    ensures Describes(s, vs)
  {
    forall j | 0 <= j < |Columns|
      ensures ',' !in vs[j] && exists i :: ValueAt(s, Columns[j], i, vs[j])
    {
      ValueOfSuccess(s, Columns[j], vs[j]);
    }
  }

  lemma {:induction false} ValueOfSuccess(s: string, attr: string, v: string)
    requires FindAttr(s, attr) == Success(v)
    ensures ',' !in v && exists i :: ValueAt(s, attr, i, v)
  {
    FoundValueAt(s, attr);
    var i, w :| ValueAt(s, attr, i, w);
    FindAttrSpec(s, attr);
  }

  /** The lines written after the header, one per row. */
  function RowLines(rows: seq<seq<string>>): (r: seq<string>)
    ensures |r| == |rows| && forall k :: 0 <= k < |r| ==> r[k] == Join(',', rows[k])
  {
    seq(|rows|, k requires 0 <= k < |rows| => Join(',', rows[k]))
  }

  /** The converted file and the errors printed along the way. The file is
      a manifest `load_sprite` reads back: the header, then one line per
      row whose five cells are the row's values. */
  function Convert(text: string): (r: (string, seq<(string, AttrError)>))
    ensures StartsWith(r.0, CsvHeader + "\n")
    ensures var c := Process(PyLines(text));
      var fed := Fed(Lines(r.0), true);
      |fed| == |c.rows| && forall k :: 0 <= k < |fed| ==> Cells(fed[k], ColumnCount) == c.rows[k]
  {
    var c := Process(PyLines(text));
    ProcessRows(PyLines(text));
    ProcessNoBreaks(PyLines(text));
    ManifestOfRows(c.rows);
    (Terminated([CsvHeader] + RowLines(c.rows)), c.errors)
  }

  /** Rows of five clean values, written under the header, read back. */
  lemma {:induction false} ManifestOfRows(rows: seq<seq<string>>)
    requires CommaFreeRows(rows) && BreakFreeRows(rows)
    ensures var fed := Fed(Lines(Terminated([CsvHeader] + RowLines(rows))), true);
      |fed| == |rows| && forall k :: 0 <= k < |fed| ==> Cells(fed[k], ColumnCount) == rows[k]
  {
    var lines := RowLines(rows);
    assert Lines(Terminated([CsvHeader] + lines)) == [CsvHeader] + lines by {
      forall k | 0 <= k < |lines|
        ensures lines[k] != [] && '\n' !in lines[k]
      {
        RowLineShape(rows[k]);
      }
      assert CsvHeader != [] && '\n' !in CsvHeader;
      LinesOfTerminated([CsvHeader] + lines);
    }
    assert ([CsvHeader] + lines)[1..] == lines;
    forall k | 0 <= k < |lines|
      ensures Cells(lines[k], ColumnCount) == rows[k]
    {
      CellsOfJoin(rows[k]);
    }
  }

  lemma {:induction false} RowLineShape(vs: seq<string>)
    requires |vs| >= 2 && forall j :: 0 <= j < |vs| ==> '\n' !in vs[j]
    ensures Join(',', vs) != [] && '\n' !in Join(',', vs)
  {
    assert Join(',', vs) == vs[0] + [','] + Join(',', vs[1..]);
    JoinFreeAny(',', vs, '\n');
  }

  /** What happens on a run. */
  datatype Outcome =
    | Usage
    | Crashed
    | Converted(csv: string, errors: seq<(string, AttrError)>)

  predicate IsHelp(arg: string) {
    arg == "--help" || arg == "-H" || arg == "help"
  }

  /** The script as written: usage is printed only when there is no argument
      or the first asks for help, so a lone input name reaches `argv[2]`.
      `input` is the input file's text (`None` when it cannot be opened) and
      `outputOpens` whether the output file can be opened for writing. */
  function RunAsWritten(argv: seq<string>, input: Option<string>, outputOpens: bool): (r: Outcome)
    ensures r == Usage <==> |argv| < 2 || IsHelp(argv[1])
    ensures r == Crashed <==> (|argv| >= 2 && !IsHelp(argv[1])
      && (|argv| < 3 || input.None? || !outputOpens))
  {
    if |argv| < 2 || IsHelp(argv[1]) then Usage
    else if |argv| < 3 then Crashed
    else if input.None? || !outputOpens then Crashed
    else var c := Convert(input.value); Converted(c.0, c.1)
  }

  /** With the input named but no output, the script fails instead of
      printing its usage. */
  lemma {:induction false} LoneInputCrashes(input: Option<string>, outputOpens: bool)
    ensures RunAsWritten(["spritesheet_xml2csv.py", "sheet.xml"], input, outputOpens) == Crashed
  {
  }

  /** The script as its usage text describes it: both file names are needed. */
  function Run(argv: seq<string>, input: Option<string>, outputOpens: bool): (r: Outcome)
    ensures r == Usage <==> |argv| < 3 || IsHelp(argv[1])
    ensures r == Crashed <==> |argv| >= 3 && !IsHelp(argv[1]) && (input.None? || !outputOpens)
    ensures r.Converted? ==> input.Some? && (r.csv, r.errors) == Convert(input.value)
  {
    if |argv| < 3 || IsHelp(argv[1]) then Usage
    else if input.None? || !outputOpens then Crashed
    else var c := Convert(input.value); Converted(c.0, c.1)
  }

  /** The corrected script and the script as written agree whenever both
      file names are given. */
  lemma {:induction false} RunAgrees(argv: seq<string>, input: Option<string>, outputOpens: bool)
    requires |argv| >= 3
    ensures Run(argv, input, outputOpens) == RunAsWritten(argv, input, outputOpens)
  {
  }
}
