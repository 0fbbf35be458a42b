/** The shader-source preprocessor (`ShaderSource::include` and
    `ShaderSource::preprocess`) and the vertex-attribute file reader
    (`ShaderManager::readVertexFile`) of src/graphics/shader.h. The file
    system is a map from file name to contents; a name that is not in the
    map is a file that cannot be opened. Compilation and linking are GPU
    work and are not modelled. */
module ShaderSources {
  import opened Wrappers
  import opened Text
  import opened Definitions

  /** File name to file contents, relative to the shader directory. */
  type Files = map<string, string>

  /** The text as a file whose last line is ended: unchanged when it is
      empty or already ends in a line break, otherwise with one added. */
  function Ended(s: string): string {
    if s == [] || s[|s| - 1] == '\n' then s else s + "\n"
  }

  /** `readTextFile` of src/definitions.h into lines, a `getline` loop: no
      lines for a file that cannot be opened or is empty; otherwise every
      piece between line breaks, where a final line break ends the last
      line instead of starting an empty one. Writing the lines back, each
      followed by a break, gives the file with its last line ended. */
  function ReadLines(files: Files, name: string): (r: seq<string>)
    ensures r == [] <==> name !in files || files[name] == []
    ensures name in files ==> Terminated(r) == Ended(files[name])
    ensures forall k :: 0 <= k < |r| ==> '\n' !in r[k]
  {
    if name !in files || files[name] == [] then []
    else
      var s := files[name];
      var body := if s[|s| - 1] == '\n' then s[..|s| - 1] else s;
      assert body + "\n" == Ended(s);
      var r := Segments(body, '\n');
      JoinSegments(body, '\n');
      SegmentsFree(body, '\n');
      TerminatedJoin(r);
      assert forall k :: 0 <= k < |r| ==> r[k] in r;
      r
  }

  /** The preprocessor's state: the files included so far, in the order
      they were first met, and the first `#version` and `#vertex` lines
      seen ("" while none has been). */
  datatype Preproc = Preproc(included: seq<string>, version: string, vertexDef: string)

  const Fresh := Preproc([], "", "")

  predicate Distinct(s: seq<string>) {
    forall a, b :: 0 <= a < b < |s| ==> s[a] != s[b]
  }

  /** The readable files not yet included: the preprocessor's termination
      measure, since a file is recorded before its lines are processed. */
  function Pending(files: Files, included: seq<string>): set<string> {
    files.Keys - set f | f in included
  }

  lemma {:induction false} RecordShrinks(files: Files, included: seq<string>, f: string)
    ensures |Pending(files, included + [f])| <= |Pending(files, included)|
    ensures f in files && f !in included ==> |Pending(files, included + [f])| < |Pending(files, included)|
  {
    var p := Pending(files, included);
    assert Pending(files, included + [f]) == p - {f};
    if f in p {
      assert |p - {f}| == |p| - 1;
    } else {
      assert p - {f} == p;
    }
  }

  lemma {:induction false} DistinctSnoc(s: seq<string>, f: string)
    requires f !in s
    ensures Distinct(s) ==> Distinct(s + [f])
  {
  }

  /** What every step keeps: the included list only grows at its end, and
      a `#version` or `#vertex` line once recorded never changes. */
  predicate Grows(st: Preproc, r: Preproc) {
    && st.included <= r.included
    && (st.version != "" ==> r.version == st.version)
    && (st.vertexDef != "" ==> r.vertexDef == st.vertexDef)
  }

  /** `include`: a file already included contributes nothing; otherwise it
      is recorded first, then its lines are processed. */
  function Include(files: Files, st: Preproc, fname: string): (r: (Preproc, string))
    ensures Grows(st, r.0) && fname in r.0.included
    ensures Distinct(st.included) ==> Distinct(r.0.included)
    ensures |Pending(files, r.0.included)| <= |Pending(files, st.included)|
    ensures fname in st.included ==> r == (st, "")
    ensures fname !in st.included ==> |st.included| < |r.0.included| && r.0.included[|st.included|] == fname
    decreases |Pending(files, st.included)|, 0, 0
  {
    if fname in st.included then (st, "")
    else
      var st1 := Record(files, st, fname);
      var lines := ReadLines(files, fname);
      // a file that cannot be opened has no lines to process
      if lines == [] then (st1, "")
      else
        var r := IncludeLines(files, st1, lines, 0);
        assert r.0.included[|st.included|] == st1.included[|st.included|];
        r
  }

  /** `includedList.push_back(fname)`. */
  function Record(files: Files, st: Preproc, fname: string): (r: Preproc)
    requires fname !in st.included
    ensures r.included == st.included + [fname] && Grows(st, r)
    ensures Distinct(st.included) ==> Distinct(r.included)
    ensures |Pending(files, r.included)| <= |Pending(files, st.included)|
    ensures fname in files ==> |Pending(files, r.included)| < |Pending(files, st.included)|
  {
    RecordShrinks(files, st.included, fname);
    DistinctSnoc(st.included, fname);
    st.(included := st.included + [fname])
  }

  /** The loop of `include` from line `i` on: a line starting with '#' is
      replaced by what `preprocess` makes of it, any other line is kept,
      and each is followed by a line break. */
  function IncludeLines(files: Files, st: Preproc, lines: seq<string>, i: nat): (r: (Preproc, string))
    requires i <= |lines|
    ensures Grows(st, r.0)
    ensures Distinct(st.included) ==> Distinct(r.0.included)
    ensures |Pending(files, r.0.included)| <= |Pending(files, st.included)|
    decreases |Pending(files, st.included)|, 2, |lines| - i
  {
    if i == |lines| then (st, "")
    else
      var line := lines[i];
      var step := if IsDirective(line) then Preprocess(files, st, line) else (st, line);
      var rest := IncludeLines(files, step.0, lines, i + 1);
      (rest.0, step.1 + "\n" + rest.1)
  }

  /** A line `include` hands to `preprocess`. An empty line has no '#' in
      front: its first character is the terminating NUL. */
  predicate IsDirective(line: string) {
    |line| > 0 && line[0] == '#'
  }

  /** `preprocess` of one '#' line: `#include` splices the file named
      between the first two quotes after the directive, or nothing when a
      quote is missing; `#vertex` is remembered the first time and always
      dropped; the first `#version` is kept and later ones dropped; any
      other directive is dropped. */
  function Preprocess(files: Files, st: Preproc, line: string): (r: (Preproc, string))
    ensures Grows(st, r.0)
    ensures Distinct(st.included) ==> Distinct(r.0.included)
    ensures |Pending(files, r.0.included)| <= |Pending(files, st.included)|
    ensures !StartsWith(line, "#include") ==> r.0.included == st.included
    ensures StartsWith(line, "#include") ==> r.0.version == st.version || st.version == ""
    ensures !StartsWith(line, "#include") && StartsWith(line, "#vertex") ==>
      r.1 == "" && r.0.version == st.version
      && r.0.vertexDef == (if st.vertexDef == "" then line else st.vertexDef)
    ensures !StartsWith(line, "#include") && !StartsWith(line, "#vertex") && StartsWith(line, "#version") ==>
      r.0.vertexDef == st.vertexDef
      && (st.version == "" ==> r.1 == line && r.0.version == line)
      && (st.version != "" ==> r.1 == "" && r.0.version == st.version)
    ensures !StartsWith(line, "#include") && !StartsWith(line, "#vertex") && !StartsWith(line, "#version") ==>
      r == (st, "")
    decreases |Pending(files, st.included)|, 1, 0
  {
    if StartsWith(line, "#include") then
      match FindFrom(line, '"', 8)
      case None => (st, "")
      case Some(q1) =>
        match FindFrom(line, '"', q1 + 1)
        case None => (st, "")
        case Some(q2) => Include(files, st, line[q1 + 1..q2])
    else if StartsWith(line, "#vertex") then
      (if st.vertexDef != "" then st else st.(vertexDef := line), "")
    else if StartsWith(line, "#version") then
      if st.version != "" then (st, "") else (st.(version := line), line)
    else (st, "")
  }

  /** `load`: the processed text of `fname` from a fresh state, and the
      first `#vertex` line met. */
  function Load(files: Files, fname: string): (r: (string, string))
  {
    var (st, source) := Include(files, Fresh, fname);
    (source, st.vertexDef)
  }

  /** The files of a `load`, in the order they were first included: the
      named file first, and none twice. */
  lemma {:induction false} LoadIncludesOnce(files: Files, fname: string)
    ensures var st := Include(files, Fresh, fname).0;
      |st.included| >= 1 && st.included[0] == fname && Distinct(st.included)
  {
  }

  /** Including a file a second time adds nothing and changes nothing. */
  lemma {:induction false} IncludeTwice(files: Files, st: Preproc, fname: string)
    ensures var r1 := Include(files, st, fname);
      Include(files, r1.0, fname) == (r1.0, "")
  {
  }

  /** A second `#version` line is dropped, whatever its text, and the first
      one stays recorded. */
  lemma {:induction false} SecondVersionDropped(files: Files, st: Preproc, v1: string, v2: string)
    requires StartsWith(v1, "#version") && StartsWith(v2, "#version")
    ensures var r1 := Preprocess(files, st, v1);
      var r2 := Preprocess(files, r1.0, v2);
      r2.1 == "" && r2.0.version == r1.0.version && r1.0.version != ""
  {
    assert !StartsWith(v1, "#include") by { assert v1[..8][2] != "#include"[2]; }
    assert !StartsWith(v1, "#vertex") by { assert v1[..7][4] != "#vertex"[4]; }
    assert !StartsWith(v2, "#include") by { assert v2[..8][2] != "#include"[2]; }
    assert !StartsWith(v2, "#vertex") by { assert v2[..7][4] != "#vertex"[4]; }
  }

  /** Lines without directives are copied verbatim, each followed by a
      line break, and the state is left alone. */
  lemma {:induction false} PlainLinesCopied(files: Files, st: Preproc, lines: seq<string>, i: nat)
    requires i <= |lines|
    requires forall k :: i <= k < |lines| ==> !IsDirective(lines[k])
    ensures IncludeLines(files, st, lines, i) == (st, Terminated(lines[i..]))
    decreases |lines| - i
  {
    if i < |lines| {
      PlainLinesCopied(files, st, lines, i + 1);
      assert lines[i..][1..] == lines[i + 1..];
    }
  }

  /** A readable file without directives loads to its own text, its last
      line ended by a break: a final break is not doubled and an empty
      file stays empty. */
  lemma {:induction false} PlainFileLoads(files: Files, fname: string)
    requires fname in files
    requires forall k :: 0 <= k < |ReadLines(files, fname)| ==> !IsDirective(ReadLines(files, fname)[k])
    ensures Load(files, fname).0 == Ended(files[fname])
  {
    var lines := ReadLines(files, fname);
    if lines != [] {
      var st1 := Record(files, Fresh, fname);
      PlainLinesCopied(files, st1, lines, 0);
      assert lines[0..] == lines;
    }
  }

  /** A file that includes itself: the inner `#include` finds the file
      already recorded, so the result is one empty line. */
  lemma {:induction false} SelfIncludeEnds()
    ensures Load(map["a" := SelfInclude], "a").0 == "\n"
  {
    var files := map["a" := SelfInclude];
    var st1 := Preproc(["a"], "", "");
    assert Include(files, Fresh, "a") == (st1, "\n") by {
      assert ReadLines(files, "a") == [SelfInclude] by {
        assert Find(SelfInclude, '\n') == None;
      }
      assert Record(files, Fresh, "a") == st1;
      SelfIncludeLine(files, st1);
    }
  }

  const SelfInclude := "#include \"a\""

  /** The directive of the self-including file names a recorded file, so
      it adds nothing. */
  lemma {:induction false} SelfIncludeSkipped(files: Files, st: Preproc)
    requires "a" in st.included
    ensures Preprocess(files, st, SelfInclude) == (st, "")
  {
    var line := SelfInclude;
    assert line[..8] == "#include";
    assert line[8] == ' ' && line[9] == '"' && line[10] == 'a' && line[11] == '"';
    FindFromAt(line, '"', 8, 9);
    FindFromAt(line, '"', 10, 11);
    assert line[10..11] == "a";
    assert Include(files, st, "a") == (st, "");
  }

  /** The line of the self-including file, once the file is recorded. */
  lemma {:induction false} SelfIncludeLine(files: Files, st: Preproc)
    requires "a" in st.included
    ensures IncludeLines(files, st, [SelfInclude], 0) == (st, "\n")
  {
    var line := SelfInclude;
    SelfIncludeSkipped(files, st);
    assert IsDirective(line) && [line][0] == line;
    assert IncludeLines(files, st, [line], 1) == (st, "");
    assert "" + "\n" + "" == "\n";
  }

  /** One entry of a vertex layout; only the name and the binding position
      are filled in, the rest keeps the placeholder values. */
  datatype Attr = Attr(name: string, bindPos: int, count: int, glType: int, normalized: bool, stride: int)

  /** Vertex name to attribute list. */
  type VertexTypes = map<string, seq<Attr>>

  function Get(types: VertexTypes, name: string): seq<Attr> {
    if name in types then types[name] else []
  }

  /** What one line of the vertex file is, after stripping: blank, a
      VERTEX line with its name, an ATTRIBUTE line with its name, a line
      that is neither, or a VERTEX line without exactly two tokens or an
      ATTRIBUTE line without exactly three, which makes `readVertexFile`
      throw. A line starting with VERTEX is never read as ATTRIBUTE. */
  datatype LineKind = Blank | Vertex(name: string) | Attribute(name: string) | Ignored | Malformed(text: string)

  function Classify(line: string): (k: LineKind)
    ensures k.Vertex? ==> k.name != ""
  {
    var l := Strip(line);
    if l == [] then Blank
    else if StartsWith(l, "VERTEX") then
      var tokens := Split(l, ' ');
      if |tokens| != 2 then Malformed(l)
      else
        SplitLastNotEmpty(l);
        Vertex(tokens[1])
    else if StartsWith(l, "ATTRIBUTE") then
      var tokens := Split(l, ' ');
      if |tokens| != 3 then Malformed(l) else Attribute(tokens[1])
    else Ignored
  }

  /** No VERTEX line names the empty vertex. */
  predicate WellNamed(kinds: seq<LineKind>) {
    forall j :: 0 <= j < |kinds| && kinds[j].Vertex? ==> kinds[j].name != ""
  }

  function Kinds(lines: seq<string>): (r: seq<LineKind>)
    ensures |r| == |lines| && WellNamed(r)
  {
    if lines == [] then [] else [Classify(lines[0])] + Kinds(lines[1..])
  }

  lemma {:induction false} KindsAt(lines: seq<string>, j: nat)
    requires j < |lines|
    ensures Kinds(lines)[j] == Classify(lines[j])
  {
    if j > 0 {
      KindsAt(lines[1..], j - 1);
    }
  }

  /** The names of the ATTRIBUTE lines from `i` on, in order. */
  function AttrNames(kinds: seq<LineKind>, i: nat): seq<string>
    requires i <= |kinds|
    decreases |kinds| - i
  {
    if i == |kinds| then []
    else (if kinds[i].Attribute? then [kinds[i].name] else []) + AttrNames(kinds, i + 1)
  }

  function Names(attrs: seq<Attr>): (r: seq<string>)
    ensures |r| == |attrs|
  {
    if attrs == [] then [] else [attrs[0].name] + Names(attrs[1..])
  }

  /** The shape `readVertexFile` leaves: every list but the one under ""
      is empty, and the attributes under "" are numbered from -1 up. */
  predicate Shaped(types: VertexTypes) {
    && (forall v :: v in types && v != "" ==> types[v] == [])
    && (forall j :: 0 <= j < |Get(types, "")| ==> Get(types, "")[j].bindPos == j - 1)
  }

  lemma {:induction false} ShapedVertex(types: VertexTypes, name: string)
    requires name != ""
    ensures Shaped(types) ==> Shaped(types[name := []])
  {
    assert Get(types[name := []], "") == Get(types, "");
  }

  lemma {:induction false} ShapedAttribute(types: VertexTypes, a: Attr)
    requires a.bindPos == |Get(types, "")| - 1
    ensures Shaped(types) ==> Shaped(types["" := Get(types, "") + [a]])
  {
  }

  /** The loop of `readVertexFile` from line `i` on. `currentVertexName` is
      declared inside the loop, so it is "" on every ATTRIBUTE line and
      every attribute lands in the list under "", while a VERTEX line only
      (re)creates an empty list under its name. The binding position is
      the list's size minus one, taken before the push. */
  function VertexLines(kinds: seq<LineKind>, i: nat, types: VertexTypes): (r: Result<VertexTypes, string>)
    requires i <= |kinds| && WellNamed(kinds)
    ensures r.Failure? <==> AnyMalformed(kinds, i)
    decreases |kinds| - i
  {
    if i == |kinds| then Success(types)
    else
      AnyMalformedStep(kinds, i);
      match kinds[i]
      case Malformed(l) => Failure("error parsing attribute file: '" + l + "'")
      case Vertex(name) => VertexLines(kinds, i + 1, types[name := []])
      case Attribute(name) =>
        var list := Get(types, "");
        VertexLines(kinds, i + 1, types["" := list + [Attr(name, |list| - 1, 1, 0, false, 0)]])
      case _ => VertexLines(kinds, i + 1, types)
  }

  /** A successful pass of the loop keeps a shaped table shaped. */
  lemma {:induction false} VertexLinesShaped(kinds: seq<LineKind>, i: nat, types: VertexTypes)
    requires i <= |kinds| && WellNamed(kinds) && Shaped(types)
    ensures var r := VertexLines(kinds, i, types); r.Success? ==> Shaped(r.value)
    decreases |kinds| - i
  {
    if i < |kinds| {
      match kinds[i]
      case Malformed(l) =>
      case Vertex(name) =>
        assert kinds[i].name != "";
        ShapedVertex(types, name);
        VertexLinesShaped(kinds, i + 1, types[name := []]);
      case Attribute(name) =>
        var list := Get(types, "");
        var a := Attr(name, |list| - 1, 1, 0, false, 0);
        ShapedAttribute(types, a);
        VertexLinesShaped(kinds, i + 1, types["" := list + [a]]);
      case _ =>
        VertexLinesShaped(kinds, i + 1, types);
    }
  }

  /** A successful pass of the loop grows the list under "" by the
      ATTRIBUTE names in order. */
  lemma {:induction false} VertexLinesNames(kinds: seq<LineKind>, i: nat, types: VertexTypes)
    requires i <= |kinds| && WellNamed(kinds)
    ensures var r := VertexLines(kinds, i, types);
      r.Success? ==> Names(Get(r.value, "")) == Names(Get(types, "")) + AttrNames(kinds, i)
    decreases |kinds| - i
  {
    if i < |kinds| {
      match kinds[i]
      case Malformed(l) =>
      case Vertex(name) =>
        assert kinds[i].name != "";
        assert Get(types[name := []], "") == Get(types, "");
        VertexLinesNames(kinds, i + 1, types[name := []]);
      case Attribute(name) =>
        var list := Get(types, "");
        var a := Attr(name, |list| - 1, 1, 0, false, 0);
        NamesSnoc(list, a);
        VertexLinesNames(kinds, i + 1, types["" := list + [a]]);
      case _ =>
        VertexLinesNames(kinds, i + 1, types);
    }
  }

  /** Some line from `i` on is malformed. */
  predicate AnyMalformed(kinds: seq<LineKind>, i: nat) {
    exists j :: i <= j < |kinds| && kinds[j].Malformed?
  }

  lemma {:induction false} AnyMalformedStep(kinds: seq<LineKind>, i: nat)
    requires i < |kinds|
    ensures AnyMalformed(kinds, i) <==> kinds[i].Malformed? || AnyMalformed(kinds, i + 1)
  {
    if AnyMalformed(kinds, i) && !kinds[i].Malformed? {
      var j :| i <= j < |kinds| && kinds[j].Malformed?;
      assert i + 1 <= j;
    }
  }

  lemma {:induction false} NamesSnoc(a: seq<Attr>, x: Attr)
    ensures Names(a + [x]) == Names(a) + [x.name]
  {
    if a != [] {
      assert (a + [x])[1..] == a[1..] + [x];
      NamesSnoc(a[1..], x);
    }
  }

  /** Text that does not end in a space splits into tokens the last of
      which is not empty; a stripped VERTEX line therefore names a
      non-empty vertex. */
  lemma {:induction false} SplitLastNotEmpty(s: string)
    requires s != [] && s[|s| - 1] != ' '
    ensures Split(s, ' ')[|Split(s, ' ')| - 1] != ""
    decreases |s|
  {
    match Find(s, ' ')
    case None =>
    case Some(i) =>
      var rest := s[i + 1..];
      assert rest != [] && rest[|rest| - 1] == s[|s| - 1];
      SplitLastNotEmpty(rest);
  }

  /** `readVertexFile`: a file that gives no lines, because it cannot be
      opened or is empty, is an error; otherwise its lines are read into an
      empty table. */
  function ReadVertexFile(files: Files, attrfile: string): (r: Result<VertexTypes, string>)
    ensures r.Failure? <==>
      (attrfile !in files || files[attrfile] == [] ||
       exists j :: 0 <= j < |ReadLines(files, attrfile)| && Classify(ReadLines(files, attrfile)[j]).Malformed?)
    ensures attrfile !in files || files[attrfile] == [] ==> r == Failure("error reading attribute file")
    ensures r.Success? ==> Shaped(r.value) && Names(Get(r.value, "")) == AttrNames(Kinds(ReadLines(files, attrfile)), 0)
  {
    var lines := ReadLines(files, attrfile);
    if lines == [] then Failure("error reading attribute file")
    else
      var kinds := Kinds(lines);
      var r := VertexLines(kinds, 0, map[]);
      VertexLinesShaped(kinds, 0, map[]);
      VertexLinesNames(kinds, 0, map[]);
      assert AnyMalformed(kinds, 0) <==> exists j :: 0 <= j < |lines| && Classify(lines[j]).Malformed? by {
        forall j | 0 <= j < |lines| { KindsAt(lines, j); }
      }
      r
  }
}
