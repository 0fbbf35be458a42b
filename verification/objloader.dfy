/** The Wavefront OBJ reader `MeshLoader` of mesh.h, the `addSkybox` builder
    next to it and the subset `Mesh::create` and `loadObj` record. Numbers are
    read by their integer part (see README). */
module ObjLoading {
  import opened Wrappers
  import opened Text
  import opened Numbers
  import opened QuadBatch
  import opened MeshBuilding

  datatype Int3 = Int3(x: int, y: int, z: int)
  datatype Int2 = Int2(x: int, y: int)

  lemma {:induction false} CountAppend(a: string, b: string, c: char)
    ensures CountChar(a + b, c) == CountChar(a, c) + CountChar(b, c)
    decreases |b|
  {
    if b != [] {
      assert (a + b)[..|a + b| - 1] == a + b[..|b| - 1];
      CountAppend(a, b[..|b| - 1], c);
    } else {
      assert a + b == a;
    }
  }

  /** Counting from the first `c` on. */
  lemma {:induction false} CountFirst(s: string, c: char, i: nat)
    requires i < |s| && s[i] == c && c !in s[..i]
    ensures CountChar(s, c) == 1 + CountChar(s[i + 1..], c)
    ensures CountChar(s[..i + 1], c) == 1
  {
    assert s == s[..i] + [c] + s[i + 1..];
    assert s[..i + 1] == s[..i] + [c];
    CountAppend(s[..i] + [c], s[i + 1..], c);
    CountAppend(s[..i], [c], c);
    assert [c][..0] == [];
  }

  /** Where the first `n` spaces of `s` are, or `None` when it has fewer. */
  function Spaces(s: string, n: nat): (r: Option<seq<nat>>)
    ensures r.None? <==> CountChar(s, ' ') < n
    ensures r.Some? ==> |r.value| == n
    ensures r.Some? ==> forall k :: 0 <= k < n ==>
      r.value[k] < |s| && s[r.value[k]] == ' ' && CountChar(s[..r.value[k]], ' ') == k
    decreases n
  {
    if n == 0 then Some([])
    else
      FindSpec(s, ' ');
      match Find(s, ' ')
      case None => None
      case Some(i) =>
        CountFirst(s, ' ', i);
        match Spaces(s[i + 1..], n - 1)
        case None => None
        case Some(rest) =>
          var r := [i] + seq(|rest|, k requires 0 <= k < |rest| => rest[k] + i + 1);
          SpacesShift(s, i, rest);
          Some(r)
  }

  lemma {:induction false} SpacesShift(s: string, i: nat, rest: seq<nat>)
    requires i < |s| && s[i] == ' ' && ' ' !in s[..i]
    requires forall k :: 0 <= k < |rest| ==>
      rest[k] < |s[i + 1..]| && s[i + 1..][rest[k]] == ' ' && CountChar(s[i + 1..][..rest[k]], ' ') == k
    ensures var r := [i] + seq(|rest|, k requires 0 <= k < |rest| => rest[k] + i + 1);
      forall k :: 0 <= k < |r| ==> r[k] < |s| && s[r[k]] == ' ' && CountChar(s[..r[k]], ' ') == k
  {
    var r := [i] + seq(|rest|, k requires 0 <= k < |rest| => rest[k] + i + 1);
    assert CountChar(s[..i], ' ') == 0;
    forall k | 1 <= k < |r| ensures r[k] < |s| && s[r[k]] == ' ' && CountChar(s[..r[k]], ' ') == k {
      var p := rest[k - 1];
      assert s[..r[k]] == s[..i + 1] + s[i + 1..][..p];
      CountAppend(s[..i + 1], s[i + 1..][..p], ' ');
      CountFirst(s, ' ', i);
    }
  }

  /** `parseFloat2`: the numbers after the first and second space, or
      failure when the line has fewer than two spaces. */
  function ParseFloat2(line: string): (r: Option<Int2>)
    ensures r.None? <==> CountChar(line, ' ') < 2
  {
    match Spaces(line, 2)
    case None => None
    case Some(p) => Some(Int2(NumberAt(line, p[0] + 1), NumberAt(line, p[1] + 1)))
  }

  /** `parseFloat3`: the same with three numbers and three spaces. */
  function ParseFloat3(line: string): (r: Option<Int3>)
    ensures r.None? <==> CountChar(line, ' ') < 3
  {
    match Spaces(line, 3)
    case None => None
    case Some(p) => Some(Int3(NumberAt(line, p[0] + 1), NumberAt(line, p[1] + 1), NumberAt(line, p[2] + 1)))
  }

  /** The triangles of a fan over `t0` and the corners `rim`:
      (t0, rim[i], rim[i+1]) for each neighbouring pair of the rim. */
  function Fan(t0: string, rim: seq<string>): (r: seq<string>)
    ensures |rim| >= 1 ==> |r| == 3 * (|rim| - 1)
    ensures |rim| <= 1 ==> r == []
  {
    if |rim| < 2 then []
    else Fan(t0, rim[..|rim| - 1]) + [t0, rim[|rim| - 2], rim[|rim| - 1]]
  }

  /** Triangle `i` of the fan is (t0, rim[i], rim[i+1]). */
  lemma {:induction false} FanTriangle(t0: string, rim: seq<string>, i: nat)
    requires i + 1 < |rim|
    ensures Fan(t0, rim)[3 * i..3 * i + 3] == [t0, rim[i], rim[i + 1]]
  {
    var init := rim[..|rim| - 1];
    if i + 1 < |init| {
      FanTriangle(t0, init, i);
      assert Fan(t0, rim)[..|Fan(t0, init)|] == Fan(t0, init);
    }
  }

  lemma {:induction false} FanSnoc(t0: string, rim: seq<string>, x: string)
    requires |rim| >= 1
    ensures Fan(t0, rim + [x]) == Fan(t0, rim) + [t0, rim[|rim| - 1], x]
  {
    assert (rim + [x])[..|rim|] == rim;
  }

  /** One pass of the `readFace` loop adds the next triangle of the fan. */
  lemma {:induction false} FaceStep(segs: seq<string>, c: nat, verts: seq<string>, t0: string, mid: string, last: string)
    requires 1 <= c && c + 1 < |segs| && t0 == segs[0] && mid == segs[c] && last == segs[c + 1]
    requires verts == Fan(t0, segs[1..][..c])
    ensures verts + [t0, mid, last] == Fan(t0, segs[1..][..c + 1])
  {
    assert segs[1..][..c + 1] == segs[1..][..c] + [last];
    FanSnoc(t0, segs[1..][..c], last);
  }

  lemma {:induction false} ShiftSuffix(segs: seq<string>, c: nat, x: string, rest: seq<string>)
    requires c <= |segs| && segs[c..] == [x] + rest
    ensures c < |segs| && segs[c] == x && segs[c + 1..] == rest
  {
    assert segs[c..][0] == x;
    assert segs[c + 1..] == segs[c..][1..];
  }

  /** From a space after vertex string `c` with no further space, the rest
      of the line is the last vertex string. */
  lemma {:induction false} WalkLast(line: string, segs: seq<string>, c: nat, en: nat)
    requires c + 1 <= |segs| && en < |line| && line[en] == ' '
    requires Segments(line[en + 1..], ' ') == segs[c + 1..]
    requires FindFrom(line, ' ', en + 1).None?
    ensures c + 2 == |segs| && line[en + 1..] == segs[c + 1]
  {
    FindFromSpec(line, ' ', en + 1);
    SegmentsLast(line, en + 1);
    ShiftSuffix(segs, c + 1, line[en + 1..], []);
  }

  /** From a space after vertex string `c`, the next space `e` ends vertex
      string `c + 1`. */
  lemma {:induction false} WalkNext(line: string, segs: seq<string>, c: nat, en: nat, e: nat)
    requires c + 1 <= |segs| && en < |line| && line[en] == ' '
    requires Segments(line[en + 1..], ' ') == segs[c + 1..]
    requires FindFrom(line, ' ', en + 1) == Some(e)
    ensures c + 2 < |segs| && line[en + 1..e] == segs[c + 1] && line[e] == ' '
    ensures Segments(line[e + 1..], ' ') == segs[c + 2..]
  {
    FindFromSpec(line, ' ', en + 1);
    SegmentsAt(line, en + 1, e);
    ShiftSuffix(segs, c + 1, line[en + 1..e], Segments(line[e + 1..], ' '));
  }

  /** One pass of the `readFace` loop: the triangle (t0, current, next)
      extends the fan, and the next vertex string ends at the following space
      or at the end of the line. */
  lemma {:induction false} FanAdvance(line: string, segs: seq<string>, c: nat, t0: string, verts: seq<string>,
                   s1: nat, e1: nat, en: nat)
    requires 1 <= c < |segs| && segs[0] == t0
    requires s1 <= e1 < |line| && line[s1..e1] == segs[c] && line[e1] == ' '
    requires verts == Fan(t0, segs[1..][..c])
    requires Segments(line[e1 + 1..], ' ') == segs[c + 1..]
    requires en == if FindFrom(line, ' ', e1 + 1).None? then |line| else FindFrom(line, ' ', e1 + 1).value
    ensures e1 + 1 <= en <= |line| && line[e1 + 1..en] == segs[c + 1]
    ensures verts + [t0, line[s1..e1], line[e1 + 1..en]] == Fan(t0, segs[1..][..c + 1])
    ensures FindFrom(line, ' ', e1 + 1).None? ==> c + 2 == |segs|
    ensures FindFrom(line, ' ', e1 + 1).Some? ==>
      en < |line| && line[en] == ' ' && Segments(line[en + 1..], ' ') == segs[c + 2..]
  {
    match FindFrom(line, ' ', e1 + 1)
    case None =>
      WalkLast(line, segs, c, e1);
      assert line[e1 + 1..en] == line[e1 + 1..];
      FaceStep(segs, c, verts, t0, line[s1..e1], line[e1 + 1..en]);
    case Some(e) =>
      WalkNext(line, segs, c, e1, e);
      FaceStep(segs, c, verts, t0, line[s1..e1], line[e1 + 1..en]);
  }

  /** A face line `readFace` can walk: a first space, and at least three
      space-separated vertex strings after it. */
  predicate FaceLine(line: string) {
    ' ' in line && |FaceStrings(line)| >= 3
  }

  lemma {:induction false} SegmentsAt(s: string, a: nat, e: nat)
    requires a <= e < |s| && s[e] == ' ' && forall k :: a <= k < e ==> s[k] != ' '
    ensures Segments(s[a..], ' ') == [s[a..e]] + Segments(s[e + 1..], ' ')
  {
    var t := s[a..];
    FindAt(t, ' ', e - a);
    SegmentsStep(t, ' ', e - a);
    assert t[..e - a] == s[a..e] && t[e - a + 1..] == s[e + 1..];
  }

  lemma {:induction false} SegmentsLast(s: string, a: nat)
    requires a <= |s| && forall k :: a <= k < |s| ==> s[k] != ' '
    ensures Segments(s[a..], ' ') == [s[a..]]
  {
    assert ' ' !in s[a..];
    FindNone(s[a..], ' ');
  }

  /** The segments after the first space of a face line. */
  function FaceStrings(line: string): seq<string>
    requires ' ' in line
  {
    FindSpec(line, ' ');
    Segments(line[Find(line, ' ').value + 1..], ' ')
  }

  /** When the text from `a` has two or more segments, the next space ends
      the first of them. */
  lemma {:induction false} SegmentsHead(line: string, a: nat) returns (e: nat)
    requires a <= |line| && |Segments(line[a..], ' ')| >= 2
    ensures FindFrom(line, ' ', a) == Some(e)
    ensures Segments(line[a..], ' ') == [line[a..e]] + Segments(line[e + 1..], ' ')
  {
    var f := FindFrom(line, ' ', a);
    FindFromSpec(line, ' ', a);
    if f.None? {
      SegmentsLast(line, a);
      assert false;
    }
    e := f.value;
    SegmentsAt(line, a, e);
  }

  /** The first three spaces `readFace` looks for exist on a face line, and
      the first two vertex strings lie between them. */
  lemma {:induction false} FaceOpening(line: string) returns (s0: nat, e0: nat, en: nat)
    requires FaceLine(line)
    ensures FindFrom(line, ' ', 0) == Some(s0 - 1) && FindFrom(line, ' ', s0) == Some(e0)
    ensures FindFrom(line, ' ', e0 + 1) == Some(en)
    ensures FaceStrings(line)[0] == line[s0..e0] && FaceStrings(line)[1] == line[e0 + 1..en]
    ensures Segments(line[en + 1..], ' ') == FaceStrings(line)[2..]
  {
    FindSpec(line, ' ');
    s0 := Find(line, ' ').value + 1;
    var segs := FaceStrings(line);
    e0 := SegmentsHead(line, s0);
    var rest := Segments(line[e0 + 1..], ' ');
    assert segs[1..] == rest;
    en := SegmentsHead(line, e0 + 1);
    assert segs[2..] == rest[1..];
  }

  /** `readFace`: the fan over the first vertex string of the face. */
  method ReadFace(line: string) returns (verts: seq<string>)
    requires FaceLine(line)
    ensures verts == Fan(FaceStrings(line)[0], FaceStrings(line)[1..])
  {
    ghost var g0, g1, g2 := FaceOpening(line);
    var ss := FindFrom(line, ' ', 0).value;
    var s0 := ss + 1;
    var e0 := FindFrom(line, ' ', s0).value;
    var sn := e0 + 1;
    var en := FindFrom(line, ' ', sn).value;
    assert g0 == s0 && g1 == e0 && g2 == en;
    verts := FanLoop(line, FaceStrings(line), s0, e0, en);
  }

  /** The loop of `readFace`, from the first two vertex strings on, for any
      list `segs` of vertex strings the line holds from `s0` on. */
  method FanLoop(line: string, ghost segs: seq<string>, s0: nat, e0: nat, en0: nat) returns (verts: seq<string>)
    requires |segs| >= 3 && s0 <= e0 < en0 < |line| && line[en0] == ' '
    requires segs[0] == line[s0..e0] && segs[1] == line[e0 + 1..en0]
    requires Segments(line[en0 + 1..], ' ') == segs[2..]
    ensures verts == Fan(segs[0], segs[1..])
  {
    assert segs[1..][..1] == [segs[1]];
    verts := FanFrom(line, segs, 1, line[s0..e0], [], e0 + 1, en0);
  }

  /** The `do ... while (!end)` loop of `readFace` from vertex string `c`
      on, which lies between `s1` and the space at `e1`: each pass adds a
      triangle, and the pass that finds no further space is the last. */
  method FanFrom(line: string, ghost segs: seq<string>, ghost c: nat, t0: string, verts: seq<string>, s1: nat, e1: nat)
    returns (r: seq<string>)
    requires 1 <= c < |segs| && segs[0] == t0
    requires s1 <= e1 < |line| && line[s1..e1] == segs[c] && line[e1] == ' '
    requires verts == Fan(t0, segs[1..][..c])
    requires Segments(line[e1 + 1..], ' ') == segs[c + 1..]
    ensures r == Fan(t0, segs[1..])
    decreases |segs| - c
  {
    var sn, en, end, next := FanStep(line, segs, c, t0, verts, s1, e1);
    if end {
      assert segs[1..][..c + 1] == segs[1..];
      return next;
    }
    r := FanFrom(line, segs, c + 1, t0, next, sn, en);
  }

  /** One pass of the `readFace` loop, from the vertex string `c` that
      lies between `s1` and the space at `e1`. */
  method FanStep(line: string, ghost segs: seq<string>, ghost c: nat, t0: string, verts: seq<string>, s1: nat, e1: nat)
    returns (sn: nat, en: nat, end: bool, next: seq<string>)
    requires 1 <= c < |segs| && segs[0] == t0
    requires s1 <= e1 < |line| && line[s1..e1] == segs[c] && line[e1] == ' '
    requires verts == Fan(t0, segs[1..][..c])
    requires Segments(line[e1 + 1..], ' ') == segs[c + 1..]
    ensures c + 1 < |segs| && 0 <= sn <= en <= |line| && line[sn..en] == segs[c + 1]
    ensures next == Fan(t0, segs[1..][..c + 1])
    ensures !end ==> en < |line| && line[en] == ' ' && Segments(line[en + 1..], ' ') == segs[c + 2..]
    ensures end ==> c + 1 == |segs| - 1
  {
    sn := e1 + 1;
    var found := FindFrom(line, ' ', sn);
    en := if found.None? then |line| else found.value;
    end := found.None?;
    FanAdvance(line, segs, c, t0, verts, s1, e1, en);
    next := verts + [t0, line[s1..e1], line[sn..en]];
  }

  /** The vertex strings of a face line, fan-triangulated. */
  function FaceCorners(line: string): seq<string>
    requires FaceLine(line)
  {
    Fan(FaceStrings(line)[0], FaceStrings(line)[1..])
  }

  /** The distinct strings of `strs`, in order of first appearance. */
  function Firsts(strs: seq<string>): (r: seq<string>)
    ensures forall v :: v in r <==> v in strs
  {
    if strs == [] then []
    else
      var f := Firsts(strs[..|strs| - 1]);
      var v := strs[|strs| - 1];
      assert forall w :: w in strs <==> w in strs[..|strs| - 1] || w == v;
      if v in f then f else f + [v]
  }

  /** No string is listed twice. */
  lemma {:induction false} FirstsDistinct(strs: seq<string>)
    ensures forall i, j :: 0 <= i < j < |Firsts(strs)| ==> Firsts(strs)[i] != Firsts(strs)[j]
    decreases |strs|
  {
    if strs != [] {
      FirstsDistinct(strs[..|strs| - 1]);
    }
  }

  /** Where `v` stands in a list of distinct strings. */
  function IndexIn(r: seq<string>, v: string): (i: nat)
    requires v in r
    ensures i < |r| && r[i] == v
    ensures forall k :: 0 <= k < i ==> r[k] != v
  {
    if r[0] == v then 0 else 1 + IndexIn(r[1..], v)
  }

  lemma {:induction false} IndexInSnoc(r: seq<string>, v: string, w: string)
    requires v in r
    ensures IndexIn(r + [w], v) == IndexIn(r, v)
  {
    var i := IndexIn(r, v);
    var j := IndexIn(r + [w], v);
    assert (r + [w])[i] == r[i];
    assert j < |r| ==> (r + [w])[j] == r[j];
  }

  /** The 0-based position, texcoord and normal numbers of a face-vertex
      string; a normal number of -1 means "no normal". */
  datatype Refs = Refs(pos: int, tex: int, norm: int)

  /** Where the texcoord number is read when the string is not p/t/n: two
      characters after the first '/', or (no '/' at all) from index 1. */
  function TexOffset(v: string): nat {
    match Find(v, '/')
    case None => 1
    case Some(sl1) => sl1 + 2
  }

  /** The "p/t/n" branch applies: a second '/' exists and does not directly
      follow the first. */
  predicate FullForm(v: string) {
    match Find(v, '/')
    case None => false
    case Some(sl1) => FindFrom(v, '/', sl1 + 1).Some? && FindFrom(v, '/', sl1 + 1).value != sl1 + 1
  }

  /** The character reads of the short form stay inside the string. */
  predicate CornerDefined(v: string) {
    FullForm(v) || TexOffset(v) <= |v|
  }

  /** The numbers a face-vertex string names, each minus one. */
  function CornerRefs(v: string): (r: Refs)
    requires CornerDefined(v)
    ensures r.pos == Atoi(v) - 1
    ensures !FullForm(v) ==> r.norm == -1
  {
    if FullForm(v) then
      var sl1 := Find(v, '/').value;
      var sl2 := FindFrom(v, '/', sl1 + 1).value;
      Refs(NumberAt(v, 0) - 1, NumberAt(v, sl1 + 1) - 1, NumberAt(v, sl2 + 1) - 1)
    else
      Refs(NumberAt(v, 0) - 1, NumberAt(v, TexOffset(v)) - 1, -1)
  }

  /** What the OBJ file declared before the faces are resolved. */
  datatype Scan = Scan(pos: seq<Int3>, norm: seq<Int3>, tex: seq<Int2>, corners: seq<string>)

  /** The character at `k`, or NUL at and past the end, as `std::string`
      indexing gives at `size()`. */
  function At(s: string, k: nat): char {
    if k < |s| then s[k] else 0 as char
  }

  predicate FacesWellFormed(lines: seq<string>) {
    forall k :: 0 <= k < |lines| && At(lines[k], 0) == 'f' ==> FaceLine(lines[k])
  }

  /** What one line contributes to the first pass: a parsed texcoord, normal
      or position (`None` when malformed), the triangulated vertex strings of
      a face, or nothing. */
  datatype LineKind =
    | TexLine(tex: Option<Int2>)
    | NormalLine(norm: Option<Int3>)
    | PositionLine(pos: Option<Int3>)
    | FaceLineOf(corners: seq<string>)
    | OtherLine

  /** The line is classified by its first two characters: "vt", "vn", "v "
      and "f"; anything else is skipped. */
  function ParseLine(line: string): LineKind
    requires At(line, 0) == 'f' ==> FaceLine(line)
  {
    if At(line, 0) == 'v' && At(line, 1) == 't' then TexLine(ParseFloat2(line))
    else if At(line, 0) == 'v' && At(line, 1) == 'n' then NormalLine(ParseFloat3(line))
    else if At(line, 0) == 'v' && At(line, 1) == ' ' then PositionLine(ParseFloat3(line))
    else if At(line, 0) == 'f' then FaceLineOf(FaceCorners(line))
    else OtherLine
  }

  /** Adding one line's contribution; a malformed vertex line fails. */
  function Apply(s: Scan, k: LineKind): Option<Scan> {
    match k
    case TexLine(t) => if t.None? then None else Some(s.(tex := s.tex + [t.value]))
    case NormalLine(n) => if n.None? then None else Some(s.(norm := s.norm + [n.value]))
    case PositionLine(p) => if p.None? then None else Some(s.(pos := s.pos + [p.value]))
    case FaceLineOf(c) => Some(s.(corners := s.corners + c))
    case OtherLine => Some(s)
  }

  function ParseLines(lines: seq<string>): (r: seq<LineKind>)
    requires FacesWellFormed(lines)
    ensures |r| == |lines|
  {
    seq(|lines|, k requires 0 <= k < |lines| => ParseLine(lines[k]))
  }

  /** The first pass over the first `n` lines; `None` once one fails. */
  function ScanUpTo(ks: seq<LineKind>, n: nat): Option<Scan>
    requires n <= |ks|
  {
    if n == 0 then Some(Scan([], [], [], []))
    else
      match ScanUpTo(ks, n - 1)
      case None => None
      case Some(s) => Apply(s, ks[n - 1])
  }

  function ScanLines(lines: seq<string>): Option<Scan>
    requires FacesWellFormed(lines)
  {
    ScanUpTo(ParseLines(lines), |lines|)
  }

  /** A malformed vertex line ends the load whatever follows it. */
  lemma {:induction false} ScanFailureSticks(ks: seq<LineKind>, i: nat, n: nat)
    requires i <= n <= |ks|
    requires ScanUpTo(ks, i).None?
    ensures ScanUpTo(ks, n).None?
    decreases n
  {
    if i < n {
      ScanFailureSticks(ks, i, n - 1);
    }
  }

  /** The vertex string can be read and names declared data, which the
      source does not check. */
  predicate CornerResolves(s: Scan, v: string) {
    && CornerDefined(v)
    && 0 <= CornerRefs(v).pos < |s.pos| && 0 <= CornerRefs(v).tex < |s.tex|
    && (CornerRefs(v).norm == -1 || 0 <= CornerRefs(v).norm < |s.norm|)
  }

  predicate Resolvable(s: Scan) {
    forall j :: 0 <= j < |s.corners| ==> CornerResolves(s, s.corners[j])
  }

  /** The position, normal (zero when there is none) and texcoord of a vertex string. */
  function Resolve(s: Scan, v: string): (Int3, Int3, Int2)
    requires CornerResolves(s, v)
  {
    var r := CornerRefs(v);
    (s.pos[r.pos], if r.norm == -1 then Int3(0, 0, 0) else s.norm[r.norm], s.tex[r.tex])
  }

  datatype Loader = Loader(isLoaded: bool, vertices: seq<Int3>, normals: seq<Int3>,
                           texcoords: seq<Int2>, indices: seq<int>)

  predicate CanLoad(lines: seq<string>) {
    FacesWellFormed(lines) && (ScanLines(lines).Some? ==> Resolvable(ScanLines(lines).value))
  }

  /** The loader's arrays once the file is fully read: each vertex string
      is numbered with its place among the distinct strings, and each
      distinct string has its resolved vertex. */
  ghost predicate Built(s: Scan, m: Loader) {
    var f := Firsts(s.corners);
    IndicesNumbered(s.corners, |s.corners|, f, m.indices) && ArraysResolved(s, f, m)
  }

  lemma {:induction false} FirstsSnoc(strs: seq<string>, v: string)
    ensures Firsts(strs + [v]) == if v in Firsts(strs) then Firsts(strs) else Firsts(strs) + [v]
  {
    assert (strs + [v])[..|strs|] == strs;
  }

  /** A new string is numbered after all earlier ones, which keep their numbers. */
  lemma {:induction false} IndexInNew(r: seq<string>, v: string)
    requires v !in r
    ensures IndexIn(r + [v], v) == |r|
    ensures forall w :: w in r ==> IndexIn(r + [v], w) == IndexIn(r, w)
  {
    forall w | w in r ensures IndexIn(r + [v], w) == IndexIn(r, w) {
      IndexInSnoc(r, w, v);
    }
  }

  /** One iteration of the first pass of the `MeshLoader` constructor. */
  method ScanStep(scan: Scan, line: string) returns (next: Option<Scan>)
    requires At(line, 0) == 'f' ==> FaceLine(line)
    ensures next == Apply(scan, ParseLine(line))
  {
    if At(line, 0) == 'v' && At(line, 1) == 't' {
      var f := ParseFloat2(line);
      next := if f.None? then None else Some(scan.(tex := scan.tex + [f.value]));
    } else if At(line, 0) == 'v' && At(line, 1) == 'n' {
      var f := ParseFloat3(line);
      next := if f.None? then None else Some(scan.(norm := scan.norm + [f.value]));
    } else if At(line, 0) == 'v' && At(line, 1) == ' ' {
      var f := ParseFloat3(line);
      next := if f.None? then None else Some(scan.(pos := scan.pos + [f.value]));
    } else if At(line, 0) == 'f' {
      var verts := ReadFace(line);
      next := Some(scan.(corners := scan.corners + verts));
    } else {
      next := Some(scan);
    }
  }

  /** The first pass of the `MeshLoader` constructor: `None` when it returns
      early on a malformed vertex line. */
  method ScanFile(lines: seq<string>) returns (r: Option<Scan>)
    requires FacesWellFormed(lines)
    ensures r == ScanLines(lines)
  {
    var scan := Scan([], [], [], []);
    ghost var ks := ParseLines(lines);
    var i := 0;
    while i < |lines|
      invariant 0 <= i <= |lines|
      invariant ScanUpTo(ks, i) == Some(scan)
    {
      var next := ScanStep(scan, lines[i]);
      ScanNext(lines, ks, i, scan);
      if next.None? {
        ScanFailureSticks(ks, i + 1, |lines|);
        return None;
      }
      scan := next.value;
      i := i + 1;
    }
    r := Some(scan);
  }

  /** The pass over one more line adds that line's contribution. */
  lemma {:induction false} ScanNext(lines: seq<string>, ks: seq<LineKind>, i: nat, scan: Scan)
    requires FacesWellFormed(lines) && ks == ParseLines(lines) && i < |lines|
    requires ScanUpTo(ks, i) == Some(scan)
    ensures ScanUpTo(ks, i + 1) == Apply(scan, ParseLine(lines[i]))
  {
  }

  /** The state of the second pass: the map from vertex strings to their
      numbers, and the arrays built so far. */
  datatype Pass = Pass(seen: map<string, int>, m: Loader)

  /** One vertex string of the second pass: a string seen before repeats its
      number; a new one is numbered with the map's size, truncated to 16 bits,
      and appends its resolved position, normal and texcoord. */
  function DedupStep(s: Scan, p: Pass, v: string): Pass
    requires CornerResolves(s, v)
  {
    if v in p.seen then Pass(p.seen, p.m.(indices := p.m.indices + [p.seen[v]]))
    else
      var i := U16(|p.m.vertices|);
      var (pos, norm, tex) := Resolve(s, v);
      Pass(p.seen[v := i], Loader(true, p.m.vertices + [pos], p.m.normals + [norm],
                                  p.m.texcoords + [tex], p.m.indices + [i]))
  }

  /** The second pass over the first `k` vertex strings. */
  function DedupUpTo(s: Scan, k: nat): Pass
    requires Resolvable(s) && k <= |s.corners|
  {
    if k == 0 then Pass(map[], Loader(true, [], [], [], []))
    else DedupStep(s, DedupUpTo(s, k - 1), s.corners[k - 1])
  }

  /** The map numbers exactly the strings of `firsts`, each with its place. */
  ghost predicate SeenNumbered(firsts: seq<string>, seen: map<string, int>) {
    && (forall w :: w in seen <==> w in firsts)
    && (forall w :: w in seen ==> seen[w] == U16(IndexIn(firsts, w)))
  }

  /** The first `k` indices are the places of the first `k` strings in `firsts`. */
  ghost predicate IndicesNumbered(corners: seq<string>, k: nat, firsts: seq<string>, indices: seq<int>)
    requires k <= |corners|
  {
    && |indices| == k
    && (forall j :: 0 <= j < k ==> corners[j] in firsts && indices[j] == U16(IndexIn(firsts, corners[j])))
  }

  /** The arrays hold one resolved vertex per string of `firsts`. */
  ghost predicate ArraysResolved(s: Scan, firsts: seq<string>, m: Loader) {
    && |m.vertices| == |firsts| && |m.normals| == |firsts| && |m.texcoords| == |firsts|
    && (forall j :: 0 <= j < |firsts| ==>
          CornerResolves(s, firsts[j]) && (m.vertices[j], m.normals[j], m.texcoords[j]) == Resolve(s, firsts[j]))
  }

  /** What the second pass keeps true after the first `k` strings, with
      `firsts` the distinct strings among them. */
  ghost predicate Numbered(s: Scan, k: nat, firsts: seq<string>, p: Pass)
    requires k <= |s.corners|
  {
    SeenNumbered(firsts, p.seen) && IndicesNumbered(s.corners, k, firsts, p.m.indices) && ArraysResolved(s, firsts, p.m)
  }

  /** One more string keeps the second pass numbered, with that string
      added to `firsts` when it is new. */
  lemma {:induction false} NumberedStep(s: Scan, k: nat, firsts: seq<string>, p: Pass)
    requires k < |s.corners| && CornerResolves(s, s.corners[k]) && Numbered(s, k, firsts, p)
    ensures var v := s.corners[k];
      Numbered(s, k + 1, if v in firsts then firsts else firsts + [v], DedupStep(s, p, v))
  {
    if s.corners[k] in firsts {
      NumberedRepeat(s, k, firsts, p);
    } else {
      NumberedNew(s, k, firsts, p);
    }
  }

  /** The distinct strings of one more string. */
  lemma {:induction false} FirstsStep(strs: seq<string>, k: nat)
    requires k < |strs|
    ensures var f := Firsts(strs[..k]);
      Firsts(strs[..k + 1]) == if strs[k] in f then f else f + [strs[k]]
  {
    assert strs[..k + 1] == strs[..k] + [strs[k]];
    FirstsSnoc(strs[..k], strs[k]);
  }

  /** A repeated string reuses its number and adds no vertex. */
  lemma {:induction false} NumberedRepeat(s: Scan, k: nat, firsts: seq<string>, p: Pass)
    requires k < |s.corners| && CornerResolves(s, s.corners[k]) && s.corners[k] in firsts
    requires Numbered(s, k, firsts, p)
    ensures Numbered(s, k + 1, firsts, DedupStep(s, p, s.corners[k]))
  {
    var v := s.corners[k];
    var q := DedupStep(s, p, v);
    assert q.m.indices == p.m.indices + [U16(IndexIn(firsts, v))];
    assert forall j :: 0 <= j < k ==> q.m.indices[j] == p.m.indices[j];
  }

  /** A new string is numbered with the count of distinct strings before it. */
  lemma {:induction false} NumberedNew(s: Scan, k: nat, firsts: seq<string>, p: Pass)
    requires k < |s.corners| && CornerResolves(s, s.corners[k]) && s.corners[k] !in firsts
    requires Numbered(s, k, firsts, p)
    ensures Numbered(s, k + 1, firsts + [s.corners[k]], DedupStep(s, p, s.corners[k]))
  {
    var v := s.corners[k];
    var q := DedupStep(s, p, v);
    assert q.seen == p.seen[v := U16(|firsts|)];
    assert q.m.indices == p.m.indices + [U16(|firsts|)];
    SeenNew(firsts, v, p.seen);
    IndicesNew(s.corners, k, firsts, p.m.indices);
    ArraysNew(s, firsts, v, p.m, q.m);
  }

  lemma {:induction false} SeenNew(firsts: seq<string>, v: string, seen: map<string, int>)
    requires v !in firsts && SeenNumbered(firsts, seen)
    ensures SeenNumbered(firsts + [v], seen[v := U16(|firsts|)])
  {
    IndexInNew(firsts, v);
    var f := firsts + [v];
    var q := seen[v := U16(|firsts|)];
    assert forall w :: w in q <==> w in f;
  }

  lemma {:induction false} IndicesNew(corners: seq<string>, k: nat, firsts: seq<string>, indices: seq<int>)
    requires k < |corners| && corners[k] !in firsts && IndicesNumbered(corners, k, firsts, indices)
    ensures IndicesNumbered(corners, k + 1, firsts + [corners[k]], indices + [U16(|firsts|)])
  {
    var f := firsts + [corners[k]];
    IndexInNew(firsts, corners[k]);
    assert forall j :: 0 <= j < k + 1 ==> corners[j] in f;
  }

  lemma {:induction false} ArraysNew(s: Scan, firsts: seq<string>, v: string, m: Loader, n: Loader)
    requires CornerResolves(s, v) && ArraysResolved(s, firsts, m)
    requires n.vertices == m.vertices + [Resolve(s, v).0]
    requires n.normals == m.normals + [Resolve(s, v).1]
    requires n.texcoords == m.texcoords + [Resolve(s, v).2]
    ensures ArraysResolved(s, firsts + [v], n)
  {
    var f := firsts + [v];
    assert forall j :: 0 <= j < |firsts| ==> f[j] == firsts[j];
  }

  /** After the whole second pass the arrays are those `Built` describes. */
  lemma {:induction false} DedupNumbered(s: Scan, k: nat)
    requires Resolvable(s) && k <= |s.corners|
    ensures Numbered(s, k, Firsts(s.corners[..k]), DedupUpTo(s, k))
  {
    if k == 0 {
      assert s.corners[..0] == [];
    } else {
      DedupNumbered(s, k - 1);
      FirstsStep(s.corners, k - 1);
      NumberedStep(s, k - 1, Firsts(s.corners[..k - 1]), DedupUpTo(s, k - 1));
    }
  }

  lemma {:induction false} DedupBuilt(s: Scan)
    requires Resolvable(s)
    ensures Built(s, DedupUpTo(s, |s.corners|).m)
  {
    DedupAll(s);
  }

  lemma {:induction false} DedupAll(s: Scan)
    requires Resolvable(s)
    ensures Numbered(s, |s.corners|, Firsts(s.corners), DedupUpTo(s, |s.corners|))
  {
    assert s.corners[..|s.corners|] == s.corners;
    DedupNumbered(s, |s.corners|);
  }

  /** The second pass leaves the loader marked loaded. */
  lemma {:induction false} DedupLoaded(s: Scan, k: nat)
    requires Resolvable(s) && k <= |s.corners|
    ensures DedupUpTo(s, k).m.isLoaded
  {
    if k > 0 {
      DedupLoaded(s, k - 1);
    }
  }

  /** The second pass of the `MeshLoader` constructor. */
  method Dedup(s: Scan) returns (m: Loader)
    requires Resolvable(s)
    ensures m == DedupUpTo(s, |s.corners|).m
  {
    var p := Pass(map[], Loader(true, [], [], [], []));
    var k := 0;
    while k < |s.corners|
      invariant 0 <= k <= |s.corners| && p == DedupUpTo(s, k)
    {
      p := DedupVertex(s, p, s.corners[k]);
      k := k + 1;
    }
    m := p.m;
  }

  /** One iteration of the second pass. */
  method DedupVertex(s: Scan, p: Pass, v: string) returns (q: Pass)
    requires CornerResolves(s, v)
    ensures q == DedupStep(s, p, v)
  {
    var seen, indices := p.seen, p.m.indices;
    if v in seen {
      indices := indices + [seen[v]];
      return Pass(seen, p.m.(indices := indices));
    }
    // the map's size, which is the number of vertices built so far
    var i := U16(|p.m.vertices|);
    indices := indices + [i];
    seen := seen[v := i];
    var r := CornerRefs(v);
    var vertices := p.m.vertices + [s.pos[r.pos]];
    var normals := p.m.normals + [if r.norm == -1 then Int3(0, 0, 0) else s.norm[r.norm]];
    var texcoords := p.m.texcoords + [s.tex[r.tex]];
    q := Pass(seen, Loader(true, vertices, normals, texcoords, indices));
  }

  /** The `MeshLoader` constructor on the lines of the file. */
  method Load(lines: seq<string>) returns (m: Loader)
    requires CanLoad(lines)
    ensures m.isLoaded <==> ScanLines(lines).Some?
    ensures !m.isLoaded ==> m.vertices == [] && m.normals == [] && m.texcoords == [] && m.indices == []
    ensures m.isLoaded ==> Built(ScanLines(lines).value, m)
    ensures m.isLoaded && |Firsts(ScanLines(lines).value.corners)| <= U16Range ==>
      forall k :: 0 <= k < |m.indices| ==> 0 <= m.indices[k] < |m.vertices|
  {
    var scan := ScanFile(lines);
    if scan.None? {
      return Loader(false, [], [], [], []);
    }
    m := Dedup(scan.value);
    DedupBuilt(scan.value);
    DedupLoaded(scan.value, |scan.value.corners|);
    BuiltInRange(scan.value, m);
  }

  /** While there are at most 65536 distinct vertex strings, every index
      names a vertex of the arrays. */
  lemma {:induction false} BuiltInRange(s: Scan, m: Loader)
    requires Built(s, m)
    ensures |Firsts(s.corners)| <= U16Range ==> forall k :: 0 <= k < |m.indices| ==> 0 <= m.indices[k] < |m.vertices|
  {
  }

  /** The distinct strings of a prefix come first among those of the whole. */
  lemma {:induction false} FirstsPrefix(strs: seq<string>, k: nat)
    requires k <= |strs|
    ensures Firsts(strs[..k]) <= Firsts(strs)
    decreases |strs|
  {
    if k < |strs| {
      var init := strs[..|strs| - 1];
      assert init[..k] == strs[..k];
      assert strs == init + [strs[|strs| - 1]];
      FirstsPrefix(init, k);
      FirstsSnoc(init, strs[|strs| - 1]);
    } else {
      assert strs[..k] == strs;
    }
  }

  lemma {:induction false} IndexInPrefix(r: seq<string>, t: seq<string>, v: string)
    requires r <= t && v in r
    ensures IndexIn(t, v) == IndexIn(r, v)
  {
    var i := IndexIn(r, v);
    assert t[i] == r[i];
    var j := IndexIn(t, v);
    assert j < |r| ==> t[j] == r[j];
  }

  /** A vertex string met for the first time is numbered with the count of
      distinct strings before it. */
  lemma {:induction false} FirstOccurrence(strs: seq<string>, k: nat)
    requires k < |strs| && strs[k] !in strs[..k]
    ensures IndexIn(Firsts(strs), strs[k]) == |Firsts(strs[..k])|
  {
    var v := strs[k];
    assert strs[..k + 1] == strs[..k] + [v];
    FirstsSnoc(strs[..k], v);
    IndexInNew(Firsts(strs[..k]), v);
    FirstsPrefix(strs, k + 1);
    IndexInPrefix(Firsts(strs[..k + 1]), Firsts(strs), v);
  }

  /** `Mesh::loadObj`: the loader's arrays and the one subset it records,
      which covers the indices, and is empty when loading failed. */
  method LoadObj(lines: seq<string>) returns (m: Loader, subsets: seq<Subset>)
    requires CanLoad(lines)
    ensures m.isLoaded <==> ScanLines(lines).Some?
    ensures subsets == [Subset(0, |m.indices|, 0)] && Tiled(subsets, |m.indices|)
    ensures !m.isLoaded ==> subsets == [Subset(0, 0, 0)]
  {
    m := Load(lines);
    subsets := WholeMesh(|m.indices|);
  }

  /** The one subset `Mesh::create` and `loadObj` record: from index 0,
      covering every index, with material 0. */
  function WholeMesh(numIndices: nat): (r: seq<Subset>)
    ensures |r| == 1 && r[0].start == 0 && r[0].material == 0
    ensures Tiled(r, numIndices)
  {
    assert [Subset(0, numIndices, 0)][..0] == [];
    [Subset(0, numIndices, 0)]
  }

  const SkyboxIndices: seq<int> := [
    0, 1, 2, 1, 3, 2,
    4, 6, 5, 5, 6, 7,
    0, 4, 1, 1, 4, 5,
    2, 3, 6, 3, 7, 6,
    0, 2, 4, 2, 6, 4,
    1, 5, 3, 3, 5, 7]

  /** Which way corner `k` of the skybox lies along x, y and z: -1 or 1. */
  function CornerSign(k: nat): (r: (int, int, int))
    requires k < 8
  {
    (if (k % 4) / 2 == 0 then -1 else 1, if k / 4 == 0 then -1 else 1, if k % 2 == 0 then -1 else 1)
  }

  /** `addSkybox`: the eight corners of the cube of half-side `radius`, their
      normals (`unit` stands for the component 1/sqrt(3) of a normalised
      diagonal), texcoords and the 36 indices of its twelve triangles.
      Whatever the arrays held before is replaced; the subsets are kept. */
  function AddSkybox(b: Builder, radius: real, unit: real): (r: Builder)
    ensures |r.vertices| == 8 && |r.normals| == 8 && |r.texcoords| == 8 && |r.indices| == 36
    ensures r.subsets == b.subsets
    ensures forall k :: 0 <= k < 36 ==> 0 <= r.indices[k] < 8
    ensures forall c :: 0 <= c < 8 ==> c in r.indices
    ensures forall k :: 0 <= k < 8 ==>
      r.vertices[k] == Vec3(CornerSign(k).0 as real * radius, CornerSign(k).1 as real * radius, CornerSign(k).2 as real * radius)
      && r.normals[k] == Vec3(CornerSign(k).0 as real * unit, CornerSign(k).1 as real * unit, CornerSign(k).2 as real * unit)
  {
    SkyboxInRange();
    SkyboxCoversCorners();
    var r := radius;
    var n := unit;
    b.(vertices := [
         Vec3(-r, -r, -r), Vec3(-r, -r, r), Vec3(r, -r, -r), Vec3(r, -r, r),
         Vec3(-r, r, -r), Vec3(-r, r, r), Vec3(r, r, -r), Vec3(r, r, r)],
       normals := [
         Vec3(-n, -n, -n), Vec3(-n, -n, n), Vec3(n, -n, -n), Vec3(n, -n, n),
         Vec3(-n, n, -n), Vec3(-n, n, n), Vec3(n, n, -n), Vec3(n, n, n)],
       texcoords := [
         Uv(0.0, 0.0), Uv(1.0, 0.0), Uv(0.0, 1.0), Uv(1.0, 1.0),
         Uv(0.0, 0.0), Uv(1.0, 0.0), Uv(0.0, 1.0), Uv(1.0, 1.0)],
       indices := SkyboxIndices)
  }

  /** Every skybox index names one of the eight corners. */
  lemma {:induction false} SkyboxInRange()
    ensures forall k :: 0 <= k < 36 ==> 0 <= SkyboxIndices[k] < 8
  {
  }

  /** Every corner is used by some triangle. */
  lemma {:induction false} SkyboxCoversCorners()
    ensures forall c :: 0 <= c < 8 ==> c in SkyboxIndices
  {
  }
}
