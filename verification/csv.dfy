/** The manifest reader of src/game.cpp: `next_cell` splits a line into
    comma-separated cells, and `load_csv` hands the lines of a file to a
    callback. */
module Csv {
  import opened Wrappers
  import opened Text

  /** `next_cell`: the text before the first comma (the whole line if there
      is none), and the line with that cell and its comma removed. */
  function NextCell(line: string): (r: (string, string))
    ensures ',' !in r.0
    ensures ',' in line ==> r.0 + [','] + r.1 == line
    ensures ',' !in line ==> r.0 == line && r.1 == []
  {
    FindSpec(line, ',');
    match Find(line, ',')
    case None => (line, [])
    case Some(i) =>
      assert line == line[..i] + [','] + line[i + 1..];
      (line[..i], line[i + 1..])
  }

  /** The lines `load_csv` visits: the '\n'-separated lines of `data` up to
      (not including) the first empty one. */
  function Lines(data: string): seq<string>
    decreases |data|
  {
    match Find(data, '\n')
    case None => if data == [] then [] else [data]
    case Some(i) => if i == 0 then [] else [data[..i]] + Lines(data[i + 1..])
  }

  /** The lines passed on to the callback: all visited lines, less line 0
      when the header is skipped. */
  function Fed(lines: seq<string>, skipHeader: bool): seq<string>
  {
    if skipHeader && |lines| > 0 then lines[1..] else lines
  }

  /** Visiting the first line and then the text after its line break. */
  lemma {:induction false} LinesStep(data: string, i: nat)
    requires Find(data, '\n') == Some(i) && i > 0
    ensures Lines(data) == [data[..i]] + Lines(data[i + 1..])
    ensures data[..i] != [] && '\n' !in data[..i]
  {
    FindSpec(data, '\n');
  }

  /** Every visited line is non-empty and holds no line break, and the lines
      joined back with '\n' are a prefix of the file. */
  lemma {:induction false} LinesShape(data: string)
    ensures forall k :: 0 <= k < |Lines(data)| ==> Lines(data)[k] != [] && '\n' !in Lines(data)[k]
    ensures StartsWith(data, Join('\n', Lines(data)))
    decreases |data|
  {
    FindSpec(data, '\n');
    match Find(data, '\n')
    case None =>
    case Some(i) =>
      if i > 0 {
        var rest := Lines(data[i + 1..]);
        LinesShape(data[i + 1..]);
        LinesStep(data, i);
        var ls := [data[..i]] + rest;
        assert ls[1..] == rest;
        JoinedPrefix(data, i, rest);
      }
  }

  /** The first line, its break and a prefix of the rest make a prefix. */
  lemma {:induction false} JoinedPrefix(data: string, i: nat, rest: seq<string>)
    requires i < |data| && data[i] == '\n'
    requires StartsWith(data[i + 1..], Join('\n', rest))
    ensures StartsWith(data, Join('\n', [data[..i]] + rest))
  {
    var ls := [data[..i]] + rest;
    assert ls[0] == data[..i] && ls[1..] == rest;
    if |rest| == 0 {
      assert Join('\n', ls) == data[..i];
    } else {
      var j := Join('\n', rest);
      assert Join('\n', ls) == data[..i] + ['\n'] + j;
      assert data[..i + 1 + |j|] == data[..i] + ['\n'] + data[i + 1..][..|j|];
    }
  }

  /** A file with no empty line and no trailing line break is visited line
      for line: reading it back gives exactly the lines it was written from. */
  lemma {:induction false} LinesOfJoin(lines: seq<string>)
    requires forall k :: 0 <= k < |lines| ==> lines[k] != [] && '\n' !in lines[k]
    ensures Lines(Join('\n', lines)) == lines
    decreases |lines|
  {
    if |lines| == 1 {
      FindNone(lines[0], '\n');
    } else if |lines| > 1 {
      var d := Join('\n', lines);
      var rest := Join('\n', lines[1..]);
      FindAfter(d, lines[0], '\n', rest);
      LinesOfJoin(lines[1..]);
    }
  }

  /** A file written line by line, each line non-empty and followed by a
      line break, is visited line for line. */
  lemma {:induction false} LinesOfTerminated(lines: seq<string>)
    requires forall k :: 0 <= k < |lines| ==> lines[k] != [] && '\n' !in lines[k]
    ensures Lines(Terminated(lines)) == lines
    decreases |lines|
  {
    if lines != [] {
      var d := Terminated(lines);
      var rest := Terminated(lines[1..]);
      FindAfter(d, lines[0], '\n', rest);
      LinesOfTerminated(lines[1..]);
    }
  }

  /** A line of the remaining text that ends at a line break. */
  lemma {:induction false} LinesAtBreak(d: string, sol: nat, eol: nat)
    requires sol < eol < |d| && d[eol] == '\n'
    requires forall k :: sol <= k < eol ==> d[k] != '\n'
    ensures Lines(d[sol..]) == [d[sol..eol]] + Lines(d[eol + 1..])
  {
    var t := d[sol..];
    FindAt(t, '\n', eol - sol);
    assert t[..eol - sol] == d[sol..eol] && t[eol - sol + 1..] == d[eol + 1..];
  }

  /** The last line of the remaining text, which has no line break. */
  lemma {:induction false} LinesAtEnd(d: string, sol: nat)
    requires sol < |d| && forall k :: sol <= k < |d| ==> d[k] != '\n'
    ensures Lines(d[sol..]) == [d[sol..]]
  {
    var t := d[sol..];
    assert '\n' !in t by {
      forall k | 0 <= k < |t| ensures t[k] != '\n' {
        assert t[k] == d[sol + k];
      }
    }
    FindNone(t, '\n');
  }

  /** Remaining text that is empty or starts with a line break has no
      more lines to visit. */
  lemma {:induction false} LinesAtBlank(d: string, sol: nat)
    requires sol <= |d| && (sol == |d| || d[sol] == '\n')
    ensures Lines(d[sol..]) == []
  {
    if sol < |d| {
      FindAt(d[sol..], '\n', 0);
    }
  }

  /** Where the line starting at `sol` ends: at the next '\n', or at the
      end of the data. */
  function Eol(d: string, sol: nat): (e: nat)
    requires sol <= |d|
    ensures sol <= e <= |d|
  {
    match FindFrom(d, '\n', sol)
    case Some(e) => e
    case None => |d|
  }

  /** The line from `sol` holds no line break, and one ends it unless it
      runs to the end of the data. */
  lemma {:induction false} EolSpec(d: string, sol: nat)
    requires sol <= |d|
    ensures Eol(d, sol) < |d| ==> d[Eol(d, sol)] == '\n'
    ensures forall k :: sol <= k < Eol(d, sol) ==> d[k] != '\n'
  {
    FindFromSpec(d, '\n', sol);
  }

  /** `data.find('\n', sol)`, with `npos` read as the end of the data. */
  method FindEol(d: string, sol: nat) returns (eol: nat)
    requires sol <= |d|
    ensures eol == Eol(d, sol)
  {
    var found := FindFrom(d, '\n', sol);
    eol := if found.Some? then found.value else |d|;
  }

  /** What the loop of `load_csv` hands to the callback from line start
      `sol` on, when `n` lines have been visited before it: each line up to
      the first empty one, less line 0 when the header is skipped. */
  function Visit(d: string, skipHeader: bool, sol: nat, n: nat): seq<string>
    requires sol <= |d|
    decreases |d| - sol
  {
    var eol := Eol(d, sol);
    var keep := n > 0 || !skipHeader;
    if eol == sol then []
    else if eol == |d| then (if keep then [d[sol..eol]] else [])
    else if keep then [d[sol..eol]] + Visit(d, skipHeader, eol + 1, n + 1)
    else Visit(d, skipHeader, eol + 1, n + 1)
  }

  /** The remaining text split at the end of its first line. */
  lemma {:induction false} LinesEol(d: string, sol: nat)
    requires sol <= |d|
    ensures Eol(d, sol) == sol ==> Lines(d[sol..]) == []
    ensures sol < Eol(d, sol) == |d| ==> Lines(d[sol..]) == [d[sol..Eol(d, sol)]]
    ensures sol < Eol(d, sol) < |d| ==> Lines(d[sol..]) == [d[sol..Eol(d, sol)]] + Lines(d[Eol(d, sol) + 1..])
  {
    var e := Eol(d, sol);
    EolSpec(d, sol);
    if e == sol {
      LinesAtBlank(d, sol);
    } else if e == |d| {
      LinesAtEnd(d, sol);
      assert d[sol..e] == d[sol..];
    } else {
      LinesAtBreak(d, sol, e);
    }
  }

  /** One step of `Visit` past a line that ends at a line break. */
  lemma {:induction false} VisitBreak(d: string, skipHeader: bool, sol: nat, n: nat, eol: nat)
    requires sol <= |d| && eol == Eol(d, sol) && sol < eol < |d|
    ensures n > 0 || !skipHeader ==> Visit(d, skipHeader, sol, n) == [d[sol..eol]] + Visit(d, skipHeader, eol + 1, n + 1)
    ensures !(n > 0 || !skipHeader) ==> Visit(d, skipHeader, sol, n) == Visit(d, skipHeader, eol + 1, n + 1)
  {
  }

  /** The loop hands over the lines of the remaining text, less the first
      when it is the header that is skipped. */
  lemma {:induction false} VisitLines(d: string, skipHeader: bool, sol: nat, n: nat)
    requires sol <= |d|
    ensures n == 0 ==> Visit(d, skipHeader, sol, n) == Fed(Lines(d[sol..]), skipHeader)
    ensures n > 0 ==> Visit(d, skipHeader, sol, n) == Lines(d[sol..])
    decreases |d| - sol
  {
    var e := Eol(d, sol);
    LinesEol(d, sol);
    if e == |d| && e > sol {
      if !(n > 0 || !skipHeader) {
        assert [d[sol..e]][1..] == [];
      }
    } else if e > sol {
      var line := d[sol..e];
      var rest := Lines(d[e + 1..]);
      VisitLines(d, skipHeader, e + 1, n + 1);
      VisitBreak(d, skipHeader, sol, n, e);
      if !(n > 0 || !skipHeader) {
        assert ([line] + rest)[1..] == rest;
      }
    }
  }

  /** The loop of `load_csv` stops at an empty line: everything has been
      handed over. */
  lemma {:induction false} VisitEmpty(d: string, skipHeader: bool, sol: nat, n: nat, fed: seq<string>, total: seq<string>)
    requires sol <= |d| && Eol(d, sol) == sol
    requires fed + Visit(d, skipHeader, sol, n) == total
    ensures fed == total
  {
    assert fed + [] == fed;
  }

  /** One pass of the loop of `load_csv` over a line it hands over. */
  lemma {:induction false} VisitKeep(d: string, skipHeader: bool, sol: nat, n: nat, eol: nat, fed: seq<string>, total: seq<string>)
    requires sol <= |d| && eol == Eol(d, sol) && sol < eol && (n > 0 || !skipHeader)
    requires fed + Visit(d, skipHeader, sol, n) == total
    ensures eol < |d| ==> (fed + [d[sol..eol]]) + Visit(d, skipHeader, eol + 1, n + 1) == total
    ensures eol == |d| ==> fed + [d[sol..eol]] == total
  {
    var head := [d[sol..eol]];
    if eol < |d| {
      var rest := Visit(d, skipHeader, eol + 1, n + 1);
      assert fed + (head + rest) == (fed + head) + rest;
    } else {
      assert head + [] == head;
    }
  }

  /** One pass of the loop of `load_csv` over the header it skips. */
  lemma {:induction false} VisitSkip(d: string, skipHeader: bool, sol: nat, n: nat, eol: nat, fed: seq<string>, total: seq<string>)
    requires sol <= |d| && eol == Eol(d, sol) && sol < eol && !(n > 0 || !skipHeader)
    requires fed + Visit(d, skipHeader, sol, n) == total
    ensures eol < |d| ==> fed + Visit(d, skipHeader, eol + 1, n + 1) == total
    ensures eol == |d| ==> fed == total
  {
    if eol == |d| {
      assert fed + [] == fed;
    }
  }

  /** `load_csv` over the file contents (`None` when the file cannot be
      read): the return code and the lines handed to the callback, in call
      order. */
  method LoadCsv(data: Option<string>, skipHeader: bool) returns (code: int, fed: seq<string>)
    ensures data.None? ==> code == 1 && fed == []
    ensures data.Some? ==> code == 0 && fed == Fed(Lines(data.value), skipHeader)
  {
    if data.None? {
      return 1, [];
    }
    var d := data.value;
    fed := [];
    ghost var total := Visit(d, skipHeader, 0, 0);
    var sol: int := 0;
    var eol: int := 0;
    var lineNumber := 0;
    while eol != |d|
      invariant 0 <= sol <= |d| + 1 && 0 <= eol <= |d| && lineNumber >= 0
      invariant sol <= |d| ==> fed + Visit(d, skipHeader, sol, lineNumber) == total
      invariant sol == |d| + 1 ==> fed == total && eol == |d|
      invariant eol == |d| && sol <= |d| ==> sol == |d|
      decreases |d| + 1 - sol, |d| - eol
    {
      eol := FindEol(d, sol);
      var line := d[sol..eol];
      if |line| == 0 {
        VisitEmpty(d, skipHeader, sol, lineNumber, fed, total);
        break;
      }
      if lineNumber > 0 || !skipHeader {
        VisitKeep(d, skipHeader, sol, lineNumber, eol, fed, total);
        fed := fed + [line];
      } else {
        VisitSkip(d, skipHeader, sol, lineNumber, eol, fed, total);
      }
      sol := eol + 1;
      lineNumber := lineNumber + 1;
    }
    if sol <= |d| {
      VisitEmpty(d, skipHeader, sol, lineNumber, fed, total);
    }
    VisitLines(d, skipHeader, 0, 0);
    assert d[0..] == d;
    return 0, fed;
  }
}
