/** The `Config` class of src/game.h: `key = value` lines read into a map. */
module Settings {
  import opened Wrappers
  import opened Text
  import opened Definitions

  /** The (key, value) a config line defines, or `None` for a line without '='.
      Only the first '=' separates, so a value may itself contain '='. */
  function Entry(line: string): (r: Option<(string, string)>)
    ensures r.None? <==> '=' !in line
  {
    FindSpec(line, '=');
    match Find(line, '=')
    case None => None
    case Some(eq) => Some((Strip(line[..eq]), Strip(line[eq + 1..])))
  }

  /** A line whose first '=' is at `eq` defines the stripped text before
      it as the key and the stripped text after it as the value. */
  lemma {:induction false} EntrySplit(line: string, eq: nat)
    requires eq < |line| && line[eq] == '=' && '=' !in line[..eq]
    ensures Entry(line) == Some((Strip(line[..eq]), Strip(line[eq + 1..])))
  {
    forall k | 0 <= k < eq ensures line[k] != '=' {
      assert line[k] == line[..eq][k];
    }
    FindAt(line, '=', eq);
  }

  /** Whether `line` sets `key`. */
  predicate Defines(line: string, key: string) {
    Entry(line).Some? && Entry(line).value.0 == key
  }

  /** The settings map after reading `lines` front to back. */
  function Read(lines: seq<string>): map<string, string> {
    if lines == [] then map[]
    else
      var m := Read(lines[..|lines| - 1]);
      match Entry(lines[|lines| - 1])
      case None => m
      case Some(kv) => m[kv.0 := kv.1]
  }

  /** `Config::get`: the stored value, or the caller's default. */
  function Get(settings: map<string, string>, key: string, def: string): (r: string)
    ensures key in settings ==> r == settings[key]
    ensures key !in settings ==> r == def
  {
    if key in settings then settings[key] else def
  }

  /** Line `i` is the last one in `lines` that sets `key`. */
  predicate LastDefinition(lines: seq<string>, key: string, i: nat) {
    i < |lines| && Defines(lines[i], key)
    && forall j :: i < j < |lines| ==> !Defines(lines[j], key)
  }

  /** Reading one more line changes at most the key that line defines. */
  lemma {:induction false} ReadSnoc(lines: seq<string>, line: string, key: string)
    ensures Defines(line, key) ==> key in Read(lines + [line]) && Read(lines + [line])[key] == Entry(line).value.1
    ensures !Defines(line, key) ==> (key in Read(lines + [line]) <==> key in Read(lines))
    ensures !Defines(line, key) && key in Read(lines) ==> Read(lines + [line])[key] == Read(lines)[key]
  {
    assert (lines + [line])[..|lines|] == lines;
  }

  /** A key is set exactly when some line defines it. */
  lemma {:induction false} ReadKeys(lines: seq<string>, key: string)
    ensures key in Read(lines) <==> exists i :: 0 <= i < |lines| && Defines(lines[i], key)
  {
    if lines != [] {
      var n := |lines| - 1;
      var init := lines[..n];
      assert lines == init + [lines[n]];
      ReadKeys(init, key);
      ReadSnoc(init, lines[n], key);
      assert forall i :: 0 <= i < n ==> init[i] == lines[i];
    }
  }

  /** The value of a key is the one from the last line that defines it. */
  lemma {:induction false} ReadLastWins(lines: seq<string>, key: string, i: nat)
    requires LastDefinition(lines, key, i)
    ensures key in Read(lines) && Read(lines)[key] == Entry(lines[i]).value.1
  {
    var n := |lines| - 1;
    var init := lines[..n];
    assert lines == init + [lines[n]];
    ReadSnoc(init, lines[n], key);
    if i < n {
      assert !Defines(lines[n], key);
      assert init[i] == lines[i];
      assert forall j :: i < j < n ==> init[j] == lines[j];
      ReadLastWins(init, key, i);
    }
  }

  /** `get` after reading a file: the last definition of the key, or the default. */
  lemma {:induction false} ReadThenGet(lines: seq<string>, key: string, def: string)
    ensures (forall i :: 0 <= i < |lines| ==> !Defines(lines[i], key)) ==> Get(Read(lines), key, def) == def
    ensures forall i: nat :: LastDefinition(lines, key, i) ==> Get(Read(lines), key, def) == Entry(lines[i]).value.1
  {
    ReadKeys(lines, key);
    forall i: nat | LastDefinition(lines, key, i) {
      ReadLastWins(lines, key, i);
    }
  }

  /** Lines without '=' are skipped. */
  lemma {:induction false} SkipsPlainLines(lines: seq<string>, line: string)
    requires '=' !in line
    ensures Read(lines + [line]) == Read(lines)
  {
    assert (lines + [line])[..|lines|] == lines;
  }

  /** Neither the key nor the value keeps surrounding white space. */
  lemma {:induction false} EntryTrimmed(line: string)
    requires '=' in line
    ensures var kv := Entry(line).value;
      Strip(kv.0) == kv.0 && Strip(kv.1) == kv.1 && '=' !in kv.0
  {
    FindSpec(line, '=');
    var eq := Find(line, '=').value;
    StripIdempotent(line[..eq]);
    StripIdempotent(line[eq + 1..]);
    StripIsInfix(line[..eq]);
  }
}
