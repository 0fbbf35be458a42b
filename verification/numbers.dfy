/** Decimal text <-> integer. The source reads numbers with
    `std::from_chars` (`stof_safe`), `atoi`, `strtod` and stream extraction,
    and writes them with `operator<<`; the model covers their integer forms. */
module Numbers {
  import opened Wrappers

  predicate IsDigit(ch: char) {
    '0' <= ch <= '9'
  }

  /** The characters C's `isspace` accepts. */
  predicate IsCSpace(ch: char) {
    ch == ' ' || ch == '\t' || ch == '\n' || ch as int == 11 || ch as int == 12 || ch == '\r'
  }

  function DigitValue(ch: char): nat
    requires IsDigit(ch)
  {
    ch as int - '0' as int
  }

  function DigitChar(d: nat): (ch: char)
    requires d < 10
    ensures IsDigit(ch) && DigitValue(ch) == d
  {
    ('0' as int + d) as char
  }

  predicate AllDigits(s: string) {
    forall k :: 0 <= k < |s| ==> IsDigit(s[k])
  }

  /** Decimal digits of `n`, most significant first, no leading zeros. */
  function ShowNat(n: nat): (r: string)
    ensures |r| >= 1 && AllDigits(r)
  {
    if n < 10 then [DigitChar(n)] else ShowNat(n / 10) + [DigitChar(n % 10)]
  }

  /** `operator<<` on an integer. */
  function ShowInt(i: int): (r: string)
    ensures |r| >= 1
    ensures forall k :: 0 <= k < |r| ==> r[k] == '-' || IsDigit(r[k])
  {
    if i < 0 then "-" + ShowNat(-i) else ShowNat(i)
  }

  /** Length of the run of digits at the start of `s`. */
  function DigitRun(s: string): (k: nat)
    ensures k <= |s| && AllDigits(s[..k])
    ensures k < |s| ==> !IsDigit(s[k])
  {
    if s == [] || !IsDigit(s[0]) then 0
    else
      var k := 1 + DigitRun(s[1..]);
      assert s[..k] == [s[0]] + s[1..][..k - 1];
      k
  }

  function DigitsValue(ds: string): nat
    requires AllDigits(ds)
  {
    if ds == [] then 0 else DigitsValue(ds[..|ds| - 1]) * 10 + DigitValue(ds[|ds| - 1])
  }

  /** `std::from_chars`: an optional '-', then at least one digit; whatever
      follows the digits is ignored. `None` is the error code. */
  function FromChars(s: string): Option<int> {
    var neg := |s| > 0 && s[0] == '-';
    var body := if neg then s[1..] else s;
    var k := DigitRun(body);
    if k == 0 then None
    else
      var v: int := DigitsValue(body[..k]);
      Some(if neg then -v else v)
  }

  /** `stof_safe` of src/game.cpp: the parsed value, or 0 on a parse error. */
  function StofSafe(s: string): int {
    FromChars(s).GetOr(0)
  }

  /** `atoi`, and the integer part of `strtod` and of stream extraction into a
      number, applied to the text from index `i` on (`&s[i]`): leading white
      space is skipped, one sign is accepted, and text without digits reads
      as 0. */
  function NumberAt(s: string, i: nat): int
    decreases |s| - i
  {
    if i < |s| && IsCSpace(s[i]) then NumberAt(s, i + 1)
    else
      var neg := i < |s| && s[i] == '-';
      var start := if i < |s| && (s[i] == '-' || s[i] == '+') then i + 1 else i;
      var v: int := DigitsFrom(s, start, 0);
      if neg then -v else v
  }

  /** The value of the run of digits starting at `i`, read onto `acc`. */
  function DigitsFrom(s: string, i: nat, acc: nat): nat
    decreases |s| - i
  {
    if i < |s| && IsDigit(s[i]) then DigitsFrom(s, i + 1, acc * 10 + DigitValue(s[i])) else acc
  }

  function Atoi(s: string): int {
    NumberAt(s, 0)
  }

  lemma {:induction false} ShowNatValue(n: nat)
    ensures DigitsValue(ShowNat(n)) == n
  {
    if n >= 10 {
      var s := ShowNat(n);
      assert s[..|s| - 1] == ShowNat(n / 10);
      ShowNatValue(n / 10);
    }
  }

  lemma {:induction false} ShowNatRun(n: nat)
    ensures DigitRun(ShowNat(n)) == |ShowNat(n)|
  {
  }

  /** Reading back a printed integer gives the integer. */
  lemma {:induction false} FromChars_ShowInt(i: int)
    ensures FromChars(ShowInt(i)) == Some(i)
    ensures StofSafe(ShowInt(i)) == i
  {
    var s := ShowInt(i);
    if i < 0 {
      assert s[1..] == ShowNat(-i);
      ShowNatRun(-i);
      ShowNatValue(-i);
      assert s[1..][..DigitRun(s[1..])] == ShowNat(-i);
    } else {
      ShowNatRun(i);
      ShowNatValue(i);
      assert s[..DigitRun(s)] == s;
    }
  }
}
