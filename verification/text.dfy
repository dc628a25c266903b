/** The text files of the toolchain as lines of words: splitting a line, writing and reading numerals. */
module LineText {
  import opened Words
  import opened Locator

  predicate Blank(c: char) { c == ' ' || c == '\t' }

  predicate IsWord(s: string) { |s| > 0 && forall i | 0 <= i < |s| :: !Blank(s[i]) }

  // --- words -------------------------------------------------------------------------------------

  /** How long the word at the start of a line is. */
  function WordLength(s: string): (n: nat)
    ensures n <= |s| && (forall i | 0 <= i < n :: !Blank(s[i])) && (n < |s| ==> Blank(s[n]))
  {
    if s == "" || Blank(s[0]) then 0 else 1 + WordLength(s[1..])
  }

  function WordsOf(s: string): (ws: seq<string>)
    ensures forall w | w in ws :: IsWord(w)
    decreases |s|
  {
    if s == "" then []
    else if Blank(s[0]) then WordsOf(s[1..])
    else
      var n := WordLength(s);
      [s[..n]] + WordsOf(s[n..])
  }

  /** Words with one space between them. */
  function Join(ws: seq<string>): string {
    if ws == [] then "" else if |ws| == 1 then ws[0] else ws[0] + " " + Join(ws[1..])
  }

  lemma FirstWord(w: string, rest: string)
    requires IsWord(w) && (rest == "" || Blank(rest[0]))
    ensures WordLength(w + rest) == |w| && WordsOf(w + rest) == [w] + WordsOf(rest)
  {
    var s := w + rest;
    assert forall i | 0 <= i < |w| :: s[i] == w[i];
    assert !Blank(s[0]);
    var n := WordLength(s);
    assert rest != "" ==> s[|w|] == rest[0];
    assert n == |w|;
    assert s[..n] == w && s[n..] == rest;
  }

  /** Splitting a joined line gives its words back. */
  lemma {:induction false} SplitJoin(ws: seq<string>)
    requires forall w | w in ws :: IsWord(w)
    ensures WordsOf(Join(ws)) == ws
  {
    if ws == [] {
    } else if |ws| == 1 {
      FirstWord(ws[0], "");
      assert ws[0] + "" == ws[0];
    } else {
      var rest := " " + Join(ws[1..]);
      assert ws[0] + " " + Join(ws[1..]) == ws[0] + rest;
      FirstWord(ws[0], rest);
      assert rest[1..] == Join(ws[1..]);
      SplitJoin(ws[1..]);
    }
  }

  // --- meaningful lines ----------------------------------------------------------------------------

  /** Blank lines and lines that start with `;` say nothing. */
  predicate Silent(line: string) {
    if line == "" then true
    else if Blank(line[0]) then Silent(line[1..])
    else line[0] in {';', '\r', '\n'}
  }

  /** Which lines say nothing: empty ones, comments, and those with only blanks before. */
  lemma SilentExactly(line: string, c: char, blank: char)
    requires blank in {' ', '\t'}
    ensures Silent("") && Silent([blank] + line) == Silent(line)
    ensures c !in {' ', '\t'} ==> (Silent([c] + line) <==> c in {';', '\r', '\n'})
  {
    assert ([blank] + line)[1..] == line;
  }

  lemma JoinStarts(ws: seq<string>)
    requires ws != [] && IsWord(ws[0])
    ensures Join(ws) != "" && Join(ws)[0] == ws[0][0] && Silent(Join(ws)) == Silent(ws[0])
  {
  }

  function Meaningful(lines: seq<string>): (ms: seq<string>)
    ensures |ms| <= |lines|
  {
    if lines == [] then []
    else (if Silent(lines[0]) then [] else [lines[0]]) + Meaningful(lines[1..])
  }

  lemma {:induction false} MeaningfulJoin(a: seq<string>, b: seq<string>)
    ensures Meaningful(a + b) == Meaningful(a) + Meaningful(b)
    decreases |a|
  {
    if a == [] {
      assert a + b == b;
    } else {
      assert (a + b)[1..] == a[1..] + b;
      MeaningfulJoin(a[1..], b);
    }
  }

  lemma {:induction false} AllMeaningful(lines: seq<string>)
    requires forall i | 0 <= i < |lines| :: !Silent(lines[i])
    ensures Meaningful(lines) == lines
    decreases |lines|
  {
    if lines != [] {
      AllMeaningful(lines[1..]);
    }
  }

  /** A file open for reading. */
  class Stream {
    const lines: seq<string>
    var at: nat

    ghost predicate Valid()
      reads this
    {
      at <= |lines|
    }

    /** What is still to be read. */
    ghost function Rest(): seq<string>
      requires Valid()
      reads this
    {
      Meaningful(lines[at..])
    }

    constructor (lines: seq<string>)
      ensures Valid() && Rest() == Meaningful(lines)
    {
      this.lines, at := lines, 0;
    }

    /** The next line that says something. */
    method NextLine() returns (line: Option<string>)
      requires Valid()
      modifies this
      ensures Valid()
      ensures if old(Rest()) == [] then line == None && Rest() == []
        else line == Some(old(Rest())[0]) && Rest() == old(Rest())[1..]
    {
      while at < |lines|
        invariant Valid() && Rest() == old(Rest())
      {
        assert lines[at..][1..] == lines[at + 1..];
        var read := lines[at];
        at := at + 1;
        if !Silent(read) {
          return Some(read);
        }
      }
      line := None;
    }
  }

  // --- numerals --------------------------------------------------------------------------------------

  function Digit(d: nat): (c: char)
    requires d < 16
    ensures !Blank(c) && c !in {';', ':', '-', '\r', '\n'}
  {
    "0123456789abcdef"[d]
  }

  function DigitValue(c: char): (v: Option<nat>)
    ensures v.Some? ==> v.value < 16
  {
    if '0' <= c <= '9' then Some((c - '0') as nat)
    else if 'a' <= c <= 'f' then Some((c - 'a') as nat + 10)
    else if 'A' <= c <= 'F' then Some((c - 'A') as nat + 10)
    else None
  }

  lemma DigitReadBack(d: nat)
    requires d < 16
    ensures DigitValue(Digit(d)) == Some(d)
  {
  }

  function Numeral(n: nat, base: nat): (s: string)
    requires 2 <= base <= 16
    ensures IsWord(s) && forall i | 0 <= i < |s| :: s[i] !in {':', ';', '-', '\r', '\n'}
  {
    if n < base then [Digit(n)] else Numeral(n / base, base) + [Digit(n % base)]
  }

  /** One more digit at the end of a number. */
  function Extended(high: nat, base: nat, d: nat): nat { high * base + d }

  lemma LastDigit(n: nat, base: nat)
    requires base > 0
    ensures Extended(n / base, base, n % base) == n
  {
  }

  function NumeralValue(s: string, base: nat): Option<nat>
    requires 2 <= base <= 16
  {
    if s == "" then None
    else
      var d := DigitValue(s[|s| - 1]);
      if d.None? || d.value >= base then None
      else if |s| == 1 then d
      else
        var high := NumeralValue(s[..|s| - 1], base);
        if high.None? then None else Some(Extended(high.value, base, d.value))
  }

  lemma {:induction false} NumeralReadBack(n: nat, base: nat)
    requires 2 <= base <= 16
    ensures NumeralValue(Numeral(n, base), base) == Some(n)
    decreases n
  {
    DigitReadBack(n % base);
    if n < base {
      assert n % base == n;
    } else {
      NumeralReadBack(n / base, base);
      LastDigit(n, base);
      var s := Numeral(n, base);
      assert s[|s| - 1] == Digit(n % base);
      assert s[..|s| - 1] == Numeral(n / base, base);
    }
  }

  /** A signed decimal. */
  function Decimal(i: int): (s: string)
    ensures IsWord(s) && !Silent(s) && (s[0] == '-' <==> i < 0)
  {
    if i < 0 then "-" + Numeral(-i, 10) else Numeral(i, 10)
  }

  function DecimalValue(s: string): Option<int> {
    if s != "" && s[0] == '-' then
      var v := NumeralValue(s[1..], 10);
      if v.None? then None else Some(-(v.value as int))
    else
      var v := NumeralValue(s, 10);
      if v.None? then None else Some(v.value)
  }

  lemma DecimalReadBack(i: int)
    ensures DecimalValue(Decimal(i)) == Some(i)
  {
    NumeralReadBack(if i < 0 then -i else i, 10);
    if i < 0 {
      assert Decimal(i)[1..] == Numeral(-i, 10);
    }
  }

  /** Two hexadecimal digits. */
  function HexByte(b: byte): (s: string)
    ensures IsWord(s) && ':' !in s
  {
    [Digit(b / 16), Digit(b % 16)]
  }

  /** A hexadecimal word, truncated to a byte. */
  function ByteValue(s: string): byte {
    var v := NumeralValue(s, 16);
    if v.None? then 0 else v.value % 256
  }

  lemma ByteReadBack(b: byte)
    ensures ByteValue(HexByte(b)) == b
  {
    var s := HexByte(b);
    DigitReadBack(b / 16);
    DigitReadBack(b % 16);
    assert s[..1] == [s[0]];
    assert NumeralValue(s[..1], 16) == Some(b / 16);
  }
}
