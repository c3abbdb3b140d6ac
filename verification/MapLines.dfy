/** The text of /proc/pid/maps: how a line is printed. */
module MapLines {

  const WORD := 0x1_0000_0000_0000_0000   // one more than the largest uintptr_t
  const PAGE_SIZE := 4096

  // ---- Hexadecimal numbers ----

  predicate IsDigit(c: char) {
    '0' <= c <= '9' || 'a' <= c <= 'f'
  }

  function Digit(c: char): nat
    requires IsDigit(c)
  {
    if c <= '9' then c as int - '0' as int else c as int - 'a' as int + 10
  }

  predicate Digits(text: string) {
    forall k :: 0 <= k < |text| ==> IsDigit(text[k])
  }

  function Value(text: string): nat
    requires Digits(text)
  {
    if text == "" then 0 else 16 * Value(text[..|text| - 1]) + Digit(text[|text| - 1])
  }

  function DigitChar(d: nat): (c: char)
    requires d < 16
    ensures IsDigit(c) && Digit(c) == d
  {
    if d < 10 then ('0' as int + d) as char else ('a' as int + (d - 10)) as char
  }

  function Hex(v: nat): (text: string)
    ensures text != "" && Digits(text)
  {
    if v < 16 then [DigitChar(v)] else Hex(v / 16) + [DigitChar(v % 16)]
  }

  function Zeros(n: nat): (text: string)
    ensures |text| == n && Digits(text)
  {
    seq(n, _ => '0')
  }

  /** %08lx */
  function Padded(v: nat): (text: string)
    ensures Digits(text)
  {
    var text := Hex(v);
    if |text| < 8 then Zeros(8 - |text|) + text else text
  }

  lemma {:induction false} ValueOfHex(v: nat)
    ensures Value(Hex(v)) == v
  {
    if v < 16 {
      assert [DigitChar(v)][..0] == "";
    } else {
      var text := Hex(v);
      assert text[..|text| - 1] == Hex(v / 16);
      ValueOfHex(v / 16);
    }
  }

  lemma {:induction false} LeadingZeros(n: nat, text: string)
    requires Digits(text)
    ensures Value(Zeros(n) + text) == Value(text)
    decreases n + |text|
  {
    var whole := Zeros(n) + text;
    if text != "" {
      assert whole[..|whole| - 1] == Zeros(n) + text[..|text| - 1];
      LeadingZeros(n, text[..|text| - 1]);
    } else if n > 0 {
      assert whole[..|whole| - 1] == Zeros(n - 1) + "";
      LeadingZeros(n - 1, "");
    } else {
      assert whole == "";
    }
  }

  /** Reading back what the kernel printed. */
  lemma ValueOfPadded(v: nat)
    ensures Value(Padded(v)) == v
  {
    ValueOfHex(v);
    if |Hex(v)| < 8 {
      LeadingZeros(8 - |Hex(v)|, Hex(v));
    }
  }

  /** A prefix of a number is no larger than the number. */
  lemma {:induction false} ValuePrefix(text: string, k: nat)
    requires Digits(text) && k <= |text|
    ensures Value(text[..k]) <= Value(text)
    decreases |text|
  {
    if k == |text| {
      assert text[..k] == text;
    } else {
      var shorter := text[..|text| - 1];
      ValuePrefix(shorter, k);
      assert shorter[..k] == text[..k];
    }
  }

  // ---- Lines ----

  /** A mapping: its range, the four fields that are skipped, the blanks that pad
      the line, and the name of the mapped file, which may be empty. */
  datatype Line = Line(low: nat, high: nat, fields: seq<string>, pad: nat, name: string)

  predicate Plain(text: string) {
    ' ' !in text && '\n' !in text
  }

  predicate WellFormed(line: Line) {
    && line.low <= line.high < WORD
    && |line.fields| == 4 && (forall k :: 0 <= k < 4 ==> Plain(line.fields[k]))
    && '\n' !in line.name && '\0' !in line.name && (line.name != "" ==> line.name[0] != ' ')
  }

  function Blanks(n: nat): (text: string)
    ensures |text| == n && forall k :: 0 <= k < n ==> text[k] == ' '
  {
    seq(n, _ => ' ')
  }

  /** A blank before every field. */
  function Fields(fields: seq<string>): string {
    if fields == [] then "" else " " + fields[0] + Fields(fields[1..])
  }

  /** The line without its newline. */
  function Body(line: Line): string {
    Padded(line.low) + ("-" + (Padded(line.high) + (Fields(line.fields) + (" " + (Blanks(line.pad) + line.name)))))
  }

  function Concat(parts: seq<string>): string {
    if parts == [] then "" else parts[0] + Concat(parts[1..])
  }

  lemma ConcatCons(first: string, rest: seq<string>)
    ensures Concat([first] + rest) == first + Concat(rest)
  {
    assert ([first] + rest)[1..] == rest;
  }

  function Print(line: Line): string {
    Concat([Padded(line.low), "-", Padded(line.high), Fields(line.fields), " ", Blanks(line.pad), line.name, "\n"])
  }

  lemma PrintIsBody(line: Line)
    ensures Print(line) == Body(line) + "\n"
  {
    EightParts(Padded(line.low), "-", Padded(line.high), Fields(line.fields), " ", Blanks(line.pad), line.name, "\n");
  }

  lemma EightParts(a: string, b: string, c: string, d: string, e: string, f: string, g: string, h: string)
    ensures Concat([a, b, c, d, e, f, g, h]) == (a + (b + (c + (d + (e + (f + g)))))) + h
  {
    var none: seq<string> := [];
    ConcatCons(h, none);
    ConcatCons(g, [h]);
    ConcatCons(f, [g] + [h]);
    ConcatCons(e, [f] + ([g] + [h]));
    ConcatCons(d, [e] + ([f] + ([g] + [h])));
    ConcatCons(c, [d] + ([e] + ([f] + ([g] + [h]))));
    ConcatCons(b, [c] + ([d] + ([e] + ([f] + ([g] + [h])))));
    ConcatCons(a, [b] + ([c] + ([d] + ([e] + ([f] + ([g] + [h]))))));
    assert [h] + none == [h];
    assert [a, b, c, d, e, f, g, h] == [a] + ([b] + ([c] + ([d] + ([e] + ([f] + ([g] + [h]))))));
    assert a + (b + (c + (d + (e + (f + (g + h)))))) == (a + (b + (c + (d + (e + (f + g)))))) + h;
  }

  function Join(texts: seq<string>): string {
    if texts == [] then "" else Join(texts[..|texts| - 1]) + texts[|texts| - 1]
  }

  function Texts(lines: seq<Line>): (texts: seq<string>)
    ensures |texts| == |lines| && forall k :: 0 <= k < |lines| ==> texts[k] == Print(lines[k])
  {
    seq(|lines|, k requires 0 <= k < |lines| => Print(lines[k]))
  }

  function PrintAll(lines: seq<Line>): string {
    Join(Texts(lines))
  }

  lemma {:induction false} FieldsPlain(fields: seq<string>)
    requires forall k :: 0 <= k < |fields| ==> Plain(fields[k])
    ensures '\n' !in Fields(fields)
  {
    if fields != [] {
      FieldsPlain(fields[1..]);
      assert Plain(fields[0]);
    }
  }

  lemma DigitsPlain(text: string)
    requires Digits(text)
    ensures '\n' !in text && ' ' !in text && '-' !in text
  {}

  /** A body is one line. */
  lemma BodyIsOneLine(line: Line)
    requires WellFormed(line)
    ensures Body(line) != "" && '\n' !in Body(line)
  {
    DigitsPlain(Padded(line.low));
    DigitsPlain(Padded(line.high));
    FieldsPlain(line.fields);
    var rest := Fields(line.fields) + (" " + (Blanks(line.pad) + line.name));
    assert '\n' !in Blanks(line.pad) && '\n' !in rest;
    assert '\n' !in Padded(line.high) + rest;
  }
}
