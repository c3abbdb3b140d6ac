/** fprintf_pagemap_info (lab_proc/main.c): the scan of a buffer of map lines and
    the loop over the pages of each range. */
module MapScanner {
  import opened CStrings
  import opened MapLines
  import opened Options
  import opened PagemapFile

  /** What is printed for a page: its address, its pagemap entry and the name. */
  datatype Row = Row(addr: nat, entry: Entry, name: string)

  /** The pages of a range in order, without those whose entry cannot be read. */
  function Rows(low: nat, high: nat, name: string, pagemap: Pagemap): seq<Row>
    decreases high - low
  {
    if low >= high then [] else Page(low, name, pagemap) + Rows(low + PAGE_SIZE, high, name, pagemap)
  }

  function Page(addr: nat, name: string, pagemap: Pagemap): seq<Row> {
    match pagemap.Get(addr / PAGE_SIZE)
    case Some(entry) => [Row(addr, entry, name)]
    case None => []
  }

  function AllRows(lines: seq<Line>, pagemap: Pagemap): seq<Row> {
    if lines == [] then []
    else
      var last := lines[|lines| - 1];
      AllRows(lines[..|lines| - 1], pagemap) + Rows(last.low, last.high, last.name, pagemap)
  }

  /** The address begins a page of the range. */
  predicate Visited(low: nat, high: nat, addr: nat) {
    low <= addr < high && (addr - low) % PAGE_SIZE == 0
  }

  ghost predicate HasRow(rows: seq<Row>, addr: nat) {
    exists i :: 0 <= i < |rows| && rows[i].addr == addr
  }

  lemma {:induction false} RowsVisited(low: nat, high: nat, name: string, pagemap: Pagemap, i: nat)
    requires i < |Rows(low, high, name, pagemap)|
    ensures var row := Rows(low, high, name, pagemap)[i];
            && Visited(low, high, row.addr) && row.name == name
            && pagemap.Get(row.addr / PAGE_SIZE) == Some(row.entry)
    decreases high - low
  {
    var page := Page(low, name, pagemap);
    if i >= |page| {
      RowsVisited(low + PAGE_SIZE, high, name, pagemap, i - |page|);
      VisitedLater(low, high, Rows(low, high, name, pagemap)[i].addr);
    }
  }

  lemma {:induction false} RowsIncrease(low: nat, high: nat, name: string, pagemap: Pagemap, i: nat, j: nat)
    requires i < j < |Rows(low, high, name, pagemap)|
    ensures Rows(low, high, name, pagemap)[i].addr < Rows(low, high, name, pagemap)[j].addr
    decreases high - low
  {
    var page := Page(low, name, pagemap);
    if i >= |page| {
      RowsIncrease(low + PAGE_SIZE, high, name, pagemap, i - |page|, j - |page|);
    } else {
      RowsVisited(low + PAGE_SIZE, high, name, pagemap, j - |page|);
    }
  }

  lemma {:induction false} ReadableHasRow(low: nat, high: nat, name: string, pagemap: Pagemap, addr: nat)
    requires Visited(low, high, addr) && pagemap.Get(addr / PAGE_SIZE).Some?
    ensures HasRow(Rows(low, high, name, pagemap), addr)
    decreases high - low
  {
    var page, later := Page(low, name, pagemap), Rows(low + PAGE_SIZE, high, name, pagemap);
    if addr == low {
      assert Rows(low, high, name, pagemap)[0].addr == addr;
    } else {
      VisitedLater(low, high, addr);
      ReadableHasRow(low + PAGE_SIZE, high, name, pagemap, addr);
      var i :| 0 <= i < |later| && later[i].addr == addr;
      assert Rows(low, high, name, pagemap)[|page| + i].addr == addr;
    }
  }

  /** The rows are, in increasing order, exactly the pages of the range whose entry
      can be read, each with its own entry. */
  ghost predicate AreTheReadable(rows: seq<Row>, low: nat, high: nat, name: string, pagemap: Pagemap) {
    && (forall i :: 0 <= i < |rows| ==>
          && Visited(low, high, rows[i].addr) && rows[i].name == name
          && pagemap.Get(rows[i].addr / PAGE_SIZE) == Some(rows[i].entry))
    && (forall i, j :: 0 <= i < j < |rows| ==> rows[i].addr < rows[j].addr)
    && (forall addr: nat | Visited(low, high, addr) ::
          pagemap.Get(addr / PAGE_SIZE).Some? ==> HasRow(rows, addr))
  }

  lemma RowsAreTheReadable(low: nat, high: nat, name: string, pagemap: Pagemap)
    ensures AreTheReadable(Rows(low, high, name, pagemap), low, high, name, pagemap)
  {
    var rows := Rows(low, high, name, pagemap);
    forall i | 0 <= i < |rows|
      ensures Visited(low, high, rows[i].addr) && rows[i].name == name
      ensures pagemap.Get(rows[i].addr / PAGE_SIZE) == Some(rows[i].entry)
    {
      RowsVisited(low, high, name, pagemap, i);
    }
    forall i, j | 0 <= i < j < |rows|
      ensures rows[i].addr < rows[j].addr
    {
      RowsIncrease(low, high, name, pagemap, i, j);
    }
    forall addr: nat | Visited(low, high, addr) && pagemap.Get(addr / PAGE_SIZE).Some?
      ensures HasRow(rows, addr)
    {
      ReadableHasRow(low, high, name, pagemap, addr);
    }
  }

  /** The readable pages of every line, one line after the other. */
  ghost predicate Reported(lines: seq<Line>, pagemap: Pagemap, rows: seq<Row>)
    decreases |lines|
  {
    if lines == [] then rows == []
    else
      var last := lines[|lines| - 1];
      exists n :: 0 <= n <= |rows| && AreTheReadable(rows[n..], last.low, last.high, last.name, pagemap)
                  && Reported(lines[..|lines| - 1], pagemap, rows[..n])
  }

  lemma {:induction false} AllRowsReported(lines: seq<Line>, pagemap: Pagemap)
    ensures Reported(lines, pagemap, AllRows(lines, pagemap))
    decreases |lines|
  {
    if lines != [] {
      var before, last := lines[..|lines| - 1], lines[|lines| - 1];
      var rows, n := AllRows(lines, pagemap), |AllRows(before, pagemap)|;
      AllRowsReported(before, pagemap);
      RowsAreTheReadable(last.low, last.high, last.name, pagemap);
      assert rows[..n] == AllRows(before, pagemap);
      assert rows[n..] == Rows(last.low, last.high, last.name, pagemap);
    }
  }

  lemma VisitedLater(low: nat, high: nat, addr: nat)
    ensures Visited(low, high, addr) && addr != low ==> Visited(low + PAGE_SIZE, high, addr)
    ensures Visited(low + PAGE_SIZE, high, addr) ==> Visited(low, high, addr)
  {}

  /** When every entry of the range can be read, the rows are exactly its
      (high - low) / page consecutive pages. */
  lemma {:induction false} RowsAreThePages(low: nat, high: nat, name: string, pagemap: Pagemap, k: nat)
    requires low <= high && low % PAGE_SIZE == 0 && high % PAGE_SIZE == 0
    requires forall p :: low / PAGE_SIZE <= p < high / PAGE_SIZE ==> pagemap.Get(p).Some?
    ensures |Rows(low, high, name, pagemap)| == (high - low) / PAGE_SIZE
    ensures k < (high - low) / PAGE_SIZE ==>
              var addr := low + k * PAGE_SIZE;
              Rows(low, high, name, pagemap)[k] == Row(addr, pagemap.Get(addr / PAGE_SIZE).value, name)
    decreases high - low
  {
    if low < high {
      PagesLeft(low, high, k);
      RowsAreThePages(low + PAGE_SIZE, high, name, pagemap, if k == 0 then 0 else k - 1);
      assert |Page(low, name, pagemap)| == 1;
    }
  }

  lemma PagesLeft(low: nat, high: nat, k: nat)
    requires low < high && low % PAGE_SIZE == 0 && high % PAGE_SIZE == 0
    ensures low + PAGE_SIZE <= high && (low + PAGE_SIZE) % PAGE_SIZE == 0
    ensures (low + PAGE_SIZE) / PAGE_SIZE == low / PAGE_SIZE + 1 && low / PAGE_SIZE < high / PAGE_SIZE
    ensures (high - (low + PAGE_SIZE)) / PAGE_SIZE == (high - low) / PAGE_SIZE - 1
    ensures k > 0 ==> low + PAGE_SIZE + (k - 1) * PAGE_SIZE == low + k * PAGE_SIZE
  {}

  // ---- Pieces of the buffer ----

  predicate At(b: seq<char>, x: nat, text: string) {
    x + |text| <= |b| && b[x..x + |text|] == text
  }

  lemma AtSplit(b: seq<char>, x: nat, s: string, t: string)
    requires At(b, x, s + t)
    ensures At(b, x, s) && At(b, x + |s|, t)
  {
    assert b[x..x + |s|] == b[x..x + |s + t|][..|s|];
    assert b[x + |s|..x + |s| + |t|] == b[x..x + |s + t|][|s|..];
  }

  /** The beginning of the line that ends at i, found by searching backwards. */
  method LineStart(buffer: array<char>, i: nat, ghost start: nat) returns (x: nat)
    requires start < i < buffer.Length && '\n' !in buffer[start..i]
    requires start == 0 || buffer[start - 1] == '\n'
    ensures x == start
  {
    x := i - 1;
    while x != 0 && buffer[x] != '\n'
      invariant start <= x + 1 <= i
    {
      assert x >= start ==> buffer[start..i][x - start] != '\n';
      x := x - 1;
    }
    assert x >= start ==> buffer[start..i][x - start] != '\n';
    if buffer[x] == '\n' {
      x := x + 1;
    }
  }

  /** The accumulation of a number up to the character stop. */
  method HexField(buffer: array<char>, from: nat, stop: char, ghost text: string) returns (value: nat, x: nat)
    requires At(buffer[..], from, text) && from + |text| < buffer.Length && buffer[from + |text|] == stop
    requires Digits(text) && !IsDigit(stop) && Value(text) < WORD
    ensures value == Value(text) && x == from + |text|
  {
    value, x := 0, from;
    TextAt(buffer[..], from, text, 0);
    while buffer[x] != stop && x < buffer.Length
      invariant from <= x <= from + |text| && value == Value(text[..x - from])
      invariant x < from + |text| ==> buffer[x] == text[x - from] && IsDigit(buffer[x])
      decreases from + |text| - x
    {
      var c := buffer[x];
      OneMoreDigit(text, x - from);
      x := x + 1;
      value := value * 16 % WORD;
      if '0' <= c <= '9' {
        value := (value + (c as int - '0' as int)) % WORD;
      } else if 'a' <= c <= 'f' {
        value := (value + (c as int - 'a' as int + 10)) % WORD;
      } else {
        break;
      }
      TextAt(buffer[..], from, text, x - from);
    }
    assert text[..|text|] == text;
  }

  lemma TextAt(b: seq<char>, from: nat, text: string, k: nat)
    requires At(b, from, text) && k <= |text|
    ensures k < |text| ==> b[from + k] == text[k]
  {
    assert k < |text| ==> b[from..from + |text|][k] == b[from + k];
  }

  /** A digit extends the value without overflow as long as the number fits. */
  lemma OneMoreDigit(text: string, k: nat)
    requires Digits(text) && k < |text| && Value(text) < WORD
    ensures Value(text[..k]) * 16 % WORD == Value(text[..k]) * 16
    ensures (Value(text[..k]) * 16 + Digit(text[k])) % WORD == Value(text[..k + 1])
  {
    ValueSnoc(text, k);
    ValuePrefix(text, k + 1);
    Small(Value(text[..k]) * 16);
    Small(Value(text[..k + 1]));
  }

  lemma ValueSnoc(text: string, k: nat)
    requires Digits(text) && k < |text|
    ensures Value(text[..k + 1]) == 16 * Value(text[..k]) + Digit(text[k])
  {
    var longer := text[..k + 1];
    assert longer[..|longer| - 1] == text[..k];
  }

  lemma Small(n: nat)
    requires n < WORD
    ensures n % WORD == n
  {}

  /** Forward to the next occurrence of stop, which is at n. */
  method SkipTo(buffer: array<char>, from: nat, stop: char, ghost n: nat) returns (x: nat)
    requires from <= n < buffer.Length && buffer[n] == stop && stop !in buffer[from..n]
    ensures x == n
  {
    x := from;
    while buffer[x] != stop && x < buffer.Length
      invariant from <= x <= n
      decreases n - x
    {
      assert x == n || buffer[from..n][x - from] != stop;
      x := x + 1;
    }
  }

  /** A field between two blanks. */
  lemma OneField(b: seq<char>, x: nat, f: string, rest: string)
    requires At(b, x, (" " + f + rest) + " ") && (rest == "" || rest[0] == ' ')
    ensures At(b, x + 1, f) && At(b, x + 1 + |f|, rest + " ") && b[x + 1 + |f|] == ' '
  {
    assert (" " + f + rest) + " " == " " + (f + (rest + " "));
    AtSplit(b, x, " ", f + (rest + " "));
    AtSplit(b, x + 1, f, rest + " ");
    TextAt(b, x + 1 + |f|, rest + " ", 0);
  }

  /** Past the four fields between the range and the name. */
  method SkipFields(buffer: array<char>, from: nat, ghost fields: seq<string>) returns (x: nat)
    requires |fields| == 4 && forall k :: 0 <= k < 4 ==> Plain(fields[k])
    requires At(buffer[..], from, Fields(fields) + " ")
    ensures x == from + |Fields(fields)|
  {
    x := from;
    assert fields[0..] == fields;
    for field := 0 to 4
      invariant At(buffer[..], x, Fields(fields[field..]) + " ")
      invariant x + |Fields(fields[field..])| == from + |Fields(fields)|
    {
      ghost var f := fields[field];
      assert fields[field..][0] == f && fields[field..][1..] == fields[field + 1..];
      OneField(buffer[..], x, f, Fields(fields[field + 1..]));
      assert buffer[x + 1..x + 1 + |f|] == f;
      x := SkipTo(buffer, x + 1, ' ', x + 1 + |f|);
    }
  }

  /** Over the blanks before the name. */
  method SkipBlanks(buffer: array<char>, from: nat, ghost n: nat) returns (x: nat)
    requires from <= n < buffer.Length && buffer[n] != ' '
    requires forall k :: from <= k < n ==> buffer[k] == ' '
    ensures x == n
  {
    x := from;
    while buffer[x] == ' ' && x < buffer.Length
      invariant from <= x <= n
    {
      x := x + 1;
    }
  }

  // ---- One line ----

  /** The range stands at start and ends at x. */
  ghost predicate RangeStands(b: seq<char>, start: nat, low: string, high: string, x: nat) {
    && At(b, start, low) && At(b, start + |low|, "-")
    && At(b, start + |low| + 1, high) && x == start + |low| + 1 + |high| && At(b, x, " ")
  }

  /** The fields stand at x, and the name behind them from n up to a newline. */
  ghost predicate NameStands(b: seq<char>, x: nat, fields: seq<string>, pad: nat, name: string, n: nat) {
    && At(b, x, Fields(fields) + " ") && At(b, x + |Fields(fields)|, " ")
    && At(b, x + |Fields(fields)| + 1, Blanks(pad)) && n == x + |Fields(fields)| + 1 + pad
    && At(b, n, name) && At(b, n + |name|, "\n")
  }

  /** The parts of a line, of which only the texts matter here. */
  lemma LineParts(b: seq<char>, start: nat, low: string, high: string, fields: string, blanks: string, name: string)
    requires At(b, start, (low + ("-" + (high + (fields + (" " + (blanks + name)))))) + "\n")
    ensures var x := start + |low| + 1 + |high|;
            && At(b, start, low) && At(b, start + |low|, "-") && At(b, start + |low| + 1, high)
            && At(b, x, fields + (" " + (blanks + name)))
            && At(b, x + |fields| + 1 + |blanks| + |name|, "\n")
  {
    var three := high + (fields + (" " + (blanks + name)));
    AtSplit(b, start, low + ("-" + three), "\n");
    AtSplit(b, start, low, "-" + three);
    AtSplit(b, start + |low|, "-", three);
    AtSplit(b, start + |low| + 1, high, fields + (" " + (blanks + name)));
  }

  lemma LineEndParts(b: seq<char>, x: nat, fields: string, blanks: string, name: string)
    requires At(b, x, fields + (" " + (blanks + name)))
    ensures At(b, x, fields) && At(b, x, fields + " ") && At(b, x + |fields|, " ")
    ensures At(b, x + |fields| + 1, blanks) && At(b, x + |fields| + 1 + |blanks|, name)
  {
    assert fields + (" " + (blanks + name)) == (fields + " ") + (blanks + name);
    AtSplit(b, x, fields + " ", blanks + name);
    AtSplit(b, x, fields, " ");
    AtSplit(b, x + |fields| + 1, blanks, name);
  }

  lemma FieldsBegin(b: seq<char>, x: nat, fields: seq<string>)
    requires fields != [] && At(b, x, Fields(fields))
    ensures At(b, x, " ")
  {
    assert Fields(fields) == " " + (fields[0] + Fields(fields[1..]));
    AtSplit(b, x, " ", fields[0] + Fields(fields[1..]));
  }

  lemma NameFacts(b: seq<char>, x: nat, fields: seq<string>, pad: nat, name: string)
    requires fields != [] && At(b, x, Fields(fields) + (" " + (Blanks(pad) + name)))
    requires At(b, x + |Fields(fields)| + 1 + pad + |name|, "\n")
    ensures At(b, x, " ") && NameStands(b, x, fields, pad, name, x + |Fields(fields)| + 1 + pad)
  {
    LineEndParts(b, x, Fields(fields), Blanks(pad), name);
    FieldsBegin(b, x, fields);
  }

  /** What the parse of the line needs to know: the texts of its numbers and where
      they and the name stand. */
  lemma LineFacts(b: seq<char>, start: nat, line: Line) returns (low: string, high: string, x: nat, n: nat)
    requires WellFormed(line) && At(b, start, Print(line))
    ensures Digits(low) && Value(low) == line.low && Digits(high) && Value(high) == line.high
    ensures RangeStands(b, start, low, high, x)
    ensures NameStands(b, x, line.fields, line.pad, line.name, n)
    ensures start + |Print(line)| == n + |line.name| + 1
  {
    PrintIsBody(line);
    low, high := Padded(line.low), Padded(line.high);
    x := start + |low| + 1 + |high|;
    n := x + |Fields(line.fields)| + 1 + line.pad;
    LineParts(b, start, low, high, Fields(line.fields), Blanks(line.pad), line.name);
    NameFacts(b, x, line.fields, line.pad, line.name);
    ValueOfPadded(line.low);
    ValueOfPadded(line.high);
  }

  lemma NoEarlierNewline(b: seq<char>, start: nat, line: Line)
    requires WellFormed(line) && At(b, start, Print(line))
    ensures |Print(line)| > 1 && '\n' !in b[start..start + |Print(line)| - 1]
  {
    PrintIsBody(line);
    BodyIsOneLine(line);
    AtSplit(b, start, Body(line), "\n");
  }

  /** The two numbers of the line from start to i. */
  method ParseRange(buffer: array<char>, i: nat, ghost start: nat, ghost lowText: string, ghost highText: string,
                    ghost end: nat)
    returns (low: nat, high: nat, x: nat)
    requires start < i < buffer.Length && '\n' !in buffer[start..i]
    requires start == 0 || buffer[start - 1] == '\n'
    requires Digits(lowText) && Value(lowText) < WORD && Digits(highText) && Value(highText) < WORD
    requires RangeStands(buffer[..], start, lowText, highText, end)
    ensures low == Value(lowText) && high == Value(highText) && x == end
  {
    ghost var dash := start + |lowText|;
    TextAt(buffer[..], dash, "-", 0);
    TextAt(buffer[..], dash + 1 + |highText|, " ", 0);
    x := LineStart(buffer, i, start);
    low, x := HexField(buffer, x, '-', lowText);
    x := SkipTo(buffer, x, '-', dash);
    if buffer[x] == '-' {
      x := x + 1;
    }
    high, x := HexField(buffer, x, ' ', highText);
  }

  /** The name of the line: from x up to y. */
  method ParseName(buffer: array<char>, from: nat, ghost fields: seq<string>, ghost pad: nat, ghost name: string,
                   ghost n: nat)
    returns (x: nat, y: nat)
    requires |fields| == 4 && forall k :: 0 <= k < 4 ==> Plain(fields[k])
    requires NameStands(buffer[..], from, fields, pad, name, n)
    requires '\n' !in name && (name != "" ==> name[0] != ' ')
    ensures x == n && y == n + |name| < buffer.Length
    ensures At(buffer[..], n, name) && buffer[y] == '\n'
  {
    x := SkipFields(buffer, from, fields);
    NameFollows(buffer[..], x, pad, name);
    x := SkipBlanks(buffer, x, n);
    TextAt(buffer[..], n + |name|, "\n", 0);
    assert buffer[n..n + |name|] == buffer[..][n..n + |name|];
    y := SkipTo(buffer, x, '\n', n + |name|);
  }

  /** After the last blank the name begins, or the line ends. */
  lemma NameFollows(b: seq<char>, x: nat, pad: nat, name: string)
    requires At(b, x, " ") && At(b, x + 1, Blanks(pad)) && At(b, x + 1 + pad, name)
    requires At(b, x + 1 + pad + |name|, "\n") && (name != "" ==> name[0] != ' ')
    ensures forall k :: x <= k < x + 1 + pad ==> b[k] == ' '
    ensures x + 1 + pad < |b| && b[x + 1 + pad] != ' '
  {
    TextAt(b, x, " ", 0);
    TextAt(b, x + 1 + pad, name, 0);
    TextAt(b, x + 1 + pad + |name|, "\n", 0);
    forall k | x < k < x + 1 + pad
      ensures b[k] == ' '
    {
      TextAt(b, x + 1, Blanks(pad), k - x - 1);
    }
  }

  /** The terminator put in place of the newline, and the name read up to it. */
  method TakeName(buffer: array<char>, x: nat, y: nat, ghost name: string) returns (libName: string)
    requires y == x + |name| < buffer.Length && At(buffer[..], x, name) && '\0' !in name
    modifies buffer
    ensures buffer[..] == old(buffer[..])[y := '\0'] && libName == name
  {
    buffer[y] := '\0';
    assert buffer[x..][..|name|] == old(buffer[..])[x..x + |name|];
    CStringIs(buffer[x..], name);
    libName := CString(buffer[x..]);
  }

  /** The loop over the pages of a range. */
  method PageLoop(low: nat, high: nat, name: string, pagemap: Pagemap) returns (rows: seq<Row>)
    requires low <= high < WORD && low % PAGE_SIZE == 0 && high % PAGE_SIZE == 0
    ensures rows == Rows(low, high, name, pagemap)
  {
    rows := [];
    var addr := low;
    while addr < high
      invariant low <= addr <= high && addr % PAGE_SIZE == 0
      invariant rows + Rows(addr, high, name, pagemap) == Rows(low, high, name, pagemap)
    {
      NextPage(addr, high);
      RowsAssociate(rows, Page(addr, name, pagemap), Rows(addr + PAGE_SIZE, high, name, pagemap));
      var result := PagemapGetEntry(pagemap, addr);
      match result {
        case Some(entry) => rows := rows + [Row(addr, entry, name)];
        case None =>
      }
      addr := (addr + PAGE_SIZE) % WORD;
    }
  }

  /** Between two page boundaries the address never passes the upper one, so it
      does not wrap round. */
  lemma NextPage(addr: nat, high: nat)
    requires addr < high < WORD && addr % PAGE_SIZE == 0 && high % PAGE_SIZE == 0
    ensures addr + PAGE_SIZE <= high && (addr + PAGE_SIZE) % PAGE_SIZE == 0
    ensures (addr + PAGE_SIZE) % WORD == addr + PAGE_SIZE
  {}

  lemma RowsAssociate(before: seq<Row>, page: seq<Row>, after: seq<Row>)
    ensures before + (page + after) == (before + page) + after
    ensures page == [] ==> before + (page + after) == before + after
  {}

  predicate Aligned(line: Line) {
    line.low % PAGE_SIZE == 0 && line.high % PAGE_SIZE == 0
  }

  /** The numbers of the line that ends at i, and where its name lies. */
  method ParseLine(buffer: array<char>, i: nat, ghost start: nat, ghost line: Line)
    returns (low: nat, high: nat, x: nat, y: nat)
    requires WellFormed(line)
    requires At(buffer[..], start, Print(line)) && i == start + |Print(line)| - 1
    requires start == 0 || buffer[start - 1] == '\n'
    ensures low == line.low && high == line.high
    ensures At(buffer[..], x, line.name) && y == x + |line.name| < buffer.Length && buffer[y] == '\n'
  {
    ghost var lowText, highText, end, n := LineFacts(buffer[..], start, line);
    NoEarlierNewline(buffer[..], start, line);
    low, high, x := ParseRange(buffer, i, start, lowText, highText, end);
    x, y := ParseName(buffer, x, line.fields, line.pad, line.name, n);
  }

  /** How many pages a range has. */
  function PageCount(line: Line): int {
    (line.high - line.low) / PAGE_SIZE
  }

  /** One newline of the buffer: the parse, the page count, the page loop, and the
      temporary terminator of the name. */
  method HandleLine(buffer: array<char>, i: nat, buf: array<int>, r: nat, pagemap: Pagemap,
                    ghost start: nat, ghost line: Line)
    returns (rows: seq<Row>)
    requires WellFormed(line) && Aligned(line)
    requires At(buffer[..], start, Print(line)) && i == start + |Print(line)| - 1
    requires (start == 0 || buffer[start - 1] == '\n') && r < buf.Length
    modifies buffer, buf
    ensures buffer[..] == old(buffer[..]) && buf[..] == old(buf[..])[r := PageCount(line)]
    ensures rows == Rows(line.low, line.high, line.name, pagemap)
  {
    var low, high, x, y := ParseLine(buffer, i, start, line);
    rows := ReportRange(buffer, x, y, buf, r, low, high, pagemap, line.name);
  }

  /** The report on a range whose name lies from x up to y. */
  method ReportRange(buffer: array<char>, x: nat, y: nat, buf: array<int>, r: nat, low: nat, high: nat,
                     pagemap: Pagemap, ghost name: string)
    returns (rows: seq<Row>)
    requires low <= high < WORD && low % PAGE_SIZE == 0 && high % PAGE_SIZE == 0 && r < buf.Length
    requires At(buffer[..], x, name) && '\0' !in name && y == x + |name| < buffer.Length && buffer[y] == '\n'
    modifies buffer, buf
    ensures buffer[..] == old(buffer[..]) && buf[..] == old(buf[..])[r := (high - low) / PAGE_SIZE]
    ensures rows == Rows(low, high, name, pagemap)
  {
    var libName := TakeName(buffer, x, y, name);
    buf[r] := (high - low) / PAGE_SIZE;
    rows := PageLoop(low, high, libName, pagemap);
    PutBack(buffer, y, old(buffer[..]));
  }

  /** The newline again in the place of the terminator. */
  method PutBack(buffer: array<char>, y: nat, ghost before: seq<char>)
    requires y < buffer.Length == |before| && before[y] == '\n' && buffer[..] == before[y := '\0']
    modifies buffer
    ensures buffer[..] == before
  {
    buffer[y] := '\n';
    assert buffer[..] == before[y := '\0'][y := '\n'];
  }

  // ---- The whole buffer ----

  /** A text that ends with a newline, has no other, and is not empty before it. */
  predicate OneLine(text: string) {
    |text| > 1 && text[|text| - 1] == '\n' && forall k :: 0 <= k < |text| - 1 ==> text[k] != '\n'
  }

  lemma PrintIsOneLine(line: Line)
    requires WellFormed(line)
    ensures OneLine(Print(line))
  {
    PrintIsBody(line);
    BodyIsOneLine(line);
  }

  lemma JoinSnoc(texts: seq<string>, k: nat)
    requires k < |texts|
    ensures Join(texts[..k + 1]) == Join(texts[..k]) + texts[k]
  {
    assert texts[..k + 1][..k] == texts[..k];
  }

  /** Each text stands behind the ones before it. */
  lemma {:induction false} TextPosition(texts: seq<string>, k: nat)
    requires k < |texts|
    ensures At(Join(texts), |Join(texts[..k])|, texts[k])
    ensures Join(texts)[..|Join(texts[..k])|] == Join(texts[..k])
    decreases |texts|
  {
    var last := |texts| - 1;
    var before := texts[..last];
    if k < last {
      assert before[..k] == texts[..k];
      TextPosition(before, k);
      LongerText(Join(before), texts[last], |Join(texts[..k])|, texts[k]);
    }
  }

  lemma LongerText(whole: string, more: string, at: nat, text: string)
    requires At(whole, at, text)
    ensures At(whole + more, at, text) && (whole + more)[..at] == whole[..at]
  {
    assert (whole + more)[at..at + |text|] == whole[at..at + |text|];
  }

  /** k texts lie behind the position i, and the next one contains it. */
  ghost predicate Inside(texts: seq<string>, k: nat, i: nat) {
    && k <= |texts| && |Join(texts[..k])| <= i
    && (if k < |texts| then i < |Join(texts[..k])| + |texts[k]| else i == |Join(texts[..k])|)
  }

  /** The text at a position of the buffer: it stands there completely, it follows
      a newline or the beginning, and it has its newline at its end. */
  lemma TextAround(b: seq<char>, length: nat, texts: seq<string>, k: nat, i: nat)
    requires length <= |b| && b[..length] == Join(texts) && i < length && Inside(texts, k, i)
    requires forall j :: 0 <= j < |texts| ==> OneLine(texts[j])
    ensures k < |texts|
    ensures var start := |Join(texts[..k])|;
            && At(b, start, texts[k]) && (start == 0 || b[start - 1] == '\n')
            && (b[i] == '\n' <==> i == start + |texts[k]| - 1)
  {
    assert texts[..|texts|] == texts;
    assert k < |texts|;
    var start := |Join(texts[..k])|;
    TextPosition(texts, k);
    LongerText(b[..length], b[length..], start, texts[k]);
    assert b[..length] + b[length..] == b;
    TextAt(b, start, texts[k], i - start);
    if start > 0 {
      BeforeText(texts, k);
      assert b[start - 1] == b[..length][..start][start - 1];
    }
  }

  lemma BeforeText(texts: seq<string>, k: nat)
    requires k <= |texts| && Join(texts[..k]) != ""
    requires forall j :: 0 <= j < |texts| ==> OneLine(texts[j])
    ensures Join(texts[..k])[|Join(texts[..k])| - 1] == '\n'
  {
    assert k > 0;
    JoinSnoc(texts, k - 1);
    assert OneLine(texts[k - 1]);
  }

  /** The next position, on the same text or at the beginning of the next one. */
  lemma Advance(texts: seq<string>, k: nat, i: nat)
    requires k < |texts| && Inside(texts, k, i)
    requires forall j :: 0 <= j < |texts| ==> OneLine(texts[j])
    ensures i < |Join(texts[..k])| + |texts[k]| - 1 ==> Inside(texts, k, i + 1)
    ensures i == |Join(texts[..k])| + |texts[k]| - 1 ==> Inside(texts, k + 1, i + 1)
  {
    JoinSnoc(texts, k);
    if k + 1 < |texts| {
      assert OneLine(texts[k + 1]);
    }
  }

  lemma AllRowsSnoc(lines: seq<Line>, k: nat, pagemap: Pagemap)
    requires k < |lines|
    ensures AllRows(lines[..k + 1], pagemap)
         == AllRows(lines[..k], pagemap) + Rows(lines[k].low, lines[k].high, lines[k].name, pagemap)
  {
    assert lines[..k + 1][..k] == lines[..k];
  }

  lemma AllHandled(texts: seq<string>, k: nat, length: nat)
    requires Inside(texts, k, length) && length == |Join(texts)|
    ensures k == |texts|
  {
    if k < |texts| {
      TextPosition(texts, k);
    }
  }

  /** From r0 on, buf holds the page counts of the first k lines, and before that
      what it held at first. */
  ghost predicate Counted(buf: seq<int>, first: seq<int>, r0: nat, lines: seq<Line>, k: nat) {
    && k <= |lines| && r0 + k <= |buf| == |first| && buf[..r0] == first[..r0]
    && forall j :: 0 <= j < k ==> buf[r0 + j] == PageCount(lines[j])
  }

  lemma OneMoreCount(buf: seq<int>, first: seq<int>, r0: nat, lines: seq<Line>, k: nat)
    requires Counted(buf, first, r0, lines, k) && k < |lines| && r0 + k < |buf|
    ensures Counted(buf[r0 + k := PageCount(lines[k])], first, r0, lines, k + 1)
  {}

  /** The texts of lines, with what is asked of the lines. */
  ghost predicate Printed(lines: seq<Line>, texts: seq<string>) {
    && |texts| == |lines|
    && forall k :: 0 <= k < |lines| ==>
         WellFormed(lines[k]) && Aligned(lines[k]) && texts[k] == Print(lines[k])
  }

  lemma PrintedOneLine(lines: seq<Line>, texts: seq<string>)
    requires Printed(lines, texts)
    ensures forall k :: 0 <= k < |texts| ==> OneLine(texts[k])
  {
    forall k | 0 <= k < |texts|
      ensures OneLine(texts[k])
    {
      PrintIsOneLine(lines[k]);
    }
  }

  lemma Begin(lines: seq<Line>) returns (texts: seq<string>)
    requires forall k :: 0 <= k < |lines| ==> WellFormed(lines[k]) && Aligned(lines[k])
    ensures Printed(lines, texts) && PrintAll(lines) == Join(texts) && Inside(texts, 0, 0)
    ensures lines[..0] == [] && lines[..|lines|] == lines
  {
    texts := Texts(lines);
    PrintedOneLine(lines, texts);
    assert texts[..0] == [];
  }

  /** One position of the scan: a newline behind the first position is the end of
      text k, and any other character lies inside it. */
  lemma OnePosition(b: seq<char>, length: nat, texts: seq<string>, k: nat, i: nat) returns (start: nat)
    requires length <= |b| && b[..length] == Join(texts)
    requires i < length && Inside(texts, k, i)
    requires forall j :: 0 <= j < |texts| ==> OneLine(texts[j])
    ensures k < |texts|
    ensures At(b, start, texts[k]) && (start == 0 || b[start - 1] == '\n')
    ensures b[i] == '\n' && i > 0 ==> i == start + |texts[k]| - 1 && Inside(texts, k + 1, i + 1)
    ensures !(b[i] == '\n' && i > 0) ==> Inside(texts, k, i + 1)
  {
    TextAround(b, length, texts, k, i);
    start := |Join(texts[..k])|;
    Advance(texts, k, i);
    assert OneLine(texts[k]);
  }

  /** What has been printed: the next free place in buf, and the rows. */
  datatype Progress = Progress(r: nat, rows: seq<Row>)

  /** A scan to be made: the lines, what buf holds before it, and where in buf
      their page counts go. */
  datatype Job = Job(lines: seq<Line>, first: seq<int>, r0: nat)

  /** After k lines: their page counts are in buf, and their rows have been
      printed, in order. */
  ghost predicate Scanned(job: Job, k: nat, pagemap: Pagemap, buf: seq<int>, p: Progress) {
    && Counted(buf, job.first, job.r0, job.lines, k)
    && p == Progress(job.r0 + k, AllRows(job.lines[..k], pagemap))
  }

  lemma NextScanned(job: Job, k: nat, pagemap: Pagemap, buf: seq<int>, p: Progress)
    requires Scanned(job, k, pagemap, buf, p) && k < |job.lines| && p.r < |buf|
    ensures var line := job.lines[k];
            Scanned(job, k + 1, pagemap, buf[p.r := PageCount(line)],
                    Progress(p.r + 1, p.rows + Rows(line.low, line.high, line.name, pagemap)))
  {
    OneMoreCount(buf, job.first, job.r0, job.lines, k);
    AllRowsSnoc(job.lines, k, pagemap);
  }

  /** The work at the end of line k. */
  method EndOfLine(buffer: array<char>, i: nat, buf: array<int>, p: Progress, pagemap: Pagemap,
                   ghost start: nat, ghost job: Job, ghost k: nat)
    returns (p': Progress)
    requires k < |job.lines| && WellFormed(job.lines[k]) && Aligned(job.lines[k]) && p.r < buf.Length
    requires At(buffer[..], start, Print(job.lines[k])) && i == start + |Print(job.lines[k])| - 1
    requires start == 0 || buffer[start - 1] == '\n'
    requires Scanned(job, k, pagemap, buf[..], p)
    modifies buffer, buf
    ensures buffer[..] == old(buffer[..]) && Scanned(job, k + 1, pagemap, buf[..], p')
  {
    ghost var line := job.lines[k];
    NextScanned(job, k, pagemap, buf[..], p);
    var more := HandleLine(buffer, i, buf, p.r, pagemap, start, line);
    p' := Progress(p.r + 1, p.rows + more);
  }

  /** Where a scan stands: the texts of the job's lines, and in which of them. */
  datatype Place = Place(texts: seq<string>, k: nat)

  ghost predicate StandsAt(job: Job, place: Place, b: seq<char>, i: nat) {
    var whole := Join(place.texts);
    && Printed(job.lines, place.texts) && |whole| <= |b| && b[..|whole|] == whole
    && Inside(place.texts, place.k, i)
  }

  /** One character of the buffer. */
  method ScanCharacter(buffer: array<char>, i: nat, buf: array<int>, p: Progress, pagemap: Pagemap,
                       ghost job: Job, ghost place: Place)
    returns (p': Progress, ghost place': Place)
    requires StandsAt(job, place, buffer[..], i) && i < |Join(place.texts)|
    requires job.r0 + |job.lines| <= buf.Length && Scanned(job, place.k, pagemap, buf[..], p)
    modifies buffer, buf
    ensures buffer[..] == old(buffer[..]) && place'.texts == place.texts
    ensures StandsAt(job, place', buffer[..], i + 1) && Scanned(job, place'.k, pagemap, buf[..], p')
  {
    ghost var texts, k := place.texts, place.k;
    PrintedOneLine(job.lines, texts);
    ghost var start := OnePosition(buffer[..], |Join(texts)|, texts, k, i);
    p', place' := p, place;
    if buffer[i] == '\n' && i > 0 {
      p' := EndOfLine(buffer, i, buf, p, pagemap, start, job, k);
      place' := Place(texts, k + 1);
    }
  }

  /** The scan of one buffer of whole lines: it recovers exactly the printed
      ranges and names, in order, appends the page counts to buf, and leaves the
      buffer as it was. */
  method ScanBuffer(buffer: array<char>, length: nat, buf: array<int>, r0: nat,
                    pagemap: Pagemap, ghost lines: seq<Line>)
    returns (p: Progress)
    requires length <= buffer.Length && buffer[..length] == PrintAll(lines)
    requires forall k :: 0 <= k < |lines| ==> WellFormed(lines[k]) && Aligned(lines[k])
    requires r0 + |lines| <= buf.Length
    modifies buffer, buf
    ensures buffer[..] == old(buffer[..])
    ensures Scanned(Job(lines, old(buf[..]), r0), |lines|, pagemap, buf[..], p)
    ensures p.rows == AllRows(lines, pagemap)
  {
    p := Progress(r0, []);
    ghost var texts := Begin(lines);
    ghost var job, place := Job(lines, buf[..], r0), Place(texts, 0);
    var i := 0;
    while i < length
      invariant 0 <= i <= length && place.texts == texts && StandsAt(job, place, buffer[..], i)
      invariant buffer[..] == old(buffer[..])
      invariant Scanned(job, place.k, pagemap, buf[..], p)
    {
      p, place := ScanCharacter(buffer, i, buf, p, pagemap, job, place);
      i := i + 1;
    }
    AllHandled(texts, place.k, length);
  }

  // ---- The whole file ----

  /** The lines of all chunks, in order. */
  function AllLines(chunks: seq<seq<Line>>): seq<Line> {
    if chunks == [] then [] else AllLines(chunks[..|chunks| - 1]) + chunks[|chunks| - 1]
  }

  lemma {:induction false} AllRowsAppend(before: seq<Line>, lines: seq<Line>, pagemap: Pagemap)
    ensures AllRows(before + lines, pagemap) == AllRows(before, pagemap) + AllRows(lines, pagemap)
    decreases |lines|
  {
    if lines == [] {
      assert before + lines == before;
    } else {
      var fewer := lines[..|lines| - 1];
      assert (before + lines)[..|before + lines| - 1] == before + fewer;
      AllRowsAppend(before, fewer, pagemap);
    }
  }

  lemma CountsAppend(first: seq<int>, middle: seq<int>, last: seq<int>, before: seq<Line>, lines: seq<Line>)
    requires Counted(middle, first, 0, before, |before|)
    requires Counted(last, middle, |before|, lines, |lines|)
    ensures Counted(last, first, 0, before + lines, |before + lines|)
  {
    forall j | 0 <= j < |before + lines|
      ensures last[j] == PageCount((before + lines)[j])
    {
      if j < |before| {
        assert last[j] == last[..|before|][j] == middle[..|before|][j] == middle[0 + j];
      } else {
        assert last[|before| + (j - |before|)] == PageCount(lines[j - |before|]);
      }
    }
  }

  lemma ScannedAppend(before: Job, lines: seq<Line>, pagemap: Pagemap,
                      middle: seq<int>, last: seq<int>, p: Progress, more: Progress)
    requires before.r0 == 0 && Scanned(before, |before.lines|, pagemap, middle, p)
    requires Scanned(Job(lines, middle, p.r), |lines|, pagemap, last, more)
    ensures var all := before.lines + lines;
            Scanned(Job(all, before.first, 0), |all|, pagemap, last, Progress(more.r, p.rows + more.rows))
  {
    var all := before.lines + lines;
    assert before.lines[..|before.lines|] == before.lines && lines[..|lines|] == lines && all[..|all|] == all;
    CountsAppend(before.first, middle, last, before.lines, lines);
    AllRowsAppend(before.lines, lines, pagemap);
  }

  /** read: it puts text at the beginning of the buffer, over what is there. */
  method Read(buffer: array<char>, text: string)
    requires |text| <= buffer.Length
    modifies buffer
    ensures buffer[..|text|] == text && buffer[|text|..] == old(buffer[|text|..])
  {
    forall k | 0 <= k < |text| {
      buffer[k] := text[k];
    }
  }

  lemma {:induction false} FewerLines(chunks: seq<seq<Line>>, j: nat)
    requires j <= |chunks|
    ensures |AllLines(chunks[..j])| <= |AllLines(chunks)|
    ensures j < |chunks| ==> AllLines(chunks[..j + 1]) == AllLines(chunks[..j]) + chunks[j]
    decreases |chunks| - j
  {
    if j == |chunks| {
      assert chunks[..j] == chunks;
    } else {
      assert chunks[..j + 1][..j] == chunks[..j];
      FewerLines(chunks, j + 1);
    }
  }

  /** One turn of the outer loop, after the lines so far. */
  method ReadChunk(buffer: array<char>, buf: array<int>, text: string, p: Progress,
                   pagemap: Pagemap, ghost before: Job, ghost chunk: seq<Line>)
    returns (p': Progress)
    requires text == PrintAll(chunk) && |text| <= buffer.Length && p.r + |chunk| <= buf.Length
    requires forall k :: 0 <= k < |chunk| ==> WellFormed(chunk[k]) && Aligned(chunk[k])
    requires before.r0 == 0 && Scanned(before, |before.lines|, pagemap, buf[..], p)
    modifies buffer, buf
    ensures Scanned(before.(lines := before.lines + chunk), |before.lines + chunk|, pagemap, buf[..], p')
  {
    ghost var middle := buf[..];
    Read(buffer, text);
    var more := ScanBuffer(buffer, |text|, buf, p.r, pagemap, chunk);
    p' := Progress(more.r, p.rows + more.rows);
    ScannedAppend(before, chunk, pagemap, middle, buf[..], p, more);
  }

  /** What is left of a scan: for every line the number of 4096-byte pages of its
      range, and the readable ones of these pages. */
  ghost predicate CountsAndRows(lines: seq<Line>, pagemap: Pagemap, buf: seq<int>, p: Progress) {
    && p.r == |lines| <= |buf| && Reported(lines, pagemap, p.rows)
    && forall k :: 0 <= k < |lines| ==> buf[k] * 4096 == lines[k].high - lines[k].low
  }

  lemma ScannedIs(job: Job, pagemap: Pagemap, buf: seq<int>, p: Progress)
    requires job.r0 == 0 && Scanned(job, |job.lines|, pagemap, buf, p)
    requires forall k :: 0 <= k < |job.lines| ==> Aligned(job.lines[k])
    ensures CountsAndRows(job.lines, pagemap, buf, p)
  {
    assert job.lines[..|job.lines|] == job.lines;
    AllRowsReported(job.lines, pagemap);
    forall k | 0 <= k < |job.lines|
      ensures buf[k] * 4096 == job.lines[k].high - job.lines[k].low
    {
      WholePages(job.lines[k]);
      assert buf[0 + k] == PageCount(job.lines[k]);
    }
  }

  lemma WholePages(line: Line)
    requires Aligned(line)
    ensures PageCount(line) * 4096 == line.high - line.low
  {}

  /** The whole file, read in pieces that each end with a line: whatever an earlier
      read left in the buffer, every line is reported once, in order. */
  method FprintfPagemapInfo(buffer: array<char>, buf: array<int>, texts: seq<string>,
                            pagemap: Pagemap, ghost chunks: seq<seq<Line>>)
    returns (p: Progress)
    requires |chunks| == |texts| && |AllLines(chunks)| <= buf.Length
    requires forall j :: 0 <= j < |texts| ==> texts[j] == PrintAll(chunks[j]) && 0 < |texts[j]| <= buffer.Length
    requires forall j, k :: 0 <= j < |chunks| && 0 <= k < |chunks[j]| ==>
               WellFormed(chunks[j][k]) && Aligned(chunks[j][k])
    modifies buffer, buf
    ensures Scanned(Job(AllLines(chunks), old(buf[..]), 0), |AllLines(chunks)|, pagemap, buf[..], p)
    ensures p.rows == AllRows(AllLines(chunks), pagemap)
    ensures CountsAndRows(AllLines(chunks), pagemap, buf[..], p)
  {
    p := Progress(0, []);
    ghost var job := Job([], buf[..], 0);
    for j := 0 to |texts|
      invariant job == Job(AllLines(chunks[..j]), old(buf[..]), 0)
      invariant Scanned(job, |job.lines|, pagemap, buf[..], p)
    {
      FewerLines(chunks, j);
      FewerLines(chunks, j + 1);
      p := ReadChunk(buffer, buf, texts[j], p, pagemap, job, chunks[j]);
      job := job.(lines := job.lines + chunks[j]);
    }
    assert chunks[..|texts|] == chunks && job.lines[..|job.lines|] == job.lines;
    EveryLineAligned(chunks);
    ScannedIs(job, pagemap, buf[..], p);
  }

  lemma {:induction false} EveryLineAligned(chunks: seq<seq<Line>>)
    requires forall j, k :: 0 <= j < |chunks| && 0 <= k < |chunks[j]| ==> Aligned(chunks[j][k])
    ensures forall k :: 0 <= k < |AllLines(chunks)| ==> Aligned(AllLines(chunks)[k])
    decreases |chunks|
  {
    if chunks != [] {
      EveryLineAligned(chunks[..|chunks| - 1]);
    }
  }
}
