/** The fortune module's message store (lab_module/task_03/fortune.c): a byte
    array with a write index and a read index. */
module CookiePot {

  const COOKIE_POT_SIZE := 4096
  const ENOSPC := 28
  const EFAULT := 14

  // ---- The store as a list of messages ----

  /** Messages one after the other, each with its terminator. */
  function Flatten(messages: seq<string>): string {
    if messages == [] then "" else Flatten(messages[..|messages| - 1]) + messages[|messages| - 1] + "\0"
  }

  /** The messages in a byte string, one for every terminator. */
  function Split(bytes: string): seq<string>
    decreases |bytes|
  {
    if bytes == "" || bytes[|bytes| - 1] != '\0' then []
    else
      var before := bytes[..|bytes| - 1];
      var n := LastStart(before);
      Split(before[..n]) + [before[n..]]
  }

  /** Where the text after the last terminator begins. */
  function LastStart(bytes: string): (n: nat)
    ensures n <= |bytes| && '\0' !in bytes[n..]
    ensures n > 0 ==> bytes[n - 1] == '\0'
  {
    if bytes == "" || bytes[|bytes| - 1] == '\0' then |bytes|
    else
      var n := LastStart(bytes[..|bytes| - 1]);
      assert bytes[n..] == bytes[..|bytes| - 1][n..] + [bytes[|bytes| - 1]];
      n
  }

  predicate Clean(messages: seq<string>) {
    forall k :: 0 <= k < |messages| ==> '\0' !in messages[k]
  }

  lemma {:induction false} FlattenAppend(a: seq<string>, b: seq<string>)
    ensures Flatten(a + b) == Flatten(a) + Flatten(b)
    decreases |b|
  {
    if b == [] {
      assert a + b == a;
    } else {
      assert (a + b)[..|a + b| - 1] == a + b[..|b| - 1];
      FlattenAppend(a, b[..|b| - 1]);
    }
  }

  /** Splitting loses nothing of a string that ends with a terminator. */
  lemma {:induction false} SplitFlatten(bytes: string)
    requires bytes != "" ==> bytes[|bytes| - 1] == '\0'
    ensures Flatten(Split(bytes)) == bytes && Clean(Split(bytes))
    decreases |bytes|
  {
    if bytes != "" {
      var before := bytes[..|bytes| - 1];
      var n := LastStart(before);
      var head, last := Split(before[..n]), before[n..];
      SplitFlatten(before[..n]);
      FlattenOne(head, last);
      ThreeParts(bytes, n);
    }
  }

  lemma ThreeParts(bytes: string, n: nat)
    requires n < |bytes| && bytes[|bytes| - 1] == '\0'
    ensures var before := bytes[..|bytes| - 1]; before[..n] + before[n..] + "\0" == bytes
  {}

  lemma FlattenOne(head: seq<string>, last: string)
    ensures Flatten(head + [last]) == Flatten(head) + last + "\0"
  {
    assert (head + [last])[..|head|] == head;
  }

  /** The first messages are a prefix of the bytes, and a message begins where
      they end. */
  lemma FlattenAt(messages: seq<string>, c: nat)
    requires c < |messages|
    ensures var start := |Flatten(messages[..c])|; var m := messages[c];
            && start + |m| < |Flatten(messages)|
            && Flatten(messages)[..start] == Flatten(messages[..c])
            && Flatten(messages)[start..start + |m|] == m && Flatten(messages)[start + |m|] == '\0'
            && |Flatten(messages[..c + 1])| == start + |m| + 1
  {
    var head, rest := messages[..c + 1], messages[c + 1..];
    assert messages == head + rest;
    FlattenAppend(head, rest);
    assert head[..|head| - 1] == messages[..c];
    assert Flatten(head) == Flatten(messages[..c]) + messages[c] + "\0";
  }

  /** A message lies in the pot as a string. */
  lemma StringAt(pot: string, n: nat, messages: seq<string>, c: nat)
    requires n <= |pot| && pot[..n] == Flatten(messages) && c < |messages|
    ensures var at, m := |Flatten(messages[..c])|, messages[c];
            at + |m| < n && pot[at..at + |m|] == m && pot[at + |m|] == '\0'
  {
    FlattenAt(messages, c);
    var at, m := |Flatten(messages[..c])|, messages[c];
    assert pot[at..at + |m|] == pot[..n][at..at + |m|];
  }

  lemma NextStart(messages: seq<string>, c: nat)
    requires c < |messages|
    ensures |Flatten(messages[..c + 1])| == |Flatten(messages[..c])| + |messages[c]| + 1
  {
    FlattenAt(messages, c);
  }

  /** The state of the store: all messages, the number of the next one to read,
      and the lines returned since reading last began at the first message. */
  datatype Pot = Pot(messages: seq<string>, cursor: nat, pass: seq<string>)

  predicate Proper(pot: Pot) {
    && pot.cursor <= |pot.messages| && Clean(pot.messages)
    && |pot.pass| == pot.cursor
    && forall k :: 0 <= k < pot.cursor ==> pot.pass[k] == Line(pot.messages[k])
  }

  /** What a read returns for a message: the message and a newline, of which
      snprintf keeps only the terminator when both together fill the page. */
  function Line(message: string): string {
    message + if |message| + 1 < COOKIE_POT_SIZE then "\n" else "\0"
  }

  /** The last byte written is replaced by the terminator. */
  function Stored(bytes: string): seq<string> {
    if bytes == "" then [] else Split(bytes[..|bytes| - 1] + "\0")
  }

  function Written(pot: Pot, bytes: string): Pot {
    pot.(messages := pot.messages + Stored(bytes))
  }

  /** A write appends its bytes, the last one replaced, and moves no message. */
  lemma WrittenKeeps(pot: Pot, bytes: string)
    requires Proper(pot)
    ensures Proper(Written(pot, bytes))
    ensures Flatten(Written(pot, bytes).messages)
            == Flatten(pot.messages) + if bytes == "" then "" else bytes[..|bytes| - 1] + "\0"
    ensures Written(pot, bytes).messages[..pot.cursor] == pot.messages[..pot.cursor]
  {
    var more := Stored(bytes);
    StoredFlatten(bytes);
    FlattenAppend(pot.messages, more);
    PrefixOfSum(pot.messages, more, pot.cursor);
    forall k | 0 <= k < |pot.messages + more|
      ensures '\0' !in (pot.messages + more)[k]
    {
      assert (pot.messages + more)[k] == if k < |pot.messages| then pot.messages[k] else more[k - |pot.messages|];
    }
  }

  lemma StoredFlatten(bytes: string)
    ensures Flatten(Stored(bytes)) == if bytes == "" then "" else bytes[..|bytes| - 1] + "\0"
    ensures Clean(Stored(bytes))
  {
    if bytes != "" {
      SplitFlatten(bytes[..|bytes| - 1] + "\0");
    }
  }

  lemma PrefixOfSum(a: seq<string>, b: seq<string>, n: nat)
    requires n <= |a|
    ensures (a + b)[..n] == a[..n]
  {}

  lemma UpdatedPrefix(bytes: string, n: nat)
    requires 0 < n <= |bytes|
    ensures bytes[n - 1 := '\0'][..n] == bytes[..n][n - 1 := '\0']
  {}

  /** The bytes of the pot with the last one set to the terminator, after a write:
      a write of nothing overwrites a terminator with a terminator. */
  lemma AppendedBytes(before: string, pot: Pot, bytes: string, after: string)
    requires Proper(pot) && before == Flatten(pot.messages) && |before| + |bytes| > 0
    requires after == (before + bytes)[|before| + |bytes| - 1 := '\0']
    ensures Proper(Written(pot, bytes)) && after == Flatten(Written(pot, bytes).messages)
    ensures Written(pot, bytes).messages[..pot.cursor] == pot.messages[..pot.cursor]
  {
    WrittenKeeps(pot, bytes);
    if bytes != "" {
      assert after == before + (bytes[..|bytes| - 1] + "\0");
    }
  }

  /** Reading starts over after the last message. */
  function Turned(pot: Pot): Pot {
    if pot.cursor == |pot.messages| then pot.(cursor := 0, pass := []) else pot
  }

  function ReadOne(pot: Pot): (Pot, string)
    requires Proper(pot) && pot.messages != []
  {
    var p := Turned(pot);
    var line := Line(p.messages[p.cursor]);
    (p.(cursor := p.cursor + 1, pass := p.pass + [line]), line)
  }

  lemma ReadOneMoves(pot: Pot)
    requires Proper(pot) && pot.messages != []
    ensures Proper(Turned(pot)) && Proper(ReadOne(pot).0) && ReadOne(Turned(pot)) == ReadOne(pot)
    ensures ReadOne(pot).0.messages == pot.messages && ReadOne(pot).0.cursor == Turned(pot).cursor + 1
    ensures Turned(pot).cursor < |pot.messages|
  {}

  // ---- What a write stores, and where ----

  /** The test of line 53. */
  predicate Accepts(len: nat, writeInd: nat) {
    len <= COOKIE_POT_SIZE - writeInd + 1
  }

  /** Whether a request that passes the test stores at index i: in the copy, which
      is filled up with zeros if it breaks off, or with the terminator. */
  predicate Stores(len: nat, writeInd: nat, i: int) {
    writeInd <= i < writeInd + len || i == writeInd + len - 1
  }

  ghost predicate StoresInPot(len: nat, writeInd: nat) {
    forall i :: Stores(len, writeInd, i) ==> 0 <= i < COOKIE_POT_SIZE
  }

  /** An accepted request stores inside the pot if and only if it is not one byte
      longer than the room left, and not empty while the pot is. */
  lemma AcceptedStores(len: nat, writeInd: nat)
    requires writeInd <= COOKIE_POT_SIZE && Accepts(len, writeInd)
    ensures StoresInPot(len, writeInd) <==> len != COOKIE_POT_SIZE - writeInd + 1 && (len > 0 || writeInd > 0)
  {
    assert Stores(len, writeInd, writeInd + len - 1);
  }

  /** One byte for a pot that is full: accepted, and stored behind the pot. */
  lemma FullPotIsOverrun()
    ensures Accepts(1, COOKIE_POT_SIZE) && Stores(1, COOKIE_POT_SIZE, COOKIE_POT_SIZE)
    ensures !StoresInPot(1, COOKIE_POT_SIZE)
  {
    AcceptedStores(1, COOKIE_POT_SIZE);
  }

  /** Nothing for a pot that is empty: accepted, and terminated before the pot. */
  lemma EmptyPotIsUnderrun()
    ensures Accepts(0, 0) && Stores(0, 0, -1) && !StoresInPot(0, 0)
  {
    AcceptedStores(0, 0);
  }

  /** The room a write needs to be carried out. */
  predicate Fits(len: nat, writeInd: nat) {
    writeInd + len <= COOKIE_POT_SIZE && (len > 0 || writeInd > 0)
  }

  /** A request of a process: a write, or a read on a freshly opened file. */
  datatype Request = Write(bytes: string) | Read

  /** A write for which there is no room changes nothing. */
  function Serve(pot: Pot, request: Request): (r: (Pot, string))
    requires Proper(pot)
    ensures Proper(r.0)
  {
    match request
    case Write(bytes) =>
      assert Clean(Stored(bytes)) by { StoredFlatten(bytes); }
      (if Fits(|bytes|, |Flatten(pot.messages)|) then Written(pot, bytes) else pot, "")
    case Read => if pot.messages == [] then (pot, "") else ReadOne(pot)
  }

  function Run(pot: Pot, requests: seq<Request>): (r: (Pot, seq<string>))
    requires Proper(pot)
    ensures |r.1| == |requests|
    decreases |requests|
  {
    if requests == [] then (pot, [])
    else
      var (p, out) := Serve(pot, requests[0]);
      var (last, outs) := Run(p, requests[1..]);
      (last, [out] + outs)
  }

  lemma {:induction false} RunStaysProper(pot: Pot, requests: seq<Request>)
    requires Proper(pot)
    ensures Proper(Run(pot, requests).0)
    decreases |requests|
  {
    if requests != [] {
      RunStaysProper(Serve(pot, requests[0]).0, requests[1..]);
    }
  }

  // ---- What the reads of a run return ----

  /** What one round over these messages returns. */
  function LinesOf(messages: seq<string>): (r: seq<string>)
    ensures |r| == |messages|
  {
    seq(|messages|, k requires 0 <= k < |messages| => Line(messages[k]))
  }

  /** The strings that were returned; a write returns none, nor does a read of an
      empty pot. */
  function Returned(outs: seq<string>): seq<string> {
    if outs == [] then [] else (if outs[0] == "" then [] else [outs[0]]) + Returned(outs[1..])
  }

  predicate BeginsAnew(pot: Pot, request: Request) {
    request.Read? && pot.messages != [] && pot.cursor == |pot.messages|
  }

  /** The messages in the pot each time a read began anew. */
  function Rounds(pot: Pot, requests: seq<Request>): seq<seq<string>>
    requires Proper(pot)
    decreases |requests|
  {
    if requests == [] then []
    else
      (if BeginsAnew(pot, requests[0]) then [pot.messages] else [])
      + Rounds(Serve(pot, requests[0]).0, requests[1..])
  }

  function AllLines(rounds: seq<seq<string>>): seq<string> {
    if rounds == [] then [] else LinesOf(rounds[0]) + AllLines(rounds[1..])
  }

  /** A read that begins anew completes a round over all messages. */
  lemma OneRequest(pot: Pot, request: Request)
    requires Proper(pot)
    ensures var (p, out) := Serve(pot, request);
            pot.pass + (if out == "" then [] else [out])
            == (if BeginsAnew(pot, request) then LinesOf(pot.messages) else []) + p.pass
    ensures pot.messages <= Serve(pot, request).0.messages
  {
    if request.Read? && pot.messages != [] {
      assert Line(Turned(pot).messages[Turned(pot).cursor]) != "";
      if BeginsAnew(pot, request) {
        assert pot.pass == LinesOf(pot.messages);
      }
    }
  }

  /** The lines of the present round followed by what the run returns are whole
      rounds followed by the lines of the last one. */
  lemma {:induction false} ReturnedInRounds(pot: Pot, requests: seq<Request>)
    requires Proper(pot)
    ensures pot.pass + Returned(Run(pot, requests).1)
            == AllLines(Rounds(pot, requests)) + Run(pot, requests).0.pass
    decreases |requests|
  {
    if requests == [] {
      assert pot.pass + [] == [] + pot.pass;
    } else {
      var (p, out) := Serve(pot, requests[0]);
      var (last, outs) := Run(p, requests[1..]);
      var one := if out == "" then [] else [out];
      var whole := if BeginsAnew(pot, requests[0]) then [pot.messages] else [];
      var later := Rounds(p, requests[1..]);
      OneRequest(pot, requests[0]);
      ReturnedInRounds(p, requests[1..]);
      assert ([out] + outs)[1..] == outs;
      FirstRound(whole, later);
      Regroup(pot.pass, one, Returned(outs), AllLines(whole), p.pass, AllLines(later), last.pass);
    }
  }

  lemma FirstRound(whole: seq<seq<string>>, later: seq<seq<string>>)
    requires |whole| <= 1
    ensures AllLines(whole + later) == AllLines(whole) + AllLines(later)
    ensures AllLines(whole) == if whole == [] then [] else LinesOf(whole[0])
  {
    if whole == [] {
      assert whole + later == later;
    } else {
      assert (whole + later)[1..] == later && whole[1..] == [];
    }
  }

  lemma Regroup(a: seq<string>, b: seq<string>, c: seq<string>, d: seq<string>, e: seq<string>,
                f: seq<string>, g: seq<string>)
    requires a + b == d + e && e + c == f + g
    ensures a + (b + c) == (d + f) + g
  {
    assert a + (b + c) == (a + b) + c == d + (e + c);
  }

  /** Every round was over the messages of an earlier one and those added since. */
  lemma {:induction false} RoundsGrow(pot: Pot, requests: seq<Request>)
    requires Proper(pot)
    ensures pot.messages <= Run(pot, requests).0.messages
    ensures forall j :: 0 <= j < |Rounds(pot, requests)| ==>
              pot.messages <= Rounds(pot, requests)[j] <= Run(pot, requests).0.messages
    ensures forall j, l :: 0 <= j < l < |Rounds(pot, requests)| ==>
              Rounds(pot, requests)[j] <= Rounds(pot, requests)[l]
    decreases |requests|
  {
    if requests != [] {
      OneRequest(pot, requests[0]);
      RoundsGrow(Serve(pot, requests[0]).0, requests[1..]);
    }
  }

  /** Whatever is written in between, what the reads of a run return are whole
      rounds, each over all the messages there were when it ended, and then the
      lines of the first messages up to the next one to read; and the messages of
      every round are a prefix of those of the next and of the last ones. */
  lemma PassIsComplete(requests: seq<Request>)
    ensures var (pot, outs) := Run(Pot([], 0, []), requests);
            var rounds := Rounds(Pot([], 0, []), requests);
            && pot.cursor <= |pot.messages|
            && Returned(outs) == AllLines(rounds) + LinesOf(pot.messages[..pot.cursor])
            && (forall j :: 0 <= j < |rounds| ==> rounds[j] <= pot.messages)
            && (forall j, l :: 0 <= j < l < |rounds| ==> rounds[j] <= rounds[l])
  {
    var start := Pot([], 0, []);
    RunStaysProper(start, requests);
    ReturnedInRounds(start, requests);
    RoundsGrow(start, requests);
    var (pot, outs) := Run(start, requests);
    assert pot.pass == LinesOf(pot.messages[..pot.cursor]);
    assert start.pass + Returned(outs) == Returned(outs);
  }

  /** After q whole rounds and k messages the next read returns message k. */
  lemma {:induction false} ReadAfterRounds(pot: Pot, count: nat, i: nat, k: nat, q: nat)
    requires Proper(pot) && k < |pot.messages| && i < count
    requires pot.cursor + i == k + q * |pot.messages|
    ensures Run(pot, seq(count, _ => Read)).1[i] == Line(pot.messages[k])
    decreases count
  {
    var n, p := |pot.messages|, ReadOne(pot).0;
    ReadOneMoves(pot);
    OneReadLess(count);
    ReadThenRest(pot, seq(count, _ => Read), i);
    assert q > 0 ==> q * n == (q - 1) * n + n;
    if i == 0 {
      FirstRead(pot, k, q);
    } else if pot.cursor == n {
      assert q > 0;
      ReadAfterRounds(p, count - 1, i - 1, k, q - 1);
    } else {
      ReadAfterRounds(p, count - 1, i - 1, k, q);
    }
  }

  lemma ReadThenRest(pot: Pot, requests: seq<Request>, i: nat)
    requires Proper(pot) && pot.messages != [] && i < |requests| && requests[0] == Read && Proper(ReadOne(pot).0)
    ensures Run(pot, requests).1[i]
            == if i == 0 then ReadOne(pot).1 else Run(ReadOne(pot).0, requests[1..]).1[i - 1]
  {
    assert Serve(pot, requests[0]) == ReadOne(pot);
  }

  lemma OneReadLess(count: nat)
    requires count > 0
    ensures seq(count, _ => Read)[0] == Read && seq(count, _ => Read)[1..] == seq(count - 1, _ => Read)
  {}

  lemma FirstRead(pot: Pot, k: nat, q: nat)
    requires Proper(pot) && k < |pot.messages| && pot.cursor == k + q * |pot.messages|
    ensures Turned(pot).cursor == k
  {
    var n := |pot.messages|;
    assert q > 0 ==> q * n == (q - 1) * n + n;
    assert q > 0 ==> (q - 1) * n >= 0;
  }

  /** Without writes, reads go round: read i returns message (cursor + i) modulo
      the number of messages. */
  lemma ReadsGoRound(pot: Pot, count: nat, i: nat)
    requires Proper(pot) && pot.messages != [] && i < count
    ensures Run(pot, seq(count, _ => Read)).1[i] == Line(pot.messages[(pot.cursor + i) % |pot.messages|])
  {
    var n := |pot.messages|;
    ReadAfterRounds(pot, count, i, (pot.cursor + i) % n, (pot.cursor + i) / n);
  }

  /** A line written is read back byte for byte exactly if it leaves room for the
      terminator in the page; a longer one comes back with a NUL for its newline. */
  lemma WrittenLineReadsBack(text: string)
    requires '\0' !in text && |text| + 1 <= COOKIE_POT_SIZE
    ensures Stored(text + "\n") == [text]
    ensures Line(text) == text + "\n" <==> |text + "\n"| < COOKIE_POT_SIZE
  {
    var bytes := text + "\n";
    assert bytes[..|bytes| - 1] + "\0" == text + "\0";
    assert (text + "\0")[..|text|] == text;
    NoTerminator(text);
    assert text[..0] == "" && text[0..] == text;
    var none: seq<string> := [];
    assert Split(text[..0]) == none && none + [text] == [text];
    assert (text + "\n")[|text|] != (text + "\0")[|text|];
  }

  lemma {:induction false} NoTerminator(text: string)
    requires '\0' !in text
    ensures LastStart(text) == 0
  {
    if text != "" {
      assert text[|text| - 1] in text;
      NoTerminator(text[..|text| - 1]);
    }
  }

  // ---- The driver ----

  /** What a system call comes to: it returns, or it stores outside the pot. */
  datatype Outcome = Returns(value: int) | Outside(index: int)

  /** The module's static variables, with the list they represent. */
  class Module {
    const cookiePot: array<char>
    const tmpBuf: array<char>
    var readInd: int
    var writeInd: int
    ghost var pot: Pot

    ghost predicate Valid()
      reads this, cookiePot, tmpBuf
    {
      && cookiePot.Length == COOKIE_POT_SIZE && tmpBuf.Length == COOKIE_POT_SIZE && cookiePot != tmpBuf
      && Proper(pot)
      && 0 <= writeInd <= COOKIE_POT_SIZE && cookiePot[..writeInd] == Flatten(pot.messages)
      && readInd == |Flatten(pot.messages[..pot.cursor])|
    }

    /** md_init */
    constructor ()
      ensures Valid() && pot == Pot([], 0, []) && fresh(cookiePot) && fresh(tmpBuf)
    {
      cookiePot := new char[COOKIE_POT_SIZE](_ => '\0');
      tmpBuf := new char[COOKIE_POT_SIZE](_ => '\0');
      readInd, writeInd, pot := 0, 0, Pot([], 0, []);
    }

    /** fortuneWrite, for every request. copied is how many bytes copy_from_user
        manages to copy. A request that is refused, breaks off, or stores outside
        the pot leaves the messages as they are. */
    method FortuneWrite(buf: string, copied: nat) returns (r: Outcome)
      requires Valid() && copied <= |buf|
      modifies `writeInd, `pot, cookiePot
      ensures Valid()
      ensures |buf| > 4096 - old(writeInd) + 1 <==> r == Returns(-28)
      ensures !Accepts(|buf|, old(writeInd)) ==> r == Returns(-ENOSPC) && pot == old(pot)
      ensures Accepts(|buf|, old(writeInd)) && !StoresInPot(|buf|, old(writeInd)) ==>
                pot == old(pot) && r.Outside? && Stores(|buf|, old(writeInd), r.index)
                && !(0 <= r.index < COOKIE_POT_SIZE)
      ensures Accepts(|buf|, old(writeInd)) && StoresInPot(|buf|, old(writeInd)) ==>
                if copied < |buf| then r == Returns(-EFAULT) && pot == old(pot)
                else r == Returns(|buf|) && pot == Written(old(pot), buf)
    {
      if !Accepts(|buf|, writeInd) {
        return Returns(-ENOSPC);
      }
      AcceptedStores(|buf|, writeInd);
      var inside := CopyFromUser(buf, copied);
      if !inside {
        return Outside(COOKIE_POT_SIZE);
      }
      if copied < |buf| {
        return Returns(-EFAULT);
      }
      ghost var bytes := cookiePot[..];
      inside := Store(writeInd + |buf| - 1, '\0');
      if !inside {
        return Outside(writeInd + |buf| - 1);
      }
      UpdatedPrefix(bytes, writeInd + |buf|);
      writeInd := writeInd + |buf|;
      AppendedBytes(old(cookiePot[..writeInd]), old(pot), buf, cookiePot[..writeInd]);
      pot := Written(pot, buf);
      r := Returns(|buf|);
    }

    /** A store to the pot, if that is where the index leads. */
    method Store(i: int, c: char) returns (inside: bool)
      modifies cookiePot
      ensures inside <==> 0 <= i < cookiePot.Length
      ensures cookiePot[..] == if inside then old(cookiePot[..])[i := c] else old(cookiePot[..])
    {
      inside := 0 <= i < cookiePot.Length;
      if inside {
        cookiePot[i] := c;
      }
    }

    /** copy_from_user: what it cannot copy it fills with zeros; it comes to the
        end of the pot exactly if the request is longer than the room left. */
    method CopyFromUser(buf: string, copied: nat) returns (inside: bool)
      requires 0 <= writeInd <= cookiePot.Length && copied <= |buf|
      modifies cookiePot
      ensures inside <==> writeInd + |buf| <= cookiePot.Length
      ensures cookiePot[..writeInd] == old(cookiePot[..writeInd])
      ensures inside && copied == |buf| ==> cookiePot[..writeInd + |buf|] == old(cookiePot[..writeInd]) + buf
    {
      inside := true;
      var i := 0;
      while i < |buf| && inside
        invariant i <= |buf| && writeInd + i <= cookiePot.Length
        invariant !inside ==> i < |buf| && writeInd + i == cookiePot.Length
        invariant cookiePot[..writeInd] == old(cookiePot[..writeInd])
        invariant forall k :: 0 <= k < i && k < copied ==> cookiePot[writeInd + k] == buf[k]
        decreases |buf| - i, inside
      {
        inside := Store(writeInd + i, if i < copied then buf[i] else '\0');
        if inside {
          i := i + 1;
        }
      }
    }

    /** strlen(&cookiePot[at]): the length of the message that begins there. */
    method Strlen(at: nat, ghost c: nat) returns (n: nat)
      requires Valid() && c < |pot.messages| && at == |Flatten(pot.messages[..c])|
      ensures n == |pot.messages[c]| && at + n < writeInd
      ensures cookiePot[at..at + n] == pot.messages[c]
    {
      ghost var m := pot.messages[c];
      StringAt(cookiePot[..], writeInd, pot.messages, c);
      assert cookiePot[at..at + |m|] == cookiePot[..][at..at + |m|];
      assert |m| > 0 ==> cookiePot[at..at + |m|][0] == cookiePot[at];
      n := 0;
      while cookiePot[at + n] != '\0'
        invariant n <= |m| && (n < |m| ==> cookiePot[at + n] == m[n] && m[n] in m)
        decreases |m| - n
      {
        n := n + 1;
        assert n < |m| ==> cookiePot[at..at + |m|][n] == cookiePot[at + n];
      }
    }

    /** snprintf(tmpBuf, COOKIE_POT_SIZE, "%s\n", &cookiePot[at]): at most SIZE - 1
        characters and a terminator are stored, the full length is returned. */
    method Snprintf(at: nat, ghost c: nat) returns (n: nat)
      requires Valid() && c < |pot.messages| && at == |Flatten(pot.messages[..c])|
      modifies tmpBuf
      ensures Valid()
      ensures n == |pot.messages[c]| + 1 <= COOKIE_POT_SIZE && tmpBuf[..n] == Line(pot.messages[c])
    {
      var length := Strlen(at, c);
      n := length + 1;
      var i := 0;
      while i < n && i < COOKIE_POT_SIZE - 1
        invariant i <= n && i <= COOKIE_POT_SIZE - 1 && Valid() && pot == old(pot)
        invariant forall k :: 0 <= k < i ==> tmpBuf[k] == if k < length then cookiePot[at + k] else '\n'
      {
        tmpBuf[i] := if i < length then cookiePot[at + i] else '\n';
        i := i + 1;
      }
      tmpBuf[i] := '\0';
      forall k | 0 <= k < n
        ensures tmpBuf[..n][k] == Line(pot.messages[c])[k]
      {
        assert k < length ==> cookiePot[at + k] == cookiePot[at..at + length][k];
      }
    }

    /** fortuneRead. copied tells whether copy_to_user succeeds; the length the
        caller asks for is ignored. */
    method FortuneRead(fPos: int, copied: bool) returns (ret: int, buf: string, fPos': int)
      requires Valid() && fPos >= 0
      modifies `readInd, `pot, tmpBuf
      ensures Valid()
      ensures fPos > 0 || old(pot).messages == [] ==> ret == 0 && buf == "" && fPos' == fPos && pot == old(pot)
      ensures fPos == 0 && old(pot).messages != [] ==>
                if !copied then ret == -EFAULT && buf == "" && fPos' == fPos && pot == Turned(old(pot))
                else (pot, buf) == ReadOne(old(pot)) && ret == |buf| > 0 && fPos' == fPos + ret
    {
      fPos' := fPos;
      EmptyIffNothingWritten();
      if fPos > 0 || writeInd == 0 {
        return 0, "", fPos;
      }
      AtEndIffAllRead();
      if readInd >= writeInd {
        readInd := 0;
      }
      ReadOneMoves(pot);
      pot := Turned(pot);
      assert pot.cursor == 0 ==> pot.messages[..0] == [];
      var readLen := Snprintf(readInd, pot.cursor);
      if !copied {
        return -EFAULT, "", fPos;
      }
      buf := tmpBuf[..readLen];
      NextStart(pot.messages, pot.cursor);
      readInd := readInd + readLen;
      fPos' := fPos + readLen;
      pot := ReadOne(pot).0;
      ret := readLen;
    }

    lemma EmptyIffNothingWritten()
      requires Valid()
      ensures writeInd == 0 <==> pot.messages == []
    {
      if pot.messages != [] {
        FlattenAt(pot.messages, 0);
      }
    }

    lemma AtEndIffAllRead()
      requires Valid()
      ensures readInd >= writeInd <==> pot.cursor == |pot.messages|
    {
      if pot.cursor < |pot.messages| {
        FlattenAt(pot.messages, pot.cursor);
      } else {
        assert pot.messages[..pot.cursor] == pot.messages;
      }
    }

    /** Any sequence of writes and of reads on freshly opened files. */
    method ServeAll(requests: seq<Request>) returns (outs: seq<string>)
      requires Valid()
      modifies this, cookiePot, tmpBuf
      ensures Valid() && (pot, outs) == Run(old(pot), requests)
      decreases |requests|
    {
      if requests == [] {
        return [];
      }
      var out := "";
      match requests[0] {
        case Write(bytes) =>
          FitsIffStored(|bytes|, writeInd);
          var r := FortuneWrite(bytes, |bytes|);
        case Read =>
          var ret, buf, pos := FortuneRead(0, true);
          out := buf;
      }
      assert (pot, out) == Serve(old(pot), requests[0]);
      var rest := ServeAll(requests[1..]);
      outs := [out] + rest;
    }
  }

  lemma FitsIffStored(len: nat, writeInd: nat)
    requires writeInd <= COOKIE_POT_SIZE
    ensures Fits(len, writeInd) <==> Accepts(len, writeInd) && StoresInPot(len, writeInd)
  {
    if Accepts(len, writeInd) {
      AcceptedStores(len, writeInd);
    }
  }
}
