/** The process version of the bounded buffer
    (sem_05/lab_03/producer-consumer/main.c): the same semaphore calls around a
    buffer that never wraps, with a shared letter that producers advance. Every
    load and store of shared memory is one step. A store beyond the shared page
    is not a step of the program: the run of that producer ends there. */
module LinearBuffer {
  import opened Semaphores
  import opened Tally
  import R = RingServer

  datatype PC =
    // producer()
    | PStart
    | PLoadLetter | PStoreLetter(v: char) | PAskWrap(c: char) | PWrap(c: char)
    | PWrite(c: char) | PLoadPtr | PStorePtr(p: int) | PStop
    // consumer()
    | CStart | CRead | CLoadPtr | CStorePtr(p: int) | CStop

  /** pr and con are the offsets of *pr_ptr and *con_ptr in the page; puts and
      gots are history. */
  datatype State = State(
    sems: seq<int>, page: seq<char>, pr: int, con: int, letter: char, pcs: seq<PC>,
    puts: seq<char>, gots: seq<char>)

  /** c++; the codes that occur end at 'z' + 1. */
  function Successor(c: char): char {
    if c as int < 127 then (c as int + 1) as char else c
  }

  function LetterAt(k: nat): char {
    ('a' as int + k % 26) as char
  }

  function CallAt(pc: PC): seq<SemBuf> {
    match pc
    case PStart => R.START_PRODUCE
    case PStop => R.STOP_PRODUCE
    case CStart => R.START_CONSUME
    case CStop => R.STOP_CONSUME
    case _ => []
  }

  predicate Enabled(s: State, t: nat)
    requires |s.sems| == 3 && t < |s.pcs|
  {
    && Semop(s.sems, CallAt(s.pcs[t])).Done?
    && (s.pcs[t].PWrite? ==> 0 <= s.pr < |s.page|)
    && (s.pcs[t].CRead? ==> 0 <= s.con < |s.page|)
  }

  function NextPC(s: State, pc: PC): PC {
    match pc
    case PStart => PLoadLetter
    case PLoadLetter => PStoreLetter(s.letter)
    case PStoreLetter(v) => PAskWrap(v)
    case PAskWrap(c) => if s.letter == Successor('z') then PWrap(c) else PWrite(c)
    case PWrap(c) => PWrite(c)
    case PWrite(_) => PLoadPtr
    case PLoadPtr => PStorePtr(s.pr)
    case PStorePtr(_) => PStop
    case PStop => PStart
    case CStart => CRead
    case CRead => CLoadPtr
    case CLoadPtr => CStorePtr(s.con)
    case CStorePtr(_) => CStop
    case CStop => CStart
  }

  function Next(s: State, t: nat): (r: State)
    requires |s.sems| == 3 && t < |s.pcs| && Enabled(s, t)
    ensures |r.sems| == 3 && |r.pcs| == |s.pcs| && |r.page| == |s.page|
  {
    var pc := s.pcs[t];
    var s1 := s.(pcs := s.pcs[t := NextPC(s, pc)]);
    match pc
    case PStoreLetter(v) => s1.(letter := Successor(v))
    case PWrap(_) => s1.(letter := 'a')
    case PWrite(c) => s1.(page := s.page[s.pr := c], puts := s.puts + [c])
    case PStorePtr(p) => s1.(pr := p + 1)
    case CRead => s1.(gots := s.gots + [s.page[s.con]])
    case CStorePtr(p) => s1.(con := p + 1)
    case _ => s1.(sems := Semop(s.sems, CallAt(pc)).sems)
  }

  predicate Initial(s: State) {
    && s.sems == [R.SIZE, 0, 1] && s.pr == 0 && s.con == 0 && s.letter == 'a'
    && (forall t :: 0 <= t < |s.pcs| ==> s.pcs[t].PStart? || s.pcs[t].CStart?)
    && s.puts == [] && s.gots == []
  }

  function Exec(s: State, schedule: seq<nat>): (r: State)
    requires |s.sems| == 3 && forall k :: 0 <= k < |schedule| ==> schedule[k] < |s.pcs|
    ensures |r.sems| == 3 && |r.pcs| == |s.pcs| && |r.page| == |s.page|
    decreases |schedule|
  {
    if schedule == [] then s
    else Exec(if Enabled(s, schedule[0]) then Next(s, schedule[0]) else s, schedule[1..])
  }

  // ---- The ring server that a state stands for ----

  /** The last put among the first count whose number is i modulo 26, or
      negative when there is none. */
  function LastPut(count: nat, i: nat): int {
    count - 1 - (count - 1 - i) % R.SIZE
  }

  /** The 26 cells after the letters puts have been stored into a ring. */
  function Cells(puts: seq<char>): (r: seq<char>)
    ensures |r| == R.SIZE
  {
    seq(R.SIZE, (i: nat) => if 0 <= LastPut(|puts|, i) < |puts| then puts[LastPut(|puts|, i)] else '\0')
  }

  /** The position of the ring server's client; a producer inside that has not
      stored yet is about to store the letter it has taken or will take. */
  function Position(pc: PC, letter: char): R.PC {
    match pc
    case PStart => R.Idle
    case PLoadLetter => R.PStore(letter)
    case PStoreLetter(v) => R.PStore(v)
    case PAskWrap(c) => R.PStore(c)
    case PWrap(c) => R.PStore(c)
    case PWrite(c) => R.PStore(c)
    case PLoadPtr => R.PLoadTail
    case PStorePtr(p) => R.PStoreTail(p % R.SIZE)
    case PStop => R.PStop
    case CStart => R.Idle
    case CRead => R.CLoad
    case CLoadPtr => R.CLoadHead
    case CStorePtr(p) => R.CStoreHead(p % R.SIZE)
    case CStop => R.CStop
  }

  function Positions(pcs: seq<PC>, letter: char): (r: seq<R.PC>)
    ensures |r| == |pcs| && forall t :: 0 <= t < |pcs| ==> r[t] == Position(pcs[t], letter)
  {
    seq(|pcs|, t requires 0 <= t < |pcs| => Position(pcs[t], letter))
  }

  function Ring(s: State): R.State {
    R.State(s.sems, Cells(s.puts), s.con % R.SIZE, s.pr % R.SIZE, Positions(s.pcs, s.letter), s.puts, s.gots)
  }

  /** The turns of the ring server that match one step. */
  function Turns(s: State, t: nat): seq<R.Turn>
    requires t < |s.pcs|
  {
    match s.pcs[t]
    case PStart => [R.Turn(t, R.Put(s.letter)), R.Turn(t, R.Unknown)]
    case CStart => [R.Turn(t, R.Get), R.Turn(t, R.Unknown)]
    case PLoadLetter => []
    case PStoreLetter(_) => []
    case PAskWrap(_) => []
    case PWrap(_) => []
    case _ => [R.Turn(t, R.Unknown)]
  }

  // ---- The invariant: that of the ring server, and what ties the two ----

  predicate Taken(pc: PC) {
    pc.PAskWrap? || pc.PWrap? || pc.PWrite?
  }

  predicate Local(s: State, pc: PC) {
    match pc
    case PStoreLetter(v) => v == s.letter
    case PAskWrap(c) => c == LetterAt(|s.puts|) && s.letter == Successor(c)
    case PWrap(c) => c == LetterAt(|s.puts|) == 'z'
    case PWrite(c) => c == LetterAt(|s.puts|) && s.letter == LetterAt(|s.puts| + 1)
    case PStorePtr(p) => p == s.pr
    case CStorePtr(p) => p == s.con
    case _ => true
  }

  predicate Inv(s: State) {
    && R.Inv(Ring(s))
    && s.pr == |s.puts| - Total(Ring(s).pcs, R.TailBehind)
    && s.con == |s.gots| - Total(Ring(s).pcs, R.HeadBehind)
    && |s.puts| <= |s.page| && s.page[..|s.puts|] == s.puts
    && (forall k :: 0 <= k < |s.puts| ==> s.puts[k] == LetterAt(k))
    && ((forall t :: 0 <= t < |s.pcs| ==> !Taken(s.pcs[t])) ==> s.letter == LetterAt(|s.puts|))
    && (forall t :: 0 <= t < |s.pcs| ==> Local(s, s.pcs[t]))
  }

  lemma InitialInv(s: State)
    requires Initial(s)
    ensures Inv(s) && R.Initial(Ring(s))
  {
    R.InitialInv(Ring(s));
    TotalZero(Ring(s).pcs, R.TailBehind);
    TotalZero(Ring(s).pcs, R.HeadBehind);
  }

  lemma LastPutStep(n: nat, i: nat)
    requires i < R.SIZE
    ensures LastPut(n + 1, i) == if i == n % R.SIZE then n else LastPut(n, i)
  {
    var q, q' := (n - 1 - i) % R.SIZE, (n - i) % R.SIZE;
    assert i == n % R.SIZE <==> q' == 0;
    assert q' != 0 ==> q' == q + 1;
  }

  /** Storing the next letter changes one cell of the ring. */
  lemma CellsPut(puts: seq<char>, c: char)
    ensures Cells(puts + [c]) == Cells(puts)[|puts| % R.SIZE := c]
  {
    var n := |puts|;
    forall i: nat | i < R.SIZE
      ensures Cells(puts + [c])[i] == Cells(puts)[n % R.SIZE := c][i]
    {
      LastPutStep(n, i);
    }
  }

  /** Nobody else is inside, hence nobody else's position depends on what a
      thread inside changes. */
  lemma Alone(s: State, t: nat)
    requires Inv(s) && t < |s.pcs| && R.Inside(Position(s.pcs[t], s.letter)) == 1
    ensures forall u :: 0 <= u < |s.pcs| && u != t ==> s.pcs[u].PStart? || s.pcs[u].CStart?
  {
    var r := Ring(s);
    R.Alone(r, t);
    forall u | 0 <= u < |s.pcs| && u != t
      ensures s.pcs[u].PStart? || s.pcs[u].CStart?
    {
      assert R.Inside(r.pcs[u]) == 0;
    }
  }

  lemma MyPointers(s: State, t: nat)
    requires Inv(s) && t < |s.pcs| && R.Inside(Position(s.pcs[t], s.letter)) == 1
    ensures s.pr == |s.puts| - R.TailBehind(Position(s.pcs[t], s.letter))
    ensures s.con == |s.gots| - R.HeadBehind(Position(s.pcs[t], s.letter))
  {
    R.Alone(Ring(s), t);
  }

  /** A step of thread t moves only its own position. */
  lemma PositionsStep(s: State, t: nat)
    requires Inv(s) && t < |s.pcs| && Enabled(s, t)
    ensures var s' := Next(s, t);
            Ring(s').pcs == Ring(s).pcs[t := Position(s'.pcs[t], s'.letter)]
  {
    if s.pcs[t].PStoreLetter? || s.pcs[t].PWrap? {
      Alone(s, t);
    }
  }

  /** The steps between taking and advancing the letter are invisible. */
  lemma QuietStep(s: State, t: nat)
    requires Inv(s) && t < |s.pcs| && Enabled(s, t) && Turns(s, t) == []
    ensures Ring(Next(s, t)) == Ring(s)
  {
    PositionsStep(s, t);
    assert Ring(Next(s, t)).pcs == Ring(s).pcs;
  }

  /** What a step of the buffer and the turn of the server need to agree on. */
  predicate Ready(s: State, t: nat)
    requires |s.sems| == 3 && t < |s.pcs| && Enabled(s, t)
  {
    && R.WellFormed(Ring(s)) && Local(s, s.pcs[t])
    && Ring(Next(s, t)).pcs == Ring(s).pcs[t := Position(Next(s, t).pcs[t], Next(s, t).letter)]
  }

  /** The step is one turn of the server. */
  predicate Matches(s: State, t: nat)
    requires |s.sems| == 3 && t < |s.pcs| && Enabled(s, t)
  {
    && R.WellFormed(Ring(s)) && R.Enabled(Ring(s), t)
    && R.Next(Ring(s), R.Turn(t, R.Unknown)) == Ring(Next(s, t))
  }

  lemma WriteStep(s: State, t: nat)
    requires |s.sems| == 3 && t < |s.pcs| && Enabled(s, t) && s.pcs[t].PWrite? && Ready(s, t)
    requires s.pr == |s.puts|
    ensures Matches(s, t)
  {
    CellsPut(s.puts, s.pcs[t].c);
  }

  lemma ReadStep(s: State, t: nat)
    requires |s.sems| == 3 && t < |s.pcs| && Enabled(s, t) && s.pcs[t].CRead? && Ready(s, t)
    requires s.page[s.con] == Cells(s.puts)[s.con % R.SIZE]
    ensures Matches(s, t)
  {}

  lemma PointerStep(s: State, t: nat)
    requires |s.sems| == 3 && t < |s.pcs| && Enabled(s, t) && Ready(s, t)
    requires s.pcs[t].PLoadPtr? || s.pcs[t].PStorePtr? || s.pcs[t].CLoadPtr? || s.pcs[t].CStorePtr?
    requires s.pr >= 0 && s.con >= 0
    ensures Matches(s, t)
  {
    R.NextIndex(s.pr % R.SIZE, s.pr + 1);
    R.NextIndex(s.con % R.SIZE, s.con + 1);
  }

  lemma StopStep(s: State, t: nat)
    requires |s.sems| == 3 && t < |s.pcs| && Enabled(s, t) && Ready(s, t)
    requires s.pcs[t].PStop? || s.pcs[t].CStop?
    ensures Matches(s, t)
  {}

  /** The letter at the read pointer is the letter in the head cell. */
  lemma NextGot(s: State, t: nat)
    requires Inv(s) && t < |s.pcs| && s.pcs[t].CRead?
    ensures s.con == |s.gots| < |s.puts|
    ensures s.page[s.con] == s.puts[s.con] == Cells(s.puts)[s.con % R.SIZE]
  {
    MyPointers(s, t);
    R.Alone(Ring(s), t);
    assert s.page[..|s.puts|][s.con] == s.puts[s.con];
  }

  /** Every other step inside, and the stop calls, are one turn of the server. */
  lemma MatchedStep(s: State, t: nat)
    requires Inv(s) && t < |s.pcs| && Enabled(s, t) && |Turns(s, t)| == 1
    ensures Matches(s, t)
  {
    PositionsStep(s, t);
    MyPointers(s, t);
    match s.pcs[t]
    case PWrite(_) => WriteStep(s, t);
    case CRead => NextGot(s, t); ReadStep(s, t);
    case PStop => StopStep(s, t);
    case CStop => StopStep(s, t);
    case _ => PointerStep(s, t);
  }

  /** A start call is a request of the server's client and the call itself. */
  lemma StartStep(s: State, t: nat)
    requires Inv(s) && t < |s.pcs| && Enabled(s, t) && (s.pcs[t].PStart? || s.pcs[t].CStart?)
    ensures var request := if s.pcs[t].PStart? then R.Put(s.letter) else R.Get;
            var asked := R.Next(Ring(s), R.Turn(t, request));
            && R.Enabled(Ring(s), t) && R.Enabled(asked, t)
            && R.Next(asked, R.Turn(t, R.Unknown)) == Ring(Next(s, t))
  {
    PositionsStep(s, t);
    var request := if s.pcs[t].PStart? then R.Put(s.letter) else R.Get;
    var asked := R.Next(Ring(s), R.Turn(t, request));
    assert R.Next(asked, R.Turn(t, R.Unknown)).pcs == Ring(Next(s, t)).pcs;
  }

  /** Each step is zero, one or two turns of the ring server. */
  lemma Simulates(s: State, t: nat)
    requires Inv(s) && t < |s.pcs| && Enabled(s, t)
    ensures forall k :: 0 <= k < |Turns(s, t)| ==> Turns(s, t)[k].thread == t
    ensures R.Exec(Ring(s), Turns(s, t)) == Ring(Next(s, t))
  {
    var turns := Turns(s, t);
    if |turns| == 0 {
      QuietStep(s, t);
    } else if |turns| == 1 {
      MatchedStep(s, t);
      assert turns[1..] == [];
    } else {
      StartStep(s, t);
      var asked := R.Next(Ring(s), turns[0]);
      assert turns[1..] == [R.Turn(t, R.Unknown)] && turns[1..][1..] == [];
      assert R.Exec(asked, turns[1..]) == R.Exec(R.Next(asked, turns[1]), []);
    }
  }

  lemma PointerMove(s: State, t: nat)
    requires |s.sems| == 3 && t < |s.pcs| && Enabled(s, t) && Local(s, s.pcs[t])
    ensures var s' := Next(s, t);
            var from, to := Position(s.pcs[t], s.letter), Position(s'.pcs[t], s'.letter);
            && s'.pr - s.pr == |s'.puts| - |s.puts| + R.TailBehind(from) - R.TailBehind(to)
            && s'.con - s.con == |s'.gots| - |s.gots| + R.HeadBehind(from) - R.HeadBehind(to)
  {}

  lemma PointersKept(s: State, t: nat)
    requires Inv(s) && t < |s.pcs| && Enabled(s, t)
    ensures var s' := Next(s, t);
            && s'.pr == |s'.puts| - Total(Ring(s').pcs, R.TailBehind)
            && s'.con == |s'.gots| - Total(Ring(s').pcs, R.HeadBehind)
  {
    var s', pcs := Next(s, t), Ring(s).pcs;
    PositionsStep(s, t);
    TotalUpdate(pcs, t, Position(s'.pcs[t], s'.letter), R.TailBehind);
    TotalUpdate(pcs, t, Position(s'.pcs[t], s'.letter), R.HeadBehind);
    PointerMove(s, t);
  }

  lemma PageKept(s: State, t: nat)
    requires Inv(s) && t < |s.pcs| && Enabled(s, t)
    ensures var s' := Next(s, t);
            && |s'.puts| <= |s'.page| && s'.page[..|s'.puts|] == s'.puts
            && forall k :: 0 <= k < |s'.puts| ==> s'.puts[k] == LetterAt(k)
  {
    var s' := Next(s, t);
    if s.pcs[t].PWrite? {
      MyPointers(s, t);
      assert Local(s, s.pcs[t]);
      OneMoreOnPage(s.page, s.puts, s.pcs[t].c);
    } else {
      assert s'.puts == s.puts && s'.page == s.page;
    }
  }

  lemma OneMoreOnPage(page: seq<char>, puts: seq<char>, c: char)
    requires |puts| < |page| && page[..|puts|] == puts && c == LetterAt(|puts|)
    requires forall k :: 0 <= k < |puts| ==> puts[k] == LetterAt(k)
    ensures page[|puts| := c][..|puts + [c]|] == puts + [c]
    ensures forall k :: 0 <= k < |puts + [c]| ==> (puts + [c])[k] == LetterAt(k)
  {}

  lemma LettersKept(s: State, t: nat)
    requires Inv(s) && t < |s.pcs| && Enabled(s, t)
    ensures var s' := Next(s, t);
            (forall u :: 0 <= u < |s'.pcs| ==> !Taken(s'.pcs[u])) ==> s'.letter == LetterAt(|s'.puts|)
  {
    var s' := Next(s, t);
    assert Local(s, s.pcs[t]);
    if s.pcs[t].PStoreLetter? {
      assert Taken(s'.pcs[t]);
    } else if Taken(s.pcs[t]) {
      assert s.pcs[t].PWrite? || Taken(s'.pcs[t]);
    } else if forall u :: 0 <= u < |s'.pcs| ==> !Taken(s'.pcs[u]) {
      forall u | 0 <= u < |s.pcs|
        ensures !Taken(s.pcs[u])
      {
        assert !Taken(s'.pcs[u]);
      }
    }
  }

  lemma NextLetter(k: nat)
    ensures LetterAt(k) != 'z' ==> Successor(LetterAt(k)) == LetterAt(k + 1) != Successor('z')
    ensures LetterAt(k) == 'z' ==> LetterAt(k + 1) == 'a'
  {}

  /** What a thread knows about its own next position. */
  lemma OwnLocal(s: State, t: nat)
    requires |s.sems| == 3 && t < |s.pcs| && Enabled(s, t) && Local(s, s.pcs[t])
    requires s.pcs[t].PStoreLetter? ==> s.letter == LetterAt(|s.puts|)
    ensures Local(Next(s, t), Next(s, t).pcs[t])
  {
    NextLetter(|s.puts|);
  }

  /** A start call changes nothing that another position relies on. */
  lemma OtherLocal(s: State, t: nat, pc: PC)
    requires |s.sems| == 3 && t < |s.pcs| && Enabled(s, t) && Local(s, pc)
    requires pc.PStart? || pc.CStart? || s.pcs[t].PStart? || s.pcs[t].CStart?
    ensures Local(Next(s, t), pc)
  {}

  lemma LocalsKept(s: State, t: nat, u: nat)
    requires Inv(s) && t < |s.pcs| && Enabled(s, t) && u < |s.pcs|
    ensures Local(Next(s, t), Next(s, t).pcs[u])
  {
    if !(s.pcs[t].PStart? || s.pcs[t].CStart?) {
      Alone(s, t);
    }
    if u == t {
      OwnLocal(s, t);
    } else {
      OtherLocal(s, t, s.pcs[u]);
    }
  }

  lemma StepKeepsInv(s: State, t: nat)
    requires Inv(s) && t < |s.pcs| && Enabled(s, t)
    ensures Inv(Next(s, t))
  {
    Simulates(s, t);
    R.ExecKeepsInv(Ring(s), Turns(s, t));
    PointersKept(s, t);
    PageKept(s, t);
    LettersKept(s, t);
    forall u | 0 <= u < |s.pcs|
      ensures Local(Next(s, t), Next(s, t).pcs[u])
    {
      LocalsKept(s, t, u);
    }
  }

  /** The turns of the ring server that match a whole schedule. */
  function AllTurns(s: State, schedule: seq<nat>): (r: seq<R.Turn>)
    requires |s.sems| == 3 && forall k :: 0 <= k < |schedule| ==> schedule[k] < |s.pcs|
    ensures forall k :: 0 <= k < |r| ==> r[k].thread < |s.pcs|
    decreases |schedule|
  {
    if schedule == [] then []
    else if Enabled(s, schedule[0])
    then Turns(s, schedule[0]) + AllTurns(Next(s, schedule[0]), schedule[1..])
    else AllTurns(s, schedule[1..])
  }

  lemma {:induction false} ExecSplits(r: R.State, a: seq<R.Turn>, b: seq<R.Turn>)
    requires R.WellFormed(r)
    requires forall k :: 0 <= k < |a| ==> a[k].thread < |r.pcs|
    requires forall k :: 0 <= k < |b| ==> b[k].thread < |r.pcs|
    ensures R.Exec(r, a + b) == R.Exec(R.Exec(r, a), b)
    decreases |a|
  {
    if a == [] {
      assert a + b == b;
    } else {
      assert (a + b)[1..] == a[1..] + b;
      ExecSplits(if R.Enabled(r, a[0].thread) then R.Next(r, a[0]) else r, a[1..], b);
    }
  }

  /** Every run of the processes is a run of the ring server. */
  lemma {:induction false} RefinesRing(s: State, schedule: seq<nat>)
    requires Inv(s) && forall k :: 0 <= k < |schedule| ==> schedule[k] < |s.pcs|
    ensures Inv(Exec(s, schedule))
    ensures R.Exec(Ring(s), AllTurns(s, schedule)) == Ring(Exec(s, schedule))
    decreases |schedule|
  {
    if schedule != [] {
      var t, rest := schedule[0], schedule[1..];
      if Enabled(s, t) {
        StepKeepsInv(s, t);
        Simulates(s, t);
        RefinesRing(Next(s, t), rest);
        ExecSplits(Ring(s), Turns(s, t), AllTurns(Next(s, t), rest));
      } else {
        RefinesRing(s, rest);
      }
    }
  }

  /** Under the matching schedule the 26-cell ring and the linear buffer deliver
      the same letters: letter j is 'a' + j % 26, the letters got are a prefix
      of the letters put, at most 26 are in flight, and the write pointer is
      within the page as long as the puts fit it. */
  lemma SameDelivery(s: State, schedule: seq<nat>)
    requires Initial(s) && forall k :: 0 <= k < |schedule| ==> schedule[k] < |s.pcs|
    ensures R.Initial(Ring(s))
    ensures var r, ring := Exec(s, schedule), R.Exec(Ring(s), AllTurns(s, schedule));
            && ring.gots == r.gots && ring.puts == r.puts && ring.sems == r.sems
            && r.gots <= r.puts && |r.puts| - |r.gots| <= R.SIZE
            && (forall j :: 0 <= j < |r.gots| ==> r.gots[j] == ('a' as int + j % 26) as char)
            && |r.puts| <= |r.page| && r.page[..|r.puts|] == r.puts
  {
    InitialInv(s);
    RefinesRing(s, schedule);
    var r := Exec(s, schedule);
    forall j | 0 <= j < |r.gots|
      ensures r.gots[j] == LetterAt(j)
    {
      assert r.gots[j] == r.puts[j];
    }
  }

  // ---- The program ----

  /** The shared segment, the semaphore set and the processes. */
  class Processes {
    var sems: seq<int>
    const page: array<char>
    var prPtr: int
    var conPtr: int
    var letter: char
    var pcs: seq<PC>
    ghost var puts: seq<char>
    ghost var gots: seq<char>

    ghost function View(): State
      reads this, page
    {
      State(sems, page[..], prPtr, conPtr, letter, pcs, puts, gots)
    }

    ghost predicate Valid()
      reads this, page
    {
      Inv(View())
    }

    constructor (room: nat, producers: nat, consumers: nat)
      ensures Initial(View()) && Valid() && |pcs| == producers + consumers && page.Length == room && fresh(page)
    {
      sems, prPtr, conPtr, letter := [R.SIZE, 0, 1], 0, 0, 'a';
      page := new char[room](_ => '\0');
      pcs := seq(producers + consumers, i => if i < producers then PStart else CStart);
      puts, gots := [], [];
      new;
      InitialInv(View());
    }

    /** One step of producer(). */
    method Producer(t: nat)
      requires |sems| == 3 && t < |pcs| && Enabled(View(), t)
      requires !(pcs[t].CStart? || pcs[t].CRead? || pcs[t].CLoadPtr? || pcs[t].CStorePtr? || pcs[t].CStop?)
      modifies this, page
      ensures View() == Next(old(View()), t)
    {
      var next := PStart;
      match pcs[t] {
        case PStart => sems := Semop(sems, R.START_PRODUCE).sems; next := PLoadLetter;
        case PLoadLetter => next := PStoreLetter(letter);
        case PStoreLetter(v) => letter := Successor(v); next := PAskWrap(v);
        case PAskWrap(c) => next := if letter == Successor('z') then PWrap(c) else PWrite(c);
        case PWrap(c) => letter := 'a'; next := PWrite(c);
        case PWrite(c) => page[prPtr], puts := c, puts + [c]; next := PLoadPtr;
        case PLoadPtr => next := PStorePtr(prPtr);
        case PStorePtr(p) => prPtr := p + 1; next := PStop;
        case PStop => sems := Semop(sems, R.STOP_PRODUCE).sems;
      }
      pcs := pcs[t := next];
    }

    /** One step of consumer(). */
    method Consumer(t: nat)
      requires |sems| == 3 && t < |pcs| && Enabled(View(), t)
      requires pcs[t].CStart? || pcs[t].CRead? || pcs[t].CLoadPtr? || pcs[t].CStorePtr? || pcs[t].CStop?
      modifies this
      ensures View() == Next(old(View()), t)
    {
      var next := CStart;
      match pcs[t] {
        case CStart => sems := Semop(sems, R.START_CONSUME).sems; next := CRead;
        case CRead => gots := gots + [page[conPtr]]; next := CLoadPtr;
        case CLoadPtr => next := CStorePtr(conPtr);
        case CStorePtr(p) => conPtr := p + 1; next := CStop;
        case CStop => sems := Semop(sems, R.STOP_CONSUME).sems;
      }
      pcs := pcs[t := next];
    }

    /** A turn: one step, or none while the process cannot move. */
    method Take(t: nat)
      requires Valid() && t < |pcs|
      modifies this, page
      ensures Valid() && |pcs| == old(|pcs|)
      ensures View() == if old(Enabled(View(), t)) then Next(old(View()), t) else old(View())
    {
      var pc := pcs[t];
      if Semop(sems, CallAt(pc)).Done?
         && (pc.PWrite? ==> 0 <= prPtr < page.Length) && (pc.CRead? ==> 0 <= conPtr < page.Length)
      {
        StepKeepsInv(View(), t);
        if pc.CStart? || pc.CRead? || pc.CLoadPtr? || pc.CStorePtr? || pc.CStop? {
          Consumer(t);
        } else {
          Producer(t);
        }
      }
    }

    method Run(schedule: seq<nat>)
      requires Valid() && forall k :: 0 <= k < |schedule| ==> schedule[k] < |pcs|
      modifies this, page
      ensures Valid() && |pcs| == old(|pcs|)
      ensures View() == Exec(old(View()), schedule)
    {
      for k := 0 to |schedule|
        invariant Valid() && |pcs| == old(|pcs|)
        invariant Exec(View(), schedule[k..]) == Exec(old(View()), schedule)
      {
        assert schedule[k..][1..] == schedule[k + 1..];
        Take(schedule[k]);
      }
    }
  }
}
