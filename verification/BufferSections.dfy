/** What one round of a producer or a consumer does in
    sem_05/lab_03/producer-consumer/main.c, from its start call to its stop call. */
module BufferSections {
  import opened LinearBuffer
  import opened Semaphores
  import opened Tally
  import R = RingServer

  predicate AtStart(pc: PC) {
    pc.PStart? || pc.CStart?
  }

  /** Where the round of a process began. */
  function Home(pc: PC): PC {
    if pc.CStart? || pc.CRead? || pc.CLoadPtr? || pc.CStorePtr? || pc.CStop? then CStart else PStart
  }

  predicate BeforeWrite(pc: PC) {
    pc.PStart? || pc.PLoadLetter? || pc.PStoreLetter? || pc.PAskWrap? || pc.PWrap? || pc.PWrite?
  }

  /** The letters that a process has still to store in this round, and to load. */
  function ToStore(s: State, pc: PC): seq<char> {
    if BeforeWrite(pc) then [('a' as int + |s.puts| % 26) as char] else []
  }

  function ToLoad(s: State, pc: PC): seq<char> {
    if pc.CStart? || pc.CRead? then [('a' as int + |s.gots| % 26) as char] else []
  }

  /** The own turns of a process until its round is over, at most. */
  function Left(pc: PC): nat {
    match pc
    case PStart => 9
    case PLoadLetter => 8
    case PStoreLetter(_) => 7
    case PAskWrap(_) => 6
    case PWrap(_) => 5
    case PWrite(_) => 4
    case PLoadPtr => 3
    case PStorePtr(_) => 2
    case PStop => 1
    case CStart => 5
    case CRead => 4
    case CLoadPtr => 3
    case CStorePtr(_) => 2
    case CStop => 1
  }

  /** The page has room for what the process has to store. */
  predicate Room(s: State, pc: PC) {
    BeforeWrite(pc) ==> |s.puts| < |s.page|
  }

  lemma InsideRing(s: State, t: nat)
    requires t < |s.pcs|
    ensures R.Inside(Position(s.pcs[t], s.letter)) == Bit(!AtStart(s.pcs[t]))
  {}

  /** While a process is inside, no turn of another one has an effect. */
  lemma OthersWait(s: State, t: nat, u: nat)
    requires Inv(s) && t < |s.pcs| && u < |s.pcs| && t != u && !AtStart(s.pcs[t])
    ensures !Enabled(s, u)
  {
    InsideRing(s, t);
    Alone(s, t);
    TotalCovers(Ring(s).pcs, t, t, R.Inside);
    R.StartProduce(s.sems, R.START_PRODUCE);
    R.StartConsume(s.sems, R.START_CONSUME);
  }

  /** A letter that may be loaded is there. */
  lemma LetterThere(s: State, t: nat)
    requires Inv(s) && t < |s.pcs| && s.pcs[t].CRead?
    ensures s.con == |s.gots| < |s.puts| <= |s.page|
    ensures s.page[s.con] == ('a' as int + |s.gots| % 26) as char
  {
    MyPointers(s, t);
    R.Alone(Ring(s), t);
    assert R.SemsCount(Ring(s));
    assert s.page[..|s.puts|][s.con] == s.puts[s.con];
  }

  lemma GoesOn(s: State, t: nat)
    requires Inv(s) && t < |s.pcs| && !AtStart(s.pcs[t]) && Room(s, s.pcs[t])
    ensures Enabled(s, t)
  {
    InsideRing(s, t);
    R.InsideGoesOn(Ring(s), t);
    if s.pcs[t].PWrite? {
      MyPointers(s, t);
    } else if s.pcs[t].CRead? {
      LetterThere(s, t);
    }
  }

  /** A step brings the end of the round nearer, and what it stores or loads is
      what the process had to. */
  lemma OwnStep(s: State, t: nat)
    requires |s.sems| == 3 && t < |s.pcs| && Enabled(s, t) && Local(s, s.pcs[t])
    requires s.pcs[t].CRead? ==> s.page[s.con] == ('a' as int + |s.gots| % 26) as char
    ensures var s' := Next(s, t); var pc, pc' := s.pcs[t], s'.pcs[t];
            && (AtStart(pc') || Left(pc') < Left(pc)) && Home(pc') == Home(pc)
            && s'.puts + (if AtStart(pc') then [] else ToStore(s', pc')) == s.puts + ToStore(s, pc)
            && s'.gots + (if AtStart(pc') then [] else ToLoad(s', pc')) == s.gots + ToLoad(s, pc)
            && (Room(s, pc) && !AtStart(pc') ==> Room(s', pc'))
  {}

  /** At some moment of the run, process t is back at its start call and these are
      the letters stored and loaded. */
  predicate EndsWith(s: State, schedule: seq<nat>, t: nat, start: PC, puts: seq<char>, gots: seq<char>)
    requires |s.sems| == 3 && (forall k :: 0 <= k < |schedule| ==> schedule[k] < |s.pcs|) && t < |s.pcs|
    decreases |schedule|
  {
    || (s.pcs[t] == start && s.puts == puts && s.gots == gots)
    || (schedule != []
        && EndsWith(if Enabled(s, schedule[0]) then Next(s, schedule[0]) else s, schedule[1..], t, start, puts, gots))
  }

  lemma {:induction false} InsideEnds(s: State, schedule: seq<nat>, t: nat)
    requires Inv(s) && forall k :: 0 <= k < |schedule| ==> schedule[k] < |s.pcs|
    requires t < |s.pcs| && !AtStart(s.pcs[t]) && Room(s, s.pcs[t])
    requires TurnsOf(schedule, t) >= Left(s.pcs[t])
    ensures EndsWith(s, schedule, t, Home(s.pcs[t]), s.puts + ToStore(s, s.pcs[t]), s.gots + ToLoad(s, s.pcs[t]))
    decreases |schedule|
  {
    var u, rest := schedule[0], schedule[1..];
    if u != t {
      OthersWait(s, t, u);
      InsideEnds(s, rest, t);
    } else {
      GoesOn(s, t);
      StepKeepsInv(s, t);
      if s.pcs[t].CRead? {
        LetterThere(s, t);
      }
      OwnStep(s, t);
      var s' := Next(s, t);
      if AtStart(s'.pcs[t]) {
        assert s'.puts + [] == s'.puts && s'.gots + [] == s'.gots;
      } else {
        InsideEnds(s', rest, t);
      }
    }
  }

  lemma StartEnds(r: State, t: nat, future: seq<nat>, puts: seq<char>, gots: seq<char>)
    requires Inv(r) && forall k :: 0 <= k < |future| ==> future[k] < |r.pcs|
    requires t < |r.pcs| && AtStart(r.pcs[t]) && Enabled(r, t) && Room(r, r.pcs[t])
    requires TurnsOf(future, t) >= Left(r.pcs[t]) - 1
    requires puts == r.puts + ToStore(r, r.pcs[t]) && gots == r.gots + ToLoad(r, r.pcs[t])
    ensures EndsWith(Next(r, t), future, t, r.pcs[t], puts, gots)
  {
    StepKeepsInv(r, t);
    assert Local(r, r.pcs[t]);
    OwnStep(r, t);
    InsideEnds(Next(r, t), future, t);
  }

  /** In any state that a run reaches: whatever the others do, a process whose start
      call goes through ends its round after at most eight more turns of its own. A
      producer has then stored the next letter and nothing else, a consumer has
      loaded the oldest letter, and nobody else has stored or loaded any. */
  lemma RoundEnds(r: State, t: nat, future: seq<nat>)
    requires Inv(r) && forall k :: 0 <= k < |future| ==> future[k] < |r.pcs|
    requires t < |r.pcs| && AtStart(r.pcs[t]) && Enabled(r, t)
    requires r.pcs[t].PStart? ==> |r.puts| < |r.page|
    requires TurnsOf(future, t) >= if r.pcs[t].PStart? then 8 else 4
    ensures var put, got := ('a' as int + |r.puts| % 26) as char, ('a' as int + |r.gots| % 26) as char;
            if r.pcs[t].PStart? then EndsWith(Next(r, t), future, t, PStart, r.puts + [put], r.gots)
            else EndsWith(Next(r, t), future, t, CStart, r.puts, r.gots + [got])
  {
    if r.pcs[t].PStart? {
      StartEnds(r, t, future, r.puts + [('a' as int + |r.puts| % 26) as char], r.gots);
    } else {
      StartEnds(r, t, future, r.puts, r.gots + [('a' as int + |r.gots| % 26) as char]);
    }
  }
}
