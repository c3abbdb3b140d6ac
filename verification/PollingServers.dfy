/** The two single-threaded servers with IPC_NOWAIT semaphores:
    lab_sockets/lab_03/lab_03/server_2.c and lab_sockets/lab_03/multiplex/server.c. */
module PollingServers {
  import opened BoundedQueue
  import opened Semaphores

  const EMPTY := 0
  const FULL := 1

  const START_PRODUCE := [SemBuf(EMPTY, -1, true)]
  const START_CONSUME := [SemBuf(FULL, -1, true)]

  const OK := 0
  const ERR_BUF_FULL := 1        // lab_03/common.h
  const ERR_BUF_EMPTY := 2
  const BUFFER_FULL_ERR := 3     // multiplex/common.h
  const BUFFER_EMPTY_ERR := 4

  lemma SemopOne(sems: seq<int>, ops: seq<SemBuf>)
    requires |ops| == 1 && Fits(ops, |sems|)
    ensures Semop(sems, ops) ==
            if Admits(sems[ops[0].num], ops[0].op) then Done(sems[ops[0].num := sems[ops[0].num] + ops[0].op])
            else if ops[0].nowait then Again else Blocks
  {
    assert ops[1..] == [];
    assert Semop(sems[ops[0].num := sems[ops[0].num] + ops[0].op], ops[1..])
        == Done(sems[ops[0].num := sems[ops[0].num] + ops[0].op]);
  }

  /** The letters in the ring from head, as far as the semaphore FULL counts. */
  function Queue(sems: seq<int>, ring: seq<char>, head: int): seq<char>
    requires |sems| == 2 && |ring| == CAPACITY && 0 <= head < CAPACITY && 0 <= sems[FULL] <= CAPACITY
  {
    seq(sems[FULL], (i: nat) requires i < sems[FULL] => ring[(head + i) % CAPACITY])
  }

  predicate Consistent(sems: seq<int>, ring: seq<char>, head: int, tail: int) {
    && |sems| == 2 && |ring| == CAPACITY && 0 <= head < CAPACITY
    && sems[EMPTY] >= 0 && sems[FULL] >= 0 && sems[EMPTY] + sems[FULL] == CAPACITY
    && tail == (head + sems[FULL]) % CAPACITY
  }

  /** The cells in use are not the one at the tail. */
  lemma CellsApart(head: int, i: nat, full: nat)
    requires 0 <= head && i < full < CAPACITY
    ensures (head + i) % CAPACITY != (head + full) % CAPACITY
  {}

  lemma TailAdvances(head: int, full: nat)
    requires 0 <= head
    ensures ((head + full) % CAPACITY + 1) % CAPACITY == (head + (full + 1)) % CAPACITY
  {}

  lemma HeadAdvances(head: int, i: nat)
    requires 0 <= head
    ensures ((head + 1) % CAPACITY + i) % CAPACITY == (head + (i + 1)) % CAPACITY
  {}

  lemma IsSnoc(q: seq<char>, q': seq<char>, c: char)
    requires |q'| == |q| + 1 && q'[|q|] == c && forall i :: 0 <= i < |q| ==> q'[i] == q[i]
    ensures q' == q + [c]
  {}

  lemma IsCons(q: seq<char>, q': seq<char>, c: char)
    requires |q| == |q'| + 1 && q[0] == c && forall i :: 0 <= i < |q'| ==> q'[i] == q[i + 1]
    ensures q == [c] + q'
  {}

  lemma QueueAfterPut(sems: seq<int>, ring: seq<char>, head: int, tail: int, c: char, sems': seq<int>)
    requires Consistent(sems, ring, head, tail) && sems[FULL] < CAPACITY
    requires sems' == [sems[EMPTY] - 1, sems[FULL] + 1]
    ensures Consistent(sems', ring[tail := c], head, (tail + 1) % CAPACITY)
    ensures Queue(sems', ring[tail := c], head) == Queue(sems, ring, head) + [c]
  {
    var q, q' := Queue(sems, ring, head), Queue(sems', ring[tail := c], head);
    TailAdvances(head, sems[FULL]);
    forall i: nat | i < sems[FULL]
      ensures q'[i] == q[i]
    {
      CellsApart(head, i, sems[FULL]);
    }
    IsSnoc(q, q', c);
  }

  lemma ConsistentAfterGet(sems: seq<int>, ring: seq<char>, head: int, tail: int, sems': seq<int>)
    requires Consistent(sems, ring, head, tail) && sems[FULL] > 0
    requires sems' == [sems[EMPTY] + 1, sems[FULL] - 1]
    ensures Consistent(sems', ring, (head + 1) % CAPACITY, tail)
  {
    HeadAdvances(head, sems[FULL] - 1);
  }

  lemma QueueAfterGet(sems: seq<int>, ring: seq<char>, head: int, tail: int, sems': seq<int>)
    requires Consistent(sems, ring, head, tail) && sems[FULL] > 0
    requires sems' == [sems[EMPTY] + 1, sems[FULL] - 1]
    ensures Consistent(sems', ring, (head + 1) % CAPACITY, tail)
    ensures Queue(sems, ring, head) == [ring[head]] + Queue(sems', ring, (head + 1) % CAPACITY)
  {
    ConsistentAfterGet(sems, ring, head, tail, sems');
    ShiftedQueue(ring, head, (head + 1) % CAPACITY, sems, sems');
  }

  lemma ShiftedQueue(ring: seq<char>, head: int, next: int, sems: seq<int>, sems': seq<int>)
    requires |sems| == 2 == |sems'| && |ring| == CAPACITY && 0 <= head < CAPACITY && 0 <= next < CAPACITY
    requires 0 < sems[FULL] <= CAPACITY && sems'[FULL] == sems[FULL] - 1 && next == (head + 1) % CAPACITY
    ensures Queue(sems, ring, head) == [ring[head]] + Queue(sems', ring, next)
  {
    var q, q' := Queue(sems, ring, head), Queue(sems', ring, next);
    forall i: nat | i < sems'[FULL]
      ensures q'[i] == q[i + 1]
    {
      HeadAdvances(head, i);
    }
    IsCons(q, q', ring[head]);
  }

  // ---- server_2.c ----

  /** req_t, the record that is received, changed and sent back. */
  datatype Req = Req(kind: char, status: int, letter: char)

  function CommandOf(req: Req): Command {
    if req.kind == 'p' then Put(req.letter) else if req.kind == 'c' then Get else Other
  }

  /** The record that conveys an answer. */
  function Answer(req: Req, reply: Reply): Req {
    match reply
    case Accepted => req.(status := OK)
    case Full => req.(status := ERR_BUF_FULL)
    case Got(c) => req.(status := OK, letter := c)
    case Empty => req.(status := ERR_BUF_EMPTY)
    case Ignored => req
  }

  function Commands(reqs: seq<Req>): (r: seq<Command>)
    ensures |r| == |reqs|
  {
    seq(|reqs|, i requires 0 <= i < |reqs| => CommandOf(reqs[i]))
  }

  class RecordServer {
    const STOP_PRODUCE := [SemBuf(FULL, 1, true)]
    const STOP_CONSUME := [SemBuf(EMPTY, 1, true)]

    var sems: seq<int>
    const ring: array<char>
    var head: int
    var tail: int

    ghost predicate Valid()
      reads this, ring
    {
      Consistent(sems, ring[..], head, tail)
    }

    ghost function Contents(): seq<char>
      requires Valid()
      reads this, ring
    {
      Queue(sems, ring[..], head)
    }

    constructor ()
      ensures Valid() && Contents() == [] && fresh(ring)
    {
      sems, head, tail := [CAPACITY, 0], 0, 0;
      ring := new char[CAPACITY](_ => '\0');
    }

    /** The body of the loop of serve() for one received record. The branches
        taken when a stop call reports EAGAIN are part of the code; the contract
        shows that their status is never sent. */
    method Serve(request: Req) returns (req: Req)
      requires Valid()
      modifies this, ring
      ensures Valid()
      ensures var (queue, reply) := Offer(old(Contents()), CommandOf(request));
              Contents() == queue && req == Answer(request, reply)
      ensures request.kind == 'p' && |old(Contents())| < 26 ==>
                req == Req('p', 0, request.letter) && Contents() == old(Contents()) + [request.letter]
      ensures request.kind == 'p' && |old(Contents())| >= 26 ==>
                req == Req('p', 1, request.letter) && Contents() == old(Contents())
      ensures request.kind == 'c' && old(Contents()) != [] ==>
                req == Req('c', 0, old(Contents())[0]) && Contents() == old(Contents())[1..]
      ensures request.kind == 'c' && old(Contents()) == [] ==>
                req == Req('c', 2, request.letter) && Contents() == old(Contents())
      ensures request.kind != 'p' && request.kind != 'c' ==> req == request && Contents() == old(Contents())
    {
      req := request;
      match request.kind {
        case 'p' =>
          SemopOne(sems, START_PRODUCE);
          var started := Semop(sems, START_PRODUCE);
          if started.Again? {
            req := req.(status := ERR_BUF_FULL);
          } else {
            QueueAfterPut(sems, ring[..], head, tail, req.letter, [sems[EMPTY] - 1, sems[FULL] + 1]);
            sems := started.sems;
            ring[tail] := req.letter;
            tail := (tail + 1) % CAPACITY;
            req := req.(status := OK);
            SemopOne(sems, STOP_PRODUCE);
            var stopped := Semop(sems, STOP_PRODUCE);
            match stopped {
              case Done(after) => sems := after;
              case _ => req := req.(status := ERR_BUF_EMPTY);
            }
          }
        case 'c' =>
          SemopOne(sems, START_CONSUME);
          var started := Semop(sems, START_CONSUME);
          if started.Again? {
            req := req.(status := ERR_BUF_EMPTY);
          } else {
            QueueAfterGet(sems, ring[..], head, tail, [sems[EMPTY] + 1, sems[FULL] - 1]);
            sems := started.sems;
            req := req.(letter := ring[head]);
            head := (head + 1) % CAPACITY;
            req := req.(status := OK);
            SemopOne(sems, STOP_CONSUME);
            var stopped := Semop(sems, STOP_CONSUME);
            match stopped {
              case Done(after) => sems := after;
              case _ => req := req.(status := ERR_BUF_FULL);
            }
          }
        case _ =>
      }
    }

    /** A whole list of requests, from whatever connections. */
    method ServeAll(requests: seq<Req>) returns (answers: seq<Req>)
      requires Valid()
      modifies this, ring
      ensures Valid() && |answers| == |requests|
      ensures Contents() == After(old(Contents()), Commands(requests))
      ensures forall i :: 0 <= i < |requests| ==>
                answers[i] == Answer(requests[i], Replies(old(Contents()), Commands(requests))[i])
    {
      answers := [];
      ghost var start := Contents();
      for k := 0 to |requests|
        invariant Valid() && |answers| == k
        invariant Contents() == After(start, Commands(requests[..k]))
        invariant forall i :: 0 <= i < k ==>
                    answers[i] == Answer(requests[i], Replies(start, Commands(requests[..k]))[i])
      {
        assert Commands(requests[..k + 1]) == Commands(requests[..k]) + [CommandOf(requests[k])];
        OneMore(start, Commands(requests[..k]), CommandOf(requests[k]));
        var answer := Serve(requests[k]);
        answers := answers + [answer];
      }
      assert requests[..|requests|] == requests;
    }
  }

  // ---- multiplex/server.c ----

  /** What a client is sent: a status word, the first eight bytes of the buffer
      (sizeof a pointer), or nothing. */
  datatype Sent = Status(code: int) | Bytes(bytes: seq<char>) | Nothing

  function BufferCommand(buf: seq<char>): Command
    requires |buf| >= 8
  {
    if buf[0] == 'P' then Put(buf[1]) else if buf[0] == 'C' then Get else Other
  }

  /** The message that conveys an answer to a buffer. */
  function Message(buf: seq<char>, reply: Reply): Sent
    requires |buf| >= 8
  {
    match reply
    case Accepted => Status(OK)
    case Full => Status(BUFFER_FULL_ERR)
    case Got(c) => Bytes([OK as char, c] + buf[2..8])
    case Empty => Bytes([BUFFER_EMPTY_ERR as char, '\0'] + buf[2..8])
    case Ignored => Nothing
  }

  predicate Buffers(bufs: seq<seq<char>>) {
    forall i :: 0 <= i < |bufs| ==> |bufs[i]| >= 8
  }

  function BufferCommands(bufs: seq<seq<char>>): (r: seq<Command>)
    requires Buffers(bufs)
    ensures |r| == |bufs|
  {
    seq(|bufs|, i requires 0 <= i < |bufs| => BufferCommand(bufs[i]))
  }

  class EpollServer {
    const STOP_PRODUCE := [SemBuf(FULL, 1, false)]
    const STOP_CONSUME := [SemBuf(EMPTY, 1, false)]

    var sems: seq<int>
    const ring: array<char>
    var head: int
    var tail: int

    ghost predicate Valid()
      reads this, ring
    {
      Consistent(sems, ring[..], head, tail)
    }

    ghost function Contents(): seq<char>
      requires Valid()
      reads this, ring
    {
      Queue(sems, ring[..], head)
    }

    constructor ()
      ensures Valid() && Contents() == [] && fresh(ring)
    {
      sems, head, tail := [CAPACITY, 0], 0, 0;
      ring := new char[CAPACITY](_ => '\0');
    }

    /** handle_client_command, which reuses the request's buffer. The result of
        the two stop calls is not looked at. */
    method HandleClientCommand(buf: array<char>) returns (sent: Sent)
      requires Valid() && buf.Length >= 8 && buf != ring
      modifies this, ring, buf
      ensures Valid()
      ensures var (queue, reply) := Offer(old(Contents()), BufferCommand(old(buf[..])));
              Contents() == queue && sent == Message(old(buf[..]), reply)
      ensures old(buf[0]) == 'P' && |old(Contents())| < 26 ==>
                sent == Status(0) && Contents() == old(Contents()) + [old(buf[1])]
      ensures old(buf[0]) == 'P' && |old(Contents())| >= 26 ==> sent == Status(3) && Contents() == old(Contents())
      ensures old(buf[0]) == 'C' && old(Contents()) != [] ==>
                sent == Bytes([0 as char, old(Contents())[0]] + old(buf[2..8])) && Contents() == old(Contents())[1..]
      ensures old(buf[0]) == 'C' && old(Contents()) == [] ==>
                sent == Bytes([4 as char, 0 as char] + old(buf[2..8])) && Contents() == old(Contents())
      ensures old(buf[0]) != 'P' && old(buf[0]) != 'C' ==> sent == Nothing && Contents() == old(Contents())
    {
      match buf[0] {
        case 'P' => sent := HandlePut(buf[1]);
        case 'C' => sent := HandleGet(buf);
        case _ => sent := Nothing;
      }
    }

    method HandlePut(item: char) returns (sent: Sent)
      requires Valid()
      modifies this, ring
      ensures Valid()
      ensures var (queue, reply) := Offer(old(Contents()), Put(item));
              Contents() == queue && sent == Status(if reply.Full? then BUFFER_FULL_ERR else OK)
      ensures if |old(Contents())| < 26 then sent == Status(0) && Contents() == old(Contents()) + [item]
              else sent == Status(3) && Contents() == old(Contents())
    {
      SemopOne(sems, START_PRODUCE);
      var started := Semop(sems, START_PRODUCE);
      if started.Again? {
        return Status(BUFFER_FULL_ERR);
      }
      QueueAfterPut(sems, ring[..], head, tail, item, [sems[EMPTY] - 1, sems[FULL] + 1]);
      ring[tail] := item;
      tail := (tail + 1) % CAPACITY;
      SemopOne(started.sems, STOP_PRODUCE);
      sems := Ignoring(started.sems, STOP_PRODUCE);
      sent := Status(OK);
    }

    method HandleGet(buf: array<char>) returns (sent: Sent)
      requires Valid() && buf.Length >= 8 && buf != ring
      modifies `sems, `head, buf
      ensures Valid()
      ensures var (queue, reply) := Offer(old(Contents()), Get);
              Contents() == queue && sent == Message(old(buf[..]), reply)
      ensures if old(Contents()) == []
              then sent == Bytes([4 as char, 0 as char] + old(buf[2..8])) && Contents() == []
              else sent == Bytes([0 as char, old(Contents())[0]] + old(buf[2..8]))
                   && Contents() == old(Contents())[1..]
    {
      SemopOne(sems, START_CONSUME);
      var started := Semop(sems, START_CONSUME);
      if started.Again? {
        buf[0], buf[1] := BUFFER_EMPTY_ERR as char, '\0';
      } else {
        QueueAfterGet(sems, ring[..], head, tail, [sems[EMPTY] + 1, sems[FULL] - 1]);
        var item := ring[head];
        head := (head + 1) % CAPACITY;
        SemopOne(started.sems, STOP_CONSUME);
        sems := Ignoring(started.sems, STOP_CONSUME);
        buf[0], buf[1] := OK as char, item;
      }
      sent := Bytes(buf[..8]);
    }

    /** A semop call whose result is ignored. */
    static function Ignoring(sems: seq<int>, ops: seq<SemBuf>): seq<int>
      requires Fits(ops, |sems|)
    {
      match Semop(sems, ops) case Done(after) => after case _ => sems
    }

    method HandleAll(bufs: seq<seq<char>>) returns (sent: seq<Sent>)
      requires Valid() && Buffers(bufs)
      modifies this, ring
      ensures Valid() && |sent| == |bufs|
      ensures Contents() == After(old(Contents()), BufferCommands(bufs))
      ensures forall i :: 0 <= i < |bufs| ==>
                sent[i] == Message(bufs[i], Replies(old(Contents()), BufferCommands(bufs))[i])
    {
      sent := [];
      ghost var start := Contents();
      for k := 0 to |bufs|
        invariant Valid() && |sent| == k
        invariant Contents() == After(start, BufferCommands(bufs[..k]))
        invariant forall i :: 0 <= i < k ==>
                    sent[i] == Message(bufs[i], Replies(start, BufferCommands(bufs[..k]))[i])
      {
        assert BufferCommands(bufs[..k + 1]) == BufferCommands(bufs[..k]) + [BufferCommand(bufs[k])];
        OneMore(start, BufferCommands(bufs[..k]), BufferCommand(bufs[k]));
        var buf := new char[|bufs[k]|](i requires 0 <= i < |bufs[k]| => bufs[k][i]);
        assert buf[..] == bufs[k];
        var message := HandleClientCommand(buf);
        sent := sent + [message];
      }
      assert bufs[..|bufs|] == bufs;
    }
  }

  // ---- The two servers side by side ----

  /** What a client of either server learns from an answer. */
  function ReadReq(request: Req, answer: Req): Reply {
    match CommandOf(request)
    case Put(_) => if answer.status == OK then Accepted else Full
    case Get => if answer.status == OK then Got(answer.letter) else Empty
    case Other => Ignored
  }

  /** The message is of the kind that the client of this command expects. */
  predicate Readable(buf: seq<char>, sent: Sent) {
    && |buf| >= 8
    && (BufferCommand(buf).Get? ==> sent.Bytes? && |sent.bytes| >= 2)
    && (BufferCommand(buf).Put? ==> sent.Status?)
  }

  function ReadSent(buf: seq<char>, sent: Sent): Reply
    requires Readable(buf, sent)
  {
    match BufferCommand(buf)
    case Put(_) => if sent.code == OK then Accepted else Full
    case Get => if sent.bytes[0] == OK as char then Got(sent.bytes[1]) else Empty
    case Other => Ignored
  }

  /** Both encodings are faithful: whichever server is asked the same command in
      the same queue, its answer decodes to the answer of the bounded queue. */
  lemma SameAnswers(queue: seq<char>, request: Req, buf: seq<char>)
    requires |buf| >= 8 && CommandOf(request) == BufferCommand(buf)
    ensures var reply := Offer(queue, CommandOf(request)).1;
            var sent := Message(buf, reply);
            && ReadReq(request, Answer(request, reply)) == reply
            && (BufferCommand(buf).Get? ==> sent.Bytes? && |sent.bytes| == 8)
            && (BufferCommand(buf).Put? ==> sent.Status?)
            && ReadSent(buf, sent) == reply
  {
    assert CommandOf(request) == BufferCommand(buf);
  }

  /** What the clients of the two servers learn, request by request. */
  function ReadReqs(requests: seq<Req>, answers: seq<Req>): (r: seq<Reply>)
    requires |requests| == |answers|
    ensures |r| == |requests|
  {
    seq(|requests|, i requires 0 <= i < |requests| => ReadReq(requests[i], answers[i]))
  }

  function ReadAllSent(bufs: seq<seq<char>>, sent: seq<Sent>): (r: seq<Reply>)
    requires |bufs| == |sent| && forall i :: 0 <= i < |bufs| ==> Readable(bufs[i], sent[i])
    ensures |r| == |bufs|
  {
    seq(|bufs|, i requires 0 <= i < |bufs| && Readable(bufs[i], sent[i]) => ReadSent(bufs[i], sent[i]))
  }

  /** One command, sent to the two servers in their two encodings. */
  lemma SameCommand(requests: seq<Req>, bufs: seq<seq<char>>, i: nat)
    requires Buffers(bufs) && Commands(requests) == BufferCommands(bufs) && i < |requests|
    ensures |requests| == |bufs| && CommandOf(requests[i]) == BufferCommand(bufs[i])
  {
    assert |requests| == |Commands(requests)| == |BufferCommands(bufs)|;
    assert Commands(requests)[i] == BufferCommands(bufs)[i];
  }

  /** The answers to a whole list of the same commands tell the same: the replies of
      the bounded queue. */
  lemma SameReplies(queue: seq<char>, requests: seq<Req>, bufs: seq<seq<char>>, answers: seq<Req>, sent: seq<Sent>)
    requires Buffers(bufs) && Commands(requests) == BufferCommands(bufs)
    requires |answers| == |requests| && |sent| == |bufs|
    requires forall i :: 0 <= i < |requests| ==>
               answers[i] == Answer(requests[i], Replies(queue, Commands(requests))[i])
    requires forall i :: 0 <= i < |bufs| ==> sent[i] == Message(bufs[i], Replies(queue, BufferCommands(bufs))[i])
    ensures forall i :: 0 <= i < |bufs| ==> Readable(bufs[i], sent[i])
    ensures ReadReqs(requests, answers) == ReadAllSent(bufs, sent) == Replies(queue, Commands(requests))
  {
    var replies := Replies(queue, Commands(requests));
    assert |requests| == |Commands(requests)| == |bufs|;
    forall i | 0 <= i < |bufs|
      ensures Readable(bufs[i], sent[i]) && ReadReq(requests[i], answers[i]) == ReadSent(bufs[i], sent[i]) == replies[i]
    {
      SameCommand(requests, bufs, i);
      ReplyFits(queue, Commands(requests), i);
      ReadBack(requests[i], bufs[i], replies[i]);
    }
  }

  /** A reply of the bounded queue is of the kind that its command asks for. */
  predicate Suits(command: Command, reply: Reply) {
    match command
    case Put(_) => reply.Accepted? || reply.Full?
    case Get => reply.Got? || reply.Empty?
    case Other => reply.Ignored?
  }

  lemma {:induction false} ReplyFits(queue: seq<char>, commands: seq<Command>, i: nat)
    requires i < |commands|
    ensures |Replies(queue, commands)| == |commands| && Suits(commands[i], Replies(queue, commands)[i])
    decreases |commands|
  {
    if i > 0 {
      ReplyFits(Offer(queue, commands[0]).0, commands[1..], i - 1);
    }
  }

  lemma ReadBack(request: Req, buf: seq<char>, reply: Reply)
    requires |buf| >= 8 && CommandOf(request) == BufferCommand(buf) && Suits(BufferCommand(buf), reply)
    ensures Readable(buf, Message(buf, reply))
    ensures ReadReq(request, Answer(request, reply)) == ReadSent(buf, Message(buf, reply)) == reply
  {}

  /** Two fresh servers, each asked the same commands in its own encoding. */
  method ServeBoth(requests: seq<Req>, bufs: seq<seq<char>>) returns (answers: seq<Req>, sent: seq<Sent>)
    requires Buffers(bufs) && Commands(requests) == BufferCommands(bufs)
    ensures |answers| == |requests| && |sent| == |bufs|
    ensures forall i :: 0 <= i < |bufs| ==> Readable(bufs[i], sent[i])
    ensures ReadReqs(requests, answers) == ReadAllSent(bufs, sent) == Replies([], Commands(requests))
  {
    var recordServer := new RecordServer();
    var epollServer := new EpollServer();
    answers := recordServer.ServeAll(requests);
    sent := epollServer.HandleAll(bufs);
    SameReplies([], requests, bufs, answers, sent);
  }
}
