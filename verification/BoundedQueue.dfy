/** The queue that the two single-threaded servers offer to their clients: at
    most 26 letters, first in first out, with a refusal instead of a wait. */
module BoundedQueue {

  const CAPACITY := 26

  datatype Command = Put(letter: char) | Get | Other

  datatype Reply = Accepted | Full | Got(letter: char) | Empty | Ignored

  /** The queue after one command, and the answer to it. */
  function Offer(queue: seq<char>, command: Command): (seq<char>, Reply) {
    match command
    case Put(c) => if |queue| < CAPACITY then (queue + [c], Accepted) else (queue, Full)
    case Get => if queue != [] then (queue[1..], Got(queue[0])) else (queue, Empty)
    case Other => (queue, Ignored)
  }

  function After(queue: seq<char>, commands: seq<Command>): seq<char>
    decreases |commands|
  {
    if commands == [] then queue else After(Offer(queue, commands[0]).0, commands[1..])
  }

  function Replies(queue: seq<char>, commands: seq<Command>): (r: seq<Reply>)
    ensures |r| == |commands|
    decreases |commands|
  {
    if commands == [] then []
    else [Offer(queue, commands[0]).1] + Replies(Offer(queue, commands[0]).0, commands[1..])
  }

  /** One more command at the end of a list. */
  lemma {:induction false} OneMore(queue: seq<char>, commands: seq<Command>, last: Command)
    ensures After(queue, commands + [last]) == Offer(After(queue, commands), last).0
    ensures Replies(queue, commands + [last]) == Replies(queue, commands) + [Offer(After(queue, commands), last).1]
    decreases |commands|
  {
    if commands != [] {
      assert (commands + [last])[1..] == commands[1..] + [last];
      OneMore(Offer(queue, commands[0]).0, commands[1..], last);
    }
  }

  /** The letter a command adds to the queue, if it is accepted. */
  function Accept(command: Command, reply: Reply): seq<char> {
    if command.Put? && reply.Accepted? then [command.letter] else []
  }

  function Deliver(reply: Reply): seq<char> {
    if reply.Got? then [reply.letter] else []
  }

  function Accepts(commands: seq<Command>, replies: seq<Reply>): seq<char>
    requires |commands| == |replies|
    decreases |commands|
  {
    if commands == [] then [] else Accept(commands[0], replies[0]) + Accepts(commands[1..], replies[1..])
  }

  function Gots(replies: seq<Reply>): seq<char> {
    if replies == [] then [] else Deliver(replies[0]) + Gots(replies[1..])
  }

  lemma OneExchange(queue: seq<char>, command: Command)
    ensures var (q, r) := Offer(queue, command);
            queue + Accept(command, r) == Deliver(r) + q
  {}

  lemma Chain(start: seq<char>, in1: seq<char>, out1: seq<char>, mid: seq<char>,
              in2: seq<char>, out2: seq<char>, end: seq<char>)
    requires start + in1 == out1 + mid && mid + in2 == out2 + end
    ensures start + (in1 + in2) == (out1 + out2) + end
  {
    assert start + (in1 + in2) == (start + in1) + in2 == out1 + (mid + in2);
  }

  /** Nothing is lost, made up or overtaken: what was there followed by what was
      accepted is what was got followed by what is left; and the queue never
      exceeds its capacity. */
  lemma {:induction false} FirstInFirstOut(queue: seq<char>, commands: seq<Command>)
    requires |queue| <= CAPACITY
    ensures queue + Accepts(commands, Replies(queue, commands))
            == Gots(Replies(queue, commands)) + After(queue, commands)
    ensures |After(queue, commands)| <= CAPACITY
    decreases |commands|
  {
    if commands != [] {
      var (q, r) := Offer(queue, commands[0]);
      var rest := Replies(q, commands[1..]);
      FirstInFirstOut(q, commands[1..]);
      assert Replies(queue, commands)[1..] == rest;
      OneExchange(queue, commands[0]);
      Chain(queue, Accept(commands[0], r), Deliver(r), q, Accepts(commands[1..], rest), Gots(rest),
            After(q, commands[1..]));
    }
  }

  /** Reply i is the answer to command i in the queue that the commands before it
      leave, and those are answered as without it. */
  lemma {:induction false} ReplyAt(queue: seq<char>, commands: seq<Command>, i: nat)
    requires i < |commands|
    ensures Replies(queue, commands)[..i] == Replies(queue, commands[..i])
    ensures Replies(queue, commands)[i] == Offer(After(queue, commands[..i]), commands[i]).1
    decreases |commands|
  {
    var (q, r) := Offer(queue, commands[0]);
    var rest := Replies(q, commands[1..]);
    if i > 0 {
      assert commands[..i][1..] == commands[1..][..i - 1];
      ReplyAt(q, commands[1..], i - 1);
      assert ([r] + rest)[..i] == [r] + rest[..i - 1];
    }
  }

  /** In every list of commands to an empty queue, a get is answered with the next
      of the accepted letters, and is refused if and only if as many letters have
      been got as accepted; a put is refused if and only if 26 more have been
      accepted than got. */
  lemma RefusedIff(commands: seq<Command>, i: nat)
    requires i < |commands|
    ensures var replies := Replies([], commands);
            var accepted := Accepts(commands[..i], replies[..i]);
            var got := |Gots(replies[..i])|;
            && got <= |accepted| <= got + 26
            && (commands[i].Get? ==>
                  replies[i] == if got < |accepted| then Got(accepted[got]) else Empty)
            && (commands[i].Put? ==> replies[i] == if |accepted| - got < 26 then Accepted else Full)
            && (commands[i].Other? ==> replies[i] == Ignored)
  {
    ReplyAt([], commands, i);
    FirstInFirstOut([], commands[..i]);
    var replies := Replies([], commands[..i]);
    var queue := After([], commands[..i]);
    assert [] + Accepts(commands[..i], replies) == Accepts(commands[..i], replies);
    assert queue != [] ==> (Gots(replies) + queue)[|Gots(replies)|] == queue[0];
  }
}
