/** The queue both ticket servers implement: tickets are numbered in the order
    of issue, and the ticket served next is always the oldest one waiting. */
module TicketQueue {

  /** Tickets 1 .. served have been served, served+1 .. issued are waiting. */
  datatype Queue = Queue(served: nat, issued: nat)

  predicate Stutters(q: Queue, q': Queue) {
    q' == q
  }

  predicate Issues(q: Queue, q': Queue) {
    q' == q.(issued := q.issued + 1)
  }

  predicate Serves(q: Queue, q': Queue) {
    q.served < q.issued && q' == q.(served := q.served + 1)
  }

  predicate QueueStep(q: Queue, q': Queue) {
    Stutters(q, q') || Issues(q, q') || Serves(q, q')
  }

  /** A run of the queue: the states one after the other, each by one step. */
  predicate QueueRun(trace: seq<Queue>, from: Queue, to: Queue) {
    && trace != [] && trace[0] == from && trace[|trace| - 1] == to
    && forall k :: 0 <= k < |trace| - 1 ==> QueueStep(trace[k], trace[k + 1])
  }

  lemma QueueRunCons(first: Queue, trace: seq<Queue>, from: Queue, to: Queue)
    requires QueueRun(trace, from, to) && QueueStep(first, from)
    ensures QueueRun([first] + trace, first, to)
  {
    forall k | 0 <= k < |[first] + trace| - 1
      ensures QueueStep(([first] + trace)[k], ([first] + trace)[k + 1])
    {
      if k > 0 {
        assert QueueStep(trace[k - 1], trace[k]);
      }
    }
  }

  /** first, first + 1, ... : a service log without gap, repeat or overtaking. */
  predicate Consecutive(log: seq<int>, first: int) {
    forall k :: 0 <= k < |log| ==> log[k] == first + k
  }
}
