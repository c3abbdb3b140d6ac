/** What dopath_no and dopath_chdir (lab_fs/main.c) have to report, said without
    the recursion: which places of the tree a walk stops at, in which order, and
    with which call at each. */
module WalkOrder {
  import opened FileTree
  import opened Traversal

  // ---- Places in a tree ----

  /** A way down from a directory, by the positions of its entries. */
  datatype Route = Here | Into(index: nat, rest: Route)

  /** The route leads somewhere: it goes down through directories that can be
      listed and by entries other than "." and "..". */
  predicate Leads(node: Node, route: Route) {
    match route
    case Here => true
    case Into(i, rest) =>
      && node.Dir? && node.readable && i < |node.entries|
      && node.entries[i].name != "." && node.entries[i].name != ".."
      && Leads(node.entries[i].node, rest)
  }

  function Reached(node: Node, route: Route): Node
    requires Leads(node, route)
  {
    match route
    case Here => node
    case Into(i, rest) => Reached(node.entries[i].node, rest)
  }

  function NamesTo(node: Node, route: Route): seq<string>
    requires Leads(node, route)
  {
    match route
    case Here => []
    case Into(i, rest) => [node.entries[i].name] + NamesTo(node.entries[i].node, rest)
  }

  function Depth(route: Route): nat {
    match route
    case Here => 0
    case Into(_, rest) => 1 + Depth(rest)
  }

  /** The way to the root of the tree comes before the ways below it, and those go
      by the order of the entries. */
  predicate Earlier(a: Route, b: Route) {
    b.Into? && (a.Here? || a.index < b.index || (a.index == b.index && Earlier(a.rest, b.rest)))
  }

  // ---- Stops of a walk ----

  /** A place where the walk calls back: once for what is there, and once more for a
      directory that cannot be listed. */
  datatype Stop = Stop(route: Route, refused: bool)

  predicate IsStop(node: Node, stop: Stop) {
    && Leads(node, stop.route)
    && (stop.refused ==> var there := Reached(node, stop.route); there.Dir? && !there.readable)
  }

  predicate Precedes(a: Stop, b: Stop) {
    Earlier(a.route, b.route) || (a.route == b.route && !a.refused && b.refused)
  }

  ghost predicate Ordered(stops: seq<Stop>) {
    forall i, j :: 0 <= i < j < |stops| ==> Precedes(stops[i], stops[j])
  }

  /** Every stop of the tree once, in order. */
  ghost predicate AllStops(node: Node, stops: seq<Stop>) {
    Ordered(stops) && forall stop :: stop in stops <==> IsStop(node, stop)
  }

  function Joined(path: string, names: seq<string>): string
    decreases |names|
  {
    if names == [] then path else Joined(path + "/" + names[0], names[1..])
  }

  /** What the callback is told at a stop: by full path all the names, otherwise the
      last one; and a slash behind a full path that was tried in vain. */
  function CallAt(node: Node, path: string, level: nat, relative: bool, stop: Stop): Call
    requires IsStop(node, stop)
  {
    var there, names := Reached(node, stop.route), NamesTo(node, stop.route);
    var name := if !relative then Joined(path, names) else if names == [] then path else names[|names| - 1];
    if stop.refused then Call(if relative then name else name + "/", level + Depth(stop.route), FtwDnr)
    else Call(name, level + Depth(stop.route), if there.Dir? then FtwD else if there.File? then FtwF else FtwNs)
  }

  // ---- The recursive walk makes exactly these stops ----

  function Stops(node: Node): seq<Stop>
    decreases node, 1
  {
    [Stop(Here, false)]
    + if !node.Dir? then [] else if node.readable then StopsIn(node.entries, 0) else [Stop(Here, true)]
  }

  function StopsIn(entries: seq<Entry>, from: nat): seq<Stop>
    decreases entries, 0
  {
    if entries == [] then [] else StopsFor(entries[0], from) + StopsIn(entries[1..], from + 1)
  }

  function StopsFor(entry: Entry, i: nat): seq<Stop>
    decreases entry, 2
  {
    if Dots(entry.name) then [] else Below(i, Stops(entry.node))
  }

  function Below(i: nat, stops: seq<Stop>): (r: seq<Stop>)
    ensures |r| == |stops| && forall k :: 0 <= k < |r| ==> r[k] == Stop(Into(i, stops[k].route), stops[k].refused)
  {
    seq(|stops|, k requires 0 <= k < |stops| => Stop(Into(i, stops[k].route), stops[k].refused))
  }

  /** A stop below the entries that have numbers from the given one on. */
  predicate IsStopIn(entries: seq<Entry>, from: nat, stop: Stop) {
    && stop.route.Into? && from <= stop.route.index < from + |entries|
    && var entry := entries[stop.route.index - from];
       entry.name != "." && entry.name != ".." && IsStop(entry.node, Stop(stop.route.rest, stop.refused))
  }

  lemma {:induction false} StopsAre(node: Node, stop: Stop)
    ensures stop in Stops(node) <==> IsStop(node, stop)
    decreases node, 1
  {
    if node.Dir? && node.readable {
      StopsInAre(node.entries, 0, stop);
    }
  }

  lemma FirstOrRest(entries: seq<Entry>, from: nat, stop: Stop)
    requires entries != []
    ensures IsStopIn(entries, from, stop)
       <==> IsStopIn([entries[0]], from, stop) || IsStopIn(entries[1..], from + 1, stop)
  {}

  lemma {:induction false} StopsInAre(entries: seq<Entry>, from: nat, stop: Stop)
    ensures stop in StopsIn(entries, from) <==> IsStopIn(entries, from, stop)
    decreases entries, 0
  {
    if entries != [] {
      StopsForAre(entries[0], from, stop);
      StopsInAre(entries[1..], from + 1, stop);
      FirstOrRest(entries, from, stop);
    }
  }

  lemma {:induction false} StopsForAre(entry: Entry, i: nat, stop: Stop)
    ensures stop in StopsFor(entry, i) <==> IsStopIn([entry], i, stop)
    decreases entry, 2
  {
    if !Dots(entry.name) {
      var stops := Stops(entry.node);
      if stop.route.Into? {
        var inner := Stop(stop.route.rest, stop.refused);
        StopsAre(entry.node, inner);
        if stop.route.index == i && inner in stops {
          var k :| 0 <= k < |stops| && stops[k] == inner;
          assert Below(i, stops)[k] == stop;
        }
      }
    }
  }

  lemma {:induction false} StopsOrdered(node: Node)
    ensures Ordered(Stops(node))
    decreases node, 1
  {
    if node.Dir? && node.readable {
      StopsInOrdered(node.entries, 0);
      forall k | 0 <= k < |StopsIn(node.entries, 0)|
        ensures StopsIn(node.entries, 0)[k].route.Into?
      {
        StopsInAre(node.entries, 0, StopsIn(node.entries, 0)[k]);
      }
    }
  }

  lemma {:induction false} StopsInOrdered(entries: seq<Entry>, from: nat)
    ensures Ordered(StopsIn(entries, from))
    decreases entries, 0
  {
    if entries != [] {
      var first, rest := StopsFor(entries[0], from), StopsIn(entries[1..], from + 1);
      if !Dots(entries[0].name) {
        StopsOrdered(entries[0].node);
      }
      StopsInOrdered(entries[1..], from + 1);
      forall k | 0 <= k < |rest|
        ensures rest[k].route.Into? && rest[k].route.index > from
      {
        StopsInAre(entries[1..], from + 1, rest[k]);
      }
    }
  }

  /** The call at a stop below an entry is the one made for the entry. */
  function CallBelow(entries: seq<Entry>, from: nat, dir: string, level: nat, relative: bool, stop: Stop): Call
    requires IsStopIn(entries, from, stop)
  {
    var entry := entries[stop.route.index - from];
    CallAt(entry.node, EntryPath(dir, entry.name, relative), level, relative, Stop(stop.route.rest, stop.refused))
  }

  lemma CallIsBelow(node: Node, path: string, level: nat, relative: bool, stop: Stop)
    requires node.Dir? && node.readable && IsStopIn(node.entries, 0, stop)
    ensures IsStop(node, stop)
    ensures CallAt(node, path, level, relative, stop)
            == CallBelow(node.entries, 0, path, level + 1, relative, stop)
  {
    var entry := node.entries[stop.route.index];
    var names, inner := NamesTo(node, stop.route), NamesTo(entry.node, stop.route.rest);
    assert names == [entry.name] + inner;
    assert names[1..] == inner;
    if inner != [] {
      assert names[|names| - 1] == inner[|inner| - 1];
    }
  }

  /** Call by call, what the walk reports is what the stops call for. */
  lemma {:induction false} CallsAt(node: Node, path: string, level: nat, relative: bool, k: nat)
    requires k < |Stops(node)|
    ensures |Calls(node, path, level, relative)| == |Stops(node)| && IsStop(node, Stops(node)[k])
    ensures Calls(node, path, level, relative)[k] == CallAt(node, path, level, relative, Stops(node)[k])
    decreases node, 1
  {
    StopsAre(node, Stops(node)[k]);
    if node.Dir? && node.readable {
      CallsInAt(node.entries, 0, path, level + 1, relative, k - 1);
      if k > 0 {
        LaterCall(node, path, level, relative, k);
        CallIsBelow(node, path, level, relative, Stops(node)[k]);
      } else {
        FirstCall(node, path, level, relative);
      }
    } else {
      CallsAtLeaf(node, path, level, relative, k);
    }
  }

  lemma FirstCall(node: Node, path: string, level: nat, relative: bool)
    requires node.Dir? && node.readable
    ensures Stops(node)[0] == Stop(Here, false)
    ensures Calls(node, path, level, relative)[0] == CallAt(node, path, level, relative, Stop(Here, false))
  {}

  lemma LaterCall(node: Node, path: string, level: nat, relative: bool, k: nat)
    requires node.Dir? && node.readable && 0 < k < |Stops(node)|
    requires |CallsIn(node.entries, path, level + 1, relative)| == |StopsIn(node.entries, 0)|
    ensures |Stops(node)| == 1 + |StopsIn(node.entries, 0)| && Stops(node)[k] == StopsIn(node.entries, 0)[k - 1]
    ensures |Calls(node, path, level, relative)| == |Stops(node)|
    ensures Calls(node, path, level, relative)[k] == CallsIn(node.entries, path, level + 1, relative)[k - 1]
  {}

  lemma CallsAtLeaf(node: Node, path: string, level: nat, relative: bool, k: nat)
    requires k < |Stops(node)| && !(node.Dir? && node.readable) && IsStop(node, Stops(node)[k])
    ensures |Calls(node, path, level, relative)| == |Stops(node)|
    ensures Calls(node, path, level, relative)[k] == CallAt(node, path, level, relative, Stops(node)[k])
  {
    match node
    case Unstatable =>
    case File =>
    case Dir(_, _, _) =>
      assert Stops(node) == [Stop(Here, false)] + [Stop(Here, true)];
  }

  lemma BelowFirst(entries: seq<Entry>, from: nat, dir: string, level: nat, relative: bool, stop: Stop)
    requires entries != [] && IsStopIn([entries[0]], from, stop)
    ensures IsStopIn(entries, from, stop)
    ensures CallBelow(entries, from, dir, level, relative, stop)
            == CallBelow([entries[0]], from, dir, level, relative, stop)
  {}

  lemma BelowRest(entries: seq<Entry>, from: nat, dir: string, level: nat, relative: bool, stop: Stop)
    requires entries != [] && IsStopIn(entries[1..], from + 1, stop)
    ensures IsStopIn(entries, from, stop)
    ensures CallBelow(entries, from, dir, level, relative, stop)
            == CallBelow(entries[1..], from + 1, dir, level, relative, stop)
  {}

  lemma {:induction false} CallsInAt(entries: seq<Entry>, from: nat, dir: string, level: nat, relative: bool, k: int)
    ensures |CallsIn(entries, dir, level, relative)| == |StopsIn(entries, from)|
    ensures 0 <= k < |StopsIn(entries, from)| ==>
              && IsStopIn(entries, from, StopsIn(entries, from)[k])
              && CallsIn(entries, dir, level, relative)[k]
                 == CallBelow(entries, from, dir, level, relative, StopsIn(entries, from)[k])
    decreases entries, 0
  {
    if entries != [] {
      var first, rest := StopsFor(entries[0], from), StopsIn(entries[1..], from + 1);
      CallsForAt(entries[0], from, dir, level, relative, k);
      CallsInAt(entries[1..], from + 1, dir, level, relative, k - |first|);
      if 0 <= k < |first| {
        assert StopsIn(entries, from)[k] == first[k];
        BelowFirst(entries, from, dir, level, relative, first[k]);
      } else if |first| <= k < |first| + |rest| {
        assert StopsIn(entries, from)[k] == rest[k - |first|];
        BelowRest(entries, from, dir, level, relative, rest[k - |first|]);
      }
    }
  }

  lemma {:induction false} CallsForAt(entry: Entry, i: nat, dir: string, level: nat, relative: bool, k: int)
    ensures |CallsFor(entry, dir, level, relative)| == |StopsFor(entry, i)|
    ensures 0 <= k < |StopsFor(entry, i)| ==>
              && IsStopIn([entry], i, StopsFor(entry, i)[k])
              && CallsFor(entry, dir, level, relative)[k]
                 == CallBelow([entry], i, dir, level, relative, StopsFor(entry, i)[k])
    decreases entry, 2
  {
    if !Dots(entry.name) {
      var path := EntryPath(dir, entry.name, relative);
      CallsAt(entry.node, path, level, relative, if 0 <= k < |Stops(entry.node)| then k else 0);
      if 0 <= k < |StopsFor(entry, i)| {
        StopsForAre(entry, i, StopsFor(entry, i)[k]);
      }
    }
  }

  // ---- Whole walks ----

  /** The calls are those of the first stops, each answered with zero but the last,
      whose answer is the result; and unless that objects, no stop is left out. */
  ghost predicate MadeAt(func: seq<Call> -> int, node: Node, path: string, relative: bool,
                         stops: seq<Stop>, calls: seq<Call>, ret: int) {
    && 0 < |calls| <= |stops|
    && (forall k :: 0 <= k < |calls| ==>
          IsStop(node, stops[k]) && calls[k] == CallAt(node, path, 0, relative, stops[k]))
    && (forall k :: 0 < k < |calls| ==> func(calls[..k]) == 0)
    && ret == func(calls) && (ret == 0 ==> |calls| == |stops|)
  }

  ghost predicate Walked(func: seq<Call> -> int, node: Node, path: string, relative: bool,
                         calls: seq<Call>, ret: int) {
    exists stops :: AllStops(node, stops) && MadeAt(func, node, path, relative, stops, calls, ret)
  }

  /** What Report does, without its recursion. */
  lemma {:induction false} ReportIs(func: seq<Call> -> int, before: seq<Call>, calls: seq<Call>)
    ensures var (log, ret) := Report(func, before, calls);
            && before <= log <= before + calls && (calls != [] ==> before < log && ret == func(log))
            && (forall k :: |before| < k < |log| ==> func(log[..k]) == 0) && (ret == 0 ==> log == before + calls)
    decreases |calls|
  {
    if calls == [] {
      assert before + calls == before;
    } else {
      var next := before + [calls[0]];
      assert next + calls[1..] == before + calls;
      ReportIs(func, next, calls[1..]);
      var log := Report(func, before, calls).0;
      assert next <= log;
      assert log[..|next|] == next;
    }
  }

  lemma StopsAreAll(node: Node)
    ensures AllStops(node, Stops(node))
  {
    StopsOrdered(node);
    forall stop
      ensures stop in Stops(node) <==> IsStop(node, stop)
    {
      StopsAre(node, stop);
    }
  }

  /** The walk reports every place of the tree it has to, once, parents before
      children and siblings in their order, until the callback objects. */
  lemma WalkIsOrdered(func: seq<Call> -> int, node: Node, path: string, relative: bool)
    ensures var (calls, ret) := Report(func, [], Calls(node, path, 0, relative));
            Walked(func, node, path, relative, calls, ret)
  {
    var all, stops := Calls(node, path, 0, relative), Stops(node);
    var (calls, ret) := Report(func, [], all);
    ReportIs(func, [], all);
    assert [] + all == all;
    StopsAreAll(node);
    CallsAt(node, path, 0, relative, 0);
    forall k | 0 <= k < |calls|
      ensures IsStop(node, stops[k]) && calls[k] == CallAt(node, path, 0, relative, stops[k])
    {
      CallsAt(node, path, 0, relative, k);
      assert calls[k] == all[k];
    }
    assert MadeAt(func, node, path, relative, stops, calls, ret);
  }

  // ---- No path is reported twice ----

  lemma {:induction false} NamesSimple(node: Node, route: Route)
    requires WellFormed(node) && Leads(node, route)
    ensures forall name :: name in NamesTo(node, route) ==> SimpleName(name)
    decreases route
  {
    if route.Into? {
      ProperAt(node.entries, route.index);
      NamesSimple(node.entries[route.index].node, route.rest);
    }
  }

  lemma {:induction false} ComponentsJoined(path: string, names: seq<string>)
    requires forall name :: name in names ==> SimpleName(name)
    ensures Components(Joined(path, names)) == Components(path) + names
    decreases |names|
  {
    if names == [] {
      assert Components(path) + names == Components(path);
    } else {
      assert names[0] in names;
      ComponentsAppend(path, names[0]);
      ComponentsJoined(path + "/" + names[0], names[1..]);
      assert Components(path) + [names[0]] + names[1..] == Components(path) + names;
    }
  }

  lemma {:induction false} NamesTell(node: Node, a: Route, b: Route)
    requires WellFormed(node) && Leads(node, a) && Leads(node, b) && a != b
    ensures NamesTo(node, a) != NamesTo(node, b)
    decreases a
  {
    if a.Into? && b.Into? {
      var names, names' := NamesTo(node, a), NamesTo(node, b);
      assert names[0] == node.entries[a.index].name && names'[0] == node.entries[b.index].name;
      if a.index == b.index {
        ProperAt(node.entries, a.index);
        NamesTell(node.entries[a.index].node, a.rest, b.rest);
        assert names[1..] == NamesTo(node.entries[a.index].node, a.rest);
        assert names'[1..] == NamesTo(node.entries[a.index].node, b.rest);
      }
    }
  }

  /** By full path, different stops are reported under different paths. */
  lemma PathsDiffer(node: Node, path: string, level: nat, a: Stop, b: Stop)
    requires WellFormed(node) && IsStop(node, a) && IsStop(node, b) && a != b
    ensures CallAt(node, path, level, false, a).path != CallAt(node, path, level, false, b).path
  {
    if a.route != b.route {
      var p, q := Joined(path, NamesTo(node, a.route)), Joined(path, NamesTo(node, b.route));
      NamesTell(node, a.route, b.route);
      NamesSimple(node, a.route);
      NamesSimple(node, b.route);
      ComponentsJoined(path, NamesTo(node, a.route));
      ComponentsJoined(path, NamesTo(node, b.route));
      ComponentsSlash(p);
      ComponentsSlash(q);
      assert (Components(path) + NamesTo(node, a.route))[|Components(path)|..] == NamesTo(node, a.route);
      assert (Components(path) + NamesTo(node, b.route))[|Components(path)|..] == NamesTo(node, b.route);
    } else {
      var p := Joined(path, NamesTo(node, a.route));
      assert |p + "/"| != |p|;
    }
  }
}
