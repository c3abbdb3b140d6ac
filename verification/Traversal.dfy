/** What a directory walk reports: the callbacks of a preorder traversal, in the
    two ways of naming a file that lab_fs/main.c compares. */
module Traversal {
  import opened FileTree

  datatype Kind = FtwF | FtwD | FtwDnr | FtwNs

  /** One call of the callback. */
  datatype Call = Call(path: string, level: nat, kind: Kind)

  /** The calls for a node under the given name, in preorder. A walk by full path
      names an entry dir/name, a relative one just name; and the former appends
      the slash before it tries to open the directory. */
  function Calls(node: Node, path: string, level: nat, relative: bool): (r: seq<Call>)
    ensures r != []
    decreases node, 1
  {
    match node
    case Unstatable => [Call(path, level, FtwNs)]
    case File => [Call(path, level, FtwF)]
    case Dir(readable, _, entries) =>
      [Call(path, level, FtwD)]
      + if readable then CallsIn(entries, path, level + 1, relative)
        else [Call(if relative then path else path + "/", level, FtwDnr)]
  }

  function CallsIn(entries: seq<Entry>, dir: string, level: nat, relative: bool): seq<Call>
    decreases entries, 0
  {
    if entries == [] then []
    else CallsFor(entries[0], dir, level, relative) + CallsIn(entries[1..], dir, level, relative)
  }

  function CallsFor(entry: Entry, dir: string, level: nat, relative: bool): seq<Call>
    decreases entry, 2
  {
    if Dots(entry.name) then []
    else Calls(entry.node, EntryPath(dir, entry.name, relative), level, relative)
  }

  function EntryPath(dir: string, name: string, relative: bool): string {
    if relative then name else dir + "/" + name
  }

  /** The callback sees the calls so far, the present one last, and answers with
      a number. The calls are made up to and including the first one that is not
      answered with zero, and that answer is returned. */
  function Report(func: seq<Call> -> int, log: seq<Call>, calls: seq<Call>): (seq<Call>, int)
    decreases |calls|
  {
    if calls == [] then (log, 0)
    else
      var log1 := log + [calls[0]];
      if func(log1) != 0 then (log1, func(log1)) else Report(func, log1, calls[1..])
  }

  lemma {:induction false} ReportConcat(func: seq<Call> -> int, log: seq<Call>, a: seq<Call>, b: seq<Call>)
    ensures var (log1, ret) := Report(func, log, a);
            Report(func, log, a + b) == if ret != 0 then (log1, ret) else Report(func, log1, b)
    decreases |a|
  {
    if a == [] {
      assert a + b == b;
    } else {
      assert (a + b)[0] == a[0] && (a + b)[1..] == a[1..] + b;
      if func(log + [a[0]]) == 0 {
        ReportConcat(func, log + [a[0]], a[1..], b);
      }
    }
  }

  /** A callback that never objects, such as myfunc, gets every call. */
  lemma {:induction false} ReportAll(func: seq<Call> -> int, log: seq<Call>, calls: seq<Call>)
    requires forall l :: func(l) == 0
    ensures Report(func, log, calls) == (log + calls, 0)
    decreases |calls|
  {
    if calls == [] {
      assert log + calls == log;
    } else {
      ReportAll(func, log + [calls[0]], calls[1..]);
      assert log + [calls[0]] + calls[1..] == log + calls;
    }
  }

  // ---- What a reader of the output sees ----

  const BAR := "\U{2502}   "
  const BRANCH := "\U{2514}\U{2500}\U{2500}\U{2500}"

  function Repeat(text: string, count: nat): string {
    if count == 0 then "" else Repeat(text, count - 1) + text
  }

  /** myfunc: the line printed for a file or a directory. Errors are reported on
      the other stream. */
  function Line(call: Call): string {
    if call.kind.FtwDnr? || call.kind.FtwNs? then ""
    else if call.level == 0 then call.path + "\n"
    else Repeat(BAR, call.level - 1) + BRANCH + BaseName(call.path) + "\n"
  }

  function LastName(path: string): string {
    var names := Components(path);
    if names == [] then "" else names[|names| - 1]
  }

  /** A call without the part of the path on which the two walks differ. */
  datatype View = View(level: nat, kind: Kind, name: string, line: string)

  function ViewOf(call: Call): View {
    View(call.level, call.kind, LastName(call.path), Line(call))
  }

  function Views(calls: seq<Call>): seq<View> {
    if calls == [] then [] else Views(calls[..|calls| - 1]) + [ViewOf(calls[|calls| - 1])]
  }

  lemma {:induction false} ViewsConcat(a: seq<Call>, b: seq<Call>)
    ensures Views(a + b) == Views(a) + Views(b)
    decreases |b|
  {
    if b == [] {
      assert a + b == a;
    } else {
      assert (a + b)[..|a + b| - 1] == a + b[..|b| - 1];
      ViewsConcat(a, b[..|b| - 1]);
    }
  }

  lemma ViewsOne(call: Call)
    ensures Views([call]) == [ViewOf(call)]
  {
    var none: seq<Call> := [];
    assert [call][..0] == none;
  }

  lemma ViewsSnoc(log: seq<Call>, call: Call)
    ensures Views(log + [call]) == Views(log) + [ViewOf(call)]
  {
    ViewsConcat(log, [call]);
    ViewsOne(call);
  }

  lemma {:induction false} ViewsLength(calls: seq<Call>)
    ensures |Views(calls)| == |calls|
    decreases |calls|
  {
    if calls != [] {
      ViewsLength(calls[..|calls| - 1]);
    }
  }

  /** Two names for one node that read alike at this level. */
  predicate Alike(path: string, path': string, level: nat) {
    && LastName(path) == LastName(path')
    && if level == 0 then path == path' else BaseName(path) == BaseName(path')
  }

  lemma EntryAlike(dir: string, dir': string, name: string, level: nat)
    requires SimpleName(name) && level > 0
    ensures Alike(EntryPath(dir, name, false), EntryPath(dir', name, true), level)
  {
    ComponentsAppend(dir, name);
  }

  /** The two walks report the same levels, kinds, names and lines. */
  lemma {:induction false} SameViews(node: Node, path: string, path': string, level: nat)
    requires WellFormed(node) && path != "" && Alike(path, path', level)
    ensures Views(Calls(node, path, level, false)) == Views(Calls(node, path', level, true))
    decreases node, 1
  {
    if node.Dir? && node.readable {
      SameViewsReadable(node, path, path', level);
    } else {
      SameViewsLeaf(node, path, path', level);
    }
  }

  lemma {:induction false} SameViewsReadable(node: Node, path: string, path': string, level: nat)
    requires WellFormed(node) && node.Dir? && node.readable && Alike(path, path', level)
    ensures Views(Calls(node, path, level, false)) == Views(Calls(node, path', level, true))
    decreases node, 0
  {
    SameViewsIn(node.entries, path, path', level + 1);
    AlikeView(path, path', level, FtwD);
    SameHead(Call(path, level, FtwD), Call(path', level, FtwD),
             CallsIn(node.entries, path, level + 1, false), CallsIn(node.entries, path', level + 1, true));
  }

  lemma SameViewsLeaf(node: Node, path: string, path': string, level: nat)
    requires Alike(path, path', level) && !(node.Dir? && node.readable)
    ensures Views(Calls(node, path, level, false)) == Views(Calls(node, path', level, true))
  {
    match node
    case Unstatable =>
      AlikeView(path, path', level, FtwNs);
      ViewsOne(Call(path, level, FtwNs));
      ViewsOne(Call(path', level, FtwNs));
    case File =>
      AlikeView(path, path', level, FtwF);
      ViewsOne(Call(path, level, FtwF));
      ViewsOne(Call(path', level, FtwF));
    case Dir(_, _, _) =>
      SameViewsUnreadable(path, path', level);
  }

  lemma ViewsCons(call: Call, rest: seq<Call>)
    ensures Views([call] + rest) == [ViewOf(call)] + Views(rest)
  {
    ViewsConcat([call], rest);
    ViewsOne(call);
  }

  lemma AlikeView(path: string, path': string, level: nat, kind: Kind)
    requires Alike(path, path', level)
    ensures ViewOf(Call(path, level, kind)) == ViewOf(Call(path', level, kind))
  {}

  lemma SameHead(call: Call, call': Call, rest: seq<Call>, rest': seq<Call>)
    requires ViewOf(call) == ViewOf(call') && Views(rest) == Views(rest')
    ensures Views([call] + rest) == Views([call'] + rest')
  {
    ViewsCons(call, rest);
    ViewsCons(call', rest');
  }

  /** The slash that one walk leaves at the end of an unreadable directory. */
  lemma SlashUnseen(path: string, level: nat)
    ensures ViewOf(Call(path + "/", level, FtwDnr)) == ViewOf(Call(path, level, FtwDnr))
  {
    ComponentsSlash(path);
  }

  lemma SameViewsUnreadable(path: string, path': string, level: nat)
    requires Alike(path, path', level)
    ensures Views([Call(path, level, FtwD)] + [Call(path + "/", level, FtwDnr)])
            == Views([Call(path', level, FtwD)] + [Call(path', level, FtwDnr)])
  {
    var last, last' := Call(path + "/", level, FtwDnr), Call(path', level, FtwDnr);
    SlashUnseen(path, level);
    AlikeView(path, path', level, FtwDnr);
    AlikeView(path, path', level, FtwD);
    ViewsOne(last);
    ViewsOne(last');
    SameHead(Call(path, level, FtwD), Call(path', level, FtwD), [last], [last']);
  }

  lemma {:induction false} SameViewsIn(entries: seq<Entry>, dir: string, dir': string, level: nat)
    requires Proper(entries) && level > 0
    ensures Views(CallsIn(entries, dir, level, false)) == Views(CallsIn(entries, dir', level, true))
    decreases entries, 0
  {
    if entries != [] {
      var first := entries[0];
      if !Dots(first.name) {
        EntryAlike(dir, dir', first.name, level);
        SameViews(first.node, EntryPath(dir, first.name, false), EntryPath(dir', first.name, true), level);
      }
      SameViewsIn(entries[1..], dir, dir', level);
      ViewsConcat(CallsFor(first, dir, level, false), CallsIn(entries[1..], dir, level, false));
      ViewsConcat(CallsFor(first, dir', level, true), CallsIn(entries[1..], dir', level, true));
    }
  }

  /** A callback that looks only at what the walks have in common. */
  function Blind(verdict: seq<View> -> int): seq<Call> -> int {
    log => verdict(Views(log))
  }

  lemma {:induction false} SameReport(verdict: seq<View> -> int, log: seq<Call>, log': seq<Call>,
                                      calls: seq<Call>, calls': seq<Call>)
    requires Views(log) == Views(log') && Views(calls) == Views(calls')
    ensures var (l, r) := Report(Blind(verdict), log, calls);
            var (l', r') := Report(Blind(verdict), log', calls');
            Views(l) == Views(l') && r == r'
    decreases |calls|
  {
    ViewsLength(calls);
    ViewsLength(calls');
    if calls != [] {
      var first, first' := calls[0], calls'[0];
      assert [first] + calls[1..] == calls && [first'] + calls'[1..] == calls';
      ViewsCons(first, calls[1..]);
      ViewsCons(first', calls'[1..]);
      assert ([ViewOf(first)] + Views(calls[1..]))[1..] == Views(calls[1..]);
      assert ([ViewOf(first')] + Views(calls'[1..]))[1..] == Views(calls'[1..]);
      ViewsSnoc(log, first);
      ViewsSnoc(log', first');
      SameReport(verdict, log + [first], log' + [first'], calls[1..], calls'[1..]);
    }
  }

  /** On every tree and for every callback of this kind the two walks make the
      same reports, stop at the same one and return the same result. */
  lemma WalksAgree(node: Node, start: string, verdict: seq<View> -> int)
    requires WellFormed(node) && start != ""
    ensures var (log, ret) := Report(Blind(verdict), [], Calls(node, start, 0, false));
            var (log', ret') := Report(Blind(verdict), [], Calls(node, start, 0, true));
            Views(log) == Views(log') && ret == ret'
  {
    SameViews(node, start, start, 0);
    SameReport(verdict, [], [], Calls(node, start, 0, false), Calls(node, start, 0, true));
  }

  /** With myfunc, which never objects, both walks report the whole tree. */
  lemma BothReportAll(node: Node, start: string)
    requires WellFormed(node) && start != ""
    ensures var full := Report(Blind(_ => 0), [], Calls(node, start, 0, false));
            var bare := Report(Blind(_ => 0), [], Calls(node, start, 0, true));
            && full == (Calls(node, start, 0, false), 0) && bare == (Calls(node, start, 0, true), 0)
            && Views(full.0) == Views(bare.0)
  {
    var func := Blind(_ => 0);
    ReportAll(func, [], Calls(node, start, 0, false));
    ReportAll(func, [], Calls(node, start, 0, true));
    assert [] + Calls(node, start, 0, false) == Calls(node, start, 0, false);
    assert [] + Calls(node, start, 0, true) == Calls(node, start, 0, true);
    SameViews(node, start, start, 0);
  }
}
