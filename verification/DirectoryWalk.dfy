/** The two walks of lab_fs/main.c: dopath_no, which edits a full path in one
    shared buffer, and dopath_chdir, which keeps a bare name in a buffer and moves
    the working directory. */
module DirectoryWalk {
  import opened CStrings
  import opened FileTree
  import opened Options
  import opened Traversal
  import opened WalkOrder

  lemma PrefixStays(buf: seq<char>, s: string, n: nat)
    requires (Text(buf, s) || Text(buf, s + "/")) && n <= |s|
    ensures buf[..n] == s[..n]
  {
    if Text(buf, s) {
      assert buf[..n] == buf[..|s|][..n];
    } else {
      assert buf[..n] == buf[..|s + "/"|][..n] == (s + "/")[..n];
    }
  }

  lemma Terminator(buf: seq<char>, s: string, n: nat)
    requires Text(buf, s) && n <= |s|
    ensures buf[n] == '\0' <==> n == |s|
  {
    if n < |s| {
      assert buf[n] == s[n] && s[n] in s;
    }
  }

  /** The longest path or name of the walk, with its terminator, fits the buffer;
      by full path every directory needs room for one more slash. */
  predicate Fits(node: Node, length: nat, room: nat, relative: bool)
    decreases node, 1
  {
    && length < room
    && (node.Dir? && !relative ==> length + 1 < room)
    && (node.Dir? ==> FitsIn(node.entries, length, room, relative))
  }

  predicate FitsIn(entries: seq<Entry>, length: nat, room: nat, relative: bool)
    decreases entries, 0
  {
    entries != [] ==>
      && (Dots(entries[0].name)
          || Fits(entries[0].node, |entries[0].name| + if relative then 0 else length + 1, room, relative))
      && FitsIn(entries[1..], length, room, relative)
  }

  lemma {:induction false} FitsAt(entries: seq<Entry>, length: nat, room: nat, relative: bool, i: nat)
    requires FitsIn(entries, length, room, relative) && i < |entries| && !Dots(entries[i].name)
    ensures Fits(entries[i].node, |entries[i].name| + if relative then 0 else length + 1, room, relative)
  {
    if i > 0 {
      FitsAt(entries[1..], length, room, relative, i - 1);
    }
  }

  // ---- Reports, one directory at a time ----

  function ReportOne(func: seq<Call> -> int, log: seq<Call>, call: Call): (seq<Call>, int) {
    (log + [call], func(log + [call]))
  }

  lemma ReportFirst(func: seq<Call> -> int, log: seq<Call>, call: Call, rest: seq<Call>)
    ensures Report(func, log, [call]) == ReportOne(func, log, call)
    ensures Report(func, log, [call] + rest) ==
            if func(log + [call]) != 0 then ReportOne(func, log, call) else Report(func, log + [call], rest)
  {
    assert ([call] + rest)[0] == call && ([call] + rest)[1..] == rest;
    assert [call][1..] == [];
  }

  /** The report on a node, as the code makes it: the node itself first, and
      below a directory only if that was not objected to. */
  lemma ReportNode(func: seq<Call> -> int, log: seq<Call>, node: Node, path: string, level: nat, relative: bool)
    ensures var entered := log + [Call(path, level, FtwD)];
            Report(func, log, Calls(node, path, level, relative)) ==
              match node
              case Unstatable => ReportOne(func, log, Call(path, level, FtwNs))
              case File => ReportOne(func, log, Call(path, level, FtwF))
              case Dir(readable, _, entries) =>
                if func(entered) != 0 then (entered, func(entered))
                else if readable then Report(func, entered, CallsIn(entries, path, level + 1, relative))
                else ReportOne(func, entered, Call(if relative then path else path + "/", level, FtwDnr))
  {
    match node
    case Unstatable => ReportFirst(func, log, Call(path, level, FtwNs), []);
    case File => ReportFirst(func, log, Call(path, level, FtwF), []);
    case Dir(readable, _, entries) =>
      var last := Call(if relative then path else path + "/", level, FtwDnr);
      ReportFirst(func, log, Call(path, level, FtwD),
                  if readable then CallsIn(entries, path, level + 1, relative) else [last]);
      ReportFirst(func, log + [Call(path, level, FtwD)], last, []);
  }

  /** The entries from i on are entry i and the entries after it. */
  lemma NextEntry(entries: seq<Entry>, i: nat, dir: string, level: nat, relative: bool)
    requires i < |entries|
    ensures CallsIn(entries[i..], dir, level, relative)
            == CallsFor(entries[i], dir, level, relative) + CallsIn(entries[i + 1..], dir, level, relative)
  {
    assert entries[i..][0] == entries[i] && entries[i..][1..] == entries[i + 1..];
  }

  lemma ReportNext(func: seq<Call> -> int, log: seq<Call>, entries: seq<Entry>, i: nat, dir: string, level: nat,
                   relative: bool)
    requires i < |entries|
    ensures var (log1, ret) := Report(func, log, CallsFor(entries[i], dir, level, relative));
            Report(func, log, CallsIn(entries[i..], dir, level, relative))
            == if ret != 0 then (log1, ret) else Report(func, log1, CallsIn(entries[i + 1..], dir, level, relative))
  {
    NextEntry(entries, i, dir, level, relative);
    ReportConcat(func, log, CallsFor(entries[i], dir, level, relative),
                 CallsIn(entries[i + 1..], dir, level, relative));
  }

  lemma Upwards(root: Node, cwd: seq<string>)
    requires var dir := Find(root, cwd); dir.Dir? && dir.searchable
    ensures Location(root, cwd, "..") == Some(Parent(cwd))
  {
    ScanBare("..");
    var names, none: seq<string> := [".."], [];
    assert names[..|names| - 1] == none;
    assert Resolve(root, cwd, none) == Some(cwd);
  }

  /** opendir: the entries, if the path is a directory that can be listed. */
  function Opendir(root: Node, cwd: seq<string>, path: string): Option<seq<Entry>> {
    var node := Lstat(root, cwd, path);
    if node.Dir? && node.readable then Some(node.entries) else None
  }

  lemma OpendirSlash(root: Node, cwd: seq<string>, path: string)
    requires path != ""
    ensures Opendir(root, cwd, path + "/") == Opendir(root, cwd, path)
  {
    LstatSlash(root, cwd, path);
  }

  /** The i-th four characters of a line. */
  function Piece(line: string, i: nat): string
    requires i * 4 + 4 <= |line|
  {
    line[i * 4..i * 4 + 4]
  }

  lemma PieceStays(line: string, more: string, i: nat)
    requires i * 4 + 4 <= |line|
    ensures Piece(line + more, i) == Piece(line, i)
  {}

  lemma LineEnds(indent: string, level: nat, rest: string, line: string)
    requires |indent| == level * 4 && line == indent + rest
    ensures |line| == level * 4 + |rest| && line[level * 4..] == rest
    ensures forall i :: 0 <= i < level ==> Piece(line, i) == Piece(indent, i)
  {
    forall i | 0 <= i < level
      ensures Piece(line, i) == Piece(indent, i)
    {
      PieceStays(indent, rest, i);
    }
  }

  /** The static variables of the program, *level, the working directory, and
      the calls made so far. */
  class Program {
    const root: Node
    const func: seq<Call> -> int
    const fullpath: array<char>
    const filename: array<char>
    var cwd: seq<string>
    var level: nat
    var calls: seq<Call>

    constructor (root: Node, func: seq<Call> -> int, cwd: seq<string>, room: nat)
      ensures this.root == root && this.func == func && this.cwd == cwd && level == 0 && calls == []
      ensures fresh(fullpath) && fresh(filename) && fullpath.Length == room && filename.Length == room
    {
      this.root, this.func, this.cwd, level, calls := root, func, cwd, 0, [];
      fullpath := new char[room](_ => '\0');
      filename := new char[room](_ => '\0');
    }

    method Callback(path: string, kind: Kind) returns (ret: int)
      modifies `calls
      ensures calls == old(calls) + [Call(path, level, kind)] && ret == func(calls)
    {
      calls := calls + [Call(path, level, kind)];
      ret := func(calls);
    }

    static method Strlen(buf: array<char>, ghost s: string) returns (n: nat)
      requires Text(buf[..], s)
      ensures n == |s|
    {
      n := 0;
      Terminator(buf[..], s, n);
      while buf[n] != '\0'
        invariant n <= |s| && (buf[n] == '\0' <==> n == |s|)
        decreases |s| - n
      {
        n := n + 1;
        Terminator(buf[..], s, n);
      }
    }

    /** strcpy(&buf[at], name) */
    static method Strcpy(buf: array<char>, at: nat, name: string)
      requires at + |name| < buf.Length && '\0' !in name && '\0' !in buf[..at]
      modifies buf
      ensures Text(buf[..], old(buf[..at]) + name)
    {
      var i := 0;
      while i < |name|
        invariant i <= |name|
        invariant buf[..at] == old(buf[..at]) && buf[at..at + i] == name[..i]
      {
        buf[at + i] := name[i];
        i := i + 1;
      }
      buf[at + i] := '\0';
      assert buf[..][..at + |name|] == buf[..at] + buf[at..at + |name|];
    }

    method AppendSlash(ghost path: string) returns (n: nat)
      requires Text(fullpath[..], path) && |path| + 1 < fullpath.Length
      modifies fullpath
      ensures n == |path| + 1 && Text(fullpath[..], path + "/") && fullpath[..n] == path + "/"
    {
      n := Strlen(fullpath, path);
      fullpath[n] := '/';
      n := n + 1;
      fullpath[n] := '\0';
      assert fullpath[..n] == path + "/";
    }

    /** Whether the walk left its slash at the end of the path: the directory was
        reported but could not be opened. */
    ghost predicate SlashLeft(log: seq<Call>, node: Node, path: string, level: nat) {
      node.Dir? && !node.readable && func(log + [Call(path, level, FtwD)]) == 0
    }

    /** dopath_no makes exactly the preorder calls up to and including the first
        one that is objected to, returns that answer, and restores *level; it
        restores the path whenever the directory could be opened. */
    method DopathNo(ghost path: string, ghost node: Node) returns (ret: int)
      requires Text(fullpath[..], path) && node == Lstat(root, cwd, path)
      requires WellFormed(node) && Fits(node, |path|, fullpath.Length, false)
      modifies `level, `calls, fullpath
      ensures (calls, ret) == Report(func, old(calls), Calls(node, path, level, false))
      ensures level == old(level)
      ensures Text(fullpath[..], if SlashLeft(old(calls), node, path, level) then path + "/" else path)
      decreases node, 3
    {
      CStringIs(fullpath[..], path);
      var statbuf := Lstat(root, cwd, CString(fullpath[..]));
      ReportNode(func, calls, node, path, level, false);
      if statbuf.Unstatable? {
        ret := Callback(CString(fullpath[..]), FtwNs);
        return;
      }
      if !statbuf.Dir? {
        ret := Callback(CString(fullpath[..]), FtwF);
        return;
      }
      ret := Callback(CString(fullpath[..]), FtwD);
      if ret != 0 {
        return;
      }

      ret := EnterNo(path, node);
    }

    /** dopath_no from strlen on: the slash, the directory, and the slash away. */
    method EnterNo(ghost path: string, ghost node: Node) returns (ret: int)
      requires Text(fullpath[..], path) && node == Lstat(root, cwd, path) && node.Dir? && path != ""
      requires WellFormed(node) && FitsIn(node.entries, |path|, fullpath.Length, false)
      requires |path| + 1 < fullpath.Length
      modifies `level, `calls, fullpath
      ensures (calls, ret) ==
              if node.readable then Report(func, old(calls), CallsIn(node.entries, path, level + 1, false))
              else ReportOne(func, old(calls), Call(path + "/", level, FtwDnr))
      ensures level == old(level)
      ensures Text(fullpath[..], if node.readable then path else path + "/")
      decreases node, 2
    {
      var n := AppendSlash(path);
      CStringIs(fullpath[..], path + "/");
      OpendirSlash(root, cwd, path);
      var dir := Opendir(root, cwd, CString(fullpath[..]));
      if dir.None? {
        ret := Callback(CString(fullpath[..]), FtwDnr);
        return;
      }
      ret := DescendNo(path, node, dir.value, n);
      RemoveSlash(path, n);
    }

    method RemoveSlash(ghost path: string, n: nat)
      requires n == |path| + 1 <= fullpath.Length && fullpath[..n] == path + "/" && '\0' !in path
      modifies fullpath
      ensures Text(fullpath[..], path)
    {
      fullpath[n - 1] := '\0';
      assert fullpath[..][..|path|] == path;
    }

    /** The loop over the entries in dopath_no, between the two changes of
        *level; fullpath[..n] stays the directory with its slash. */
    method DescendNo(ghost path: string, ghost node: Node, entries: seq<Entry>, n: nat) returns (ret: int)
      requires node == Lstat(root, cwd, path) && node.Dir? && node.readable && entries == node.entries
      requires n == |path| + 1 < fullpath.Length && fullpath[..n] == path + "/" && '\0' !in path
      requires WellFormed(node) && FitsIn(entries, |path|, fullpath.Length, false)
      modifies `level, `calls, fullpath
      ensures (calls, ret) == Report(func, old(calls), CallsIn(entries, path, level + 1, false))
      ensures level == old(level) && fullpath[..n] == path + "/"
      decreases node, 1
    {
      ghost var target := Report(func, calls, CallsIn(entries, path, level + 1, false));
      var i, go := 0, true;
      ret := 0;
      level := level + 1;
      assert entries[0..] == entries;
      while i < |entries| && go
        invariant i <= |entries| && level == old(level) + 1 && fullpath[..n] == path + "/"
        invariant go ==> ret == 0 && Report(func, calls, CallsIn(entries[i..], path, level, false)) == target
        invariant !go ==> (calls, ret) == target
      {
        ReportNext(func, calls, entries, i, path, level, false);
        ret := VisitNo(path, node, entries, i, n);
        if ret != 0 {
          go := false;
        }
        i := i + 1;
      }
      level := level - 1;
    }

    /** The body of that loop for one entry. */
    method VisitNo(ghost path: string, ghost node: Node, entries: seq<Entry>, i: nat, n: nat) returns (ret: int)
      requires node == Lstat(root, cwd, path) && node.Dir? && node.readable && entries == node.entries
      requires n == |path| + 1 < fullpath.Length && fullpath[..n] == path + "/" && '\0' !in path
      requires WellFormed(node) && FitsIn(entries, |path|, fullpath.Length, false) && i < |entries|
      modifies `level, `calls, fullpath
      ensures (calls, ret) == Report(func, old(calls), CallsFor(entries[i], path, level, false))
      ensures level == old(level) && fullpath[..n] == path + "/"
      decreases node, 0
    {
      var d_name := entries[i].name;
      ret := 0;
      if !Dots(d_name) {
        ghost var child := path + "/" + d_name;
        ProperAt(entries, i);
        assert Fits(entries[i].node, |child|, fullpath.Length, false) by {
          FitsAt(entries, |path|, fullpath.Length, false, i);
          assert |child| == |d_name| + (|path| + 1);
        }
        assert Lstat(root, cwd, child) == entries[i].node by {
          LstatEntry(root, cwd, path, i);
        }
        Strcpy(fullpath, n, d_name);
        assert Text(fullpath[..], child);
        ret := DopathNo(child, entries[i].node);
        PrefixStays(fullpath[..], child, n);
        assert child[..n] == path + "/";
      }
    }

    /** The working directory after a relative walk: one level above the visited
        directory, if that was entered. */
    ghost function CwdAfter(log: seq<Call>, from: seq<string>, node: Node, name: string, level: nat): seq<string> {
      if node.Dir? && node.readable && func(log + [Call(name, level, FtwD)]) == 0 && Location(root, from, name).Some?
      then Parent(Location(root, from, name).value)
      else from
    }

    /** The walk goes into the start directory. */
    ghost predicate Entered(from: seq<string>, start: string) {
      var node := Lstat(root, from, start);
      node.Dir? && node.readable && func([] + [Call(start, 0, FtwD)]) == 0
    }

    /** Where a relative walk ends: where it began if and only if it does not go into
        the start directory or the argument leads back. */
    lemma EndsWhereItBegan(from: seq<string>, start: string)
      ensures CwdAfter([], from, Lstat(root, from, start), start, 0) == from
         <==> !Entered(from, start) || LeadsBack(from, start)
    {
      if Entered(from, start) {
        RestoredIff(root, from, start);
      }
    }

    /** chdir to a directory that can be searched. */
    method Chdir(path: string)
      requires Location(root, cwd, path).Some?
      modifies `cwd
      ensures cwd == Location(root, old(cwd), path).value
    {
      cwd := Location(root, cwd, path).value;
    }

    /** dopath_chdir makes the same preorder calls under bare names. */
    method DopathChdir(ghost name: string, ghost node: Node) returns (ret: int)
      requires Text(filename[..], name) && node == Lstat(root, cwd, name)
      requires WellFormed(node) && Fits(node, |name|, filename.Length, true)
      modifies `level, `calls, `cwd, filename
      ensures (calls, ret) == Report(func, old(calls), Calls(node, name, level, true))
      ensures level == old(level)
      ensures cwd == CwdAfter(old(calls), old(cwd), node, name, level)
      decreases node, 3
    {
      CStringIs(filename[..], name);
      var statbuf := Lstat(root, cwd, CString(filename[..]));
      ReportNode(func, calls, node, name, level, true);
      if statbuf.Unstatable? {
        ret := Callback(CString(filename[..]), FtwNs);
        return;
      }
      if !statbuf.Dir? {
        ret := Callback(CString(filename[..]), FtwF);
        return;
      }
      ret := Callback(CString(filename[..]), FtwD);
      if ret != 0 {
        return;
      }
      ret := EnterChdir(name, node);
    }

    /** dopath_chdir from opendir on: into the directory, through it, and up. */
    method EnterChdir(ghost name: string, ghost node: Node) returns (ret: int)
      requires Text(filename[..], name) && node == Lstat(root, cwd, name) && node.Dir?
      requires WellFormed(node) && FitsIn(node.entries, |name|, filename.Length, true)
      modifies `level, `calls, `cwd, filename
      ensures (calls, ret) ==
              if node.readable then Report(func, old(calls), CallsIn(node.entries, name, level + 1, true))
              else ReportOne(func, old(calls), Call(name, level, FtwDnr))
      ensures level == old(level)
      ensures cwd == if node.readable then Parent(Location(root, old(cwd), name).value) else old(cwd)
      decreases node, 2
    {
      CStringIs(filename[..], name);
      var dir := Opendir(root, cwd, CString(filename[..]));
      if dir.None? {
        ret := Callback(CString(filename[..]), FtwDnr);
        return;
      }
      Chdir(CString(filename[..]));
      ret := DescendChdir(name, node, dir.value);
      ChdirUp();
    }

    /** chdir("..") */
    method ChdirUp()
      requires var dir := Find(root, cwd); dir.Dir? && dir.searchable
      modifies `cwd
      ensures cwd == Parent(old(cwd))
    {
      Upwards(root, cwd);
      Chdir("..");
    }

    /** The loop over the entries in dopath_chdir, with the visited directory as
        the working directory. */
    method DescendChdir(ghost name: string, ghost node: Node, entries: seq<Entry>) returns (ret: int)
      requires node == Find(root, cwd) && node.Dir? && node.readable && entries == node.entries
      requires WellFormed(node) && FitsIn(entries, |name|, filename.Length, true)
      modifies `level, `calls, `cwd, filename
      ensures (calls, ret) == Report(func, old(calls), CallsIn(entries, name, level + 1, true))
      ensures level == old(level) && cwd == old(cwd)
      decreases node, 1
    {
      ghost var target := Report(func, calls, CallsIn(entries, name, level + 1, true));
      var i, go := 0, true;
      ret := 0;
      level := level + 1;
      assert entries[0..] == entries;
      while i < |entries| && go
        invariant i <= |entries| && level == old(level) + 1 && cwd == old(cwd)
        invariant go ==> ret == 0 && Report(func, calls, CallsIn(entries[i..], name, level, true)) == target
        invariant !go ==> (calls, ret) == target
      {
        ReportNext(func, calls, entries, i, name, level, true);
        ret := VisitChdir(name, node, entries, i);
        if ret != 0 {
          go := false;
        }
        i := i + 1;
      }
      level := level - 1;
    }

    /** The body of that loop for one entry: whatever is below it, the working
        directory is the same afterwards. */
    method VisitChdir(ghost name: string, ghost node: Node, entries: seq<Entry>, i: nat) returns (ret: int)
      requires node == Find(root, cwd) && node.Dir? && node.readable && entries == node.entries
      requires WellFormed(node) && FitsIn(entries, |name|, filename.Length, true) && i < |entries|
      modifies `level, `calls, `cwd, filename
      ensures (calls, ret) == Report(func, old(calls), CallsFor(entries[i], name, level, true))
      ensures level == old(level) && cwd == old(cwd)
      decreases node, 0
    {
      var d_name := entries[i].name;
      ret := 0;
      if !Dots(d_name) {
        ProperAt(entries, i);
        FitsAt(entries, |name|, filename.Length, true, i);
        LstatBare(root, cwd, i);
        assert filename[..0] == [];
        Strcpy(filename, 0, d_name);
        assert (cwd + [d_name])[..|cwd|] == cwd;
        ret := DopathChdir(d_name, entries[i].node);
      }
    }

    /** myfunc with print set: the line for standard output, empty for the kinds
        it reports as errors; the walk is never stopped. A line has four characters
        for every level, the last four drawing the branch, and the name; only the
        start is printed with its whole path. */
    static method Myfunc(call: Call) returns (output: string, ret: int)
      ensures output == Line(call) && ret == 0
      ensures call.kind == FtwDnr || call.kind == FtwNs ==> output == ""
      ensures call.kind == FtwF || call.kind == FtwD ==>
                && |output| > call.level * 4
                && output[call.level * 4..] == (if call.level == 0 then call.path else BaseName(call.path)) + "\n"
                && (forall i :: 0 <= i < call.level - 1 ==> Piece(output, i) == "\U{2502}   ")
                && (call.level > 0 ==> Piece(output, call.level - 1) == "\U{2514}\U{2500}\U{2500}\U{2500}")
    {
      output, ret := "", 0;
      if call.kind.FtwF? || call.kind.FtwD? {
        output := Indent(call.level);
        var name := if call.level > 0 then BaseName(call.path) else call.path;
        LineEnds(output, call.level, name + "\n", output + name + "\n");
        output := output + name + "\n";
      }
    }

    /** The loop that draws the branches. */
    static method Indent(level: nat) returns (output: string)
      ensures output == if level == 0 then "" else Repeat(BAR, level - 1) + BRANCH
      ensures |output| == level * 4
      ensures forall i :: 0 <= i < level ==> Piece(output, i) == if i < level - 1 then BAR else BRANCH
    {
      output := "";
      var bar, branch := BAR, BRANCH;
      var i := 0;
      while i < level
        invariant i <= level && |output| == i * 4
        invariant output == if i < level || i == 0 then Repeat(bar, i) else Repeat(bar, i - 1) + branch
        invariant forall k :: 0 <= k < i ==> Piece(output, k) == if k < level - 1 then bar else branch
      {
        var next := if i != level - 1 then bar else branch;
        forall k | 0 <= k <= i
          ensures Piece(output + next, k) == if k < i then Piece(output, k) else next
        {
          if k < i {
            PieceStays(output, next, k);
          }
        }
        output := output + next;
        i := i + 1;
      }
    }

    /** strcpy into an allocated buffer, whose last byte is then cleared. */
    static method Start(buf: array<char>, pathname: string)
      requires |pathname| < buf.Length && '\0' !in pathname
      modifies buf
      ensures Text(buf[..], pathname)
    {
      assert buf[..0] == [];
      Strcpy(buf, 0, pathname);
      assert buf[..][..|pathname|] == pathname;
      buf[buf.Length - 1] := '\0';
      assert buf[..][..|pathname|] == pathname;
    }

    /** myftw_no(pathname, func, dopath_no): every file, directory and failure below
        the argument is reported, under its full path. */
    method MyftwNo(pathname: string) returns (ret: int)
      requires '\0' !in pathname
      requires var node := Lstat(root, cwd, pathname);
               WellFormed(node) && Fits(node, |pathname|, fullpath.Length, false)
      modifies `level, `calls, fullpath
      ensures (calls, ret) == Report(func, [], Calls(Lstat(root, cwd, pathname), pathname, 0, false))
      ensures Walked(func, Lstat(root, cwd, pathname), pathname, false, calls, ret)
    {
      WalkIsOrdered(func, Lstat(root, cwd, pathname), pathname, false);
      Start(fullpath, pathname);
      level, calls := 0, [];
      ret := DopathNo(pathname, Lstat(root, cwd, pathname));
    }

    /** myftw_chdir(pathname, func, dopath_chdir): the same under bare names, and the
        working directory that it leaves. */
    method MyftwChdir(pathname: string) returns (ret: int)
      requires '\0' !in pathname
      requires var node := Lstat(root, cwd, pathname);
               WellFormed(node) && Fits(node, |pathname|, filename.Length, true)
      modifies `level, `calls, `cwd, filename
      ensures (calls, ret) == Report(func, [], Calls(Lstat(root, old(cwd), pathname), pathname, 0, true))
      ensures Walked(func, Lstat(root, old(cwd), pathname), pathname, true, calls, ret)
      ensures cwd == CwdAfter([], old(cwd), Lstat(root, old(cwd), pathname), pathname, 0)
    {
      WalkIsOrdered(func, Lstat(root, cwd, pathname), pathname, true);
      Start(filename, pathname);
      level, calls := 0, [];
      ret := DopathChdir(pathname, Lstat(root, cwd, pathname));
    }

    /** compare(): a walk by full path and then a relative walk, from the same
        working directory. Both report the same and return the same. */
    method Compare(pathname: string, ghost verdict: seq<View> -> int)
      returns (retNo: int, retChdir: int, full: seq<Call>, bare: seq<Call>)
      requires '\0' !in pathname && pathname != "" && func == Blind(verdict)
      requires Walkable(pathname, cwd)
      modifies `level, `calls, `cwd, filename, fullpath
      ensures cwd == CwdAfter([], old(cwd), Lstat(root, old(cwd), pathname), pathname, 0)
      ensures (full, retNo) == Report(func, [], Calls(Lstat(root, old(cwd), pathname), pathname, 0, false))
      ensures (bare, retChdir) == Report(func, [], Calls(Lstat(root, old(cwd), pathname), pathname, 0, true))
      ensures Walked(func, Lstat(root, old(cwd), pathname), pathname, false, full, retNo)
      ensures Walked(func, Lstat(root, old(cwd), pathname), pathname, true, bare, retChdir)
      ensures Views(full) == Views(bare) && retNo == retChdir
    {
      WalksAgree(Lstat(root, cwd, pathname), pathname, verdict);
      retNo := MyftwNo(pathname);
      full := calls;
      retChdir := MyftwChdir(pathname);
      bare := calls;
    }

    /** Both buffers are long enough for the paths below the argument. */
    ghost predicate Walkable(pathname: string, from: seq<string>) {
      var node := Lstat(root, from, pathname);
      && WellFormed(node) && Fits(node, |pathname|, filename.Length, true)
      && Fits(node, |pathname|, fullpath.Length, false)
    }

    /** main(): a relative walk, and then compare() from where it ends. All three
        walks report the same and return the same if the argument is absolute, is
        not entered, or leads back. */
    method WalkAndCompare(pathname: string, ghost verdict: seq<View> -> int)
      returns (ret: int, retNo: int, retChdir: int, first: seq<Call>, full: seq<Call>, bare: seq<Call>)
      requires '\0' !in pathname && pathname != "" && func == Blind(verdict)
      requires Walkable(pathname, cwd)
      requires Walkable(pathname, CwdAfter([], cwd, Lstat(root, cwd, pathname), pathname, 0))
      modifies `level, `calls, `cwd, filename, fullpath
      ensures (first, ret) == Report(func, [], Calls(Lstat(root, old(cwd), pathname), pathname, 0, true))
      ensures var after := CwdAfter([], old(cwd), Lstat(root, old(cwd), pathname), pathname, 0);
              && (full, retNo) == Report(func, [], Calls(Lstat(root, after, pathname), pathname, 0, false))
              && (bare, retChdir) == Report(func, [], Calls(Lstat(root, after, pathname), pathname, 0, true))
              && Views(full) == Views(bare) && retNo == retChdir
              && (pathname[0] == '/' || !old(Entered(cwd, pathname)) || LeadsBack(old(cwd), pathname) ==>
                  Views(first) == Views(full) == Views(bare) && ret == retNo == retChdir)
    {
      EndsWhereItBegan(cwd, pathname);
      ret := MyftwChdir(pathname);
      first := calls;
      retNo, retChdir, full, bare := Compare(pathname, verdict);
    }
  }

  // ---- When a relative walk ends where it began ----

  /** The path spells an entry of the working directory, or the root from the root. */
  ghost predicate LeadsBack(cwd: seq<string>, start: string) {
    (exists x :: Target(cwd, start) == cwd + [x]) || Target(cwd, start) == [] == cwd
  }

  /** After a walk from any argument whose directory was entered, the working
      directory is what it was if and only if the argument spells an entry of the
      working directory, or the root from the root. */
  lemma RestoredIff(root: Node, cwd: seq<string>, start: string)
    requires Location(root, cwd, start).Some?
    ensures Location(root, cwd, start).value == Target(cwd, start)
    ensures Parent(Location(root, cwd, start).value) == cwd <==> LeadsBack(cwd, start)
  {
    var target := Target(cwd, start);
    LeadsToSpelled(root, if start[0] == '/' then [] else cwd, Components(start));
    assert target != [] ==> target == Parent(target) + [target[|target| - 1]];
  }

  lemma {:induction false} SpelledNames(at: seq<string>, names: seq<string>)
    requires forall k :: 0 <= k < |names| ==> !Dots(names[k])
    ensures Spelled(at, names) == at + names
    decreases |names|
  {
    if names == [] {
      assert at + names == at;
    } else {
      var before := names[..|names| - 1];
      var last := names[|names| - 1];
      assert !Dots(last);
      SpelledNames(at, before);
      assert (at + before) + [last] == at + names;
    }
  }

  /** A name more than the working directory. */
  lemma OneMoreName(cwd: seq<string>, names: seq<string>)
    requires names != []
    ensures (exists x :: cwd + names == cwd + [x]) <==> |names| == 1
  {
    if |names| == 1 {
      assert names == [names[0]];
    } else {
      forall x
        ensures cwd + names != cwd + [x]
      {
        assert |cwd + names| != |cwd + [x]|;
      }
    }
  }

  /** Without "." and "..": a relative argument is restored exactly if it is a
      single name, an absolute one exactly if it is the working directory and one
      name more. */
  lemma RestoredIffOneName(root: Node, cwd: seq<string>, start: string)
    requires Location(root, cwd, start).Some? && Components(start) != []
    requires forall k :: 0 <= k < |Components(start)| ==> !Dots(Components(start)[k])
    ensures Parent(Location(root, cwd, start).value) == cwd
       <==> if start[0] == '/' then exists x :: Components(start) == cwd + [x] else |Components(start)| == 1
  {
    var names := Components(start);
    RestoredIff(root, cwd, start);
    if start[0] == '/' {
      SpelledNames([], names);
      assert [] + names == names;
    } else {
      SpelledNames(cwd, names);
      OneMoreName(cwd, names);
    }
  }

  /** Started at ".", the walk ends in the parent directory, unless there is none. */
  lemma RestoredFromDotIffRoot(root: Node, cwd: seq<string>)
    requires var dir := Find(root, cwd); dir.Dir? && dir.searchable
    ensures Location(root, cwd, ".") == Some(cwd)
    ensures Parent(cwd) == cwd <==> cwd == []
  {
    ScanBare(".");
    var names, none: seq<string> := ["."], [];
    assert names[..|names| - 1] == none;
    assert Resolve(root, cwd, none) == Some(cwd);
  }

  lemma SingleEntry(name: string, node: Node)
    requires SimpleName(name) && WellFormed(node)
    ensures WellFormed(Dir(true, true, [Entry(name, node)]))
  {
    var entries := [Entry(name, node)];
    assert entries[1..] == [];
    assert Proper(entries);
  }

  /** Started at x/y the walk ends in x, where x/y names nothing: the second walk
      over the same argument then reports a failing lstat. */
  lemma NestedStartIsLost(x: string, y: string, b: Node)
    requires SimpleName(x) && SimpleName(y) && x != y && WellFormed(b) && b.Dir? && b.readable
    ensures var root := Dir(true, true, [Entry(x, Dir(true, true, [Entry(y, b)]))]);
            var start := x + "/" + y;
            && Lstat(root, [], start) == b
            && Location(root, [], start) == Some([x, y]) && Parent([x, y]) == [x]
            && Lstat(root, [x], start) == Unstatable
  {
    var a := Dir(true, true, [Entry(y, b)]);
    var root := Dir(true, true, [Entry(x, a)]);
    SingleEntry(y, b);
    SingleEntry(x, a);
    InsideNested(root, a, b, x, y);
    OutsideNested(root, a, x, y);
  }

  lemma InsideNested(root: Node, a: Node, b: Node, x: string, y: string)
    requires a == Dir(true, true, [Entry(y, b)]) && root == Dir(true, true, [Entry(x, a)])
    requires WellFormed(a) && WellFormed(root) && SimpleName(x) && SimpleName(y)
    ensures Lstat(root, [], x + "/" + y) == b && Location(root, [], x + "/" + y) == Some([x, y])
  {
    var none: seq<string> := [];
    LstatBare(root, none, 0);
    assert none + [x] == [x];
    LstatEntry(root, none, x, 0);
    ComponentsAppend(x, y);
    assert [x] + [y] == [x, y];
    assert [x, y][..1] == [x];
    assert x[0] in x && (x + "/" + y)[0] == x[0];
    OneName(root, none, x);
  }

  /** A path through a missing name leads nowhere. */
  lemma MissingName(root: Node, at: seq<string>, x: string, y: string)
    requires var dir := Find(root, at); dir.Dir? && dir.searchable && Child(dir.entries, x) == Unstatable
    requires !Dots(x)
    ensures Resolve(root, at, [x, y]) == None
  {
    var names, below := [x, y], at + [x];
    OneName(root, at, x);
    assert names[..|names| - 1] == [x];
    assert below[..|below| - 1] == at;
  }

  lemma OutsideNested(root: Node, a: Node, x: string, y: string)
    requires root == Dir(true, true, [Entry(x, a)]) && a.Dir? && a.searchable
    requires |a.entries| == 1 && a.entries[0].name == y && x != y && SimpleName(x) && SimpleName(y)
    ensures Lstat(root, [x], x + "/" + y) == Unstatable
  {
    var none, at: seq<string> := [], [x];
    ComponentsAppend(x, y);
    ComponentsAppend(y, x);
    assert Components(x + "/" + y) == [x] + [y] == [x, y];
    assert at[..|at| - 1] == none && Find(root, none) == root;
    assert Find(root, at) == a;
    assert a.entries[1..] == [];
    assert Child(a.entries, x) == Child(a.entries[1..], x);
    assert x[0] in x && (x + "/" + y)[0] == x[0];
    MissingName(root, at, x, y);
    assert Location(root, at, x + "/" + y) == Resolve(root, at, [x, y]);
  }
}
