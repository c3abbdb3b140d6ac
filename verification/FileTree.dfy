/** A directory tree that does not change, path strings, and what lstat, opendir
    and chdir find behind them. */
module FileTree {
  import opened Options

  /** What a name refers to. Unstatable stands for everything on which lstat
      fails, a missing file included. */
  datatype Node =
    | Unstatable
    | File
    | Dir(readable: bool, searchable: bool, entries: seq<Entry>)

  /** One readdir result; "." and ".." are among them. */
  datatype Entry = Entry(name: string, node: Node)

  predicate Dots(name: string) {
    name == "." || name == ".."
  }

  predicate SimpleName(name: string) {
    name != "" && '/' !in name && '\0' !in name && !Dots(name)
  }

  /** Entry names are proper names, no two alike; what can be listed can be
      searched. */
  predicate WellFormed(node: Node)
    decreases node, 1
  {
    node.Dir? ==> (node.readable ==> node.searchable) && Distinct(node.entries) && Proper(node.entries)
  }

  predicate Proper(entries: seq<Entry>)
    decreases entries, 0
  {
    entries != [] ==>
      && (Dots(entries[0].name) || (SimpleName(entries[0].name) && WellFormed(entries[0].node)))
      && Proper(entries[1..])
  }

  predicate Distinct(entries: seq<Entry>) {
    forall i, j :: 0 <= i < j < |entries| ==> entries[i].name != entries[j].name
  }

  lemma {:induction false} ProperAt(entries: seq<Entry>, i: nat)
    requires Proper(entries) && i < |entries|
    ensures Dots(entries[i].name) || (SimpleName(entries[i].name) && WellFormed(entries[i].node))
    ensures Proper(entries[i..])
  {
    if i > 0 {
      ProperAt(entries[1..], i - 1);
      assert entries[1..][i - 1..] == entries[i..];
    }
  }

  /** The entry of that name, "." and ".." excepted. */
  function Child(entries: seq<Entry>, name: string): Node {
    if entries == [] then Unstatable
    else if entries[0].name == name && !Dots(name) then entries[0].node
    else Child(entries[1..], name)
  }

  lemma {:induction false} ChildAt(entries: seq<Entry>, i: nat)
    requires i < |entries| && !Dots(entries[i].name)
    requires Distinct(entries)
    ensures Child(entries, entries[i].name) == entries[i].node
  {
    if i > 0 {
      ChildAt(entries[1..], i - 1);
    }
  }

  // ---- Paths ----

  /** The node at an absolute location, given by the names from the root. */
  function Find(root: Node, at: seq<string>): Node
    decreases |at|
  {
    if at == [] then root
    else
      var parent := Find(root, at[..|at| - 1]);
      if parent.Dir? && parent.searchable then Child(parent.entries, at[|at| - 1]) else Unstatable
  }

  function Parent(at: seq<string>): seq<string> {
    if at == [] then [] else at[..|at| - 1]
  }

  /** The complete components of a string read so far, and the text after the
      last slash. */
  function Scan(path: string): (seq<string>, string) {
    if path == "" then ([], "")
    else
      var (complete, last) := Scan(path[..|path| - 1]);
      if path[|path| - 1] != '/' then (complete, last + [path[|path| - 1]])
      else (if last == "" then complete else complete + [last], "")
  }

  /** The names between the slashes. */
  function Components(path: string): seq<string> {
    var (complete, last) := Scan(path);
    if last == "" then complete else complete + [last]
  }

  /** What strrchr(path, '/') + 1 points at, or the whole path without a slash. */
  function BaseName(path: string): string {
    Scan(path).1
  }

  /** What follows the last slash. */
  lemma {:induction false} BaseNameIs(path: string)
    ensures var name := BaseName(path); var n := |path| - |name|;
            && n >= 0 && path[n..] == name && '/' !in name && (n > 0 ==> path[n - 1] == '/')
    decreases |path|
  {
    if path != "" {
      BaseNameIs(path[..|path| - 1]);
    }
  }

  lemma {:induction false} ScanName(path: string, name: string)
    requires '/' !in name
    ensures Scan(path + "/" + name) == (Components(path), name)
    decreases |name|
  {
    var whole := path + "/" + name;
    if name == "" {
      assert whole[..|whole| - 1] == path;
    } else {
      var shorter := name[..|name| - 1];
      assert whole[..|whole| - 1] == path + "/" + shorter;
      assert name[|name| - 1] in name;
      ScanName(path, shorter);
      assert name == shorter + [name[|name| - 1]];
    }
  }

  lemma {:induction false} ScanBare(name: string)
    requires '/' !in name
    ensures Scan(name) == ([], name)
    decreases |name|
  {
    if name != "" {
      var shorter := name[..|name| - 1];
      assert name[|name| - 1] in name;
      ScanBare(shorter);
      assert name == shorter + [name[|name| - 1]];
    }
  }

  lemma ComponentsSlash(path: string)
    ensures Components(path + "/") == Components(path)
  {
    ScanName(path, "");
    assert path + "/" + "" == path + "/";
  }

  /** Appending a slash changes nothing, appending a name adds a component. */
  lemma ComponentsAppend(path: string, name: string)
    requires '/' !in name && name != ""
    ensures Components(path + "/") == Components(path)
    ensures Components(path + "/" + name) == Components(path) + [name]
    ensures Components(name) == [name]
    ensures BaseName(path + "/" + name) == name == BaseName(name)
  {
    ComponentsSlash(path);
    ScanName(path, name);
    ScanBare(name);
  }

  /** Path resolution from a location: every directory passed through must be
      searchable. */
  function Resolve(root: Node, at: seq<string>, names: seq<string>): Option<seq<string>>
    decreases |names|
  {
    if names == [] then Some(at)
    else
      var before := Resolve(root, at, names[..|names| - 1]);
      var name := names[|names| - 1];
      if before.None? then None
      else
        var here := Find(root, before.value);
        if !(here.Dir? && here.searchable) then None
        else if name == "." then before
        else if name == ".." then Some(Parent(before.value))
        else Some(before.value + [name])
  }

  /** What the names spell, whatever the tree: "." stays and ".." goes up. */
  function Spelled(at: seq<string>, names: seq<string>): seq<string>
    decreases |names|
  {
    if names == [] then at
    else
      var before := Spelled(at, names[..|names| - 1]);
      var name := names[|names| - 1];
      if name == "." then before else if name == ".." then Parent(before) else before + [name]
  }

  /** There are no links in the tree: a path that leads somewhere leads to what it
      spells. */
  lemma {:induction false} LeadsToSpelled(root: Node, at: seq<string>, names: seq<string>)
    requires Resolve(root, at, names).Some?
    ensures Resolve(root, at, names) == Some(Spelled(at, names))
    decreases |names|
  {
    if names != [] {
      LeadsToSpelled(root, at, names[..|names| - 1]);
    }
  }

  /** What a path string spells from a working directory. */
  function Target(cwd: seq<string>, path: string): seq<string> {
    Spelled(if path != "" && path[0] == '/' then [] else cwd, Components(path))
  }

  /** Where a path string leads; the empty string leads nowhere. */
  function Location(root: Node, cwd: seq<string>, path: string): Option<seq<string>> {
    if path == "" then None
    else Resolve(root, if path[0] == '/' then [] else cwd, Components(path))
  }

  /** lstat: the node behind a path, Unstatable when the call fails. */
  function Lstat(root: Node, cwd: seq<string>, path: string): Node {
    var at := Location(root, cwd, path);
    if at.None? then Unstatable else Find(root, at.value)
  }

  /** The full path of an entry leads to that entry. */
  lemma LstatEntry(root: Node, cwd: seq<string>, path: string, i: nat)
    requires var dir := Lstat(root, cwd, path);
             dir.Dir? && dir.searchable && WellFormed(dir) && i < |dir.entries| && !Dots(dir.entries[i].name)
    ensures var entry := Lstat(root, cwd, path).entries[i];
            Lstat(root, cwd, path + "/" + entry.name) == entry.node
  {
    var dir := Lstat(root, cwd, path);
    var name := dir.entries[i].name;
    ProperAt(dir.entries, i);
    ComponentsAppend(path, name);
    var at := Location(root, cwd, path).value;
    ChildAt(dir.entries, i);
    var full := path + "/" + name;
    assert full[0] == path[0];
    assert (Components(path) + [name])[..|Components(path)|] == Components(path);
    assert Location(root, cwd, full) == Some(at + [name]);
    assert (at + [name])[..|at|] == at;
  }

  lemma LstatSlash(root: Node, cwd: seq<string>, path: string)
    requires path != ""
    ensures Location(root, cwd, path + "/") == Location(root, cwd, path)
  {
    ComponentsSlash(path);
    assert (path + "/")[0] == path[0];
  }

  lemma OneName(root: Node, at: seq<string>, name: string)
    requires var dir := Find(root, at); dir.Dir? && dir.searchable
    requires !Dots(name)
    ensures Resolve(root, at, [name]) == Some(at + [name])
  {
    var names, none: seq<string> := [name], [];
    assert names[..|names| - 1] == none;
    assert Resolve(root, at, none) == Some(at);
  }

  /** From inside a directory the bare name of an entry leads to that entry. */
  lemma LstatBare(root: Node, cwd: seq<string>, i: nat)
    requires var dir := Find(root, cwd);
             dir.Dir? && dir.searchable && WellFormed(dir) && i < |dir.entries| && !Dots(dir.entries[i].name)
    ensures var entry := Find(root, cwd).entries[i];
            Location(root, cwd, entry.name) == Some(cwd + [entry.name]) && Lstat(root, cwd, entry.name) == entry.node
  {
    var dir := Find(root, cwd);
    var name := dir.entries[i].name;
    ProperAt(dir.entries, i);
    ScanBare(name);
    ChildAt(dir.entries, i);
    assert name[0] in name;
    OneName(root, cwd, name);
    assert (cwd + [name])[..|cwd|] == cwd;
  }
}
