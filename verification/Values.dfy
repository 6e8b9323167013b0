/**
  Values overrides of an installed application (internal/app/values.go): deep merge of
  values files followed by `path.to.key=value` expressions.

  A values tree is a value here: a table of named entries whose leaves are everything YAML
  has besides string-keyed maps (scalars, null, lists). The methods keep the loops of the
  program; `Merge` and `SetPath` say what they compute.
*/
module Values {
  import opened Wrappers
  import opened Text

  type Table = map<string, Value>

  datatype Value = Leaf(text: string) | Node(entries: map<string, Value>)

  function Slot(t: Table, k: string): Option<Value> {
    if k in t then Some(t[k]) else None
  }

  /** The table below `slot`; a missing or scalar slot counts as an empty table. */
  function Below(slot: Option<Value>): Table {
    if slot.Some? && slot.value.Node? then slot.value.entries else map[]
  }

  // ----- deep merge -----

  /** The entry that merging `src` into `dst` leaves at a key of `src`. */
  function MergedEntry(dst: Table, src: Table, k: string): Value
    requires k in src
    decreases Node(src), 0
  {
    if k in dst && dst[k].Node? && src[k].Node? then Node(Merge(dst[k].entries, src[k].entries)) else src[k]
  }

  function Merge(dst: Table, src: Table): Table
    decreases Node(src), 1
  {
    map k | k in dst.Keys + src.Keys :: if k in src then MergedEntry(dst, src, k) else dst[k]
  }

  /** `dst` with the entries of `goal` at the keys `done`. */
  function Overlaid(dst: Table, goal: Table, done: set<string>): Table
    requires done <= goal.Keys
  {
    map k | k in dst.Keys + done :: if k in done then goal[k] else dst[k]
  }

  lemma OverlaidAll(dst: Table, src: Table)
    ensures src.Keys <= Merge(dst, src).Keys
    ensures Overlaid(dst, Merge(dst, src), {}) == dst
    ensures Overlaid(dst, Merge(dst, src), src.Keys) == Merge(dst, src)
  {
  }

  lemma OverlaidStep(dst: Table, goal: Table, done: set<string>, k: string)
    requires done <= goal.Keys && k in goal && k !in done
    ensures Slot(Overlaid(dst, goal, done), k) == Slot(dst, k)
    ensures Overlaid(dst, goal, done + {k}) == Overlaid(dst, goal, done)[k := goal[k]]
  {
  }

  /** mergeMaps: entry by entry, in whatever order the map is iterated. */
  method MergeMaps(dst: Table, src: Table) returns (merged: Table)
    ensures merged == Merge(dst, src)
    decreases Node(src), 1
  {
    ghost var goal := Merge(dst, src);
    OverlaidAll(dst, src);
    merged := dst;
    var todo, done := src.Keys, {};
    while todo != {}
      invariant todo + done == src.Keys && todo !! done
      invariant merged == Overlaid(dst, goal, done)
      decreases todo
    {
      var k :| k in todo;
      OverlaidStep(dst, goal, done, k);
      var entry := MergeEntry(merged, src, k, dst);
      merged, todo, done := merged[k := entry], todo - {k}, done + {k};
    }
  }

  /** One turn of that loop: two tables are merged, anything else is replaced. */
  method MergeEntry(merged: Table, src: Table, k: string, ghost dst: Table) returns (entry: Value)
    requires k in src
    requires Slot(merged, k) == Slot(dst, k)
    ensures entry == Merge(dst, src)[k]
    decreases Node(src), 0
  {
    if k in merged && merged[k].Node? && src[k].Node? {
      var below := MergeMaps(merged[k].entries, src[k].entries);
      entry := Node(below);
    } else {
      entry := src[k];
    }
  }

  // ----- assignment along a dotted path -----

  function SetPath(t: Table, path: seq<string>, v: Value): Table
    requires path != []
    decreases |path|
  {
    if |path| == 1 then t[path[0] := v]
    else t[path[0] := Node(SetPath(Below(Slot(t, path[0])), path[1..], v))]
  }

  /** Puts `t` back at the end of the chain of tables `trail`, reached along `path`. */
  function Rebuild(trail: seq<Table>, path: seq<string>, t: Table): Table
    requires |trail| == |path|
    decreases |trail|
  {
    if trail == [] then t
    else
      var n := |trail| - 1;
      Rebuild(trail[..n], path[..n], trail[n][path[n] := Node(t)])
  }

  lemma RebuildLast(trail: seq<Table>, path: seq<string>, parent: Table, k: string, t: Table)
    requires |trail| == |path|
    ensures Rebuild(trail + [parent], path + [k], t) == Rebuild(trail, path, parent[k := Node(t)])
  {
    assert (trail + [parent])[..|trail|] == trail && (path + [k])[..|path|] == path;
  }

  /** The walk of applySetExpression down the segments, and the assignment of the last one. */
  method SetSegments(values: Table, segments: seq<string>, value: Value) returns (updated: Table)
    requires segments != []
    ensures updated == SetPath(values, segments, value)
  {
    var last := |segments| - 1;
    ghost var goal := SetPath(values, segments, value);
    var current, trail := values, [];
    assert segments[0..] == segments && segments[..0] == [];
    for i := 0 to last
      invariant |trail| == i
      invariant Rebuild(trail, segments[..i], SetPath(current, segments[i..], value)) == goal
    {
      var next := Below(Slot(current, segments[i]));
      assert segments[i..][1..] == segments[i + 1..] && segments[..i] + [segments[i]] == segments[..i + 1];
      RebuildLast(trail, segments[..i], current, segments[i], SetPath(next, segments[i + 1..], value));
      trail, current := trail + [current], next;
    }
    current := current[segments[last] := value];
    assert trail[..last] == trail;
    for i := last downto 0
      invariant Rebuild(trail[..i], segments[..i], current) == goal
    {
      assert trail[..i + 1] == trail[..i] + [trail[i]] && segments[..i + 1] == segments[..i] + [segments[i]];
      RebuildLast(trail[..i], segments[..i], trail[i], segments[i], current);
      current := trail[i][segments[i] := Node(current)];
    }
    updated := current;
  }

  datatype Assignment = Assignment(path: seq<string>, value: Value)

  /** Reads `path.to.key=value`; `yaml` decodes the right-hand side. */
  function ParseAssignment(yaml: string -> Option<Value>, expr: string): (r: Result<Assignment>)
    ensures r.Ok? ==> r.value.path != []
  {
    var cut := Cut(expr, '=');
    if cut.None? || cut.value.0 == "" then Err("expected key.path=value")
    else
      var value := yaml(cut.value.1);
      if value.None? then Err("invalid value") else Ok(Assignment(Split(cut.value.0, '.'), value.value))
  }

  /**
    Which expressions are accepted, and what they say: those with a key in front of their first
    '=' and a value behind it; the path is the key, split at its dots.
  */
  lemma ParseAssignmentIff(yaml: string -> Option<Value>, key: string, raw: string)
    requires '=' !in key
    ensures ParseAssignment(yaml, key).Err?
    ensures ParseAssignment(yaml, key + ['='] + raw).Ok? <==> key != "" && yaml(raw).Some?
    ensures var r := ParseAssignment(yaml, key + ['='] + raw);
            r.Ok? ==>
              Join(r.value.path, '.') == key && Some(r.value.value) == yaml(raw) &&
              forall i :: 0 <= i < |r.value.path| ==> '.' !in r.value.path[i]
  {
    CutNone(key, '=');
    CutAt(key, raw, '=');
    JoinSplit(key, '.');
    SplitPieces(key, '.');
  }

  /** applySetExpression on a tree. */
  function SetExpression(yaml: string -> Option<Value>, values: Table, expr: string): Result<Table> {
    match ParseAssignment(yaml, expr)
    case Ok(a) => Ok(SetPath(values, a.path, a.value))
    case Err(e) => Err(e)
  }

  function MergeAll(base: Table, overlays: seq<Table>): Table
    decreases |overlays|
  {
    if overlays == [] then base else MergeAll(Merge(base, overlays[0]), overlays[1..])
  }

  function SetAll(yaml: string -> Option<Value>, base: Table, exprs: seq<string>): Result<Table>
    decreases |exprs|
  {
    if exprs == [] then Ok(base)
    else match SetExpression(yaml, base, exprs[0])
      case Ok(next) => SetAll(yaml, next, exprs[1..])
      case Err(e) => Err(e)
  }

  /** applyOverridesToFile on a tree: the files in order, then the expressions. */
  function Override(yaml: string -> Option<Value>, base: Table, overlays: seq<Table>,
      exprs: seq<string>): Result<Table> {
    SetAll(yaml, MergeAll(base, overlays), exprs)
  }

  // ----- the files -----

  /** A file as its YAML reads back: a table, or something that is no table. */
  datatype File = Parsed(table: Table) | Malformed

  function Load(files: map<string, File>, path: string): Result<Table> {
    if path !in files then Err("failed to read values file")
    else if files[path].Malformed? then Err("failed to parse")
    else Ok(files[path].table)
  }

  function LoadAll(files: map<string, File>, paths: seq<string>): Result<seq<Table>> {
    if paths == [] then Ok([])
    else match Load(files, paths[0])
      case Err(e) => Err(e)
      case Ok(t) =>
        match LoadAll(files, paths[1..])
        case Err(e) => Err(e)
        case Ok(rest) => Ok([t] + rest)
  }

  /** The values files merged one after the other, each read when its turn comes. */
  function MergeFiles(files: map<string, File>, base: Table, paths: seq<string>): Result<Table>
    decreases |paths|
  {
    if paths == [] then Ok(base)
    else match Load(files, paths[0])
      case Err(e) => Err(e)
      case Ok(t) => MergeFiles(files, Merge(base, t), paths[1..])
  }

  /** What applying overrides to the file `path` computes. */
  function Outcome(yaml: string -> Option<Value>, files: map<string, File>, path: string, overlays: seq<string>,
      exprs: seq<string>): Result<Table> {
    match Load(files, path)
    case Err(e) => Err(e)
    case Ok(base) =>
      match MergeFiles(files, base, overlays)
      case Err(e) => Err(e)
      case Ok(merged) => SetAll(yaml, merged, exprs)
  }

  /** How the final write ends: whole, not begun, or stopped after the file was truncated. */
  datatype WriteEnd = Written | NotOpened | Stopped(left: File)

  /** The files when the final write has ended. */
  function AfterWrite(files: map<string, File>, path: string, table: Table, end: WriteEnd): map<string, File> {
    match end
    case Written => files[path := Parsed(table)]
    case NotOpened => files
    case Stopped(left) => files[path := left]
  }

  /** The files after an override, successful or not. */
  function AfterOverride(yaml: string -> Option<Value>, files: map<string, File>, path: string,
      overlays: seq<string>, exprs: seq<string>, end: WriteEnd): map<string, File> {
    match Outcome(yaml, files, path, overlays, exprs)
    case Ok(table) => AfterWrite(files, path, table, end)
    case Err(_) => files
  }

  class Disk {
    var files: map<string, File>

    constructor (files: map<string, File>)
      ensures this.files == files
    {
      this.files := files;
    }

    /**
      applyOverridesToFile: an error in a file or an expression leaves every file as it was; an
      error in the final write can spoil the file itself, and no other.
    */
    method ApplyOverrides(yaml: string -> Option<Value>, path: string, overlays: seq<string>, exprs: seq<string>,
        end: WriteEnd)
        returns (ok: bool)
      modifies this
      ensures ok <==> Outcome(yaml, old(files), path, overlays, exprs).Ok? && end.Written?
      ensures files == AfterOverride(yaml, old(files), path, overlays, exprs, end)
      ensures files - {path} == old(files) - {path}
      ensures Outcome(yaml, old(files), path, overlays, exprs).Err? ==> files == old(files)
    {
      var loaded := Load(files, path);
      if loaded.Err? {
        return false;
      }
      var base := loaded.value;
      assert overlays[0..] == overlays && exprs[0..] == exprs;
      for i := 0 to |overlays|
        invariant files == old(files)
        invariant MergeFiles(files, base, overlays[i..]) == MergeFiles(files, loaded.value, overlays)
      {
        var overlay := Load(files, overlays[i]);
        assert overlays[i..][1..] == overlays[i + 1..];
        if overlay.Err? {
          return false;
        }
        base := MergeMaps(base, overlay.value);
      }
      ghost var merged := base;
      for i := 0 to |exprs|
        invariant files == old(files)
        invariant SetAll(yaml, base, exprs[i..]) == SetAll(yaml, merged, exprs)
      {
        var parsed := ParseAssignment(yaml, exprs[i]);
        assert exprs[i..][1..] == exprs[i + 1..];
        if parsed.Err? {
          return false;
        }
        base := SetSegments(base, parsed.value.path, parsed.value.value);
      }
      files := AfterWrite(files, path, base, end);
      ok := end.Written?;
    }
  }
}
