/**
  Laws of the values overrides. Merging a file and assigning a path are both edits of the
  tree, edits compose into one edit, and an edit made twice is the edit made once; so a whole
  override is idempotent although deep merge is not associative.
*/
module Edits {
  import opened Wrappers
  import opened Values

  /**
    An edit of one slot: put a value there, or edit the entries of the table found there
    (an empty one when there is none). Merging a file and assigning a path are both edits.
  */
  datatype Edit = Put(value: Value) | Into(entries: map<string, Edit>)

  function Apply(e: Edit, slot: Option<Value>): Value
    decreases e, 1
  {
    match e
    case Put(v) => v
    case Into(es) => Node(ApplyEntries(es, Below(slot)))
  }

  function ApplyEntries(es: map<string, Edit>, t: Table): Table
    decreases Into(es), 0
  {
    map k | k in t.Keys + es.Keys :: if k in es then Apply(es[k], Slot(t, k)) else t[k]
  }

  function MergeEdit(v: Value): Edit {
    match v
    case Leaf(_) => Put(v)
    case Node(m) => Into(map k | k in m :: MergeEdit(m[k]))
  }

  function MergeEdits(src: Table): map<string, Edit> {
    map k | k in src :: MergeEdit(src[k])
  }

  function SetEdits(path: seq<string>, v: Value): map<string, Edit>
    requires path != []
  {
    map[path[0] := if |path| == 1 then Put(v) else Into(SetEdits(path[1..], v))]
  }

  /** First `a`, then `b`, as one edit. */
  function Then(a: Edit, b: Edit): Edit
    decreases b, 1
  {
    match b
    case Put(_) => b
    case Into(es) =>
      match a
      case Put(v) => Put(Node(ApplyEntries(es, Below(Some(v)))))
      case Into(ds) => Into(ThenEntries(ds, es))
  }

  function ThenEntries(ds: map<string, Edit>, es: map<string, Edit>): map<string, Edit>
    decreases Into(es), 0
  {
    map k | k in ds.Keys + es.Keys ::
      if k !in es then ds[k] else if k !in ds then es[k] else Then(ds[k], es[k])
  }

  lemma {:induction false} MergeEditApplies(v: Value, slot: Option<Value>)
    ensures Apply(MergeEdit(v), slot) ==
            if v.Node? then Node(Merge(Below(slot), v.entries)) else v
    decreases v
  {
    if v.Node? {
      MergeIsEdit(Below(slot), v.entries);
    }
  }

  /** Merging `src` is an edit of the whole tree. */
  lemma {:induction false} MergeIsEdit(dst: Table, src: Table)
    ensures Merge(dst, src) == ApplyEntries(MergeEdits(src), dst)
    decreases Node(src), 0
  {
    forall k | k in src
      ensures MergedEntry(dst, src, k) == Apply(MergeEdit(src[k]), Slot(dst, k))
    {
      MergeEditApplies(src[k], Slot(dst, k));
      if src[k].Node? {
        MergeIntoEmpty(src[k].entries);
      }
    }
  }

  lemma MergeIntoEmpty(src: Table)
    ensures Merge(map[], src) == src
  {
  }

  lemma {:induction false} SetIsEdit(t: Table, path: seq<string>, v: Value)
    requires path != []
    ensures SetPath(t, path, v) == ApplyEntries(SetEdits(path, v), t)
    decreases |path|
  {
    if |path| > 1 {
      SetIsEdit(Below(Slot(t, path[0])), path[1..], v);
    }
  }

  lemma {:induction false} ThenApplies(a: Edit, b: Edit, slot: Option<Value>)
    ensures Apply(Then(a, b), slot) == Apply(b, Some(Apply(a, slot)))
    decreases b, 1
  {
    if b.Into? && a.Into? {
      ThenEntriesApplies(a.entries, b.entries, Below(slot));
    }
  }

  lemma {:induction false} ThenEntriesApplies(ds: map<string, Edit>, es: map<string, Edit>, t: Table)
    ensures ApplyEntries(ThenEntries(ds, es), t) == ApplyEntries(es, ApplyEntries(ds, t))
    decreases Into(es), 0
  {
    forall k | k in ds && k in es
      ensures Apply(Then(ds[k], es[k]), Slot(t, k)) == Apply(es[k], Some(Apply(ds[k], Slot(t, k))))
    {
      ThenApplies(ds[k], es[k], Slot(t, k));
    }
  }

  /** An edit made twice is the edit made once. */
  lemma {:induction false} ApplyTwice(e: Edit, slot: Option<Value>)
    ensures Apply(e, Some(Apply(e, slot))) == Apply(e, slot)
    decreases e, 1
  {
    if e.Into? {
      ApplyEntriesTwice(e.entries, Below(slot));
    }
  }

  lemma {:induction false} ApplyEntriesTwice(es: map<string, Edit>, t: Table)
    ensures ApplyEntries(es, ApplyEntries(es, t)) == ApplyEntries(es, t)
    decreases Into(es), 0
  {
    forall k | k in es
      ensures Apply(es[k], Some(Apply(es[k], Slot(t, k)))) == Apply(es[k], Slot(t, k))
    {
      ApplyTwice(es[k], Slot(t, k));
    }
  }

  // ----- a whole override is one edit -----

  function MergeAllEdits(overlays: seq<Table>): map<string, Edit>
    decreases |overlays|
  {
    if overlays == [] then map[] else ThenEntries(MergeEdits(overlays[0]), MergeAllEdits(overlays[1..]))
  }

  /** The expressions as one edit; an error when one of them does not parse. */
  function SetAllEdits(yaml: string -> Option<Value>, exprs: seq<string>): Result<map<string, Edit>>
    decreases |exprs|
  {
    if exprs == [] then Ok(map[])
    else match ParseAssignment(yaml, exprs[0])
      case Err(e) => Err(e)
      case Ok(a) =>
        match SetAllEdits(yaml, exprs[1..])
        case Err(e) => Err(e)
        case Ok(rest) => Ok(ThenEntries(SetEdits(a.path, a.value), rest))
  }

  lemma {:induction false} MergeAllIsEdit(base: Table, overlays: seq<Table>)
    ensures MergeAll(base, overlays) == ApplyEntries(MergeAllEdits(overlays), base)
    decreases |overlays|
  {
    if overlays == [] {
    } else {
      MergeIsEdit(base, overlays[0]);
      MergeAllIsEdit(Merge(base, overlays[0]), overlays[1..]);
      ThenEntriesApplies(MergeEdits(overlays[0]), MergeAllEdits(overlays[1..]), base);
    }
  }

  lemma {:induction false} SetAllIsEdit(yaml: string -> Option<Value>, base: Table, exprs: seq<string>)
    ensures SetAll(yaml, base, exprs) == match SetAllEdits(yaml, exprs)
                                         case Ok(es) => Ok(ApplyEntries(es, base))
                                         case Err(e) => Err(e)
    decreases |exprs|
  {
    if exprs == [] {
      assert ApplyEntries(map[], base) == base;
    } else {
      var parsed := ParseAssignment(yaml, exprs[0]);
      if parsed.Ok? {
        var a, rest := parsed.value, SetAllEdits(yaml, exprs[1..]);
        SetIsEdit(base, a.path, a.value);
        SetAllIsEdit(yaml, SetPath(base, a.path, a.value), exprs[1..]);
        if rest.Ok? {
          ThenEntriesApplies(SetEdits(a.path, a.value), rest.value, base);
        }
      }
    }
  }

  /** The whole override as one edit. */
  function OverrideEdits(yaml: string -> Option<Value>, overlays: seq<Table>, exprs: seq<string>): Result<map<string,
      Edit>> {
    match SetAllEdits(yaml, exprs)
    case Err(e) => Err(e)
    case Ok(sets) => Ok(ThenEntries(MergeAllEdits(overlays), sets))
  }

  lemma OverrideIsEdit(yaml: string -> Option<Value>, base: Table, overlays: seq<Table>, exprs: seq<string>)
    ensures var edits := OverrideEdits(yaml, overlays, exprs);
            Override(yaml, base, overlays, exprs) ==
            if edits.Ok? then Ok(ApplyEntries(edits.value, base)) else Err(edits.message)
  {
    MergeAllIsEdit(base, overlays);
    SetAllIsEdit(yaml, MergeAll(base, overlays), exprs);
    var sets := SetAllEdits(yaml, exprs);
    if sets.Ok? {
      ThenEntriesApplies(MergeAllEdits(overlays), sets.value, base);
    }
  }

  /**
    Whether an override succeeds does not depend on the tree it starts from, and one that
    succeeds gives the same tree when it is made again on its own result.
  */
  lemma OverrideTwice(yaml: string -> Option<Value>, base: Table, other: Table, overlays: seq<Table>,
      exprs: seq<string>)
    ensures Override(yaml, base, overlays, exprs).Ok? == Override(yaml, other, overlays, exprs).Ok?
    ensures var once := Override(yaml, base, overlays, exprs);
            once.Ok? ==> Override(yaml, once.value, overlays, exprs) == once
  {
    OverrideIsEdit(yaml, base, overlays, exprs);
    OverrideIsEdit(yaml, other, overlays, exprs);
    var once := Override(yaml, base, overlays, exprs);
    if once.Ok? {
      OverrideIsEdit(yaml, once.value, overlays, exprs);
      ApplyEntriesTwice(OverrideEdits(yaml, overlays, exprs).value, base);
    }
  }

  /** Two trees agree on all that an edit does not put. */
  predicate Agree(es: map<string, Edit>, t: Table, u: Table)
    decreases Into(es)
  {
    forall k :: k in t.Keys + u.Keys + es.Keys ==>
      if k !in es then Slot(t, k) == Slot(u, k)
      else es[k].Put? || Agree(es[k].entries, Below(Slot(t, k)), Below(Slot(u, k)))
  }

  lemma TableEntry(es: map<string, Edit>, t: Table, k: string)
    requires k in es && es[k].Into?
    ensures ApplyEntries(es, t)[k] == Node(ApplyEntries(es[k].entries, Below(Slot(t, k))))
  {
    assert ApplyEntries(es, t)[k] == Apply(es[k], Slot(t, k));
  }

  /** An edit makes two trees the same exactly when they agree on all that it does not put. */
  lemma {:induction false} SameResultIff(es: map<string, Edit>, t: Table, u: Table)
    ensures ApplyEntries(es, t) == ApplyEntries(es, u) <==> Agree(es, t, u)
    decreases Into(es)
  {
    var x, y := ApplyEntries(es, t), ApplyEntries(es, u);
    forall k | k in es && es[k].Into?
      ensures x[k] == y[k] <==> Agree(es[k].entries, Below(Slot(t, k)), Below(Slot(u, k)))
    {
      SameResultIff(es[k].entries, Below(Slot(t, k)), Below(Slot(u, k)));
      TableEntry(es, t, k);
      TableEntry(es, u, k);
    }
    if x == y {
      forall k | k in t.Keys + u.Keys + es.Keys && k !in es
        ensures Slot(t, k) == Slot(u, k)
      {
        assert k in x <==> k in y;
      }
    }
  }

  lemma {:induction false} MergeFilesIsMergeAll(files: map<string, File>, base: Table, paths: seq<string>)
    ensures MergeFiles(files, base, paths).Ok? == LoadAll(files, paths).Ok?
    ensures MergeFiles(files, base, paths).Ok? ==>
            MergeFiles(files, base, paths).value == MergeAll(base, LoadAll(files, paths).value)
    decreases |paths|
  {
    if paths != [] && Load(files, paths[0]).Ok? {
      MergeFilesIsMergeAll(files, Merge(base, Load(files, paths[0]).value), paths[1..]);
    }
  }

  lemma {:induction false} LoadAllFrame(files: map<string, File>, path: string, file: File, paths: seq<string>)
    requires path !in paths
    ensures LoadAll(files[path := file], paths) == LoadAll(files, paths)
    decreases |paths|
  {
    if paths == [] {
    } else {
      LoadAllFrame(files, path, file, paths[1..]);
    }
  }

  /** Running the same override again leaves the disk as the first run left it. */
  lemma ApplyOverridesTwice(yaml: string -> Option<Value>, files: map<string, File>, path: string,
      overlays: seq<string>, exprs: seq<string>)
    requires path !in overlays
    requires Outcome(yaml, files, path, overlays, exprs).Ok?
    ensures var once := AfterOverride(yaml, files, path, overlays, exprs, Written);
            Outcome(yaml, once, path, overlays, exprs).Ok? &&
            AfterOverride(yaml, once, path, overlays, exprs, Written) == once
  {
    var base := Load(files, path).value;
    var once := Outcome(yaml, files, path, overlays, exprs).value;
    var after := files[path := Parsed(once)];
    MergeFilesIsMergeAll(files, base, overlays);
    MergeFilesIsMergeAll(after, once, overlays);
    LoadAllFrame(files, path, Parsed(once), overlays);
    OverrideTwice(yaml, base, base, LoadAll(files, overlays).value, exprs);
  }

  /** What becomes of two versions of the file under the same override. */
  lemma SameOutcomeIff(yaml: string -> Option<Value>, files: map<string, File>, path: string, overlays: seq<string>,
      exprs: seq<string>, left: Table)
    requires path !in overlays && Outcome(yaml, files, path, overlays, exprs).Ok?
    ensures LoadAll(files, overlays).Ok? && OverrideEdits(yaml, LoadAll(files, overlays).value, exprs).Ok?
    ensures var other := files[path := Parsed(left)];
            Outcome(yaml, other, path, overlays, exprs).Ok? &&
            (Outcome(yaml, other, path, overlays, exprs) == Outcome(yaml, files, path, overlays, exprs) <==>
             Agree(OverrideEdits(yaml, LoadAll(files, overlays).value, exprs).value, left, files[path].table))
  {
    var base, other := files[path].table, files[path := Parsed(left)];
    MergeFilesIsMergeAll(files, base, overlays);
    MergeFilesIsMergeAll(other, left, overlays);
    LoadAllFrame(files, path, Parsed(left), overlays);
    var tables := LoadAll(files, overlays).value;
    OverrideIsEdit(yaml, base, tables, exprs);
    OverrideIsEdit(yaml, left, tables, exprs);
    SameResultIff(OverrideEdits(yaml, tables, exprs).value, left, base);
  }

  /**
    Running an override again after its final write failed. The rerun fails exactly when the
    write was stopped and what it left does not parse. It gives what the first run would have
    given exactly when the write was not stopped, or what it left parses and agrees with the old
    file on all that the override does not put.
  */
  lemma RetryAfterWrite(yaml: string -> Option<Value>, files: map<string, File>, path: string, overlays: seq<string>,
      exprs: seq<string>, end: WriteEnd)
    requires path !in overlays
    requires Outcome(yaml, files, path, overlays, exprs).Ok?
    ensures LoadAll(files, overlays).Ok? && OverrideEdits(yaml, LoadAll(files, overlays).value, exprs).Ok?
    ensures var once := AfterOverride(yaml, files, path, overlays, exprs, end);
            var edit := OverrideEdits(yaml, LoadAll(files, overlays).value, exprs).value;
            (Outcome(yaml, once, path, overlays, exprs).Err? <==> end.Stopped? && end.left.Malformed?) &&
            (AfterOverride(yaml, once, path, overlays, exprs, Written) ==
             AfterOverride(yaml, files, path, overlays, exprs, Written) <==>
             !end.Stopped? || (end.left.Parsed? && Agree(edit, end.left.table, files[path].table)))
  {
    SameOutcomeIff(yaml, files, path, overlays, exprs, files[path].table);
    if end.Written? {
      ApplyOverridesTwice(yaml, files, path, overlays, exprs);
    } else if end.Stopped? {
      RetryAfterStop(yaml, files, path, overlays, exprs, end.left);
    }
  }

  lemma RetryAfterStop(yaml: string -> Option<Value>, files: map<string, File>, path: string, overlays: seq<string>,
      exprs: seq<string>, left: File)
    requires path !in overlays
    requires Outcome(yaml, files, path, overlays, exprs).Ok?
    ensures LoadAll(files, overlays).Ok? && OverrideEdits(yaml, LoadAll(files, overlays).value, exprs).Ok?
    ensures var torn := files[path := left];
            var edit := OverrideEdits(yaml, LoadAll(files, overlays).value, exprs).value;
            (Outcome(yaml, torn, path, overlays, exprs).Err? <==> left.Malformed?) &&
            (AfterOverride(yaml, torn, path, overlays, exprs, Written) ==
             AfterOverride(yaml, files, path, overlays, exprs, Written) <==>
             left.Parsed? && Agree(edit, left.table, files[path].table))
  {
    var torn := files[path := left];
    var table := Outcome(yaml, files, path, overlays, exprs).value;
    if left.Parsed? {
      SameOutcomeIff(yaml, files, path, overlays, exprs, left.table);
      SameWrite(files, path, left, Outcome(yaml, torn, path, overlays, exprs).value, table);
    } else {
      SameOutcomeIff(yaml, files, path, overlays, exprs, files[path].table);
      assert torn[path] != files[path := Parsed(table)][path];
    }
  }

  lemma SameWrite(files: map<string, File>, path: string, left: File, a: Table, b: Table)
    ensures files[path := left][path := Parsed(a)] == files[path := Parsed(b)] <==> a == b
  {
    assert files[path := Parsed(a)][path] == Parsed(a) && files[path := Parsed(b)][path] == Parsed(b);
    assert files[path := left][path := Parsed(a)] == files[path := Parsed(a)];
  }

  /** A write stopped right after it truncated the file: the rerun succeeds, and the old values are gone. */
  lemma StoppedWriteLosesValues(yaml: string -> Option<Value>)
    ensures var files := map["v" := Parsed(map["a" := Leaf("1")])];
            var stopped := AfterOverride(yaml, files, "v", [], [], Stopped(Parsed(map[])));
            Outcome(yaml, files, "v", [], []) == Ok(map["a" := Leaf("1")]) &&
            Outcome(yaml, stopped, "v", [], []) == Ok(map[])
  {
  }

  lemma MergeSingle(k: string, x: Value, y: Value)
    ensures Merge(map[k := x], map[k := y]) ==
            map[k := if x.Node? && y.Node? then Node(Merge(x.entries, y.entries)) else y]
  {
  }

  /** Deep merge is not associative: a scalar in the middle cuts the first table off. */
  lemma MergeNotAssociative()
    ensures var a, b := map["k" := Node(map["x" := Leaf("1")])], map["k" := Leaf("5")];
            var c := map["k" := Node(map["y" := Leaf("2")])];
            Merge(Merge(a, b), c) != Merge(a, Merge(b, c))
  {
    var one, two := Node(map["x" := Leaf("1")]), Node(map["y" := Leaf("2")]);
    MergeSingle("k", one, Leaf("5"));
    MergeSingle("k", Leaf("5"), two);
    MergeSingle("k", one, two);
    var joined := Node(Merge(one.entries, two.entries));
    assert "x" in joined.entries && "x" !in two.entries;
    assert map["k" := joined]["k"] != map["k" := two]["k"];
  }

  /** When the file is one of its own overlays, a second run can change the result. */
  lemma SelfOverlayTwiceDiffers(yaml: string -> Option<Value>)
    ensures var files := map["v" := Parsed(map["k" := Leaf("5")]),
                             "x" := Parsed(map["k" := Node(map["x" := Leaf("1")])]),
                             "y" := Parsed(map["k" := Node(map["y" := Leaf("2")])])];
            var once := Outcome(yaml, files, "v", ["x", "v", "y"], []);
            once.Ok? && Outcome(yaml, files["v" := Parsed(once.value)], "v", ["x", "v", "y"], []) != once
  {
    var five, one, two := Leaf("5"), Node(map["x" := Leaf("1")]), Node(map["y" := Leaf("2")]);
    var files := map["v" := Parsed(map["k" := five]), "x" := Parsed(map["k" := one]), "y" := Parsed(map["k" := two])];
    MergeSingle("k", five, one);
    MergeSingle("k", one, five);
    MergeSingle("k", five, two);
    MergeThree(files, five, "x", "v", "y", one, five, two);
    var again := files["v" := Parsed(map["k" := two])];
    var both := Node(Merge(two.entries, one.entries));
    var kept := Node(Merge(both.entries, two.entries));
    MergeSingle("k", two, one);
    MergeSingle("k", both, two);
    MergeSingle("k", kept, two);
    MergeThree(again, two, "x", "v", "y", one, two, two);
    var last := Node(Merge(kept.entries, two.entries));
    assert "x" in both.entries && "x" in kept.entries && "x" in last.entries && "x" !in two.entries;
    assert map["k" := last]["k"] != map["k" := two]["k"];
  }

  lemma MergeThree(files: map<string, File>, base: Value, p: string, q: string, r: string, x: Value, y: Value, z: Value)
    requires p in files && files[p] == Parsed(map["k" := x])
    requires q in files && files[q] == Parsed(map["k" := y])
    requires r in files && files[r] == Parsed(map["k" := z])
    ensures MergeFiles(files, map["k" := base], [p, q, r]) ==
            Ok(Merge(Merge(Merge(map["k" := base], map["k" := x]), map["k" := y]), map["k" := z]))
  {
    var one := Merge(map["k" := base], map["k" := x]);
    var two := Merge(one, map["k" := y]);
    assert [p, q, r][1..] == [q, r] && [q, r][1..] == [r] && [r][1..] == [];
    assert MergeFiles(files, two, [r]) == Ok(Merge(two, map["k" := z]));
    assert MergeFiles(files, one, [q, r]) == MergeFiles(files, two, [r]);
  }

  // ----- what one assignment changes -----

  function Lookup(t: Table, path: seq<string>): Option<Value>
    requires path != []
    decreases |path|
  {
    if |path| == 1 then Slot(t, path[0]) else Lookup(Below(Slot(t, path[0])), path[1..])
  }

  /** A path reads back the value assigned to it. */
  lemma {:induction false} SetReadsBack(t: Table, path: seq<string>, v: Value)
    requires path != []
    ensures Lookup(SetPath(t, path, v), path) == Some(v)
    decreases |path|
  {
    if |path| > 1 {
      SetReadsBack(Below(Slot(t, path[0])), path[1..], v);
    }
  }

  /** Every path that is neither above nor below it reads what it read before. */
  lemma {:induction false} SetLeavesOthers(t: Table, path: seq<string>, v: Value, other: seq<string>)
    requires path != [] && other != [] && !(path <= other) && !(other <= path)
    ensures Lookup(SetPath(t, path, v), other) == Lookup(t, other)
    decreases |path|
  {
    if path[0] == other[0] {
      assert path == [path[0]] + path[1..] && other == [other[0]] + other[1..];
      SetLeavesOthers(Below(Slot(t, path[0])), path[1..], v, other[1..]);
    }
  }

  /** Every path above it holds a table afterwards. */
  lemma {:induction false} SetMakesTables(t: Table, path: seq<string>, v: Value, above: seq<string>)
    requires above != [] && above < path
    ensures var found := Lookup(SetPath(t, path, v), above); found.Some? && found.value.Node?
    decreases |path|
  {
    if |above| > 1 {
      SetMakesTables(Below(Slot(t, path[0])), path[1..], v, above[1..]);
    }
  }

  // ----- the later override wins -----

  /** The last expression has the last word. */
  lemma LastExpressionWins(yaml: string -> Option<Value>, base: Table, overlays: seq<Table>, exprs: seq<string>,
      expr: string)
    requires Override(yaml, base, overlays, exprs + [expr]).Ok?
    ensures ParseAssignment(yaml, expr).Ok?
    ensures var a := ParseAssignment(yaml, expr).value;
            Lookup(Override(yaml, base, overlays, exprs + [expr]).value, a.path) == Some(a.value)
  {
    SetAllLast(yaml, MergeAll(base, overlays), exprs, expr);
    var a := ParseAssignment(yaml, expr).value;
    SetReadsBack(SetAll(yaml, MergeAll(base, overlays), exprs).value, a.path, a.value);
  }

  lemma {:induction false} SetAllLast(yaml: string -> Option<Value>, base: Table, exprs: seq<string>, expr: string)
    ensures SetAll(yaml, base, exprs + [expr]) ==
            match SetAll(yaml, base, exprs)
            case Err(e) => Err(e)
            case Ok(t) => SetExpression(yaml, t, expr)
    decreases |exprs|
  {
    if exprs == [] {
      assert [expr][1..] == [];
    } else {
      assert (exprs + [expr])[1..] == exprs[1..] + [expr];
      var next := SetExpression(yaml, base, exprs[0]);
      if next.Ok? {
        SetAllLast(yaml, next.value, exprs[1..], expr);
      }
    }
  }

  /** Whatever the last file says at a path stands, where it says no table and no expression speaks. */
  lemma LastFileWins(yaml: string -> Option<Value>, base: Table, overlays: seq<Table>, last: Table, path: seq<string>)
    requires path != [] && Lookup(last, path).Some? && Lookup(last, path).value.Leaf?
    ensures Override(yaml, base, overlays + [last], []).Ok?
    ensures Lookup(Override(yaml, base, overlays + [last], []).value, path) == Lookup(last, path)
  {
    MergeAllLast(base, overlays, last);
    MergeReads(MergeAll(base, overlays), last, path);
  }

  lemma {:induction false} MergeAllLast(base: Table, overlays: seq<Table>, last: Table)
    ensures MergeAll(base, overlays + [last]) == Merge(MergeAll(base, overlays), last)
    decreases |overlays|
  {
    if overlays == [] {
      assert [last][1..] == [];
    } else {
      assert (overlays + [last])[1..] == overlays[1..] + [last];
      MergeAllLast(Merge(base, overlays[0]), overlays[1..], last);
    }
  }

  /** A leaf of the merged file replaces what was there; a path it does not touch keeps its value. */
  lemma {:induction false} MergeReads(dst: Table, src: Table, path: seq<string>)
    requires path != []
    ensures Lookup(src, path).Some? && Lookup(src, path).value.Leaf? ==>
            Lookup(Merge(dst, src), path) == Lookup(src, path)
    ensures path[0] !in src ==> Lookup(Merge(dst, src), path) == Lookup(dst, path)
    decreases |path|
  {
    if |path| > 1 {
      LookupNothing(path[1..]);
    }
    if path[0] in src {
      MergeBelow(dst, src, path[0]);
      if |path| > 1 {
        MergeReads(Below(Slot(dst, path[0])), Below(Slot(src, path[0])), path[1..]);
      }
    }
  }

  lemma {:induction false} LookupNothing(path: seq<string>)
    requires path != []
    ensures Lookup(map[], path) == None
    decreases |path|
  {
    if |path| > 1 {
      LookupNothing(path[1..]);
    }
  }

  lemma MergeBelow(dst: Table, src: Table, k: string)
    requires k in src
    ensures src[k].Node? ==> Below(Slot(Merge(dst, src), k)) == Merge(Below(Slot(dst, k)), Below(Slot(src, k)))
    ensures src[k].Leaf? ==> Below(Slot(src, k)) == map[] && Slot(Merge(dst, src), k) == Some(src[k])
  {
    if src[k].Node? && !(k in dst && dst[k].Node?) {
      MergeIntoEmpty(src[k].entries);
    }
  }
}
