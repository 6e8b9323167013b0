/**
  Installing skills into an agent's skills directory (internal/agentskills/install.go).
  A manifest file in the directory lists what obol installed there last time; only that may be
  removed.
*/
module Skills {
  import opened Wrappers

  type Files = map<string, string>

  datatype Entry = Dir(files: Files) | Plain(text: string)

  type Folder = map<string, Entry>

  /** The skills built into the binary, and those of the pinned release when it can be had. */
  datatype Catalog = Catalog(embedded: map<string, Files>, release: Option<map<string, Files>>)

  predicate Resolvable(c: Catalog, n: string) {
    n in c.embedded || (c.release.Some? && n in c.release.value)
  }

  function SlotOf(f: Folder, k: string): Option<Entry> {
    if k in f then Some(f[k]) else None
  }

  function FilesAt(f: Folder, k: string): Files {
    if k in f && f[k].Dir? then f[k].files else map[]
  }

  // ----- writing skills -----

  function NameSet(names: seq<string>): set<string> {
    set n | n in names
  }

  /** A built-in skill is written over what is there; any other replaces it. */
  function InstalledEntry(c: Catalog, dst: Folder, n: string): Entry
    requires Resolvable(c, n)
  {
    if n in c.embedded then Dir(FilesAt(dst, n) + c.embedded[n]) else Dir(c.release.value[n])
  }

  function Installed(c: Catalog, dst: Folder, names: set<string>): Folder
    requires forall n :: n in names ==> Resolvable(c, n)
  {
    map k | k in dst.Keys + names :: if k in names then InstalledEntry(c, dst, k) else dst[k]
  }

  /** A plain file in the place of a built-in skill stops the write. */
  predicate Blocked(c: Catalog, dst: Folder, n: string) {
    n in c.embedded && n in dst && dst[n].Plain?
  }

  /**
    How a write that stops half way may leave the directory: names outside `names` are as they
    were, a built-in skill has lost nothing but files of its own.
  */
  ghost predicate PartlyWritten(c: Catalog, dst: Folder, out: Folder, names: set<string>) {
    (forall k :: k !in names ==> SlotOf(out, k) == SlotOf(dst, k)) &&
    (forall n :: n in names && n in c.embedded ==>
      SlotOf(out, n) == SlotOf(dst, n) ||
      (!Blocked(c, dst, n) && n in out && out[n].Dir? && OnlyOwn(FilesAt(dst, n), out[n].files, c.embedded[n])))
  }

  /** The files differ at most in those of the skill itself. */
  ghost predicate OnlyOwn(before: Files, after: Files, own: Files) {
    forall p :: p !in own ==> (p in after <==> p in before) && (p in before ==> after[p] == before[p])
  }

  lemma InstalledStep(c: Catalog, dst: Folder, done: set<string>, n: string)
    requires Resolvable(c, n) && forall k :: k in done ==> Resolvable(c, k)
    ensures var out := Installed(c, dst, done);
            Installed(c, dst, done + {n}) == out[n := InstalledEntry(c, out, n)] &&
            (n in done ==> n in out && out[n].Dir?) && (n !in done ==> SlotOf(out, n) == SlotOf(dst, n))
  {
    var out := Installed(c, dst, done);
    if n in done && n in c.embedded {
      assert FilesAt(dst, n) + c.embedded[n] + c.embedded[n] == FilesAt(dst, n) + c.embedded[n];
    }
  }

  lemma InstalledPartly(c: Catalog, dst: Folder, names: set<string>, done: set<string>)
    requires done <= names && forall k :: k in done ==> Resolvable(c, k) && !Blocked(c, dst, k)
    ensures PartlyWritten(c, dst, Installed(c, dst, done), names)
  {
  }

  /** What an I/O error leaves of the skill being written. */
  function Leftover(c: Catalog, dst: Folder, n: string, junk: Option<Files>): Folder {
    if n in c.embedded then
      if junk.None? then dst
      else dst[n := Dir(FilesAt(dst, n) + map p | p in junk.value && p in c.embedded[n] :: junk.value[p])]
    else if junk.None? then dst - {n}
    else dst[n := Dir(junk.value)]
  }

  lemma LeftoverPartly(c: Catalog, dst: Folder, names: set<string>, done: set<string>, n: string, junk: Option<Files>)
    requires done <= names && n in names
    requires forall k :: k in done ==> Resolvable(c, k) && !Blocked(c, dst, k)
    requires !Blocked(c, dst, n)
    ensures PartlyWritten(c, dst, Leftover(c, Installed(c, dst, done), n, junk), names)
  {
    InstalledPartly(c, dst, names, done);
  }

  /** The names of built-in skills, in order, and the others. */
  function BuiltIn(c: Catalog, names: seq<string>): seq<string> {
    if names == [] then []
    else BuiltIn(c, names[..|names| - 1]) + if names[|names| - 1] in c.embedded then [names[|names| - 1]] else []
  }

  function OptIn(c: Catalog, names: seq<string>): seq<string> {
    if names == [] then []
    else OptIn(c, names[..|names| - 1]) + if names[|names| - 1] in c.embedded then [] else [names[|names| - 1]]
  }

  lemma {:induction false} PartsOf(c: Catalog, names: seq<string>)
    ensures forall n :: n in BuiltIn(c, names) <==> n in names && n in c.embedded
    ensures forall n :: n in OptIn(c, names) <==> n in names && n !in c.embedded
  {
    if names == [] {
    } else {
      PartsOf(c, names[..|names| - 1]);
      assert names == names[..|names| - 1] + [names[|names| - 1]];
    }
  }

  /** Writing skills one by one; an I/O error strikes after `budget` skills and leaves `junk` of the next. */
  function WroteInOrder(c: Catalog, dst: Folder, order: seq<string>, budget: nat, junk: Option<Files>): (bool, Folder)
    requires forall n :: n in order ==> Resolvable(c, n)
    decreases |order|
  {
    if order == [] then (true, dst)
    else if Blocked(c, dst, order[0]) then (false, dst)
    else if budget == 0 then (false, Leftover(c, dst, order[0], junk))
    else WroteInOrder(c, dst[order[0] := InstalledEntry(c, dst, order[0])], order[1..], budget - 1, junk)
  }

  predicate AllResolvable(c: Catalog, names: seq<string>) {
    forall n :: n in names ==> Resolvable(c, n)
  }

  /** Write: resolve every name first, then the built-in skills, then the others. */
  function Wrote(c: Catalog, dst: Folder, names: seq<string>, budget: nat, junk: Option<Files>): (bool, Folder) {
    PartsOf(c, names);
    if !AllResolvable(c, names) then (false, dst)
    else WroteInOrder(c, dst, BuiltIn(c, names) + OptIn(c, names), budget, junk)
  }

  /** From a directory that has `done` of the skills: success installs the rest, failure is a partial write. */
  ghost predicate WritesRest(c: Catalog, dst: Folder, done: set<string>, order: seq<string>, ok: bool, out: Folder)
    requires AllResolvable(c, order) && forall k :: k in done ==> Resolvable(c, k)
  {
    if ok then
      (forall n :: n in order ==> !Blocked(c, dst, n)) && out == Installed(c, dst, done + NameSet(order))
    else PartlyWritten(c, dst, out, done + NameSet(order))
  }

  /** The write stops at its first skill. */
  lemma StopsAtFirst(c: Catalog, dst: Folder, done: set<string>, order: seq<string>, budget: nat, junk: Option<Files>)
    requires AllResolvable(c, order) && order != []
    requires forall k :: k in done ==> Resolvable(c, k) && !Blocked(c, dst, k)
    requires Blocked(c, Installed(c, dst, done), order[0]) || budget == 0
    ensures var (ok, out) := WroteInOrder(c, Installed(c, dst, done), order, budget, junk);
            WritesRest(c, dst, done, order, ok, out)
  {
    var n, all := order[0], done + NameSet(order);
    InstalledStep(c, dst, done, n);
    if Blocked(c, Installed(c, dst, done), n) {
      InstalledPartly(c, dst, all, done);
    } else {
      LeftoverPartly(c, dst, all, done, n, junk);
    }
  }

  lemma RestThenMore(c: Catalog, dst: Folder, done: set<string>, order: seq<string>, ok: bool, out: Folder)
    requires AllResolvable(c, order) && order != []
    requires forall k :: k in done ==> Resolvable(c, k)
    requires !Blocked(c, dst, order[0]) && WritesRest(c, dst, done + {order[0]}, order[1..], ok, out)
    ensures WritesRest(c, dst, done, order, ok, out)
  {
    assert order == [order[0]] + order[1..];
    assert (done + {order[0]}) + NameSet(order[1..]) == done + NameSet(order);
  }

  lemma {:induction false} WroteInOrderDoes(c: Catalog, dst: Folder, done: set<string>, order: seq<string>, budget: nat,
      junk: Option<Files>)
    requires AllResolvable(c, order) && forall k :: k in done ==> Resolvable(c, k) && !Blocked(c, dst, k)
    ensures var (ok, out) := WroteInOrder(c, Installed(c, dst, done), order, budget, junk);
            WritesRest(c, dst, done, order, ok, out)
    decreases |order|
  {
    var out := Installed(c, dst, done);
    if order == [] {
      assert done + NameSet(order) == done;
    } else if Blocked(c, out, order[0]) || budget == 0 {
      StopsAtFirst(c, dst, done, order, budget, junk);
    } else {
      InstalledStep(c, dst, done, order[0]);
      WroteInOrderDoes(c, dst, done + {order[0]}, order[1..], budget - 1, junk);
      var (ok, end) := WroteInOrder(c, out, order, budget, junk);
      RestThenMore(c, dst, done, order, ok, end);
    }
  }

  lemma WroteDoes(c: Catalog, dst: Folder, names: seq<string>, budget: nat, junk: Option<Files>)
    ensures var (ok, out) := Wrote(c, dst, names, budget, junk);
            if ok then CanWrite(c, dst, names) && out == Installed(c, dst, NameSet(names))
            else PartlyWritten(c, dst, out, NameSet(names))
  {
    PartsOf(c, names);
    if AllResolvable(c, names) {
      var order := BuiltIn(c, names) + OptIn(c, names);
      WroteInOrderDoes(c, dst, {}, order, budget, junk);
      assert Installed(c, dst, {}) == dst;
      assert {} + NameSet(order) == NameSet(names);
    }
  }

  /** Every name can be resolved, and no plain file is in the way. */
  predicate CanWrite(c: Catalog, dst: Folder, names: seq<string>) {
    forall n :: n in names ==> Resolvable(c, n) && !Blocked(c, dst, n)
  }

  lemma {:induction false} WroteInOrderAll(c: Catalog, dst: Folder, order: seq<string>, budget: nat,
      junk: Option<Files>)
    requires CanWrite(c, dst, order) && budget >= |order|
    ensures WroteInOrder(c, dst, order, budget, junk).0
    decreases |order|
  {
    if order == [] {
    } else {
      var next := dst[order[0] := InstalledEntry(c, dst, order[0])];
      forall n | n in order[1..]
        ensures Resolvable(c, n) && !Blocked(c, next, n)
      {
        assert n in order;
      }
      WroteInOrderAll(c, next, order[1..], budget - 1, junk);
    }
  }

  lemma {:induction false} PartSizes(c: Catalog, names: seq<string>)
    ensures |BuiltIn(c, names)| + |OptIn(c, names)| == |names|
  {
    if names == [] {
    } else {
      PartSizes(c, names[..|names| - 1]);
    }
  }

  lemma WroteAll(c: Catalog, dst: Folder, names: seq<string>, budget: nat, junk: Option<Files>)
    requires CanWrite(c, dst, names) && budget >= |names|
    ensures Wrote(c, dst, names, budget, junk).0
  {
    PartsOf(c, names);
    PartSizes(c, names);
    WroteInOrderAll(c, dst, BuiltIn(c, names) + OptIn(c, names), budget, junk);
  }

  lemma {:induction false} WroteInTwo(c: Catalog, dst: Folder, xs: seq<string>, ys: seq<string>, budget: nat,
      junk: Option<Files>)
    requires AllResolvable(c, xs) && AllResolvable(c, ys)
    ensures WroteInOrder(c, dst, xs, budget, junk).0 ==> |xs| <= budget
    ensures var (ok, out) := WroteInOrder(c, dst, xs, budget, junk);
            WroteInOrder(c, dst, xs + ys, budget, junk) ==
            if ok then WroteInOrder(c, out, ys, budget - |xs|, junk) else (false, out)
    decreases |xs|
  {
    if xs == [] {
      assert xs + ys == ys;
    } else {
      assert (xs + ys)[1..] == xs[1..] + ys;
      if !Blocked(c, dst, xs[0]) && budget > 0 {
        WroteInTwo(c, dst[xs[0] := InstalledEntry(c, dst, xs[0])], xs[1..], ys, budget - 1, junk);
      }
    }
  }

  /** A write succeeds exactly when it can and no I/O error strikes. */
  lemma WroteIff(c: Catalog, dst: Folder, names: seq<string>, budget: nat, junk: Option<Files>)
    ensures Wrote(c, dst, names, budget, junk).0 <==> CanWrite(c, dst, names) && budget >= |names|
  {
    PartsOf(c, names);
    PartSizes(c, names);
    if AllResolvable(c, names) {
      WroteDoes(c, dst, names, budget, junk);
      WroteInTwo(c, dst, BuiltIn(c, names) + OptIn(c, names), [], budget, junk);
    }
    if CanWrite(c, dst, names) && budget >= |names| {
      WroteAll(c, dst, names, budget, junk);
    }
  }

  /** What an installed skill looks like. */
  lemma InstalledFiles(c: Catalog, dst: Folder, n: string, p: string)
    requires Resolvable(c, n)
    ensures var entry := InstalledEntry(c, dst, n);
            entry.Dir? &&
            if n in c.embedded then
              (p in c.embedded[n] ==> p in entry.files && entry.files[p] == c.embedded[n][p]) &&
              (p !in c.embedded[n] ==>
                (p in entry.files <==> p in FilesAt(dst, n)) &&
                (p in entry.files ==> entry.files[p] == FilesAt(dst, n)[p]))
            else entry.files == c.release.value[n]
  {
  }

  /** Write */
  method WriteSkills(c: Catalog, dst: Folder, names: seq<string>, budget: nat, junk: Option<Files>)
      returns (ok: bool, out: Folder)
    ensures (ok, out) == Wrote(c, dst, names, budget, junk)
    ensures ok ==> CanWrite(c, dst, names) && out == Installed(c, dst, NameSet(names))
    ensures !ok ==> PartlyWritten(c, dst, out, NameSet(names))
    ensures !AllResolvable(c, names) ==> !ok && out == dst
    ensures ok <==> CanWrite(c, dst, names) && budget >= |names|
  {
    WroteIff(c, dst, names, budget, junk);
    WroteDoes(c, dst, names, budget, junk);
    var builtIn, optIn := SplitNames(c, names);
    PartsOf(c, names);
    if exists n :: n in optIn && !Resolvable(c, n) {
      return false, dst;
    }
    ok, out := WriteInOrder(c, dst, builtIn + optIn, budget, junk);
  }

  /** The loop that tells built-in skills from the others. */
  method SplitNames(c: Catalog, names: seq<string>) returns (builtIn: seq<string>, optIn: seq<string>)
    ensures builtIn == BuiltIn(c, names) && optIn == OptIn(c, names)
  {
    builtIn, optIn := [], [];
    for i := 0 to |names|
      invariant builtIn == BuiltIn(c, names[..i]) && optIn == OptIn(c, names[..i])
    {
      assert names[..i + 1][..i] == names[..i];
      if names[i] in c.embedded {
        builtIn := builtIn + [names[i]];
      } else {
        optIn := optIn + [names[i]];
      }
    }
    assert names[..|names|] == names;
  }

  /** The loops that write. */
  method WriteInOrder(c: Catalog, dst: Folder, order: seq<string>, budget: nat, junk: Option<Files>)
      returns (ok: bool, out: Folder)
    requires AllResolvable(c, order)
    ensures (ok, out) == WroteInOrder(c, dst, order, budget, junk)
  {
    out := dst;
    ghost var goal := WroteInOrder(c, dst, order, budget, junk);
    assert order[0..] == order;
    for i := 0 to |order|
      invariant i <= budget && WroteInOrder(c, out, order[i..], budget - i, junk) == goal
    {
      var n := order[i];
      assert order[i..][0] == n && order[i..][1..] == order[i + 1..];
      if Blocked(c, out, n) {
        return false, out;
      }
      if i == budget {
        return false, Leftover(c, out, n, junk);
      }
      out := out[n := InstalledEntry(c, out, n)];
    }
    ok := true;
  }
}
