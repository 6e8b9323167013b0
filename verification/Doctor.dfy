/**
  The check runner of `obol doctor` (internal/doctor/doctor.go): the cluster probe first, then
  all other checks concurrently, results in display order.

  `W` is everything checks look at and repairs change, apart from the answer of the probe. A
  goroutine takes up to three steps (the check, its repair, the check again), and the scheduler
  picks the next goroutine freely.
*/
module Doctor {
  import opened Wrappers
  import opened Sorting

  datatype Status = NoStatus | Ok | Info | Skip | Warn | Fail

  function Rank(s: Status): nat {
    if s.Fail? then 3 else if s.Warn? then 2 else 0
  }

  datatype Result = Result(
    id: string, group: string, title: string,
    status: Status, message: string, fix: string,
    fixable: bool, fixed: bool)

  /** What the Run function of a check does: return a result, or panic. */
  datatype Outcome =
    | Returned(status: Status, message: string, fix: string, fixable: bool, timedOut: bool)
    | Crashed(why: string)

  datatype Repaired<W> = Repaired(world: W, error: Option<string>)

  datatype Check<!W> = Check(
    id: string, group: string, title: string,
    needsCluster: bool, online: bool,
    run: (bool, W) -> Outcome,
    repair: Option<(bool, W) -> Repaired<W>>)

  datatype Options = Options(offline: bool, fix: bool)

  // ----- one check -----

  function Named<W>(c: Check<W>, status: Status, message: string): Result {
    Result(c.id, c.group, c.title, status, message, "", false, false)
  }

  /** safeRun: a panic is a warning. */
  function SafeRun<W>(c: Check<W>, up: bool, w: W): Result {
    match c.run(up, w)
    case Crashed(why) => Named(c, Warn, "check crashed: " + why)
    case Returned(status, message, fix, fixable, timedOut) =>
      Named(c, status, message).(fix := fix, fixable := fixable)
  }

  function TimedOut<W>(c: Check<W>, up: bool, w: W): bool {
    c.run(up, w).Returned? && c.run(up, w).timedOut && c.run(up, w).status.NoStatus?
  }

  /** The result before any repair. */
  function Judgement<W>(c: Check<W>, up: bool, w: W): Result {
    var found := SafeRun(c, up, w);
    var r := if TimedOut(c, up, w) then found.(status := Warn, message := "timed out") else found;
    r.(fixable := r.fixable && c.repair.Some? && Rank(r.status) > 0)
  }

  datatype Task = Start | Judged(r: Result) | AfterRepair(r: Result, error: Option<string>) | Done(r: Result)

  function StepsLeft(t: Task): nat {
    match t
    case Start => 3
    case Judged(_) => 2
    case AfterRepair(_, _) => 1
    case Done(_) => 0
  }

  /** One step of runOne. */
  function Stepped<W>(c: Check<W>, up: bool, opts: Options, t: Task, w: W): (Task, W)
    requires !t.Done?
  {
    match t
    case Start =>
      if c.online && opts.offline then (Done(Named(c, Skip, "skipped (--offline)")), w)
      else if c.needsCluster && !up then (Done(Named(c, Skip, "stack not running")), w)
      else
        var r := Judgement(c, up, w);
        (if r.fixable && opts.fix then Judged(r) else Done(r), w)
    case Judged(r) =>
      if c.repair.None? then (Done(r), w)
      else
        var repaired := c.repair.value(up, w);
        (AfterRepair(r, repaired.error), repaired.world)
    case AfterRepair(r, error) =>
      if error.Some? then (Done(r.(message := r.message + " (fix failed: " + error.value + ")")), w)
      else
        var after := SafeRun(c, up, w);
        var fixed := Rank(after.status) < Rank(r.status);
        (Done(r.(fixed := fixed, status := after.status, message := after.message, fix := after.fix)), w)
  }

  /** A check run to its end with nobody else at work: its result and the world it leaves. */
  function Finished<W>(c: Check<W>, up: bool, opts: Options, t: Task, w: W): (Result, W)
    decreases StepsLeft(t)
  {
    match t
    case Done(r) => (r, w)
    case _ =>
      var (next, v) := Stepped(c, up, opts, t, w);
      Finished(c, up, opts, next, v)
  }

  /** runOne */
  method RunOne<W>(c: Check<W>, up: bool, opts: Options, w: W) returns (r: Result, after: W)
    ensures (r, after) == Finished(c, up, opts, Start, w)
  {
    var t := Start;
    after := w;
    while !t.Done?
      invariant Finished(c, up, opts, t, after) == Finished(c, up, opts, Start, w)
      decreases StepsLeft(t)
    {
      t, after := Stepped(c, up, opts, t, after).0, Stepped(c, up, opts, t, after).1;
    }
    r := t.r;
  }

  /** Every result carries the identity of its check, and every check ends with one. */
  lemma {:induction false} FinishedIdentity<W>(c: Check<W>, up: bool, opts: Options, t: Task, w: W)
    requires t.Start? || (t.r.id == c.id && t.r.group == c.group && t.r.title == c.title)
    ensures var r := Finished(c, up, opts, t, w).0; r.id == c.id && r.group == c.group && r.title == c.title
    decreases StepsLeft(t)
  {
    if !t.Done? {
      var (next, v) := Stepped(c, up, opts, t, w);
      FinishedIdentity(c, up, opts, next, v);
    }
  }

  /** A check that is skipped looks at nothing. */
  predicate Skipped<W>(c: Check<W>, up: bool, opts: Options) {
    (c.online && opts.offline) || (c.needsCluster && !up)
  }

  /** The repair runs exactly when it is asked for and the check called its finding fixable. */
  predicate Repairs<W>(c: Check<W>, up: bool, opts: Options, w: W) {
    !Skipped(c, up, opts) && opts.fix && c.repair.Some? &&
    SafeRun(c, up, w).fixable && Rank(Judgement(c, up, w).status) > 0
  }

  /**
    What a check reports before any repair: skipped, crashed, timed out, or what it found. The
    repair is offered for a finding that the check calls fixable, warnings and failures only.
  */
  lemma JudgementIs<W>(c: Check<W>, up: bool, opts: Options, w: W)
    ensures !Repairs(c, up, opts, w) ==>
              Finished(c, up, opts, Start, w).0 ==
              if c.online && opts.offline then
                Result(c.id, c.group, c.title, Skip, "skipped (--offline)", "", false, false)
              else if c.needsCluster && !up then
                Result(c.id, c.group, c.title, Skip, "stack not running", "", false, false)
              else Judgement(c, up, w)
    ensures var r := Judgement(c, up, w);
            match c.run(up, w)
            case Crashed(why) => r.status == Warn && r.message == "check crashed: " + why && !r.fixable
            case Returned(status, message, fix, fixable, timedOut) =>
              r.fix == fix &&
              (if timedOut && status == NoStatus then r.status == Warn && r.message == "timed out"
               else r.status == status && r.message == message) &&
              (r.fixable <==> fixable && c.repair.Some? && (r.status == Warn || r.status == Fail))
  {
    var t := Stepped(c, up, opts, Start, w).0;
    if t.Done? {
      assert Finished(c, up, opts, t, w) == (t.r, w);
    }
  }

  /** Less wrong: no failure any more, or no warning any more and no failure either. */
  lemma LessWrongIff(before: Status, after: Status)
    ensures Rank(after) < Rank(before) <==>
            (before == Fail && after != Fail) || (before == Warn && after != Warn && after != Fail)
  {
  }

  lemma RepairEnds<W>(c: Check<W>, up: bool, opts: Options, r: Result, w: W)
    requires c.repair.Some?
    ensures var repaired := c.repair.value(up, w);
            var (t, after) := Stepped(c, up, opts, AfterRepair(r, repaired.error), repaired.world);
            after == repaired.world && t.Done? && Finished(c, up, opts, Judged(r), w) == (t.r, after)
  {
    var repaired := c.repair.value(up, w);
    var t := Stepped(c, up, opts, AfterRepair(r, repaired.error), repaired.world).0;
    assert Finished(c, up, opts, t, repaired.world) == (t.r, repaired.world);
    assert Finished(c, up, opts, AfterRepair(r, repaired.error), repaired.world) == (t.r, repaired.world);
  }

  /**
    What a check changes and what it says of it: without a repair the world stays; a finding
    counts as fixed exactly when the repair succeeds and the check then finds less wrong; a
    failed repair leaves the finding as it was.
  */
  lemma FixedIff<W>(c: Check<W>, up: bool, opts: Options, w: W)
    ensures var (r, after) := Finished(c, up, opts, Start, w);
            if !Repairs(c, up, opts, w) then after == w && !r.fixed
            else
              var repaired := c.repair.value(up, w);
              after == repaired.world &&
              (r.fixed <==> repaired.error.None? && Rank(r.status) < Rank(Judgement(c, up, w).status)) &&
              r.status == (if repaired.error.None? then SafeRun(c, up, after) else Judgement(c, up, w)).status &&
              r.message == (if repaired.error.None? then SafeRun(c, up, after).message
                            else Judgement(c, up, w).message + " (fix failed: " + repaired.error.value + ")")
  {
    var t := Stepped(c, up, opts, Start, w).0;
    if t.Judged? {
      RepairEnds(c, up, opts, t.r, w);
      assert Finished(c, up, opts, Start, w) == Finished(c, up, opts, t, w);
    } else {
      assert Finished(c, up, opts, t, w) == (t.r, w);
    }
  }

  /** A check that needs the cluster is skipped exactly on the word of the gate, in any world. */
  lemma GateDecides<W>(c: Check<W>, up: bool, opts: Options, w: W)
    requires c.needsCluster && !(c.online && opts.offline)
    ensures !up ==> Finished(c, up, opts, Start, w) == (Named(c, Skip, "stack not running"), w)
    ensures up ==> Finished(c, up, opts, Start, w) == Finished(c.(needsCluster := false), up, opts, Start, w)
  {
    var free := c.(needsCluster := false);
    if up {
      var (t, v) := Stepped(c, up, opts, Start, w);
      assert Stepped(free, up, opts, Start, w) == (t, v);
      SameFromHere(c, free, up, opts, t, v);
    } else {
      var skipped := Named(c, Skip, "stack not running");
      assert Finished(c, up, opts, Done(skipped), w).0 == skipped;
    }
  }

  lemma {:induction false} SameFromHere<W>(c: Check<W>, d: Check<W>, up: bool, opts: Options, t: Task, w: W)
    requires !t.Start? && d == c.(needsCluster := d.needsCluster)
    ensures Finished(c, up, opts, t, w) == Finished(d, up, opts, t, w)
    decreases StepsLeft(t)
  {
    if !t.Done? {
      var (next, v) := Stepped(c, up, opts, t, w);
      assert Stepped(d, up, opts, t, w) == (next, v);
      SameFromHere(c, d, up, opts, next, v);
    }
  }

  // ----- all checks -----

  const CLUSTER := "cluster"

  predicate IsGate<W>(c: Check<W>) {
    c.id == CLUSTER
  }

  /** The world and the gate after the cluster probes among the first `n` checks. */
  function GatePhase<W>(checks: seq<Check<W>>, n: nat, opts: Options, w: W): (W, bool)
    requires n <= |checks|
  {
    if n == 0 then (w, false)
    else
      var (v, up) := GatePhase(checks, n - 1, opts, w);
      if !IsGate(checks[n - 1]) then (v, up)
      else
        var (r, after) := Finished(checks[n - 1], up, opts, Start, v);
        (after, r.status.Ok?)
  }

  /** The word of the gate is that of the last probe; without a probe the cluster counts as down. */
  lemma {:induction false} LastProbeDecides<W>(checks: seq<Check<W>>, n: nat, opts: Options, w: W)
    requires n <= |checks|
    ensures (forall i :: 0 <= i < n ==> checks[i].id != "cluster") ==> GatePhase(checks, n, opts, w) == (w, false)
    ensures n > 0 && checks[n - 1].id != "cluster" ==>
            GatePhase(checks, n, opts, w) == GatePhase(checks, n - 1, opts, w)
    ensures n > 0 && checks[n - 1].id == "cluster" ==>
              (GatePhase(checks, n, opts, w).1 <==> Alone(checks, n - 1, opts, w).status == Status.Ok)
  {
    if n == 0 {
    } else {
      LastProbeDecides(checks, n - 1, opts, w);
    }
  }

  /** The result of one check when nobody else is at work after the probes. */
  function Alone<W>(checks: seq<Check<W>>, i: nat, opts: Options, w: W): Result
    requires i < |checks|
  {
    var (v, up) := GatePhase(checks, if IsGate(checks[i]) then i else |checks|, opts, w);
    Finished(checks[i], up, opts, Start, v).0
  }

  /** In worlds that look the same to check `i`, it says the same, and so does its repair if it runs. */
  ghost predicate SeesTheSame<W, V>(checks: seq<Check<W>>, view: (nat, W) -> V, i: nat, up: bool, opts: Options,
      u: W, w: W)
    requires i < |checks|
  {
    checks[i].run(up, u) == checks[i].run(up, w) &&
    (Repairs(checks[i], up, opts, w) ==>
      var repairedU, repairedW := checks[i].repair.value(up, u), checks[i].repair.value(up, w);
      repairedU.error == repairedW.error && view(i, repairedU.world) == view(i, repairedW.world))
  }

  /**
    No check depends on another's repair: what check `i` reads is `view(i, _)`, and the
    repairs of the others, where they run, leave that alone. Only the worlds in `scope` count,
    which no repair leaves. The probes are exempt, since they are done before the others start:
    their repair may change whatever the others read.
  */
  ghost predicate Independent<W(!new), V(!new)>(checks: seq<Check<W>>, view: (nat, W) -> V, scope: W -> bool, up: bool,
      opts: Options) {
    (forall i: nat, u, w ::
      i < |checks| && !IsGate(checks[i]) && scope(u) && scope(w) && view(i, u) == view(i, w) ==>
      SeesTheSame(checks, view, i, up, opts, u, w)) &&
    (forall j: nat, w :: j < |checks| && !IsGate(checks[j]) && scope(w) && Repairs(checks[j], up, opts, w) ==>
      var after := checks[j].repair.value(up, w).world;
      scope(after) && forall i: nat :: i < |checks| && i != j && !IsGate(checks[i]) ==> view(i, after) == view(i, w))
  }

  /** A check that is about to be repaired is one whose repair runs. */
  predicate Ready<W>(c: Check<W>, up: bool, opts: Options, t: Task, w: W) {
    t.Judged? ==> Repairs(c, up, opts, w)
  }

  /** A step in a world that looks the same to the check comes out the same. */
  lemma StepSeesTheSame<W(!new), V(!new)>(checks: seq<Check<W>>, view: (nat, W) -> V, scope: W -> bool, i: nat,
      up: bool,
      opts: Options, t: Task, u: W, w: W)
    requires Independent(checks, view, scope, up, opts) && i < |checks| && !IsGate(checks[i]) && !t.Done?
    requires scope(u) && scope(w) && view(i, u) == view(i, w) && Ready(checks[i], up, opts, t, w)
    ensures var (nextU, v) := Stepped(checks[i], up, opts, t, u);
            var (nextW, x) := Stepped(checks[i], up, opts, t, w);
            nextU == nextW && scope(v) && scope(x) && view(i, v) == view(i, x) && Ready(checks[i], up, opts, nextW, x)
  {
    assert SeesTheSame(checks, view, i, up, opts, u, w);
  }

  /** A step of one check is invisible to every other. */
  lemma StepUnseen<W(!new), V(!new)>(checks: seq<Check<W>>, view: (nat, W) -> V, scope: W -> bool, i: nat, up: bool,
      opts: Options, t: Task, w: W, j: nat)
    requires Independent(checks, view, scope, up, opts) && i < |checks| && j < |checks| && i != j && !t.Done?
    requires !IsGate(checks[i]) && !IsGate(checks[j]) && scope(w) && Ready(checks[i], up, opts, t, w)
    ensures var v := Stepped(checks[i], up, opts, t, w).1; scope(v) && view(j, v) == view(j, w)
  {
  }

  function Total(tasks: seq<Task>): nat {
    if tasks == [] then 0 else StepsLeft(tasks[0]) + Total(tasks[1..])
  }

  lemma {:induction false} TotalDrops(tasks: seq<Task>, i: nat, t: Task)
    requires i < |tasks| && StepsLeft(t) < StepsLeft(tasks[i])
    ensures Total(tasks[i := t]) < Total(tasks)
  {
    if i > 0 {
      TotalDrops(tasks[1..], i - 1, t);
      assert tasks[i := t][1..] == tasks[1..][i - 1 := t];
    } else {
      assert tasks[i := t][1..] == tasks[1..];
    }
  }

  /** A goroutine is on its way to the result it would have alone. */
  ghost predicate OnTrack<W(!new), V(!new)>(checks: seq<Check<W>>, view: (nat, W) -> V, scope: W -> bool, i: nat,
      up: bool,
      opts: Options, t: Task, w: W, expected: Result)
    requires i < |checks|
  {
    if t.Done? then t.r == expected
    else
      Ready(checks[i], up, opts, t, w) &&
      exists u :: scope(u) && view(i, u) == view(i, w) && Finished(checks[i], up, opts, t, u).0 == expected
  }

  lemma StaysOnTrack<W(!new), V(!new)>(checks: seq<Check<W>>, view: (nat, W) -> V, scope: W -> bool, i: nat,
      up: bool, opts: Options,
      t: Task, w: W, expected: Result)
    requires Independent(checks, view, scope, up, opts) && i < |checks| && !IsGate(checks[i]) && !t.Done?
    requires scope(w) && OnTrack(checks, view, scope, i, up, opts, t, w, expected)
    ensures var (next, v) := Stepped(checks[i], up, opts, t, w);
            scope(v) && OnTrack(checks, view, scope, i, up, opts, next, v, expected)
  {
    var u :| scope(u) && view(i, u) == view(i, w) && Finished(checks[i], up, opts, t, u).0 == expected;
    StepSeesTheSame(checks, view, scope, i, up, opts, t, u, w);
    var (next, x) := Stepped(checks[i], up, opts, t, u);
    assert Finished(checks[i], up, opts, next, x).0 == expected;
  }

  lemma OtherStaysOnTrack<W(!new), V(!new)>(checks: seq<Check<W>>, view: (nat, W) -> V, scope: W -> bool, i: nat,
      up: bool,
      opts: Options, t: Task, w: W, j: nat, tj: Task, expected: Result)
    requires Independent(checks, view, scope, up, opts) && i < |checks| && j < |checks| && i != j && !t.Done?
    requires !IsGate(checks[i]) && !IsGate(checks[j]) && scope(w) && Ready(checks[i], up, opts, t, w)
    requires OnTrack(checks, view, scope, j, up, opts, tj, w, expected)
    ensures OnTrack(checks, view, scope, j, up, opts, tj, Stepped(checks[i], up, opts, t, w).1, expected)
  {
    StepUnseen(checks, view, scope, i, up, opts, t, w, j);
    assert SeesTheSame(checks, view, j, up, opts, w, Stepped(checks[i], up, opts, t, w).1);
  }

  ghost predicate AllOnTrack<W(!new), V(!new)>(checks: seq<Check<W>>, view: (nat, W) -> V, scope: W -> bool,
      up: bool, opts: Options,
      tasks: seq<Task>, w: W, expected: seq<Result>)
    requires |tasks| == |checks| == |expected|
  {
    scope(w) && forall i :: 0 <= i < |checks| ==>
      OnTrack(checks, view, scope, i, up, opts, tasks[i], w, expected[i]) && (IsGate(checks[i]) ==> tasks[i].Done?)
  }

  /** A step of one goroutine keeps all of them on their way. */
  lemma AllStayOnTrack<W(!new), V(!new)>(checks: seq<Check<W>>, view: (nat, W) -> V, scope: W -> bool, i: nat,
      up: bool, opts: Options,
      tasks: seq<Task>, w: W, expected: seq<Result>)
    requires Independent(checks, view, scope, up, opts) && |tasks| == |checks| == |expected| && i < |checks| &&
             !tasks[i].Done?
    requires AllOnTrack(checks, view, scope, up, opts, tasks, w, expected)
    ensures var (next, after) := Stepped(checks[i], up, opts, tasks[i], w);
      AllOnTrack(checks, view, scope, up, opts, tasks[i := next], after, expected)
  {
    var (next, after) := Stepped(checks[i], up, opts, tasks[i], w);
    forall j | 0 <= j < |checks|
      ensures OnTrack(checks, view, scope, j, up, opts, tasks[i := next][j], after, expected[j])
    {
      if j == i {
        StaysOnTrack(checks, view, scope, i, up, opts, tasks[i], w, expected[i]);
      } else if !tasks[j].Done? {
        OtherStaysOnTrack(checks, view, scope, i, up, opts, tasks[i], w, j, tasks[j], expected[j]);
      }
    }
  }

  /** The place of a group in display order; an unknown group counts as the first. */
  function Place(group: string): int {
    if group == "Tools" then 1
    else if group == "Stack" then 2
    else if group == "Services" then 3
    else if group == "Tunnel" then 4
    else if group == "Wallets" then 5
    else 0
  }

  const BY_GROUP: Result -> int := (r: Result) => Place(r.group)

  function Displayed(results: seq<Result>): seq<Result> {
    Sort(results, ByRank(BY_GROUP))
  }

  function AllAlone<W>(checks: seq<Check<W>>, opts: Options, w: W): seq<Result> {
    seq(|checks|, i requires 0 <= i < |checks| => Alone(checks, i, opts, w))
  }

  /** One turn: a probe has had its turn already. */
  function Turn<W>(c: Check<W>, probe: Result, up: bool, opts: Options, w: W): (Result, W) {
    if IsGate(c) then (probe, w) else Finished(c, up, opts, Start, w)
  }

  /**
    Run without concurrency: once the probes are done, the other checks take their turns, each
    in the world the one before it left.
  */
  function InTurn<W>(checks: seq<Check<W>>, probes: seq<Result>, up: bool, n: nat, opts: Options,
      probed: W): (seq<Result>, W)
    requires n <= |checks| == |probes|
  {
    if n == 0 then ([], probed)
    else
      var (results, v) := InTurn(checks, probes, up, n - 1, opts, probed);
      var (r, after) := Turn(checks[n - 1], probes[n - 1], up, opts, v);
      (results + [r], after)
  }

  function Sequential<W>(checks: seq<Check<W>>, opts: Options, w: W): seq<Result> {
    var (probed, up) := GatePhase(checks, |checks|, opts, w);
    InTurn(checks, AllAlone(checks, opts, w), up, |checks|, opts, probed).0
  }

  lemma {:induction false} FinishedSeesTheSame<W(!new), V(!new)>(checks: seq<Check<W>>, view: (nat, W) -> V,
      scope: W -> bool, i: nat,
      up: bool, opts: Options, t: Task, u: W, w: W)
    requires Independent(checks, view, scope, up, opts) && i < |checks| && !IsGate(checks[i])
    requires scope(u) && scope(w) && view(i, u) == view(i, w) && Ready(checks[i], up, opts, t, w)
    ensures Finished(checks[i], up, opts, t, u).0 == Finished(checks[i], up, opts, t, w).0
    decreases StepsLeft(t)
  {
    if !t.Done? {
      StepSeesTheSame(checks, view, scope, i, up, opts, t, u, w);
      FinishedSeesTheSame(checks, view, scope, i, up, opts, Stepped(checks[i], up, opts, t, w).0,
        Stepped(checks[i], up, opts, t, u).1, Stepped(checks[i], up, opts, t, w).1);
    }
  }

  lemma {:induction false} FinishedUnseen<W(!new), V(!new)>(checks: seq<Check<W>>, view: (nat, W) -> V,
      scope: W -> bool, i: nat,
      up: bool, opts: Options, t: Task, w: W, j: nat)
    requires Independent(checks, view, scope, up, opts) && i < |checks| && j < |checks| && i != j
    requires !IsGate(checks[i]) && !IsGate(checks[j]) && scope(w) && Ready(checks[i], up, opts, t, w)
    ensures view(j, Finished(checks[i], up, opts, t, w).1) == view(j, w)
    decreases StepsLeft(t)
  {
    if !t.Done? {
      StepSeesTheSame(checks, view, scope, i, up, opts, t, w, w);
      StepUnseen(checks, view, scope, i, up, opts, t, w, j);
      var (next, v) := Stepped(checks[i], up, opts, t, w);
      FinishedUnseen(checks, view, scope, i, up, opts, next, v, j);
    }
  }

  lemma {:induction false} FinishedInScope<W(!new), V(!new)>(checks: seq<Check<W>>, view: (nat, W) -> V,
      scope: W -> bool,
      i: nat, up: bool, opts: Options, t: Task, w: W)
    requires Independent(checks, view, scope, up, opts) && i < |checks| && !IsGate(checks[i])
    requires scope(w) && Ready(checks[i], up, opts, t, w)
    ensures scope(Finished(checks[i], up, opts, t, w).1)
    decreases StepsLeft(t)
  {
    if !t.Done? {
      StepSeesTheSame(checks, view, scope, i, up, opts, t, w, w);
      var (next, v) := Stepped(checks[i], up, opts, t, w);
      FinishedInScope(checks, view, scope, i, up, opts, next, v);
    }
  }

  /** One more turn, where the earlier ones were all invisible to those still waiting. */
  lemma OneMoreTurn<W(!new), V(!new)>(checks: seq<Check<W>>, view: (nat, W) -> V, scope: W -> bool, probe: Result,
      n: nat, up: bool,
      opts: Options, v: W, probed: W)
    requires Independent(checks, view, scope, up, opts) && n < |checks|
    requires scope(v) && scope(probed)
    requires forall j: nat :: n <= j < |checks| && !IsGate(checks[j]) ==> view(j, v) == view(j, probed)
    ensures scope(Turn(checks[n], probe, up, opts, v).1)
    ensures Turn(checks[n], probe, up, opts, v).0 == Turn(checks[n], probe, up, opts, probed).0
    ensures forall j: nat :: n < j < |checks| && !IsGate(checks[j]) ==>
              view(j, Turn(checks[n], probe, up, opts, v).1) == view(j, probed)
  {
    if !IsGate(checks[n]) {
      FinishedSeesTheSame(checks, view, scope, n, up, opts, Start, v, probed);
      FinishedInScope(checks, view, scope, n, up, opts, Start, v);
      forall j: nat | n < j < |checks| && !IsGate(checks[j])
        ensures view(j, Turn(checks[n], probe, up, opts, v).1) == view(j, probed)
      {
        FinishedUnseen(checks, view, scope, n, up, opts, Start, v, j);
      }
    }
  }

  lemma {:induction false} TurnsDoNotMatter<W(!new), V(!new)>(checks: seq<Check<W>>, view: (nat, W) -> V,
      scope: W -> bool,
      probes: seq<Result>, up: bool, n: nat, opts: Options, probed: W)
    requires Independent(checks, view, scope, up, opts) && n <= |checks| == |probes| && scope(probed)
    ensures var (results, v) := InTurn(checks, probes, up, n, opts, probed);
      |results| == n && scope(v) &&
      (forall j :: 0 <= j < n ==> results[j] == Turn(checks[j], probes[j], up, opts, probed).0) &&
      (forall j: nat :: n <= j < |checks| && !IsGate(checks[j]) ==> view(j, v) == view(j, probed))
  {
    if n > 0 {
      TurnsDoNotMatter(checks, view, scope, probes, up, n - 1, opts, probed);
      var v := InTurn(checks, probes, up, n - 1, opts, probed).1;
      OneMoreTurn(checks, view, scope, probes[n - 1], n - 1, up, opts, v, probed);
    }
  }

  /** Taking turns gives each check the result it has on its own. */
  lemma SequentialIsAlone<W(!new), V(!new)>(checks: seq<Check<W>>, view: (nat, W) -> V, scope: W -> bool,
      opts: Options, w: W)
    requires var (probed, up) := GatePhase(checks, |checks|, opts, w);
             scope(probed) && Independent(checks, view, scope, up, opts)
    ensures Sequential(checks, opts, w) == AllAlone(checks, opts, w)
  {
    var (probed, up) := GatePhase(checks, |checks|, opts, w);
    TurnsDoNotMatter(checks, view, scope, AllAlone(checks, opts, w), up, |checks|, opts, probed);
  }

  /** Every check has one result, under its own name. */
  lemma OneResultPerCheck<W>(checks: seq<Check<W>>, opts: Options, w: W, i: nat)
    requires i < |checks|
    ensures |AllAlone(checks, opts, w)| == |checks|
    ensures var r := AllAlone(checks, opts, w)[i];
            r.id == checks[i].id && r.group == checks[i].group &&
            r.title == checks[i].title
  {
    var (v, up) := GatePhase(checks, if IsGate(checks[i]) then i else |checks|, opts, w);
    FinishedIdentity(checks[i], up, opts, Start, v);
  }

  /** The display has the same results, groups in their order, each group in the order of the checks. */
  lemma DisplayIsStable(results: seq<Result>, group: int)
    ensures multiset(Displayed(results)) == multiset(results)
    ensures forall i, j :: 0 <= i < j < |Displayed(results)| ==>
            Place(Displayed(results)[i].group) <= Place(Displayed(results)[j].group)
    ensures OfRank(Displayed(results), BY_GROUP, group) == OfRank(results, BY_GROUP, group)
  {
    SortPermutes(results, ByRank(BY_GROUP));
    SortSorts(results, ByRank(BY_GROUP));
    SortIsStable(results, BY_GROUP, group);
  }

  const GROUPS := ["Host", "Tools", "Stack", "Services", "Tunnel", "Wallets"]

  lemma PlacesAre()
    ensures forall m :: 0 <= m < |GROUPS| ==> Place(GROUPS[m]) == m
  {
    assert Place("Host") == 0 && Place("Tools") == 1 && Place("Stack") == 2;
    assert Place("Services") == 3 && Place("Tunnel") == 4 && Place("Wallets") == 5;
  }

  /** The display goes through the groups in this order. */
  lemma GroupsInOrder(results: seq<Result>, i: nat, j: nat, m: nat, n: nat)
    requires i < j < |Displayed(results)| && m < |GROUPS| && n < |GROUPS|
    requires Displayed(results)[i].group == GROUPS[m] && Displayed(results)[j].group == GROUPS[n]
    ensures m <= n
  {
    PlacesAre();
    DisplayIsStable(results, 0);
  }

  /** The probes, one after the other. */
  method RunGate<W>(checks: seq<Check<W>>, opts: Options, w: W) returns (tasks: seq<Task>, up: bool, after: W)
    ensures (after, up) == GatePhase(checks, |checks|, opts, w)
    ensures |tasks| == |checks|
    ensures forall i :: 0 <= i < |checks| ==>
            tasks[i] == if IsGate(checks[i]) then Done(Alone(checks, i, opts, w)) else Start
  {
    tasks, up, after := [], false, w;
    for i := 0 to |checks|
      invariant (after, up) == GatePhase(checks, i, opts, w)
      invariant |tasks| == i
      invariant forall j :: 0 <= j < i ==>
                tasks[j] == if IsGate(checks[j]) then Done(Alone(checks, j, opts, w)) else Start
    {
      if IsGate(checks[i]) {
        var r, v := RunOne(checks[i], up, opts, after);
        tasks := tasks + [Done(r)];
        up, after := r.status.Ok?, v;
      } else {
        tasks := tasks + [Start];
      }
    }
  }

  /** The goroutines, interleaved step by step as the scheduler pleases. */
  method RunAll<W(!new), V(!new)>(checks: seq<Check<W>>, started: seq<Task>, up: bool, opts: Options, w: W,
      ghost view: (nat, W) -> V, ghost scope: W -> bool, ghost expected: seq<Result>)
    returns (results: seq<Result>)
    requires Independent(checks, view, scope, up, opts) && |started| == |checks| == |expected|
    requires AllOnTrack(checks, view, scope, up, opts, started, w, expected)
    ensures results == expected
  {
    var tasks, world := started, w;
    var pending := set i | 0 <= i < |tasks| && !tasks[i].Done?;
    while pending != {}
      invariant |tasks| == |checks|
      invariant pending == set i | 0 <= i < |tasks| && !tasks[i].Done?
      invariant AllOnTrack(checks, view, scope, up, opts, tasks, world, expected)
      decreases Total(tasks)
    {
      var i: nat :| i in pending;
      tasks, world := Advance(checks, i, up, opts, tasks, world, view, scope, expected);
      pending := set k | 0 <= k < |tasks| && !tasks[k].Done?;
    }
    AllDone(tasks, pending);
    results := Results(tasks);
  }

  /** The scheduler lets goroutine `i` take a step. */
  method Advance<W(!new), V(!new)>(checks: seq<Check<W>>, i: nat, up: bool, opts: Options, tasks: seq<Task>, w: W,
      ghost view: (nat, W) -> V, ghost scope: W -> bool, ghost expected: seq<Result>)
    returns (later: seq<Task>, after: W)
    requires Independent(checks, view, scope, up, opts) && |tasks| == |checks| == |expected| && i < |checks| &&
             !tasks[i].Done?
    requires AllOnTrack(checks, view, scope, up, opts, tasks, w, expected)
    ensures |later| == |checks| && AllOnTrack(checks, view, scope, up, opts, later, after, expected)
    ensures Total(later) < Total(tasks)
  {
    AllStayOnTrack(checks, view, scope, i, up, opts, tasks, w, expected);
    var (next, v) := Stepped(checks[i], up, opts, tasks[i], w);
    TotalDrops(tasks, i, next);
    later, after := tasks[i := next], v;
  }

  lemma AllDone(tasks: seq<Task>, pending: set<int>)
    requires pending == {} && pending == set i | 0 <= i < |tasks| && !tasks[i].Done?
    ensures forall i :: 0 <= i < |tasks| ==> tasks[i].Done?
  {
    forall i | 0 <= i < |tasks|
      ensures tasks[i].Done?
    {
      assert i !in pending;
    }
  }

  method Results(tasks: seq<Task>) returns (results: seq<Result>)
    requires forall i :: 0 <= i < |tasks| ==> tasks[i].Done?
    ensures |results| == |tasks| && forall i :: 0 <= i < |tasks| ==> results[i] == tasks[i].r
  {
    results := [];
    for i := 0 to |tasks|
      invariant |results| == i && forall j :: 0 <= j < i ==> results[j] == tasks[j].r
    {
      results := results + [tasks[i].r];
    }
  }

  /** Run: whatever the interleaving, the results are those of the checks run one after another. */
  method Run<W(!new), V(!new)>(checks: seq<Check<W>>, opts: Options, w: W, ghost view: (nat, W) -> V,
      ghost scope: W -> bool)
      returns (results: seq<Result>)
    requires var (probed, up) := GatePhase(checks, |checks|, opts, w);
             scope(probed) && Independent(checks, view, scope, up, opts)
    ensures results == Displayed(AllAlone(checks, opts, w))
    ensures results == Displayed(Sequential(checks, opts, w))
  {
    ghost var expected := AllAlone(checks, opts, w);
    var tasks, up, after := RunGate(checks, opts, w);
    forall i | 0 <= i < |checks|
      ensures OnTrack(checks, view, scope, i, up, opts, tasks[i], after, expected[i])
    {
      if !IsGate(checks[i]) {
        assert scope(after) && view(i, after) == view(i, after) &&
               Finished(checks[i], up, opts, Start, after).0 == expected[i];
      }
    }
    SequentialIsAlone(checks, view, scope, opts, w);
    results := RunAll(checks, tasks, up, opts, after, view, scope, expected);
    results := Sort(results, ByRank(BY_GROUP));
  }

  // ----- which runs that covers -----

  /** A run in which no repair is called for is covered, whatever the checks read and repair. */
  lemma NoRepairIsIndependent<W(!new)>(checks: seq<Check<W>>, probed: W, up: bool, opts: Options)
    requires forall j :: 0 <= j < |checks| && !IsGate(checks[j]) ==> !Repairs(checks[j], up, opts, probed)
    ensures Independent(checks, (i, w) => w, w => w == probed, up, opts)
  {
  }

  /** So is every run without the fix option. */
  lemma NoFixIsIndependent<W(!new)>(checks: seq<Check<W>>, up: bool, opts: Options)
    requires !opts.fix
    ensures Independent(checks, (i, w) => w, w => true, up, opts)
  {
  }

  function InstallsTool(): Check<bool> {
    Check("tools", "Tools", "tools", false, false,
      (up, installed) => Returned(if installed then Status.Ok else Fail, "", "", true, false),
      Some((up, installed) => Repaired(true, None)))
  }

  function UsesTool(): Check<bool> {
    Check("releases", "Stack", "releases", false, false,
      (up, installed) => Returned(if installed then Status.Ok else Fail, "", "", false, false),
      None)
  }

  /**
    Where a repair that runs changes what another check reads, its result depends on the
    schedule: after the tool is installed it is good, before that it fails.
  */
  lemma ScheduleMatters<V(!new)>(offline: bool, view: (nat, bool) -> V, scope: bool -> bool)
    requires scope(false)
    ensures var checks, opts := [InstallsTool(), UsesTool()], Options(offline, true);
            Alone(checks, 1, opts, false).status == Fail &&
            |Sequential(checks, opts, false)| == 2 && Sequential(checks, opts, false)[1].status == Status.Ok &&
            GatePhase(checks, 2, opts, false) == (false, false) && !Independent(checks, view, scope, false, opts)
  {
    var checks, opts := [InstallsTool(), UsesTool()], Options(offline, true);
    assert GatePhase(checks, 1, opts, false) == (false, false);
    assert GatePhase(checks, 2, opts, false) == (false, false);
    var probes := AllAlone(checks, opts, false);
    assert Repairs(checks[0], false, opts, false);
    FixedIff(checks[0], false, opts, false);
    assert Finished(checks[0], false, opts, Start, false).1;
    assert InTurn(checks, probes, false, 1, opts, false).1;
    var used := Finished(checks[1], false, opts, Start, true).0;
    assert used.status == Status.Ok;
    if Independent(checks, view, scope, false, opts) {
      SequentialIsAlone(checks, view, scope, opts, false);
    }
  }
}
