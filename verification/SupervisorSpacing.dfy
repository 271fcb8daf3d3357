/** The respawn governor over whole runs: the starts of a process take effect at least one second
    apart, whatever the clock reads and whatever forks fail. */
module SupervisorSpacing {
  import opened Tain
  import opened Supervisor
  import opened SupervisorTable
  import opened SupervisorHistory
  import opened SupervisorRuns

  predicate StartOf(a: Act, id: Id, which: Which) {
    a.Launch? && a.id == id && a.which == which && a.goal.Start?
  }

  function NextEarliest(e: nat, a: Act, id: Id, which: Which): nat {
    if a.Activate? && a.id == id then 0
    else if StartOf(a, id, which) then Nanos(a.effective) + BILLION
    else e
  }

  /** One second after the last start since the service was activated. */
  function Earliest(trace: seq<Act>, id: Id, which: Which): nat {
    if trace == [] then 0 else
      NextEarliest(Earliest(trace[..|trace| - 1], id, which), trace[|trace| - 1], id, which)
  }

  function Max(a: nat, b: nat): nat {
    if a < b then b else a
  }

  /** A start takes effect when the clock says or when its time has come, whichever is later. */
  predicate InTime(trace: seq<Act>, a: Act) {
    a.Launch? && a.goal.Start? ==> Nanos(a.effective) == Max(Nanos(a.now), Earliest(trace, a.id, a.which))
  }

  predicate Spaced(trace: seq<Act>) {
    trace == [] || (Spaced(trace[..|trace| - 1]) && InTime(trace[..|trace| - 1], trace[|trace| - 1]))
  }

  /** The clock stays clear of the end of 64-bit seconds. */
  ghost predicate InRange(trace: seq<Act>) {
    forall k :: 0 <= k < |trace| && trace[k].Launch? ==> trace[k].effective.sec + 1 < U64_LIMIT
  }

  lemma EarliestAppend(trace: seq<Act>, a: Act, id: Id, which: Which)
    ensures Earliest(trace + [a], id, which) == NextEarliest(Earliest(trace, id, which), a, id, which)
    ensures Spaced(trace + [a]) <==> Spaced(trace) && InTime(trace, a)
  {
    assert (trace + [a])[..|trace|] == trace;
  }

  lemma {:induction false} OthersEarliest(t: seq<Act>, t': seq<Act>, id: Id, other: Id, which: Which)
    requires t <= t' && id != other
    requires forall k :: |t| <= k < |t'| ==> About(t'[k], id)
    ensures Earliest(t', other, which) == Earliest(t, other, which)
    decreases |t'|
  {
    hide Spaced;
    if |t| == |t'| {
      assert t == t';
    } else {
      var last := |t'| - 1;
      assert t'[..last] + [t'[last]] == t';
      OthersEarliest(t, t'[..last], id, other, which);
      EarliestAppend(t'[..last], t'[last], other, which);
      assert About(t'[last], id);
    }
  }

  // ---- one service ----

  predicate TimedSub(trace: seq<Act>, id: Id, which: Which, s: Sub) {
    Nanos(s.whenOk) == Earliest(trace, id, which)
  }

  /** The governor's mark of each process is one second after its last start. */
  predicate Timed(trace: seq<Act>, sv: Svdef) {
    TimedSub(trace, sv.id, Main, sv.main) && TimedSub(trace, sv.id, Log, sv.log)
  }

  ghost predicate Timely(sv: Svdef, w: World, sv': Svdef, w': World) {
    && sv'.id == sv.id && w.trace <= w'.trace
    && (InRange(w'.trace) && Spaced(w.trace) && Timed(w.trace, sv) ==> Spaced(w'.trace) && Timed(w'.trace, sv'))
  }

  lemma RangePrefix(t: seq<Act>, t': seq<Act>)
    requires t <= t' && InRange(t')
    ensures InRange(t)
  {
    forall k | 0 <= k < |t| && t[k].Launch?
      ensures t[k].effective.sec + 1 < U64_LIMIT
    {
      assert t'[k] == t[k];
    }
  }

  lemma TimelyTwice(sv: Svdef, w: World, sv1: Svdef, w1: World, sv2: Svdef, w2: World)
    requires Timely(sv, w, sv1, w1) && Timely(sv1, w1, sv2, w2)
    ensures Timely(sv, w, sv2, w2)
  {
    hide Spaced, Timed, InRange;
    if InRange(w2.trace) {
      RangePrefix(w1.trace, w2.trace);
    }
  }

  lemma TimelyFlags(sv: Svdef, w: World, sv': Svdef)
    requires sv'.id == sv.id && sv'.main.whenOk == sv.main.whenOk && sv'.log.whenOk == sv.log.whenOk
    ensures Timely(sv, w, sv', w)
  {
    hide Spaced, InRange, Earliest, Nanos;
  }

  /** An act that is neither an activation nor a start. */
  lemma TimelyDid(sv: Svdef, w: World, a: Act)
    requires !a.Activate? && !(a.Launch? && a.goal.Start?)
    ensures Timely(sv, w, sv, w.Did(a))
  {
    hide Spaced, InRange, Earliest, Nanos;
    EarliestAppend(w.trace, a, sv.id, Main);
    EarliestAppend(w.trace, a, sv.id, Log);
  }

  lemma LaterNanos(a: Tain, b: Tain)
    ensures Nanos(Later(a, b)) == if Nanos(a) < Nanos(b) then Nanos(b) else Nanos(a)
  {
    hide Nanos;
  }

  /** A start sets the mark to one second after the time it takes effect. */
  lemma MarkTimely(sv: Svdef, which: Which, goal: Goal, pid: nat, now: Tain, w: World, sv': Svdef, w': World)
    requires w'.trace == w.trace + [Launch(sv.id, which, goal, pid, now, Later(now, sv.Get(which).whenOk))]
    requires sv'.id == sv.id && sv'.Get(Other(which)) == sv.Get(Other(which))
    requires sv'.Get(which).whenOk == if goal.Start? then NextOk(now, sv.Get(which).whenOk) else sv.Get(which).whenOk
    ensures Timely(sv, w, sv', w')
  {
    hide Spaced, InRange, Earliest, Nanos, NextOk, Later;
    var was := sv.Get(which).whenOk;
    var a := Launch(sv.id, which, goal, pid, now, Later(now, was));
    EarliestAppend(w.trace, a, sv.id, Main);
    EarliestAppend(w.trace, a, sv.id, Log);
    LaterNanos(now, was);
    if InRange(w'.trace) {
      RangeLast(w.trace, a);
      NextOkExact(now, was);
    }
  }

  lemma LaunchedTimely(sv: Svdef, which: Which, goal: Goal, w: World)
    requires Forks(w)
    ensures var r := Launched(sv, which, goal, w); Timely(sv, w, r.0, r.1)
  {
    hide Launched, Timely, NextOk, Later;
    var r := Launched(sv, which, goal, w);
    LaunchParts(sv, which, goal, w);
    MarkTimely(sv, which, goal, NextAnswer(w).pid, NextAnswer(w).now, w, r.0, r.1);
  }

  lemma RangeLast(trace: seq<Act>, a: Act)
    requires InRange(trace + [a]) && a.Launch?
    ensures a.effective.sec + 1 < U64_LIMIT
  {
    assert (trace + [a])[|trace|] == a;
  }

  lemma StuckTimely(sv: Svdef, which: Which, goal: Goal, w: World)
    ensures var r := Stuck(sv, which, goal, w); Timely(sv, w, r.0, r.1)
  {
    var r := Stuck(sv, which, goal, w);
    var a := ForkFailed(sv.id, which, goal);
    assert r.1.trace == w.Did(a).trace && r.0.id == sv.id;
    assert r.0.main.whenOk == sv.main.whenOk && r.0.log.whenOk == sv.log.whenOk;
    hide Spaced, InRange, Timed, Stuck;
    TimelyDid(sv, w, a);
    TimelyFlags(sv, r.1, r.0);
  }

  lemma RunTimely(sv: Svdef, which: Which, goal: Goal, w: World)
    ensures var r := Run(sv, which, goal, w); Timely(sv, w, r.0, r.1)
  {
    hide Timely, Launched, Stuck, Forks, Refuses;
    TimelyFlags(sv, w, sv);
    StuckTimely(sv, which, goal, w);
    if Forks(w) {
      LaunchedTimely(sv, which, goal, w);
    }
  }

  lemma DoKillTimely(sv: Svdef, which: Which, sig: Sig, group: bool, w: World)
    ensures Timely(sv, w, sv, DoKill(sv, which, sig, group, w))
  {
    hide Timely;
    TimelyFlags(sv, w, sv);
    TimelyDid(sv, w, Signal(sv.id, which, sig, group));
  }

  lemma SetTimely(sv: Svdef, which: Which, s: Sub, w: World)
    requires s.whenOk == sv.Get(which).whenOk
    ensures Timely(sv, w, sv.Set(which, s), w)
  {
    hide Timely;
    TimelyFlags(sv, w, sv.Set(which, s));
  }

  lemma ContinueTimely(sv: Svdef, which: Which, group: bool, w: World)
    ensures var r := Continue(sv, which, group, w); Timely(sv, w, r.0, r.1)
  {
    hide Timely, DoKill;
    var s := sv.Get(which).(isPaused := false);
    var sv1 := sv.Set(which, s);
    SetTimely(sv, which, s, w);
    DoKillTimely(sv1, which, CONT, group, w);
    TimelyTwice(sv, w, sv1, w, sv1, DoKill(sv1, which, CONT, group, w));
  }

  lemma DownTimely(sv: Svdef, which: Which, group: bool, w: World)
    ensures var r := Down(sv, which, group, w); Timely(sv, w, r.0, r.1)
  {
    hide Timely, DoKill, Continue;
    var s := sv.Get(which).(wantDown := true);
    var sv1 := sv.Set(which, s);
    SetTimely(sv, which, s, w);
    var w0 := w.Did(WishDown(sv.id, which));
    TimelyDid(sv1, w, WishDown(sv.id, which));
    TimelyTwice(sv, w, sv1, w, sv1, w0);
    var w1 := DoKill(sv1, which, TERM, group, w0);
    DoKillTimely(sv1, which, TERM, group, w0);
    TimelyTwice(sv, w, sv1, w0, sv1, w1);
    var r := Continue(sv1, which, group, w1);
    ContinueTimely(sv1, which, group, w1);
    TimelyTwice(sv, w, sv1, w1, r.0, r.1);
  }

  lemma UpTimely(sv: Svdef, which: Which, once: bool, w: World)
    ensures var r := Up(sv, which, once, w); Timely(sv, w, r.0, r.1)
  {
    hide Timely, Run;
    var s := sv.Get(which).(isOnce := once, wantDown := false);
    var sv1 := sv.Set(which, s);
    SetTimely(sv, which, s, w);
    var w1 := w.Did(WishUp(sv.id, which, once));
    TimelyDid(sv1, w, WishUp(sv.id, which, once));
    TimelyTwice(sv, w, sv1, w, sv1, w1);
    var r := Run(sv1, which, Start, w1);
    RunTimely(sv1, which, Start, w1);
    TimelyTwice(sv, w, sv1, w1, r.0, r.1);
  }

  lemma PauseTimely(sv: Svdef, which: Which, group: bool, w: World)
    ensures var r := Pause(sv, which, group, w); Timely(sv, w, r.0, r.1)
  {
    hide Timely, DoKill;
    TimelyFlags(sv, w, sv);
    var s := sv.Get(which).(isPaused := true);
    var sv1 := sv.Set(which, s);
    SetTimely(sv, which, s, w);
    DoKillTimely(sv1, which, STOP, group, w);
    TimelyTwice(sv, w, sv1, w, sv1, DoKill(sv1, which, STOP, group, w));
  }

  lemma ControlTimely(sv: Svdef, which: Which, cmd: char, group: bool, w: World)
    ensures var r := Control(sv, which, cmd, group, w); Timely(sv, w, r.0, r.1)
  {
    hide Timely, DoKill, Continue, Down, Up, Pause, SignalOf;
    var r := Control(sv, which, cmd, group, w);
    TimelyFlags(sv, w, sv);
    if cmd == 'D' && which.Main? {
      var r1 := Down(sv, Main, group, w);
      DownTimely(sv, Main, group, w);
      DownTimely(r1.0, Log, group, r1.1);
      TimelyTwice(sv, w, r1.0, r1.1, r.0, r.1);
    } else if cmd == 'U' && which.Main? {
      var r1 := Up(sv, Log, false, w);
      UpTimely(sv, Log, false, w);
      UpTimely(r1.0, Main, false, r1.1);
      TimelyTwice(sv, w, r1.0, r1.1, r.0, r.1);
    } else if cmd == 'c' {
      ContinueTimely(sv, which, group, w);
    } else if cmd == 'd' {
      DownTimely(sv, which, group, w);
    } else if cmd == 'o' {
      UpTimely(sv, which, true, w);
    } else if cmd == 'u' {
      UpTimely(sv, which, false, w);
    } else if cmd == 'p' {
      PauseTimely(sv, which, group, w);
    } else if SignalOf(cmd) != [] {
      DoKillTimely(sv, which, SignalOf(cmd)[0], group, w);
    }
  }

  lemma CheckfailTimely(sv: Svdef, w: World)
    ensures var r := Checkfail(sv, w); Timely(sv, w, r.0, r.1)
  {
    hide Timely, Run;
    TimelyFlags(sv, w, sv);
    var goal := if sv.log.isReset then Reset else Start;
    var r1 := if sv.hasLog && sv.log.failing then Run(sv, Log, goal, w) else (sv, w);
    RunTimely(sv, Log, goal, w);
    var goal' := if r1.0.main.isReset then Reset else Start;
    var r2 := Run(r1.0, Main, goal', r1.1);
    RunTimely(r1.0, Main, goal', r1.1);
    TimelyTwice(sv, w, r1.0, r1.1, r2.0, r2.1);
  }

  lemma HushTimely(sv: Svdef, which: Which, w: World)
    ensures var r := Hush(sv, which, w); Timely(sv, w, r.0, r.1)
  {
    var sub := sv.Get(which);
    var w1 := if sub.isReset then w else w.Did(Signal(sv.id, which, TERM, false));
    var w2 := w1.Did(Signal(sv.id, which, CONT, false));
    var sv1 := sv.Set(which, sub.(isPaused := false));
    assert Hush(sv, which, w) == (sv1, w2);
    hide *;
    TimelyFlags(sv, w, sv);
    TimelyDid(sv, w, Signal(sv.id, which, TERM, false));
    TimelyDid(sv, w1, Signal(sv.id, which, CONT, false));
    TimelyTwice(sv, w, sv, w1, sv, w2);
    SetTimely(sv, which, sub.(isPaused := false), w2);
    TimelyTwice(sv, w, sv, w2, sv1, w2);
  }

  lemma WantcullTimely(sv: Svdef, w: World)
    ensures var r := Wantcull(sv, w); Timely(sv, w, r.0, r.1)
  {
    hide Timely, Hush;
    var sv1 := sv.(cull := true, main := sv.main.(wantDown := true),
                   log := if sv.hasLog then sv.log.(wantDown := true) else sv.log);
    var w1 := w.Did(Deactivate(sv.id));
    TimelyDid(sv, w, Deactivate(sv.id));
    TimelyFlags(sv, w1, sv1);
    TimelyTwice(sv, w, sv, w1, sv1, w1);
    var which := if sv1.main.pid > 0 then Main else Log;
    var r := Hush(sv1, which, w1);
    HushTimely(sv1, which, w1);
    TimelyTwice(sv, w, sv1, w1, r.0, r.1);
  }

  lemma DropOneTimely(sv: Svdef, w: World)
    ensures var r := DropOne(sv, w); Timely(sv, w, r.0, r.1)
  {
    hide Timely, Wantcull;
    TimelyFlags(sv, w, sv);
    WantcullTimely(sv, w);
    TimelyFlags(sv, w, sv.(cycle := false));
  }

  lemma ReapedTimely(sv: Svdef, which: Which, w: World)
    ensures var r := Reaped(sv, which, w); Timely(sv, w, r.0, r.1)
  {
    hide Timely, Run, Hush;
    var sub := sv.Get(which);
    var s := sub.(pid := 0, wantDown := sub.wantDown || sub.isOnce);
    var sv1 := sv.Set(which, s);
    SetTimely(sv, which, s, w);
    if !s.isReset {
      var r := Run(sv1, which, Reset, w);
      RunTimely(sv1, which, Reset, w);
      TimelyTwice(sv, w, sv1, w, r.0, r.1);
    } else if !s.wantDown {
      var r := Run(sv1, which, Start, w);
      RunTimely(sv1, which, Start, w);
      TimelyTwice(sv, w, sv1, w, r.0, r.1);
    } else {
      var r := Hush(sv1, Log, w);
      HushTimely(sv1, Log, w);
      TimelyTwice(sv, w, sv1, w, r.0, r.1);
    }
  }

  /** A new entry starts with no mark. */
  lemma ActivateTimed(d: Dir, w: World)
    requires Spaced(w.trace) && InRange(ActivateNew(d, w).1.trace)
    ensures var r := ActivateNew(d, w); Spaced(r.1.trace) && Timed(r.1.trace, r.0)
  {
    var sv := Opening(d);
    var w0 := w.Did(Activate(d.id, d.down, d.once));
    var r1 := Run(sv, Log, Start, w0);
    assert ActivateNew(d, w) == if d.down then r1 else Run(r1.0, Main, Start, r1.1);
    assert Spaced(w0.trace) && Timed(w0.trace, sv) by { ActivateMark(d, w); }
    hide Run, Timely, ActivateNew, InRange, Spaced, Timed;
    RunTimely(sv, Log, Start, w0);
    var r2 := Run(r1.0, Main, Start, r1.1);
    RunTimely(r1.0, Main, Start, r1.1);
    TimelyTwice(sv, w0, r1.0, r1.1, r2.0, r2.1);
    TimelyUse(sv, w0, ActivateNew(d, w).0, ActivateNew(d, w).1);
  }

  lemma ActivateMark(d: Dir, w: World)
    requires Spaced(w.trace)
    ensures var w0 := w.Did(Activate(d.id, d.down, d.once)); Spaced(w0.trace) && Timed(w0.trace, Opening(d))
  {
    hide Earliest, Spaced;
    EarliestAppend(w.trace, Activate(d.id, d.down, d.once), d.id, Main);
    EarliestAppend(w.trace, Activate(d.id, d.down, d.once), d.id, Log);
  }

  lemma TimelyUse(sv: Svdef, w: World, sv': Svdef, w': World)
    requires Timely(sv, w, sv', w') && InRange(w'.trace) && Spaced(w.trace) && Timed(w.trace, sv)
    ensures Spaced(w'.trace) && Timed(w'.trace, sv')
  {
  }

  // ---- the table ----

  ghost predicate AllTimed(st: State) {
    InRange(st.w.trace) ==>
      Spaced(st.w.trace) && forall k :: 0 <= k < |st.svs| ==> Timed(st.w.trace, st.svs[k])
  }

  lemma OthersTimed(w: World, w': World, id: Id, sv: Svdef)
    requires After(w, w', id) && sv.id != id && Timed(w.trace, sv)
    ensures Timed(w'.trace, sv)
  {
    hide Earliest, Nanos, About;
    OthersEarliest(w.trace, w'.trace, id, sv.id, Main);
    OthersEarliest(w.trace, w'.trace, id, sv.id, Log);
  }

  lemma AfterPrefix(w: World, w': World, id: Id)
    requires After(w, w', id)
    ensures w.trace <= w'.trace
  {
  }

  lemma EntryTimed(st: State, i: nat, sv: Svdef, w: World)
    requires AllTimed(st) && DistinctIds(st.svs) && i < |st.svs|
    requires Timely(st.svs[i], st.w, sv, w) && After(st.w, w, sv.id)
    ensures AllTimed(State(st.svs[i := sv], w))
  {
    hide Spaced, Timed, InRange, After;
    if InRange(w.trace) {
      RangePrefix(st.w.trace, w.trace);
      forall k | 0 <= k < |st.svs| && k != i
        ensures Timed(w.trace, st.svs[k])
      {
        OthersTimed(st.w, w, sv.id, st.svs[k]);
      }
    }
  }

  /** Acts of no service. */
  lemma DidTimed(st: State, w: World, a: Act)
    requires AllTimed(st) && !a.Activate? && !a.Launch? && w.trace == st.w.trace + [a]
    ensures AllTimed(State(st.svs, w))
  {
    hide Spaced, Timed, InRange;
    if InRange(w.trace) {
      RangePrefix(st.w.trace, w.trace);
      assert Spaced(w.trace) by { EarliestAppend(st.w.trace, a, Id(0, 0), Main); }
      forall k | 0 <= k < |st.svs|
        ensures Timed(w.trace, st.svs[k])
      {
        TimelyDid(st.svs[k], st.w, a);
        TimelyUse(st.svs[k], st.w, st.svs[k], st.w.Did(a));
      }
    }
  }

  lemma SameTraceTimed(st: State, w: World)
    requires AllTimed(st) && w.trace == st.w.trace
    ensures AllTimed(State(st.svs, w))
  {
  }

  lemma WaitOneTimed(g: Reaping, pid: nat)
    requires TableInv(g.st) && AllTimed(g.st)
    ensures AllTimed(WaitOne(g, pid).st)
  {
    hide Reaped, FindPid, AllTimed, TableInv, Timely, After;
    var w := g.st.w;
    if pid in w.children {
      ChildFound(g.st, pid);
      var (i, which) := FindPid(g.st.svs, pid);
      var w1 := w.(children := w.children - {pid}).Did(Reap(pid));
      DidTimed(g.st, w1, Reap(pid));
      TableDistinct(g.st);
      var r := Reaped(g.st.svs[i], which, w1);
      ReapedTimely(g.st.svs[i], which, w1);
      ReapedAfter(g.st.svs[i], which, w1);
      EntryTimed(State(g.st.svs, w1), i, r.0, r.1);
    }
  }

  lemma {:induction false} WaitAllTimed(g: Reaping, dead: seq<nat>)
    requires TableInv(g.st) && AllTimed(g.st)
    ensures AllTimed(WaitAll(g, dead).st)
  {
    hide WaitOne, TableInv, AllTimed;
    if dead != [] {
      WaitAllTimed(g, dead[..|dead| - 1]);
      WaitAllInv(g, dead[..|dead| - 1]);
      WaitOneTimed(WaitAll(g, dead[..|dead| - 1]), dead[|dead| - 1]);
    }
  }

  lemma {:induction false} CullTimed(svs: seq<Svdef>, i: nat, w: World)
    requires i <= |svs| && AllTimed(State(svs, w))
    ensures AllTimed(CullFrom(svs, i, w))
    decreases |svs| - i
  {
    hide Cullok, Spaced, Timed, InRange;
    if i < |svs| {
      if Cullok(svs[i]) {
        var last := |svs| - 1;
        var a := Remove(svs[i].id, svs[i].cycle);
        DidTimed(State(svs, w), w.Did(a), a);
        CullTimed(svs[i := svs[last]][..last], i, w.Did(a));
      } else {
        CullTimed(svs, i + 1, w);
      }
    }
  }

  lemma MiddleTimed(a: seq<Svdef>, sv: Svdef, rest: seq<Svdef>, w: World, sv': Svdef, w': World)
    requires DistinctIds(a + [sv] + rest) && AllTimed(State(a + [sv] + rest, w))
    requires Timely(sv, w, sv', w') && After(w, w', sv.id)
    ensures AllTimed(State(a + [sv'] + rest, w')) && DistinctIds(a + [sv'] + rest)
  {
    hide After, AllTimed;
    var svs := a + [sv] + rest;
    EntryTimed(State(svs, w), |a|, sv', w');
    assert svs[|a| := sv'] == a + [sv'] + rest;
  }

  lemma {:induction false} DropAllTimed(svs: seq<Svdef>, rest: seq<Svdef>, w: World)
    requires DistinctIds(svs + rest) && AllTimed(State(svs + rest, w))
    ensures var g := DropAll(svs, w); AllTimed(State(g.svs + rest, g.w)) && DistinctIds(g.svs + rest)
  {
    hide AllTimed, DropOne, Lawful, DistinctIds, Timely, After;
    if svs != [] {
      var last := |svs| - 1;
      var g := DropAll(svs[..last], w);
      assert svs + rest == svs[..last] + ([svs[last]] + rest);
      DropAllTimed(svs[..last], [svs[last]] + rest, w);
      assert g.svs + ([svs[last]] + rest) == g.svs + [svs[last]] + rest;
      var r := DropOne(svs[last], g.w);
      DropOneTimely(svs[last], g.w);
      DropOneLawful(svs[last], g.w);
      LawfulAfter(svs[last], g.w, r.0, r.1);
      MiddleTimed(g.svs, svs[last], rest, g.w, r.0, r.1);
    }
  }

  lemma {:induction false} WantcullAllTimed(svs: seq<Svdef>, rest: seq<Svdef>, w: World)
    requires DistinctIds(svs + rest) && AllTimed(State(svs + rest, w))
    ensures var g := WantcullAll(svs, w); AllTimed(State(g.svs + rest, g.w)) && DistinctIds(g.svs + rest)
  {
    hide AllTimed, Wantcull, Lawful, DistinctIds, Timely, After;
    if svs != [] {
      var last := |svs| - 1;
      var g := WantcullAll(svs[..last], w);
      assert svs + rest == svs[..last] + ([svs[last]] + rest);
      WantcullAllTimed(svs[..last], [svs[last]] + rest, w);
      assert g.svs + ([svs[last]] + rest) == g.svs + [svs[last]] + rest;
      var r := Wantcull(svs[last], g.w);
      WantcullTimely(svs[last], g.w);
      WantcullLawful(svs[last], g.w);
      LawfulAfter(svs[last], g.w, r.0, r.1);
      MiddleTimed(g.svs, svs[last], rest, g.w, r.0, r.1);
    }
  }

  lemma {:induction false} CheckfailAllTimed(svs: seq<Svdef>, rest: seq<Svdef>, w: World)
    requires DistinctIds(svs + rest) && AllTimed(State(svs + rest, w))
    ensures var g := CheckfailAll(svs, w); AllTimed(State(g.0 + rest, g.1)) && DistinctIds(g.0 + rest)
  {
    hide AllTimed, Checkfail, Lawful, DistinctIds, Timely, After;
    if svs != [] {
      var last := |svs| - 1;
      var g := CheckfailAll(svs[..last], w);
      assert svs + rest == svs[..last] + ([svs[last]] + rest);
      CheckfailAllTimed(svs[..last], [svs[last]] + rest, w);
      assert g.0 + ([svs[last]] + rest) == g.0 + [svs[last]] + rest;
      var r := Checkfail(svs[last], g.1);
      CheckfailTimely(svs[last], g.1);
      CheckfailLawful(svs[last], g.1);
      LawfulAfter(svs[last], g.1, r.0, r.1);
      MiddleTimed(g.0, svs[last], rest, g.1, r.0, r.1);
    }
  }

  // ---- scans ----

  lemma ActivateTable(st: State, d: Dir)
    requires AllTimed(st) && Absent(st.svs, d.id)
    ensures var r := ActivateNew(d, st.w); AllTimed(State(st.svs + [r.0.(active := true)], r.1))
  {
    hide ActivateNew, Spaced, Timed, InRange, After;
    var r := ActivateNew(d, st.w);
    ActivateAfter(d, st.w);
    AfterPrefix(st.w, r.1, d.id);
    if InRange(r.1.trace) {
      RangePrefix(st.w.trace, r.1.trace);
      ActivateTimed(d, st.w);
      assert Timed(r.1.trace, r.0.(active := true)) by { SameMarks(r.1.trace, r.0); }
      forall k | 0 <= k < |st.svs|
        ensures Timed(r.1.trace, st.svs[k])
      {
        OthersTimed(st.w, r.1, d.id, st.svs[k]);
      }
    }
  }

  lemma SameMarks(trace: seq<Act>, sv: Svdef)
    requires Timed(trace, sv)
    ensures Timed(trace, sv.(active := true))
  {
    hide Earliest, Nanos;
  }

  lemma ScanOneTimed(g: Scanning, d: Dir)
    requires TableInv(g.st) && AllTimed(g.st)
    ensures AllTimed(ScanOne(g, d).st)
  {
    hide ActivateNew, AllTimed, TableInv, Timely, After, DistinctIds;
    var svs, w := g.st.svs, g.st.w;
    var i := Lookup(svs, d.id);
    if i < |svs| {
      var sv := svs[i].(active := true, cycle := svs[i].cycle || svs[i].cull);
      TableDistinct(g.st);
      TimelyFlags(svs[i], w, sv);
      AfterRefl(w, sv.id);
      EntryTimed(g.st, i, sv, w);
    } else if |svs| < PERP_MAX && d.opens {
      LookupNone(svs, d.id);
      ActivateTable(g.st, d);
    }
  }

  lemma {:induction false} ScanDirsTimed(g: Scanning, dirs: seq<Dir>)
    requires TableInv(g.st) && AllTimed(g.st)
    ensures AllTimed(ScanDirs(g, dirs).st)
  {
    hide ScanOne, TableInv, AllTimed;
    if dirs != [] {
      ScanDirsTimed(g, dirs[..|dirs| - 1]);
      ScanDirsInv(g, dirs[..|dirs| - 1]);
      ScanOneTimed(ScanDirs(g, dirs[..|dirs| - 1]), dirs[|dirs| - 1]);
    }
  }

  lemma UnflagTimed(st: State)
    requires AllTimed(st)
    ensures AllTimed(State(Unflag(st.svs), st.w))
  {
    hide Earliest, Nanos, InRange, Spaced;
    if InRange(st.w.trace) {
      forall k | 0 <= k < |st.svs|
        ensures Timed(st.w.trace, Unflag(st.svs)[k])
      {
        assert Timed(st.w.trace, st.svs[k]);
      }
    }
  }

  lemma SweepTimed(st: State)
    requires TableInv(st) && AllTimed(st)
    ensures var s := DropAll(st.svs, st.w);
            AllTimed(if s.ready then Cull(State(s.svs, s.w)) else State(s.svs, s.w))
  {
    hide AllTimed, DropAll, CullFrom, TableInv, DistinctIds;
    var s := DropAll(st.svs, st.w);
    TableDistinct(st);
    assert st.svs + [] == st.svs && s.svs + [] == s.svs;
    DropAllTimed(st.svs, [], st.w);
    CullTimed(s.svs, 0, s.w);
  }

  lemma ScanTimed(st: State, listing: Listing)
    requires TableInv(st) && AllTimed(st)
    ensures AllTimed(Scan(st, listing))
  {
    hide AllTimed, ScanDirs, DropAll, Cull, Unflag, TableInv, TriggerScan;
    if listing.NoDir? {
      DidTimed(st, st.w.Did(ScanLost), ScanLost);
    } else {
      UnflagTimed(st);
      UnflagInv(st);
      var g0 := Scanning(State(Unflag(st.svs), st.w), false);
      var g := ScanDirs(g0, listing.dirs);
      ScanDirsTimed(g0, listing.dirs);
      ScanDirsInv(g0, listing.dirs);
      if !listing.complete {
        var w := g.st.w.Did(ScanCut);
        DidTimed(g.st, w, ScanCut);
        SameTraceTimed(State(g.st.svs, w), TriggerScan(w)) by { TriggerTrace(w); }
      } else {
        SweepTimed(g.st);
        var s := DropAll(g.st.svs, g.st.w);
        var st2 := if s.ready then Cull(State(s.svs, s.w)) else State(s.svs, s.w);
        var w := st2.w.Did(ScanShort);
        DidTimed(st2, w, ScanShort);
        SameTraceTimed(State(st2.svs, w), TriggerScan(w)) by { TriggerTrace(w); }
        DidTimed(st2, st2.w.Did(ScanDone), ScanDone);
      }
    }
  }

  lemma TriggerTrace(w: World)
    ensures TriggerScan(w).trace == w.trace
  {
  }

  // ---- every run ----

  lemma WaitupTimed(st: State, dead: seq<nat>)
    requires TableInv(st) && AllTimed(st)
    ensures AllTimed(Waitup(st, dead))
  {
    hide AllTimed, WaitAll, CullFrom, TriggerScan, TableInv;
    var g := WaitAll(Reaping(st, false, false), dead);
    WaitAllTimed(Reaping(st, false, false), dead);
    CullTimed(g.st.svs, 0, g.st.w);
    var st1 := if g.cull then Cull(g.st) else g.st;
    SameTraceTimed(st1, TriggerScan(st1.w)) by { TriggerTrace(st1.w); }
  }

  lemma TerminateTimed(st: State)
    requires TableInv(st) && AllTimed(st)
    ensures AllTimed(Terminate(st))
  {
    hide AllTimed, WantcullAll, CullFrom, TableInv, DistinctIds;
    var w := st.w.(terminating := true, flagHup := false);
    SameTraceTimed(st, w);
    var s := WantcullAll(st.svs, w);
    TableDistinct(st);
    assert st.svs + [] == st.svs && s.svs + [] == s.svs;
    WantcullAllTimed(st.svs, [], w);
    CullTimed(s.svs, 0, s.w);
  }

  lemma RetryTimed(st: State)
    requires TableInv(st) && AllTimed(st)
    ensures AllTimed(Retry(st))
  {
    hide AllTimed, CheckfailAll, TableInv, DistinctIds;
    var w := st.w.(flagFailing := false).Did(Retried);
    DidTimed(st, w, Retried);
    TableDistinct(st);
    assert st.svs + [] == st.svs && CheckfailAll(st.svs, w).0 + [] == CheckfailAll(st.svs, w).0;
    CheckfailAllTimed(st.svs, [], w);
  }

  lemma ServeTimed(st: State, q: Request)
    requires TableInv(st) && AllTimed(st)
    ensures AllTimed(Serve(st, q).0)
  {
    hide AllTimed, Control, Lookup, TableInv, Lawful, Timely, After, DistinctIds;
    var i := Lookup(st.svs, q.id);
    if i < |st.svs| && !st.svs[i].cull {
      var r := Control(st.svs[i], q.which, q.cmd, q.group, st.w);
      ControlTimely(st.svs[i], q.which, q.cmd, q.group, st.w);
      ControlLawful(st.svs[i], q.which, q.cmd, q.group, st.w);
      LawfulId(st.svs[i], st.w, r.0, r.1);
      LawfulAfter(st.svs[i], st.w, r.0, r.1);
      TableDistinct(st);
      EntryTimed(st, i, r.0, r.1);
    }
  }

  lemma StepTimed(st: State, e: Event)
    requires TableInv(st) && AllTimed(st)
    ensures AllTimed(Step(st, e))
  {
    hide TableInv, AllTimed, Waitup, Scan, Terminate, Retry, Serve, TriggerScan;
    match e
    case SigHup => SameTraceTimed(st, TriggerScan(st.w)) by { TriggerTrace(st.w); }
    case SigTerm => TerminateTimed(st);
    case Chld(dead) => WaitupTimed(st, dead);
    case Rescan(listing) =>
      var w := st.w.(flagHup := false);
      SameTraceTimed(st, w);
      WorldStep(st, w);
      ScanTimed(State(st.svs, w), listing);
    case Failing => RetryTimed(st);
    case Client(q) => ServeTimed(st, q);
  }

  lemma {:induction false} RunsTimed(answers: seq<Answer>, es: seq<Event>)
    ensures AllTimed(Steps(Init(answers), es))
  {
    hide TableInv, AllTimed, Step, Init;
    if es == [] {
      assert AllTimed(Init(answers)) by { InitTimed(answers); }
    } else {
      var es', e := es[..|es| - 1], es[|es| - 1];
      RunsTimed(answers, es');
      RunsAccounted(answers, es');
      StepTimed(Steps(Init(answers), es'), e);
    }
  }

  lemma InitTimed(answers: seq<Answer>)
    ensures AllTimed(Init(answers))
  {
  }

  // ---- seen from outside ----

  /** Starts of the process at positions from i up to j. */
  function StartsIn(trace: seq<Act>, i: nat, j: nat, id: Id, which: Which): nat
    requires i <= j <= |trace|
  {
    if i == j then 0 else
      StartsIn(trace, i, j - 1, id, which) + (if StartOf(trace[j - 1], id, which) then 1 else 0)
  }

  lemma {:induction false} SpacedAt(trace: seq<Act>, m: nat)
    requires m < |trace| && Spaced(trace)
    ensures InTime(trace[..m], trace[m])
    decreases |trace|
  {
    hide InTime;
    if m < |trace| - 1 {
      SpacedAt(trace[..|trace| - 1], m);
      assert trace[..|trace| - 1][..m] == trace[..m];
    }
  }

  lemma {:induction false} EarliestSince(trace: seq<Act>, i: nat, m: nat, id: Id, which: Which)
    requires i < m <= |trace| && StartOf(trace[i], id, which) && Spaced(trace)
    requires forall k :: i < k < m ==> !(trace[k].Activate? && trace[k].id == id)
    ensures Earliest(trace[..m], id, which)
            >= Nanos(trace[i].effective) + BILLION * (1 + StartsIn(trace, i + 1, m, id, which))
  {
    hide Earliest, Spaced, Nanos;
    assert trace[..m] == trace[..m - 1] + [trace[m - 1]];
    EarliestAppend(trace[..m - 1], trace[m - 1], id, which);
    if m > i + 1 {
      EarliestSince(trace, i, m - 1, id, which);
      SpacedAt(trace, m - 1);
    }
  }

  /** In every run, with any clock and any fork failures: between activations of its service, a start
      takes effect at least as many seconds after an earlier start as there are starts from one to
      the other. */
  lemma RunsSpaced(answers: seq<Answer>, es: seq<Event>, i: nat, j: nat, id: Id, which: Which)
    requires i < j < |Steps(Init(answers), es).w.trace|
    requires var t := Steps(Init(answers), es).w.trace;
             && InRange(t) && StartOf(t[i], id, which) && StartOf(t[j], id, which)
             && forall k :: i < k < j ==> !(t[k].Activate? && t[k].id == id)
    ensures var t := Steps(Init(answers), es).w.trace;
            Nanos(t[j].effective)
            >= Nanos(t[i].effective) + BILLION * (1 + StartsIn(t, i + 1, j, id, which))
  {
    hide Steps, Init, Spaced, Earliest, Nanos, InRange, Timed;
    var t := Steps(Init(answers), es).w.trace;
    RunsTimed(answers, es);
    EarliestSince(t, i, j, id, which);
    SpacedAt(t, j);
  }

  lemma {:induction false} EarliestIs(trace: seq<Act>, i: nat, m: nat, id: Id, which: Which)
    requires i < m <= |trace| && StartOf(trace[i], id, which)
    requires forall k :: i < k < m ==> !StartOf(trace[k], id, which) && !(trace[k].Activate? && trace[k].id == id)
    ensures Earliest(trace[..m], id, which) == Nanos(trace[i].effective) + BILLION
  {
    hide Earliest, Spaced, Nanos;
    assert trace[..m] == trace[..m - 1] + [trace[m - 1]];
    EarliestAppend(trace[..m - 1], trace[m - 1], id, which);
    if m > i + 1 {
      EarliestIs(trace, i, m - 1, id, which);
    }
  }

  lemma {:induction false} EarliestNone(trace: seq<Act>, i: nat, m: nat, id: Id, which: Which)
    requires i < m <= |trace| && trace[i].Activate? && trace[i].id == id
    requires forall k :: i < k < m ==> !StartOf(trace[k], id, which)
    ensures Earliest(trace[..m], id, which) == 0
  {
    hide Earliest, Spaced, Nanos;
    assert trace[..m] == trace[..m - 1] + [trace[m - 1]];
    EarliestAppend(trace[..m - 1], trace[m - 1], id, which);
    if m > i + 1 {
      EarliestNone(trace, i, m - 1, id, which);
    }
  }

  /** And no later than that: a start takes effect as the clock says, or exactly one second after the start
      before it; the first after an activation as the clock says. */
  lemma RunsPrompt(answers: seq<Answer>, es: seq<Event>, i: nat, j: nat, id: Id, which: Which)
    requires i < j < |Steps(Init(answers), es).w.trace|
    requires var t := Steps(Init(answers), es).w.trace;
             && InRange(t) && StartOf(t[j], id, which)
             && (StartOf(t[i], id, which) || (t[i].Activate? && t[i].id == id))
             && forall k :: i < k < j ==> !StartOf(t[k], id, which) && !(t[k].Activate? && t[k].id == id)
    ensures var t := Steps(Init(answers), es).w.trace;
            Nanos(t[j].effective)
            == if t[i].Activate? then Nanos(t[j].now) else Max(Nanos(t[j].now), Nanos(t[i].effective) + BILLION)
  {
    hide Steps, Init, Spaced, Earliest, Nanos, InRange, Timed;
    var t := Steps(Init(answers), es).w.trace;
    RunsTimed(answers, es);
    SpacedAt(t, j);
    if t[i].Activate? {
      EarliestNone(t, i, j, id, which);
    } else {
      EarliestIs(t, i, j, id, which);
    }
  }
}
