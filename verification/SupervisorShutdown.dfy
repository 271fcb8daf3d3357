/** Shutdown: from the SIGTERM branch on, what is left to do is a number that every reap lowers by
    one, and the table is empty exactly when it is zero. */
module SupervisorShutdown {
  import opened Tain
  import opened Supervisor
  import opened SupervisorTable
  import opened SupervisorHistory
  import opened SupervisorRuns

  /** Reaps still needed: a process in "start" has a "reset" before it. */
  function Weight(s: Sub): nat {
    if s.pid == 0 then 0 else if s.isReset then 1 else 2
  }

  function EntryWeight(sv: Svdef): nat {
    Weight(sv.main) + Weight(sv.log)
  }

  function TotalWeight(svs: seq<Svdef>): nat {
    if svs == [] then 0 else TotalWeight(svs[..|svs| - 1]) + EntryWeight(svs[|svs| - 1])
  }

  function Reaps(trace: seq<Act>): nat {
    if trace == [] then 0 else
      Reaps(trace[..|trace| - 1]) + (if trace[|trace| - 1].Reap? then 1 else 0)
  }

  predicate IsStart(a: Act) {
    a.Launch? && a.goal.Start?
  }

  function Starts(trace: seq<Act>): nat {
    if trace == [] then 0 else
      Starts(trace[..|trace| - 1]) + (if IsStart(trace[|trace| - 1]) then 1 else 0)
  }

  lemma CountsAppend(trace: seq<Act>, a: Act)
    ensures Reaps(trace + [a]) == Reaps(trace) + (if a.Reap? then 1 else 0)
    ensures Starts(trace + [a]) == Starts(trace) + (if IsStart(a) then 1 else 0)
  {
    assert (trace + [a])[..|trace|] == trace;
  }

  /** The same reaps and starts so far. */
  predicate SameCounts(w: World, w': World) {
    Reaps(w'.trace) == Reaps(w.trace) && Starts(w'.trace) == Starts(w.trace)
  }

  lemma {:induction false} WeightUpdate(svs: seq<Svdef>, i: nat, sv: Svdef)
    requires i < |svs|
    ensures TotalWeight(svs[i := sv]) == TotalWeight(svs) - EntryWeight(svs[i]) + EntryWeight(sv)
  {
    hide EntryWeight;
    var last := |svs| - 1;
    if i == last {
      assert svs[i := sv][..last] == svs[..last];
    } else {
      assert svs[i := sv][..last] == svs[..last][i := sv];
      WeightUpdate(svs[..last], i, sv);
    }
  }

  lemma WeightDrop(svs: seq<Svdef>, i: nat)
    requires i < |svs|
    ensures var last := |svs| - 1;
            TotalWeight(svs[i := svs[last]][..last]) == TotalWeight(svs) - EntryWeight(svs[i])
  {
    hide EntryWeight;
    var last := |svs| - 1;
    WeightUpdate(svs, i, svs[last]);
    assert svs[i := svs[last]][last] == svs[last];
  }

  // ---- one service ----

  /** Deactivating: nothing is to be brought up again. */
  predicate Ending(sv: Svdef) {
    sv.cull && sv.main.wantDown && (sv.hasLog ==> sv.log.wantDown)
  }

  lemma ResetWeight(sv: Svdef, which: Which, w: World)
    requires !Refuses(sv, which)
    ensures var r := Run(sv, which, Reset, w);
            r.1.forkFailures == w.forkFailures ==> Weight(r.0.Get(which)) == 1 && SameCounts(w, r.1)
  {
    hide NextOk, Later, Starts, Reaps;
    if Forks(w) {
      var sub, answer := sv.Get(which), NextAnswer(w);
      CountsAppend(w.trace, Launch(sv.id, which, Reset, answer.pid, answer.now, Later(answer.now, sub.whenOk)));
    }
  }

  lemma HushWeight(sv: Svdef, which: Which, w: World)
    ensures var r := Hush(sv, which, w); EntryWeight(r.0) == EntryWeight(sv) && SameCounts(w, r.1)
    ensures Ending(sv) ==> Ending(Hush(sv, which, w).0)
  {
    hide Starts, Reaps;
    var sub := sv.Get(which);
    var w1 := if sub.isReset then w else w.Did(Signal(sv.id, which, TERM, false));
    CountsAppend(w.trace, Signal(sv.id, which, TERM, false));
    CountsAppend(w1.trace, Signal(sv.id, which, CONT, false));
    match which
    case Main =>
    case Log =>
  }

  lemma WantcullWeight(sv: Svdef, w: World)
    ensures var r := Wantcull(sv, w);
            EntryWeight(r.0) == EntryWeight(sv) && SameCounts(w, r.1) && Ending(r.0)
  {
    hide Starts, Reaps, Hush;
    CountsAppend(w.trace, Deactivate(sv.id));
    var sv1 := sv.(cull := true, main := sv.main.(wantDown := true),
                   log := if sv.hasLog then sv.log.(wantDown := true) else sv.log);
    var w1 := w.Did(Deactivate(sv.id));
    HushWeight(sv1, Main, w1);
    HushWeight(sv1, Log, w1);
  }

  /** A reap of a deactivating service: start becomes reset, reset becomes nothing. */
  lemma ReapedWeight(sv: Svdef, which: Which, w: World)
    requires Logless(sv) && Ending(sv) && sv.Get(which).pid > 0
    ensures var r := Reaped(sv, which, w);
            r.1.forkFailures == w.forkFailures ==>
              EntryWeight(r.0) + 1 == EntryWeight(sv) && SameCounts(w, r.1) && Ending(r.0)
  {
    hide Starts, Reaps, Hush, Run;
    var sub := sv.Get(which);
    var sv1 := sv.Set(which, sub.(pid := 0, wantDown := sub.wantDown || sub.isOnce));
    ResetWeight(sv1, which, w);
    RunWishes(sv1, which, Reset, w);
    HushWeight(sv1, Log, w);
  }

  // ---- the table ----

  ghost predicate AllEnding(svs: seq<Svdef>) {
    forall k :: 0 <= k < |svs| ==> Ending(svs[k])
  }

  lemma WaitOneWeight(g: Reaping, pid: nat)
    requires TableInv(g.st) && AllEnding(g.st.svs)
    ensures var r := WaitOne(g, pid);
            r.st.w.forkFailures == g.st.w.forkFailures ==>
              && AllEnding(r.st.svs)
              && TotalWeight(r.st.svs) + Alive(g.st.w, pid) == TotalWeight(g.st.svs)
              && Reaps(r.st.w.trace) == Reaps(g.st.w.trace) + Alive(g.st.w, pid)
              && Starts(r.st.w.trace) == Starts(g.st.w.trace)
  {
    hide TableInv, Reaped, FindPid, TotalWeight, Starts, Reaps, Ending, EntryWeight;
    var w := g.st.w;
    if pid in w.children {
      ChildFound(g.st, pid);
      var (i, which) := FindPid(g.st.svs, pid);
      var w1 := w.(children := w.children - {pid}).Did(Reap(pid));
      CountsAppend(w.trace, Reap(pid));
      LoglessAt(g.st, i);
      ReapedWeight(g.st.svs[i], which, w1);
      WeightUpdate(g.st.svs, i, Reaped(g.st.svs[i], which, w1).0);
    }
  }

  lemma {:induction false} WaitAllWeight(g: Reaping, dead: seq<nat>)
    requires TableInv(g.st) && AllEnding(g.st.svs) && Flagged(g)
    ensures var r := WaitAll(g, dead);
            && g.st.w.forkFailures <= r.st.w.forkFailures && r.st.w.terminating == g.st.w.terminating
            && (r.st.w.forkFailures == g.st.w.forkFailures ==>
                  && AllEnding(r.st.svs) && Flagged(r)
                  && TotalWeight(r.st.svs) + Reaps(r.st.w.trace) == TotalWeight(g.st.svs) + Reaps(g.st.w.trace)
                  && Starts(r.st.w.trace) == Starts(g.st.w.trace))
  {
    hide TableInv, AllEnding, Flagged, WaitOne, TotalWeight, Starts, Reaps;
    if dead != [] {
      var front, pid := dead[..|dead| - 1], dead[|dead| - 1];
      var r := WaitAll(g, front);
      WaitAllWeight(g, front);
      WaitAllInv(g, front);
      WaitOneMono(r, pid);
      if WaitOne(r, pid).st.w.forkFailures == g.st.w.forkFailures {
        WaitOneWeight(r, pid);
        WaitOneFlagged(r, pid);
      }
    }
  }

  lemma {:induction false} CullWeight(svs: seq<Svdef>, i: nat, w: World)
    requires i <= |svs| && Loggers(svs)
    ensures var r := CullFrom(svs, i, w);
            && TotalWeight(r.svs) == TotalWeight(svs) && SameCounts(w, r.w)
            && (AllEnding(svs) ==> AllEnding(r.svs))
    decreases |svs| - i
  {
    hide TotalWeight, Starts, Reaps, Ending;
    if i < |svs| {
      if Cullok(svs[i]) {
        var last := |svs| - 1;
        WeightDrop(svs, i);
        CountsAppend(w.trace, Remove(svs[i].id, svs[i].cycle));
        CullWeight(svs[i := svs[last]][..last], i, w.Did(Remove(svs[i].id, svs[i].cycle)));
      } else {
        CullWeight(svs, i + 1, w);
      }
    }
  }

  lemma {:induction false} CullSettles(svs: seq<Svdef>, i: nat, w: World)
    requires i <= |svs| && forall k :: 0 <= k < i ==> !Cullok(svs[k])
    ensures Settled(CullFrom(svs, i, w).svs)
    decreases |svs| - i
  {
    hide Cullok;
    if i < |svs| {
      if Cullok(svs[i]) {
        var last := |svs| - 1;
        CullSettles(svs[i := svs[last]][..last], i, w.Did(Remove(svs[i].id, svs[i].cycle)));
      } else {
        CullSettles(svs, i + 1, w);
      }
    }
  }

  // ---- the shutdown phase ----

  ghost predicate Shutting(st: State) {
    TableInv(st) && st.w.terminating && AllEnding(st.svs) && Settled(st.svs)
  }

  lemma {:induction false} WeightPositive(svs: seq<Svdef>, i: nat)
    requires i < |svs|
    ensures EntryWeight(svs[i]) <= TotalWeight(svs)
  {
    hide EntryWeight;
    if i < |svs| - 1 {
      WeightPositive(svs[..|svs| - 1], i);
    }
  }

  /** Nothing left to do, no entry and no child are the same thing. */
  lemma ShutDone(st: State)
    requires Shutting(st)
    ensures st.svs == [] <==> TotalWeight(st.svs) == 0
    ensures st.svs == [] <==> st.w.children == {}
  {
    hide TableInv, TotalWeight;
    if st.svs == [] {
      assert TotalWeight(st.svs) == 0 by { NothingWeighs(); }
      forall pid | pid in st.w.children
        ensures false
      {
        ChildFound(st, pid);
      }
    } else {
      assert !Cullok(st.svs[0]) && Ending(st.svs[0]);
      WeightPositive(st.svs, 0);
      var which := if st.svs[0].main.pid > 0 then Main else Log;
      assert st.svs[0].Get(which).pid > 0;
      ChildrenRecorded(st, st.svs[0].Get(which).pid);
    }
  }

  lemma NothingWeighs()
    ensures TotalWeight([]) == 0
  {
  }

  lemma WaitupShut(st: State, dead: seq<nat>)
    requires Shutting(st)
    ensures var r := Waitup(st, dead);
            && st.w.forkFailures <= r.w.forkFailures
            && (r.w.forkFailures == st.w.forkFailures ==>
                  && Shutting(r) && Starts(r.w.trace) == Starts(st.w.trace)
                  && TotalWeight(r.svs) + Reaps(r.w.trace) == TotalWeight(st.svs) + Reaps(st.w.trace))
  {
    hide TableInv, AllEnding, WaitAll, CullFrom, TotalWeight, Starts, Reaps, Cullok, Loggers;
    var g0 := Reaping(st, false, false);
    var g := WaitAll(g0, dead);
    WaitupInv(st, dead);
    WaitAllWeight(g0, dead);
    WaitAllInv(g0, dead);
    TableLoggers(g.st);
    CullWeight(g.st.svs, 0, g.st.w);
    CullSettles(g.st.svs, 0, g.st.w);
    CullFlags(g.st.svs, 0, g.st.w);
  }

  lemma TableLoggers(st: State)
    requires TableInv(st)
    ensures Loggers(st.svs)
  {
  }

  /** While terminating only reaping does anything. */
  lemma OnlyReaping(st: State, e: Event)
    requires st.w.terminating
    ensures Step(st, e) == if e.Chld? then Waitup(st, e.dead) else st
  {
    hide Waitup;
  }

  lemma {:induction false} WantcullAllWeight(svs: seq<Svdef>, w: World)
    ensures var r := WantcullAll(svs, w);
            && TotalWeight(r.svs) == TotalWeight(svs) && SameCounts(w, r.w) && AllEnding(r.svs)
            && r.w.terminating == w.terminating
            && (forall k :: 0 <= k < |svs| && Cullok(r.svs[k]) ==> r.ready)
  {
    hide Wantcull, Starts, Reaps, Ending, Cullok, EntryWeight;
    if svs != [] {
      var last := |svs| - 1;
      var g := WantcullAll(svs[..last], w);
      WantcullAllWeight(svs[..last], w);
      var r := Wantcull(svs[last], g.w);
      WantcullWeight(svs[last], g.w);
      WantcullFlags(svs[last], g.w);
      assert (g.svs + [r.0])[..last] == g.svs;
    }
  }

  lemma WantcullFlags(sv: Svdef, w: World)
    ensures var r := Wantcull(sv, w); r.1.terminating == w.terminating && r.2 == Cullok(r.0)
  {
    hide Calm;
    WantcullCalm(sv, w);
    CalmFailures(w, Wantcull(sv, w).1);
  }

  /** The SIGTERM branch, from any state of any run. */
  lemma TerminateShut(st: State)
    requires TableInv(st)
    ensures Shutting(Terminate(st))
    ensures TotalWeight(Terminate(st).svs) == TotalWeight(st.svs) && SameCounts(st.w, Terminate(st).w)
    ensures Terminate(st).w.forkFailures == st.w.forkFailures
  {
    hide TableInv, AllEnding, WantcullAll, CullFrom, TotalWeight, Starts, Reaps, Cullok, Loggers;
    var w := st.w.(terminating := true, flagHup := false);
    var s := WantcullAll(st.svs, w);
    WantcullAllWeight(st.svs, w);
    WantcullAllFailures(st.svs, w);
    WorldStep(st, w);
    assert st.svs + [] == st.svs && s.svs + [] == s.svs;
    WantcullAllInv(st.svs, [], w);
    TableLoggers(State(s.svs, s.w));
    CullWeight(s.svs, 0, s.w);
    CullSettles(s.svs, 0, s.w);
    CullFlags(s.svs, 0, s.w);
    CullInv(s.svs, 0, s.w);
  }

  /** Whatever happens after the SIGTERM branch, as long as no fork fails: every reap lowers the
      weight by one, nothing is started, and the loop may end exactly when the weight is used up. */
  lemma {:induction false} ShutdownRuns(st: State, es: seq<Event>)
    requires TableInv(st)
    ensures var s := Steps(Terminate(st), es);
            && TableInv(s) && st.w.forkFailures <= s.w.forkFailures
            && (s.w.forkFailures == st.w.forkFailures ==>
                  && Shutting(s)
                  && TotalWeight(s.svs) + Reaps(s.w.trace) == TotalWeight(st.svs) + Reaps(st.w.trace)
                  && Starts(s.w.trace) == Starts(st.w.trace)
                  && (s.svs == [] <==> TotalWeight(s.svs) == 0) && (s.svs == [] <==> s.w.children == {}))
  {
    hide Shutting, Terminate, Step, Waitup, TotalWeight, Starts, Reaps, TableInv;
    if es == [] {
      TerminateShut(st);
      ShutTerminating(Terminate(st));
      ShutDone(Terminate(st));
    } else {
      var es', e := es[..|es| - 1], es[|es| - 1];
      ShutdownRuns(st, es');
      var s := Steps(Terminate(st), es');
      StepInv(s, e);
      StepMono(s, e);
      if s.w.forkFailures == st.w.forkFailures {
        assert s.w.terminating by { ShutTerminating(s); }
        OnlyReaping(s, e);
        if e.Chld? {
          WaitupShut(s, e.dead);
          if Waitup(s, e.dead).w.forkFailures == st.w.forkFailures {
            ShutDone(Waitup(s, e.dead));
          }
        }
      }
    }
  }

  lemma ShutTerminating(st: State)
    requires Shutting(st)
    ensures st.w.terminating && TableInv(st)
  {
  }

  /** As long as an entry is left there is a child, and reaping it lowers the weight. */
  lemma ShutdownProgress(st: State) returns (pid: nat)
    requires Shutting(st) && st.svs != []
    ensures pid in st.w.children
    ensures var r := Step(st, Chld([pid]));
            r.w.forkFailures == st.w.forkFailures ==> TotalWeight(r.svs) + 1 == TotalWeight(st.svs)
  {
    hide TableInv, Waitup, TotalWeight, AllEnding, WaitOne;
    ShutDone(st);
    pid :| pid in st.w.children;
    OnlyReaping(st, Chld([pid]));
    var g0 := Reaping(st, false, false);
    var g := WaitOne(g0, pid);
    WaitOneWeight(g0, pid);
    WaitOneInv(g0, pid);
    TableLoggers(g.st);
    CullWeight(g.st.svs, 0, g.st.w);
    CullFlags(g.st.svs, 0, g.st.w);
    WaitupOne(st, pid);
  }

  lemma WaitupOne(st: State, pid: nat)
    ensures var g := WaitOne(Reaping(st, false, false), pid);
            var r := Waitup(st, [pid]);
            && r.svs == (if g.cull then Cull(g.st).svs else g.st.svs)
            && r.w.forkFailures == (if g.cull then Cull(g.st).w.forkFailures else g.st.w.forkFailures)
            && r.w.children == (if g.cull then Cull(g.st).w.children else g.st.w.children)
            && r.w.terminating == (if g.cull then Cull(g.st).w.terminating else g.st.w.terminating)
  {
    hide WaitOne, CullFrom;
    var g0 := Reaping(st, false, false);
    assert [pid][..0] == [];
    assert WaitAll(g0, []) == g0;
  }

  // ---- when forks fail ----

  /** The phase after the SIGTERM branch, whatever forks fail. */
  ghost predicate Closing(st: State) {
    TableInv(st) && st.w.terminating && AllEnding(st.svs)
  }

  lemma ReapedEnding(sv: Svdef, which: Which, w: World)
    requires Ending(sv)
    ensures Ending(Reaped(sv, which, w).0)
  {
    hide Run, Hush;
    var sub := sv.Get(which);
    var sv1 := sv.Set(which, sub.(pid := 0, wantDown := sub.wantDown || sub.isOnce));
    RunWishes(sv1, which, Reset, w);
    RunWishes(sv1, which, Start, w);
    HushWeight(sv1, Log, w);
  }

  lemma WaitOneClosing(g: Reaping, pid: nat)
    requires Closing(g.st)
    ensures var r := WaitOne(g, pid).st; Closing(r) && |r.svs| == |g.st.svs|
  {
    hide TableInv, Reaped, FindPid, Ending;
    WaitOneInv(g, pid);
    WaitOneMono(g, pid);
    var w := g.st.w;
    if pid in w.children {
      ChildFound(g.st, pid);
      var (i, which) := FindPid(g.st.svs, pid);
      ReapedEnding(g.st.svs[i], which, w.(children := w.children - {pid}).Did(Reap(pid)));
    }
  }

  lemma {:induction false} WaitAllClosing(g: Reaping, dead: seq<nat>)
    requires Closing(g.st)
    ensures var r := WaitAll(g, dead).st; Closing(r) && |r.svs| == |g.st.svs|
  {
    hide Closing, WaitOne;
    if dead != [] {
      WaitAllClosing(g, dead[..|dead| - 1]);
      WaitOneClosing(WaitAll(g, dead[..|dead| - 1]), dead[|dead| - 1]);
    }
  }

  lemma WaitupClosing(st: State, dead: seq<nat>)
    requires Closing(st)
    ensures Closing(Waitup(st, dead))
  {
    hide TableInv, AllEnding, WaitAll, CullFrom, Loggers;
    var g := WaitAll(Reaping(st, false, false), dead);
    WaitupInv(st, dead);
    WaitAllClosing(Reaping(st, false, false), dead);
    TableLoggers(g.st);
    CullWeight(g.st.svs, 0, g.st.w);
    CullFlags(g.st.svs, 0, g.st.w);
  }

  /** In every run after the SIGTERM branch every entry keeps ending. */
  lemma {:induction false} RunsClosing(st: State, es: seq<Event>)
    requires TableInv(st)
    ensures Closing(Steps(Terminate(st), es))
  {
    hide Closing, Terminate, Step, Waitup, TableInv, Settled;
    if es == [] {
      TerminateShut(st);
      ShutCloses(Terminate(st));
    } else {
      var es', e := es[..|es| - 1], es[|es| - 1];
      RunsClosing(st, es');
      var s := Steps(Terminate(st), es');
      assert s.w.terminating by { ClosingTerminates(s); }
      OnlyReaping(s, e);
      if e.Chld? {
        WaitupClosing(s, e.dead);
      }
    }
  }

  lemma ShutCloses(st: State)
    requires Shutting(st)
    ensures Closing(st)
  {
  }

  lemma ClosingTerminates(st: State)
    requires Closing(st)
    ensures st.w.terminating && TableInv(st)
  {
  }

  /** The reap of this child finishes its entry: it runs reset, and the entry has no other process. */
  predicate Finishes(st: State, pid: nat) {
    && pid in st.w.children
    && var (i, which) := FindPid(st.svs, pid);
       i < |st.svs| && st.svs[i].Get(which).isReset && st.svs[i].Get(Other(which)).pid == 0
  }

  lemma ReapedFinishes(sv: Svdef, which: Which, w: World)
    requires Logless(sv) && Ending(sv) && sv.Get(which).pid > 0
    ensures Reaped(sv, which, w).2 <==> sv.Get(which).isReset && sv.Get(Other(which)).pid == 0
  {
    hide Run, Hush;
  }

  /** The reaping loop asks for culling exactly when a reap finishes an entry. */
  lemma WaitOneFinishes(g: Reaping, pid: nat)
    requires Closing(g.st)
    ensures WaitOne(g, pid).cull <==> g.cull || Finishes(g.st, pid)
  {
    hide TableInv, Reaped, FindPid, Ending;
    var w := g.st.w;
    if pid in w.children {
      ChildFound(g.st, pid);
      var (i, which) := FindPid(g.st.svs, pid);
      LoglessAt(g.st, i);
      ReapedFinishes(g.st.svs[i], which, w.(children := w.children - {pid}).Did(Reap(pid)));
    }
  }

  /** Some reap of this batch finishes an entry. */
  ghost predicate SomeFinishes(st: State, dead: seq<nat>) {
    exists k :: 0 <= k < |dead| && Finishes(WaitAll(Reaping(st, false, false), dead[..k]).st, dead[k])
  }

  lemma {:induction false} WaitAllFinishes(st: State, dead: seq<nat>)
    requires Closing(st)
    ensures WaitAll(Reaping(st, false, false), dead).cull <==> SomeFinishes(st, dead)
  {
    hide Closing, WaitOne, Finishes;
    if dead != [] {
      var g0 := Reaping(st, false, false);
      var last := |dead| - 1;
      var front := dead[..last];
      WaitAllFinishes(st, front);
      WaitAllClosing(g0, front);
      WaitOneFinishes(WaitAll(g0, front), dead[last]);
      forall k | 0 <= k < last
        ensures front[..k] == dead[..k] && front[k] == dead[k]
      {
      }
      if SomeFinishes(st, front) {
        var k :| 0 <= k < last && Finishes(WaitAll(g0, front[..k]).st, front[k]);
        assert Finishes(WaitAll(g0, dead[..k]).st, dead[k]);
      }
      if SomeFinishes(st, dead) {
        var k :| 0 <= k < |dead| && Finishes(WaitAll(g0, dead[..k]).st, dead[k]);
        assert k < last ==> Finishes(WaitAll(g0, front[..k]).st, front[k]);
      }
    }
  }

  /** Without a child every ending entry is finished. */
  lemma ChildlessFinished(st: State, i: nat)
    requires Closing(st) && st.w.children == {} && i < |st.svs|
    ensures Cullok(st.svs[i])
  {
    hide TableInv;
    assert Ending(st.svs[i]);
    if st.svs[i].Get(Main).pid > 0 {
      ChildrenRecorded(st, st.svs[i].Get(Main).pid);
    }
    if st.svs[i].Get(Log).pid > 0 {
      ChildrenRecorded(st, st.svs[i].Get(Log).pid);
    }
  }

  /** The batch of reaps that leaves no child leaves no entry exactly when one of its reaps finishes an
      entry: that one triggers the culling of all. */
  lemma LastBatchIff(st: State, dead: seq<nat>)
    requires Closing(st) && st.w.children != {} && Waitup(st, dead).w.children == {}
    ensures Waitup(st, dead).svs == [] <==> SomeFinishes(st, dead)
  {
    hide TableInv, AllEnding, WaitAll, CullFrom, Cullok, SomeFinishes;
    var r := Waitup(st, dead);
    var g := WaitAll(Reaping(st, false, false), dead);
    WaitAllClosing(Reaping(st, false, false), dead);
    WaitAllFinishes(st, dead);
    WaitupClosing(st, dead);
    CullSettles(g.st.svs, 0, g.st.w);
    if g.cull {
      if r.svs != [] {
        ChildlessFinished(r, 0);
      }
    } else {
      var pid :| pid in st.w.children;
      ChildFound(st, pid);
    }
  }

  /** With one child left: shutdown ends with its reap exactly when it runs reset. */
  lemma LastReapIff(st: State, pid: nat)
    requires Closing(st) && st.w.children == {pid} && Step(st, Chld([pid])).w.children == {}
    ensures var (i, which) := FindPid(st.svs, pid);
            i < |st.svs| && (Step(st, Chld([pid])).svs == [] <==> st.svs[i].Get(which).isReset)
  {
    hide TableInv, Waitup, AllEnding, FindPid, Step, WaitAll;
    ChildFound(st, pid);
    var (i, which) := FindPid(st.svs, pid);
    OnlyReaping(st, Chld([pid]));
    LastBatchIff(st, [pid]);
    var other := Other(which);
    if st.svs[i].Get(other).pid > 0 {
      ChildrenRecorded(st, st.svs[i].Get(other).pid);
      RecordedOnce(st, i, which, i, other);
      assert false;
    }
    assert [pid][..0] == [];
    assert WaitAll(Reaping(st, false, false), []) == Reaping(st, false, false) by { WaitNone(st); }
    if SomeFinishes(st, [pid]) {
      var k :| 0 <= k < 1 && Finishes(WaitAll(Reaping(st, false, false), [pid][..k]).st, [pid][k]);
    } else {
      assert !Finishes(WaitAll(Reaping(st, false, false), [pid][..0]).st, [pid][0]);
    }
  }

  lemma WaitNone(st: State)
    ensures WaitAll(Reaping(st, false, false), []) == Reaping(st, false, false)
  {
  }

  /** Without children a terminating daemon is stuck for good. */
  lemma {:induction false} Stranded(st: State, es: seq<Event>)
    requires st.w.terminating && st.w.children == {}
    ensures Steps(st, es) == st
  {
    hide Step, Waitup;
    if es != [] {
      Stranded(st, es[..|es| - 1]);
      var e := es[|es| - 1];
      OnlyReaping(st, e);
      if e.Chld? {
        NoneToReap(st, e.dead);
      }
    }
  }

  lemma {:induction false} NoneReaped(g: Reaping, dead: seq<nat>)
    requires g.st.w.children == {}
    ensures WaitAll(g, dead) == g
  {
    if dead != [] {
      NoneReaped(g, dead[..|dead| - 1]);
    }
  }

  lemma NoneToReap(st: State, dead: seq<nat>)
    requires st.w.children == {}
    ensures Waitup(st, dead) == st
  {
    NoneReaped(Reaping(st, false, false), dead);
  }

  /** Whether shutdown ends, in every run, whatever forks fail: it does at once when nothing runs at the
      SIGTERM branch; otherwise exactly when the reaps that leave no child finish an entry. After that
      nothing changes any more. */
  lemma ShutdownEndsIff(st: State, es: seq<Event>, dead: seq<nat>, later: seq<Event>)
    requires TableInv(st)
    ensures Terminate(st).w.children == {} ==> Terminate(st).svs == []
    ensures var before := Steps(Terminate(st), es);
            var after := Step(before, Chld(dead));
            before.w.children != {} && after.w.children == {} ==>
              (Steps(after, later).svs == [] <==> SomeFinishes(before, dead))
  {
    hide TableInv, Terminate, Step, Waitup, Closing, SomeFinishes, Shutting;
    TerminateShut(st);
    ShutDone(Terminate(st));
    RunsClosing(st, es);
    var before := Steps(Terminate(st), es);
    var after := Step(before, Chld(dead));
    ClosingTerminates(before);
    OnlyReaping(before, Chld(dead));
    if before.w.children != {} && after.w.children == {} {
      LastBatchIff(before, dead);
      WaitupClosing(before, dead);
      ClosingTerminates(after);
      Stranded(after, later);
    }
  }

  /** When the fork for the "reset" of the last process fails during shutdown, its entry stays and no
      later event removes it. */
  lemma ResetForkLost(st: State, pid: nat, es: seq<Event>)
    requires Closing(st) && st.w.children == {pid} && NextAnswer(st.w).pid <= 0
    requires var (i, which) := FindPid(st.svs, pid); i < |st.svs| ==> !st.svs[i].Get(which).isReset
    ensures var r := Steps(Step(st, Chld([pid])), es); r.svs != [] && r.w.children == {}
  {
    hide TableInv, Waitup, WaitOne, CullFrom, Step, AllEnding, FindPid;
    ChildFound(st, pid);
    OnlyReaping(st, Chld([pid]));
    WaitupOne(st, pid);
    LastReapLost(st, pid);
    WaitupClosing(st, [pid]);
    LastReapIff(st, pid);
    Stranded(Waitup(st, [pid]), es);
  }

  lemma LastReapLost(st: State, pid: nat)
    requires Closing(st) && st.w.children == {pid} && NextAnswer(st.w).pid <= 0
    requires var (i, which) := FindPid(st.svs, pid); i < |st.svs| && !st.svs[i].Get(which).isReset
    ensures var g := WaitOne(Reaping(st, false, false), pid); !g.cull && g.st.w.children == {}
  {
    hide TableInv, FindPid, Reaped, AllEnding;
    ChildFound(st, pid);
    var (i, which) := FindPid(st.svs, pid);
    var w1 := st.w.(children := st.w.children - {pid}).Did(Reap(pid));
    LostReap(st.svs[i], which, w1);
    assert w1.children == {};
  }

  lemma LostReap(sv: Svdef, which: Which, w: World)
    requires sv.Get(which).pid > 0 && !sv.Get(which).isReset && NextAnswer(w).pid <= 0
    ensures var r := Reaped(sv, which, w); !r.2 && r.1.children == w.children
  {
    hide NextOk, Later;
  }
}
