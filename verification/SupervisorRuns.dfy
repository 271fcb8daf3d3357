/** Whole runs of the supervisor: the rules of every process's life, no forgotten removal, and no
    lost reactivation. */
module SupervisorRuns {
  import opened Tain
  import opened Supervisor
  import opened SupervisorTable
  import opened SupervisorHistory

  ghost predicate Absent(svs: seq<Svdef>, id: Id) {
    forall i :: 0 <= i < |svs| ==> svs[i].id != id
  }

  /** A service without an entry has no process and is not being deactivated. */
  predicate Quiet(trace: seq<Act>, id: Id) {
    && Proc(trace, id, Main) == Idle && Proc(trace, id, Log) == Idle && !Culling(trace, id)
    && !DownWanted(trace, id, Main) && !DownWanted(trace, id, Log)
    && OnceOf(trace, id, Main) == Many && OnceOf(trace, id, Log) == Many
  }

  ghost predicate AllTold(svs: seq<Svdef>, trace: seq<Act>) {
    forall i :: 0 <= i < |svs| ==> Told(trace, svs[i])
  }

  ghost predicate AllQuiet(svs: seq<Svdef>, trace: seq<Act>) {
    forall id :: Absent(svs, id) ==> Quiet(trace, id)
  }

  /** The history obeys the rules and the table agrees with it. */
  ghost predicate Facts(st: State) {
    Good(st.w.trace) && AllTold(st.svs, st.w.trace) && AllQuiet(st.svs, st.w.trace)
  }

  lemma OthersTold(w: World, w': World, id: Id, sv: Svdef)
    requires After(w, w', id) && sv.id != id && Told(w.trace, sv)
    ensures Told(w'.trace, sv)
  {
    hide Proc, Culling, DownWanted, OnceOf, Owed, About;
    OthersSame(w.trace, w'.trace, id, sv.id);
  }

  lemma OthersQuiet(w: World, w': World, id: Id, other: Id)
    requires After(w, w', id) && other != id && Quiet(w.trace, other)
    ensures Quiet(w'.trace, other)
  {
    hide Proc, Culling, DownWanted, OnceOf, Owed, About;
    OthersSame(w.trace, w'.trace, id, other);
  }

  /** The facts with one entry left out of account. */
  ghost predicate FactsBut(st: State, i: nat) {
    && Good(st.w.trace) && AllQuiet(st.svs, st.w.trace)
    && forall k :: 0 <= k < |st.svs| && k != i ==> Told(st.w.trace, st.svs[k])
  }

  lemma EntryFactsBut(st: State, i: nat, sv: Svdef, w: World)
    requires DistinctIds(st.svs) && i < |st.svs| && FactsBut(st, i)
    requires sv.id == st.svs[i].id && After(st.w, w, sv.id) && Good(w.trace) && Told(w.trace, sv)
    ensures Facts(State(st.svs[i := sv], w))
  {
    hide After, Told, Good, Quiet;
    forall k | 0 <= k < |st.svs| && k != i
      ensures Told(w.trace, st.svs[k])
    {
      OthersTold(st.w, w, sv.id, st.svs[k]);
    }
    forall id | Absent(st.svs[i := sv], id)
      ensures Quiet(w.trace, id)
    {
      assert st.svs[i := sv][i].id == sv.id;
      assert Absent(st.svs, id) by {
        forall k | 0 <= k < |st.svs|
          ensures st.svs[k].id != id
        {
          assert st.svs[i := sv][k].id == st.svs[k].id;
        }
      }
      OthersQuiet(st.w, w, sv.id, id);
    }
  }

  lemma EntryFacts(st: State, i: nat, sv: Svdef, w: World)
    requires DistinctIds(st.svs) && i < |st.svs| && Facts(st)
    requires Lawful(st.svs[i], st.w, sv, w) && w.forkFailures == st.w.forkFailures
    ensures Facts(State(st.svs[i := sv], w))
  {
    hide After, Told, Good, AllQuiet;
    EntryFactsBut(st, i, sv, w);
  }

  lemma MiddleFacts(a: seq<Svdef>, sv: Svdef, rest: seq<Svdef>, w: World, sv': Svdef, w': World)
    requires DistinctIds(a + [sv] + rest) && Facts(State(a + [sv] + rest, w))
    requires Lawful(sv, w, sv', w') && w'.forkFailures == w.forkFailures
    ensures Facts(State(a + [sv'] + rest, w')) && DistinctIds(a + [sv'] + rest)
  {
    hide Lawful, Facts;
    var svs := a + [sv] + rest;
    assert sv'.id == sv.id by { LawfulId(sv, w, sv', w'); }
    EntryFacts(State(svs, w), |a|, sv', w');
    assert svs[|a| := sv'] == a + [sv'] + rest;
  }

  lemma LawfulId(sv: Svdef, w: World, sv': Svdef, w': World)
    requires Lawful(sv, w, sv', w')
    ensures sv'.id == sv.id && w.forkFailures <= w'.forkFailures
    ensures w'.flagHup == w.flagHup && w'.terminating == w.terminating && (w.flagFailing ==> w'.flagFailing)
  {
  }

  /** Pending flags and future answers are no part of the history. */
  lemma FlagFacts(st: State, w: World)
    requires Facts(st) && w.trace == st.w.trace
    ensures Facts(State(st.svs, w))
  {
  }

  // ---- reaping ----

  lemma ReapOther(trace: seq<Act>, pid: nat, sv: Svdef)
    requires Told(trace, sv) && sv.main.pid != pid && sv.log.pid != pid
    ensures Told(trace + [Reap(pid)], sv)
  {
    hide Proc, Culling, DownWanted, OnceOf, Good, Owed;
    Appended(trace, Reap(pid), sv.id);
  }

  lemma ReapQuiet(trace: seq<Act>, pid: nat, id: Id)
    requires Quiet(trace, id)
    ensures Quiet(trace + [Reap(pid)], id)
  {
    hide Proc, Culling, DownWanted, OnceOf, Good, Owed;
    Appended(trace, Reap(pid), id);
  }

  lemma ReapFacts(st: State, i: nat, which: Which, w1: World)
    requires TableInv(st) && Facts(st) && i < |st.svs| && st.svs[i].Get(which).pid > 0
    requires w1.trace == st.w.trace + [Reap(st.svs[i].Get(which).pid)]
    ensures FactsBut(State(st.svs, w1), i)
    ensures st.svs[i].Get(Other(which)).pid != st.svs[i].Get(which).pid
    ensures var sub := st.svs[i].Get(which);
            ToldReaped(w1.trace, st.svs[i].Set(which, sub.(pid := 0, wantDown := sub.wantDown || sub.isOnce)), which)
  {
    hide TableInv, Told, ToldReaped, Quiet, Good;
    var pid := st.svs[i].Get(which).pid;
    forall k, x | 0 <= k < |st.svs| && st.svs[k].Get(x).pid == pid
      ensures k == i && x == which
    {
      RecordedOnce(st, i, which, k, x);
    }
    assert st.svs[i].Get(Other(which)).pid != pid;
    ReapTold(st.svs[i], which, st.w, w1);
    forall k | 0 <= k < |st.svs| && k != i
      ensures Told(w1.trace, st.svs[k])
    {
      assert st.svs[k].Get(Main).pid != pid && st.svs[k].Get(Log).pid != pid;
      ReapOther(st.w.trace, pid, st.svs[k]);
    }
    forall id | Absent(st.svs, id)
      ensures Quiet(w1.trace, id)
    {
      ReapQuiet(st.w.trace, pid, id);
    }
  }

  lemma WaitOneFacts(g: Reaping, pid: nat)
    requires TableInv(g.st) && Facts(g.st)
    ensures var r := WaitOne(g, pid);
            && g.st.w.forkFailures <= r.st.w.forkFailures
            && r.st.w.flagHup == g.st.w.flagHup && r.st.w.terminating == g.st.w.terminating
            && (r.st.w.forkFailures == g.st.w.forkFailures ==> Facts(r.st))
  {
    hide TableInv, Facts, FactsBut, FindPid, Reaped, After, Good, Told, ToldReaped;
    var w := g.st.w;
    if pid in w.children {
      ChildFound(g.st, pid);
      var (i, which) := FindPid(g.st.svs, pid);
      var w1 := w.(children := w.children - {pid}).Did(Reap(pid));
      var r := Reaped(g.st.svs[i], which, w1);
      ReapFacts(g.st, i, which, w1);
      ReapedAfter(g.st.svs[i], which, w1);
      AfterFlags(w1, r.1, g.st.svs[i].id);
      if r.1.forkFailures == w.forkFailures {
        FactsButGood(State(g.st.svs, w1), i);
        LoglessAt(g.st, i);
        ReapedTold(g.st.svs[i], which, w1);
        EntryFactsBut(State(g.st.svs, w1), i, r.0, r.1);
      }
    }
  }

  lemma FactsButGood(st: State, i: nat)
    requires FactsBut(st, i)
    ensures Good(st.w.trace)
  {
  }

  lemma LoglessAt(st: State, i: nat)
    requires TableInv(st) && i < |st.svs|
    ensures Logless(st.svs[i]) && DistinctIds(st.svs)
  {
  }

  lemma AfterFlags(w: World, w': World, id: Id)
    requires After(w, w', id)
    ensures w.forkFailures <= w'.forkFailures && w'.flagHup == w.flagHup && w'.terminating == w.terminating
    ensures w.flagFailing ==> w'.flagFailing
  {
  }

  // ---- removal ----

  /** No finished entry is left in the table. */
  ghost predicate Settled(svs: seq<Svdef>) {
    forall k :: 0 <= k < |svs| ==> !Cullok(svs[k])
  }

  /** A finished entry asks for reactivation. */
  ghost predicate CycleDue(svs: seq<Svdef>) {
    exists k :: 0 <= k < |svs| && Cullok(svs[k]) && svs[k].cycle
  }

  lemma RemovedQuiet(trace: seq<Act>, sv: Svdef)
    requires Told(trace, sv) && Cullok(sv) && Logless(sv)
    ensures Quiet(trace + [Remove(sv.id, sv.cycle)], sv.id)
  {
    hide Proc, Culling, DownWanted, OnceOf, Good, Owed;
    Appended(trace, Remove(sv.id, sv.cycle), sv.id);
  }

  lemma RemoveOther(trace: seq<Act>, a: Act, id: Id)
    requires a.Remove? && a.id != id
    ensures Proc(trace + [a], id, Main) == Proc(trace, id, Main) && Proc(trace + [a], id, Log) == Proc(trace, id, Log)
    ensures Culling(trace + [a], id) == Culling(trace, id)
    ensures forall which :: DownWanted(trace + [a], id, which) == DownWanted(trace, id, which)
    ensures forall which :: OnceOf(trace + [a], id, which) == OnceOf(trace, id, which)
    ensures Good(trace + [a]) <==> Good(trace)
    ensures Owed(trace + [a]) == (Owed(trace) || a.cycle)
  {
    hide Proc, Culling, DownWanted, OnceOf, Good, Owed;
    Appended(trace, a, id);
  }

  lemma ToldAfterRemove(trace: seq<Act>, a: Act, sv: Svdef)
    requires a.Remove? && a.id != sv.id && Told(trace, sv)
    ensures Told(trace + [a], sv)
  {
    hide Proc, Culling, DownWanted, OnceOf, Good, Owed;
    RemoveOther(trace, a, sv.id);
  }

  lemma QuietAfterRemove(trace: seq<Act>, a: Act, id: Id)
    requires a.Remove? && Quiet(trace, id)
    ensures Quiet(trace + [a], id)
  {
    hide Proc, Culling, DownWanted, OnceOf, Good, Owed;
    Appended(trace, a, id);
  }

  /** Removing a finished entry, the last one moving into its place. */
  lemma RemoveFacts(svs: seq<Svdef>, i: nat, w: World)
    requires TableInv(State(svs, w)) && Facts(State(svs, w)) && i < |svs| && Cullok(svs[i])
    ensures var last := |svs| - 1;
            var w1 := w.Did(Remove(svs[i].id, svs[i].cycle));
            && Facts(State(svs[i := svs[last]][..last], w1))
            && Owed(w1.trace) == (Owed(w.trace) || svs[i].cycle)
  {
    hide Told, Quiet, Good, Owed, Accounted;
    var last := |svs| - 1;
    var a := Remove(svs[i].id, svs[i].cycle);
    var svs' := svs[i := svs[last]][..last];
    var t, t' := w.trace, w.trace + [a];
    forall k | 0 <= k < |svs'|
      ensures Told(t', svs'[k])
    {
      ToldAfterRemove(t, a, svs'[k]);
    }
    forall id | Absent(svs', id)
      ensures Quiet(t', id)
    {
      if id == svs[i].id {
        RemovedQuiet(t, svs[i]);
      } else {
        AbsentBefore(svs, i, id);
        QuietAfterRemove(t, a, id);
      }
    }
    RemoveGood(t, a);
  }

  lemma RemoveGood(trace: seq<Act>, a: Act)
    requires a.Remove?
    ensures Good(trace + [a]) <==> Good(trace)
    ensures Owed(trace + [a]) == (Owed(trace) || a.cycle)
  {
    Appended(trace, a, a.id);
  }

  lemma AbsentBefore(svs: seq<Svdef>, i: nat, id: Id)
    requires i < |svs| && id != svs[i].id
    requires var last := |svs| - 1; Absent(svs[i := svs[last]][..last], id)
    ensures Absent(svs, id)
  {
    var last := |svs| - 1;
    var svs' := svs[i := svs[last]][..last];
    forall k | 0 <= k < |svs|
      ensures svs[k].id != id
    {
      if k == last && i < last {
        assert svs'[i] == svs[last];
      } else if k != i {
        assert svs'[k] == svs[k];
      }
    }
  }

  /** perpd_cull removes every finished entry and owes a rescan only for those that ask for one. */
  lemma {:induction false} CullFacts(svs: seq<Svdef>, i: nat, w: World)
    requires i <= |svs| && TableInv(State(svs, w)) && Facts(State(svs, w))
    requires forall k :: 0 <= k < i ==> !Cullok(svs[k])
    ensures var r := CullFrom(svs, i, w);
            && Facts(r) && Settled(r.svs)
            && (Owed(r.w.trace) ==> Owed(w.trace) || CycleDue(svs))
    decreases |svs| - i
  {
    hide TableInv, Facts, Owed, Cullok;
    if i < |svs| {
      if Cullok(svs[i]) {
        var last := |svs| - 1;
        var w1 := w.Did(Remove(svs[i].id, svs[i].cycle));
        var svs' := svs[i := svs[last]][..last];
        RemoveInv(State(svs, w), i, w1);
        RemoveFacts(svs, i, w);
        CullFacts(svs', i, w1);
        if CycleDue(svs') {
          var k :| 0 <= k < |svs'| && Cullok(svs'[k]) && svs'[k].cycle;
          assert svs'[k] == svs[if k == i then last else k];
        }
      } else {
        CullFacts(svs, i + 1, w);
      }
    }
  }

  lemma {:induction false} CullFlags(svs: seq<Svdef>, i: nat, w: World)
    requires i <= |svs|
    ensures var r := CullFrom(svs, i, w).w;
            && r.forkFailures == w.forkFailures && r.flagHup == w.flagHup && r.terminating == w.terminating
            && r.flagFailing == w.flagFailing
    decreases |svs| - i
  {
    if i < |svs| {
      if Cullok(svs[i]) {
        var last := |svs| - 1;
        CullFlags(svs[i := svs[last]][..last], i, w.Did(Remove(svs[i].id, svs[i].cycle)));
      } else {
        CullFlags(svs, i + 1, w);
      }
    }
  }

  // ---- perpd_waitup ----

  /** The flags collected while reaping tell of every finished entry. */
  ghost predicate Flagged(g: Reaping) {
    forall k :: 0 <= k < |g.st.svs| && Cullok(g.st.svs[k]) ==> g.cull && (g.st.svs[k].cycle ==> g.cycle)
  }

  lemma ReapedFlags(sv: Svdef, which: Which, w1: World)
    requires Logless(sv) && sv.Get(which).pid > 0
    ensures var r := Reaped(sv, which, w1);
            r.1.forkFailures == w1.forkFailures && Cullok(r.0) ==> r.2 && (r.0.cycle ==> r.3)
  {
    hide Run;
    var sub := sv.Get(which);
    var sv1 := sv.Set(which, sub.(pid := 0, wantDown := sub.wantDown || sub.isOnce));
    RunUp(sv1, which, Reset, w1);
    RunUp(sv1, which, Start, w1);
  }

  /** Without a fork failure a process that can run runs. */
  lemma RunUp(sv: Svdef, which: Which, goal: Goal, w: World)
    ensures var r := Run(sv, which, goal, w);
            r.1.forkFailures == w.forkFailures && (which.Main? || sv.hasLog) ==>
              r.0.Get(which).pid > 0 && r.0.hasLog == sv.hasLog
  {
    hide NextOk, Later;
    match which
    case Main =>
    case Log =>
  }

  lemma OwedAfter(w: World, w': World, id: Id)
    requires After(w, w', id)
    ensures Owed(w'.trace) == Owed(w.trace)
  {
    hide Owed, Proc, Culling, DownWanted, OnceOf;
    var other := Id(id.dev + 1, id.ino);
    OthersSame(w.trace, w'.trace, id, other);
  }

  lemma OwedReap(trace: seq<Act>, pid: nat)
    ensures Owed(trace + [Reap(pid)]) == Owed(trace)
  {
    assert (trace + [Reap(pid)])[..|trace|] == trace;
  }

  lemma WaitOneOwed(g: Reaping, pid: nat)
    requires TableInv(g.st)
    ensures var r := WaitOne(g, pid).st.w.trace;
            Owed(r) == Owed(g.st.w.trace)
  {
    hide Owed, Reaped, FindPid, After, TableInv;
    var w := g.st.w;
    if pid in w.children {
      ChildFound(g.st, pid);
      var (i, which) := FindPid(g.st.svs, pid);
      var w1 := w.(children := w.children - {pid}).Did(Reap(pid));
      OwedReap(w.trace, pid);
      ReapedAfter(g.st.svs[i], which, w1);
      OwedAfter(w1, Reaped(g.st.svs[i], which, w1).1, g.st.svs[i].id);
    }
  }

  lemma WaitOneFlagged(g: Reaping, pid: nat)
    requires TableInv(g.st) && Flagged(g)
    ensures WaitOne(g, pid).st.w.forkFailures == g.st.w.forkFailures ==> Flagged(WaitOne(g, pid))
  {
    hide Reaped, FindPid, TableInv, Cullok;
    var w := g.st.w;
    if pid in w.children {
      ChildFound(g.st, pid);
      var (i, which) := FindPid(g.st.svs, pid);
      var w1 := w.(children := w.children - {pid}).Did(Reap(pid));
      LoglessAt(g.st, i);
      ReapedFlags(g.st.svs[i], which, w1);
    }
  }

  lemma {:induction false} WaitAllFacts(st: State, dead: seq<nat>)
    requires TableInv(st) && Facts(st) && Settled(st.svs)
    ensures var g := WaitAll(Reaping(st, false, false), dead);
            && st.w.forkFailures <= g.st.w.forkFailures
            && g.st.w.flagHup == st.w.flagHup && g.st.w.terminating == st.w.terminating
            && Owed(g.st.w.trace) == Owed(st.w.trace)
            && (g.st.w.forkFailures == st.w.forkFailures ==> Facts(g.st) && Flagged(g))
  {
    hide TableInv, Facts, WaitOne, Owed;
    var g0 := Reaping(st, false, false);
    if dead != [] {
      var g := WaitAll(g0, dead[..|dead| - 1]);
      WaitAllFacts(st, dead[..|dead| - 1]);
      WaitAllInv(g0, dead[..|dead| - 1]);
      var pid := dead[|dead| - 1];
      WaitOneOwed(g, pid);
      WaitOneMono(g, pid);
      if WaitOne(g, pid).st.w.forkFailures == st.w.forkFailures {
        WaitOneFacts(g, pid);
        WaitOneFlagged(g, pid);
      }
    }
  }

  lemma WaitOneMono(g: Reaping, pid: nat)
    requires TableInv(g.st)
    ensures var r := WaitOne(g, pid).st.w;
            && g.st.w.forkFailures <= r.forkFailures
            && r.flagHup == g.st.w.flagHup && r.terminating == g.st.w.terminating && (g.st.w.flagFailing ==> r.flagFailing)
  {
    hide Reaped, FindPid, After, TableInv;
    var w := g.st.w;
    if pid in w.children {
      ChildFound(g.st, pid);
      var (i, which) := FindPid(g.st.svs, pid);
      var w1 := w.(children := w.children - {pid}).Did(Reap(pid));
      ReapedAfter(g.st.svs[i], which, w1);
      AfterFlags(w1, Reaped(g.st.svs[i], which, w1).1, g.st.svs[i].id);
    }
  }

  // ---- what every run keeps ----

  /** A reactivation that is owed has a rescan pending. */
  ghost predicate Remembered(w: World) {
    Owed(w.trace) && !w.terminating ==> w.flagHup
  }

  /** As long as no fork has failed. */
  ghost predicate RunInv(st: State) {
    st.w.forkFailures == 0 ==> Facts(st) && Settled(st.svs) && Remembered(st.w)
  }

  lemma WaitupRun(st: State, dead: seq<nat>)
    requires TableInv(st) && RunInv(st)
    ensures RunInv(Waitup(st, dead))
  {
    hide TableInv, Facts, WaitAll, CullFrom, Owed, Cullok;
    var r := Waitup(st, dead);
    var g := WaitAll(Reaping(st, false, false), dead);
    WaitAllInv(Reaping(st, false, false), dead);
    WaitAllMono(st, dead);
    CullFlags(g.st.svs, 0, g.st.w);
    if r.w.forkFailures == 0 {
      WaitAllFacts(st, dead);
      CullFacts(g.st.svs, 0, g.st.w);
      var st1 := if g.cull then Cull(g.st) else g.st;
      FlagFacts(st1, r.w);
    }
  }

  lemma {:induction false} WaitAllMono(st: State, dead: seq<nat>)
    requires TableInv(st)
    ensures st.w.forkFailures <= WaitAll(Reaping(st, false, false), dead).st.w.forkFailures
  {
    hide TableInv, WaitOne;
    if dead != [] {
      var g0 := Reaping(st, false, false);
      WaitAllMono(st, dead[..|dead| - 1]);
      WaitAllInv(g0, dead[..|dead| - 1]);
      WaitOneMono(WaitAll(g0, dead[..|dead| - 1]), dead[|dead| - 1]);
    }
  }

  // ---- sweeps ----

  /** Same pending flags, nothing owed or lost, no fork tried. */
  ghost predicate Calm(w: World, w': World) {
    && w'.forkFailures == w.forkFailures && w'.flagHup == w.flagHup && w'.terminating == w.terminating
    && Owed(w'.trace) == Owed(w.trace)
  }

  lemma WantcullCalm(sv: Svdef, w: World)
    ensures var r := Wantcull(sv, w);
            Calm(w, r.1) && r.2 == Cullok(r.0) && r.0.cull && r.0.active == sv.active && r.0.cycle == sv.cycle
  {
    hide Owed, Lawful;
    var r := Wantcull(sv, w);
    WantcullLawful(sv, w);
    LawfulAfter(sv, w, r.0, r.1);
    OwedAfter(w, r.1, sv.id);
  }

  lemma LawfulAfter(sv: Svdef, w: World, sv': Svdef, w': World)
    requires Lawful(sv, w, sv', w')
    ensures After(w, w', sv.id)
  {
  }

  lemma DropOneCalm(sv: Svdef, w: World)
    requires (sv.cycle ==> sv.cull) && !Cullok(sv)
    ensures var r := DropOne(sv, w);
            && Calm(w, r.1) && r.0.active == sv.active
            && (Cullok(r.0) ==> r.2 && !r.0.cycle)
            && (!sv.active ==> r.0.cull && !r.0.cycle && r.2 == Cullok(r.0))
  {
    hide Wantcull;
    WantcullCalm(sv, w);
  }

  lemma CalmTwice(w: World, w1: World, w2: World)
    requires Calm(w, w1) && Calm(w1, w2)
    ensures Calm(w, w2)
  {
  }

  /** Before entries are dropped: nothing finished, and only deactivating entries cycle. */
  ghost predicate Droppable(svs: seq<Svdef>) {
    forall k :: 0 <= k < |svs| ==> (svs[k].cycle ==> svs[k].cull) && !Cullok(svs[k])
  }

  lemma {:induction false} DropAllFacts(svs: seq<Svdef>, rest: seq<Svdef>, w: World)
    requires DistinctIds(svs + rest) && Facts(State(svs + rest, w)) && Droppable(svs)
    ensures var g := DropAll(svs, w);
            && Facts(State(g.svs + rest, g.w)) && DistinctIds(g.svs + rest) && Calm(w, g.w)
            && (forall k :: 0 <= k < |svs| && Cullok(g.svs[k]) ==> g.ready && !g.svs[k].cycle)
  {
    hide Facts, DropOne, Calm, Lawful, DistinctIds, Cullok;
    if svs == [] {
      CalmRefl(w);
    } else {
      var last := |svs| - 1;
      var g := DropAll(svs[..last], w);
      assert svs + rest == svs[..last] + ([svs[last]] + rest);
      DropAllFacts(svs[..last], [svs[last]] + rest, w);
      assert g.svs + ([svs[last]] + rest) == g.svs + [svs[last]] + rest;
      var r := DropOne(svs[last], g.w);
      DropOneLawful(svs[last], g.w);
      DropOneCalm(svs[last], g.w);
      CalmTwice(w, g.w, r.1);
      CalmFailures(g.w, r.1);
      MiddleFacts(g.svs, svs[last], rest, g.w, r.0, r.1);
    }
  }

  lemma CalmRefl(w: World)
    ensures Calm(w, w)
  {
  }

  lemma CalmFailures(w: World, w': World)
    requires Calm(w, w')
    ensures w'.forkFailures == w.forkFailures && w'.terminating == w.terminating && w'.flagHup == w.flagHup
  {
  }

  lemma {:induction false} WantcullAllFacts(svs: seq<Svdef>, rest: seq<Svdef>, w: World)
    requires DistinctIds(svs + rest) && Facts(State(svs + rest, w))
    ensures var g := WantcullAll(svs, w);
            && Facts(State(g.svs + rest, g.w)) && DistinctIds(g.svs + rest) && Calm(w, g.w)
            && (forall k :: 0 <= k < |svs| && Cullok(g.svs[k]) ==> g.ready)
  {
    hide Facts, Wantcull, Calm, Lawful, DistinctIds, Cullok;
    if svs == [] {
      CalmRefl(w);
    } else {
      var last := |svs| - 1;
      var g := WantcullAll(svs[..last], w);
      assert svs + rest == svs[..last] + ([svs[last]] + rest);
      WantcullAllFacts(svs[..last], [svs[last]] + rest, w);
      assert g.svs + ([svs[last]] + rest) == g.svs + [svs[last]] + rest;
      var r := Wantcull(svs[last], g.w);
      WantcullLawful(svs[last], g.w);
      WantcullCalm(svs[last], g.w);
      CalmTwice(w, g.w, r.1);
      CalmFailures(g.w, r.1);
      MiddleFacts(g.svs, svs[last], rest, g.w, r.0, r.1);
    }
  }

  /** Where nothing failed there is nothing to retry. */
  lemma {:induction false} NothingToRetry(svs: seq<Svdef>, w: World)
    requires forall k :: 0 <= k < |svs| ==> !svs[k].main.failing && !svs[k].log.failing
    ensures CheckfailAll(svs, w) == (svs, w)
  {
    if svs != [] {
      var last := |svs| - 1;
      NothingToRetry(svs[..last], w);
      assert svs == svs[..last] + [svs[last]];
    }
  }

  // ---- scans ----

  lemma ActivateAfter(d: Dir, w: World)
    ensures var r := ActivateNew(d, w); r.0.id == d.id && After(w, r.1, d.id) && !r.0.cull && !r.0.cycle
  {
    hide Run, After;
    var sv, a := Opening(d), Activate(d.id, d.down, d.once);
    var w0 := w.Did(a);
    AfterDid(w, a, d.id);
    var r1 := Run(sv, Log, Start, w0);
    RunTold(sv, Log, Start, w0);
    RunWishes(sv, Log, Start, w0);
    AfterTwice(w, w0, r1.1, d.id);
    RunTold(r1.0, Main, Start, r1.1);
    RunWishes(r1.0, Main, Start, r1.1);
    AfterTwice(w, r1.1, Run(r1.0, Main, Start, r1.1).1, d.id);
  }

  /** Activation of a service that was quiet. */
  lemma ActivateTold(d: Dir, w: World)
    requires Good(w.trace) && Quiet(w.trace, d.id)
    ensures var r := ActivateNew(d, w);
            r.1.forkFailures == w.forkFailures ==> Good(r.1.trace) && Told(r.1.trace, r.0)
  {
    hide Run, Lawful, Good, Told, Quiet, DownWanted, OnceOf;
    var sv, a := Opening(d), Activate(d.id, d.down, d.once);
    var w0 := w.Did(a);
    OpeningTold(d, w);
    var r1 := Run(sv, Log, Start, w0);
    StartLawful(sv, Log, w0);
    RunWishes(sv, Log, Start, w0);
    RunDownWanted(sv, Log, Start, w0, Main);
    LawfulId(sv, w0, r1.0, r1.1);
    if d.down {
      LawfulUse(sv, w0, r1.0, r1.1);
    } else {
      var r2 := Run(r1.0, Main, Start, r1.1);
      StartLawful(r1.0, Main, r1.1);
      LawfulTwice(sv, w0, r1.0, r1.1, r2.0, r2.1);
      LawfulUse(sv, w0, r2.0, r2.1);
    }
  }

  lemma LawfulUse(sv: Svdef, w: World, sv': Svdef, w': World)
    requires Lawful(sv, w, sv', w') && Good(w.trace) && Told(w.trace, sv)
    ensures w'.forkFailures == w.forkFailures ==> Good(w'.trace) && Told(w'.trace, sv')
  {
    hide Good, Told;
  }

  lemma OpeningTold(d: Dir, w: World)
    requires Good(w.trace) && Quiet(w.trace, d.id)
    ensures var w0 := w.Did(Activate(d.id, d.down, d.once));
            && Good(w0.trace) && Told(w0.trace, Opening(d))
            && !DownWanted(w0.trace, d.id, Log) && OnceOf(w0.trace, d.id, Log) != Spent
            && OnceOf(w0.trace, d.id, Main) != Spent && (!d.down ==> !DownWanted(w0.trace, d.id, Main))
  {
    hide Proc, Culling, DownWanted, OnceOf, Good;
    Appended(w.trace, Activate(d.id, d.down, d.once), d.id);
  }

  /** A new entry: its service was quiet before. */
  lemma AppendFacts(st: State, d: Dir, sv: Svdef, w: World)
    requires Facts(st) && Absent(st.svs, d.id) && w.forkFailures == st.w.forkFailures
    requires var r := ActivateNew(d, st.w); sv == r.0.(active := true) && w == r.1
    ensures Facts(State(st.svs + [sv], w))
  {
    hide ActivateNew, Told, Quiet, Good, After;
    var r := ActivateNew(d, st.w);
    ActivateAfter(d, st.w);
    ActivateTold(d, st.w);
    assert Told(w.trace, sv) by { ActiveTold(w.trace, r.0); }
    forall k | 0 <= k < |st.svs|
      ensures Told(w.trace, st.svs[k])
    {
      OthersTold(st.w, w, d.id, st.svs[k]);
    }
    forall id | Absent(st.svs + [sv], id)
      ensures Quiet(w.trace, id)
    {
      assert (st.svs + [sv])[|st.svs|].id != id;
      AbsentFront(st.svs, sv, id);
      OthersQuiet(st.w, w, d.id, id);
    }
  }

  lemma AbsentFront(svs: seq<Svdef>, sv: Svdef, id: Id)
    requires Absent(svs + [sv], id)
    ensures Absent(svs, id)
  {
    forall k | 0 <= k < |svs|
      ensures svs[k].id != id
    {
      assert (svs + [sv])[k] == svs[k];
    }
  }

  lemma ActiveTold(trace: seq<Act>, sv: Svdef)
    requires Told(trace, sv)
    ensures Told(trace, sv.(active := true))
  {
    hide Proc, Culling, DownWanted, OnceOf;
  }

  lemma ScanOneFacts(g: Scanning, d: Dir)
    requires TableInv(g.st) && Facts(g.st) && Settled(g.st.svs)
    ensures var r := ScanOne(g, d);
            r.st.w.forkFailures == g.st.w.forkFailures ==> Facts(r.st) && Settled(r.st.svs)
  {
    hide ActivateNew, TableInv, Facts, Lawful, After;
    var svs, w := g.st.svs, g.st.w;
    var i := Lookup(svs, d.id);
    if i < |svs| {
      var sv := svs[i].(active := true, cycle := svs[i].cycle || svs[i].cull);
      FlagsLawful(svs[i], w, sv);
      LoglessAt(g.st, i);
      EntryFacts(g.st, i, sv, w);
    } else if |svs| < PERP_MAX && d.opens {
      LookupNone(svs, d.id);
      var r := ActivateNew(d, w);
      ActivateAfter(d, w);
      if r.1.forkFailures == w.forkFailures {
        AppendFacts(g.st, d, r.0.(active := true), r.1);
      }
    }
  }

  /** Scanning a directory adds acts about services only. */
  lemma ScanOneCalm(g: Scanning, d: Dir)
    ensures var w, w' := g.st.w, ScanOne(g, d).st.w;
            && w.forkFailures <= w'.forkFailures
            && w'.flagHup == w.flagHup && w'.terminating == w.terminating && (w.flagFailing ==> w'.flagFailing)
            && Owed(w'.trace) == Owed(w.trace)
  {
    hide ActivateNew, Owed, Lookup, After;
    ActivateAfter(d, g.st.w);
    var r := ActivateNew(d, g.st.w);
    AfterFlags(g.st.w, r.1, d.id);
    OwedAfter(g.st.w, r.1, d.id);
  }

  lemma {:induction false} ScanDirsFacts(g0: Scanning, dirs: seq<Dir>)
    requires TableInv(g0.st) && Facts(g0.st) && Settled(g0.st.svs)
    ensures var w, g := g0.st.w, ScanDirs(g0, dirs);
            && w.forkFailures <= g.st.w.forkFailures
            && g.st.w.flagHup == w.flagHup && g.st.w.terminating == w.terminating
            && Owed(g.st.w.trace) == Owed(w.trace)
            && (g.st.w.forkFailures == w.forkFailures ==> Facts(g.st) && Settled(g.st.svs))
  {
    hide ScanOne, TableInv, Facts, Owed, Settled;
    if dirs != [] {
      var front, d := dirs[..|dirs| - 1], dirs[|dirs| - 1];
      var g := ScanDirs(g0, front);
      ScanDirsFacts(g0, front);
      ScanDirsInv(g0, front);
      ScanOneCalm(g, d);
      if ScanOne(g, d).st.w.forkFailures == g0.st.w.forkFailures {
        ScanOneFacts(g, d);
      }
    }
  }

  lemma UnflagFacts(st: State)
    requires Facts(st) && Settled(st.svs)
    ensures Facts(State(Unflag(st.svs), st.w)) && Settled(Unflag(st.svs))
  {
    hide Proc, Culling, DownWanted, OnceOf, Good;
    forall k | 0 <= k < |st.svs|
      ensures Told(st.w.trace, Unflag(st.svs)[k])
    {
      assert Told(st.w.trace, st.svs[k]);
    }
    forall id | Absent(Unflag(st.svs), id)
      ensures Quiet(st.w.trace, id)
    {
      UnflagAbsent(st.svs, id);
    }
  }

  lemma UnflagAbsent(svs: seq<Svdef>, id: Id)
    requires Absent(Unflag(svs), id)
    ensures Absent(svs, id)
  {
    forall k | 0 <= k < |svs|
      ensures svs[k].id != id
    {
      assert Unflag(svs)[k].id == svs[k].id;
    }
  }

  /** Acts that are no part of any process's life. */
  predicate OfDaemon(a: Act) {
    a.ScanDone? || a.ScanShort? || a.ScanCut? || a.ScanLost? || a.Retried?
  }

  lemma DoneTold(trace: seq<Act>, a: Act, sv: Svdef)
    requires Told(trace, sv) && OfDaemon(a)
    ensures Told(trace + [a], sv)
  {
    hide Proc, Culling, DownWanted, OnceOf, Good, Owed;
    Appended(trace, a, sv.id);
  }

  lemma DoneQuiet(trace: seq<Act>, a: Act, id: Id)
    requires OfDaemon(a)
    ensures Quiet(trace, id) ==> Quiet(trace + [a], id)
    ensures Good(trace + [a]) == Good(trace) && Owed(trace + [a]) == (Owed(trace) && !a.ScanDone? && !a.ScanLost?)
  {
    hide Proc, Culling, DownWanted, OnceOf, Good, Owed;
    Appended(trace, a, id);
  }

  /** The end of a scan is no part of any process's life. */
  lemma DoneFacts(st: State, a: Act)
    requires Facts(st) && OfDaemon(a)
    ensures Facts(State(st.svs, st.w.Did(a)))
    ensures Owed(st.w.trace + [a]) == (Owed(st.w.trace) && !a.ScanDone? && !a.ScanLost?)
  {
    hide Told, Quiet, Good, Owed;
    var t := st.w.trace;
    DoneQuiet(t, a, Id(0, 0));
    forall k | 0 <= k < |st.svs|
      ensures Told(t + [a], st.svs[k])
    {
      DoneTold(t, a, st.svs[k]);
    }
    forall id | Absent(st.svs, id)
      ensures Quiet(t + [a], id)
    {
      DoneQuiet(t, a, id);
    }
  }

  lemma ToldDroppable(st: State)
    requires Facts(st) && Settled(st.svs)
    ensures Droppable(st.svs)
  {
    hide Proc, Culling, DownWanted, OnceOf, Good, Cullok;
    forall k | 0 <= k < |st.svs|
      ensures st.svs[k].cycle ==> st.svs[k].cull
    {
      assert Told(st.w.trace, st.svs[k]);
    }
  }

  /** The last part of a scan: entries not found are deactivated, finished ones removed. */
  lemma SweepFacts(st: State)
    requires TableInv(st) && Facts(st) && Settled(st.svs)
    ensures var s := DropAll(st.svs, st.w);
            var r := if s.ready then Cull(State(s.svs, s.w)) else State(s.svs, s.w);
            Facts(r) && Settled(r.svs) && r.w.forkFailures == st.w.forkFailures && r.w.terminating == st.w.terminating
  {
    hide TableInv, Facts, DropAll, CullFrom, Cullok, Calm, Droppable, DistinctIds;
    var s := DropAll(st.svs, st.w);
    TableDistinct(st);
    ToldDroppable(st);
    assert st.svs + [] == st.svs && s.svs + [] == s.svs;
    DropAllInv(st.svs, [], st.w);
    DropAllFacts(st.svs, [], st.w);
    CalmFailures(st.w, s.w);
    CullFacts(s.svs, 0, s.w);
    CullFlags(s.svs, 0, s.w);
  }

  lemma TableDistinct(st: State)
    requires TableInv(st)
    ensures DistinctIds(st.svs)
  {
  }

  lemma ScanRun(st: State, listing: Listing)
    requires TableInv(st) && Facts(st) && Settled(st.svs) && !st.w.terminating
    ensures var r := Scan(st, listing);
            r.w.forkFailures == st.w.forkFailures ==> Facts(r) && Settled(r.svs) && Remembered(r.w)
  {
    hide TableInv, Facts, ScanDirs, DropAll, CullFrom, Unflag, Owed, Settled;
    var r := Scan(st, listing);
    if listing.NoDir? {
      DoneFacts(st, ScanLost);
    } else {
      var g0 := Scanning(State(Unflag(st.svs), st.w), false);
      var g := ScanDirs(g0, listing.dirs);
      UnflagFacts(st);
      UnflagInv(st);
      ScanDirsFacts(g0, listing.dirs);
      ScanDirsInv(g0, listing.dirs);
      if g.st.w.forkFailures == st.w.forkFailures {
        DoneFacts(g.st, ScanCut);
        FlagFacts(State(g.st.svs, g.st.w.Did(ScanCut)), TriggerScan(g.st.w.Did(ScanCut)));
        SweepFacts(g.st);
        var s := DropAll(g.st.svs, g.st.w);
        var st2 := if s.ready then Cull(State(s.svs, s.w)) else State(s.svs, s.w);
        DoneFacts(st2, ScanShort);
        FlagFacts(State(st2.svs, st2.w.Did(ScanShort)), TriggerScan(st2.w.Did(ScanShort)));
        DoneFacts(st2, ScanDone);
      } else {
        SweepFailures(g.st);
      }
    }
  }

  lemma SweepFailures(st: State)
    ensures var s := DropAll(st.svs, st.w);
            s.w.forkFailures == st.w.forkFailures && Cull(State(s.svs, s.w)).w.forkFailures == st.w.forkFailures
  {
    hide CullFrom;
    var s := DropAll(st.svs, st.w);
    DropAllFailures(st.svs, st.w);
    CullFlags(s.svs, 0, s.w);
  }

  lemma {:induction false} DropAllFailures(svs: seq<Svdef>, w: World)
    ensures DropAll(svs, w).w.forkFailures == w.forkFailures
  {
    if svs != [] {
      DropAllFailures(svs[..|svs| - 1], w);
    }
  }

  lemma TerminateRun(st: State)
    requires TableInv(st) && RunInv(st)
    ensures RunInv(Terminate(st))
  {
    hide TableInv, Facts, WantcullAll, CullFrom, Owed, Cullok, Calm, DistinctIds;
    var w := st.w.(terminating := true, flagHup := false);
    var s := WantcullAll(st.svs, w);
    WantcullAllFailures(st.svs, w);
    CullFlags(s.svs, 0, s.w);
    if st.w.forkFailures == 0 {
      FlagFacts(st, w);
      WorldStep(st, w);
      TableDistinct(st);
      assert st.svs + [] == st.svs && s.svs + [] == s.svs;
      WantcullAllInv(st.svs, [], w);
      WantcullAllFacts(st.svs, [], w);
      CalmFailures(w, s.w);
      CullFacts(s.svs, 0, s.w);
    }
  }

  lemma {:induction false} WantcullAllFailures(svs: seq<Svdef>, w: World)
    ensures WantcullAll(svs, w).w.forkFailures == w.forkFailures
  {
    if svs != [] {
      WantcullAllFailures(svs[..|svs| - 1], w);
    }
  }

  lemma {:induction false} RetryMono(svs: seq<Svdef>, w: World)
    ensures w.forkFailures <= CheckfailAll(svs, w).1.forkFailures
  {
    hide Checkfail, Lawful;
    if svs != [] {
      var last := |svs| - 1;
      RetryMono(svs[..last], w);
      var r := CheckfailAll(svs[..last], w);
      CheckfailLawful(svs[last], r.1);
      var r' := Checkfail(svs[last], r.1);
      LawfulId(svs[last], r.1, r'.0, r'.1);
    }
  }

  lemma RetryRun(st: State)
    requires RunInv(st)
    ensures RunInv(Retry(st))
  {
    hide Owed, Facts, Settled, CheckfailAll;
    var w := st.w.(flagFailing := false);
    RetryMono(st.svs, w.Did(Retried));
    if st.w.forkFailures == 0 {
      FlagFacts(st, w);
      DoneFacts(State(st.svs, w), Retried);
      NothingFails(st);
      NothingToRetry(st.svs, w.Did(Retried));
    }
  }

  lemma NothingFails(st: State)
    requires Facts(st)
    ensures forall k :: 0 <= k < |st.svs| ==> !st.svs[k].main.failing && !st.svs[k].log.failing
  {
    hide Proc, Culling, DownWanted, OnceOf, Good;
    forall k | 0 <= k < |st.svs|
      ensures !st.svs[k].main.failing && !st.svs[k].log.failing
    {
      assert Told(st.w.trace, st.svs[k]);
    }
  }

  lemma ServeRun(st: State, q: Request)
    requires TableInv(st) && RunInv(st)
    ensures RunInv(Serve(st, q).0)
  {
    hide TableInv, Facts, Lookup, Control, Owed, Lawful;
    var i := Lookup(st.svs, q.id);
    if i < |st.svs| && !st.svs[i].cull {
      var r := Control(st.svs[i], q.which, q.cmd, q.group, st.w);
      ControlLawful(st.svs[i], q.which, q.cmd, q.group, st.w);
      LawfulId(st.svs[i], st.w, r.0, r.1);
      if r.1.forkFailures == 0 {
        TableDistinct(st);
        EntryFacts(st, i, r.0, r.1);
        LawfulOwed(st.svs[i], st.w, r.0, r.1);
      }
    }
  }

  lemma LawfulOwed(sv: Svdef, w: World, sv': Svdef, w': World)
    requires Lawful(sv, w, sv', w')
    ensures Owed(w'.trace) == Owed(w.trace)
  {
    hide After, Good, Told, Owed;
    OwedAfter(w, w', sv.id);
  }

  lemma HupRun(st: State)
    requires RunInv(st)
    ensures RunInv(State(st.svs, TriggerScan(st.w)))
  {
    hide Facts, Settled, Owed;
    if st.w.forkFailures == 0 {
      FlagFacts(st, TriggerScan(st.w));
    }
  }

  lemma StepRun(st: State, e: Event)
    requires TableInv(st) && RunInv(st)
    ensures RunInv(Step(st, e))
  {
    hide TableInv, RunInv, Waitup, Scan, Terminate, Retry, Serve, TriggerScan;
    match e
    case SigHup => HupRun(st);
    case SigTerm => TerminateRun(st);
    case Chld(dead) => WaitupRun(st, dead);
    case Rescan(listing) =>
      if !st.w.terminating {
        RescanRun(st, listing);
      }
    case Failing => RetryRun(st);
    case Client(q) => ServeRun(st, q);
  }

  lemma RescanRun(st: State, listing: Listing)
    requires TableInv(st) && RunInv(st) && !st.w.terminating
    ensures RunInv(Scan(State(st.svs, st.w.(flagHup := false)), listing))
  {
    hide TableInv, Facts, Settled, Scan, Remembered;
    var w := st.w.(flagHup := false);
    var st1 := State(st.svs, w);
    ScanMono(st1, listing);
    if Scan(st1, listing).w.forkFailures == 0 {
      FlagFacts(st, w);
      WorldStep(st, w);
      ScanRun(st1, listing);
    }
  }

  lemma {:induction false} ScanDirsMono(g: Scanning, dirs: seq<Dir>)
    ensures g.st.w.forkFailures <= ScanDirs(g, dirs).st.w.forkFailures
  {
    hide ScanOne, Owed;
    if dirs != [] {
      ScanDirsMono(g, dirs[..|dirs| - 1]);
      ScanOneCalm(ScanDirs(g, dirs[..|dirs| - 1]), dirs[|dirs| - 1]);
    }
  }

  lemma ScanMono(st: State, listing: Listing)
    ensures st.w.forkFailures <= Scan(st, listing).w.forkFailures
  {
    hide ScanDirs, DropAll, Cull, Unflag;
    if listing.Listing? {
      var g0 := Scanning(State(Unflag(st.svs), st.w), false);
      ScanDirsMono(g0, listing.dirs);
      SweepFailures(ScanDirs(g0, listing.dirs).st);
    }
  }

  /** Failures are never forgotten. */
  lemma StepMono(st: State, e: Event)
    requires TableInv(st)
    ensures st.w.forkFailures <= Step(st, e).w.forkFailures
  {
    hide TableInv, WaitAll, CullFrom, Scan, WantcullAll, CheckfailAll, Control, Lawful, Lookup;
    match e
    case SigHup =>
    case SigTerm =>
      var s := WantcullAll(st.svs, st.w.(terminating := true, flagHup := false));
      WantcullAllFailures(st.svs, st.w.(terminating := true, flagHup := false));
      CullFlags(s.svs, 0, s.w);
    case Chld(dead) =>
      WaitAllMono(st, dead);
      var g := WaitAll(Reaping(st, false, false), dead);
      CullFlags(g.st.svs, 0, g.st.w);
    case Rescan(listing) => ScanMono(State(st.svs, st.w.(flagHup := false)), listing);
    case Failing => RetryMono(st.svs, st.w.(flagFailing := false).Did(Retried));
    case Client(q) =>
      var i := Lookup(st.svs, q.id);
      if i < |st.svs| && !st.svs[i].cull {
        var r := Control(st.svs[i], q.which, q.cmd, q.group, st.w);
        ControlLawful(st.svs[i], q.which, q.cmd, q.group, st.w);
        LawfulId(st.svs[i], st.w, r.0, r.1);
      }
  }

  lemma InitRun(answers: seq<Answer>)
    ensures RunInv(Init(answers))
  {
  }

  lemma {:induction false} RunsLawful(answers: seq<Answer>, es: seq<Event>)
    ensures RunInv(Steps(Init(answers), es))
  {
    hide TableInv, RunInv, Step, Init;
    if es == [] {
      InitRun(answers);
    } else {
      var es', e := es[..|es| - 1], es[|es| - 1];
      RunsLawful(answers, es');
      RunsAccounted(answers, es');
      StepRun(Steps(Init(answers), es'), e);
    }
  }
}
