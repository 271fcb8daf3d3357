/** One turn of the main loop: which events it takes, and what that is in terms of the state and the
    history. */
module SupervisorTurns {
  import opened Tain
  import opened Supervisor
  import opened SupervisorTable
  import opened SupervisorHistory
  import opened SupervisorRuns
  import opened SupervisorFlags

  /** What a turn of the main loop finds: signals caught while polling, the children waitpid reports,
      whether the autoscan timer ran out, the base directory, and the requests completed by clients. */
  datatype Poll = Poll(
    hup: bool, term: bool, chld: bool, dead: seq<nat>, timer: bool, listing: Listing, requests: seq<Request>)

  function Signals(p: Poll): (es: seq<Event>) {
    var es := if p.hup then [SigHup] else [];
    var es1 := if p.term then es + [SigTerm] else es;
    if p.chld then es1 + [Chld(p.dead)] else es1
  }

  function Clients(requests: seq<Request>): (es: seq<Event>)
    ensures |es| == |requests|
  {
    seq(|requests|, i requires 0 <= i < |requests| => Client(requests[i]))
  }

  function ScanScript(st: State, p: Poll): seq<Event> {
    var es := Signals(p);
    var w := Steps(st, es).w;
    if w.flagHup || (p.timer && !w.terminating) then es + [Rescan(p.listing)] else es
  }

  function RetryScript(st: State, p: Poll): seq<Event> {
    var es := ScanScript(st, p);
    var w := Steps(st, es).w;
    if w.flagFailing && !w.terminating then es + [Failing] else es
  }

  /** The events of one turn, in the order the loop takes them. Clients wait while a fork fails. */
  function Script(st: State, p: Poll): seq<Event> {
    var es := RetryScript(st, p);
    var w := Steps(st, es).w;
    if w.flagFailing || w.terminating then es else es + Clients(p.requests)
  }

  lemma StepsAppend(st: State, es: seq<Event>, e: Event)
    ensures Steps(st, es + [e]) == Step(Steps(st, es), e)
  {
    hide Step;
    assert (es + [e])[..|es|] == es;
  }

  lemma ClientsAppend(st: State, es: seq<Event>, requests: seq<Request>, k: nat)
    requires k < |requests|
    ensures Steps(st, es + Clients(requests[..k + 1])) == Step(Steps(st, es + Clients(requests[..k])), Client(requests[k]))
  {
    hide Step;
    assert Clients(requests[..k + 1]) == Clients(requests[..k]) + [Client(requests[k])];
    assert es + Clients(requests[..k + 1]) == es + Clients(requests[..k]) + [Client(requests[k])];
    StepsAppend(st, es + Clients(requests[..k]), Client(requests[k]));
  }

  lemma StepsNone(st: State)
    ensures Steps(st, []) == st
  {
  }

  lemma StepIs(st: State, dead: seq<nat>, listing: Listing)
    ensures Step(st, SigHup) == State(st.svs, TriggerScan(st.w))
    ensures Step(st, SigTerm) == if st.w.terminating then st else Terminate(st)
    ensures Step(st, Chld(dead)) == Waitup(st, dead)
    ensures Step(st, Rescan(listing)) ==
            if st.w.terminating then st else Scan(State(st.svs, st.w.(flagHup := false)), listing)
    ensures Step(st, Failing) == if st.w.terminating || !st.w.flagFailing then st else Retry(st)
  {
    hide Waitup, Terminate, Scan, Retry, TriggerScan;
  }

  lemma ServeStep(st: State, q: Request)
    ensures !st.w.terminating ==> Step(st, Client(q)) == Serve(st, q).0 && !Serve(st, q).0.w.terminating
  {
    hide Serve;
    ServeFlags(st, q);
  }

  lemma ClientsEnds(requests: seq<Request>)
    ensures Clients(requests[..0]) == []
  {
  }

  lemma {:induction false} StepsConcat(st: State, a: seq<Event>, b: seq<Event>)
    ensures Steps(st, a + b) == Steps(Steps(st, a), b)
  {
    hide Step;
    if b == [] {
      assert a + b == a;
    } else {
      StepsConcat(st, a, b[..|b| - 1]);
      assert (a + b)[..|a + b| - 1] == a + b[..|b| - 1];
    }
  }

  lemma ScanScriptSteps(st: State, p: Poll)
    ensures var st1 := Steps(st, Signals(p));
            Steps(st, ScanScript(st, p)) ==
            if st1.w.flagHup || (p.timer && !st1.w.terminating) then Step(st1, Rescan(p.listing)) else st1
  {
    hide Step, Steps, Signals;
    StepsAppend(st, Signals(p), Rescan(p.listing));
  }

  lemma RetryScriptSteps(st: State, p: Poll)
    ensures var st1 := Steps(st, ScanScript(st, p));
            Steps(st, RetryScript(st, p)) == if st1.w.flagFailing && !st1.w.terminating then Step(st1, Failing) else st1
  {
    hide Step, Steps, ScanScript;
    StepsAppend(st, ScanScript(st, p), Failing);
  }

  /** Retrying does not begin termination. */
  lemma RetryKeeps(st: State, p: Poll)
    requires TableInv(st) && Orderly(st.w)
    ensures Steps(st, RetryScript(st, p)).w.terminating == Steps(st, ScanScript(st, p)).w.terminating
  {
    hide Step, Steps, TableInv, Orderly, ScanScript, RetryScript;
    RetryScriptSteps(st, p);
    StepsFlags(st, ScanScript(st, p));
    StepFlags(Steps(st, ScanScript(st, p)), Failing);
  }

  /** Nor does a client. */
  lemma {:induction false} ClientsKeep(st: State, requests: seq<Request>)
    requires TableInv(st) && Orderly(st.w)
    ensures Steps(st, Clients(requests)).w.terminating == st.w.terminating
  {
    hide Step, Steps, TableInv, Orderly, Clients;
    if requests == [] {
      ClientsEnds(requests);
      StepsNone(st);
      assert requests[..0] == requests;
    } else {
      var last := |requests| - 1;
      var front := requests[..last];
      ClientsKeep(st, front);
      ClientsAppend(st, [], requests, last);
      assert [] + Clients(front) == Clients(front) && [] + Clients(requests) == Clients(requests);
      assert requests[..last + 1] == requests;
      StepsFlags(st, Clients(front));
      StepFlags(Steps(st, Clients(front)), Client(requests[last]));
    }
  }

  // ---- which acts each part of a turn adds ----

  datatype Sort = Plain | Harvest | Search | Service

  predicate Wish(a: Act) {
    a.WishDown? || a.WishUp?
  }

  predicate ScanMark(a: Act) {
    a.ScanDone? || a.ScanShort? || a.ScanCut? || a.ScanLost?
  }

  /** Which acts belong where. */
  predicate Allowed(a: Act, sort: Sort) {
    || a.Launch? || a.ForkFailed? || a.Signal?
    || (a.Reap? && sort.Harvest?)
    || (a.Activate? && sort.Search?)
    || (Wish(a) && sort.Service?)
    || ((a.Deactivate? || a.Remove?) && !sort.Service?)
  }

  /** The history grows by acts of one sort. */
  ghost predicate Adds(t: seq<Act>, t': seq<Act>, sort: Sort) {
    t <= t' && forall k :: |t| <= k < |t'| ==> Allowed(t'[k], sort)
  }

  lemma AddsTwice(t: seq<Act>, t1: seq<Act>, t2: seq<Act>, sort: Sort)
    requires Adds(t, t1, sort) && Adds(t1, t2, sort)
    ensures Adds(t, t2, sort)
  {
    hide Allowed;
    forall k | |t| <= k < |t2|
      ensures Allowed(t2[k], sort)
    {
      if k < |t1| {
        assert t2[k] == t1[k];
      }
    }
  }

  lemma AddsOne(t: seq<Act>, a: Act, sort: Sort)
    requires Allowed(a, sort)
    ensures Adds(t, t + [a], sort)
  {
  }

  lemma AddsWider(t: seq<Act>, t': seq<Act>, sort: Sort)
    requires Adds(t, t', Plain) && !sort.Service?
    ensures Adds(t, t', sort)
  {
    hide Wish;
    forall k | |t| <= k < |t'|
      ensures Allowed(t'[k], sort)
    {
      assert Allowed(t'[k], Plain);
    }
  }

  lemma RunAdds(sv: Svdef, which: Which, goal: Goal, w: World, sort: Sort)
    ensures Adds(w.trace, Run(sv, which, goal, w).1.trace, sort)
    ensures w.children <= Run(sv, which, goal, w).1.children
  {
    hide Launched, Stuck, Forks, Refuses, Adds;
    AddsNone(w.trace, sort);
    StuckAdds(sv, which, goal, w, sort);
    if Forks(w) {
      LaunchAdds(sv, which, goal, w, sort);
    }
  }

  lemma LaunchAdds(sv: Svdef, which: Which, goal: Goal, w: World, sort: Sort)
    requires Forks(w)
    ensures Adds(w.trace, Launched(sv, which, goal, w).1.trace, sort)
    ensures w.children <= Launched(sv, which, goal, w).1.children
  {
    hide NextOk, Later;
  }

  lemma StuckAdds(sv: Svdef, which: Which, goal: Goal, w: World, sort: Sort)
    ensures Adds(w.trace, Stuck(sv, which, goal, w).1.trace, sort)
    ensures w.children <= Stuck(sv, which, goal, w).1.children
  {
  }

  lemma HushAdds(sv: Svdef, which: Which, w: World, sort: Sort)
    ensures Adds(w.trace, Hush(sv, which, w).1.trace, sort) && Hush(sv, which, w).1.children == w.children
  {
  }

  lemma WantcullAdds(sv: Svdef, w: World)
    ensures Adds(w.trace, Wantcull(sv, w).1.trace, Plain) && Wantcull(sv, w).1.children == w.children
  {
    hide Hush, Adds;
    var sv1 := sv.(cull := true, main := sv.main.(wantDown := true),
                   log := if sv.hasLog then sv.log.(wantDown := true) else sv.log);
    var w1 := w.Did(Deactivate(sv.id));
    AddsOne(w.trace, Deactivate(sv.id), Plain);
    HushAdds(sv1, Main, w1, Plain);
    HushAdds(sv1, Log, w1, Plain);
    AddsTwice(w.trace, w1.trace, Hush(sv1, Main, w1).1.trace, Plain);
    AddsTwice(w.trace, w1.trace, Hush(sv1, Log, w1).1.trace, Plain);
  }

  lemma AddsNone(t: seq<Act>, sort: Sort)
    ensures Adds(t, t, sort)
  {
  }

  lemma {:induction false} CullAdds(svs: seq<Svdef>, i: nat, w: World)
    requires i <= |svs|
    ensures Adds(w.trace, CullFrom(svs, i, w).w.trace, Plain) && CullFrom(svs, i, w).w.children == w.children
    decreases |svs| - i
  {
    hide Cullok, Adds;
    AddsNone(w.trace, Plain);
    if i < |svs| {
      if Cullok(svs[i]) {
        var last := |svs| - 1;
        var a := Remove(svs[i].id, svs[i].cycle);
        var svs' := svs[i := svs[last]][..last];
        AddsOne(w.trace, a, Plain);
        CullAdds(svs', i, w.Did(a));
        AddsTwice(w.trace, w.trace + [a], CullFrom(svs', i, w.Did(a)).w.trace, Plain);
      } else {
        CullAdds(svs, i + 1, w);
      }
    }
  }

  lemma {:induction false} WantcullAllAdds(svs: seq<Svdef>, w: World)
    ensures Adds(w.trace, WantcullAll(svs, w).w.trace, Plain) && WantcullAll(svs, w).w.children == w.children
  {
    hide Adds, Wantcull;
    AddsNone(w.trace, Plain);
    if svs != [] {
      var last := |svs| - 1;
      var g := WantcullAll(svs[..last], w);
      WantcullAllAdds(svs[..last], w);
      WantcullAdds(svs[last], g.w);
      AddsTwice(w.trace, g.w.trace, Wantcull(svs[last], g.w).1.trace, Plain);
    }
  }

  lemma TerminateAdds(st: State)
    ensures Adds(st.w.trace, Terminate(st).w.trace, Plain) && Terminate(st).w.children == st.w.children
  {
    hide Adds, WantcullAll, CullFrom;
    var w := st.w.(terminating := true, flagHup := false);
    var s := WantcullAll(st.svs, w);
    WantcullAllAdds(st.svs, w);
    CullAdds(s.svs, 0, s.w);
    AddsTwice(st.w.trace, s.w.trace, CullFrom(s.svs, 0, s.w).w.trace, Plain);
  }

  // ---- reaping ----

  lemma ReapedAdds(sv: Svdef, which: Which, w: World)
    ensures Adds(w.trace, Reaped(sv, which, w).1.trace, Plain) && w.children <= Reaped(sv, which, w).1.children
  {
    hide Run, Hush, Adds;
    var sub := sv.Get(which);
    var sv1 := sv.Set(which, sub.(pid := 0, wantDown := sub.wantDown || sub.isOnce));
    AddsNone(w.trace, Plain);
    RunAdds(sv1, which, Reset, w, Plain);
    RunAdds(sv1, which, Start, w, Plain);
    HushAdds(sv1, Log, w, Plain);
  }

  /** As far as the reaping has come: children reported are reaped, and no child is lost. */
  ghost predicate Harvested(t: seq<Act>, children: set<nat>, dead: seq<nat>, w': World) {
    && Adds(t, w'.trace, Harvest)
    && (forall k :: |t| <= k < |w'.trace| && w'.trace[k].Reap? ==> w'.trace[k].pid in dead)
    && (forall pid :: pid in children ==> pid in w'.children || Reap(pid) in w'.trace[|t|..])
    && (forall pid :: pid in children && pid in dead ==> Reap(pid) in w'.trace[|t|..])
  }

  lemma WaitOneAdds(g: Reaping, pid: nat)
    ensures var w, w' := g.st.w, WaitOne(g, pid).st.w;
            if pid !in w.children then w' == w else
              Adds(w.trace + [Reap(pid)], w'.trace, Plain) && w.children - {pid} <= w'.children
  {
    hide Reaped, FindPid, Adds;
    var w := g.st.w;
    var w1 := w.(children := w.children - {pid}).Did(Reap(pid));
    var (i, which) := FindPid(g.st.svs, pid);
    AddsNone(w1.trace, Plain);
    if pid in w.children && i < |g.st.svs| {
      ReapedAdds(g.st.svs[i], which, w1);
    }
  }

  lemma HarvestNext(t: seq<Act>, children: set<nat>, dead: seq<nat>, w: World, pid: nat, w': World)
    requires Harvested(t, children, dead, w) && pid in w.children
    requires Adds(w.trace + [Reap(pid)], w'.trace, Plain) && w.children - {pid} <= w'.children
    ensures Harvested(t, children, dead + [pid], w')
  {
    hide Allowed;
    var t1 := w.trace + [Reap(pid)];
    AddsOne(w.trace, Reap(pid), Harvest) by { ReapAllowed(pid); }
    AddsWider(t1, w'.trace, Harvest);
    AddsTwice(t, w.trace, t1, Harvest);
    AddsTwice(t, t1, w'.trace, Harvest);
    forall k | |t| <= k < |w'.trace| && w'.trace[k].Reap?
      ensures w'.trace[k].pid in dead + [pid]
    {
      if k < |w.trace| {
        assert w'.trace[k] == w.trace[k];
      } else if k == |w.trace| {
        assert w'.trace[k] == t1[k] == Reap(pid);
      } else {
        assert Allowed(w'.trace[k], Plain);
        PlainNoReap(w'.trace[k]);
      }
    }
    assert Reap(pid) in w'.trace[|t|..] by {
      assert w'.trace[|t|..][|w.trace| - |t|] == t1[|w.trace|];
    }
    forall p | Reap(p) in w.trace[|t|..]
      ensures Reap(p) in w'.trace[|t|..]
    {
      var k :| 0 <= k < |w.trace[|t|..]| && w.trace[|t|..][k] == Reap(p);
      assert w'.trace[|t|..][k] == w.trace[|t| + k];
    }
  }

  lemma ReapAllowed(pid: nat)
    ensures Allowed(Reap(pid), Harvest)
  {
  }

  lemma PlainNoReap(a: Act)
    requires Allowed(a, Plain)
    ensures !a.Reap?
  {
  }

  lemma HarvestSkip(t: seq<Act>, children: set<nat>, dead: seq<nat>, w: World, pid: nat)
    requires Harvested(t, children, dead, w) && pid !in w.children
    ensures Harvested(t, children, dead + [pid], w)
  {
    hide Adds;
  }

  lemma HarvestNone(w: World)
    ensures Harvested(w.trace, w.children, [], w)
  {
  }

  lemma {:induction false} WaitAllHarvests(g: Reaping, dead: seq<nat>)
    ensures Harvested(g.st.w.trace, g.st.w.children, dead, WaitAll(g, dead).st.w)
  {
    hide Harvested, WaitOne, Adds;
    if dead == [] {
      HarvestNone(g.st.w);
    } else {
      var front, pid := dead[..|dead| - 1], dead[|dead| - 1];
      assert front + [pid] == dead;
      var g1 := WaitAll(g, front);
      WaitAllHarvests(g, front);
      WaitOneAdds(g1, pid);
      if pid in g1.st.w.children {
        HarvestNext(g.st.w.trace, g.st.w.children, front, g1.st.w, pid, WaitOne(g1, pid).st.w);
      } else {
        HarvestSkip(g.st.w.trace, g.st.w.children, front, g1.st.w, pid);
      }
    }
  }

  /** Every child reported was reaped, and nothing else. */
  ghost predicate Gathered(t: seq<Act>, children: set<nat>, dead: seq<nat>, t': seq<Act>) {
    && Adds(t, t', Harvest)
    && (forall k :: |t| <= k < |t'| && t'[k].Reap? ==> t'[k].pid in dead)
    && (forall pid :: pid in children && pid in dead ==> Reap(pid) in t'[|t|..])
  }

  lemma GatheredMore(t: seq<Act>, children: set<nat>, dead: seq<nat>, w: World, t': seq<Act>)
    requires Harvested(t, children, dead, w) && Adds(w.trace, t', Plain)
    ensures Gathered(t, children, dead, t')
  {
    hide Allowed;
    AddsWider(w.trace, t', Harvest);
    AddsTwice(t, w.trace, t', Harvest);
    forall k | |t| <= k < |t'| && t'[k].Reap?
      ensures t'[k].pid in dead
    {
      if k < |w.trace| {
        assert t'[k] == w.trace[k];
      } else {
        assert Allowed(t'[k], Plain);
        PlainNoReap(t'[k]);
      }
    }
    forall pid | Reap(pid) in w.trace[|t|..]
      ensures Reap(pid) in t'[|t|..]
    {
      var k :| 0 <= k < |w.trace[|t|..]| && w.trace[|t|..][k] == Reap(pid);
      assert t'[|t|..][k] == w.trace[|t| + k];
    }
  }

  lemma WaitupGathers(st: State, dead: seq<nat>)
    ensures Gathered(st.w.trace, st.w.children, dead, Waitup(st, dead).w.trace)
  {
    hide Gathered, Harvested, WaitAll, CullFrom, Adds;
    var g := WaitAll(Reaping(st, false, false), dead);
    WaitAllHarvests(Reaping(st, false, false), dead);
    CullAdds(g.st.svs, 0, g.st.w);
    AddsNone(g.st.w.trace, Plain);
    GatheredMore(st.w.trace, st.w.children, dead, g.st.w, Waitup(st, dead).w.trace);
  }

  // ---- scanning ----

  lemma ActivateAdds(d: Dir, w: World)
    ensures Adds(w.trace, ActivateNew(d, w).1.trace, Search)
  {
    hide Run, Adds;
    var a := Activate(d.id, d.down, d.once);
    var w0 := w.Did(a);
    AddsOne(w.trace, a, Search);
    var r1 := Run(Opening(d), Log, Start, w0);
    RunAdds(Opening(d), Log, Start, w0, Search);
    AddsTwice(w.trace, w0.trace, r1.1.trace, Search);
    RunAdds(r1.0, Main, Start, r1.1, Search);
    AddsTwice(w.trace, r1.1.trace, Run(r1.0, Main, Start, r1.1).1.trace, Search);
  }

  lemma {:induction false} ScanDirsAdds(g: Scanning, dirs: seq<Dir>)
    ensures Adds(g.st.w.trace, ScanDirs(g, dirs).st.w.trace, Search)
  {
    hide Adds, ActivateNew, Lookup;
    AddsNone(g.st.w.trace, Search);
    if dirs != [] {
      var g1, d := ScanDirs(g, dirs[..|dirs| - 1]), dirs[|dirs| - 1];
      ScanDirsAdds(g, dirs[..|dirs| - 1]);
      ActivateAdds(d, g1.st.w);
      AddsTwice(g.st.w.trace, g1.st.w.trace, ActivateNew(d, g1.st.w).1.trace, Search);
    }
  }

  lemma {:induction false} DropAllAdds(svs: seq<Svdef>, w: World)
    ensures Adds(w.trace, DropAll(svs, w).w.trace, Plain)
  {
    hide Adds, Wantcull;
    AddsNone(w.trace, Plain);
    if svs != [] {
      var last := |svs| - 1;
      var g := DropAll(svs[..last], w);
      DropAllAdds(svs[..last], w);
      WantcullAdds(svs[last], g.w);
      AddsTwice(w.trace, g.w.trace, Wantcull(svs[last], g.w).1.trace, Plain);
    }
  }

  lemma SweepAdds(st: State)
    ensures var s := DropAll(st.svs, st.w);
            Adds(st.w.trace, s.w.trace, Search) && Adds(st.w.trace, Cull(State(s.svs, s.w)).w.trace, Search)
  {
    hide Adds, DropAll, CullFrom;
    var s := DropAll(st.svs, st.w);
    DropAllAdds(st.svs, st.w);
    CullAdds(s.svs, 0, s.w);
    AddsTwice(st.w.trace, s.w.trace, CullFrom(s.svs, 0, s.w).w.trace, Plain);
    AddsWider(st.w.trace, s.w.trace, Search);
    AddsWider(st.w.trace, CullFrom(s.svs, 0, s.w).w.trace, Search);
  }

  /** A scan leaves one mark, as its last act. */
  lemma ScanAdds(st: State, listing: Listing)
    ensures var t' := Scan(st, listing).w.trace;
            |st.w.trace| < |t'| && Adds(st.w.trace, t'[..|t'| - 1], Search) && ScanMark(t'[|t'| - 1])
  {
    hide Adds, ScanDirs, DropAll, Cull, Unflag;
    var t, t' := st.w.trace, Scan(st, listing).w.trace;
    AddsNone(t, Search);
    if listing.NoDir? {
      assert t'[..|t'| - 1] == t;
    } else {
      var g0 := Scanning(State(Unflag(st.svs), st.w), false);
      var g := ScanDirs(g0, listing.dirs);
      ScanDirsAdds(g0, listing.dirs);
      AddsGrows(t, g.st.w.trace, Search);
      if !listing.complete {
        assert t'[..|t'| - 1] == g.st.w.trace;
      } else {
        var s := DropAll(g.st.svs, g.st.w);
        var w := if s.ready then Cull(State(s.svs, s.w)).w else s.w;
        SweepAdds(g.st);
        AddsTwice(t, g.st.w.trace, w.trace, Search);
        AddsGrows(t, w.trace, Search);
        assert t'[..|t'| - 1] == w.trace;
      }
    }
  }

  lemma AddsGrows(t: seq<Act>, t': seq<Act>, sort: Sort)
    requires Adds(t, t', sort)
    ensures t <= t'
  {
  }

  // ---- retries and clients ----

  lemma CheckfailAdds(sv: Svdef, w: World)
    ensures Adds(w.trace, Checkfail(sv, w).1.trace, Plain)
  {
    hide Run, Adds;
    AddsNone(w.trace, Plain);
    var goal := if sv.log.isReset then Reset else Start;
    var r1 := if sv.hasLog && sv.log.failing then Run(sv, Log, goal, w) else (sv, w);
    RunAdds(sv, Log, goal, w, Plain);
    var goal' := if r1.0.main.isReset then Reset else Start;
    RunAdds(r1.0, Main, goal', r1.1, Plain);
    AddsTwice(w.trace, r1.1.trace, Run(r1.0, Main, goal', r1.1).1.trace, Plain);
  }

  lemma {:induction false} CheckfailAllAdds(svs: seq<Svdef>, w: World)
    ensures Adds(w.trace, CheckfailAll(svs, w).1.trace, Plain)
  {
    hide Adds, Checkfail;
    AddsNone(w.trace, Plain);
    if svs != [] {
      var last := |svs| - 1;
      var g := CheckfailAll(svs[..last], w);
      CheckfailAllAdds(svs[..last], w);
      CheckfailAdds(svs[last], g.1);
      AddsTwice(w.trace, g.1.trace, Checkfail(svs[last], g.1).1.trace, Plain);
    }
  }

  lemma DoKillAdds(sv: Svdef, which: Which, sig: Sig, group: bool, w: World)
    ensures Adds(w.trace, DoKill(sv, which, sig, group, w).trace, Service)
  {
  }

  lemma DownAdds(sv: Svdef, which: Which, group: bool, w: World)
    ensures Adds(w.trace, Down(sv, which, group, w).1.trace, Service)
  {
    hide Adds, DoKill;
    var sv1 := sv.Set(which, sv.Get(which).(wantDown := true));
    var w1 := w.Did(WishDown(sv.id, which));
    AddsOne(w.trace, WishDown(sv.id, which), Service);
    var w2 := DoKill(sv1, which, TERM, group, w1);
    DoKillAdds(sv1, which, TERM, group, w1);
    AddsTwice(w.trace, w1.trace, w2.trace, Service);
    var sv2 := sv1.Set(which, sv1.Get(which).(isPaused := false));
    DoKillAdds(sv2, which, CONT, group, w2);
    AddsTwice(w.trace, w2.trace, DoKill(sv2, which, CONT, group, w2).trace, Service);
  }

  lemma UpAdds(sv: Svdef, which: Which, once: bool, w: World)
    ensures Adds(w.trace, Up(sv, which, once, w).1.trace, Service)
  {
    hide Adds, Run;
    var sv1 := sv.Set(which, sv.Get(which).(isOnce := once, wantDown := false));
    var w1 := w.Did(WishUp(sv.id, which, once));
    AddsOne(w.trace, WishUp(sv.id, which, once), Service);
    RunAdds(sv1, which, Start, w1, Service);
    AddsTwice(w.trace, w1.trace, Run(sv1, which, Start, w1).1.trace, Service);
  }

  lemma ControlAdds(sv: Svdef, which: Which, cmd: char, group: bool, w: World)
    ensures Adds(w.trace, Control(sv, which, cmd, group, w).1.trace, Service)
  {
    hide Adds, DoKill, Down, Up, SignalOf;
    AddsNone(w.trace, Service);
    if cmd == 'D' && which.Main? {
      var r1 := Down(sv, Main, group, w);
      DownAdds(sv, Main, group, w);
      DownAdds(r1.0, Log, group, r1.1);
      AddsTwice(w.trace, r1.1.trace, Down(r1.0, Log, group, r1.1).1.trace, Service);
    } else if cmd == 'U' && which.Main? {
      var r1 := Up(sv, Log, false, w);
      UpAdds(sv, Log, false, w);
      UpAdds(r1.0, Main, false, r1.1);
      AddsTwice(w.trace, r1.1.trace, Up(r1.0, Main, false, r1.1).1.trace, Service);
    } else if cmd == 'c' {
      DoKillAdds(sv.Set(which, sv.Get(which).(isPaused := false)), which, CONT, group, w);
    } else if cmd == 'd' {
      DownAdds(sv, which, group, w);
    } else if cmd == 'o' {
      UpAdds(sv, which, true, w);
    } else if cmd == 'u' {
      UpAdds(sv, which, false, w);
    } else if cmd == 'p' {
      DoKillAdds(sv.Set(which, sv.Get(which).(isPaused := true)), which, STOP, group, w);
    } else if SignalOf(cmd) != [] {
      DoKillAdds(sv, which, SignalOf(cmd)[0], group, w);
    }
  }

  /** Requests served one after the other. */
  function ServeAll(st: State, requests: seq<Request>): State {
    if requests == [] then st else Serve(ServeAll(st, requests[..|requests| - 1]), requests[|requests| - 1]).0
  }

  lemma {:induction false} ServeAllAdds(st: State, requests: seq<Request>)
    ensures Adds(st.w.trace, ServeAll(st, requests).w.trace, Service)
    ensures ServeAll(st, requests).w.terminating == st.w.terminating
  {
    hide Adds, Control, Lookup;
    AddsNone(st.w.trace, Service);
    if requests != [] {
      var last := |requests| - 1;
      var st1, q := ServeAll(st, requests[..last]), requests[last];
      ServeAllAdds(st, requests[..last]);
      ServeFlags(st1, q);
      var i := Lookup(st1.svs, q.id);
      if i < |st1.svs| && !st1.svs[i].cull {
        ControlAdds(st1.svs[i], q.which, q.cmd, q.group, st1.w);
        AddsTwice(st.w.trace, st1.w.trace, Serve(st1, q).0.w.trace, Service);
      }
    }
  }

  lemma {:induction false} ClientsServe(st: State, requests: seq<Request>)
    requires !st.w.terminating
    ensures Steps(st, Clients(requests)) == ServeAll(st, requests)
  {
    hide Step, Steps, Serve, Clients;
    if requests == [] {
      ClientsEnds(requests);
      StepsNone(st);
      assert requests[..0] == requests;
    } else {
      var last := |requests| - 1;
      var front := requests[..last];
      ClientsServe(st, front);
      ClientsAppend(st, [], requests, last);
      assert [] + Clients(front) == Clients(front) && [] + Clients(requests) == Clients(requests);
      assert requests[..last + 1] == requests;
      ServeAllAdds(st, front);
      ServeStep(ServeAll(st, front), requests[last]);
    }
  }

  // ---- the turn ----

  /** What has to scan: a scan pending or asked for, or the timer. */
  predicate ScanWanted(w: World, p: Poll) {
    w.flagHup || p.hup || p.timer
  }

  /** Every child reported is reaped, no other, and before position a. */
  ghost predicate ReapsFirst(st: State, p: Poll, t': seq<Act>, a: nat) {
    var t := st.w.trace;
    && |t| <= a <= |t'|
    && (forall k :: |t| <= k < |t'| && t'[k].Reap? ==> k < a && p.chld && t'[k].pid in p.dead)
    && (p.chld ==> forall pid :: pid in st.w.children && pid in p.dead ==> Reap(pid) in t'[|t|..a])
  }

  /** At most one scan, from a to b, if there is reason to, and certainly if it was asked for. */
  ghost predicate ScansNext(st: State, p: Poll, w': World, a: nat, b: nat) {
    var t, t' := st.w.trace, w'.trace;
    && |t| <= a <= b <= |t'|
    && (forall k :: |t| <= k < |t'| && ScanMark(t'[k]) ==> a < b && k == b - 1)
    && (a < b ==> ScanMark(t'[b - 1]) && !w'.terminating && (ScanWanted(st.w, p) || p.chld))
    && (ScanWanted(st.w, p) && !w'.terminating ==> a < b)
    && (forall k :: |t| <= k < |t'| && t'[k].Activate? ==> a <= k < b)
  }

  /** At most one round of retries, from b to c, and certainly if something was failing. */
  ghost predicate RetriesNext(st: State, w': World, b: nat, c: nat) {
    var t, t' := st.w.trace, w'.trace;
    && |t| <= b <= c <= |t'|
    && (forall k :: |t| <= k < |t'| && t'[k].Retried? ==> b < c && k == b)
    && (b < c ==> t'[b].Retried? && !w'.terminating)
    && (st.w.flagFailing && !w'.terminating ==> b < c)
  }

  /** The requests are served after the retries, unless something still fails or the daemon is
      terminating, and only they have wishes. */
  ghost predicate ServesLast(st: State, p: Poll, s3: State, st': State) {
    var t, t' := st.w.trace, st'.w.trace;
    && |t| <= |s3.w.trace| <= |t'|
    && (forall k :: |t| <= k < |t'| && Wish(t'[k]) ==> |s3.w.trace| <= k)
    && st' == if s3.w.flagFailing || s3.w.terminating then s3 else ServeAll(s3, p.requests)
  }

  /** What a turn does, with the states after reaping, after the scan and after the retries. Termination
      begins exactly with SIGTERM, and the new part of the history falls into reaping, scanning what the
      poll found, retrying and serving, in this order. */
  ghost predicate TurnParts(st: State, p: Poll, s1: State, s2: State, s3: State, st': State) {
    var a, b, c := |s1.w.trace|, |s2.w.trace|, |s3.w.trace|;
    && st.w.trace <= s1.w.trace <= s2.w.trace <= s3.w.trace <= st'.w.trace
    && (st'.w.terminating <==> st.w.terminating || p.term)
    && ReapsFirst(st, p, st'.w.trace, a)
    && ScansNext(st, p, st'.w, a, b)
    && s2 == (if a < b then Scan(State(s1.svs, s1.w.(flagHup := false)), p.listing) else s1)
    && RetriesNext(st, st'.w, b, c)
    && s3 == (if b < c then Retry(s2) else s2)
    && ServesLast(st, p, s3, st')
  }

  ghost predicate TurnDoes(st: State, p: Poll, st': State) {
    exists s1, s2, s3 :: TurnParts(st, p, s1, s2, s3, st')
  }

  /** The signals and the reaping. */
  ghost predicate Signalled(st: State, p: Poll, s1: State) {
    var t, t1 := st.w.trace, s1.w.trace;
    && Adds(t, t1, Harvest)
    && (forall k :: |t| <= k < |t1| && t1[k].Reap? ==> p.chld && t1[k].pid in p.dead)
    && (p.chld ==> forall pid :: pid in st.w.children && pid in p.dead ==> Reap(pid) in t1[|t|..])
    && (s1.w.terminating <==> st.w.terminating || p.term)
    && (st.w.flagFailing ==> s1.w.flagFailing)
    && ((st.w.flagHup || p.hup) && !s1.w.terminating ==> s1.w.flagHup)
    && (s1.w.flagHup ==> !s1.w.terminating && (st.w.flagHup || p.hup || p.chld))
  }

  lemma SignalsSteps(st: State, p: Poll)
    ensures var s := if p.hup then State(st.svs, TriggerScan(st.w)) else st;
            var s' := if p.term && !s.w.terminating then Terminate(s) else s;
            Steps(st, Signals(p)) == if p.chld then Waitup(s', p.dead) else s'
  {
    hide Step, Steps, Waitup, Terminate, TriggerScan;
    var es: seq<Event> := if p.hup then [SigHup] else [];
    StepsNone(st);
    StepIs(st, p.dead, p.listing);
    StepsAppend(st, [], SigHup);
    assert [] + [SigHup] == [SigHup];
    var s := Steps(st, es);
    StepIs(s, p.dead, p.listing);
    StepsAppend(st, es, SigTerm);
    var es1 := if p.term then es + [SigTerm] else es;
    StepIs(Steps(st, es1), p.dead, p.listing);
    StepsAppend(st, es1, Chld(p.dead));
  }

  /** Hangup and termination, before the reaping. */
  lemma BeforeReaping(st: State, p: Poll)
    requires TableInv(st) && Orderly(st.w)
    ensures var s := if p.hup then State(st.svs, TriggerScan(st.w)) else st;
            var s' := if p.term && !s.w.terminating then Terminate(s) else s;
            && TableInv(s') && Orderly(s'.w) && Adds(st.w.trace, s'.w.trace, Plain) && s'.w.children == st.w.children
            && (s'.w.terminating <==> st.w.terminating || p.term) && (st.w.flagFailing ==> s'.w.flagFailing)
            && (!s'.w.terminating ==> s'.w.flagHup == (st.w.flagHup || p.hup))
  {
    hide Terminate, TableInv, Adds;
    AddsNone(st.w.trace, Plain);
    var s := if p.hup then State(st.svs, TriggerScan(st.w)) else st;
    assert TableInv(s) by { StepInv(st, SigHup); }
    TerminateFlags(s);
    TerminateAdds(s);
    StepInv(s, SigTerm);
  }

  lemma SignalsDo(st: State, p: Poll)
    requires TableInv(st) && Orderly(st.w)
    ensures Signalled(st, p, Steps(st, Signals(p)))
  {
    hide Step, Steps, Signals, Waitup, Terminate, TriggerScan, TableInv, Allowed;
    var s := if p.hup then State(st.svs, TriggerScan(st.w)) else st;
    var s' := if p.term && !s.w.terminating then Terminate(s) else s;
    SignalsSteps(st, p);
    BeforeReaping(st, p);
    AddsWider(st.w.trace, s'.w.trace, Harvest);
    forall k | |st.w.trace| <= k < |s'.w.trace|
      ensures !s'.w.trace[k].Reap?
    {
      assert Allowed(s'.w.trace[k], Plain);
      PlainNoReap(s'.w.trace[k]);
    }
    if p.chld {
      WaitupGathers(s', p.dead);
      WaitupFlags(s', p.dead);
      GatheredAfter(st.w.trace, s'.w.trace, st.w.children, p.dead, Waitup(s', p.dead).w.trace);
    }
  }

  lemma GatheredAfter(t: seq<Act>, t0: seq<Act>, children: set<nat>, dead: seq<nat>, t': seq<Act>)
    requires Adds(t, t0, Harvest) && Gathered(t0, children, dead, t')
    requires forall k :: |t| <= k < |t0| ==> !t0[k].Reap?
    ensures Gathered(t, children, dead, t')
  {
    hide Allowed;
    AddsTwice(t, t0, t', Harvest);
    assert forall k :: |t| <= k < |t0| ==> t'[k] == t0[k];
    forall pid | Reap(pid) in t'[|t0|..]
      ensures Reap(pid) in t'[|t|..]
    {
      var k :| 0 <= k < |t'[|t0|..]| && t'[|t0|..][k] == Reap(pid);
      assert t'[|t|..][k + |t0| - |t|] == Reap(pid);
    }
  }

  /** Which acts lie where. */
  lemma Segments(t: seq<Act>, t1: seq<Act>, t2: seq<Act>, t3: seq<Act>, t4: seq<Act>, k: nat)
    requires Adds(t, t1, Harvest) && t1 <= t2 <= t3 && Adds(t3, t4, Service)
    requires |t1| < |t2| ==> Adds(t1, t2[..|t2| - 1], Search) && ScanMark(t2[|t2| - 1])
    requires |t2| < |t3| ==> t3[|t2|].Retried? && Adds(t2 + [Retried], t3, Plain)
    requires |t| <= k < |t4|
    ensures t4[k].Reap? ==> k < |t1| && t4[k] == t1[k]
    ensures ScanMark(t4[k]) ==> |t1| < |t2| && k == |t2| - 1
    ensures t4[k].Activate? ==> |t1| <= k < |t2|
    ensures t4[k].Retried? ==> |t2| < |t3| && k == |t2|
    ensures Wish(t4[k]) ==> |t3| <= k
  {
    if k < |t1| {
      assert t4[k] == t1[k] && Allowed(t1[k], Harvest);
    } else if k < |t2| - 1 {
      assert t4[k] == t2[..|t2| - 1][k] && Allowed(t2[..|t2| - 1][k], Search);
    } else if k == |t2| - 1 {
      assert t4[k] == t2[k];
    } else if k == |t2| < |t3| {
      assert t4[k] == t3[k];
    } else if k < |t3| {
      assert t4[k] == t3[k] && Allowed(t3[k], Plain);
    } else {
      assert Allowed(t4[k], Service);
    }
  }

  lemma RetryAdds(st: State)
    ensures var t, t' := st.w.trace, Retry(st).w.trace;
            |t| < |t'| && t <= t' && t'[|t|] == Retried && Adds(t + [Retried], t', Plain)
  {
    hide CheckfailAll, Allowed;
    CheckfailAllAdds(st.svs, st.w.(flagFailing := false).Did(Retried));
  }

  /** The four parts of a turn, as they follow each other. */
  ghost predicate Linked(st: State, p: Poll, s1: State, s2: State, s3: State, s4: State) {
    var t1, t2, t3, t4 := s1.w.trace, s2.w.trace, s3.w.trace, s4.w.trace;
    && Signalled(st, p, s1)
    && t1 <= t2 <= t3 && Adds(t3, t4, Service)
    && (|t1| < |t2| <==> s1.w.flagHup || (p.timer && !s1.w.terminating))
    && (|t1| < |t2| ==> Adds(t1, t2[..|t2| - 1], Search) && ScanMark(t2[|t2| - 1]))
    && (|t2| < |t3| <==> s2.w.flagFailing && !s2.w.terminating)
    && (|t2| < |t3| ==> t3[|t2|].Retried? && Adds(t2 + [Retried], t3, Plain))
    && s1.w.terminating == s2.w.terminating == s3.w.terminating == s4.w.terminating
    && (s1.w.flagFailing ==> s2.w.flagFailing)
    && s2 == (if |t1| < |t2| then Scan(State(s1.svs, s1.w.(flagHup := false)), p.listing) else s1)
    && s3 == (if |t2| < |t3| then Retry(s2) else s2)
    && s4 == if s3.w.flagFailing || s3.w.terminating then s3 else ServeAll(s3, p.requests)
  }

  ghost predicate Placed(t: seq<Act>, t1: seq<Act>, t2: seq<Act>, t3: seq<Act>, t4: seq<Act>) {
    forall k :: |t| <= k < |t4| ==>
      && (t4[k].Reap? ==> k < |t1| && t4[k] == t1[k])
      && (ScanMark(t4[k]) ==> |t1| < |t2| && k == |t2| - 1)
      && (t4[k].Activate? ==> |t1| <= k < |t2|)
      && (t4[k].Retried? ==> |t2| < |t3| && k == |t2|)
      && (Wish(t4[k]) ==> |t3| <= k)
  }

  lemma LinkedPlaced(st: State, p: Poll, s1: State, s2: State, s3: State, s4: State)
    requires Linked(st, p, s1, s2, s3, s4)
    ensures Placed(st.w.trace, s1.w.trace, s2.w.trace, s3.w.trace, s4.w.trace)
    ensures st.w.trace <= s1.w.trace <= s2.w.trace <= s3.w.trace <= s4.w.trace
  {
    hide Allowed, ServeAll, ScanMark, Wish, Scan, Retry;
    var t, t1, t2, t3, t4 := st.w.trace, s1.w.trace, s2.w.trace, s3.w.trace, s4.w.trace;
    forall k | |t| <= k < |t4|
      ensures t4[k].Reap? ==> k < |t1| && t4[k] == t1[k]
      ensures ScanMark(t4[k]) ==> |t1| < |t2| && k == |t2| - 1
      ensures t4[k].Activate? ==> |t1| <= k < |t2|
      ensures t4[k].Retried? ==> |t2| < |t3| && k == |t2|
      ensures Wish(t4[k]) ==> |t3| <= k
    {
      Segments(t, t1, t2, t3, t4, k);
    }
  }

  lemma LinkedReaps(st: State, p: Poll, t1: seq<Act>, t2: seq<Act>, t3: seq<Act>, s1: State, t': seq<Act>)
    requires Signalled(st, p, s1) && t1 == s1.w.trace && t1 <= t' && Placed(st.w.trace, t1, t2, t3, t')
    ensures ReapsFirst(st, p, t', |t1|)
  {
    hide Allowed, ScanMark, Wish;
    assert t'[|st.w.trace|..|t1|] == t1[|st.w.trace|..];
  }

  lemma LinkedScans(st: State, p: Poll, s1: State, s2: State, s3: State, s4: State)
    requires Linked(st, p, s1, s2, s3, s4) && s2.w.trace <= s4.w.trace
    requires Placed(st.w.trace, s1.w.trace, s2.w.trace, s3.w.trace, s4.w.trace)
    ensures ScansNext(st, p, s4.w, |s1.w.trace|, |s2.w.trace|)
    ensures RetriesNext(st, s4.w, |s2.w.trace|, |s3.w.trace|)
  {
    hide Allowed, ScanMark, Wish, ServeAll, Scan, Retry;
    var t1, t2, t3, t4 := s1.w.trace, s2.w.trace, s3.w.trace, s4.w.trace;
    assert |t1| < |t2| ==> t4[|t2| - 1] == t2[|t2| - 1];
    assert |t2| < |t3| ==> t4[|t2|] == t3[|t2|];
  }

  lemma LinkedServes(st: State, p: Poll, s3: State, s4: State, t1: seq<Act>, t2: seq<Act>)
    requires st.w.trace <= s3.w.trace <= s4.w.trace && Placed(st.w.trace, t1, t2, s3.w.trace, s4.w.trace)
    requires s4 == if s3.w.flagFailing || s3.w.terminating then s3 else ServeAll(s3, p.requests)
    ensures ServesLast(st, p, s3, s4)
  {
    hide ServeAll, ScanMark, Wish;
  }

  lemma TurnIs(st: State, p: Poll, s1: State, s2: State, s3: State, s4: State)
    requires Linked(st, p, s1, s2, s3, s4)
    ensures TurnDoes(st, p, s4)
  {
    hide Adds, ServeAll, ScanMark, Placed, ReapsFirst, ScansNext, RetriesNext, ServesLast, Scan, Retry;
    LinkedPlaced(st, p, s1, s2, s3, s4);
    LinkedReaps(st, p, s1.w.trace, s2.w.trace, s3.w.trace, s1, s4.w.trace);
    LinkedScans(st, p, s1, s2, s3, s4);
    LinkedServes(st, p, s3, s4, s1.w.trace, s2.w.trace);
    assert TurnParts(st, p, s1, s2, s3, s4);
  }

  lemma ScriptSteps(st: State, p: Poll)
    requires TableInv(st) && Orderly(st.w)
    ensures var s3 := Steps(st, RetryScript(st, p));
            Steps(st, Script(st, p)) == if s3.w.flagFailing || s3.w.terminating then s3 else ServeAll(s3, p.requests)
  {
    hide Steps, RetryScript, TableInv, Clients;
    var s3 := Steps(st, RetryScript(st, p));
    StepsConcat(st, RetryScript(st, p), Clients(p.requests));
    if !s3.w.terminating {
      ClientsServe(s3, p.requests);
    }
  }

  /** What the events of a turn do. */
  lemma ScriptDoes(st: State, p: Poll)
    requires TableInv(st) && Orderly(st.w)
    ensures TurnDoes(st, p, Steps(st, Script(st, p)))
  {
    hide Step, Steps, Signals, Script, RetryScript, ScanScript, Scan, Retry, TableInv, TurnDoes, ScanMark, ServeAll, Adds, Orderly;
    var s1, s2 := Steps(st, Signals(p)), Steps(st, ScanScript(st, p));
    var s3, s4 := Steps(st, RetryScript(st, p)), Steps(st, Script(st, p));
    SignalsDo(st, p);
    ScanScriptSteps(st, p);
    StepIs(s1, p.dead, p.listing);
    var s1' := State(s1.svs, s1.w.(flagHup := false));
    ScanAdds(s1', p.listing);
    ScanFlags(s1', p.listing);
    RetryScriptSteps(st, p);
    StepIs(s2, p.dead, p.listing);
    RetryAdds(s2);
    RetryKeeps(st, p);
    ScriptSteps(st, p);
    ServeAllAdds(s3, p.requests);
    AddsNone(s3.w.trace, Service);
    if |s1.w.trace| < |s2.w.trace| {
      AddsGrows(s1.w.trace, s2.w.trace[..|s2.w.trace| - 1], Search);
    }
    TurnIs(st, p, s1, s2, s3, s4);
  }

  /** The first turn scans, unless it is to terminate. */
  lemma FirstTurnScans(answers: seq<Answer>, p: Poll, st': State)
    requires TurnDoes(Init(answers), p, st') && !p.term
    ensures exists k :: 0 <= k < |st'.w.trace| && ScanMark(st'.w.trace[k])
  {
    hide ScanMark, ReapsFirst, RetriesNext, ServesLast, Scan, Retry;
    var s1, s2, s3 :| TurnParts(Init(answers), p, s1, s2, s3, st');
    assert ScanMark(st'.w.trace[|s2.w.trace| - 1]);
  }
}
