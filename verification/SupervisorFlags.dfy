/** The pending flags over whole runs: only SIGTERM begins termination, and a terminating daemon has no
    scan pending. */
module SupervisorFlags {
  import opened Tain
  import opened Supervisor
  import opened SupervisorTable
  import opened SupervisorHistory
  import opened SupervisorRuns

  predicate Orderly(w: World) {
    w.terminating ==> !w.flagHup
  }

  predicate SameFlags(w: World, w': World) {
    w'.flagHup == w.flagHup && w'.terminating == w.terminating && (w.flagFailing ==> w'.flagFailing)
  }

  lemma {:induction false} WaitAllFlags(g: Reaping, dead: seq<nat>)
    requires TableInv(g.st)
    ensures SameFlags(g.st.w, WaitAll(g, dead).st.w)
  {
    hide TableInv, WaitOne;
    if dead != [] {
      WaitAllFlags(g, dead[..|dead| - 1]);
      WaitAllInv(g, dead[..|dead| - 1]);
      WaitOneMono(WaitAll(g, dead[..|dead| - 1]), dead[|dead| - 1]);
    }
  }

  lemma {:induction false} DropAllFlags(svs: seq<Svdef>, w: World)
    ensures SameFlags(w, DropAll(svs, w).w)
  {
    hide DropOne, Lawful;
    if svs != [] {
      var last := |svs| - 1;
      DropAllFlags(svs[..last], w);
      var g := DropAll(svs[..last], w);
      var r := DropOne(svs[last], g.w);
      DropOneLawful(svs[last], g.w);
      LawfulId(svs[last], g.w, r.0, r.1);
    }
  }

  lemma {:induction false} WantcullAllFlags(svs: seq<Svdef>, w: World)
    ensures SameFlags(w, WantcullAll(svs, w).w)
  {
    hide Wantcull, Lawful;
    if svs != [] {
      var last := |svs| - 1;
      WantcullAllFlags(svs[..last], w);
      var g := WantcullAll(svs[..last], w);
      var r := Wantcull(svs[last], g.w);
      WantcullLawful(svs[last], g.w);
      LawfulId(svs[last], g.w, r.0, r.1);
    }
  }

  lemma {:induction false} CheckfailAllFlags(svs: seq<Svdef>, w: World)
    ensures SameFlags(w, CheckfailAll(svs, w).1)
  {
    hide Checkfail, Lawful;
    if svs != [] {
      var last := |svs| - 1;
      CheckfailAllFlags(svs[..last], w);
      var g := CheckfailAll(svs[..last], w);
      var r := Checkfail(svs[last], g.1);
      CheckfailLawful(svs[last], g.1);
      LawfulId(svs[last], g.1, r.0, r.1);
    }
  }

  lemma {:induction false} ScanDirsFlags(g: Scanning, dirs: seq<Dir>)
    ensures SameFlags(g.st.w, ScanDirs(g, dirs).st.w)
  {
    hide ScanOne, Owed;
    if dirs != [] {
      ScanDirsFlags(g, dirs[..|dirs| - 1]);
      ScanOneCalm(ScanDirs(g, dirs[..|dirs| - 1]), dirs[|dirs| - 1]);
    }
  }

  lemma ScanFlags(st: State, listing: Listing)
    ensures var w := Scan(st, listing).w; w.terminating == st.w.terminating && (st.w.flagFailing ==> w.flagFailing)
  {
    hide ScanDirs, DropAll, CullFrom, Unflag;
    if listing.Listing? {
      var g0 := Scanning(State(Unflag(st.svs), st.w), false);
      var g := ScanDirs(g0, listing.dirs);
      ScanDirsFlags(g0, listing.dirs);
      DropAllFlags(g.st.svs, g.st.w);
      var s := DropAll(g.st.svs, g.st.w);
      CullFlags(s.svs, 0, s.w);
    }
  }

  lemma WaitupFlags(st: State, dead: seq<nat>)
    requires TableInv(st) && Orderly(st.w)
    ensures var w := Waitup(st, dead).w;
            && w.terminating == st.w.terminating && Orderly(w) && (st.w.flagFailing ==> w.flagFailing)
            && (st.w.flagHup ==> w.flagHup)
  {
    hide TableInv, WaitAll, CullFrom;
    WaitAllFlags(Reaping(st, false, false), dead);
    var g := WaitAll(Reaping(st, false, false), dead);
    CullFlags(g.st.svs, 0, g.st.w);
  }

  lemma TerminateFlags(st: State)
    ensures var w := Terminate(st).w; w.terminating && Orderly(w) && (st.w.flagFailing ==> w.flagFailing)
  {
    hide WantcullAll, CullFrom;
    var w := st.w.(terminating := true, flagHup := false);
    WantcullAllFlags(st.svs, w);
    var s := WantcullAll(st.svs, w);
    CullFlags(s.svs, 0, s.w);
  }

  lemma ServeFlags(st: State, q: Request)
    ensures SameFlags(st.w, Serve(st, q).0.w)
  {
    hide Control, Lawful, Lookup;
    var i := Lookup(st.svs, q.id);
    if i < |st.svs| && !st.svs[i].cull {
      var r := Control(st.svs[i], q.which, q.cmd, q.group, st.w);
      ControlLawful(st.svs[i], q.which, q.cmd, q.group, st.w);
      LawfulId(st.svs[i], st.w, r.0, r.1);
    }
  }

  lemma StepFlags(st: State, e: Event)
    requires TableInv(st) && Orderly(st.w)
    ensures var r := Step(st, e); r.w.terminating == (st.w.terminating || e.SigTerm?) && Orderly(r.w)
  {
    hide TableInv, Waitup, Scan, Terminate, Serve, CheckfailAll;
    match e
    case SigHup =>
    case SigTerm => TerminateFlags(st);
    case Chld(dead) => WaitupFlags(st, dead);
    case Rescan(listing) => ScanFlags(State(st.svs, st.w.(flagHup := false)), listing);
    case Failing => CheckfailAllFlags(st.svs, st.w.(flagFailing := false).Did(Retried));
    case Client(q) => ServeFlags(st, q);
  }

  lemma {:induction false} StepsFlags(st: State, es: seq<Event>)
    requires TableInv(st) && Orderly(st.w)
    ensures TableInv(Steps(st, es)) && Orderly(Steps(st, es).w)
  {
    hide TableInv, Step;
    if es != [] {
      StepsFlags(st, es[..|es| - 1]);
      StepInv(Steps(st, es[..|es| - 1]), es[|es| - 1]);
      StepFlags(Steps(st, es[..|es| - 1]), es[|es| - 1]);
    }
  }

  /** What a scan leaves: a mark of how it went, and a rescan pending exactly if it broke off or could not
      activate something. */
  lemma ScanPends(st: State, listing: Listing)
    requires !st.w.terminating
    ensures var w := Step(st, Rescan(listing)).w;
            && |w.trace| > 0
            && var mark := w.trace[|w.trace| - 1];
               && (if listing.NoDir? then mark == ScanLost else if !listing.complete then mark == ScanCut
                   else mark == ScanDone || mark == ScanShort)
               && (w.flagHup <==> mark == ScanCut || mark == ScanShort)
  {
    hide ScanDirs, DropAll, CullFrom, Unflag;
    var w0 := st.w.(flagHup := false);
    if listing.Listing? {
      var g0 := Scanning(State(Unflag(st.svs), w0), false);
      var g := ScanDirs(g0, listing.dirs);
      ScanDirsFlags(g0, listing.dirs);
      DropAllFlags(g.st.svs, g.st.w);
      var s := DropAll(g.st.svs, g.st.w);
      CullFlags(s.svs, 0, s.w);
    }
  }

  predicate FlagTells(w: World, w': World) {
    w'.terminating == w.terminating && w.forkFailures <= w'.forkFailures
    && (!w.terminating ==> (w'.flagFailing <==> w.flagFailing || w'.forkFailures > w.forkFailures))
  }

  lemma LaunchedTells(sv: Svdef, which: Which, goal: Goal, w: World)
    requires Forks(w)
    ensures FlagTells(w, Launched(sv, which, goal, w).1)
  {
  }

  lemma RunTells(sv: Svdef, which: Which, goal: Goal, w: World)
    ensures FlagTells(w, Run(sv, which, goal, w).1)
  {
    hide Launched, Forks, Refuses;
    if Forks(w) {
      LaunchedTells(sv, which, goal, w);
    }
  }

  lemma {:induction false} CheckfailAllTells(svs: seq<Svdef>, w: World)
    ensures FlagTells(w, CheckfailAll(svs, w).1)
  {
    hide Run;
    if svs != [] {
      var last := |svs| - 1;
      CheckfailAllTells(svs[..last], w);
      var w1 := CheckfailAll(svs[..last], w).1;
      var sv := svs[last];
      var goal := if sv.log.isReset then Reset else Start;
      var r1 := if sv.hasLog && sv.log.failing then Run(sv, Log, goal, w1) else (sv, w1);
      RunTells(sv, Log, goal, w1);
      RunTells(r1.0, Main, if r1.0.main.isReset then Reset else Start, r1.1);
    }
  }

  /** After a round of retries the failing flag tells whether one of them failed again. */
  lemma RetryTells(st: State)
    requires !st.w.terminating && st.w.flagFailing
    ensures var w := Step(st, Failing).w; w.flagFailing <==> w.forkFailures > st.w.forkFailures
  {
    hide CheckfailAll;
    CheckfailAllTells(st.svs, st.w.(flagFailing := false).Did(Retried));
  }
}
