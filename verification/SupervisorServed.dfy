/** No service is forgotten: between events every process is running, or wanted down, or waiting for a
    retry that is pending. This holds in every run, whatever forks fail. */
module SupervisorServed {
  import opened Tain
  import opened Supervisor
  import opened SupervisorTable
  import opened SupervisorHistory
  import opened SupervisorRuns
  import opened SupervisorShutdown

  function NextCutting(c: bool, a: Act): bool {
    match a
    case ScanCut => true
    case ScanDone => false
    case ScanShort => false
    case _ => c
  }

  /** A scan broke off midway and none has read the whole directory since. */
  function Cutting(trace: seq<Act>): bool {
    if trace == [] then false else NextCutting(Cutting(trace[..|trace| - 1]), trace[|trace| - 1])
  }

  /** The last round of retries came between a scan that broke off and the next that did not. */
  function Skipped(trace: seq<Act>): bool {
    if trace == [] then false else
      var front := trace[..|trace| - 1];
      if trace[|trace| - 1].Retried? then Cutting(front) else Skipped(front)
  }

  lemma CutAppend(trace: seq<Act>, a: Act)
    ensures Cutting(trace + [a]) == NextCutting(Cutting(trace), a)
    ensures Skipped(trace + [a]) == if a.Retried? then Cutting(trace) else Skipped(trace)
  {
    assert (trace + [a])[..|trace|] == trace;
  }

  lemma {:induction false} AboutKeepsCut(t: seq<Act>, t': seq<Act>, id: Id)
    requires t <= t' && forall k :: |t| <= k < |t'| ==> About(t'[k], id)
    ensures Cutting(t') == Cutting(t) && Skipped(t') == Skipped(t)
    decreases |t'|
  {
    if |t| == |t'| {
      assert t == t';
    } else {
      var last := |t'| - 1;
      assert t'[..last] + [t'[last]] == t';
      AboutKeepsCut(t, t'[..last], id);
      CutAppend(t'[..last], t'[last]);
      assert About(t'[last], id);
    }
  }

  predicate Cut(w: World) {
    Cutting(w.trace)
  }

  /** Retries are pending, or no longer made, or the last ones passed over what a scan had not reached. */
  predicate Alert(w: World) {
    w.flagFailing || w.terminating || Skipped(w.trace)
  }

  /** A process that is up, or has a reason not to be. */
  predicate Cared(s: Sub, alert: bool) {
    (s.failing ==> s.pid == 0) && (s.pid > 0 || s.wantDown || (s.failing && alert))
  }

  predicate Tended(sv: Svdef, alert: bool) {
    Cared(sv.main, alert) && (sv.hasLog ==> Cared(sv.log, alert))
  }

  /** An entry between events. */
  predicate Minded(sv: Svdef, alert: bool, cut: bool) {
    Tended(sv, alert) && (sv.active || Ending(sv) || cut)
  }

  /** Nothing less is pending, and no scan ended. */
  predicate NoLess(w: World, w': World) {
    (Alert(w) ==> Alert(w')) && Cut(w') == Cut(w)
  }

  lemma AfterNoLess(w: World, w': World, id: Id)
    requires After(w, w', id)
    ensures NoLess(w, w')
  {
    hide About, Cutting, Skipped;
    AboutKeepsCut(w.trace, w'.trace, id);
  }

  // ---- one service ----

  /** After an attempt to run it a process is cared for. */
  lemma RunCared(sv: Svdef, which: Which, goal: Goal, w: World)
    requires (which.Main? || sv.hasLog) && (sv.Get(which).failing ==> sv.Get(which).pid == 0)
    ensures var r := Run(sv, which, goal, w); Cared(r.0.Get(which), Alert(r.1))
  {
    hide Launched, Stuck, Forks, Skipped;
    StuckCared(sv, which, goal, w);
    if Forks(w) {
      LaunchedCared(sv, which, goal, w);
    }
  }

  lemma LaunchedCared(sv: Svdef, which: Which, goal: Goal, w: World)
    requires Forks(w)
    ensures var s := Launched(sv, which, goal, w).0.Get(which); s.pid > 0 && !s.failing
  {
    hide NextOk, Later, Asked;
  }

  lemma StuckCared(sv: Svdef, which: Which, goal: Goal, w: World)
    ensures var r := Stuck(sv, which, goal, w);
            && r.0.Get(which).failing && r.0.Get(which).pid == sv.Get(which).pid
            && (r.1.flagFailing || r.1.terminating)
  {
  }

  /** An attempt to run one process leaves the other as it was. */
  lemma RunTended(sv: Svdef, which: Which, goal: Goal, w: World)
    requires (which.Main? || sv.hasLog) && (sv.Get(which).failing ==> sv.Get(which).pid == 0)
    requires which.Main? && sv.hasLog ==> Cared(sv.log, Alert(w))
    requires which.Log? ==> Cared(sv.main, Alert(w))
    ensures var r := Run(sv, which, goal, w); Tended(r.0, Alert(r.1)) && (Alert(w) ==> Alert(r.1))
  {
    hide Run, Alert, Cut, After;
    RunCared(sv, which, goal, w);
    RunTold(sv, which, goal, w);
    RunWishes(sv, which, goal, w);
    AfterNoLess(w, Run(sv, which, goal, w).1, sv.id);
  }

  lemma UpTended(sv: Svdef, which: Which, once: bool, w: World)
    requires Tended(sv, Alert(w))
    ensures var r := Up(sv, which, once, w); Tended(r.0, Alert(r.1)) && r.0.active == sv.active
  {
    hide Run, Alert;
    var sv1 := sv.Set(which, sv.Get(which).(isOnce := once, wantDown := false));
    var w1 := w.Did(WishUp(sv.id, which, once));
    DidNoLess(w, WishUp(sv.id, which, once));
    RunWishes(sv1, which, Start, w1);
    if which.Main? || sv.hasLog {
      RunTended(sv1, which, Start, w1);
    } else {
      RunRefused(sv1, which, Start, w1);
    }
  }

  lemma DoKillAlert(sv: Svdef, which: Which, sig: Sig, group: bool, w: World)
    ensures NoLess(w, DoKill(sv, which, sig, group, w))
  {
    CutAppend(w.trace, Signal(sv.id, which, sig, group));
  }

  lemma ContinueTended(sv: Svdef, which: Which, group: bool, w: World)
    requires Tended(sv, Alert(w))
    ensures var r := Continue(sv, which, group, w); Tended(r.0, Alert(r.1)) && r.0.active == sv.active
  {
    hide Alert, DoKill;
    DoKillAlert(sv.Set(which, sv.Get(which).(isPaused := false)), which, CONT, group, w);
  }

  lemma WishedTended(sv: Svdef, which: Which, alert: bool)
    requires Tended(sv, alert)
    ensures Tended(sv.Set(which, sv.Get(which).(wantDown := true)), alert)
  {
  }

  lemma DownTended(sv: Svdef, which: Which, group: bool, w: World)
    requires Tended(sv, Alert(w))
    ensures var r := Down(sv, which, group, w); Tended(r.0, Alert(r.1)) && r.0.active == sv.active
  {
    hide Alert, DoKill, Continue, Tended;
    var sv1 := sv.Set(which, sv.Get(which).(wantDown := true));
    var w0 := w.Did(WishDown(sv.id, which));
    DidNoLess(w, WishDown(sv.id, which));
    var w1 := DoKill(sv1, which, TERM, group, w0);
    WishedTended(sv, which, Alert(w));
    DoKillAlert(sv1, which, TERM, group, w0);
    TendedMono(sv1, Alert(w), Alert(w1));
    TendedMono(sv1, Alert(w), Alert(w0));
    ContinueTended(sv1, which, group, w1);
    match which
    case Main =>
    case Log =>
  }

  lemma PauseTended(sv: Svdef, which: Which, group: bool, w: World)
    requires Tended(sv, Alert(w))
    ensures var r := Pause(sv, which, group, w); Tended(r.0, Alert(r.1)) && r.0.active == sv.active
  {
    hide Alert, DoKill;
    DoKillAlert(sv.Set(which, sv.Get(which).(isPaused := true)), which, STOP, group, w);
  }

  lemma ControlTended(sv: Svdef, which: Which, cmd: char, group: bool, w: World)
    requires Tended(sv, Alert(w))
    ensures var r := Control(sv, which, cmd, group, w); Tended(r.0, Alert(r.1)) && r.0.active == sv.active
  {
    hide Tended, Alert, DoKill, Continue, Down, Up, Pause, SignalOf;
    if cmd == 'D' && which.Main? {
      var r1 := Down(sv, Main, group, w);
      DownTended(sv, Main, group, w);
      DownTended(r1.0, Log, group, r1.1);
    } else if cmd == 'U' && which.Main? {
      var r1 := Up(sv, Log, false, w);
      UpTended(sv, Log, false, w);
      UpTended(r1.0, Main, false, r1.1);
    } else if cmd == 'c' {
      ContinueTended(sv, which, group, w);
    } else if cmd == 'd' {
      DownTended(sv, which, group, w);
    } else if cmd == 'o' {
      UpTended(sv, which, true, w);
    } else if cmd == 'u' {
      UpTended(sv, which, false, w);
    } else if cmd == 'p' {
      PauseTended(sv, which, group, w);
    } else if SignalOf(cmd) != [] {
      DoKillAlert(sv, which, SignalOf(cmd)[0], group, w);
      TendedMono(sv, Alert(w), Alert(DoKill(sv, which, SignalOf(cmd)[0], group, w)));
    }
  }

  lemma TendedMono(sv: Svdef, alert: bool, alert': bool)
    requires Tended(sv, alert) && (alert ==> alert')
    ensures Tended(sv, alert')
  {
  }

  lemma ReapedTended(sv: Svdef, which: Which, w: World)
    requires Tended(sv, Alert(w)) && Logless(sv) && sv.Get(which).pid > 0
    ensures var r := Reaped(sv, which, w);
            Tended(r.0, Alert(r.1)) && r.0.active == sv.active && (Ending(sv) ==> Ending(r.0))
  {
    hide Run, Alert, After, Hush;
    var sub := sv.Get(which);
    var sv1 := sv.Set(which, sub.(pid := 0, wantDown := sub.wantDown || sub.isOnce));
    RunWishes(sv1, which, Reset, w);
    RunWishes(sv1, which, Start, w);
    RunTended(sv1, which, Reset, w);
    RunTended(sv1, which, Start, w);
    HushTended(sv1, w);
  }

  lemma HushTended(sv: Svdef, w: World)
    ensures var r := Hush(sv, Log, w);
            && r.0.active == sv.active && (Ending(sv) ==> Ending(r.0))
            && (sv.main.wantDown && sv.main.pid == 0 && sv.log.pid > 0 && !sv.log.failing ==> Tended(r.0, Alert(r.1)))
  {
    hide Alert;
  }

  /** Retrying what failed: afterwards a pending retry is for something that failed again. */
  lemma CheckfailTended(sv: Svdef, w: World)
    requires Tended(sv, true) && (sv.active || Ending(sv) || Cut(w)) && (Cut(w) ==> Alert(w))
    ensures var r := Checkfail(sv, w); Minded(r.0, Alert(r.1), Cut(w))
  {
    if !sv.active {
      return;
    }
    var goal := if sv.log.isReset then Reset else Start;
    var r1 := if sv.hasLog && sv.log.failing then Run(sv, Log, goal, w) else (sv, w);
    var goal' := if r1.0.main.isReset then Reset else Start;
    var r2 := Run(r1.0, Main, goal', r1.1);
    assert Checkfail(sv, w) == if r1.0.main.failing then r2 else r1;
    hide Run, Alert, After, Checkfail, Cut;
    if sv.hasLog && sv.log.failing {
      RunCared(sv, Log, goal, w);
      RunWishes(sv, Log, goal, w);
    }
    RunWishes(r1.0, Main, goal', r1.1);
    RunTended(r1.0, Main, goal', r1.1);
  }

  lemma DropOneMinded(sv: Svdef, w: World)
    requires Tended(sv, Alert(w)) && (sv.cull ==> Ending(sv))
    ensures var r := DropOne(sv, w); Minded(r.0, Alert(r.1), false)
  {
    hide Alert, Wantcull;
    WantcullWeight(sv, w);
    WantcullPids(sv, w);
  }

  lemma WantcullPids(sv: Svdef, w: World)
    ensures var r := Wantcull(sv, w).0;
            && r.main.pid == sv.main.pid && r.main.failing == sv.main.failing && r.hasLog == sv.hasLog
            && r.log.pid == sv.log.pid && r.log.failing == sv.log.failing
  {
    hide Hush;
    var sv1 := sv.(cull := true, main := sv.main.(wantDown := true),
                   log := if sv.hasLog then sv.log.(wantDown := true) else sv.log);
    HushPids(sv1, Main, w.Did(Deactivate(sv.id)));
    HushPids(sv1, Log, w.Did(Deactivate(sv.id)));
  }

  lemma HushPids(sv: Svdef, which: Which, w: World)
    ensures var r := Hush(sv, which, w).0;
            && r.main.pid == sv.main.pid && r.main.failing == sv.main.failing && r.hasLog == sv.hasLog
            && r.log.pid == sv.log.pid && r.log.failing == sv.log.failing
  {
    assert Hush(sv, which, w).0 == sv.Set(which, sv.Get(which).(isPaused := false));
    hide Hush;
    match which
    case Main =>
    case Log =>
  }

  lemma ActivateTended(d: Dir, w: World)
    ensures var r := ActivateNew(d, w); Tended(r.0, Alert(r.1)) && !r.0.cull
  {
    var sv := Opening(d);
    var w0 := w.Did(Activate(d.id, d.down, d.once));
    var r1 := Run(sv, Log, Start, w0);
    assert ActivateNew(d, w) == if d.down then r1 else Run(r1.0, Main, Start, r1.1);
    hide Run, Alert, Cut, ActivateNew;
    RunWishes(sv, Log, Start, w0);
    if d.hasLog {
      RunCared(sv, Log, Start, w0);
    }
    RunWishes(r1.0, Main, Start, r1.1);
    RunTended(r1.0, Main, Start, r1.1);
  }

  // ---- the table ----

  ghost predicate AllTended(svs: seq<Svdef>, alert: bool) {
    forall k :: 0 <= k < |svs| ==> Tended(svs[k], alert)
  }

  /** Deactivating entries are wanted down. */
  ghost predicate AllWished(svs: seq<Svdef>) {
    forall k :: 0 <= k < |svs| ==> (svs[k].cull ==> Ending(svs[k]))
  }

  ghost predicate AllMinded(svs: seq<Svdef>, alert: bool, cut: bool) {
    && AllWished(svs)
    && forall k :: 0 <= k < |svs| ==> Minded(svs[k], alert, cut)
  }

  /** A table between events. */
  ghost predicate Sound(st: State) {
    AllMinded(st.svs, Alert(st.w), Cut(st.w))
  }

  lemma MindedMono(sv: Svdef, alert: bool, cut: bool, alert': bool, cut': bool)
    requires Minded(sv, alert, cut) && (alert ==> alert') && (cut ==> cut')
    ensures Minded(sv, alert', cut')
  {
    hide Ending;
    TendedMono(sv, alert, alert');
  }

  lemma AllMindedMono(svs: seq<Svdef>, alert: bool, cut: bool, alert': bool, cut': bool)
    requires AllMinded(svs, alert, cut) && (alert ==> alert') && (cut ==> cut')
    ensures AllMinded(svs, alert', cut')
  {
    hide Minded, Ending;
    forall k | 0 <= k < |svs|
      ensures Minded(svs[k], alert', cut')
    {
      MindedMono(svs[k], alert, cut, alert', cut');
    }
  }

  /** One entry changes for the better, the others do not notice. */
  lemma EntrySound(st: State, i: nat, sv: Svdef, w: World)
    requires Sound(st) && i < |st.svs| && NoLess(st.w, w)
    requires Minded(sv, Alert(w), Cut(w)) && (sv.cull ==> Ending(sv))
    ensures Sound(State(st.svs[i := sv], w))
  {
    hide Minded, Ending, Alert, Cut;
    AllMindedMono(st.svs, Alert(st.w), Cut(st.w), Alert(w), Cut(w));
  }

  lemma WorldSound(st: State, w: World)
    requires Sound(st) && NoLess(st.w, w)
    ensures Sound(State(st.svs, w))
  {
    hide AllMinded, Alert, Cut;
    AllMindedMono(st.svs, Alert(st.w), Cut(st.w), Alert(w), Cut(w));
  }

  /** Acts other than retries and ends of scans leave everything pending. */
  lemma DidNoLess(w: World, a: Act)
    ensures !a.Retried? ==> (Alert(w) ==> Alert(w.Did(a)))
    ensures Cut(w.Did(a)) == NextCutting(Cut(w), a)
    ensures !a.Retried? && NextCutting(Cut(w), a) == Cut(w) ==> NoLess(w, w.Did(a))
  {
    CutAppend(w.trace, a);
  }

  lemma ReapedMinded(sv: Svdef, which: Which, w: World)
    requires Minded(sv, Alert(w), Cut(w)) && (sv.cull ==> Ending(sv)) && Logless(sv) && sv.Get(which).pid > 0
    ensures var r := Reaped(sv, which, w);
            Minded(r.0, Alert(r.1), Cut(r.1)) && (r.0.cull ==> Ending(r.0)) && NoLess(w, r.1)
  {
    hide Reaped, Tended, Alert, Cut, After, Ending;
    ReapedTended(sv, which, w);
    ReapedAfter(sv, which, w);
    AfterNoLess(w, Reaped(sv, which, w).1, sv.id);
    ReapedCull(sv, which, w);
  }

  lemma ReapedCull(sv: Svdef, which: Which, w: World)
    ensures Reaped(sv, which, w).0.cull == sv.cull
  {
    hide Run;
    var sub := sv.Get(which);
    var sv1 := sv.Set(which, sub.(pid := 0, wantDown := sub.wantDown || sub.isOnce));
    RunWishes(sv1, which, Reset, w);
    RunWishes(sv1, which, Start, w);
  }

  lemma SoundAt(st: State, i: nat)
    requires Sound(st) && i < |st.svs|
    ensures Minded(st.svs[i], Alert(st.w), Cut(st.w)) && (st.svs[i].cull ==> Ending(st.svs[i]))
  {
    hide Minded, Ending, Alert, Cut;
  }

  lemma WaitOneSound(g: Reaping, pid: nat)
    requires TableInv(g.st) && Sound(g.st)
    ensures Sound(WaitOne(g, pid).st)
  {
    hide Reaped, FindPid, Minded, Sound, TableInv, NoLess, Ending, Alert, Cut;
    var w := g.st.w;
    if pid in w.children {
      ChildFound(g.st, pid);
      var (i, which) := FindPid(g.st.svs, pid);
      var w1 := w.(children := w.children - {pid}).Did(Reap(pid));
      assert NoLess(w, w1) by { ReapNoLess(w, w1, pid); }
      WorldSound(g.st, w1);
      LoglessAt(g.st, i);
      SoundAt(State(g.st.svs, w1), i);
      ReapedMinded(g.st.svs[i], which, w1);
      var r := Reaped(g.st.svs[i], which, w1);
      EntrySound(State(g.st.svs, w1), i, r.0, r.1);
    }
  }

  lemma ReapNoLess(w: World, w1: World, pid: nat)
    requires w1 == w.(children := w.children - {pid}).Did(Reap(pid))
    ensures NoLess(w, w1)
  {
    CutAppend(w.trace, Reap(pid));
  }

  lemma {:induction false} WaitAllSound(g: Reaping, dead: seq<nat>)
    requires TableInv(g.st) && Sound(g.st)
    ensures Sound(WaitAll(g, dead).st)
  {
    hide WaitOne, TableInv, Sound;
    if dead != [] {
      WaitAllSound(g, dead[..|dead| - 1]);
      WaitAllInv(g, dead[..|dead| - 1]);
      WaitOneSound(WaitAll(g, dead[..|dead| - 1]), dead[|dead| - 1]);
    }
  }

  lemma {:induction false} CullMinded(svs: seq<Svdef>, i: nat, w: World, alert: bool, cut: bool)
    requires i <= |svs| && AllMinded(svs, alert, cut)
    ensures AllMinded(CullFrom(svs, i, w).svs, alert, cut) && NoLess(w, CullFrom(svs, i, w).w)
    decreases |svs| - i
  {
    hide Minded, NoLess, Cullok, Ending;
    if i == |svs| {
      NoLessRefl(w);
    } else if Cullok(svs[i]) {
      var last := |svs| - 1;
      var a := Remove(svs[i].id, svs[i].cycle);
      DidNoLess(w, a);
      CullMinded(svs[i := svs[last]][..last], i, w.Did(a), alert, cut);
      NoLessTwice(w, w.Did(a), CullFrom(svs, i, w).w);
    } else {
      CullMinded(svs, i + 1, w, alert, cut);
    }
  }

  lemma NoLessRefl(w: World)
    ensures NoLess(w, w)
  {
  }

  lemma NoLessTwice(w: World, w1: World, w2: World)
    requires NoLess(w, w1) && NoLess(w1, w2)
    ensures NoLess(w, w2)
  {
    hide Alert, Cut;
  }

  lemma TriggerNoLess(w: World)
    ensures NoLess(w, TriggerScan(w))
  {
    hide Cutting, Skipped;
  }

  lemma CullSound(st: State)
    requires Sound(st)
    ensures Sound(Cull(st))
  {
    hide AllMinded, CullFrom, Alert, Cut;
    CullMinded(st.svs, 0, st.w, Alert(st.w), Cut(st.w));
    var r := Cull(st);
    AllMindedMono(r.svs, Alert(st.w), Cut(st.w), Alert(r.w), Cut(r.w));
  }

  lemma WaitupSound(st: State, dead: seq<nat>)
    requires TableInv(st) && Sound(st)
    ensures Sound(Waitup(st, dead))
  {
    hide Sound, NoLess, WaitAll, Cull, TriggerScan, TableInv;
    var g := WaitAll(Reaping(st, false, false), dead);
    WaitAllSound(Reaping(st, false, false), dead);
    CullSound(g.st);
    var st1 := if g.cull then Cull(g.st) else g.st;
    TriggerNoLess(st1.w);
    WorldSound(st1, TriggerScan(st1.w));
  }

  lemma ServeSound(st: State, q: Request)
    requires Sound(st)
    ensures Sound(Serve(st, q).0)
  {
    hide Minded, Sound, NoLess, Control, Lookup, Ending, Alert, Cut;
    var i := Lookup(st.svs, q.id);
    if i < |st.svs| && !st.svs[i].cull {
      var r := Control(st.svs[i], q.which, q.cmd, q.group, st.w);
      SoundAt(st, i);
      ControlMinded(st.svs[i], q.which, q.cmd, q.group, st.w);
      EntrySound(st, i, r.0, r.1);
    }
  }

  lemma ControlMinded(sv: Svdef, which: Which, cmd: char, group: bool, w: World)
    requires Minded(sv, Alert(w), Cut(w)) && !sv.cull
    ensures var r := Control(sv, which, cmd, group, w);
            Minded(r.0, Alert(r.1), Cut(r.1)) && !r.0.cull && NoLess(w, r.1)
  {
    hide Control, Tended, Alert, Cut, Lawful;
    var r := Control(sv, which, cmd, group, w);
    ControlTended(sv, which, cmd, group, w);
    ControlLawful(sv, which, cmd, group, w);
    LawfulAfter(sv, w, r.0, r.1);
    AfterNoLess(w, r.1, sv.id);
  }

  // ---- sweeps ----

  /** Deactivating is a reason for both processes, whatever is pending. */
  lemma EndingMinded(sv: Svdef, alert: bool, alert': bool, cut: bool)
    requires Ending(sv) && Tended(sv, alert)
    ensures Minded(sv, alert', cut)
  {
  }

  lemma {:induction false} WantcullAllMinded(svs: seq<Svdef>, w: World, alert: bool)
    requires AllTended(svs, true)
    ensures AllMinded(WantcullAll(svs, w).svs, alert, false)
  {
    hide Wantcull, Ending, Minded, Tended;
    if svs != [] {
      var last := |svs| - 1;
      WantcullAllMinded(svs[..last], w, alert);
      var g := WantcullAll(svs[..last], w);
      WantcullWeight(svs[last], g.w);
      WantcullTended(svs[last], g.w);
      EndingMinded(Wantcull(svs[last], g.w).0, true, alert, false);
    }
  }

  lemma WantcullTended(sv: Svdef, w: World)
    requires Tended(sv, true)
    ensures Tended(Wantcull(sv, w).0, true)
  {
    hide Wantcull;
    WantcullPids(sv, w);
    WantcullWeight(sv, w);
  }

  lemma SoundTended(st: State)
    requires Sound(st)
    ensures AllTended(st.svs, true)
  {
    hide Ending, Alert, Cut;
    forall k | 0 <= k < |st.svs|
      ensures Tended(st.svs[k], true)
    {
      assert Minded(st.svs[k], Alert(st.w), Cut(st.w));
    }
  }

  lemma TerminateSound(st: State)
    requires Sound(st)
    ensures Sound(Terminate(st))
  {
    hide WantcullAll, Cull, AllMinded, Alert, Cut, AllTended;
    var w := st.w.(terminating := true, flagHup := false);
    var s := WantcullAll(st.svs, w);
    SoundTended(st);
    WantcullAllMinded(st.svs, w, Alert(s.w));
    AllMindedMono(s.svs, Alert(s.w), false, Alert(s.w), Cut(s.w));
    CullSound(State(s.svs, s.w));
  }

  lemma {:induction false} DropAllMinded(svs: seq<Svdef>, w: World)
    requires AllTended(svs, Alert(w)) && AllWished(svs)
    ensures var g := DropAll(svs, w); AllMinded(g.svs, Alert(g.w), false) && NoLess(w, g.w)
  {
    hide DropOne, Minded, Ending, Tended, Alert, Cut;
    if svs == [] {
      NoLessRefl(w);
    } else {
      var last := |svs| - 1;
      DropAllMinded(svs[..last], w);
      var g := DropAll(svs[..last], w);
      TendedMono(svs[last], Alert(w), Alert(g.w));
      DropOneMinded(svs[last], g.w);
      DropOneNoLess(svs[last], g.w);
      var r := DropOne(svs[last], g.w);
      AllMindedMono(g.svs, Alert(g.w), false, Alert(r.1), false);
    }
  }

  lemma DropOneNoLess(sv: Svdef, w: World)
    requires sv.cull ==> Ending(sv)
    ensures var r := DropOne(sv, w); NoLess(w, r.1) && (r.0.cull ==> Ending(r.0))
  {
    hide NoLess, Lawful, Wantcull;
    var r := DropOne(sv, w);
    DropOneLawful(sv, w);
    LawfulAfter(sv, w, r.0, r.1);
    AfterNoLess(w, r.1, sv.id);
    WantcullWeight(sv, w);
  }

  lemma {:induction false} CheckfailAllMinded(svs: seq<Svdef>, w: World)
    requires AllTended(svs, true) && AllWished(svs) && (Cut(w) ==> Alert(w))
    requires forall k :: 0 <= k < |svs| ==> svs[k].active || Ending(svs[k]) || Cut(w)
    ensures var r := CheckfailAll(svs, w); AllMinded(r.0, Alert(r.1), Cut(w)) && NoLess(w, r.1)
  {
    hide Checkfail, Minded, Ending, Tended, Cut, Alert;
    if svs == [] {
      NoLessRefl(w);
    } else {
      var last := |svs| - 1;
      CheckfailAllMinded(svs[..last], w);
      var r1 := CheckfailAll(svs[..last], w);
      CheckfailTended(svs[last], r1.1);
      CheckfailNoLess(svs[last], r1.1);
      var r := Checkfail(svs[last], r1.1);
      AllMindedMono(r1.0, Alert(r1.1), Cut(w), Alert(r.1), Cut(w));
    }
  }

  lemma CheckfailNoLess(sv: Svdef, w: World)
    requires sv.cull ==> Ending(sv)
    ensures var r := Checkfail(sv, w); NoLess(w, r.1) && (r.0.cull ==> Ending(r.0))
  {
    hide NoLess, Lawful, Checkfail;
    var r := Checkfail(sv, w);
    CheckfailLawful(sv, w);
    LawfulAfter(sv, w, r.0, r.1);
    AfterNoLess(w, r.1, sv.id);
    CheckfailWishes(sv, w);
  }

  lemma CheckfailWishes(sv: Svdef, w: World)
    ensures var r := Checkfail(sv, w); r.0.cull == sv.cull && (Ending(sv) ==> Ending(r.0))
  {
    hide Run;
    var goal := if sv.log.isReset then Reset else Start;
    var r1 := if sv.hasLog && sv.log.failing then Run(sv, Log, goal, w) else (sv, w);
    RunWishes(sv, Log, goal, w);
    RunWishes(r1.0, Main, if r1.0.main.isReset then Reset else Start, r1.1);
  }

  lemma RetrySound(st: State)
    requires Sound(st)
    ensures Sound(Retry(st))
  {
    hide CheckfailAll, Ending, Cutting, Skipped;
    var w := st.w.(flagFailing := false).Did(Retried);
    CutAppend(st.w.trace, Retried);
    forall k | 0 <= k < |st.svs|
      ensures Tended(st.svs[k], true) && (st.svs[k].active || Ending(st.svs[k]) || Cut(w))
    {
      assert Minded(st.svs[k], Alert(st.w), Cut(st.w));
      TendedMono(st.svs[k], Alert(st.w), true);
    }
    CheckfailAllMinded(st.svs, w);
  }

  // ---- scans ----

  /** A table in the middle of a scan: flags of activity aside. */
  ghost predicate Half(st: State) {
    AllTended(st.svs, Alert(st.w)) && AllWished(st.svs)
  }

  lemma ScanOneHalf(g: Scanning, d: Dir)
    requires Half(g.st)
    ensures Half(ScanOne(g, d).st)
  {
    hide ActivateNew, Lookup, Alert, After;
    var svs, w := g.st.svs, g.st.w;
    ActivateTended(d, w);
    ActivateAfter(d, w);
    var r := ActivateNew(d, w);
    AfterNoLess(w, r.1, d.id);
    forall k | 0 <= k < |svs|
      ensures Tended(svs[k], Alert(r.1))
    {
      TendedMono(svs[k], Alert(w), Alert(r.1));
    }
  }

  lemma {:induction false} ScanDirsHalf(g: Scanning, dirs: seq<Dir>)
    requires Half(g.st)
    ensures Half(ScanDirs(g, dirs).st)
  {
    hide ScanOne, Half;
    if dirs != [] {
      ScanDirsHalf(g, dirs[..|dirs| - 1]);
      ScanOneHalf(ScanDirs(g, dirs[..|dirs| - 1]), dirs[|dirs| - 1]);
    }
  }

  /** A scan that breaks off excuses every entry. */
  lemma CutSound(st: State, w: World)
    requires Half(st) && Cut(w) && (Alert(st.w) ==> Alert(w))
    ensures Sound(State(st.svs, w))
  {
    hide Cut, Ending, Alert;
    forall k | 0 <= k < |st.svs|
      ensures Minded(st.svs[k], Alert(w), Cut(w))
    {
      TendedMono(st.svs[k], Alert(st.w), Alert(w));
    }
  }

  lemma UnflagHalf(st: State)
    requires Sound(st)
    ensures Half(State(Unflag(st.svs), st.w))
  {
    hide Cut, Alert;
    forall k | 0 <= k < |st.svs|
      ensures Tended(Unflag(st.svs)[k], Alert(st.w)) && (Unflag(st.svs)[k].cull ==> Ending(Unflag(st.svs)[k]))
    {
      assert Minded(st.svs[k], Alert(st.w), Cut(st.w));
    }
  }

  /** The end of a scan that read the whole directory: nothing needs an excuse. */
  lemma SweepSound(st: State, w: World, a: Act)
    requires Half(st) && (a.ScanDone? || a.ScanShort?)
    requires var s := DropAll(st.svs, st.w);
             var st2 := if s.ready then Cull(State(s.svs, s.w)) else State(s.svs, s.w);
             w == st2.w.Did(a)
    ensures var s := DropAll(st.svs, st.w);
            var st2 := if s.ready then Cull(State(s.svs, s.w)) else State(s.svs, s.w);
            Sound(State(st2.svs, w))
  {
    hide AllMinded, DropAll, CullFrom, Alert, Cut, AllTended, AllWished;
    DropAllMinded(st.svs, st.w);
    var s := DropAll(st.svs, st.w);
    CullMinded(s.svs, 0, s.w, Alert(s.w), false);
    var st2 := if s.ready then Cull(State(s.svs, s.w)) else State(s.svs, s.w);
    DidNoLess(st2.w, a);
    AllMindedMono(st2.svs, Alert(s.w), false, Alert(w), Cut(w));
  }

  lemma ScanSound(st: State, listing: Listing)
    requires Sound(st)
    ensures Sound(Scan(st, listing))
  {
    hide Sound, Half, NoLess, ScanDirs, DropAll, Cull, Unflag, TriggerScan, Alert, Cut;
    if listing.NoDir? {
      DidNoLess(st.w, ScanLost);
      WorldSound(st, st.w.Did(ScanLost));
    } else {
      UnflagHalf(st);
      var g0 := Scanning(State(Unflag(st.svs), st.w), false);
      var g := ScanDirs(g0, listing.dirs);
      ScanDirsHalf(g0, listing.dirs);
      if !listing.complete {
        var w := g.st.w.Did(ScanCut);
        DidNoLess(g.st.w, ScanCut);
        CutSound(g.st, w);
        TriggerNoLess(w);
        WorldSound(State(g.st.svs, w), TriggerScan(w));
      } else {
        var s := DropAll(g.st.svs, g.st.w);
        var st2 := if s.ready then Cull(State(s.svs, s.w)) else State(s.svs, s.w);
        SweepSound(g.st, st2.w.Did(ScanDone), ScanDone);
        SweepSound(g.st, st2.w.Did(ScanShort), ScanShort);
        TriggerNoLess(st2.w.Did(ScanShort));
        WorldSound(State(st2.svs, st2.w.Did(ScanShort)), TriggerScan(st2.w.Did(ScanShort)));
      }
    }
  }

  // ---- every run ----

  lemma StepSound(st: State, e: Event)
    requires TableInv(st) && Sound(st)
    ensures Sound(Step(st, e))
  {
    hide TableInv, Sound, NoLess, Waitup, Scan, Terminate, Retry, Serve, TriggerScan;
    match e
    case SigHup =>
      TriggerNoLess(st.w);
      WorldSound(st, TriggerScan(st.w));
    case SigTerm => TerminateSound(st);
    case Chld(dead) => WaitupSound(st, dead);
    case Rescan(listing) =>
      var w := st.w.(flagHup := false);
      assert NoLess(st.w, w) by { UnhupNoLess(st.w); }
      WorldSound(st, w);
      ScanSound(State(st.svs, w), listing);
    case Failing => RetrySound(st);
    case Client(q) => ServeSound(st, q);
  }

  lemma UnhupNoLess(w: World)
    ensures NoLess(w, w.(flagHup := false))
  {
    hide Cutting, Skipped;
  }

  lemma {:induction false} RunsSound(answers: seq<Answer>, es: seq<Event>)
    ensures Sound(Steps(Init(answers), es))
  {
    hide TableInv, Sound, Step, Init;
    if es == [] {
      assert Sound(Init(answers)) by { InitSound(answers); }
    } else {
      var es', e := es[..|es| - 1], es[|es| - 1];
      RunsSound(answers, es');
      RunsAccounted(answers, es');
      StepSound(Steps(Init(answers), es'), e);
    }
  }

  lemma InitSound(answers: seq<Answer>)
    ensures Sound(Init(answers))
  {
  }

  /** Between events of any run every process a service has is running, or wanted down, or failing;
      and for one that is failing a retry is pending, unless the daemon is terminating or the last
      round of retries came between a scan that broke off and the next that did not. */
  lemma RunsServed(answers: seq<Answer>, es: seq<Event>, i: nat, which: Which)
    requires i < |Steps(Init(answers), es).svs| && (which.Main? || Steps(Init(answers), es).svs[i].hasLog)
    ensures var st := Steps(Init(answers), es);
            var sub := st.svs[i].Get(which);
            || sub.pid > 0
            || sub.wantDown
            || (sub.failing && (st.w.flagFailing || st.w.terminating || Skipped(st.w.trace)))
  {
    hide Steps, Init, Skipped, Cutting;
    RunsSound(answers, es);
    assert Minded(Steps(Init(answers), es).svs[i], Alert(Steps(Init(answers), es).w), Cut(Steps(Init(answers), es).w));
  }

  // ---- whom a retry reaches ----

  /** An attempt to launch a process for a goal. */
  predicate Attempt(a: Act, id: Id, which: Which, goal: Goal) {
    || (a.Launch? && a.id == id && a.which == which && a.goal == goal)
    || (a.ForkFailed? && a.id == id && a.which == which && a.goal == goal)
  }

  /** An attempt between two points of the history. */
  ghost predicate Attempted(t: seq<Act>, t': seq<Act>, id: Id, which: Which, goal: Goal) {
    exists k :: |t| <= k < |t'| && Attempt(t'[k], id, which, goal)
  }

  /** What the process was last to be launched for. */
  function LastGoal(s: Sub): Goal {
    if s.isReset then Reset else Start
  }

  lemma LaunchAttempts(sv: Svdef, which: Which, goal: Goal, w: World)
    requires !Refuses(sv, which)
    ensures var w' := Run(sv, which, goal, w).1;
            |w'.trace| == |w.trace| + 1 && w.trace <= w'.trace && Attempt(w'.trace[|w.trace|], sv.id, which, goal)
  {
    hide Launched, Stuck, Forks, Attempt;
    StuckAttempts(sv, which, goal, w);
    if Forks(w) {
      LaunchedAttempts(sv, which, goal, w);
    }
  }

  lemma LaunchedAttempts(sv: Svdef, which: Which, goal: Goal, w: World)
    requires Forks(w)
    ensures var w' := Launched(sv, which, goal, w).1;
            |w'.trace| == |w.trace| + 1 && w.trace <= w'.trace && Attempt(w'.trace[|w.trace|], sv.id, which, goal)
  {
    hide NextOk, Later;
  }

  lemma StuckAttempts(sv: Svdef, which: Which, goal: Goal, w: World)
    ensures var w' := Stuck(sv, which, goal, w).1;
            |w'.trace| == |w.trace| + 1 && w.trace <= w'.trace && Attempt(w'.trace[|w.trace|], sv.id, which, goal)
  {
  }

  /** One launch attempts one process for one goal. */
  lemma RunAttempts(sv: Svdef, which: Which, goal: Goal, w: World, x: Which, g: Goal)
    ensures var w' := Run(sv, which, goal, w).1;
            && w.trace <= w'.trace
            && (Attempted(w.trace, w'.trace, sv.id, x, g) <==> !Refuses(sv, which) && x == which && g == goal)
  {
    hide Run, Refuses;
    var w' := Run(sv, which, goal, w).1;
    if Refuses(sv, which) {
      RunRefused(sv, which, goal, w);
    } else {
      LaunchAttempts(sv, which, goal, w);
      assert Attempt(w'.trace[|w.trace|], sv.id, x, g) <==> x == which && g == goal;
    }
  }

  lemma NotAttempted(t: seq<Act>, id: Id, which: Which, goal: Goal)
    ensures !Attempted(t, t, id, which, goal)
  {
  }

  lemma AttemptedJoin(t: seq<Act>, t1: seq<Act>, t2: seq<Act>, id: Id, which: Which, goal: Goal)
    requires t <= t1 <= t2
    ensures Attempted(t, t2, id, which, goal) <==> Attempted(t, t1, id, which, goal) || Attempted(t1, t2, id, which, goal)
  {
    hide Attempt;
    if Attempted(t, t2, id, which, goal) {
      var k :| |t| <= k < |t2| && Attempt(t2[k], id, which, goal);
      assert k < |t1| ==> t1[k] == t2[k];
    }
    if Attempted(t, t1, id, which, goal) {
      var k :| |t| <= k < |t1| && Attempt(t1[k], id, which, goal);
      assert t1[k] == t2[k];
    }
  }

  /** A retry of an active entry attempts every process of it that is failing, for what it failed. */
  lemma CheckfailAttempts(sv: Svdef, which: Which, goal: Goal, w: World)
    requires sv.Get(which).failing && sv.Get(which).pid == 0 && (which.Main? || sv.hasLog)
    ensures var w' := Checkfail(sv, w).1;
            && w.trace <= w'.trace
            && (Attempted(w.trace, w'.trace, sv.id, which, goal) <==> sv.active && goal == LastGoal(sv.Get(which)))
  {
    var r1 := if sv.hasLog && sv.log.failing then Run(sv, Log, LastGoal(sv.log), w) else (sv, w);
    var r2 := if r1.0.main.failing then Run(r1.0, Main, LastGoal(r1.0.main), r1.1) else r1;
    assert Checkfail(sv, w) == if sv.active then r2 else (sv, w);
    assert which.Main? ==> !Refuses(r1.0, Main) by {
      RunWishes(sv, Log, LastGoal(sv.log), w);
    }
    assert which.Log? ==> !Refuses(sv, Log);
    hide Run, Checkfail, Refuses, Attempted;
    RunWishes(sv, Log, LastGoal(sv.log), w);
    RunTold(sv, Log, LastGoal(sv.log), w);
    RunAttempts(sv, Log, LastGoal(sv.log), w, which, goal);
    RunAttempts(r1.0, Main, LastGoal(r1.0.main), r1.1, which, goal);
    NotAttempted(w.trace, sv.id, which, goal);
    NotAttempted(r1.1.trace, sv.id, which, goal);
    AttemptedJoin(w.trace, r1.1.trace, r2.1.trace, sv.id, which, goal);
  }

  lemma AfterAttempts(w: World, w': World, id: Id, other: Id, which: Which, goal: Goal)
    requires After(w, w', id) && other != id
    ensures w.trace <= w'.trace && !Attempted(w.trace, w'.trace, other, which, goal)
  {
    forall k | |w.trace| <= k < |w'.trace|
      ensures !Attempt(w'.trace[k], other, which, goal)
    {
      assert About(w'.trace[k], id);
    }
  }

  /** A round of retries over the table, for the processes of one service. */
  lemma {:induction false} CheckfailAllAttempts(svs: seq<Svdef>, w: World, id: Id, which: Which, goal: Goal, i: nat)
    requires DistinctIds(svs) && i <= |svs| && (if i < |svs| then svs[i].id == id else Absent(svs, id))
    requires i < |svs| ==> svs[i].Get(which).failing && svs[i].Get(which).pid == 0 && (which.Main? || svs[i].hasLog)
    ensures var w' := CheckfailAll(svs, w).1;
            && w.trace <= w'.trace
            && (Attempted(w.trace, w'.trace, id, which, goal) <==>
                  i < |svs| && svs[i].active && goal == LastGoal(svs[i].Get(which)))
  {
    hide Checkfail, Attempted, Lawful, After, LastGoal;
    NotAttempted(w.trace, id, which, goal);
    if svs != [] {
      var last := |svs| - 1;
      var r := CheckfailAll(svs[..last], w);
      CheckfailAllAttempts(svs[..last], w, id, which, goal, if i < last then i else last);
      var r' := Checkfail(svs[last], r.1);
      CheckfailLawful(svs[last], r.1);
      LawfulAfter(svs[last], r.1, r'.0, r'.1);
      if i == last {
        CheckfailAttempts(svs[last], which, goal, r.1);
      } else {
        AfterAttempts(r.1, r'.1, svs[last].id, id, which, goal);
      }
      AttemptedJoin(w.trace, r.1.trace, r'.1.trace, id, which, goal);
    }
  }

  /** A round of retries attempts a process that is failing exactly when its entry is active, that is,
      found by the last scan; and it does so for what failed, even when the process is wanted down. */
  lemma RetryReachesIff(st: State, i: nat, which: Which, goal: Goal)
    requires TableInv(st) && Sound(st) && i < |st.svs| && !st.w.terminating && st.w.flagFailing
    requires st.svs[i].Get(which).failing && (which.Main? || st.svs[i].hasLog)
    ensures Attempted(st.w.trace, Step(st, Failing).w.trace, st.svs[i].id, which, goal)
            <==> st.svs[i].active && goal == LastGoal(st.svs[i].Get(which))
  {
    var w := st.w.(flagFailing := false).Did(Retried);
    var r := CheckfailAll(st.svs, w);
    assert Step(st, Failing).w == r.1;
    hide CheckfailAll, TableInv, Step, Attempted, Sound, LastGoal;
    var id := st.svs[i].id;
    TableDistinct(st);
    SoundFailing(st, i, which);
    CheckfailAllAttempts(st.svs, w, id, which, goal, i);
    AttemptedJoin(st.w.trace, w.trace, r.1.trace, id, which, goal);
    assert !Attempted(st.w.trace, w.trace, id, which, goal) by { RetriedAttempts(st.w.trace, id, which, goal); }
  }

  lemma RetriedAttempts(t: seq<Act>, id: Id, which: Which, goal: Goal)
    ensures !Attempted(t, t + [Retried], id, which, goal)
  {
  }

  lemma SoundFailing(st: State, i: nat, which: Which)
    requires Sound(st) && i < |st.svs| && st.svs[i].Get(which).failing && (which.Main? || st.svs[i].hasLog)
    ensures st.svs[i].Get(which).pid == 0
  {
    hide Cut, Alert, Ending;
    assert Minded(st.svs[i], Alert(st.w), Cut(st.w));
  }

  lemma {:induction false} RetriesPassOver(svs: seq<Svdef>, w: World)
    requires forall k :: 0 <= k < |svs| ==> !svs[k].active
    ensures CheckfailAll(svs, w) == (svs, w)
  {
    if svs != [] {
      var last := |svs| - 1;
      RetriesPassOver(svs[..last], w);
      assert svs == svs[..last] + [svs[last]];
    }
  }

  /** When a scan breaks off before the first entry, the retries pass over every entry and are then
      no longer pending: a failed process waits for nothing. */
  lemma CutScanForgets(st: State)
    requires !st.w.terminating && st.w.flagFailing
    ensures var st1 := Step(st, Rescan(Listing([], false)));
            var st2 := Step(st1, Failing);
            st2.svs == Unflag(st.svs) && !st2.w.flagFailing && Skipped(st2.w.trace)
  {
    hide CheckfailAll, Unflag, Skipped, Cutting;
    var st1 := Step(st, Rescan(Listing([], false)));
    assert st1.svs == Unflag(st.svs) && st1.w.flagFailing && !st1.w.terminating;
    RetriesPassOver(st1.svs, st1.w.(flagFailing := false).Did(Retried));
    CutAppend(st.w.trace, ScanCut);
    CutAppend(st1.w.trace, Retried);
  }
}
