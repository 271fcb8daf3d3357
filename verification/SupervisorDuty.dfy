/** What every entry owes to the history in every run, whatever forks fail: its fields record the last
    attempt to run each process, a pause is a SIGSTOP not yet undone, and a service that is to go has
    been asked to. */
module SupervisorDuty {
  import opened Tain
  import opened Supervisor
  import opened SupervisorTable
  import opened SupervisorHistory
  import opened SupervisorRuns
  import opened SupervisorSpacing
  import SupervisorControl

  // ---- the mark a history leaves on a process ----

  /** Since the last deactivation: not asked to end, sent SIGTERM, sent SIGCONT after that, or started. */
  datatype Hail = Unasked | Termed | Hushed | Begun

  /** The last attempt to run it since activation. */
  datatype Tried = Never | Last(act: Act)

  /** going: deactivated since activation; stopped: a SIGSTOP since activation that no SIGCONT followed;
      held: the same since its last launch. */
  datatype Mark = Mark(going: bool, hail: Hail, tried: Tried, stopped: bool, held: bool)

  const UNMARKED := Mark(false, Unasked, Never, false, false)

  function NextHail(h: Hail, sig: Sig, group: bool): Hail {
    if group then h
    else if sig == TERM && !h.Hushed? then Termed
    else if sig == CONT && h.Termed? then Hushed
    else h
  }

  function NextMark(m: Mark, a: Act, id: Id, which: Which): Mark {
    match a
    case Launch(i, x, goal, _, _, _) =>
      if i != id || x != which then m
      else m.(tried := Last(a), held := false, hail := if goal.Start? then Begun else m.hail)
    case ForkFailed(i, x, _) => if i != id || x != which then m else m.(tried := Last(a))
    case Signal(i, x, sig, group) =>
      if i != id || x != which then m
      else m.(hail := NextHail(m.hail, sig, group),
              stopped := sig == STOP || (m.stopped && sig != CONT), held := sig == STOP || (m.held && sig != CONT))
    case Activate(i, _, _) => if i == id then UNMARKED else m
    case Deactivate(i) => if i == id then m.(going := true, hail := Unasked) else m
    case _ => m
  }

  function MarkOf(trace: seq<Act>, id: Id, which: Which): Mark {
    if trace == [] then UNMARKED else
      NextMark(MarkOf(trace[..|trace| - 1], id, which), trace[|trace| - 1], id, which)
  }

  lemma MarkNext(trace: seq<Act>, a: Act, id: Id)
    ensures forall which :: MarkOf(trace + [a], id, which) == NextMark(MarkOf(trace, id, which), a, id, which)
  {
    assert (trace + [a])[..|trace|] == trace;
  }

  lemma {:induction false} OthersMark(t: seq<Act>, t': seq<Act>, id: Id, other: Id)
    requires t <= t' && id != other
    requires forall k :: |t| <= k < |t'| ==> About(t'[k], id)
    ensures forall which :: MarkOf(t', other, which) == MarkOf(t, other, which)
    decreases |t'|
  {
    hide MarkOf;
    if |t| == |t'| {
      assert t == t';
    } else {
      var last := |t'| - 1;
      assert t'[..last] + [t'[last]] == t';
      OthersMark(t, t'[..last], id, other);
      MarkNext(t'[..last], t'[last], other);
    }
  }

  // ---- one service ----

  function GoalOf(s: Sub): Goal {
    if s.isReset then Reset else Start
  }

  /** A live process is the last that was launched, for the goal and at the time on record; one that is
      failing is the last whose fork failed. A paused one was stopped. */
  predicate Recorded(m: Mark, s: Sub) {
    && (s.pid > 0 ==> m.tried.Last? && m.tried.act.Launch? && m.tried.act.goal == GoalOf(s)
                      && m.tried.act.pid == s.pid && m.tried.act.now == s.when)
    && (s.failing ==> s.pid == 0 && m.tried.Last? && m.tried.act.ForkFailed? && m.tried.act.goal == GoalOf(s))
    && (s.isPaused ==> m.stopped) && (s.pid > 0 && m.held ==> s.isPaused)
  }

  predicate Started(s: Sub) {
    s.pid > 0 && !s.isReset
  }

  predicate Answered(h: Hail) {
    h.Hushed? || h.Begun?
  }

  /** Main of a service that is to go has been asked to. */
  predicate MainAsked(m: Mark, sv: Svdef) {
    sv.cull && Started(sv.main) ==> Answered(m.hail)
  }

  /** So has its logger, once main is gone. */
  predicate LogAsked(m: Mark, sv: Svdef) {
    sv.cull && Started(sv.log) && sv.main.pid == 0 && !sv.main.failing ==> Answered(m.hail)
  }

  predicate Wished(sv: Svdef) {
    sv.cull ==> sv.main.wantDown && (sv.hasLog ==> sv.log.wantDown)
  }

  predicate Booked(trace: seq<Act>, sv: Svdef) {
    && Logless(sv) && Wished(sv)
    && (sv.cull ==> MarkOf(trace, sv.id, Main).going && MarkOf(trace, sv.id, Log).going)
    && Recorded(MarkOf(trace, sv.id, Main), sv.main) && Recorded(MarkOf(trace, sv.id, Log), sv.log)
  }

  predicate Duty(trace: seq<Act>, sv: Svdef) {
    && Booked(trace, sv)
    && MainAsked(MarkOf(trace, sv.id, Main), sv) && LogAsked(MarkOf(trace, sv.id, Log), sv)
  }

  /** Duty with the process out of account that is about to be launched or asked to end. */
  predicate NearDuty(trace: seq<Act>, sv: Svdef, which: Which) {
    Booked(trace, sv) && (which.Log? ==> MainAsked(MarkOf(trace, sv.id, Main), sv))
  }

  lemma NewDuty(sv: Svdef, which: Which, trace: seq<Act>, sv': Svdef, a: Act)
    requires !Refuses(sv, which) && NearDuty(trace, sv, which)
    requires a.Launch? && a.id == sv'.id == sv.id && a.which == which && SameWishes(sv, sv', which)
    requires var s := sv'.Get(which);
             && s.pid == a.pid > 0 && s.isReset == a.goal.Reset? && !s.failing && s.when == a.now
             && s.isPaused == sv.Get(which).isPaused
    ensures Duty(trace + [a], sv')
  {
    hide MarkOf;
    MarkNext(trace, a, sv.id);
    match which
    case Main =>
    case Log =>
  }

  lemma LaunchedDuty(sv: Svdef, which: Which, goal: Goal, w: World)
    requires Forks(w) && !Refuses(sv, which) && NearDuty(w.trace, sv, which)
    ensures var r := Launched(sv, which, goal, w); Duty(r.1.trace, r.0)
  {
    hide *;
    var now, was := NextAnswer(w).now, sv.Get(which).whenOk;
    LaunchParts(sv, which, goal, w);
    NewDuty(sv, which, w.trace, Launched(sv, which, goal, w).0,
            Launch(sv.id, which, goal, NextAnswer(w).pid, now, Later(now, was)));
  }

  lemma StuckDuty(sv: Svdef, which: Which, goal: Goal, w: World)
    requires !Refuses(sv, which) && NearDuty(w.trace, sv, which)
    ensures var r := Stuck(sv, which, goal, w); Duty(r.1.trace, r.0)
  {
    hide MarkOf;
    MarkNext(w.trace, ForkFailed(sv.id, which, goal), sv.id);
    match which
    case Main =>
    case Log =>
  }

  lemma RunDuty(sv: Svdef, which: Which, goal: Goal, w: World)
    requires !Refuses(sv, which) && NearDuty(w.trace, sv, which)
    ensures var r := Run(sv, which, goal, w); Duty(r.1.trace, r.0)
  {
    hide Duty, NearDuty, Launched, Stuck, Forks, Refuses;
    if Forks(w) {
      LaunchedDuty(sv, which, goal, w);
    } else {
      StuckDuty(sv, which, goal, w);
    }
  }

  lemma RunOrNotDuty(sv: Svdef, which: Which, goal: Goal, w: World)
    requires Duty(w.trace, sv)
    ensures var r := Run(sv, which, goal, w); Duty(r.1.trace, r.0)
  {
    hide Booked, MainAsked, LogAsked, Refuses, Run;
    RunRefused(sv, which, goal, w);
    if !Refuses(sv, which) {
      RunDuty(sv, which, goal, w);
    }
  }

  lemma HushDuty(sv: Svdef, which: Which, w: World)
    requires sv.Get(which).pid > 0 && NearDuty(w.trace, sv, which)
    ensures var r := Hush(sv, which, w); Duty(r.1.trace, r.0)
  {
    hide MarkOf;
    var term, cont := Signal(sv.id, which, TERM, false), Signal(sv.id, which, CONT, false);
    MarkNext(w.trace, term, sv.id);
    MarkNext(w.trace, cont, sv.id);
    MarkNext(w.trace + [term], cont, sv.id);
    match which
    case Main =>
    case Log =>
  }

  /** Acts that leave no mark. */
  predicate Unmarking(a: Act) {
    !a.Launch? && !a.ForkFailed? && !a.Signal? && !a.Activate? && !a.Deactivate?
  }

  lemma DidMark(trace: seq<Act>, a: Act, sv: Svdef)
    requires Unmarking(a)
    ensures Duty(trace + [a], sv) <==> Duty(trace, sv)
    ensures Booked(trace + [a], sv) <==> Booked(trace, sv)
  {
    hide MarkOf;
    MarkNext(trace, a, sv.id);
  }

  lemma WantcullDuty(sv: Svdef, w: World)
    requires Duty(w.trace, sv)
    ensures var r := Wantcull(sv, w); Duty(r.1.trace, r.0)
  {
    hide MarkOf, Hush, Recorded;
    var sv1 := sv.(cull := true, main := sv.main.(wantDown := true),
                   log := if sv.hasLog then sv.log.(wantDown := true) else sv.log);
    var w1 := w.Did(Deactivate(sv.id));
    assert Booked(w1.trace, sv1) by { DeactivateBooked(sv, w); }
    if sv1.main.pid > 0 {
      HushDuty(sv1, Main, w1);
    } else if sv1.hasLog && sv1.log.pid > 0 {
      HushDuty(sv1, Log, w1);
    }
  }

  lemma DeactivateBooked(sv: Svdef, w: World)
    requires Booked(w.trace, sv)
    ensures var sv1 := sv.(cull := true, main := sv.main.(wantDown := true),
                           log := if sv.hasLog then sv.log.(wantDown := true) else sv.log);
            Booked(w.trace + [Deactivate(sv.id)], sv1)
  {
    hide MarkOf;
    MarkNext(w.trace, Deactivate(sv.id), sv.id);
  }

  /** Flags that no mark speaks of. */
  lemma FlagsDuty(trace: seq<Act>, sv: Svdef, active: bool, cycle: bool)
    requires Duty(trace, sv)
    ensures Duty(trace, sv.(active := active, cycle := cycle))
  {
    hide MarkOf, Recorded;
  }

  lemma DropOneDuty(sv: Svdef, w: World)
    requires Duty(w.trace, sv)
    ensures var r := DropOne(sv, w); Duty(r.1.trace, r.0)
  {
    hide Duty, Wantcull;
    WantcullDuty(sv, w);
    FlagsDuty(w.trace, sv, sv.active, false);
  }

  lemma CheckfailDuty(sv: Svdef, w: World)
    requires Duty(w.trace, sv)
    ensures var r := Checkfail(sv, w); Duty(r.1.trace, r.0)
  {
    hide Duty, Run;
    if sv.active {
      var goal := if sv.log.isReset then Reset else Start;
      var r1 := if sv.hasLog && sv.log.failing then Run(sv, Log, goal, w) else (sv, w);
      RunOrNotDuty(sv, Log, goal, w);
      RunOrNotDuty(r1.0, Main, if r1.0.main.isReset then Reset else Start, r1.1);
    }
  }

  lemma ReapBooked(trace: seq<Act>, sv: Svdef, which: Which)
    requires Duty(trace, sv) && sv.Get(which).pid > 0
    ensures var sub := sv.Get(which);
            var sv1 := sv.Set(which, sub.(pid := 0, wantDown := sub.wantDown || sub.isOnce));
            NearDuty(trace, sv1, which) && !Refuses(sv1, which) && sv1.Get(which).pid == 0
  {
    hide MarkOf;
    match which
    case Main =>
    case Log =>
  }

  lemma ReapedDuty(sv: Svdef, which: Which, w: World)
    requires Duty(w.trace, sv) && sv.Get(which).pid > 0
    ensures var r := Reaped(sv, which, w); Duty(r.1.trace, r.0)
  {
    hide MarkOf, Recorded, Run, Hush;
    var sub := sv.Get(which);
    var sv1 := sv.Set(which, sub.(pid := 0, wantDown := sub.wantDown || sub.isOnce));
    ReapBooked(w.trace, sv, which);
    RunDuty(sv1, which, Reset, w);
    RunDuty(sv1, which, Start, w);
    if which.Main? && sv1.log.pid > 0 {
      HushDuty(sv1, Log, w);
    }
    match which
    case Main =>
    case Log =>
  }

  lemma OpeningDuty(d: Dir, w: World)
    ensures Duty(w.trace + [Activate(d.id, d.down, d.once)], Opening(d))
  {
    hide MarkOf;
    MarkNext(w.trace, Activate(d.id, d.down, d.once), d.id);
  }

  lemma ActivateDuty(d: Dir, w: World)
    ensures var r := ActivateNew(d, w); Duty(r.1.trace, r.0.(active := true))
  {
    hide Duty, Run, Opening;
    var w0 := w.Did(Activate(d.id, d.down, d.once));
    OpeningDuty(d, w);
    var r1 := Run(Opening(d), Log, Start, w0);
    RunOrNotDuty(Opening(d), Log, Start, w0);
    RunOrNotDuty(r1.0, Main, Start, r1.1);
    var r := ActivateNew(d, w);
    FlagsDuty(r.1.trace, r.0, true, r.0.cycle);
  }

  // ---- control ----

  lemma DoKillDuty(sv: Svdef, which: Which, sig: Sig, group: bool, w: World)
    requires Duty(w.trace, sv) && !sv.cull && sig != STOP && sig != CONT
    ensures Duty(DoKill(sv, which, sig, group, w).trace, sv)
  {
    hide MarkOf;
    MarkNext(w.trace, Signal(sv.id, which, sig, group), sv.id);
    match which
    case Main =>
    case Log =>
  }

  lemma ContinueDuty(sv: Svdef, which: Which, group: bool, w: World)
    requires Duty(w.trace, sv) && !sv.cull
    ensures var r := Continue(sv, which, group, w); Duty(r.1.trace, r.0)
  {
    hide MarkOf;
    MarkNext(w.trace, Signal(sv.id, which, CONT, group), sv.id);
    match which
    case Main =>
    case Log =>
  }

  lemma PauseDuty(sv: Svdef, which: Which, group: bool, w: World)
    requires Duty(w.trace, sv) && !sv.cull
    ensures var r := Pause(sv, which, group, w); Duty(r.1.trace, r.0)
  {
    hide MarkOf;
    MarkNext(w.trace, Signal(sv.id, which, STOP, group), sv.id);
    match which
    case Main =>
    case Log =>
  }

  /** A wish changes no mark. */
  lemma WishDuty(sv: Svdef, which: Which, s: Sub, w: World, a: Act)
    requires Duty(w.trace, sv) && !sv.cull && (a.WishDown? || a.WishUp?)
    requires var was := sv.Get(which);
             && s.pid == was.pid && s.isReset == was.isReset && s.when == was.when
             && s.failing == was.failing && s.isPaused == was.isPaused
    ensures Duty(w.trace + [a], sv.Set(which, s))
  {
    hide MarkOf;
    MarkNext(w.trace, a, sv.id);
    match which
    case Main =>
    case Log =>
  }

  lemma WishKeeps(sv: Svdef, which: Which, s: Sub, w: World, a: Act)
    ensures sv.Set(which, s).cull == sv.cull && w.Did(a).trace == w.trace + [a]
  {
  }

  lemma ContinueCull(sv: Svdef, which: Which, group: bool, w: World)
    ensures Continue(sv, which, group, w).0.cull == sv.cull
  {
    hide DoKill;
  }

  lemma DownDuty(sv: Svdef, which: Which, group: bool, w: World)
    requires Duty(w.trace, sv) && !sv.cull
    ensures var r := Down(sv, which, group, w); Duty(r.1.trace, r.0) && !r.0.cull
  {
    hide *;
    var s := sv.Get(which).(wantDown := true);
    var sv1, w0 := sv.Set(which, s), w.Did(WishDown(sv.id, which));
    SupervisorControl.DownIs(sv, which, group, w);
    WishKeeps(sv, which, s, w, WishDown(sv.id, which));
    WishDuty(sv, which, s, w, WishDown(sv.id, which));
    DoKillDuty(sv1, which, TERM, group, w0);
    ContinueDuty(sv1, which, group, DoKill(sv1, which, TERM, group, w0));
    ContinueCull(sv1, which, group, DoKill(sv1, which, TERM, group, w0));
  }

  lemma UpDuty(sv: Svdef, which: Which, once: bool, w: World)
    requires Duty(w.trace, sv) && !sv.cull
    ensures var r := Up(sv, which, once, w); Duty(r.1.trace, r.0) && !r.0.cull
  {
    hide *;
    var s := sv.Get(which).(isOnce := once, wantDown := false);
    var sv1, w0 := sv.Set(which, s), w.Did(WishUp(sv.id, which, once));
    SupervisorControl.UpIs(sv, which, once, w);
    WishKeeps(sv, which, s, w, WishUp(sv.id, which, once));
    WishDuty(sv, which, s, w, WishUp(sv.id, which, once));
    RunOrNotDuty(sv1, which, Start, w0);
    assert Run(sv1, which, Start, w0).0.cull == sv1.cull by { RunCull(sv1, which, w0); }
  }

  lemma RunCull(sv: Svdef, which: Which, w: World)
    ensures Run(sv, which, Start, w).0.cull == sv.cull
  {
    hide Run;
    RunWishes(sv, which, Start, w);
  }

  lemma SignalOfPlain(cmd: char)
    ensures SignalOf(cmd) != [] ==> SignalOf(cmd)[0] != STOP && SignalOf(cmd)[0] != CONT
  {
  }

  lemma ControlDuty(sv: Svdef, which: Which, cmd: char, group: bool, w: World)
    requires Duty(w.trace, sv) && !sv.cull
    ensures var r := Control(sv, which, cmd, group, w); Duty(r.1.trace, r.0)
  {
    hide Duty, DoKill, Continue, Down, Up, Pause, SignalOf;
    if cmd == 'D' && which.Main? {
      var r1 := Down(sv, Main, group, w);
      DownDuty(sv, Main, group, w);
      DownDuty(r1.0, Log, group, r1.1);
    } else if cmd == 'U' && which.Main? {
      var r1 := Up(sv, Log, false, w);
      UpDuty(sv, Log, false, w);
      UpDuty(r1.0, Main, false, r1.1);
    } else if cmd == 'c' {
      ContinueDuty(sv, which, group, w);
    } else if cmd == 'd' {
      DownDuty(sv, which, group, w);
    } else if cmd == 'o' {
      UpDuty(sv, which, true, w);
    } else if cmd == 'u' {
      UpDuty(sv, which, false, w);
    } else if cmd == 'p' {
      PauseDuty(sv, which, group, w);
    } else if SignalOf(cmd) != [] {
      SignalOfPlain(cmd);
      DoKillDuty(sv, which, SignalOf(cmd)[0], group, w);
    }
  }

  // ---- the table ----

  ghost predicate AllDuty(st: State) {
    forall k :: 0 <= k < |st.svs| ==> Duty(st.w.trace, st.svs[k])
  }

  lemma OthersDuty(w: World, w': World, id: Id, sv: Svdef)
    requires After(w, w', id) && sv.id != id && Duty(w.trace, sv)
    ensures Duty(w'.trace, sv)
  {
    hide MarkOf, About, Recorded;
    OthersMark(w.trace, w'.trace, id, sv.id);
  }

  lemma EntryDuty(st: State, i: nat, sv: Svdef, w: World)
    requires AllDuty(st) && DistinctIds(st.svs) && i < |st.svs| && sv.id == st.svs[i].id
    requires Duty(w.trace, sv) && After(st.w, w, sv.id)
    ensures AllDuty(State(st.svs[i := sv], w))
  {
    hide Duty, After;
    forall k | 0 <= k < |st.svs| && k != i
      ensures Duty(w.trace, st.svs[k])
    {
      OthersDuty(st.w, w, sv.id, st.svs[k]);
    }
  }

  lemma DidDuty(st: State, w: World, a: Act)
    requires AllDuty(st) && Unmarking(a) && w.trace == st.w.trace + [a]
    ensures AllDuty(State(st.svs, w))
  {
    hide Duty, Booked;
    forall k | 0 <= k < |st.svs|
      ensures Duty(w.trace, st.svs[k])
    {
      DidMark(st.w.trace, a, st.svs[k]);
    }
  }

  lemma SameTraceDuty(st: State, w: World)
    requires AllDuty(st) && w.trace == st.w.trace
    ensures AllDuty(State(st.svs, w))
  {
  }

  lemma DutyAt(st: State, i: nat)
    requires AllDuty(st) && i < |st.svs|
    ensures Duty(st.w.trace, st.svs[i])
  {
  }

  lemma WaitOneDuty(g: Reaping, pid: nat)
    requires TableInv(g.st) && AllDuty(g.st)
    ensures AllDuty(WaitOne(g, pid).st)
  {
    hide Reaped, FindPid, AllDuty, TableInv, Duty, After, DistinctIds;
    var w := g.st.w;
    if pid in w.children {
      ChildFound(g.st, pid);
      var (i, which) := FindPid(g.st.svs, pid);
      var w1 := w.(children := w.children - {pid}).Did(Reap(pid));
      DidDuty(g.st, w1, Reap(pid));
      DutyAt(State(g.st.svs, w1), i);
      TableDistinct(g.st);
      var r := Reaped(g.st.svs[i], which, w1);
      ReapedDuty(g.st.svs[i], which, w1);
      ReapedAfter(g.st.svs[i], which, w1);
      EntryDuty(State(g.st.svs, w1), i, r.0, r.1);
    }
  }

  lemma {:induction false} WaitAllDuty(g: Reaping, dead: seq<nat>)
    requires TableInv(g.st) && AllDuty(g.st)
    ensures AllDuty(WaitAll(g, dead).st)
  {
    hide WaitOne, TableInv, AllDuty;
    if dead != [] {
      WaitAllDuty(g, dead[..|dead| - 1]);
      WaitAllInv(g, dead[..|dead| - 1]);
      WaitOneDuty(WaitAll(g, dead[..|dead| - 1]), dead[|dead| - 1]);
    }
  }

  lemma {:induction false} CullDuty(svs: seq<Svdef>, i: nat, w: World)
    requires i <= |svs| && AllDuty(State(svs, w))
    ensures AllDuty(CullFrom(svs, i, w))
    decreases |svs| - i
  {
    hide Cullok, Duty;
    if i < |svs| {
      if Cullok(svs[i]) {
        var last := |svs| - 1;
        var a := Remove(svs[i].id, svs[i].cycle);
        DidDuty(State(svs, w), w.Did(a), a);
        CullDuty(svs[i := svs[last]][..last], i, w.Did(a));
      } else {
        CullDuty(svs, i + 1, w);
      }
    }
  }

  lemma MiddleDuty(a: seq<Svdef>, sv: Svdef, rest: seq<Svdef>, w: World, sv': Svdef, w': World)
    requires DistinctIds(a + [sv] + rest) && AllDuty(State(a + [sv] + rest, w))
    requires Lawful(sv, w, sv', w') && Duty(w'.trace, sv')
    ensures AllDuty(State(a + [sv'] + rest, w')) && DistinctIds(a + [sv'] + rest)
  {
    hide After, AllDuty, Duty, Lawful;
    var svs := a + [sv] + rest;
    LawfulId(sv, w, sv', w');
    LawfulAfter(sv, w, sv', w');
    EntryDuty(State(svs, w), |a|, sv', w');
    assert svs[|a| := sv'] == a + [sv'] + rest;
  }

  lemma MiddleAt(a: seq<Svdef>, sv: Svdef, rest: seq<Svdef>, w: World)
    requires AllDuty(State(a + [sv] + rest, w))
    ensures Duty(w.trace, sv)
  {
    assert (a + [sv] + rest)[|a|] == sv;
  }

  lemma {:induction false} DropAllDuty(svs: seq<Svdef>, rest: seq<Svdef>, w: World)
    requires DistinctIds(svs + rest) && AllDuty(State(svs + rest, w))
    ensures var g := DropAll(svs, w); AllDuty(State(g.svs + rest, g.w)) && DistinctIds(g.svs + rest)
  {
    hide AllDuty, DropOne, Lawful, DistinctIds, Duty;
    if svs != [] {
      var last := |svs| - 1;
      var g := DropAll(svs[..last], w);
      assert svs + rest == svs[..last] + ([svs[last]] + rest);
      DropAllDuty(svs[..last], [svs[last]] + rest, w);
      assert g.svs + ([svs[last]] + rest) == g.svs + [svs[last]] + rest;
      var r := DropOne(svs[last], g.w);
      MiddleAt(g.svs, svs[last], rest, g.w);
      DropOneDuty(svs[last], g.w);
      DropOneLawful(svs[last], g.w);
      MiddleDuty(g.svs, svs[last], rest, g.w, r.0, r.1);
    }
  }

  lemma {:induction false} WantcullAllDuty(svs: seq<Svdef>, rest: seq<Svdef>, w: World)
    requires DistinctIds(svs + rest) && AllDuty(State(svs + rest, w))
    ensures var g := WantcullAll(svs, w); AllDuty(State(g.svs + rest, g.w)) && DistinctIds(g.svs + rest)
  {
    hide AllDuty, Wantcull, Lawful, DistinctIds, Duty;
    if svs != [] {
      var last := |svs| - 1;
      var g := WantcullAll(svs[..last], w);
      assert svs + rest == svs[..last] + ([svs[last]] + rest);
      WantcullAllDuty(svs[..last], [svs[last]] + rest, w);
      assert g.svs + ([svs[last]] + rest) == g.svs + [svs[last]] + rest;
      var r := Wantcull(svs[last], g.w);
      MiddleAt(g.svs, svs[last], rest, g.w);
      WantcullDuty(svs[last], g.w);
      WantcullLawful(svs[last], g.w);
      MiddleDuty(g.svs, svs[last], rest, g.w, r.0, r.1);
    }
  }

  lemma {:induction false} CheckfailAllDuty(svs: seq<Svdef>, rest: seq<Svdef>, w: World)
    requires DistinctIds(svs + rest) && AllDuty(State(svs + rest, w))
    ensures var g := CheckfailAll(svs, w); AllDuty(State(g.0 + rest, g.1)) && DistinctIds(g.0 + rest)
  {
    hide AllDuty, Checkfail, Lawful, DistinctIds, Duty;
    if svs != [] {
      var last := |svs| - 1;
      var g := CheckfailAll(svs[..last], w);
      assert svs + rest == svs[..last] + ([svs[last]] + rest);
      CheckfailAllDuty(svs[..last], [svs[last]] + rest, w);
      assert g.0 + ([svs[last]] + rest) == g.0 + [svs[last]] + rest;
      var r := Checkfail(svs[last], g.1);
      MiddleAt(g.0, svs[last], rest, g.1);
      CheckfailDuty(svs[last], g.1);
      CheckfailLawful(svs[last], g.1);
      MiddleDuty(g.0, svs[last], rest, g.1, r.0, r.1);
    }
  }

  // ---- scans ----

  lemma ActivateAllDuty(st: State, d: Dir)
    requires AllDuty(st) && Absent(st.svs, d.id)
    ensures var r := ActivateNew(d, st.w); AllDuty(State(st.svs + [r.0.(active := true)], r.1))
  {
    hide ActivateNew, Duty, After;
    var r := ActivateNew(d, st.w);
    ActivateAfter(d, st.w);
    ActivateDuty(d, st.w);
    forall k | 0 <= k < |st.svs|
      ensures Duty(r.1.trace, st.svs[k])
    {
      OthersDuty(st.w, r.1, d.id, st.svs[k]);
    }
  }

  lemma ScanOneDuty(g: Scanning, d: Dir)
    requires TableInv(g.st) && AllDuty(g.st)
    ensures AllDuty(ScanOne(g, d).st)
  {
    hide ActivateNew, AllDuty, TableInv, Duty, After, DistinctIds;
    var svs, w := g.st.svs, g.st.w;
    var i := Lookup(svs, d.id);
    if i < |svs| {
      var sv := svs[i].(active := true, cycle := svs[i].cycle || svs[i].cull);
      TableDistinct(g.st);
      DutyAt(g.st, i);
      FlagsDuty(w.trace, svs[i], true, svs[i].cycle || svs[i].cull);
      AfterRefl(w, sv.id);
      EntryDuty(g.st, i, sv, w);
    } else if |svs| < PERP_MAX && d.opens {
      LookupNone(svs, d.id);
      ActivateAllDuty(g.st, d);
    }
  }

  lemma {:induction false} ScanDirsDuty(g: Scanning, dirs: seq<Dir>)
    requires TableInv(g.st) && AllDuty(g.st)
    ensures AllDuty(ScanDirs(g, dirs).st)
  {
    hide ScanOne, TableInv, AllDuty;
    if dirs != [] {
      ScanDirsDuty(g, dirs[..|dirs| - 1]);
      ScanDirsInv(g, dirs[..|dirs| - 1]);
      ScanOneDuty(ScanDirs(g, dirs[..|dirs| - 1]), dirs[|dirs| - 1]);
    }
  }

  lemma UnflagDuty(st: State)
    requires AllDuty(st)
    ensures AllDuty(State(Unflag(st.svs), st.w))
  {
    hide Duty;
    forall k | 0 <= k < |st.svs|
      ensures Duty(st.w.trace, Unflag(st.svs)[k])
    {
      FlagsDuty(st.w.trace, st.svs[k], false, st.svs[k].cycle);
    }
  }

  lemma SweepDuty(st: State)
    requires TableInv(st) && AllDuty(st)
    ensures var s := DropAll(st.svs, st.w);
            AllDuty(if s.ready then Cull(State(s.svs, s.w)) else State(s.svs, s.w))
  {
    hide AllDuty, DropAll, CullFrom, TableInv, DistinctIds;
    var s := DropAll(st.svs, st.w);
    TableDistinct(st);
    assert st.svs + [] == st.svs && s.svs + [] == s.svs;
    DropAllDuty(st.svs, [], st.w);
    CullDuty(s.svs, 0, s.w);
  }

  lemma ScanDuty(st: State, listing: Listing)
    requires TableInv(st) && AllDuty(st)
    ensures AllDuty(Scan(st, listing))
  {
    hide AllDuty, ScanDirs, DropAll, Cull, Unflag, TableInv, TriggerScan;
    if listing.NoDir? {
      DidDuty(st, st.w.Did(ScanLost), ScanLost);
    } else {
      UnflagDuty(st);
      UnflagInv(st);
      var g0 := Scanning(State(Unflag(st.svs), st.w), false);
      var g := ScanDirs(g0, listing.dirs);
      ScanDirsDuty(g0, listing.dirs);
      ScanDirsInv(g0, listing.dirs);
      if !listing.complete {
        var w := g.st.w.Did(ScanCut);
        DidDuty(g.st, w, ScanCut);
        SameTraceDuty(State(g.st.svs, w), TriggerScan(w)) by { TriggerTrace(w); }
      } else {
        SweepDuty(g.st);
        var s := DropAll(g.st.svs, g.st.w);
        var st2 := if s.ready then Cull(State(s.svs, s.w)) else State(s.svs, s.w);
        var w := st2.w.Did(ScanShort);
        DidDuty(st2, w, ScanShort);
        SameTraceDuty(State(st2.svs, w), TriggerScan(w)) by { TriggerTrace(w); }
        DidDuty(st2, st2.w.Did(ScanDone), ScanDone);
      }
    }
  }

  // ---- every run ----

  lemma WaitupDuty(st: State, dead: seq<nat>)
    requires TableInv(st) && AllDuty(st)
    ensures AllDuty(Waitup(st, dead))
  {
    hide AllDuty, WaitAll, CullFrom, TriggerScan, TableInv;
    var g := WaitAll(Reaping(st, false, false), dead);
    WaitAllDuty(Reaping(st, false, false), dead);
    CullDuty(g.st.svs, 0, g.st.w);
    var st1 := if g.cull then Cull(g.st) else g.st;
    SameTraceDuty(st1, TriggerScan(st1.w)) by { TriggerTrace(st1.w); }
  }

  lemma TerminateDuty(st: State)
    requires TableInv(st) && AllDuty(st)
    ensures AllDuty(Terminate(st))
  {
    hide AllDuty, WantcullAll, CullFrom, TableInv, DistinctIds;
    var w := st.w.(terminating := true, flagHup := false);
    SameTraceDuty(st, w);
    var s := WantcullAll(st.svs, w);
    TableDistinct(st);
    assert st.svs + [] == st.svs && s.svs + [] == s.svs;
    WantcullAllDuty(st.svs, [], w);
    CullDuty(s.svs, 0, s.w);
  }

  lemma RetryDuty(st: State)
    requires TableInv(st) && AllDuty(st)
    ensures AllDuty(Retry(st))
  {
    hide AllDuty, CheckfailAll, TableInv, DistinctIds;
    var w := st.w.(flagFailing := false).Did(Retried);
    DidDuty(st, w, Retried);
    TableDistinct(st);
    assert st.svs + [] == st.svs && CheckfailAll(st.svs, w).0 + [] == CheckfailAll(st.svs, w).0;
    CheckfailAllDuty(st.svs, [], w);
  }

  lemma ServeDuty(st: State, q: Request)
    requires TableInv(st) && AllDuty(st)
    ensures AllDuty(Serve(st, q).0)
  {
    hide AllDuty, Control, Lookup, TableInv, Lawful, Duty, After, DistinctIds;
    var i := Lookup(st.svs, q.id);
    if i < |st.svs| && !st.svs[i].cull {
      var r := Control(st.svs[i], q.which, q.cmd, q.group, st.w);
      DutyAt(st, i);
      ControlDuty(st.svs[i], q.which, q.cmd, q.group, st.w);
      ControlLawful(st.svs[i], q.which, q.cmd, q.group, st.w);
      LawfulId(st.svs[i], st.w, r.0, r.1);
      LawfulAfter(st.svs[i], st.w, r.0, r.1);
      TableDistinct(st);
      EntryDuty(st, i, r.0, r.1);
    }
  }

  lemma StepDuty(st: State, e: Event)
    requires TableInv(st) && AllDuty(st)
    ensures AllDuty(Step(st, e))
  {
    hide TableInv, AllDuty, Waitup, Scan, Terminate, Retry, Serve, TriggerScan;
    match e
    case SigHup => SameTraceDuty(st, TriggerScan(st.w)) by { TriggerTrace(st.w); }
    case SigTerm => TerminateDuty(st);
    case Chld(dead) => WaitupDuty(st, dead);
    case Rescan(listing) =>
      var w := st.w.(flagHup := false);
      SameTraceDuty(st, w);
      WorldStep(st, w);
      ScanDuty(State(st.svs, w), listing);
    case Failing => RetryDuty(st);
    case Client(q) => ServeDuty(st, q);
  }

  lemma {:induction false} RunsDutiful(answers: seq<Answer>, es: seq<Event>)
    ensures AllDuty(Steps(Init(answers), es))
  {
    hide TableInv, AllDuty, Step, Init;
    if es == [] {
      assert AllDuty(Init(answers)) by { InitDuty(answers); }
    } else {
      var es', e := es[..|es| - 1], es[|es| - 1];
      RunsDutiful(answers, es');
      RunsAccounted(answers, es');
      StepDuty(Steps(Init(answers), es'), e);
    }
  }

  lemma InitDuty(answers: seq<Answer>)
    ensures AllDuty(Init(answers))
  {
  }

  // ---- seen from outside ----

  predicate Starts(a: Act, id: Id, which: Which) {
    a.Launch? && a.id == id && a.which == which && a.goal.Start?
  }

  /** An attempt to run the process. */
  predicate Attempt(a: Act, id: Id, which: Which) {
    (a.Launch? || a.ForkFailed?) && a.id == id && a.which == which
  }

  predicate Activates(a: Act, id: Id) {
    a.Activate? && a.id == id
  }

  predicate Signals(a: Act, id: Id, which: Which, sig: Sig) {
    a.Signal? && a.id == id && a.which == which && a.sig == sig
  }

  /** Position d is the last deactivation of the service. */
  ghost predicate LastDeactivation(t: seq<Act>, d: nat, id: Id) {
    && d < |t| && t[d] == Deactivate(id)
    && forall k :: d < k < |t| ==> t[k] != Deactivate(id) && !Activates(t[k], id)
  }

  /** After that the process was sent SIGTERM. */
  ghost predicate SentTerm(t: seq<Act>, d: nat, i: nat, id: Id, which: Which) {
    LastDeactivation(t, d, id) && d < i < |t| && t[i] == Signal(id, which, TERM, false)
  }

  /** And later SIGCONT. */
  ghost predicate AskedToEnd(t: seq<Act>, id: Id, which: Which) {
    exists d: nat, i: nat, j: nat ::
      SentTerm(t, d, i, id, which) && i < j < |t| && t[j] == Signal(id, which, CONT, false)
  }

  /** After the last deactivation the process was started. */
  ghost predicate StartedAgain(t: seq<Act>, id: Id, which: Which) {
    exists d: nat, i: nat :: LastDeactivation(t, d, id) && d < i < |t| && Starts(t[i], id, which)
  }

  /** What the mark says of the time since the last deactivation. */
  ghost predicate HailMeans(t: seq<Act>, m: Mark, id: Id, which: Which) {
    m.going ==>
      && (exists d: nat :: LastDeactivation(t, d, id))
      && (m.hail.Termed? ==> exists d: nat, i: nat :: SentTerm(t, d, i, id, which))
      && (m.hail.Hushed? ==> AskedToEnd(t, id, which))
      && (m.hail.Begun? ==> StartedAgain(t, id, which))
  }

  lemma LastKept(t: seq<Act>, a: Act, d: nat, id: Id)
    requires LastDeactivation(t, d, id) && a != Deactivate(id) && !Activates(a, id)
    ensures LastDeactivation(t + [a], d, id)
  {
  }

  /** What held of the time since the last deactivation still holds. */
  lemma HailKept(t: seq<Act>, a: Act, m: Mark, id: Id, which: Which)
    requires HailMeans(t, m, id, which) && a != Deactivate(id) && !Activates(a, id)
    ensures HailMeans(t + [a], m, id, which)
  {
    hide LastDeactivation;
    var t' := t + [a];
    if m.going {
      var d: nat :| LastDeactivation(t, d, id);
      LastKept(t, a, d, id);
      if m.hail.Termed? {
        var d: nat, i: nat :| SentTerm(t, d, i, id, which);
        LastKept(t, a, d, id);
        assert t'[i] == t[i];
        assert SentTerm(t', d, i, id, which);
      }
      if m.hail.Hushed? {
        var d: nat, i: nat, j: nat :| SentTerm(t, d, i, id, which) && i < j < |t| && t[j] == Signal(id, which, CONT, false);
        LastKept(t, a, d, id);
        assert t'[i] == t[i] && t'[j] == t[j];
        assert SentTerm(t', d, i, id, which);
      }
      if m.hail.Begun? {
        var d: nat, i: nat :| LastDeactivation(t, d, id) && d < i < |t| && Starts(t[i], id, which);
        LastKept(t, a, d, id);
        assert t'[i] == t[i];
      }
    }
  }

  /** The act itself: SIGTERM, SIGCONT after it, or a start. */
  lemma HailStep(t: seq<Act>, a: Act, m: Mark, id: Id, which: Which)
    requires HailMeans(t, m, id, which) && m.going && a != Deactivate(id) && !Activates(a, id)
    ensures HailMeans(t + [a], NextMark(m, a, id, which), id, which)
  {
    hide LastDeactivation;
    HailKept(t, a, m, id, which);
    var t' := t + [a];
    var d: nat :| LastDeactivation(t, d, id);
    LastKept(t, a, d, id);
    assert d < |t| by { LastInside(t, d, id); }
    assert t'[|t|] == a;
    if a == Signal(id, which, TERM, false) {
      assert SentTerm(t', d, |t|, id, which);
    } else if a == Signal(id, which, CONT, false) && m.hail.Termed? {
      var d: nat, i: nat :| SentTerm(t, d, i, id, which);
      LastKept(t, a, d, id);
      assert t'[i] == t[i];
      assert SentTerm(t', d, i, id, which);
    }
  }

  lemma LastInside(t: seq<Act>, d: nat, id: Id)
    requires LastDeactivation(t, d, id)
    ensures d < |t|
  {
  }

  lemma {:induction false} HailMeaning(t: seq<Act>, id: Id, which: Which)
    ensures HailMeans(t, MarkOf(t, id, which), id, which)
  {
    hide MarkOf, HailMeans, LastDeactivation;
    if t == [] {
      assert HailMeans(t, MarkOf(t, id, which), id, which) by { NoHail(id, which); }
    } else {
      var front, a := t[..|t| - 1], t[|t| - 1];
      assert front + [a] == t;
      HailMeaning(front, id, which);
      MarkNext(front, a, id);
      HailNext(front, a, id, which);
    }
  }

  lemma NoHail(id: Id, which: Which)
    ensures HailMeans([], MarkOf([], id, which), id, which)
  {
  }

  lemma HailNext(t: seq<Act>, a: Act, id: Id, which: Which)
    requires HailMeans(t, MarkOf(t, id, which), id, which)
    ensures HailMeans(t + [a], NextMark(MarkOf(t, id, which), a, id, which), id, which)
  {
    hide MarkOf, LastDeactivation, NextHail;
    var m := MarkOf(t, id, which);
    if a == Deactivate(id) {
      assert LastDeactivation(t + [a], |t|, id) by { JustDeactivated(t, id); }
    } else if m.going && !Activates(a, id) {
      HailStep(t, a, m, id, which);
    }
  }

  lemma JustDeactivated(t: seq<Act>, id: Id)
    ensures LastDeactivation(t + [Deactivate(id)], |t|, id)
  {
  }

  /** Without a failed fork nothing of a service that is to go is started. */
  lemma {:induction false} BegunStays(t: seq<Act>, id: Id, which: Which)
    requires Good(t) && MarkOf(t, id, which).hail.Begun?
    ensures !Culling(t, id)
  {
    hide MarkOf, Good, Culling, Proc, DownWanted, OnceOf, Owed;
    if t == [] {
      NoMark(id, which);
    } else {
      var front, a := t[..|t| - 1], t[|t| - 1];
      assert front + [a] == t;
      MarkNext(front, a, id);
      Appended(front, a, id);
      if MarkOf(front, id, which).hail.Begun? {
        BegunStays(front, id, which);
      }
    }
  }

  lemma NoMark(id: Id, which: Which)
    ensures MarkOf([], id, which) == UNMARKED
  {
  }

  /** The process whose turn it is to end: main, or the logger when main is gone and not to be retried. */
  predicate HasTurn(sv: Svdef, which: Which) {
    which.Main? || (sv.main.pid == 0 && !sv.main.failing)
  }

  /** In every run, whatever forks fail: a service that is to go, because its directory is gone or the
      daemon is to end, has asked the process whose turn it is to end: unless running reset it got
      SIGTERM, then SIGCONT, after the last deactivation. The one exception is a process that was failing
      and that a retry started after that; without a failed fork there is none. */
  lemma RunsAskToEnd(answers: seq<Answer>, es: seq<Event>, i: nat, which: Which)
    requires i < |Steps(Init(answers), es).svs|
    requires var sv := Steps(Init(answers), es).svs[i]; sv.cull && HasTurn(sv, which) && Started(sv.Get(which))
    ensures var st := Steps(Init(answers), es);
            var id := st.svs[i].id;
            && (AskedToEnd(st.w.trace, id, which) || StartedAgain(st.w.trace, id, which))
            && (st.w.forkFailures == 0 ==> AskedToEnd(st.w.trace, id, which))
  {
    hide Steps, Init, AskedToEnd, StartedAgain, MarkOf, Facts, Settled, Remembered, LastDeactivation, Recorded;
    var st := Steps(Init(answers), es);
    var id := st.svs[i].id;
    RunsDutiful(answers, es);
    assert Duty(st.w.trace, st.svs[i]);
    HailMeaning(st.w.trace, id, which);
    if st.w.forkFailures == 0 {
      RunsLawful(answers, es);
      FactsCulling(st, i);
      if MarkOf(st.w.trace, id, which).hail.Begun? {
        BegunStays(st.w.trace, id, which);
      }
    }
  }

  /** The service of the run below: with a logger, and nothing special. */
  const SERVICE := Dir(Id(1, 1), true, false, false, true, ZERO)

  /** The logger's fork succeeds, main's fails, the retry succeeds. */
  const ANSWERS := [Answer(ZERO, 7), Answer(ZERO, -1), Answer(ZERO, 8)]

  /** The exception is real. The directory is found, then gone, then found again, and then there is a
      retry: the deactivated service runs main, which was never sent a signal. */
  lemma GoingStarted()
    ensures var there, gone := Rescan(Listing([SERVICE], true)), Rescan(Listing([], true));
            var st := Steps(Init(ANSWERS), [there, gone, there, Failing]);
            && |st.svs| == 1 && st.svs[0].cull && Started(st.svs[0].main)
            && forall k :: 0 <= k < |st.w.trace| ==> !(st.w.trace[k].Signal? && st.w.trace[k].which == Main)
  {
    hide NextOk, Later;
    var d, id := SERVICE, SERVICE.id;
    var there, gone := Rescan(Listing([d], true)), Rescan(Listing([], true));
    var es := [there, gone, there, Failing];
    var st0 := Init(ANSWERS);
    var st1 := Step(st0, there);
    var st2 := Step(st1, gone);
    var st3 := Step(st2, there);
    RunOfFour(st0, there, gone, there, Failing);
    FoundFirst();
    GoneThen(st1);
    FoundAgain(st2, d);
    RetriedThen(st3);
  }

  lemma RunOfFour(st: State, a: Event, b: Event, c: Event, e: Event)
    ensures Steps(st, [a, b, c, e]) == Step(Step(Step(Step(st, a), b), c), e)
  {
    hide Step;
    assert [a, b, c, e][..3] == [a, b, c] && [a, b, c][..2] == [a, b] && [a, b][..1] == [a] && [a][..0] == [];
    assert Steps(st, []) == st;
    assert Steps(st, [a]) == Step(st, a);
    assert Steps(st, [a, b]) == Step(Step(st, a), b);
    assert Steps(st, [a, b, c]) == Step(Step(Step(st, a), b), c);
  }

  /** The logger is live, main failing to start. */
  predicate HalfUp(sv: Svdef, cull: bool) {
    && sv.id == SERVICE.id && sv.active && sv.hasLog && sv.cull == cull && sv.log.pid == 7 && !sv.log.failing
    && sv.main.pid == 0 && sv.main.failing && !sv.main.isReset
  }

  /** One such entry, and no signal to main so far. */
  ghost predicate Half(st: State, cull: bool) {
    && |st.svs| == 1 && HalfUp(st.svs[0], cull)
    && !st.w.terminating && st.w.flagFailing && st.w.answers == [Answer(ZERO, 8)] && st.w.children == {7}
    && NoMainSignal(st.w.trace)
  }

  ghost predicate NoMainSignal(t: seq<Act>) {
    forall k :: 0 <= k < |t| ==> !(t[k].Signal? && t[k].which == Main)
  }

  lemma LoggerUp(w: World)
    requires w.answers == ANSWERS && w.children == {} && NoMainSignal(w.trace) && !w.terminating
    ensures var r := Run(Opening(SERVICE), Log, Start, w);
            && r.0 == Opening(SERVICE).(log := r.0.log) && r.0.log.pid == 7 && !r.0.log.failing
            && r.1.answers == [Answer(ZERO, -1), Answer(ZERO, 8)] && r.1.children == {7} && !r.1.terminating
            && NoMainSignal(r.1.trace)
  {
    hide NextOk, Later;
  }

  lemma MainFails(sv: Svdef, w: World)
    requires sv == Opening(SERVICE).(log := sv.log) && w.answers == [Answer(ZERO, -1), Answer(ZERO, 8)]
    requires !w.terminating && NoMainSignal(w.trace)
    ensures var r := Run(sv, Main, Start, w);
            && r.0 == sv.(main := r.0.main) && r.0.main.pid == 0 && r.0.main.failing && !r.0.main.isReset
            && r.1.answers == [Answer(ZERO, 8)] && r.1.children == w.children && r.1.flagFailing && !r.1.terminating
            && NoMainSignal(r.1.trace)
  {
  }

  lemma FirstUp(w: World)
    requires w.answers == ANSWERS && w.children == {} && w.trace == [] && !w.terminating
    ensures var r := ActivateNew(SERVICE, w); Half(State([r.0.(active := true)], r.1), false)
  {
    hide Run;
    var w0 := w.Did(Activate(SERVICE.id, false, false));
    LoggerUp(w0);
    var r1 := Run(Opening(SERVICE), Log, Start, w0);
    MainFails(r1.0, r1.1);
  }

  lemma FoundFirst()
    ensures Half(Step(Init(ANSWERS), Rescan(Listing([SERVICE], true))), false)
  {
    hide ActivateNew, HalfUp, NoMainSignal;
    var d, w := SERVICE, Init(ANSWERS).w.(flagHup := false);
    var g0 := Scanning(State(Unflag([]), w), false);
    assert [d][..0] == [];
    assert ScanDirs(g0, [d][..0]) == g0;
    assert ScanDirs(g0, [d]) == ScanOne(g0, d);
    FirstUp(w);
    var r := ActivateNew(d, w);
    var svs := [r.0.(active := true)];
    assert Unflag([]) == [];
    assert ScanOne(g0, d).st.svs == svs;
    assert svs[..0] == [];
    assert DropAll(svs[..0], r.1) == Sweeping([], r.1, false);
    assert DropAll(svs, r.1) == Sweeping(svs, r.1, false);
    EndKeeps(r.1.trace, ScanDone);
  }

  lemma EndKeeps(t: seq<Act>, a: Act)
    requires NoMainSignal(t) && !a.Signal?
    ensures NoMainSignal(t + [a])
  {
  }

  lemma GoneThen(st: State)
    requires Half(st, false)
    ensures var r := Step(st, Rescan(Listing([], true)));
            |r.svs| == 1 && r.svs[0].active == false && Half(State([r.svs[0].(active := true)], r.w), true)
  {
    var w := st.w.(flagHup := false);
    var sv := st.svs[0].(active := false);
    assert Unflag(st.svs) == [sv];
    var g0 := Scanning(State([sv], w), false);
    assert ScanDirs(g0, []) == g0;
    assert [sv][..0] == [];
    assert DropAll([sv][..0], w) == Sweeping([], w, false);
    var r := Wantcull(sv, w);
    assert DropAll([sv], w) == Sweeping([r.0], r.1, false);
  }

  lemma FoundAgain(st: State, d: Dir)
    requires d == SERVICE && |st.svs| == 1 && Half(State([st.svs[0].(active := true)], st.w), true)
    ensures Half(Step(st, Rescan(Listing([d], true))), true)
  {
    var w := st.w.(flagHup := false);
    var sv := st.svs[0].(active := false);
    assert Unflag(st.svs) == [sv];
    var g0 := Scanning(State([sv], w), false);
    assert [d][..0] == [];
    assert ScanDirs(g0, [d][..0]) == g0;
    assert Lookup([sv], d.id) == 0;
    var kept := sv.(active := true, cycle := true);
    assert ScanDirs(g0, [d]) == Scanning(State([kept], w), false);
    assert [kept][..0] == [];
    assert DropAll([kept][..0], w) == Sweeping([], w, false);
    assert DropAll([kept], w) == Sweeping([kept], w, false);
  }

  lemma RetriedThen(st: State)
    requires Half(st, true)
    ensures var r := Step(st, Failing);
            |r.svs| == 1 && r.svs[0].cull && Started(r.svs[0].main) && NoMainSignal(r.w.trace)
  {
    hide NextOk, Later;
    var w := st.w.(flagFailing := false).Did(Retried);
    assert st.svs[..0] == [];
    assert CheckfailAll(st.svs[..0], w) == ([], w);
    var r := Checkfail(st.svs[0], w);
    assert CheckfailAll(st.svs, w) == ([] + [r.0], r.1);
  }

  lemma FactsCulling(st: State, i: nat)
    requires Facts(st) && i < |st.svs|
    ensures Good(st.w.trace) && Culling(st.w.trace, st.svs[i].id) == st.svs[i].cull
  {
    hide Good, Proc, Culling, DownWanted, OnceOf;
    assert Told(st.w.trace, st.svs[i]);
  }

  // ---- the last attempt ----

  /** Position k is the last attempt to run the process since its service was activated. */
  ghost predicate LastAttempt(t: seq<Act>, k: nat, id: Id, which: Which) {
    && k < |t| && Attempt(t[k], id, which)
    && forall j :: k < j < |t| ==> !Attempt(t[j], id, which) && !Activates(t[j], id)
  }

  lemma {:induction false} TriedMeans(t: seq<Act>, id: Id, which: Which)
    requires MarkOf(t, id, which).tried.Last?
    ensures exists k: nat :: LastAttempt(t, k, id, which) && t[k] == MarkOf(t, id, which).tried.act
  {
    hide MarkOf, NextHail;
    if t == [] {
      NoMark(id, which);
    } else {
      var last := |t| - 1;
      var front, a := t[..last], t[last];
      assert front + [a] == t;
      MarkNext(front, a, id);
      if Attempt(a, id, which) {
        assert LastAttempt(t, last, id, which);
      } else if !Activates(a, id) {
        TriedMeans(front, id, which);
        var k: nat :| LastAttempt(front, k, id, which) && front[k] == MarkOf(front, id, which).tried.act;
        assert LastAttempt(t, k, id, which);
      }
    }
  }

  /** In every run, whatever forks fail: a live process is the last one launched for it, with the goal
      and the clock reading the entry has; and a failing one is the last whose fork failed, with the goal
      that the retry will attempt. */
  lemma RunsRecord(answers: seq<Answer>, es: seq<Event>, i: nat, which: Which)
    requires i < |Steps(Init(answers), es).svs|
    ensures var st := Steps(Init(answers), es);
            var id, s, t := st.svs[i].id, st.svs[i].Get(which), st.w.trace;
            && (s.pid > 0 ==> exists k: nat ::
                  && LastAttempt(t, k, id, which) && t[k].Launch? && t[k].goal == GoalOf(s)
                  && t[k].pid == s.pid && t[k].now == s.when)
            && (s.failing ==> s.pid == 0 && exists k: nat :: LastAttempt(t, k, id, which) && t[k] == ForkFailed(id, which, GoalOf(s)))
  {
    hide Steps, Init, MarkOf, MainAsked, LogAsked;
    var st := Steps(Init(answers), es);
    var id, s, t := st.svs[i].id, st.svs[i].Get(which), st.w.trace;
    RunsDutiful(answers, es);
    assert Duty(t, st.svs[i]);
    if s.pid > 0 || s.failing {
      TriedMeans(t, id, which);
      var k: nat :| LastAttempt(t, k, id, which) && t[k] == MarkOf(t, id, which).tried.act;
    }
  }

  // ---- pauses ----

  /** At position k the process was stopped, and not continued since. */
  ghost predicate StoppedAt(t: seq<Act>, k: nat, id: Id, which: Which) {
    && k < |t| && Signals(t[k], id, which, STOP)
    && forall j :: k < j < |t| ==> !Signals(t[j], id, which, CONT) && !Activates(t[j], id)
  }

  ghost predicate LaunchedSince(t: seq<Act>, k: nat, id: Id, which: Which) {
    exists j :: k < j < |t| && t[j].Launch? && t[j].id == id && t[j].which == which
  }

  lemma {:induction false} StoppedMeans(t: seq<Act>, id: Id, which: Which)
    ensures MarkOf(t, id, which).stopped <==> exists k: nat :: StoppedAt(t, k, id, which)
    ensures MarkOf(t, id, which).held <==> exists k: nat :: StoppedAt(t, k, id, which) && !LaunchedSince(t, k, id, which)
  {
    hide MarkOf, NextHail;
    if t == [] {
      NoMark(id, which);
    } else {
      var last := |t| - 1;
      var front, a := t[..last], t[last];
      assert front + [a] == t;
      MarkNext(front, a, id);
      StoppedMeans(front, id, which);
      forall k: nat | k < last
        ensures StoppedAt(t, k, id, which) <==>
                StoppedAt(front, k, id, which) && !Signals(a, id, which, CONT) && !Activates(a, id)
        ensures LaunchedSince(t, k, id, which) <==>
                LaunchedSince(front, k, id, which) || (a.Launch? && a.id == id && a.which == which)
      {
        StopNext(front, a, k, id, which);
      }
      assert StoppedAt(t, last, id, which) <==> Signals(a, id, which, STOP);
    }
  }

  lemma StopNext(t: seq<Act>, a: Act, k: nat, id: Id, which: Which)
    requires k < |t|
    ensures StoppedAt(t + [a], k, id, which) <==> StoppedAt(t, k, id, which) && !Signals(a, id, which, CONT) && !Activates(a, id)
    ensures LaunchedSince(t + [a], k, id, which) <==>
            LaunchedSince(t, k, id, which) || (a.Launch? && a.id == id && a.which == which)
  {
    var t' := t + [a];
    assert t'[|t|] == a;
    if LaunchedSince(t, k, id, which) {
      var j :| k < j < |t| && t[j].Launch? && t[j].id == id && t[j].which == which;
      assert t'[j] == t[j];
    }
    if StoppedAt(t', k, id, which) {
      forall j | k < j < |t|
        ensures !Signals(t[j], id, which, CONT) && !Activates(t[j], id)
      {
        assert t'[j] == t[j];
      }
    }
  }

  /** In every run, whatever forks fail: a process marked paused was sent SIGSTOP and no SIGCONT since;
      and a live process that was sent SIGSTOP and no SIGCONT since it was launched is marked. */
  lemma RunsPause(answers: seq<Answer>, es: seq<Event>, i: nat, which: Which)
    requires i < |Steps(Init(answers), es).svs|
    ensures var st := Steps(Init(answers), es);
            var id, s, t := st.svs[i].id, st.svs[i].Get(which), st.w.trace;
            && (s.isPaused ==> exists k: nat :: StoppedAt(t, k, id, which))
            && (s.pid > 0 && (exists k: nat :: StoppedAt(t, k, id, which) && !LaunchedSince(t, k, id, which)) ==> s.isPaused)
  {
    hide Steps, Init, MarkOf, StoppedAt, LaunchedSince, MainAsked, LogAsked;
    var st := Steps(Init(answers), es);
    RunsDutiful(answers, es);
    assert Duty(st.w.trace, st.svs[i]);
    StoppedMeans(st.w.trace, st.svs[i].id, which);
  }
}
