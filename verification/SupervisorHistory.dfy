/** The life of each process as an outside observer sees it, and the rules it follows in every run
    in which every fork succeeds. */
module SupervisorHistory {
  import opened Tain
  import opened Supervisor
  import opened SupervisorTable

  /** A process between events: none, a live one with its goal, one that left "start" and awaits its
      "reset", or a violation of the start / reset alternation. */
  datatype Phase = Idle | Live(goal: Goal, pid: nat) | Exited | Broken

  /** start only from idle, reset only after start was reaped, and only the live process is reaped. */
  function NextPhase(p: Phase, a: Act, id: Id, which: Which): Phase {
    match a
    case Launch(i, x, goal, pid, _, _) =>
      if i != id || x != which then p
      else if p == Idle && goal.Start? then Live(Start, pid)
      else if p == Exited && goal.Reset? then Live(Reset, pid)
      else Broken
    case Reap(pid) =>
      if p == Live(Start, pid) then Exited else if p == Live(Reset, pid) then Idle else p
    case _ => p
  }

  function Proc(trace: seq<Act>, id: Id, which: Which): Phase {
    if trace == [] then Idle else
      NextPhase(Proc(trace[..|trace| - 1], id, which), trace[|trace| - 1], id, which)
  }

  function NextCulling(c: bool, a: Act, id: Id): bool {
    match a
    case Deactivate(i) => c || i == id
    case Remove(i, _) => c && i != id
    case _ => c
  }

  /** The service is being deactivated. */
  function Culling(trace: seq<Act>, id: Id): bool {
    if trace == [] then false else NextCulling(Culling(trace[..|trace| - 1], id), trace[|trace| - 1], id)
  }

  function NextOwed(o: bool, a: Act): bool {
    match a
    case Remove(_, cycle) => o || cycle
    case ScanDone => false
    case ScanLost => false
    case _ => o
  }

  /** A service that asked to be reactivated was removed; since then no scan succeeded, and none
      found the base directory unreadable. */
  function Owed(trace: seq<Act>): bool {
    if trace == [] then false else NextOwed(Owed(trace[..|trace| - 1]), trace[|trace| - 1])
  }

  function NextDownWanted(d: bool, a: Act, id: Id, which: Which): bool {
    match a
    case WishDown(i, x) => d || (i == id && x == which)
    case WishUp(i, x, _) => d && !(i == id && x == which)
    case Activate(i, down, _) => if i == id then which.Main? && down else d
    case Remove(i, _) => d && i != id
    case _ => d
  }

  /** The process was asked to stay down, or activated so, and not asked up since. */
  function DownWanted(trace: seq<Act>, id: Id, which: Which): bool {
    if trace == [] then false else
      NextDownWanted(DownWanted(trace[..|trace| - 1], id, which), trace[|trace| - 1], id, which)
  }

  /** How often a process may be started: as often as need be, once, or not again. */
  datatype Once = Many | Armed | Spent

  function NextOnce(o: Once, a: Act, id: Id, which: Which): Once {
    match a
    case WishUp(i, x, once) => if i != id || x != which then o else if once then Armed else Many
    case Activate(i, down, once) => if i != id then o else if which.Main? && once && !down then Armed else Many
    case Remove(i, _) => if i == id then Many else o
    case Launch(i, x, goal, _, _, _) => if i == id && x == which && goal.Start? && o == Armed then Spent else o
    case _ => o
  }

  function OnceOf(trace: seq<Act>, id: Id, which: Which): Once {
    if trace == [] then Many else NextOnce(OnceOf(trace[..|trace| - 1], id, which), trace[|trace| - 1], id, which)
  }

  /** While a service is being deactivated nothing of it is started, and its logger is asked to end
      only when its main process is gone. A process that was asked down is not started, nor one that has run its once. Signals go to
      live processes, and to one running reset only SIGCONT and SIGKILL. */
  predicate GoodAct(trace: seq<Act>, a: Act) {
    match a
    case Launch(id, which, goal, _, _, _) =>
      goal.Start? ==> !Culling(trace, id) && !DownWanted(trace, id, which) && OnceOf(trace, id, which) != Spent
    case Signal(id, which, sig, _) =>
      && (which.Log? && sig == TERM && Culling(trace, id) ==> Proc(trace, id, Main) == Idle)
      && Proc(trace, id, which).Live? && (Proc(trace, id, which).goal.Reset? ==> sig == CONT || sig == KILL)
    case _ => true
  }

  predicate Good(trace: seq<Act>) {
    trace == [] || (Good(trace[..|trace| - 1]) && GoodAct(trace[..|trace| - 1], trace[|trace| - 1]))
  }

  // ---- appending to a history ----

  lemma Appended(trace: seq<Act>, a: Act, id: Id)
    ensures forall which :: Proc(trace + [a], id, which) == NextPhase(Proc(trace, id, which), a, id, which)
    ensures Culling(trace + [a], id) == NextCulling(Culling(trace, id), a, id)
    ensures forall which :: DownWanted(trace + [a], id, which) == NextDownWanted(DownWanted(trace, id, which), a, id, which)
    ensures forall which :: OnceOf(trace + [a], id, which) == NextOnce(OnceOf(trace, id, which), a, id, which)
    ensures Owed(trace + [a]) == NextOwed(Owed(trace), a)
    ensures Good(trace + [a]) <==> Good(trace) && GoodAct(trace, a)
  {
    assert (trace + [a])[..|trace|] == trace;
  }

  /** An act that concerns one service and removes nothing. */
  predicate About(a: Act, id: Id) {
    match a
    case Launch(i, _, _, _, _, _) => i == id
    case ForkFailed(i, _, _) => i == id
    case Signal(i, _, _, _) => i == id
    case WishDown(i, _) => i == id
    case WishUp(i, _, _) => i == id
    case Activate(i, _, _) => i == id
    case Deactivate(i) => i == id
    case _ => false
  }

  /** w' comes after w by acts about one service; flags other than "failing" stay. */
  ghost predicate After(w: World, w': World, id: Id) {
    && w.trace <= w'.trace
    && (forall k :: |w.trace| <= k < |w'.trace| ==> About(w'.trace[k], id))
    && w.forkFailures <= w'.forkFailures
    && w'.flagHup == w.flagHup && w'.terminating == w.terminating && (w.flagFailing ==> w'.flagFailing)
  }

  lemma AfterTwice(w: World, w1: World, w2: World, id: Id)
    requires After(w, w1, id) && After(w1, w2, id)
    ensures After(w, w2, id)
  {
    hide About;
    forall k | |w.trace| <= k < |w2.trace|
      ensures About(w2.trace[k], id)
    {
      if k < |w1.trace| {
        assert w2.trace[k] == w1.trace[k];
      }
    }
  }

  lemma AfterDid(w: World, a: Act, id: Id)
    requires About(a, id)
    ensures After(w, w.Did(a), id)
  {
  }

  /** Other services do not notice. */
  lemma {:induction false} OthersSame(t: seq<Act>, t': seq<Act>, id: Id, other: Id)
    requires t <= t' && id != other
    requires forall k :: |t| <= k < |t'| ==> About(t'[k], id)
    ensures Proc(t', other, Main) == Proc(t, other, Main) && Proc(t', other, Log) == Proc(t, other, Log)
    ensures Culling(t', other) == Culling(t, other)
    ensures DownWanted(t', other, Main) == DownWanted(t, other, Main) && DownWanted(t', other, Log) == DownWanted(t, other, Log)
    ensures OnceOf(t', other, Main) == OnceOf(t, other, Main) && OnceOf(t', other, Log) == OnceOf(t, other, Log)
    ensures Owed(t') == Owed(t)
    decreases |t'|
  {
    if |t| == |t'| {
      assert t == t';
    } else {
      var last := |t'| - 1;
      assert t'[..last] + [t'[last]] == t';
      OthersSame(t, t'[..last], id, other);
      Appended(t'[..last], t'[last], other);
    }
  }

  // ---- one service ----

  function View(s: Sub): Phase {
    if s.pid == 0 then Idle else Live(if s.isReset then Reset else Start, s.pid)
  }

  /** The flags of a process agree with what was asked of it. */
  predicate ToldWish(trace: seq<Act>, id: Id, which: Which, s: Sub) {
    && (DownWanted(trace, id, which) ==> s.wantDown)
    && (!OnceOf(trace, id, which).Many? ==> s.isOnce)
  }

  predicate ToldSub(trace: seq<Act>, id: Id, which: Which, s: Sub) {
    && Proc(trace, id, which) == View(s) && !s.failing && ToldWish(trace, id, which, s)
    && (OnceOf(trace, id, which) == Spent ==> s.pid > 0 || s.wantDown)
  }

  /** Deactivation has been recorded, and means both processes are wanted down. */
  predicate ToldCull(trace: seq<Act>, sv: Svdef) {
    && Culling(trace, sv.id) == sv.cull
    && (sv.cull ==> sv.main.wantDown && (sv.hasLog ==> sv.log.wantDown))
    && (sv.cycle ==> sv.cull)
  }

  /** The flags of the entry agree with the history of its processes. */
  predicate Told(trace: seq<Act>, sv: Svdef) {
    && ToldSub(trace, sv.id, Main, sv.main) && ToldSub(trace, sv.id, Log, sv.log)
    && ToldCull(trace, sv)
  }

  function Other(which: Which): Which {
    if which.Main? then Log else Main
  }

  /** A step of one service that keeps to the rules as long as no fork fails. */
  ghost predicate Lawful(sv: Svdef, w: World, sv': Svdef, w': World) {
    && sv'.id == sv.id && After(w, w', sv.id)
    && (w'.forkFailures == w.forkFailures && Good(w.trace) && Told(w.trace, sv) ==>
          Good(w'.trace) && Told(w'.trace, sv'))
  }

  lemma LawfulTwice(sv: Svdef, w: World, sv1: Svdef, w1: World, sv2: Svdef, w2: World)
    requires Lawful(sv, w, sv1, w1) && Lawful(sv1, w1, sv2, w2)
    ensures Lawful(sv, w, sv2, w2)
  {
    hide Good, Told, After;
    AfterTwice(w, w1, w2, sv.id);
    AfterFailures(w, w1, sv.id);
    AfterFailures(w1, w2, sv.id);
  }

  lemma AfterFailures(w: World, w': World, id: Id)
    requires After(w, w', id)
    ensures w.forkFailures <= w'.forkFailures
  {
  }

  lemma AfterRefl(w: World, id: Id)
    ensures After(w, w, id)
  {
  }

  /** A signal: allowed unless it asks the logger of a deactivating service to end too early. */
  lemma SignalLawful(sv: Svdef, which: Which, sig: Sig, group: bool, w: World)
    requires which.Log? && sig == TERM && sv.cull ==> sv.main.pid == 0
    requires sv.Get(which).pid > 0 && (sv.Get(which).isReset ==> sig == CONT || sig == KILL)
    ensures Lawful(sv, w, sv, w.Did(Signal(sv.id, which, sig, group)))
  {
    hide Good, Proc, Culling, DownWanted, OnceOf;
    var a := Signal(sv.id, which, sig, group);
    AfterDid(w, a, sv.id);
    Appended(w.trace, a, sv.id);
  }

  /** Changing flags that the history does not speak of. */
  lemma FlagsLawful(sv: Svdef, w: World, sv': Svdef)
    requires sv'.id == sv.id && sv'.hasLog == sv.hasLog && sv'.cull == sv.cull && (sv'.cycle ==> sv.cycle || sv.cull)
    requires View(sv'.main) == View(sv.main) && View(sv'.log) == View(sv.log)
    requires sv'.main.failing == sv.main.failing && sv'.log.failing == sv.log.failing
    requires sv'.main.isOnce == sv.main.isOnce && sv'.log.isOnce == sv.log.isOnce
    requires (sv.main.wantDown ==> sv'.main.wantDown) && (sv.log.wantDown ==> sv'.log.wantDown)
    ensures Lawful(sv, w, sv', w)
  {
    hide Good, Proc, Culling, DownWanted, OnceOf;
    AfterRefl(w, sv.id);
  }

  lemma DoKillLawful(sv: Svdef, which: Which, sig: Sig, group: bool, w: World)
    requires !sv.cull
    ensures Lawful(sv, w, sv, DoKill(sv, which, sig, group, w))
  {
    hide Lawful;
    FlagsLawful(sv, w, sv);
    if DoKill(sv, which, sig, group, w) != w {
      SignalLawful(sv, which, sig, group, w);
    }
  }

  lemma StuckAfter(sv: Svdef, which: Which, goal: Goal, w: World)
    ensures var r := Stuck(sv, which, goal, w);
            r.0.id == sv.id && After(w, r.1, sv.id) && r.1.forkFailures > w.forkFailures
  {
  }

  lemma LaunchedAfter(sv: Svdef, which: Which, goal: Goal, w: World)
    requires Forks(w)
    ensures var r := Launched(sv, which, goal, w);
            r.0.id == sv.id && After(w, r.1, sv.id) && r.1.forkFailures == w.forkFailures
  {
    hide NextOk, Later;
  }

  /** What a successful launch needs of the history before it. */
  predicate MayLaunch(trace: seq<Act>, sv: Svdef, which: Which, goal: Goal) {
    && Proc(trace, sv.id, which) == (if goal.Start? then Idle else Exited)
    && ToldSub(trace, sv.id, Other(which), sv.Get(Other(which)))
    && ToldCull(trace, sv)
    && (goal.Start? ==> !sv.cull && !DownWanted(trace, sv.id, which) && OnceOf(trace, sv.id, which) != Spent)
    && ToldWish(trace, sv.id, which, sv.Get(which))
  }

  /** What a successful launch makes of an entry and the history. */
  lemma LaunchParts(sv: Svdef, which: Which, goal: Goal, w: World)
    requires Forks(w)
    ensures var now, was := NextAnswer(w).now, sv.Get(which).whenOk;
            var r := Launched(sv, which, goal, w);
            && r.1.trace == w.trace + [Launch(sv.id, which, goal, NextAnswer(w).pid, now, Later(now, was))]
            && r.0.id == sv.id && r.0.Get(Other(which)) == sv.Get(Other(which))
            && r.0.Get(which).whenOk == (if goal.Start? then NextOk(now, was) else was)
            && r.0.Get(which).pid == NextAnswer(w).pid > 0 && r.0.Get(which).isReset == goal.Reset?
            && !r.0.Get(which).failing && SameWishes(sv, r.0, which)
            && r.0.Get(which).when == now && r.0.Get(which).isPaused == sv.Get(which).isPaused
  {
    hide NextOk, Later;
    match which
    case Main =>
    case Log =>
  }

  lemma NewlyTold(sv: Svdef, which: Which, goal: Goal, trace: seq<Act>, sv': Svdef, a: Act)
    requires Good(trace) && MayLaunch(trace, sv, which, goal)
    requires a.Launch? && a.id == sv.id && a.which == which && a.goal == goal
    requires sv'.id == sv.id && SameWishes(sv, sv', which)
    requires sv'.Get(which).pid == a.pid > 0 && sv'.Get(which).isReset == goal.Reset? && !sv'.Get(which).failing
    ensures Good(trace + [a]) && Told(trace + [a], sv')
  {
    hide Good, Proc, Culling, DownWanted, OnceOf;
    Appended(trace, a, sv.id);
  }

  lemma LaunchedTold(sv: Svdef, which: Which, goal: Goal, w: World)
    requires Forks(w) && Good(w.trace) && MayLaunch(w.trace, sv, which, goal)
    ensures var r := Launched(sv, which, goal, w); Good(r.1.trace) && Told(r.1.trace, r.0)
  {
    hide *;
    var now, was := NextAnswer(w).now, sv.Get(which).whenOk;
    LaunchParts(sv, which, goal, w);
    NewlyTold(sv, which, goal, w.trace, Launched(sv, which, goal, w).0,
              Launch(sv.id, which, goal, NextAnswer(w).pid, now, Later(now, was)));
  }

  /** Run, as far as the rules are concerned. */
  lemma RunTold(sv: Svdef, which: Which, goal: Goal, w: World)
    ensures var r := Run(sv, which, goal, w);
            && r.0.id == sv.id && After(w, r.1, sv.id)
            && ((r.1.forkFailures == w.forkFailures && Good(w.trace) && !Refuses(sv, which)
                 && MayLaunch(w.trace, sv, which, goal)) ==> Good(r.1.trace) && Told(r.1.trace, r.0))
  {
    hide Good, Told, MayLaunch, Launched, Stuck, Forks, After;
    AfterRefl(w, sv.id);
    StuckAfter(sv, which, goal, w);
    if Forks(w) {
      LaunchedAfter(sv, which, goal, w);
      if Good(w.trace) && MayLaunch(w.trace, sv, which, goal) {
        LaunchedTold(sv, which, goal, w);
      }
    }
  }

  /** Launching is no wish, and no start of the other process. */
  lemma RunDownWanted(sv: Svdef, which: Which, goal: Goal, w: World, x: Which)
    ensures DownWanted(Run(sv, which, goal, w).1.trace, sv.id, x) == DownWanted(w.trace, sv.id, x)
    ensures x != which ==> OnceOf(Run(sv, which, goal, w).1.trace, sv.id, x) == OnceOf(w.trace, sv.id, x)
  {
    hide DownWanted, OnceOf, Proc, Culling, Owed, Good, Launched, Forks;
    Appended(w.trace, ForkFailed(sv.id, which, goal), sv.id);
    if Forks(w) {
      LaunchParts(sv, which, goal, w);
      Appended(w.trace, Launch(sv.id, which, goal, NextAnswer(w).pid, NextAnswer(w).now, Later(NextAnswer(w).now, sv.Get(which).whenOk)), sv.id);
    }
  }

  /** Bringing up what is down. */
  lemma StartLawful(sv: Svdef, which: Which, w: World)
    requires !sv.cull && !DownWanted(w.trace, sv.id, which) && OnceOf(w.trace, sv.id, which) != Spent
    ensures var r := Run(sv, which, Start, w); Lawful(sv, w, r.0, r.1)
  {
    hide Good, Proc, Culling, DownWanted, OnceOf, After, Run;
    RunTold(sv, which, Start, w);
    RunRefused(sv, which, Start, w);
    AfterRefl(w, sv.id);
  }

  lemma RunRefused(sv: Svdef, which: Which, goal: Goal, w: World)
    ensures Refuses(sv, which) ==> Run(sv, which, goal, w) == (sv, w)
  {
  }

  lemma WishUpTold(trace: seq<Act>, sv: Svdef, which: Which, once: bool)
    requires !sv.cull && Good(trace) && Told(trace, sv)
    ensures var sv1 := sv.Set(which, sv.Get(which).(isOnce := once, wantDown := false));
            Good(trace + [WishUp(sv.id, which, once)]) && Told(trace + [WishUp(sv.id, which, once)], sv1)
  {
    hide Good, Proc, Culling, DownWanted, OnceOf;
    Appended(trace, WishUp(sv.id, which, once), sv.id);
    match which
    case Main =>
    case Log =>
  }

  /** A wish to be up, recorded. */
  lemma WishUpLawful(sv: Svdef, which: Which, once: bool, w: World)
    requires !sv.cull
    ensures var sv1 := sv.Set(which, sv.Get(which).(isOnce := once, wantDown := false));
            var w1 := w.Did(WishUp(sv.id, which, once));
            Lawful(sv, w, sv1, w1) && !DownWanted(w1.trace, sv.id, which) && OnceOf(w1.trace, sv.id, which) != Spent
  {
    hide Good, Told, After, DownWanted, OnceOf, Proc, Culling;
    AfterDid(w, WishUp(sv.id, which, once), sv.id);
    Appended(w.trace, WishUp(sv.id, which, once), sv.id);
    if Good(w.trace) && Told(w.trace, sv) {
      WishUpTold(w.trace, sv, which, once);
    }
  }

  /** A wish to be down, recorded. */
  lemma WishDownLawful(sv: Svdef, which: Which, w: World)
    ensures Lawful(sv, w, sv.Set(which, sv.Get(which).(wantDown := true)), w.Did(WishDown(sv.id, which)))
  {
    hide Lawful;
    var s := sv.Get(which).(wantDown := true);
    SetLawful(sv, which, s, w);
    WishDownNoted(sv.Set(which, s), which, w);
    LawfulTwice(sv, w, sv.Set(which, s), w, sv.Set(which, s), w.Did(WishDown(sv.id, which)));
  }

  lemma WishDownNoted(sv: Svdef, which: Which, w: World)
    requires sv.Get(which).wantDown
    ensures Lawful(sv, w, sv, w.Did(WishDown(sv.id, which)))
  {
    hide Good, Proc, Culling, DownWanted, OnceOf;
    AfterDid(w, WishDown(sv.id, which), sv.id);
    Appended(w.trace, WishDown(sv.id, which), sv.id);
  }

  lemma UpLawful(sv: Svdef, which: Which, once: bool, w: World)
    requires !sv.cull
    ensures var r := Up(sv, which, once, w); Lawful(sv, w, r.0, r.1) && r.0.cull == sv.cull
  {
    hide Lawful, Run, DownWanted, OnceOf;
    var sv1 := sv.Set(which, sv.Get(which).(isOnce := once, wantDown := false));
    var w1 := w.Did(WishUp(sv.id, which, once));
    WishUpLawful(sv, which, once, w);
    var r := Run(sv1, which, Start, w1);
    StartLawful(sv1, which, w1);
    LawfulTwice(sv, w, sv1, w1, r.0, r.1);
    RunWishes(sv1, which, Start, w1);
    match which
    case Main =>
    case Log =>
  }

  /** A launch, or a failed one, changes no wish. */
  predicate SameWishes(sv: Svdef, sv': Svdef, which: Which) {
    && sv'.cull == sv.cull && sv'.cycle == sv.cycle && sv'.active == sv.active && sv'.hasLog == sv.hasLog
    && sv'.when == sv.when && sv'.down == sv.down && sv'.once == sv.once
    && sv'.Get(Other(which)) == sv.Get(Other(which))
    && sv'.Get(which).wantDown == sv.Get(which).wantDown && sv'.Get(which).isOnce == sv.Get(which).isOnce
  }

  lemma LaunchedWishes(sv: Svdef, which: Which, goal: Goal, w: World)
    requires Forks(w)
    ensures SameWishes(sv, Launched(sv, which, goal, w).0, which)
  {
    hide NextOk, Later, Asked;
  }

  lemma StuckWishes(sv: Svdef, which: Which, goal: Goal, w: World)
    ensures SameWishes(sv, Stuck(sv, which, goal, w).0, which)
  {
    hide Asked;
  }

  lemma RunWishes(sv: Svdef, which: Which, goal: Goal, w: World)
    ensures SameWishes(sv, Run(sv, which, goal, w).0, which)
  {
    hide Launched, Stuck, Refuses, Forks;
    StuckWishes(sv, which, goal, w);
    if Forks(w) {
      LaunchedWishes(sv, which, goal, w);
    }
  }

  /** Changing flags of one process that the history does not speak of. */
  lemma SetLawful(sv: Svdef, which: Which, s: Sub, w: World)
    requires var was := sv.Get(which);
             s.pid == was.pid && s.isReset == was.isReset && s.failing == was.failing && s.isOnce == was.isOnce
             && (was.wantDown ==> s.wantDown)
    ensures Lawful(sv, w, sv.Set(which, s), w)
  {
    hide Lawful;
    match which
    case Main => FlagsLawful(sv, w, sv.Set(which, s));
    case Log => FlagsLawful(sv, w, sv.Set(which, s));
  }

  lemma ContinueLawful(sv: Svdef, which: Which, group: bool, w: World)
    requires !sv.cull
    ensures var r := Continue(sv, which, group, w); Lawful(sv, w, r.0, r.1) && r.0.cull == sv.cull
  {
    hide Lawful, DoKill;
    var sv1 := sv.Set(which, sv.Get(which).(isPaused := false));
    SetLawful(sv, which, sv.Get(which).(isPaused := false), w);
    DoKillLawful(sv1, which, CONT, group, w);
    LawfulTwice(sv, w, sv1, w, sv1, DoKill(sv1, which, CONT, group, w));
  }

  lemma DownLawful(sv: Svdef, which: Which, group: bool, w: World)
    requires !sv.cull
    ensures var r := Down(sv, which, group, w); Lawful(sv, w, r.0, r.1) && r.0.cull == sv.cull
  {
    hide Lawful, DoKill, Continue;
    var sv1 := sv.Set(which, sv.Get(which).(wantDown := true));
    var w0 := w.Did(WishDown(sv.id, which));
    WishDownLawful(sv, which, w);
    var w1 := DoKill(sv1, which, TERM, group, w0);
    DoKillLawful(sv1, which, TERM, group, w0);
    LawfulTwice(sv, w, sv1, w0, sv1, w1);
    var r := Continue(sv1, which, group, w1);
    ContinueLawful(sv1, which, group, w1);
    LawfulTwice(sv, w, sv1, w1, r.0, r.1);
  }

  lemma PauseLawful(sv: Svdef, which: Which, group: bool, w: World)
    requires !sv.cull
    ensures var r := Pause(sv, which, group, w); Lawful(sv, w, r.0, r.1) && r.0.cull == sv.cull
  {
    hide Lawful, DoKill;
    FlagsLawful(sv, w, sv);
    var sv1 := sv.Set(which, sv.Get(which).(isPaused := true));
    SetLawful(sv, which, sv.Get(which).(isPaused := true), w);
    DoKillLawful(sv1, which, STOP, group, w);
    LawfulTwice(sv, w, sv1, w, sv1, DoKill(sv1, which, STOP, group, w));
  }

  lemma ControlLawful(sv: Svdef, which: Which, cmd: char, group: bool, w: World)
    requires !sv.cull
    ensures var r := Control(sv, which, cmd, group, w); Lawful(sv, w, r.0, r.1) && r.0.cull == sv.cull
  {
    hide Lawful, DoKill, Continue, Down, Up, Pause, SignalOf;
    var r := Control(sv, which, cmd, group, w);
    FlagsLawful(sv, w, sv);
    if cmd == 'D' && which.Main? {
      var r1 := Down(sv, Main, group, w);
      DownLawful(sv, Main, group, w);
      DownLawful(r1.0, Log, group, r1.1);
      LawfulTwice(sv, w, r1.0, r1.1, r.0, r.1);
    } else if cmd == 'U' && which.Main? {
      var r1 := Up(sv, Log, false, w);
      UpLawful(sv, Log, false, w);
      UpLawful(r1.0, Main, false, r1.1);
      LawfulTwice(sv, w, r1.0, r1.1, r.0, r.1);
    } else if cmd == 'c' {
      ContinueLawful(sv, which, group, w);
    } else if cmd == 'd' {
      DownLawful(sv, which, group, w);
    } else if cmd == 'o' {
      UpLawful(sv, which, true, w);
    } else if cmd == 'u' {
      UpLawful(sv, which, false, w);
    } else if cmd == 'p' {
      PauseLawful(sv, which, group, w);
    } else if SignalOf(cmd) != [] {
      DoKillLawful(sv, which, SignalOf(cmd)[0], group, w);
    }
  }

  lemma CheckfailLawful(sv: Svdef, w: World)
    ensures var r := Checkfail(sv, w); Lawful(sv, w, r.0, r.1)
  {
    hide Run, After, Good, Proc, Culling, DownWanted, OnceOf;
    AfterRefl(w, sv.id);
    if sv.active {
      var goal := if sv.log.isReset then Reset else Start;
      var r1 := if sv.hasLog && sv.log.failing then Run(sv, Log, goal, w) else (sv, w);
      RunTold(sv, Log, goal, w);
      AfterRefl(r1.1, sv.id);
      var goal' := if r1.0.main.isReset then Reset else Start;
      var r2 := Run(r1.0, Main, goal', r1.1);
      RunTold(r1.0, Main, goal', r1.1);
      AfterTwice(w, r1.1, r2.1, sv.id);
    }
  }

  /** Asking a process to end: a logger of a deactivating service only without a main process. */
  lemma HushLawful(sv: Svdef, which: Which, w: World)
    requires (which.Log? && sv.cull ==> sv.main.pid == 0) && sv.Get(which).pid > 0
    ensures var r := Hush(sv, which, w); Lawful(sv, w, r.0, r.1)
  {
    var sub := sv.Get(which);
    var w1 := if sub.isReset then w else w.Did(Signal(sv.id, which, TERM, false));
    var w2 := w1.Did(Signal(sv.id, which, CONT, false));
    var sv1 := sv.Set(which, sub.(isPaused := false));
    assert Hush(sv, which, w) == (sv1, w2);
    hide *;
    FlagsLawful(sv, w, sv);
    if !sub.isReset {
      SignalLawful(sv, which, TERM, false, w);
    }
    SignalLawful(sv, which, CONT, false, w1);
    LawfulTwice(sv, w, sv, w1, sv, w2);
    SetLawful(sv, which, sub.(isPaused := false), w2);
    LawfulTwice(sv, w, sv, w2, sv1, w2);
  }

  lemma DeactivateLawful(sv: Svdef, w: World)
    ensures var sv1 := sv.(cull := true, main := sv.main.(wantDown := true),
                           log := if sv.hasLog then sv.log.(wantDown := true) else sv.log);
            Lawful(sv, w, sv1, w.Did(Deactivate(sv.id)))
  {
    hide Good, Proc, Culling, DownWanted, OnceOf;
    AfterDid(w, Deactivate(sv.id), sv.id);
    Appended(w.trace, Deactivate(sv.id), sv.id);
  }

  lemma WantcullLawful(sv: Svdef, w: World)
    ensures var r := Wantcull(sv, w); Lawful(sv, w, r.0, r.1)
  {
    hide Lawful, Hush;
    var sv1 := sv.(cull := true, main := sv.main.(wantDown := true),
                   log := if sv.hasLog then sv.log.(wantDown := true) else sv.log);
    var w1 := w.Did(Deactivate(sv.id));
    DeactivateLawful(sv, w);
    if sv1.main.pid > 0 {
      var r := Hush(sv1, Main, w1);
      HushLawful(sv1, Main, w1);
      LawfulTwice(sv, w, sv1, w1, r.0, r.1);
    } else if sv1.hasLog && sv1.log.pid > 0 {
      var r := Hush(sv1, Log, w1);
      HushLawful(sv1, Log, w1);
      LawfulTwice(sv, w, sv1, w1, r.0, r.1);
    }
  }

  lemma DropOneLawful(sv: Svdef, w: World)
    ensures var r := DropOne(sv, w); Lawful(sv, w, r.0, r.1)
  {
    hide Lawful, Wantcull;
    FlagsLawful(sv, w, sv);
    WantcullLawful(sv, w);
    FlagsLawful(sv, w, sv.(cycle := false));
  }

  // ---- reaping ----

  /** The history just after a process of this entry was reaped. */
  predicate ToldReaped(trace: seq<Act>, sv: Svdef, which: Which) {
    && Proc(trace, sv.id, which) == (if sv.Get(which).isReset then Idle else Exited)
    && sv.Get(which).pid == 0 && !sv.Get(which).failing && ToldWish(trace, sv.id, which, sv.Get(which))
    && (OnceOf(trace, sv.id, which) == Spent ==> sv.Get(which).wantDown)
    && ToldSub(trace, sv.id, Other(which), sv.Get(Other(which)))
    && ToldCull(trace, sv)
  }

  lemma ReapTold(sv: Svdef, which: Which, w: World, w1: World)
    requires Good(w.trace) && Told(w.trace, sv) && sv.Get(which).pid > 0
    requires sv.Get(Other(which)).pid != sv.Get(which).pid
    requires w1.trace == w.trace + [Reap(sv.Get(which).pid)]
    ensures var sub := sv.Get(which);
            Good(w1.trace)
            && ToldReaped(w1.trace, sv.Set(which, sub.(pid := 0, wantDown := sub.wantDown || sub.isOnce)), which)
  {
    hide Good, Proc, Culling, DownWanted, OnceOf;
    Appended(w.trace, Reap(sv.Get(which).pid), sv.id);
    match which
    case Main =>
    case Log =>
  }

  lemma ReapedAfter(sv: Svdef, which: Which, w1: World)
    ensures var r := Reaped(sv, which, w1); r.0.id == sv.id && After(w1, r.1, sv.id)
  {
    hide Run, After, Hush, Lawful;
    var sub := sv.Get(which);
    var sv1 := sv.Set(which, sub.(pid := 0, wantDown := sub.wantDown || sub.isOnce));
    AfterRefl(w1, sv.id);
    RunTold(sv1, which, Reset, w1);
    RunTold(sv1, which, Start, w1);
    HushAfter(sv1, Log, w1);
  }

  lemma HushAfter(sv: Svdef, which: Which, w: World)
    ensures var r := Hush(sv, which, w); r.0.id == sv.id && After(w, r.1, sv.id)
  {
  }

  lemma ReapedTold(sv: Svdef, which: Which, w1: World)
    requires Logless(sv) && sv.Get(which).pid > 0
    requires var sub := sv.Get(which);
             Good(w1.trace)
             && ToldReaped(w1.trace, sv.Set(which, sub.(pid := 0, wantDown := sub.wantDown || sub.isOnce)), which)
    ensures var r := Reaped(sv, which, w1);
            r.1.forkFailures == w1.forkFailures ==> Good(r.1.trace) && Told(r.1.trace, r.0)
  {
    hide Good, Proc, Culling, DownWanted, OnceOf, Run, Hush;
    var sub := sv.Get(which);
    var sv1 := sv.Set(which, sub.(pid := 0, wantDown := sub.wantDown || sub.isOnce));
    RunTold(sv1, which, Reset, w1);
    RunTold(sv1, which, Start, w1);
    if which.Main? && sv1.log.pid > 0 {
      HushLawful(sv1, Log, w1);
      HushFailures(sv1, Log, w1);
    }
  }

  lemma HushFailures(sv: Svdef, which: Which, w: World)
    ensures Hush(sv, which, w).1.forkFailures == w.forkFailures
  {
  }
}
