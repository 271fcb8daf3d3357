/** What every event keeps of the table, whatever forks fail: the unreaped children are exactly the
    recorded pids, each recorded once, and entries are distinct. */
module SupervisorTable {
  import opened Tain
  import opened Supervisor

  /** How often an entry records a pid. */
  function EntryCount(sv: Svdef, pid: nat): nat {
    (if sv.main.pid == pid then 1 else 0) + (if sv.log.pid == pid then 1 else 0)
  }

  function Count(svs: seq<Svdef>, pid: nat): nat {
    if svs == [] then 0 else Count(svs[..|svs| - 1], pid) + EntryCount(svs[|svs| - 1], pid)
  }

  function Alive(w: World, pid: nat): nat {
    if pid in w.children then 1 else 0
  }

  predicate Logless(sv: Svdef) {
    !sv.hasLog ==> sv.log.pid == 0
  }

  ghost predicate DistinctIds(svs: seq<Svdef>) {
    forall i, j :: 0 <= i < j < |svs| ==> svs[i].id != svs[j].id
  }

  /** Every child is recorded exactly once, and nothing else is recorded. */
  ghost predicate Accounted(st: State) {
    && 0 !in st.w.children
    && forall pid :: 0 < pid ==> Count(st.svs, pid) == Alive(st.w, pid)
  }

  ghost predicate Loggers(svs: seq<Svdef>) {
    forall i :: 0 <= i < |svs| ==> Logless(svs[i])
  }

  ghost predicate TableInv(st: State) {
    Accounted(st) && DistinctIds(st.svs) && |st.svs| <= PERP_MAX && Loggers(st.svs)
  }

  // ---- counting ----

  lemma {:induction false} CountUpdate(svs: seq<Svdef>, i: nat, sv: Svdef, pid: nat)
    requires i < |svs|
    ensures Count(svs[i := sv], pid) == Count(svs, pid) - EntryCount(svs[i], pid) + EntryCount(sv, pid)
  {
    hide EntryCount;
    var last := |svs| - 1;
    if i == last {
      assert svs[i := sv][..last] == svs[..last];
    } else {
      assert svs[i := sv][..last] == svs[..last][i := sv];
      CountUpdate(svs[..last], i, sv, pid);
    }
  }

  lemma CountAppend(svs: seq<Svdef>, sv: Svdef, pid: nat)
    ensures Count(svs + [sv], pid) == Count(svs, pid) + EntryCount(sv, pid)
  {
    hide EntryCount;
    assert (svs + [sv])[..|svs|] == svs;
  }

  lemma {:induction false} CountOne(svs: seq<Svdef>, i: nat, pid: nat)
    requires i < |svs|
    ensures EntryCount(svs[i], pid) <= Count(svs, pid)
  {
    hide EntryCount;
    var last := |svs| - 1;
    if i < last {
      CountOne(svs[..last], i, pid);
    }
  }

  lemma {:induction false} CountTwo(svs: seq<Svdef>, i: nat, j: nat, pid: nat)
    requires i < j < |svs|
    ensures EntryCount(svs[i], pid) + EntryCount(svs[j], pid) <= Count(svs, pid)
  {
    hide EntryCount;
    var last := |svs| - 1;
    if j < last {
      CountTwo(svs[..last], i, j, pid);
    } else {
      CountOne(svs[..last], i, pid);
    }
  }

  lemma {:induction false} CountFind(svs: seq<Svdef>, pid: nat) returns (i: nat, which: Which)
    requires Count(svs, pid) > 0
    ensures i < |svs| && svs[i].Get(which).pid == pid
  {
    var last := |svs| - 1;
    if EntryCount(svs[last], pid) > 0 {
      i := last;
      which := if svs[last].main.pid == pid then Main else Log;
    } else {
      i, which := CountFind(svs[..last], pid);
    }
  }

  /** The children are the recorded pids. */
  lemma ChildrenRecorded(st: State, pid: nat)
    requires TableInv(st)
    ensures pid in st.w.children <==>
            pid > 0 && exists i, which :: 0 <= i < |st.svs| && st.svs[i].Get(which).pid == pid
  {
    if pid in st.w.children {
      assert Count(st.svs, pid) == 1;
      var i, which := CountFind(st.svs, pid);
    }
    if pid > 0 && exists i, which :: 0 <= i < |st.svs| && st.svs[i].Get(which).pid == pid {
      var i, which :| 0 <= i < |st.svs| && st.svs[i].Get(which).pid == pid;
      CountOne(st.svs, i, pid);
    }
  }

  /** No pid is recorded twice. */
  lemma RecordedOnce(st: State, i: nat, a: Which, j: nat, b: Which)
    requires TableInv(st) && i < |st.svs| && j < |st.svs|
    requires st.svs[i].Get(a).pid == st.svs[j].Get(b).pid > 0
    ensures i == j && a == b
  {
    hide Count;
    var pid := st.svs[i].Get(a).pid;
    assert Count(st.svs, pid) <= 1;
    if i == j {
      CountOne(st.svs, i, pid);
    } else {
      CountTwo(st.svs, if i < j then i else j, if i < j then j else i, pid);
    }
  }

  // ---- one service ----

  /** A change of one entry that accounts for every child. */
  ghost predicate Kept(sv: Svdef, w: World, sv': Svdef, w': World) {
    && sv'.id == sv.id && sv'.hasLog == sv.hasLog
    && (Logless(sv) ==> Logless(sv'))
    && (0 !in w.children ==> 0 !in w'.children)
    && forall pid :: 0 < pid ==>
         EntryCount(sv', pid) + Alive(w, pid) == EntryCount(sv, pid) + Alive(w', pid)
  }

  lemma KeptTwice(sv: Svdef, w: World, sv1: Svdef, w1: World, sv2: Svdef, w2: World)
    requires Kept(sv, w, sv1, w1) && Kept(sv1, w1, sv2, w2)
    ensures Kept(sv, w, sv2, w2)
  {
    hide EntryCount, Alive;
    forall pid | 0 < pid
      ensures EntryCount(sv2, pid) + Alive(w, pid) == EntryCount(sv, pid) + Alive(w2, pid)
    {
      assert EntryCount(sv1, pid) + Alive(w, pid) == EntryCount(sv, pid) + Alive(w1, pid);
    }
  }

  /** Flags and history do not matter to the account. */
  ghost predicate SamePids(sv: Svdef, w: World, sv': Svdef, w': World) {
    && sv'.id == sv.id && sv'.hasLog == sv.hasLog
    && sv'.main.pid == sv.main.pid && sv'.log.pid == sv.log.pid && w'.children == w.children
  }

  lemma SamePidsKept(sv: Svdef, w: World, sv': Svdef, w': World)
    requires SamePids(sv, w, sv', w')
    ensures Kept(sv, w, sv', w')
  {
  }

  lemma LaunchedKept(sv: Svdef, which: Which, goal: Goal, w: World)
    requires Forks(w) && !Refuses(sv, which)
    ensures var r := Launched(sv, which, goal, w); Kept(sv, w, r.0, r.1)
  {
    hide NextOk, Later;
  }

  lemma StuckKept(sv: Svdef, which: Which, goal: Goal, w: World)
    ensures var r := Stuck(sv, which, goal, w); SamePids(sv, w, r.0, r.1)
  {
  }

  lemma RunKept(sv: Svdef, which: Which, goal: Goal, w: World)
    ensures var r := Run(sv, which, goal, w); Kept(sv, w, r.0, r.1)
  {
    hide Kept, Launched, Stuck, Forks, Refuses;
    if Refuses(sv, which) {
      SamePidsRefl(sv, w);
    } else if Forks(w) {
      LaunchedKept(sv, which, goal, w);
    } else {
      var r := Stuck(sv, which, goal, w);
      StuckKept(sv, which, goal, w);
      SamePidsKept(sv, w, r.0, r.1);
    }
  }

  lemma DoKillKept(sv: Svdef, which: Which, sig: Sig, group: bool, w: World)
    ensures Kept(sv, w, sv, DoKill(sv, which, sig, group, w))
  {
  }

  lemma DownKept(sv: Svdef, which: Which, group: bool, w: World)
    ensures var r := Down(sv, which, group, w); SamePids(sv, w, r.0, r.1)
  {
    match which
    case Main =>
    case Log =>
  }

  lemma SetSamePids(sv: Svdef, which: Which, s: Sub, w: World, w1: World)
    requires s.pid == sv.Get(which).pid && w1.children == w.children
    ensures SamePids(sv, w, sv.Set(which, s), w1)
  {
  }

  lemma UpKept(sv: Svdef, which: Which, once: bool, w: World)
    ensures var r := Up(sv, which, once, w); Kept(sv, w, r.0, r.1)
  {
    hide Run, Kept, SamePids;
    var s := sv.Get(which).(isOnce := once, wantDown := false);
    var sv1 := sv.Set(which, s);
    var w1 := w.Did(WishUp(sv.id, which, once));
    SetSamePids(sv, which, s, w, w1);
    SamePidsKept(sv, w, sv1, w1);
    var r := Run(sv1, which, Start, w1);
    RunKept(sv1, which, Start, w1);
    KeptTwice(sv, w, sv1, w1, r.0, r.1);
  }

  lemma ContinueKept(sv: Svdef, which: Which, group: bool, w: World)
    ensures var r := Continue(sv, which, group, w); SamePids(sv, w, r.0, r.1)
  {
  }

  lemma PauseKept(sv: Svdef, which: Which, group: bool, w: World)
    ensures var r := Pause(sv, which, group, w); SamePids(sv, w, r.0, r.1)
  {
  }

  lemma ControlKept(sv: Svdef, which: Which, cmd: char, group: bool, w: World)
    ensures var r := Control(sv, which, cmd, group, w); Kept(sv, w, r.0, r.1)
  {
    hide Kept, Up, Down, Continue, Pause, SamePids, DoKill, SignalOf;
    var r := Control(sv, which, cmd, group, w);
    SamePidsRefl(sv, w);
    if cmd == 'D' && which.Main? {
      var r1 := Down(sv, Main, group, w);
      DownKept(sv, Main, group, w);
      DownKept(r1.0, Log, group, r1.1);
      SamePidsKept(sv, w, r1.0, r1.1);
      SamePidsKept(r1.0, r1.1, r.0, r.1);
      KeptTwice(sv, w, r1.0, r1.1, r.0, r.1);
    } else if cmd == 'U' && which.Main? {
      var r1 := Up(sv, Log, false, w);
      UpKept(sv, Log, false, w);
      UpKept(r1.0, Main, false, r1.1);
      KeptTwice(sv, w, r1.0, r1.1, r.0, r.1);
    } else if cmd == 'd' {
      DownKept(sv, which, group, w);
      SamePidsKept(sv, w, r.0, r.1);
    } else if cmd == 'o' {
      UpKept(sv, which, true, w);
    } else if cmd == 'u' {
      UpKept(sv, which, false, w);
    } else if cmd == 'c' || cmd == 'p' {
      ContinueKept(sv, which, group, w);
      PauseKept(sv, which, group, w);
      SamePidsKept(sv, w, r.0, r.1);
    } else {
      var sigs := SignalOf(cmd);
      if sigs != [] {
        DoKillKept(sv, which, sigs[0], group, w);
      }
    }
  }

  lemma SamePidsRefl(sv: Svdef, w: World)
    ensures SamePids(sv, w, sv, w) && Kept(sv, w, sv, w)
  {
  }

  lemma CheckfailKept(sv: Svdef, w: World)
    ensures var r := Checkfail(sv, w); Kept(sv, w, r.0, r.1)
  {
    hide Kept, Run;
    SamePidsKept(sv, w, sv, w);
    if sv.active {
      var goal := if sv.log.isReset then Reset else Start;
      var r1 := if sv.hasLog && sv.log.failing then Run(sv, Log, goal, w) else (sv, w);
      RunKept(sv, Log, goal, w);
      SamePidsKept(r1.0, r1.1, r1.0, r1.1);
      var goal' := if r1.0.main.isReset then Reset else Start;
      var r2 := Run(r1.0, Main, goal', r1.1);
      RunKept(r1.0, Main, goal', r1.1);
      KeptTwice(sv, w, r1.0, r1.1, r2.0, r2.1);
    }
  }

  lemma WantcullKept(sv: Svdef, w: World)
    ensures var r := Wantcull(sv, w); Kept(sv, w, r.0, r.1)
  {
    var r := Wantcull(sv, w);
    SamePidsKept(sv, w, r.0, r.1);
  }

  lemma DropOneKept(sv: Svdef, w: World)
    ensures var r := DropOne(sv, w); Kept(sv, w, r.0, r.1)
  {
    hide Wantcull, Kept;
    WantcullKept(sv, w);
    SamePidsRefl(sv, w);
    SamePidsKept(sv, w, sv.(cycle := false), w);
  }

  /** The account of an entry being activated starts from nothing. */
  lemma ActivateKept(d: Dir, w: World)
    ensures var r := ActivateNew(d, w); Kept(Opening(d), w, r.0, r.1)
  {
    hide Kept, Run, SamePids, Opening;
    var sv, a := Opening(d), Activate(d.id, d.down, d.once);
    var w0 := w.Did(a);
    var r1 := Run(sv, Log, Start, w0);
    RunKept(sv, Log, Start, w0);
    SamePidsKept(sv, w, sv, w0) by { SamePidsDid(sv, w, a); }
    KeptTwice(sv, w, sv, w0, r1.0, r1.1);
    if !d.down {
      var r := Run(r1.0, Main, Start, r1.1);
      RunKept(r1.0, Main, Start, r1.1);
      KeptTwice(sv, w, r1.0, r1.1, r.0, r.1);
    }
  }

  lemma SamePidsDid(sv: Svdef, w: World, a: Act)
    ensures SamePids(sv, w, sv, w.Did(a))
  {
  }

  /** A reaped process leaves the table and the children together. */
  lemma ReapedKept(sv: Svdef, which: Which, w: World)
    requires sv.Get(which).pid in w.children && 0 !in w.children
    ensures var w1 := w.(children := w.children - {sv.Get(which).pid}).Did(Reap(sv.Get(which).pid));
            var r := Reaped(sv, which, w1);
            Kept(sv, w, r.0, r.1)
  {
    hide Run, Kept;
    var pid := sv.Get(which).pid;
    var w1 := w.(children := w.children - {pid}).Did(Reap(pid));
    var sub := sv.Get(which);
    var sv1 := sv.Set(which, sub.(pid := 0, wantDown := sub.wantDown || sub.isOnce));
    ClearedKept(sv, which, w, sv1, w1);
    if !sub.isReset {
      var r := Run(sv1, which, Reset, w1);
      RunKept(sv1, which, Reset, w1);
      KeptTwice(sv, w, sv1, w1, r.0, r.1);
    } else if !sv1.Get(which).wantDown {
      var r := Run(sv1, which, Start, w1);
      RunKept(sv1, which, Start, w1);
      KeptTwice(sv, w, sv1, w1, r.0, r.1);
    } else if which.Main? && sv1.hasLog && sv1.log.wantDown && sv1.log.pid > 0 {
      var r := Hush(sv1, Log, w1);
      SamePidsKept(sv1, w1, r.0, r.1);
      KeptTwice(sv, w, sv1, w1, r.0, r.1);
    }
  }

  lemma ClearedKept(sv: Svdef, which: Which, w: World, sv1: Svdef, w1: World)
    requires sv.Get(which).pid in w.children && 0 !in w.children
    requires w1.children == w.children - {sv.Get(which).pid}
    requires sv1.id == sv.id && sv1.hasLog == sv.hasLog && sv1.Get(which).pid == 0
    requires forall other :: other != which ==> sv1.Get(other) == sv.Get(other)
    ensures Kept(sv, w, sv1, w1)
  {
    assert sv1.Get(if which.Main? then Log else Main) == sv.Get(if which.Main? then Log else Main);
  }

  // ---- the table ----

  lemma EntryStep(st: State, i: nat, sv: Svdef, w: World)
    requires TableInv(st) && i < |st.svs| && Kept(st.svs[i], st.w, sv, w)
    ensures TableInv(State(st.svs[i := sv], w))
  {
    hide Count, EntryCount, Alive;
    forall pid | 0 < pid
      ensures Count(st.svs[i := sv], pid) == Alive(w, pid)
    {
      CountUpdate(st.svs, i, sv, pid);
      assert Count(st.svs, pid) == Alive(st.w, pid);
      assert EntryCount(sv, pid) + Alive(st.w, pid) == EntryCount(st.svs[i], pid) + Alive(w, pid);
    }
  }

  /** Pending flags, future answers and history are no part of the account. */
  lemma WorldStep(st: State, w: World)
    requires TableInv(st) && w.children == st.w.children
    ensures TableInv(State(st.svs, w))
  {
    hide Count;
    forall pid | 0 < pid
      ensures Count(st.svs, pid) == Alive(w, pid)
    {
      assert Count(st.svs, pid) == Alive(st.w, pid);
    }
  }

  lemma {:induction false} LookupNone(svs: seq<Svdef>, id: Id)
    requires Lookup(svs, id) == |svs|
    ensures forall i :: 0 <= i < |svs| ==> svs[i].id != id
  {
    if svs != [] {
      LookupNone(svs[1..], id);
      assert forall i :: 1 <= i < |svs| ==> svs[i] == svs[1..][i - 1];
    }
  }

  lemma {:induction false} FindPidNone(svs: seq<Svdef>, pid: nat)
    requires FindPid(svs, pid).0 == |svs|
    ensures forall i, which :: 0 <= i < |svs| ==> svs[i].Get(which).pid != pid
  {
    if svs != [] {
      FindPidNone(svs[1..], pid);
      forall i, which | 0 <= i < |svs|
        ensures svs[i].Get(which).pid != pid
      {
        assert i > 0 ==> svs[i] == svs[1..][i - 1];
      }
    }
  }

  /** Every child that is reported is found in the table. */
  lemma ChildFound(st: State, pid: nat)
    requires TableInv(st) && pid in st.w.children
    ensures pid > 0 && FindPid(st.svs, pid).0 < |st.svs|
  {
    hide FindPid;
    ChildrenRecorded(st, pid);
    if FindPid(st.svs, pid).0 >= |st.svs| {
      FindPidNone(st.svs, pid);
    }
  }

  lemma WaitOneInv(g: Reaping, pid: nat)
    requires TableInv(g.st)
    ensures TableInv(WaitOne(g, pid).st)
  {
    hide Reaped, FindPid, TableInv, Kept;
    var w := g.st.w;
    if pid in w.children {
      ChildFound(g.st, pid);
      var (i, which) := FindPid(g.st.svs, pid);
      var w1 := w.(children := w.children - {pid}).Did(Reap(pid));
      var r := Reaped(g.st.svs[i], which, w1);
      NoZeroChild(g.st);
      ReapedKept(g.st.svs[i], which, w);
      EntryStep(g.st, i, r.0, r.1);
    }
  }

  lemma NoZeroChild(st: State)
    requires TableInv(st)
    ensures 0 !in st.w.children
  {
  }

  lemma {:induction false} WaitAllInv(g: Reaping, dead: seq<nat>)
    requires TableInv(g.st)
    ensures TableInv(WaitAll(g, dead).st)
  {
    hide WaitOne, TableInv;
    if dead != [] {
      WaitAllInv(g, dead[..|dead| - 1]);
      WaitOneInv(WaitAll(g, dead[..|dead| - 1]), dead[|dead| - 1]);
    }
  }

  lemma CountDrop(svs: seq<Svdef>, i: nat, pid: nat)
    requires i < |svs|
    ensures var last := |svs| - 1;
            Count(svs[i := svs[last]][..last], pid) == Count(svs, pid) - EntryCount(svs[i], pid)
  {
    hide EntryCount;
    var last := |svs| - 1;
    var moved := svs[i := svs[last]];
    CountUpdate(svs, i, svs[last], pid);
    assert moved == moved[..last] + [moved[last]];
    CountAppend(moved[..last], moved[last], pid);
  }

  lemma RemoveInv(st: State, i: nat, w: World)
    requires TableInv(st) && i < |st.svs| && Cullok(st.svs[i]) && w.children == st.w.children
    ensures var last := |st.svs| - 1;
            TableInv(State(st.svs[i := st.svs[last]][..last], w))
  {
    hide Count;
    var last := |st.svs| - 1;
    var svs := st.svs[i := st.svs[last]][..last];
    forall pid | 0 < pid
      ensures Count(svs, pid) == Alive(w, pid)
    {
      CountDrop(st.svs, i, pid);
      assert Count(st.svs, pid) == Alive(st.w, pid);
      assert EntryCount(st.svs[i], pid) == 0;
    }
  }

  lemma {:induction false} CullInv(svs: seq<Svdef>, i: nat, w: World)
    requires i <= |svs| && TableInv(State(svs, w))
    ensures TableInv(CullFrom(svs, i, w))
    decreases |svs| - i
  {
    hide TableInv;
    if i < |svs| {
      if Cullok(svs[i]) {
        var last := |svs| - 1;
        var w1 := w.Did(Remove(svs[i].id, svs[i].cycle));
        RemoveInv(State(svs, w), i, w1);
        CullInv(svs[i := svs[last]][..last], i, w1);
      } else {
        CullInv(svs, i + 1, w);
      }
    }
  }

  lemma WaitupInv(st: State, dead: seq<nat>)
    requires TableInv(st)
    ensures TableInv(Waitup(st, dead))
  {
    hide TableInv, WaitAll, CullFrom;
    var g := WaitAll(Reaping(st, false, false), dead);
    WaitAllInv(Reaping(st, false, false), dead);
    CullInv(g.st.svs, 0, g.st.w);
    var st1 := if g.cull then Cull(g.st) else g.st;
    WorldStep(st1, TriggerScan(st1.w));
  }

  // ---- sweeps ----

  /** One entry in the middle of the table. */
  lemma MiddleStep(a: seq<Svdef>, sv: Svdef, rest: seq<Svdef>, w: World, sv': Svdef, w': World)
    requires TableInv(State(a + [sv] + rest, w)) && Kept(sv, w, sv', w')
    ensures TableInv(State(a + [sv'] + rest, w'))
  {
    hide TableInv, Kept;
    var svs := a + [sv] + rest;
    EntryStep(State(svs, w), |a|, sv', w');
    assert svs[|a| := sv'] == a + [sv'] + rest;
  }

  lemma {:induction false} DropAllInv(svs: seq<Svdef>, rest: seq<Svdef>, w: World)
    requires TableInv(State(svs + rest, w))
    ensures TableInv(State(DropAll(svs, w).svs + rest, DropAll(svs, w).w))
  {
    hide TableInv, DropOne, Kept;
    if svs != [] {
      var last := |svs| - 1;
      var g := DropAll(svs[..last], w);
      assert svs + rest == svs[..last] + ([svs[last]] + rest);
      DropAllInv(svs[..last], [svs[last]] + rest, w);
      assert g.svs + ([svs[last]] + rest) == g.svs + [svs[last]] + rest;
      var r := DropOne(svs[last], g.w);
      DropOneKept(svs[last], g.w);
      MiddleStep(g.svs, svs[last], rest, g.w, r.0, r.1);
    }
  }

  lemma {:induction false} WantcullAllInv(svs: seq<Svdef>, rest: seq<Svdef>, w: World)
    requires TableInv(State(svs + rest, w))
    ensures TableInv(State(WantcullAll(svs, w).svs + rest, WantcullAll(svs, w).w))
  {
    hide TableInv, Wantcull, Kept;
    if svs != [] {
      var last := |svs| - 1;
      var g := WantcullAll(svs[..last], w);
      assert svs + rest == svs[..last] + ([svs[last]] + rest);
      WantcullAllInv(svs[..last], [svs[last]] + rest, w);
      assert g.svs + ([svs[last]] + rest) == g.svs + [svs[last]] + rest;
      var r := Wantcull(svs[last], g.w);
      WantcullKept(svs[last], g.w);
      MiddleStep(g.svs, svs[last], rest, g.w, r.0, r.1);
    }
  }

  lemma {:induction false} CheckfailAllInv(svs: seq<Svdef>, rest: seq<Svdef>, w: World)
    requires TableInv(State(svs + rest, w))
    ensures TableInv(State(CheckfailAll(svs, w).0 + rest, CheckfailAll(svs, w).1))
  {
    hide TableInv, Checkfail, Kept;
    if svs != [] {
      var last := |svs| - 1;
      var g := CheckfailAll(svs[..last], w);
      assert svs + rest == svs[..last] + ([svs[last]] + rest);
      CheckfailAllInv(svs[..last], [svs[last]] + rest, w);
      assert g.0 + ([svs[last]] + rest) == g.0 + [svs[last]] + rest;
      var r := Checkfail(svs[last], g.1);
      CheckfailKept(svs[last], g.1);
      MiddleStep(g.0, svs[last], rest, g.1, r.0, r.1);
    }
  }

  // ---- scans ----

  lemma {:induction false} CountUnflag(svs: seq<Svdef>, pid: nat)
    ensures Count(Unflag(svs), pid) == Count(svs, pid)
  {
    hide Unflag;
    if svs != [] {
      var last := |svs| - 1;
      CountUnflag(svs[..last], pid);
      assert Unflag(svs)[..last] == Unflag(svs[..last]);
    }
  }

  lemma UnflagInv(st: State)
    requires TableInv(st)
    ensures TableInv(State(Unflag(st.svs), st.w))
  {
    hide Count;
    forall pid | 0 < pid
      ensures Count(Unflag(st.svs), pid) == Alive(st.w, pid)
    {
      CountUnflag(st.svs, pid);
      assert Count(st.svs, pid) == Alive(st.w, pid);
    }
  }

  lemma AppendInv(st: State, blank: Svdef, sv: Svdef, w: World)
    requires TableInv(st) && Kept(blank, st.w, sv, w) && Logless(blank)
    requires blank.main.pid == 0 && blank.log.pid == 0 && |st.svs| < PERP_MAX
    requires forall i :: 0 <= i < |st.svs| ==> st.svs[i].id != blank.id
    ensures TableInv(State(st.svs + [sv], w))
  {
    hide Count;
    forall pid | 0 < pid
      ensures Count(st.svs + [sv], pid) == Alive(w, pid)
    {
      CountAppend(st.svs, sv, pid);
      assert Count(st.svs, pid) == Alive(st.w, pid);
      assert EntryCount(sv, pid) + Alive(st.w, pid) == EntryCount(blank, pid) + Alive(w, pid);
    }
  }

  lemma ScanOneInv(g: Scanning, d: Dir)
    requires TableInv(g.st)
    ensures TableInv(ScanOne(g, d).st)
  {
    hide ActivateNew, TableInv, Kept;
    var svs, w := g.st.svs, g.st.w;
    var i := Lookup(svs, d.id);
    if i < |svs| {
      var sv := svs[i].(active := true, cycle := svs[i].cycle || svs[i].cull);
      SamePidsKept(svs[i], w, sv, w);
      EntryStep(g.st, i, sv, w);
    } else if |svs| < PERP_MAX && d.opens {
      var r := ActivateNew(d, w);
      ActivateKept(d, w);
      LookupNone(svs, d.id);
      var blank := Opening(d);
      SamePidsKept(r.0, r.1, r.0.(active := true), r.1);
      KeptTwice(blank, w, r.0, r.1, r.0.(active := true), r.1);
      AppendInv(g.st, blank, r.0.(active := true), r.1);
    }
  }

  lemma {:induction false} ScanDirsInv(g: Scanning, dirs: seq<Dir>)
    requires TableInv(g.st)
    ensures TableInv(ScanDirs(g, dirs).st)
  {
    hide ScanOne, TableInv;
    if dirs != [] {
      ScanDirsInv(g, dirs[..|dirs| - 1]);
      ScanOneInv(ScanDirs(g, dirs[..|dirs| - 1]), dirs[|dirs| - 1]);
    }
  }

  lemma ScanInv(st: State, listing: Listing)
    requires TableInv(st)
    ensures TableInv(Scan(st, listing))
  {
    hide TableInv, ScanDirs, DropAll, CullFrom, Unflag;
    WorldStep(st, st.w.Did(ScanLost));
    UnflagInv(st);
    if listing.Listing? {
      var g0 := Scanning(State(Unflag(st.svs), st.w), false);
      var g := ScanDirs(g0, listing.dirs);
      ScanDirsInv(g0, listing.dirs);
      WorldStep(g.st, TriggerScan(g.st.w.Did(ScanCut)));
      assert g.st.svs + [] == g.st.svs;
      DropAllInv(g.st.svs, [], g.st.w);
      var s := DropAll(g.st.svs, g.st.w);
      assert s.svs + [] == s.svs;
      CullInv(s.svs, 0, s.w);
      var st2 := if s.ready then Cull(State(s.svs, s.w)) else State(s.svs, s.w);
      WorldStep(st2, TriggerScan(st2.w.Did(ScanShort)));
      WorldStep(st2, st2.w.Did(ScanDone));
    }
  }

  // ---- every run ----

  lemma StepInv(st: State, e: Event)
    requires TableInv(st)
    ensures TableInv(Step(st, e))
  {
    hide TableInv, Waitup, Scan, WantcullAll, CheckfailAll, CullFrom, Control, Kept;
    match e
    case SigHup => WorldStep(st, TriggerScan(st.w));
    case SigTerm =>
      var w := st.w.(terminating := true, flagHup := false);
      WorldStep(st, w);
      assert st.svs + [] == st.svs;
      WantcullAllInv(st.svs, [], w);
      var s := WantcullAll(st.svs, w);
      assert s.svs + [] == s.svs;
      CullInv(s.svs, 0, s.w);
    case Chld(dead) => WaitupInv(st, dead);
    case Rescan(listing) =>
      WorldStep(st, st.w.(flagHup := false));
      ScanInv(State(st.svs, st.w.(flagHup := false)), listing);
    case Failing =>
      var w := st.w.(flagFailing := false).Did(Retried);
      WorldStep(st, w);
      assert st.svs + [] == st.svs;
      CheckfailAllInv(st.svs, [], w);
      var r := CheckfailAll(st.svs, w);
      assert r.0 + [] == r.0;
    case Client(q) =>
      var i := Lookup(st.svs, q.id);
      if i < |st.svs| {
        var r := Control(st.svs[i], q.which, q.cmd, q.group, st.w);
        ControlKept(st.svs[i], q.which, q.cmd, q.group, st.w);
        EntryStep(st, i, r.0, r.1);
      }
  }

  lemma InitInv(answers: seq<Answer>)
    ensures TableInv(Init(answers))
  {
  }

  /** In every run, with any events and any fork failures, the table accounts for every child. */
  lemma {:induction false} RunsAccounted(answers: seq<Answer>, es: seq<Event>)
    ensures TableInv(Steps(Init(answers), es))
  {
    hide TableInv, Step, Init;
    if es == [] {
      InitInv(answers);
    } else {
      RunsAccounted(answers, es[..|es| - 1]);
      StepInv(Steps(Init(answers), es[..|es| - 1]), es[|es| - 1]);
    }
  }
}
