/** The perpd daemon as it stands in memory: a fixed array of service definitions, a count, and flags,
    changed in place. Every method is proved to do what the transition system says. */
module Daemon {
  import opened Tain
  import opened Supervisor
  import opened SupervisorTable
  import opened SupervisorFlags
  import opened SupervisorTurns

  /** A state in which one entry has changed. */
  function Changed(st: State, i: nat, r: (Svdef, World)): State
    requires i < |st.svs|
  {
    State(st.svs[i := r.0], r.1)
  }

  lemma ChangedTwice(st: State, i: nat, r: (Svdef, World), r': (Svdef, World))
    requires i < |st.svs|
    ensures Changed(st, i, r).svs[i] == r.0 && Changed(st, i, r).w == r.1
    ensures Changed(Changed(st, i, r), i, r') == Changed(st, i, r')
    ensures Changed(st, i, (st.svs[i], st.w)) == st
  {
  }

  class Perpd {
    const svdefs: array<Svdef>
    var nservices: nat
    var w: World

    constructor (blank: Svdef, answers: seq<Answer>)
      ensures Valid() && fresh(svdefs) && Abs() == Init(answers)
    {
      svdefs := new Svdef[PERP_MAX](_ => blank);
      nservices := 0;
      w := World({}, answers, [], 0, true, false, false);
    }

    ghost predicate Valid()
      reads this
    {
      svdefs.Length == PERP_MAX && nservices <= PERP_MAX
    }

    /** The state the daemon is in. */
    ghost function Abs(): (st: State)
      requires Valid()
      reads this, svdefs
      ensures |st.svs| == nservices && st.w == w
    {
      State(svdefs[..nservices], w)
    }

    /** Store through a pointer into the table. */
    method Put(i: nat, sv: Svdef, w': World)
      requires Valid() && i < nservices
      modifies this`w, svdefs
      ensures Valid() && Abs() == State(old(Abs().svs)[i := sv], w')
    {
      svdefs[i] := sv;
      w := w';
    }

    method Entry(i: nat) returns (sv: Svdef)
      requires Valid() && i < nservices
      ensures sv == Abs().svs[i]
    {
      sv := svdefs[i];
    }

    /** The entry past the end becomes part of the table. */
    method Grow(sv: Svdef, w': World)
      requires Valid() && nservices < PERP_MAX
      modifies this, svdefs
      ensures Valid() && Abs() == State(old(Abs().svs) + [sv], w')
    {
      svdefs[nservices] := sv;
      nservices := nservices + 1;
      w := w';
    }

    /** The last entry moves to position i. */
    method MoveLast(i: nat, w': World)
      requires Valid() && i < nservices
      modifies this, svdefs
      ensures Valid() && nservices == old(nservices) - 1
      ensures var svs := old(Abs().svs); Abs() == State(svs[i := svs[|svs| - 1]][..|svs| - 1], w')
    {
      nservices := nservices - 1;
      svdefs[i] := svdefs[nservices];
      w := w';
    }

    /** perpd_lookup. */
    method Find(id: Id) returns (i: nat)
      requires Valid()
      ensures i == Lookup(Abs().svs, id)
    {
      i := 0;
      while i < nservices
        invariant i <= nservices
        invariant Lookup(Abs().svs, id) == i + Lookup(Abs().svs[i..], id)
      {
        if svdefs[i].id == id {
          return;
        }
        assert Abs().svs[i..][1..] == Abs().svs[i + 1..];
        i := i + 1;
      }
    }

    /** perpd_cull. */
    method CullTable()
      requires Valid()
      modifies this, svdefs
      ensures Valid() && Abs() == Cull(old(Abs()))
    {
      hide Cullok;
      ghost var st := Abs();
      var i := 0;
      while i < nservices
        invariant Valid() && i <= nservices
        invariant CullFrom(Abs().svs, i, w) == Cull(st)
        decreases nservices - i
      {
        var sv := Entry(i);
        if Cullok(sv) {
          MoveLast(i, w.Did(Remove(sv.id, sv.cycle)));
        } else {
          i := i + 1;
        }
      }
    }

    // ---- one service ----

    /** perpd_svdef_run. */
    method RunAt(i: nat, which: Which, goal: Goal)
      requires Valid() && i < nservices
      modifies this`w, svdefs
      ensures Valid() && Abs() == Changed(old(Abs()), i, Run(old(Abs().svs[i]), which, goal, old(w)))
    {
      hide Stuck, Launched, Forks;
      ChangedTwice(Abs(), i, (Abs().svs[i], w), (Abs().svs[i], w));
      var sv := Entry(i);
      var sub := sv.Get(which);
      if which.Log? && !sv.hasLog {
        return;
      }
      if sub.pid > 0 {
        return;
      }
      if !Forks(w) {
        StuckAt(i, which, goal);
      } else {
        LaunchAt(i, which, goal);
      }
    }

    method StuckAt(i: nat, which: Which, goal: Goal)
      requires Valid() && i < nservices
      modifies this`w, svdefs
      ensures Valid() && Abs() == Changed(old(Abs()), i, Stuck(old(Abs().svs[i]), which, goal, old(w)))
    {
      var sv := Entry(i);
      var w1 := Asked(w).(forkFailures := w.forkFailures + 1);
      if !w1.terminating {
        w1 := w1.(flagFailing := true);
      }
      Put(i, sv.Set(which, sv.Get(which).(isReset := goal.Reset?, failing := true)),
          w1.Did(ForkFailed(sv.id, which, goal)));
    }

    method LaunchAt(i: nat, which: Which, goal: Goal)
      requires Valid() && i < nservices && Forks(w)
      modifies this`w, svdefs
      ensures Valid() && Abs() == Changed(old(Abs()), i, Launched(old(Abs().svs[i]), which, goal, old(w)))
    {
      hide NextOk, Later;
      var sv := Entry(i);
      var sub := sv.Get(which);
      var now, pid := NextAnswer(w).now, NextAnswer(w).pid;
      var effective := Later(now, sub.whenOk);
      sub := sub.(isReset := goal.Reset?, failing := false, pid := pid, when := now);
      if goal.Start? {
        var whenOk := Govern(now, sub.whenOk);
        sub := sub.(whenOk := whenOk);
      }
      Put(i, sv.Set(which, sub),
          Asked(w).(children := w.children + {pid}).Did(Launch(sv.id, which, goal, pid, now, effective)));
    }

    /** SIGTERM unless running reset, and SIGCONT. */
    method HushAt(i: nat, which: Which)
      requires Valid() && i < nservices
      modifies this`w, svdefs
      ensures Valid() && Abs() == Changed(old(Abs()), i, Hush(old(Abs().svs[i]), which, old(w)))
    {
      var sv := Entry(i);
      var sub := sv.Get(which);
      var w1 := w;
      if !sub.isReset {
        w1 := w1.Did(Signal(sv.id, which, TERM, false));
      }
      Put(i, sv.Set(which, sub.(isPaused := false)), w1.Did(Signal(sv.id, which, CONT, false)));
    }

    /** perpd_svdef_wantcull. */
    method WantcullAt(i: nat) returns (finished: bool)
      requires Valid() && i < nservices
      modifies this`w, svdefs
      ensures var r := Wantcull(old(Abs().svs[i]), old(w));
              Valid() && Abs() == Changed(old(Abs()), i, (r.0, r.1)) && finished == r.2
    {
      hide Hush;
      ghost var st := Abs();
      var sv := Entry(i);
      sv := sv.(cull := true, main := sv.main.(wantDown := true));
      if sv.hasLog {
        sv := sv.(log := sv.log.(wantDown := true));
      }
      var w1 := w.Did(Deactivate(sv.id));
      Put(i, sv, w1);
      ghost var r := (sv, w1);
      assert Abs() == Changed(st, i, r);
      ChangedTwice(st, i, r, Hush(sv, Main, w1));
      ChangedTwice(st, i, r, Hush(sv, Log, w1));
      if sv.main.pid > 0 {
        HushAt(i, Main);
        return false;
      }
      if sv.hasLog && sv.log.pid > 0 {
        HushAt(i, Log);
        return false;
      }
      return true;
    }

    /** perpd_svdef_checkfail. */
    method CheckfailAt(i: nat)
      requires Valid() && i < nservices
      modifies this`w, svdefs
      ensures Valid() && Abs() == Changed(old(Abs()), i, Checkfail(old(Abs().svs[i]), old(w)))
    {
      hide Run;
      ghost var st := Abs();
      var sv := Entry(i);
      ghost var r: (Svdef, World) := (sv, w);
      ChangedTwice(st, i, r, r);
      if !sv.active {
        return;
      }
      if sv.hasLog && sv.log.failing {
        var goal := if sv.log.isReset then Reset else Start;
        r := Run(sv, Log, goal, w);
        RunAt(i, Log, goal);
      }
      ChangedTwice(st, i, r, r);
      sv := Entry(i);
      if sv.main.failing {
        var goal := if sv.main.isReset then Reset else Start;
        ChangedTwice(st, i, r, Run(sv, Main, goal, w));
        RunAt(i, Main, goal);
      }
    }

    /** The part of perpd_waitup that follows the search for the dead child. */
    method ReapAt(i: nat, which: Which) returns (cull: bool, cycle: bool)
      requires Valid() && i < nservices
      modifies this`w, svdefs
      ensures var r := Reaped(old(Abs().svs[i]), which, old(w));
              Valid() && Abs() == Changed(old(Abs()), i, (r.0, r.1)) && cull == r.2 && cycle == r.3
    {
      hide Run, Hush, Cullok;
      ghost var st := Abs();
      var sv := Entry(i);
      var sub := sv.Get(which).(pid := 0);
      if sub.isOnce {
        sub := sub.(wantDown := true);
      }
      sv := sv.Set(which, sub);
      Put(i, sv, w);
      ghost var r := (sv, w);
      assert Abs() == Changed(st, i, r);
      if !sub.isReset {
        ChangedTwice(st, i, r, Run(sv, which, Reset, w));
        RunAt(i, which, Reset);
        return false, false;
      }
      if !sub.wantDown {
        ChangedTwice(st, i, r, Run(sv, which, Start, w));
        RunAt(i, which, Start);
        return false, false;
      }
      if which.Main? && sv.hasLog {
        if sv.log.wantDown && sv.log.pid > 0 {
          ChangedTwice(st, i, r, Hush(sv, Log, w));
          HushAt(i, Log);
          return false, false;
        }
      }
      cull := Cullok(sv);
      cycle := sv.cycle;
    }

    // ---- reaping ----

    /** The search for a dead child. */
    method FindChild(pid: nat) returns (i: nat, which: Which)
      requires Valid()
      ensures (i, which) == FindPid(Abs().svs, pid)
    {
      hide FindPid;
      ghost var svs := Abs().svs;
      FindPidEnds(svs, pid);
      i, which := 0, Main;
      while i < nservices
        invariant i <= nservices && which == Main
        invariant var r := FindPid(svs[i..], pid); FindPid(svs, pid) == (i + r.0, r.1)
      {
        FindPidNext(svs, i, pid);
        if svdefs[i].main.pid == pid {
          return;
        } else if svdefs[i].log.pid == pid {
          which := Log;
          return;
        }
        i := i + 1;
      }
    }

    /** One turn of the waitpid loop. */
    method WaitupOne(pid: nat) returns (cull: bool, cycle: bool)
      requires Valid()
      modifies this`w, svdefs
      ensures Valid()
      ensures forall was, due :: Reaping(Abs(), was || cull, due || cycle) == WaitOne(Reaping(old(Abs()), was, due), pid)
    {
      hide Reaped, FindPid;
      cull, cycle := false, false;
      if pid in w.children {
        var i, which := FindChild(pid);
        w := w.(children := w.children - {pid}).Did(Reap(pid));
        if i < nservices {
          cull, cycle := ReapAt(i, which);
        }
      }
    }

    /** perpd_waitup, with the children waitpid reports. */
    method WaitupTable(dead: seq<nat>)
      requires Valid()
      modifies this, svdefs
      ensures Valid() && Abs() == Waitup(old(Abs()), dead)
    {
      hide WaitOne, CullFrom;
      ghost var g0 := Reaping(Abs(), false, false);
      var cull, cycle := false, false;
      var k := 0;
      while k < |dead|
        invariant Valid() && nservices == old(nservices) && k <= |dead|
        invariant Reaping(Abs(), cull, cycle) == WaitAll(g0, dead[..k])
      {
        var gotCull, gotCycle := WaitupOne(dead[k]);
        assert dead[..k + 1][..k] == dead[..k];
        cull, cycle := cull || gotCull, cycle || gotCycle;
        k := k + 1;
      }
      assert dead[..k] == dead;
      if cull {
        CullTable();
      }
      if cycle {
        w := TriggerScan(w);
      }
    }

    // ---- sweeps ----

    /** The SIGTERM branch of the main loop. */
    method TerminateTable()
      requires Valid()
      modifies this, svdefs
      ensures Valid() && Abs() == Terminate(old(Abs()))
    {
      hide Wantcull, CullFrom, WantcullAll, Mixed;
      ghost var svs := Abs().svs;
      w := w.(terminating := true, flagHup := false);
      ghost var w0 := w;
      ghost var g := Sweeping([], w0, false);
      MixedEnds(svs);
      WantcullNone(svs, w0);
      var ready, i := false, 0;
      while i < nservices
        invariant Valid() && nservices == |svs| && i <= |svs| == |Abs().svs|
        invariant g == WantcullAll(svs[..i], w0) && |g.svs| == i
        invariant Abs() == State(Mixed(g.svs, svs, i), g.w) && ready == g.ready
      {
        MixedNext(g.svs, svs, i, Wantcull(svs[i], g.w).0);
        WantcullNext(svs, i, w0);
        var finished := WantcullAt(i);
        ready := ready || finished;
        g := WantcullAll(svs[..i + 1], w0);
        i := i + 1;
      }
      MixedWhole(g.svs, svs);
      assert svs[..i] == svs;
      if ready {
        CullTable();
      }
    }

    /** The retry branch of the main loop. */
    method RetryTable()
      requires Valid()
      modifies this, svdefs
      ensures Valid() && Abs() == Retry(old(Abs()))
    {
      hide Checkfail, CheckfailAll, Mixed;
      ghost var svs := Abs().svs;
      w := w.(flagFailing := false).Did(Retried);
      ghost var w0 := w;
      ghost var r: (seq<Svdef>, World) := ([], w0);
      MixedEnds(svs);
      CheckfailNone(svs, w0);
      var i := 0;
      while i < nservices
        invariant Valid() && nservices == |svs| && i <= |svs| == |Abs().svs|
        invariant r == CheckfailAll(svs[..i], w0) && |r.0| == i
        invariant Abs() == State(Mixed(r.0, svs, i), r.1)
      {
        MixedNext(r.0, svs, i, Checkfail(svs[i], r.1).0);
        CheckfailNext(svs, i, w0);
        CheckfailAt(i);
        r := CheckfailAll(svs[..i + 1], w0);
        i := i + 1;
      }
      MixedWhole(r.0, svs);
      assert svs[..i] == svs;
    }

    // ---- scans ----

    /** perpd_svdef_activate of a directory that opens, in the entry past the end. */
    method ActivateNext(d: Dir)
      requires Valid() && nservices < PERP_MAX
      modifies this, svdefs
      ensures var r := ActivateNew(d, old(w)); Valid() && Abs() == State(old(Abs().svs) + [r.0], r.1)
    {
      hide Run;
      ghost var svs := Abs().svs;
      var i := nservices;
      var sv := Svdef(d.id, d.when, true, d.hasLog, false, false, d.down, d.once, IDLE, IDLE);
      Grow(sv, w.Did(Activate(d.id, d.down, d.once)));
      ghost var w0 := w;
      RunAt(i, Log, Start);
      RunLogApart(sv, w0, Opening(d).main);
      ghost var r1 := Run(Opening(d), Log, Start, w0);
      sv := Entry(i);
      if !d.down {
        sv := sv.(main := sv.main.(isOnce := d.once));
        Put(i, sv, w);
        assert Abs() == State(svs + [r1.0], r1.1);
        RunAt(i, Main, Start);
      } else {
        Put(i, sv.(main := sv.main.(wantDown := true)), w);
      }
    }

    /** One directory of a scan. */
    method ScanDir(d: Dir) returns (fails: bool)
      requires Valid()
      modifies this, svdefs
      ensures Valid()
      ensures forall was :: Scanning(Abs(), was || fails) == ScanOne(Scanning(old(Abs()), was), d)
    {
      hide ActivateNew, Lookup;
      fails := false;
      var i := Find(d.id);
      if i < nservices {
        var sv := Entry(i);
        sv := sv.(active := true);
        if sv.cull {
          sv := sv.(cycle := true);
        }
        Put(i, sv, w);
      } else if !(nservices < PERP_MAX) {
        fails := true;
      } else if !d.opens {
        fails := true;
      } else {
        ActivateNext(d);
        var sv := Entry(i);
        Put(i, sv.(active := true), w);
      }
    }

    method UnflagTable()
      requires Valid()
      modifies svdefs
      ensures Valid() && Abs() == State(Unflag(old(Abs().svs)), old(w))
    {
      ghost var svs := Abs().svs;
      var i := 0;
      while i < nservices
        invariant i <= nservices && nservices == |svs|
        invariant forall k :: 0 <= k < i ==> svdefs[k] == svs[k].(active := false)
        invariant forall k :: i <= k < nservices ==> svdefs[k] == svs[k]
      {
        svdefs[i] := svdefs[i].(active := false);
        i := i + 1;
      }
    }

    /** What perpd_scan does with an entry after reading the directory. */
    method DropAt(i: nat) returns (ready: bool)
      requires Valid() && i < nservices
      modifies this`w, svdefs
      ensures var r := DropOne(old(Abs().svs[i]), old(w));
              Valid() && Abs() == Changed(old(Abs()), i, (r.0, r.1)) && ready == r.2
    {
      hide Wantcull, Cullok;
      ready := false;
      var sv := Entry(i);
      ChangedTwice(Abs(), i, (sv, w), (sv, w));
      if !sv.active {
        if !sv.cull {
          ready := WantcullAt(i);
        } else {
          sv := sv.(cycle := false);
          Put(i, sv, w);
          ready := Cullok(sv);
        }
      }
    }

    method DropTable() returns (ready: bool)
      requires Valid()
      modifies this`w, svdefs
      ensures var g := DropAll(old(Abs().svs), old(w)); Valid() && Abs() == State(g.svs, g.w) && ready == g.ready
    {
      hide DropOne, DropAll, Mixed;
      ghost var svs, w0 := Abs().svs, w;
      ghost var g := Sweeping([], w0, false);
      MixedEnds(svs);
      DropNone(svs, w0);
      ready := false;
      var i := 0;
      while i < nservices
        invariant Valid() && nservices == |svs| && i <= |svs| == |Abs().svs|
        invariant g == DropAll(svs[..i], w0) && |g.svs| == i
        invariant Abs() == State(Mixed(g.svs, svs, i), g.w) && ready == g.ready
      {
        MixedNext(g.svs, svs, i, DropOne(svs[i], g.w).0);
        DropNext(svs, i, w0);
        var got := DropAt(i);
        ready := ready || got;
        g := DropAll(svs[..i + 1], w0);
        i := i + 1;
      }
      MixedWhole(g.svs, svs);
      assert svs[..i] == svs;
    }

    /** perpd_scan. */
    method ScanTable(listing: Listing)
      requires Valid()
      modifies this, svdefs
      ensures Valid() && Abs() == Scan(old(Abs()), listing)
    {
      hide ScanOne, DropAll, CullFrom, Unflag;
      if listing.NoDir? {
        w := w.Did(ScanLost);
        return;
      }
      UnflagTable();
      ghost var g0 := Scanning(Abs(), false);
      var dirs, failed, k := listing.dirs, false, 0;
      while k < |dirs|
        invariant Valid() && k <= |dirs|
        invariant Scanning(Abs(), failed) == ScanDirs(g0, dirs[..k])
      {
        var fails := ScanDir(dirs[k]);
        assert dirs[..k + 1][..k] == dirs[..k];
        failed := failed || fails;
        k := k + 1;
      }
      assert dirs[..k] == dirs;
      if !listing.complete {
        w := TriggerScan(w.Did(ScanCut));
        return;
      }
      var ready := DropTable();
      if ready {
        CullTable();
      }
      if failed {
        w := TriggerScan(w.Did(ScanShort));
      } else {
        w := w.Did(ScanDone);
      }
    }

    // ---- control requests ----

    /** do_kill. */
    method KillAt(i: nat, which: Which, sig: Sig, group: bool)
      requires Valid() && i < nservices
      modifies this`w
      ensures Valid() && Abs() == State(old(Abs().svs), DoKill(old(Abs().svs[i]), which, sig, group, old(w)))
    {
      var sv := Entry(i);
      var sub := sv.Get(which);
      if which.Log? && !sv.hasLog {
        return;
      }
      if sub.pid == 0 {
        return;
      }
      if sub.isReset {
        if sig != CONT && sig != KILL {
          return;
        }
      }
      w := w.Did(Signal(sv.id, which, sig, group));
    }

    method ContinueAt(i: nat, which: Which, group: bool)
      requires Valid() && i < nservices
      modifies this`w, svdefs
      ensures Valid() && Abs() == Changed(old(Abs()), i, Continue(old(Abs().svs[i]), which, group, old(w)))
    {
      hide DoKill;
      var sv := Entry(i);
      Put(i, sv.Set(which, sv.Get(which).(isPaused := false)), w);
      KillAt(i, which, CONT, group);
    }

    method DownAt(i: nat, which: Which, group: bool)
      requires Valid() && i < nservices
      modifies this`w, svdefs
      ensures Valid() && Abs() == Changed(old(Abs()), i, Down(old(Abs().svs[i]), which, group, old(w)))
    {
      hide DoKill, Continue;
      ghost var st := Abs();
      var sv := Entry(i);
      sv := sv.Set(which, sv.Get(which).(wantDown := true));
      Put(i, sv, w.Did(WishDown(sv.id, which)));
      if sv.Get(which).pid > 0 {
        KillAt(i, which, TERM, group);
        ghost var r := (sv, w);
        assert Abs() == Changed(st, i, r);
        ChangedTwice(st, i, r, Continue(sv, which, group, w));
        ContinueAt(i, which, group);
      }
    }

    method UpAt(i: nat, which: Which, once: bool)
      requires Valid() && i < nservices
      modifies this`w, svdefs
      ensures Valid() && Abs() == Changed(old(Abs()), i, Up(old(Abs().svs[i]), which, once, old(w)))
    {
      hide Run;
      ghost var st := Abs();
      var sv := Entry(i);
      sv := sv.Set(which, sv.Get(which).(isOnce := once, wantDown := false));
      Put(i, sv, w.Did(WishUp(sv.id, which, once)));
      if sv.Get(which).pid == 0 {
        ghost var r := (sv, w);
        assert Abs() == Changed(st, i, r);
        ChangedTwice(st, i, r, Run(sv, which, Start, w));
        RunAt(i, which, Start);
      }
    }

    method PauseAt(i: nat, which: Which, group: bool)
      requires Valid() && i < nservices
      modifies this`w, svdefs
      ensures Valid() && Abs() == Changed(old(Abs()), i, Pause(old(Abs().svs[i]), which, group, old(w)))
    {
      hide DoKill;
      var sv := Entry(i);
      ChangedTwice(Abs(), i, (sv, w), (sv, w));
      if sv.Get(which).pid > 0 && !sv.Get(which).isReset {
        Put(i, sv.Set(which, sv.Get(which).(isPaused := true)), w);
        KillAt(i, which, STOP, group);
      }
    }

    /** do_control. */
    method ControlAt(i: nat, which: Which, cmd: char, group: bool) returns (known: bool)
      requires Valid() && i < nservices
      modifies this`w, svdefs
      ensures var r := Control(old(Abs().svs[i]), which, cmd, group, old(w));
              Valid() && Abs() == Changed(old(Abs()), i, (r.0, r.1)) && known == r.2
    {
      hide DoKill, Continue, Down, Up, Pause, SignalOf;
      ghost var st, sv, w0 := Abs(), Abs().svs[i], w;
      ChangedTwice(st, i, (sv, w0), (sv, w0));
      known := true;
      if cmd == 'D' {
        if which.Main? {
          DownAt(i, Main, group);
          ghost var r := Down(sv, Main, group, w0);
          ChangedTwice(st, i, r, Down(r.0, Log, group, r.1));
          DownAt(i, Log, group);
        }
      } else if cmd == 'U' {
        if which.Main? {
          UpAt(i, Log, false);
          ghost var r := Up(sv, Log, false, w0);
          ChangedTwice(st, i, r, Up(r.0, Main, false, r.1));
          UpAt(i, Main, false);
        }
      } else if cmd == 'c' {
        ContinueAt(i, which, group);
      } else if cmd == 'd' {
        DownAt(i, which, group);
      } else if cmd == 'o' {
        UpAt(i, which, true);
      } else if cmd == 'u' {
        UpAt(i, which, false);
      } else if cmd == 'p' {
        PauseAt(i, which, group);
      } else {
        var sigs := SignalOf(cmd);
        if sigs == [] {
          known := false;
        } else {
          KillAt(i, which, sigs[0], group);
        }
      }
    }

    /** perpd_conn_exec_control, past the packet checks. */
    method ServeTable(q: Request) returns (reply: Reply)
      requires Valid()
      modifies this`w, svdefs
      ensures var r := Serve(old(Abs()), q); Valid() && Abs() == r.0 && reply == r.1
    {
      hide Lookup, Control;
      var i := Find(q.id);
      if i == nservices {
        return NoEntry;
      }
      var sv := Entry(i);
      if sv.cull {
        return Busy;
      }
      var known := ControlAt(i, q.which, q.cmd, q.group);
      reply := if known then Okay else Unknown;
    }

    // ---- the main loop ----

    /** The signals caught, the term branch and the reaping branch. */
    method TurnSignals(p: Poll)
      requires Valid()
      modifies this, svdefs
      ensures Valid() && Abs() == Steps(old(Abs()), Signals(p))
    {
      hide Step, Steps, Waitup, Terminate, TriggerScan;
      ghost var st := Abs();
      ghost var es: seq<Event> := [];
      StepsNone(st);
      if p.hup {
        StepIs(st, p.dead, p.listing);
        StepsAppend(st, es, SigHup);
        w := TriggerScan(w);
        es := es + [SigHup];
      }
      assert Abs() == Steps(st, es);
      if p.term {
        StepIs(Abs(), p.dead, p.listing);
        StepsAppend(st, es, SigTerm);
        if !w.terminating {
          TerminateTable();
        }
        es := es + [SigTerm];
      }
      assert Abs() == Steps(st, es);
      if p.chld {
        StepIs(Abs(), p.dead, p.listing);
        StepsAppend(st, es, Chld(p.dead));
        WaitupTable(p.dead);
        es := es + [Chld(p.dead)];
      }
      assert Abs() == Steps(st, es) && es == Signals(p);
    }

    /** The scan branch. */
    method TurnScan(p: Poll)
      requires Valid() && Orderly(w)
      modifies this, svdefs
      ensures Valid()
      ensures Abs() == if old(w).flagHup || (p.timer && !old(w).terminating) then Step(old(Abs()), Rescan(p.listing))
                       else old(Abs())
    {
      hide Step, Scan;
      StepIs(Abs(), p.dead, p.listing);
      if w.flagHup || (p.timer && !w.terminating) {
        w := w.(flagHup := false);
        ScanTable(p.listing);
      }
    }

    /** The retry branch; clients are served unless something still fails. */
    method TurnRetry(p: Poll) returns (clients: bool, aborted: bool)
      requires Valid()
      modifies this, svdefs
      ensures Valid()
      ensures Abs() == if old(w).flagFailing && !old(w).terminating then Step(old(Abs()), Failing) else old(Abs())
      ensures clients <==> !w.flagFailing
      ensures aborted <==> old(w).flagFailing && old(w).terminating
    {
      hide Step, Retry;
      StepIs(Abs(), p.dead, p.listing);
      clients, aborted := true, false;
      if w.flagFailing {
        if w.terminating {
          return false, true;
        }
        RetryTable();
        if w.flagFailing {
          clients := false;
        }
      }
    }

    method TurnClients(requests: seq<Request>)
      requires Valid() && !w.terminating
      modifies this`w, svdefs
      ensures Valid() && Abs() == Steps(old(Abs()), Clients(requests))
    {
      hide Serve, Clients, Step, Steps;
      ghost var st := Abs();
      ClientsEnds(requests);
      StepsNone(st);
      var k := 0;
      while k < |requests|
        invariant Valid() && nservices == old(nservices) && k <= |requests|
        invariant Abs() == Steps(st, Clients(requests[..k])) && !w.terminating
      {
        ClientsAppend(st, [], requests, k);
        assert [] + Clients(requests[..k]) == Clients(requests[..k]);
        assert [] + Clients(requests[..k + 1]) == Clients(requests[..k + 1]);
        ServeStep(Abs(), requests[k]);
        var _ := ServeTable(requests[k]);
        k := k + 1;
      }
      assert requests[..k] == requests;
    }

    /** One turn of the main loop after poll returns. It is a run of the transition system: signals,
        reaping, scan, retries, clients, in this order. The daemon gives up when forks were failing
        as it began to terminate. */
    method Turn(p: Poll) returns (aborted: bool)
      requires Valid() && TableInv(Abs()) && Orderly(w)
      modifies this, svdefs
      ensures Valid() && TableInv(Abs()) && Orderly(w) && Abs() == Steps(old(Abs()), Script(old(Abs()), p))
      ensures TurnDoes(old(Abs()), p, Abs())
      ensures aborted <==> w.terminating && w.flagFailing
    {
      hide Steps, Step, TableInv, Orderly, Signals, TurnDoes;
      ghost var st := Abs();
      ScriptDoes(st, p);
      TurnSignals(p);
      StepsFlags(st, Signals(p));
      ScanScriptSteps(st, p);
      TurnScan(p);
      RetryScriptSteps(st, p);
      var clients;
      clients, aborted := TurnRetry(p);
      RetryKeeps(st, p);
      StepsConcat(st, RetryScript(st, p), Clients(p.requests));
      if clients && !w.terminating {
        TurnClients(p.requests);
        StepsFlags(st, RetryScript(st, p));
        ClientsKeep(Steps(st, RetryScript(st, p)), p.requests);
      }
      StepsFlags(st, Script(st, p));
    }

    /** perpd_mainloop, for as many turns as polls return: the state is that of the run of all the
        turns' events, up to the turn after which it ends or aborts; and when it ends by itself no
        child is left. */
    method Mainloop(polls: seq<Poll>) returns (turns: nat, aborted: bool)
      requires Valid() && TableInv(Abs()) && Orderly(w)
      modifies this, svdefs
      ensures Valid() && Abs() == Steps(old(Abs()), Loop(old(Abs()), polls).events)
      ensures turns == Loop(old(Abs()), polls).turns && aborted == Loop(old(Abs()), polls).aborted
      ensures LoopDoes(old(Abs()), polls, turns, aborted, Abs())
      ensures !aborted && turns < |polls| ==> w.terminating && nservices == 0 && w.children == {}
    {
      hide Steps, TableInv, Orderly, Script, Loop, TurnDoes;
      ghost var st := Abs();
      ghost var states := [st];
      ghost var es: seq<Event> := [];
      turns, aborted := 0, false;
      StepsNone(st);
      LoopStarts(st, polls);
      while turns < |polls|
        invariant Valid() && TableInv(Abs()) && Orderly(w) && turns <= |polls| && !aborted
        invariant Abs() == Steps(st, es)
        invariant Loop(st, polls) == Onward(es, turns, Loop(Abs(), polls[turns..]))
        invariant LoopStates(states, st, polls, turns, false, Abs())
      {
        LoopCases(Abs(), polls, turns);
        if w.terminating && nservices == 0 {
          NoChildLeft(Abs());
          OnwardEnd(es, turns);
          return;
        }
        ghost var now := Abs();
        ghost var more := Script(now, polls[turns]);
        aborted := Turn(polls[turns]);
        StepsConcat(st, es, more);
        OnwardTwice(es, turns, more, Loop(Abs(), polls[turns + 1..]));
        es := es + more;
        turns := turns + 1;
        states := states + [Abs()];
        if aborted {
          assert LoopStates(states, st, polls, turns, true, Abs());
          return;
        }
      }
      LoopEnds(Abs(), polls);
      OnwardEnd(es, turns);
    }
  }

  /** What the main loop goes through for a sequence of polls: the events, the turns taken, and whether
      it gave up. */
  datatype Looping = Looping(events: seq<Event>, turns: nat, aborted: bool)

  predicate Over(st: State) {
    st.w.terminating && st.svs == []
  }

  predicate Aborts(st: State) {
    st.w.terminating && st.w.flagFailing
  }

  /** The states between the turns: none is taken when the loop is over, and only the last may abort. */
  ghost predicate LoopStates(states: seq<State>, st: State, polls: seq<Poll>, turns: nat, aborted: bool, st': State) {
    && |states| == turns + 1 && turns <= |polls| && states[0] == st && states[turns] == st'
    && (aborted ==> turns > 0)
    && (forall k :: 0 <= k < turns ==> !Over(states[k]) && TurnDoes(states[k], polls[k], states[k + 1]))
    && (forall k :: 0 < k <= turns ==> (Aborts(states[k]) <==> aborted && k == turns))
  }

  /** What the main loop does for a sequence of polls: turns, until it is over or aborts. */
  ghost predicate LoopDoes(st: State, polls: seq<Poll>, turns: nat, aborted: bool, st': State) {
    && (exists states :: LoopStates(states, st, polls, turns, aborted, st'))
    && (turns < |polls| ==> aborted || Over(st'))
  }

  /** These events and turns, then those. */
  function Onward(es: seq<Event>, turns: nat, l: Looping): Looping {
    Looping(es + l.events, turns + l.turns, l.aborted)
  }

  function Loop(st: State, polls: seq<Poll>): (l: Looping)
    ensures l.turns <= |polls|
    decreases |polls|
  {
    if polls == [] || Over(st) then Looping([], 0, false) else
      var es := Script(st, polls[0]);
      var st1 := Steps(st, es);
      if Aborts(st1) then Looping(es, 1, true) else Onward(es, 1, Loop(st1, polls[1..]))
  }

  lemma LoopStarts(st: State, polls: seq<Poll>)
    ensures Loop(st, polls) == Onward([], 0, Loop(st, polls[0..]))
  {
    hide Loop;
    assert polls[0..] == polls;
  }

  lemma LoopCases(st: State, polls: seq<Poll>, k: nat)
    requires k < |polls|
    ensures var es := Script(st, polls[k]);
            var st1 := Steps(st, es);
            Loop(st, polls[k..]) ==
            if Over(st) then Looping([], 0, false)
            else if Aborts(st1) then Looping(es, 1, true)
            else Onward(es, 1, Loop(st1, polls[k + 1..]))
  {
    hide Script, Steps, Onward;
    assert polls[k..][0] == polls[k] && polls[k..][1..] == polls[k + 1..];
  }

  lemma LoopEnds(st: State, polls: seq<Poll>)
    ensures Loop(st, polls[|polls|..]) == Looping([], 0, false)
  {
  }

  lemma OnwardEnd(es: seq<Event>, turns: nat)
    ensures Onward(es, turns, Looping([], 0, false)) == Looping(es, turns, false)
  {
  }

  lemma OnwardTwice(es: seq<Event>, turns: nat, more: seq<Event>, l: Looping)
    ensures Onward(es, turns, Onward(more, 1, l)) == Onward(es + more, turns + 1, l)
    ensures Onward(es, turns, Looping(more, 1, true)) == Looping(es + more, turns + 1, true)
  {
    assert es + (more + l.events) == es + more + l.events;
  }

  lemma NoChildLeft(st: State)
    requires TableInv(st) && st.svs == []
    ensures st.w.children == {}
  {
    hide TableInv;
    forall pid | pid in st.w.children
      ensures false
    {
      ChildFound(st, pid);
    }
  }

  /** Starting the logger does not look at main. */
  lemma RunLogApart(sv: Svdef, w: World, main: Sub)
    ensures var r := Run(sv, Log, Start, w);
            r.0.main == sv.main && Run(sv.(main := main), Log, Start, w) == (r.0.(main := main), r.1)
  {
    hide Launched, Stuck, Forks, Refuses;
    assert Refuses(sv.(main := main), Log) == Refuses(sv, Log) by { RefusesApart(sv, main); }
    StuckLogApart(sv, w, main);
    if Forks(w) {
      LaunchedLogApart(sv, w, main);
    }
  }

  lemma RefusesApart(sv: Svdef, main: Sub)
    ensures Refuses(sv.(main := main), Log) == Refuses(sv, Log)
  {
  }

  lemma StuckLogApart(sv: Svdef, w: World, main: Sub)
    ensures var r := Stuck(sv, Log, Start, w);
            r.0.main == sv.main && Stuck(sv.(main := main), Log, Start, w) == (r.0.(main := main), r.1)
  {
    hide Asked;
  }

  lemma LaunchedLogApart(sv: Svdef, w: World, main: Sub)
    requires Forks(w)
    ensures var r := Launched(sv, Log, Start, w);
            r.0.main == sv.main && Launched(sv.(main := main), Log, Start, w) == (r.0.(main := main), r.1)
  {
    hide NextOk, Later, Asked, Forks;
  }

  /** A table swept up to position i. */
  function Mixed(a: seq<Svdef>, svs: seq<Svdef>, i: nat): seq<Svdef>
    requires i <= |svs|
  {
    a + svs[i..]
  }

  lemma MixedEnds(svs: seq<Svdef>)
    ensures Mixed([], svs, 0) == svs
  {
  }

  lemma MixedWhole(a: seq<Svdef>, svs: seq<Svdef>)
    ensures Mixed(a, svs, |svs|) == a
  {
  }

  lemma MixedNext(a: seq<Svdef>, svs: seq<Svdef>, i: nat, sv: Svdef)
    requires |a| == i < |svs|
    ensures |Mixed(a, svs, i)| == |svs| && Mixed(a, svs, i)[i] == svs[i]
    ensures Mixed(a, svs, i)[i := sv] == Mixed(a + [sv], svs, i + 1)
  {
  }

  lemma WantcullNone(svs: seq<Svdef>, w: World)
    ensures WantcullAll(svs[..0], w) == Sweeping([], w, false)
  {
  }

  lemma WantcullNext(svs: seq<Svdef>, i: nat, w: World)
    requires i < |svs|
    ensures var g := WantcullAll(svs[..i], w);
            var r := Wantcull(svs[i], g.w);
            WantcullAll(svs[..i + 1], w) == Sweeping(g.svs + [r.0], r.1, g.ready || r.2)
  {
    hide Wantcull;
    assert svs[..i + 1][..i] == svs[..i];
  }

  lemma CheckfailNone(svs: seq<Svdef>, w: World)
    ensures CheckfailAll(svs[..0], w) == ([], w)
  {
  }

  lemma CheckfailNext(svs: seq<Svdef>, i: nat, w: World)
    requires i < |svs|
    ensures var g := CheckfailAll(svs[..i], w);
            var r := Checkfail(svs[i], g.1);
            CheckfailAll(svs[..i + 1], w) == (g.0 + [r.0], r.1)
  {
    hide Checkfail;
    assert svs[..i + 1][..i] == svs[..i];
  }

  lemma DropNone(svs: seq<Svdef>, w: World)
    ensures DropAll(svs[..0], w) == Sweeping([], w, false)
  {
  }

  lemma DropNext(svs: seq<Svdef>, i: nat, w: World)
    requires i < |svs|
    ensures var g := DropAll(svs[..i], w);
            var r := DropOne(svs[i], g.w);
            DropAll(svs[..i + 1], w) == Sweeping(g.svs + [r.0], r.1, g.ready || r.2)
  {
    hide DropOne;
    assert svs[..i + 1][..i] == svs[..i];
  }

  lemma FindPidNext(svs: seq<Svdef>, i: nat, pid: nat)
    requires i < |svs|
    ensures FindPid(svs[i..], pid) ==
            if svs[i].main.pid == pid then (0, Main)
            else if svs[i].log.pid == pid then (0, Log)
            else (FindPid(svs[i + 1..], pid).0 + 1, FindPid(svs[i + 1..], pid).1)
  {
    assert svs[i..][1..] == svs[i + 1..];
  }

  lemma FindPidEnds(svs: seq<Svdef>, pid: nat)
    ensures svs[0..] == svs && FindPid(svs[|svs|..], pid) == (0, Main)
  {
  }

}
