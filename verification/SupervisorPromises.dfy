/** What the invariants of every run mean for someone who watches the daemon from outside, stated on
    positions in the history. */
module SupervisorPromises {
  import opened Tain
  import opened Supervisor
  import opened SupervisorTable
  import opened SupervisorHistory
  import opened SupervisorRuns
  import opened SupervisorFlags

  predicate Launches(a: Act, id: Id, which: Which) {
    a.Launch? && a.id == id && a.which == which
  }

  predicate Removes(a: Act, id: Id) {
    a.Remove? && a.id == id
  }

  // ---- prefixes of a history ----

  lemma PrefixNext(trace: seq<Act>, m: nat)
    requires m < |trace|
    ensures trace[..m + 1] == trace[..m] + [trace[m]]
  {
  }

  lemma {:induction false} PrefixSound(trace: seq<Act>, m: nat, id: Id, which: Which)
    requires m <= |trace| && Proc(trace, id, which) != Broken
    ensures Proc(trace[..m], id, which) != Broken
    decreases |trace|
  {
    if m < |trace| {
      var front := trace[..|trace| - 1];
      assert front + [trace[|trace| - 1]] == trace;
      Appended(front, trace[|trace| - 1], id);
      PrefixSound(front, m, id, which);
      assert front[..m] == trace[..m];
    } else {
      assert trace[..m] == trace;
    }
  }

  lemma {:induction false} GoodAt(trace: seq<Act>, m: nat)
    requires m < |trace| && Good(trace)
    ensures GoodAct(trace[..m], trace[m])
    decreases |trace|
  {
    hide GoodAct;
    if m < |trace| - 1 {
      GoodAt(trace[..|trace| - 1], m);
      assert trace[..|trace| - 1][..m] == trace[..m];
    }
  }

  // ---- alternation ----

  lemma {:induction false} PhaseBefore(trace: seq<Act>, m: nat, id: Id, which: Which)
    requires m <= |trace| && forall k :: 0 <= k < m ==> !Launches(trace[k], id, which)
    ensures Proc(trace[..m], id, which) == Idle
  {
    hide Proc, Culling, DownWanted, OnceOf, Owed, Good;
    if m == 0 {
      assert Proc([], id, which) == Idle by { ProcNothing(id, which); }
      assert trace[..m] == [];
    } else {
      PhaseBefore(trace, m - 1, id, which);
      PrefixNext(trace, m - 1);
      Appended(trace[..m - 1], trace[m - 1], id);
      assert !Launches(trace[m - 1], id, which);
    }
  }

  lemma ProcNothing(id: Id, which: Which)
    ensures Proc([], id, which) == Idle
  {
  }

  /** Between two launches: still live, or reaped. */
  lemma {:induction false} PhaseSince(trace: seq<Act>, i: nat, m: nat, id: Id, which: Which)
    requires i < m <= |trace| && Launches(trace[i], id, which) && Proc(trace[..i + 1], id, which) != Broken
    requires forall k :: i < k < m ==> !Launches(trace[k], id, which)
    ensures var p := Proc(trace[..m], id, which);
            || p == Live(trace[i].goal, trace[i].pid)
            || (p == (if trace[i].goal.Start? then Exited else Idle) && Reap(trace[i].pid) in trace[i + 1..m])
  {
    hide Proc, Culling, DownWanted, OnceOf, Owed, Good;
    PrefixNext(trace, m - 1);
    Appended(trace[..m - 1], trace[m - 1], id);
    if m > i + 1 {
      PhaseSince(trace, i, m - 1, id, which);
      assert trace[i + 1..m] == trace[i + 1..m - 1] + [trace[m - 1]];
      assert !Launches(trace[m - 1], id, which);
    }
  }

  /** Consecutive launches of a process have different goals, and the first was reaped in between. */
  lemma Alternates(trace: seq<Act>, i: nat, j: nat, id: Id, which: Which)
    requires Proc(trace, id, which) != Broken && i < j < |trace|
    requires Launches(trace[i], id, which) && Launches(trace[j], id, which)
    requires forall k :: i < k < j ==> !Launches(trace[k], id, which)
    ensures trace[i].goal != trace[j].goal && Reap(trace[i].pid) in trace[i + 1..j]
  {
    hide Proc, Culling, DownWanted, OnceOf, Owed, Good;
    PrefixSound(trace, i + 1, id, which);
    PrefixSound(trace, j + 1, id, which);
    PhaseSince(trace, i, j, id, which);
    PrefixNext(trace, j);
    Appended(trace[..j], trace[j], id);
  }

  lemma FirstStarts(trace: seq<Act>, j: nat, id: Id, which: Which)
    requires Proc(trace, id, which) != Broken && j < |trace| && Launches(trace[j], id, which)
    requires forall k :: 0 <= k < j ==> !Launches(trace[k], id, which)
    ensures trace[j].goal == Start
  {
    hide Proc, Culling, DownWanted, OnceOf, Owed, Good;
    PrefixSound(trace, j + 1, id, which);
    PhaseBefore(trace, j, id, which);
    PrefixNext(trace, j);
    Appended(trace[..j], trace[j], id);
  }

  // ---- deactivation ----

  lemma {:induction false} CullingSince(trace: seq<Act>, d: nat, m: nat, id: Id)
    requires d < m <= |trace| && trace[d] == Deactivate(id)
    requires forall k :: d < k < m ==> !Removes(trace[k], id)
    ensures Culling(trace[..m], id)
  {
    hide Proc, Culling, DownWanted, OnceOf, Owed, Good;
    PrefixNext(trace, m - 1);
    Appended(trace[..m - 1], trace[m - 1], id);
    if m > d + 1 {
      CullingSince(trace, d, m - 1, id);
      assert !Removes(trace[m - 1], id);
    }
  }

  /** Main stays gone while the service is being deactivated. */
  lemma {:induction false} MainStaysGone(trace: seq<Act>, d: nat, k: nat, m: nat, id: Id)
    requires d < k <= m <= |trace| && trace[d] == Deactivate(id) && Good(trace) && Proc(trace, id, Main) != Broken
    requires forall x :: d < x < m ==> !Removes(trace[x], id)
    requires Proc(trace[..k], id, Main) == Idle
    ensures Proc(trace[..m], id, Main) == Idle
    ensures forall x :: k <= x < m ==> !Launches(trace[x], id, Main)
  {
    hide Proc, Culling, DownWanted, OnceOf, Owed, Good;
    if k < m {
      MainStaysGone(trace, d, k, m - 1, id);
      CullingSince(trace, d, m - 1, id);
      GoodAt(trace, m - 1);
      PrefixSound(trace, m, id, Main);
      PrefixNext(trace, m - 1);
      Appended(trace[..m - 1], trace[m - 1], id);
    }
  }

  // ---- every run without a failed fork ----

  lemma FactsSound(st: State, id: Id, which: Which)
    requires Facts(st)
    ensures Proc(st.w.trace, id, which) != Broken
  {
    hide Proc, Culling, DownWanted, OnceOf, Good;
    if !Absent(st.svs, id) {
      var k :| 0 <= k < |st.svs| && st.svs[k].id == id;
      assert Told(st.w.trace, st.svs[k]);
    }
  }

  /** The launches of every process alternate start, reset, start, each after the previous one was
      reaped. */
  lemma RunsAlternate(answers: seq<Answer>, es: seq<Event>, i: nat, j: nat)
    requires Steps(Init(answers), es).w.forkFailures == 0
    requires i < j < |Steps(Init(answers), es).w.trace|
    requires var t := Steps(Init(answers), es).w.trace;
             && t[i].Launch? && Launches(t[j], t[i].id, t[i].which)
             && forall k :: i < k < j ==> !Launches(t[k], t[i].id, t[i].which)
    ensures var t := Steps(Init(answers), es).w.trace;
            t[i].goal != t[j].goal && Reap(t[i].pid) in t[i + 1..j]
  {
    hide Steps, Init, Facts, Proc;
    var st := Steps(Init(answers), es);
    RunsLawful(answers, es);
    FactsSound(st, st.w.trace[i].id, st.w.trace[i].which);
    Alternates(st.w.trace, i, j, st.w.trace[i].id, st.w.trace[i].which);
  }

  /** The first launch of every process is a start. */
  lemma RunsBeginWithStart(answers: seq<Answer>, es: seq<Event>, j: nat)
    requires Steps(Init(answers), es).w.forkFailures == 0 && j < |Steps(Init(answers), es).w.trace|
    requires var t := Steps(Init(answers), es).w.trace;
             t[j].Launch? && forall k :: 0 <= k < j ==> !Launches(t[k], t[j].id, t[j].which)
    ensures Steps(Init(answers), es).w.trace[j].goal == Start
  {
    hide Steps, Init, Facts, Proc;
    var st := Steps(Init(answers), es);
    RunsLawful(answers, es);
    FactsSound(st, st.w.trace[j].id, st.w.trace[j].which);
    FirstStarts(st.w.trace, j, st.w.trace[j].id, st.w.trace[j].which);
  }

  /** The target flag of an entry names what its live process runs, and nothing awaits a retry. */
  lemma RunsNameTarget(answers: seq<Answer>, es: seq<Event>, i: nat, which: Which)
    requires Steps(Init(answers), es).w.forkFailures == 0 && i < |Steps(Init(answers), es).svs|
    ensures var st := Steps(Init(answers), es);
            var sub := st.svs[i].Get(which);
            && !sub.failing
            && Proc(st.w.trace, st.svs[i].id, which) ==
                 if sub.pid > 0 then Live(if sub.isReset then Reset else Start, sub.pid) else Idle
  {
    hide Steps, Init, Proc, Good, Culling, DownWanted, OnceOf, Settled, Remembered;
    var st := Steps(Init(answers), es);
    RunsLawful(answers, es);
    assert Told(st.w.trace, st.svs[i]);
  }

  /** From deactivation to removal nothing of the service is started, and when its logger is asked to
      end, main is gone and never comes back. */
  lemma RunsDeactivate(answers: seq<Answer>, es: seq<Event>, d: nat, k: nat, m: nat, id: Id)
    requires Steps(Init(answers), es).w.forkFailures == 0
    requires d < k <= m < |Steps(Init(answers), es).w.trace|
    requires var t := Steps(Init(answers), es).w.trace;
             t[d] == Deactivate(id) && forall x :: d < x <= m ==> !Removes(t[x], id)
    ensures var t := Steps(Init(answers), es).w.trace;
            && (t[k].Launch? && t[k].id == id ==> t[k].goal == Reset)
            && (t[k].Signal? && t[k].id == id && t[k].which == Log && t[k].sig == TERM ==>
                  Proc(t[..k], id, Main) == Idle && !Launches(t[m], id, Main))
  {
    hide Steps, Init, Proc, Good, Culling, DownWanted, OnceOf, Settled, Remembered, Facts;
    var st := Steps(Init(answers), es);
    var t := st.w.trace;
    RunsLawful(answers, es);
    assert Good(t) by { FactsGood(st); }
    FactsSound(st, id, Main);
    CullingSince(t, d, k, id);
    GoodAt(t, k);
    if t[k].Signal? && t[k].id == id && t[k].which == Log && t[k].sig == TERM {
      MainStaysGone(t, d, k, m + 1, id);
    }
  }

  /** In every run without a failed fork signals go to live processes only, and a process running reset
      gets none but SIGCONT and SIGKILL. */
  lemma RunsSignal(answers: seq<Answer>, es: seq<Event>, k: nat)
    requires Steps(Init(answers), es).w.forkFailures == 0 && k < |Steps(Init(answers), es).w.trace|
    requires Steps(Init(answers), es).w.trace[k].Signal?
    ensures var t := Steps(Init(answers), es).w.trace;
            var p := Proc(t[..k], t[k].id, t[k].which);
            p.Live? && (p.goal == Reset ==> t[k].sig == CONT || t[k].sig == KILL)
  {
    hide Steps, Init, Proc, Good, Culling, DownWanted, OnceOf, Settled, Remembered, Facts;
    var st := Steps(Init(answers), es);
    RunsLawful(answers, es);
    assert Good(st.w.trace) by { FactsGood(st); }
    GoodAt(st.w.trace, k);
  }

  // ---- wishes ----

  /** The process is asked up, or its service begins anew. */
  predicate Renews(a: Act, id: Id, which: Which) {
    || (a.WishUp? && a.id == id && a.which == which)
    || (a.Activate? && a.id == id)
    || Removes(a, id)
  }

  /** The process is asked down, or its service is activated with main down. */
  predicate AsksDown(a: Act, id: Id, which: Which) {
    a == WishDown(id, which) || (a.Activate? && a.id == id && a.down && which == Main)
  }

  /** The process is asked up once, or its service is activated to run main once. */
  predicate AsksOnce(a: Act, id: Id, which: Which) {
    a == WishUp(id, which, true) || (a == Activate(id, false, true) && which == Main)
  }

  lemma {:induction false} DownSince(trace: seq<Act>, i: nat, m: nat, id: Id, which: Which)
    requires i < m <= |trace| && AsksDown(trace[i], id, which)
    requires forall k :: i < k < m ==> !Renews(trace[k], id, which)
    ensures DownWanted(trace[..m], id, which)
  {
    hide Proc, Culling, DownWanted, OnceOf, Owed, Good;
    PrefixNext(trace, m - 1);
    Appended(trace[..m - 1], trace[m - 1], id);
    if m > i + 1 {
      DownSince(trace, i, m - 1, id, which);
      assert !Renews(trace[m - 1], id, which);
    }
  }

  /** After a process was asked down, or activated down, it is not started until it is asked up, or its
      service is removed or activated, in every run without a failed fork. (With one, the retries do
      start it: RetryReachesIff.) */
  lemma RunsStayDown(answers: seq<Answer>, es: seq<Event>, i: nat, j: nat, id: Id, which: Which)
    requires Steps(Init(answers), es).w.forkFailures == 0
    requires i < j < |Steps(Init(answers), es).w.trace|
    requires var t := Steps(Init(answers), es).w.trace;
             && AsksDown(t[i], id, which)
             && forall k :: i < k < j ==> !Renews(t[k], id, which)
    ensures var a := Steps(Init(answers), es).w.trace[j]; Launches(a, id, which) ==> a.goal == Reset
  {
    hide Steps, Init, Proc, Good, Culling, DownWanted, OnceOf, Settled, Remembered, Facts;
    var st := Steps(Init(answers), es);
    RunsLawful(answers, es);
    assert Good(st.w.trace) by { FactsGood(st); }
    DownSince(st.w.trace, i, j, id, which);
    GoodAt(st.w.trace, j);
  }

  lemma {:induction false} OnceSince(trace: seq<Act>, i: nat, m: nat, id: Id, which: Which)
    requires i < m <= |trace| && AsksOnce(trace[i], id, which)
    requires forall k :: i < k < m ==> !Renews(trace[k], id, which)
    ensures OnceOf(trace[..m], id, which) != Many
    ensures (exists k :: i < k < m && Launches(trace[k], id, which) && trace[k].goal == Start) ==>
              OnceOf(trace[..m], id, which) == Spent
  {
    hide Proc, Culling, DownWanted, OnceOf, Owed, Good;
    PrefixNext(trace, m - 1);
    Appended(trace[..m - 1], trace[m - 1], id);
    if m > i + 1 {
      OnceSince(trace, i, m - 1, id, which);
      assert !Renews(trace[m - 1], id, which);
    }
  }

  /** After a process was asked up once, or activated so, it is started at most once until it is asked up
      again, or its service is removed or activated, in every run without a failed fork. */
  lemma RunsOnce(answers: seq<Answer>, es: seq<Event>, i: nat, j: nat, k: nat, id: Id, which: Which)
    requires Steps(Init(answers), es).w.forkFailures == 0
    requires i < j < k < |Steps(Init(answers), es).w.trace|
    requires var t := Steps(Init(answers), es).w.trace;
             && AsksOnce(t[i], id, which) && Launches(t[j], id, which) && t[j].goal == Start
             && forall m :: i < m < k ==> !Renews(t[m], id, which)
    ensures var a := Steps(Init(answers), es).w.trace[k]; Launches(a, id, which) ==> a.goal == Reset
  {
    hide Steps, Init, Proc, Good, Culling, DownWanted, OnceOf, Settled, Remembered, Facts;
    var st := Steps(Init(answers), es);
    RunsLawful(answers, es);
    assert Good(st.w.trace) by { FactsGood(st); }
    OnceSince(st.w.trace, i, k, id, which);
    GoodAt(st.w.trace, k);
  }

  lemma FactsGood(st: State)
    requires Facts(st)
    ensures Good(st.w.trace)
  {
  }

  /** No entry marked for removal outlives an event with both its processes gone. */
  lemma RunsRemove(answers: seq<Answer>, es: seq<Event>, i: nat)
    requires Steps(Init(answers), es).w.forkFailures == 0 && i < |Steps(Init(answers), es).svs|
    ensures var sv := Steps(Init(answers), es).svs[i]; sv.cull ==> sv.main.pid > 0 || sv.log.pid > 0
  {
    hide Steps, Init, Facts, Remembered;
    RunsLawful(answers, es);
  }

  /** No reactivation is lost: while one is owed a rescan is pending, unless the daemon is
      terminating. */
  lemma RunsReactivate(answers: seq<Answer>, es: seq<Event>)
    ensures var w := Steps(Init(answers), es).w;
            w.forkFailures == 0 && Owed(w.trace) && !w.terminating ==> w.flagHup
  {
    hide Steps, Init, Facts, Settled, Owed;
    RunsLawful(answers, es);
  }

  function NextDue(d: bool, a: Act): bool {
    match a
    case Remove(_, cycle) => d || cycle
    case ScanDone => false
    case _ => d
  }

  /** A service that asked to be reactivated was removed and no scan has succeeded since. */
  function Due(trace: seq<Act>): bool {
    if trace == [] then false else NextDue(Due(trace[..|trace| - 1]), trace[|trace| - 1])
  }

  lemma DueAppend(trace: seq<Act>, a: Act)
    ensures Due(trace + [a]) == NextDue(Due(trace), a)
  {
    assert (trace + [a])[..|trace|] == trace;
  }

  /** A scan leaves a reactivation due without a rescan pending exactly when it could not open the base
      directory. */
  lemma ScanForgetsIff(st: State, listing: Listing)
    requires Due(st.w.trace) && !st.w.terminating
    ensures var w := Step(st, Rescan(listing)).w;
            Due(w.trace) && !w.flagHup <==> listing.NoDir?
  {
    hide ScanDirs, DropAll, CullFrom, Unflag, Due;
    var w0 := st.w.(flagHup := false);
    if listing.NoDir? {
      DueAppend(st.w.trace, ScanLost);
    } else {
      var g0 := Scanning(State(Unflag(st.svs), w0), false);
      var g := ScanDirs(g0, listing.dirs);
      ScanDirsFlags(g0, listing.dirs);
      DropAllFlags(g.st.svs, g.st.w);
      var s := DropAll(g.st.svs, g.st.w);
      CullFlags(s.svs, 0, s.w);
      var st2 := if s.ready then Cull(State(s.svs, s.w)) else State(s.svs, s.w);
      DueAppend(st2.w.trace, ScanDone);
    }
  }

  /** Such a scan: what was owed before it is no longer asked for. */
  lemma UnopenedScanForgets(st: State)
    requires Owed(st.w.trace) && !st.w.terminating
    ensures var w := Step(st, Rescan(NoDir)).w;
            w.trace == st.w.trace + [ScanLost] && !w.terminating && !w.flagHup
  {
  }
}
