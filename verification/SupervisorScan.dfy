/** What a scan of the base directory makes of the table. */
module SupervisorScan {
  import opened Tain
  import opened Supervisor
  import opened SupervisorTable
  import opened SupervisorHistory
  import opened SupervisorRuns

  ghost predicate Listed(dirs: seq<Dir>, id: Id) {
    exists k :: 0 <= k < |dirs| && dirs[k].id == id
  }

  predicate Running(sv: Svdef) {
    sv.main.pid > 0 || (sv.hasLog && sv.log.pid > 0)
  }

  /** A listed service that has an entry keeps it; a deactivating one is to come back. */
  function Retained(sv: Svdef): Svdef {
    sv.(active := true, cycle := sv.cycle || sv.cull)
  }

  /** A service that is not listed is deactivated, or its reactivation called off. */
  function Dropped(sv: Svdef): Svdef {
    if sv.cull then sv.(active := false, cycle := false) else
      var down := sv.(active := false, cycle := false, cull := true, main := sv.main.(wantDown := true),
                      log := if sv.hasLog then sv.log.(wantDown := true) else sv.log);
      if sv.main.pid > 0 then down.(main := down.main.(isPaused := false))
      else if sv.hasLog && sv.log.pid > 0 then down.(log := down.log.(isPaused := false))
      else down
  }

  /** A new entry. */
  predicate Fresh(sv: Svdef) {
    sv.active && !sv.cull && !sv.cycle
  }

  /** What the entry of a service must be after the directories read so far. */
  ghost predicate Right(svs: seq<Svdef>, dirs: seq<Dir>, y: Svdef) {
    && (forall k :: 0 <= k < |svs| && svs[k].id == y.id ==>
          y == if Listed(dirs, y.id) then Retained(svs[k]) else svs[k])
    && (Absent(svs, y.id) ==> Listed(dirs, y.id) && Fresh(y))
  }

  ghost predicate Reading(svs0: seq<Svdef>, dirs: seq<Dir>, svs: seq<Svdef>) {
    && (forall k :: 0 <= k < |svs| ==> Right(svs0, dirs, svs[k]))
    && (forall k :: 0 <= k < |svs0| ==> !Absent(svs, svs0[k].id))
    && (forall k :: 0 <= k < |dirs| ==> !Absent(svs, dirs[k].id))
  }

  lemma ListedAppend(dirs: seq<Dir>, d: Dir, id: Id)
    ensures Listed(dirs + [d], id) <==> Listed(dirs, id) || d.id == id
  {
    if Listed(dirs, id) {
      var k :| 0 <= k < |dirs| && dirs[k].id == id;
      assert (dirs + [d])[k].id == id;
    }
    if d.id == id {
      assert (dirs + [d])[|dirs|].id == id;
    }
  }

  lemma RightOther(svs0: seq<Svdef>, dirs: seq<Dir>, d: Dir, y: Svdef)
    requires Right(svs0, dirs, y) && y.id != d.id
    ensures Right(svs0, dirs + [d], y)
  {
    hide Listed, Absent;
    ListedAppend(dirs, d, y.id);
  }

  lemma RightKept(svs0: seq<Svdef>, dirs: seq<Dir>, d: Dir, y: Svdef)
    requires Right(svs0, dirs, y) && y.id == d.id
    ensures Right(svs0, dirs + [d], Retained(y))
  {
    hide Listed, Absent;
    ListedAppend(dirs, d, y.id);
  }

  lemma RightFresh(svs0: seq<Svdef>, dirs: seq<Dir>, d: Dir, y: Svdef)
    requires Absent(svs0, y.id) && y.id == d.id && Fresh(y)
    ensures Right(svs0, dirs + [d], y)
  {
    ListedAppend(dirs, d, y.id);
  }

  /** Whoever was present stays present. */
  lemma StillPresent(svs: seq<Svdef>, svs': seq<Svdef>, id: Id)
    requires |svs| <= |svs'| && forall k :: 0 <= k < |svs| ==> svs'[k].id == svs[k].id
    requires !Absent(svs, id)
    ensures !Absent(svs', id)
  {
    var k :| 0 <= k < |svs| && svs[k].id == id;
    assert svs'[k].id == id;
  }

  lemma ReadingCover(svs0: seq<Svdef>, dirs: seq<Dir>, d: Dir, svs: seq<Svdef>, svs': seq<Svdef>)
    requires Reading(svs0, dirs, svs) && !Absent(svs', d.id)
    requires |svs| <= |svs'| && forall k :: 0 <= k < |svs| ==> svs'[k].id == svs[k].id
    ensures forall k :: 0 <= k < |svs0| ==> !Absent(svs', svs0[k].id)
    ensures forall k :: 0 <= k < |dirs + [d]| ==> !Absent(svs', (dirs + [d])[k].id)
  {
    hide Absent, Right;
    forall k | 0 <= k < |svs0|
      ensures !Absent(svs', svs0[k].id)
    {
      StillPresent(svs, svs', svs0[k].id);
    }
    forall k | 0 <= k < |dirs + [d]|
      ensures !Absent(svs', (dirs + [d])[k].id)
    {
      if k < |dirs| {
        StillPresent(svs, svs', dirs[k].id);
      }
    }
  }

  lemma PresentAt(svs: seq<Svdef>, i: nat)
    requires i < |svs|
    ensures !Absent(svs, svs[i].id)
  {
  }

  lemma KeepReading(svs0: seq<Svdef>, dirs: seq<Dir>, d: Dir, svs: seq<Svdef>, i: nat)
    requires Reading(svs0, dirs, svs) && DistinctIds(svs) && i < |svs| && svs[i].id == d.id
    ensures Reading(svs0, dirs + [d], svs[i := Retained(svs[i])])
  {
    hide Right, Absent;
    var svs' := svs[i := Retained(svs[i])];
    PresentAt(svs', i);
    ReadingCover(svs0, dirs, d, svs, svs');
    forall k | 0 <= k < |svs'|
      ensures Right(svs0, dirs + [d], svs'[k])
    {
      if k == i {
        RightKept(svs0, dirs, d, svs[i]);
      } else {
        RightOther(svs0, dirs, d, svs[k]);
      }
    }
  }

  lemma AddReading(svs0: seq<Svdef>, dirs: seq<Dir>, d: Dir, svs: seq<Svdef>, y: Svdef)
    requires Reading(svs0, dirs, svs) && Absent(svs, d.id) && y.id == d.id && Fresh(y)
    ensures Reading(svs0, dirs + [d], svs + [y])
  {
    hide Right;
    var svs' := svs + [y];
    PresentAt(svs', |svs|);
    ReadingCover(svs0, dirs, d, svs, svs');
    forall k | 0 <= k < |svs'|
      ensures Right(svs0, dirs + [d], svs'[k])
    {
      if k < |svs| {
        RightOther(svs0, dirs, d, svs[k]);
      } else {
        NeverThere(svs0, dirs, svs, d.id);
        RightFresh(svs0, dirs, d, y);
      }
    }
  }

  lemma NeverThere(svs0: seq<Svdef>, dirs: seq<Dir>, svs: seq<Svdef>, id: Id)
    requires Reading(svs0, dirs, svs) && Absent(svs, id)
    ensures Absent(svs0, id)
  {
    hide Right;
  }

  /** Reading the directories, as long as no activation fails. */
  lemma {:induction false} ScanDirsReads(g0: Scanning, dirs: seq<Dir>)
    requires TableInv(g0.st) && !g0.failed
    ensures var g := ScanDirs(g0, dirs);
            !g.failed ==> Reading(g0.st.svs, dirs, g.st.svs)
  {
    hide TableInv, Reading, ActivateNew, Lookup, After;
    if dirs == [] {
      assert Reading(g0.st.svs, [], g0.st.svs) by { StartReading(g0.st); }
    } else {
      var front, d := dirs[..|dirs| - 1], dirs[|dirs| - 1];
      assert front + [d] == dirs;
      var g := ScanDirs(g0, front);
      ScanDirsReads(g0, front);
      ScanDirsInv(g0, front);
      var i := Lookup(g.st.svs, d.id);
      if g.failed {
        assert ScanDirs(g0, dirs) == ScanOne(g, d);
        assert ScanOne(g, d).failed;
      } else if i < |g.st.svs| {
        TableDistinct(g.st);
        KeepReading(g0.st.svs, front, d, g.st.svs, i);
      } else if |g.st.svs| < PERP_MAX && d.opens {
        LookupNone(g.st.svs, d.id);
        ActivateAfter(d, g.st.w);
        AddReading(g0.st.svs, front, d, g.st.svs, ActivateNew(d, g.st.w).0.(active := true));
      }
    }
  }

  lemma StartReading(st: State)
    requires TableInv(st)
    ensures Reading(st.svs, [], st.svs)
  {
    hide Accounted, Loggers;
    forall k | 0 <= k < |st.svs|
      ensures Right(st.svs, [], st.svs[k]) && !Absent(st.svs, st.svs[k].id)
    {
      forall j | 0 <= j < |st.svs| && st.svs[j].id == st.svs[k].id
        ensures j == k
      {
      }
    }
  }

  // ---- the sweep after the reading ----

  lemma DropOneIs(sv: Svdef, w: World)
    requires sv.cycle ==> sv.cull
    ensures var r := DropOne(sv, w);
            && r.0 == (if sv.active then sv else Dropped(sv))
            && (!sv.active ==> r.2 == !Running(sv))
  {
  }

  lemma {:induction false} DropAllIs(svs: seq<Svdef>, w: World)
    requires forall k :: 0 <= k < |svs| ==> (svs[k].cycle ==> svs[k].cull)
    ensures var g := DropAll(svs, w);
            && (forall k :: 0 <= k < |svs| ==> g.svs[k] == if svs[k].active then svs[k] else Dropped(svs[k]))
            && (g.ready <==> exists k :: 0 <= k < |svs| && !svs[k].active && !Running(svs[k]))
  {
    hide DropOne, Dropped, Running;
    if svs != [] {
      var last := |svs| - 1;
      DropAllIs(svs[..last], w);
      var g := DropAll(svs[..last], w);
      DropOneIs(svs[last], g.w);
      if DropAll(svs, w).ready && !g.ready {
        assert DropOne(svs[last], g.w).2;
        DropOneQuiet(svs[last], g.w);
      }
      if g.ready {
        var k :| 0 <= k < last && !svs[..last][k].active && !Running(svs[..last][k]);
        assert !svs[k].active && !Running(svs[k]);
      }
    }
  }

  lemma DropOneQuiet(sv: Svdef, w: World)
    ensures sv.active ==> !DropOne(sv, w).2
  {
  }

  /** perpd_cull removes the finished entries and no others. */
  lemma {:induction false} CullIs(svs: seq<Svdef>, i: nat, w: World, sv: Svdef)
    requires i <= |svs| && forall k :: 0 <= k < i ==> !Cullok(svs[k])
    ensures sv in CullFrom(svs, i, w).svs <==> sv in svs && !Cullok(sv)
    decreases |svs| - i
  {
    hide Cullok;
    if i < |svs| {
      if Cullok(svs[i]) {
        var last := |svs| - 1;
        var svs' := svs[i := svs[last]][..last];
        CullIs(svs', i, w.Did(Remove(svs[i].id, svs[i].cycle)), sv);
        if sv != svs[i] {
          MovedMembers(svs, i, sv);
        }
      } else {
        CullIs(svs, i + 1, w, sv);
      }
    }
  }

  lemma MovedMembers(svs: seq<Svdef>, i: nat, sv: Svdef)
    requires i < |svs| && sv != svs[i]
    ensures var last := |svs| - 1; sv in svs[i := svs[last]][..last] <==> sv in svs
  {
    var last := |svs| - 1;
    var svs' := svs[i := svs[last]][..last];
    if sv in svs {
      var k :| 0 <= k < |svs| && svs[k] == sv;
      assert k != i;
      assert svs'[if k == last then i else k] == sv;
    }
  }

  // ---- the whole scan ----

  /** What the entry of a service must be after an error-free scan. */
  ghost predicate Scanned(svs: seq<Svdef>, dirs: seq<Dir>, y: Svdef) {
    && (forall k :: 0 <= k < |svs| && svs[k].id == y.id ==>
          if Listed(dirs, y.id) then y == Retained(svs[k]) else Running(svs[k]) && y == Dropped(svs[k]))
    && (Absent(svs, y.id) ==> Listed(dirs, y.id) && Fresh(y))
  }

  /** A table between scans: nothing finished, and only deactivating entries are to come back. */
  ghost predicate Steady(svs: seq<Svdef>) {
    forall k :: 0 <= k < |svs| ==> !Cullok(svs[k]) && (svs[k].cycle ==> svs[k].cull)
  }

  /** An entry after reading and after the sweep that follows. */
  function Swept(y: Svdef): Svdef {
    if y.active then y else Dropped(y)
  }

  lemma FindOld(svs: seq<Svdef>, y: Svdef) returns (k: nat)
    requires !Absent(svs, y.id)
    ensures k < |svs| && svs[k].id == y.id
  {
    k :| 0 <= k < |svs| && svs[k].id == y.id;
  }

  lemma UnflagPresent(svs: seq<Svdef>, id: Id)
    ensures Absent(Unflag(svs), id) <==> Absent(svs, id)
  {
    if Absent(Unflag(svs), id) {
      UnflagAbsent(svs, id);
    }
  }

  /** Listed entries are the active ones, and only unlisted ones can be finished. */
  lemma ReadEntry(svs: seq<Svdef>, dirs: seq<Dir>, y: Svdef)
    requires Steady(svs) && Right(Unflag(svs), dirs, y)
    ensures (y.cycle ==> y.cull) && (y.active <==> Listed(dirs, y.id))
    ensures y.active ==> !Cullok(y)
    ensures !y.active ==> (Cullok(Swept(y)) <==> !Running(y))
    ensures !Cullok(Swept(y)) ==> Scanned(svs, dirs, Swept(y))
  {
    hide Listed, Absent, Unflag;
    UnflagPresent(svs, y.id);
    if Absent(svs, y.id) {
      AbsentMeans(svs, y.id);
    } else {
      var k := FindOld(svs, y);
      forall j | 0 <= j < |svs| && svs[j].id == y.id
        ensures y == if Listed(dirs, y.id) then Retained(svs[j]) else svs[j].(active := false)
      {
        assert Unflag(svs)[j] == svs[j].(active := false);
      }
    }
  }

  lemma AbsentMeans(svs: seq<Svdef>, id: Id)
    requires Absent(svs, id)
    ensures forall k :: 0 <= k < |svs| ==> svs[k].id != id
  {
  }

  /** The sweep and the removal, entry by entry. */
  lemma SweepMembers(mid: seq<Svdef>, w: World, sv: Svdef)
    requires forall k :: 0 <= k < |mid| ==> (mid[k].cycle ==> mid[k].cull)
    requires forall k :: 0 <= k < |mid| && mid[k].active ==> !Cullok(mid[k])
    requires forall k :: 0 <= k < |mid| && !mid[k].active ==> (Cullok(Swept(mid[k])) <==> !Running(mid[k]))
    ensures var s := DropAll(mid, w);
            var r := if s.ready then Cull(State(s.svs, s.w)).svs else s.svs;
            sv in r <==> !Cullok(sv) && exists k :: 0 <= k < |mid| && Swept(mid[k]) == sv
  {
    hide DropAll, CullFrom, Cullok, Running, Dropped;
    var s := DropAll(mid, w);
    DropAllIs(mid, w);
    CullIs(s.svs, 0, s.w, sv);
    if sv in s.svs {
      var k :| 0 <= k < |s.svs| && s.svs[k] == sv;
      assert Swept(mid[k]) == sv;
    }
    if k :| 0 <= k < |mid| && Swept(mid[k]) == sv {
      assert s.svs[k] == sv;
    }
  }

  /** After an error-free scan: every listed service has an active entry, its processes untouched and
      coming back if it was being deactivated; every other entry is being deactivated without coming
      back and has a live process; and no running service lost its entry. */
  lemma ScanResult(st: State, dirs: seq<Dir>)
    requires TableInv(st) && Steady(st.svs)
    requires !ScanDirs(Scanning(State(Unflag(st.svs), st.w), false), dirs).failed
    ensures var r := Scan(st, Listing(dirs, true)).svs;
            && (forall k :: 0 <= k < |r| ==> Scanned(st.svs, dirs, r[k]))
            && (forall k :: 0 <= k < |dirs| ==> !Absent(r, dirs[k].id))
            && (forall k :: 0 <= k < |st.svs| && Running(st.svs[k]) ==> !Absent(r, st.svs[k].id))
  {
    hide TableInv, Reading, Right, Scanned, ScanDirs, DropAll, Cull, Unflag, Cullok, Running, Dropped, Absent, Listed;
    var g := ScanDirs(Scanning(State(Unflag(st.svs), st.w), false), dirs);
    var mid := g.st.svs;
    var r := Scan(st, Listing(dirs, true)).svs;
    UnflagInv(st);
    ScanDirsReads(Scanning(State(Unflag(st.svs), st.w), false), dirs);
    assert forall k :: 0 <= k < |mid| ==> Right(Unflag(st.svs), dirs, mid[k]) by { ReadingParts(Unflag(st.svs), dirs, mid); }
    forall k | 0 <= k < |mid|
      ensures (mid[k].cycle ==> mid[k].cull) && (mid[k].active ==> !Cullok(mid[k]))
      ensures !mid[k].active ==> (Cullok(Swept(mid[k])) <==> !Running(mid[k]))
    {
      ReadEntry(st.svs, dirs, mid[k]);
    }
    forall k | 0 <= k < |r|
      ensures Scanned(st.svs, dirs, r[k])
    {
      SweepMembers(mid, g.st.w, r[k]);
      var j :| 0 <= j < |mid| && Swept(mid[j]) == r[k];
      ReadEntry(st.svs, dirs, mid[j]);
    }
    forall k | 0 <= k < |dirs|
      ensures !Absent(r, dirs[k].id)
    {
      ReadingParts(Unflag(st.svs), dirs, mid);
      assert Listed(dirs, dirs[k].id) by { ListedAt(dirs, k); }
      StaysIn(st, dirs, mid, g.st.w, r, dirs[k].id);
    }
    forall k | 0 <= k < |st.svs| && Running(st.svs[k])
      ensures !Absent(r, st.svs[k].id)
    {
      ReadingParts(Unflag(st.svs), dirs, mid);
      assert Unflag(st.svs)[k].id == st.svs[k].id by { UnflagAt(st.svs, k); }
      StillRunning(st, dirs, mid, k);
      StaysIn(st, dirs, mid, g.st.w, r, st.svs[k].id);
    }
  }

  lemma ReadingParts(svs0: seq<Svdef>, dirs: seq<Dir>, svs: seq<Svdef>)
    requires Reading(svs0, dirs, svs)
    ensures forall k :: 0 <= k < |svs| ==> Right(svs0, dirs, svs[k])
    ensures forall k :: 0 <= k < |svs0| ==> !Absent(svs, svs0[k].id)
    ensures forall k :: 0 <= k < |dirs| ==> !Absent(svs, dirs[k].id)
  {
  }

  lemma ListedAt(dirs: seq<Dir>, k: nat)
    requires k < |dirs|
    ensures Listed(dirs, dirs[k].id)
  {
  }

  lemma UnflagAt(svs: seq<Svdef>, k: nat)
    requires k < |svs|
    ensures Unflag(svs)[k] == svs[k].(active := false)
  {
  }

  /** The processes of a kept entry are untouched. */
  lemma StillRunning(st: State, dirs: seq<Dir>, mid: seq<Svdef>, k: nat)
    requires k < |st.svs| && Running(st.svs[k])
    requires forall j :: 0 <= j < |mid| ==> Right(Unflag(st.svs), dirs, mid[j])
    ensures forall j :: 0 <= j < |mid| && mid[j].id == st.svs[k].id ==> Running(mid[j])
  {
    hide Unflag, Listed, Absent;
    forall j | 0 <= j < |mid| && mid[j].id == st.svs[k].id
      ensures Running(mid[j])
    {
      assert Right(Unflag(st.svs), dirs, mid[j]);
      assert Unflag(st.svs)[k] == st.svs[k].(active := false);
    }
  }

  lemma StaysIn(st: State, dirs: seq<Dir>, mid: seq<Svdef>, w: World, r: seq<Svdef>, id: Id)
    requires Steady(st.svs) && !Absent(mid, id)
    requires forall k :: 0 <= k < |mid| ==> Right(Unflag(st.svs), dirs, mid[k])
    requires var s := DropAll(mid, w); r == if s.ready then Cull(State(s.svs, s.w)).svs else s.svs
    requires Listed(dirs, id) || forall j :: 0 <= j < |mid| && mid[j].id == id ==> Running(mid[j])
    ensures !Absent(r, id)
  {
    hide Right, Scanned, DropAll, Cull, Unflag, Cullok, Running, Dropped, Listed;
    var j :| 0 <= j < |mid| && mid[j].id == id;
    forall k | 0 <= k < |mid|
      ensures (mid[k].cycle ==> mid[k].cull) && (mid[k].active ==> !Cullok(mid[k]))
      ensures !mid[k].active ==> (Cullok(Swept(mid[k])) <==> !Running(mid[k]))
    {
      ReadEntry(st.svs, dirs, mid[k]);
    }
    ReadEntry(st.svs, dirs, mid[j]);
    SweepMembers(mid, w, Swept(mid[j]));
    DroppedId(mid[j]);
    assert Swept(mid[j]) in r;
  }

  lemma DroppedId(sv: Svdef)
    ensures Dropped(sv).id == sv.id
  {
  }

  /** No activation fails when every directory opens and the table has room. */
  lemma {:induction false} ScanSucceeds(g0: Scanning, dirs: seq<Dir>)
    requires !g0.failed && |g0.st.svs| + |dirs| <= PERP_MAX
    requires forall k :: 0 <= k < |dirs| ==> dirs[k].opens
    ensures var g := ScanDirs(g0, dirs); !g.failed && |g.st.svs| <= |g0.st.svs| + |dirs|
  {
    hide ActivateNew, Lookup;
    if dirs != [] {
      ScanSucceeds(g0, dirs[..|dirs| - 1]);
    }
  }

  /** In a run without a failed fork every table is fit for ScanResult. */
  lemma RunsSteady(answers: seq<Answer>, es: seq<Event>)
    requires Steps(Init(answers), es).w.forkFailures == 0
    ensures TableInv(Steps(Init(answers), es)) && Steady(Steps(Init(answers), es).svs)
  {
    hide Steps, Init, TableInv, Remembered, Cullok, Droppable;
    RunsAccounted(answers, es);
    RunsLawful(answers, es);
    var st := Steps(Init(answers), es);
    hide Facts;
    ToldDroppable(st);
    assert Steady(st.svs) by { DroppableSteady(st.svs); }
  }

  lemma DroppableSteady(svs: seq<Svdef>)
    requires Droppable(svs)
    ensures Steady(svs)
  {
  }
}
