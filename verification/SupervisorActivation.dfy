/** What a scan makes of a service directory that has no entry yet. */
module SupervisorActivation {
  import opened Tain
  import opened Supervisor
  import opened SupervisorTable
  import opened SupervisorHistory
  import opened SupervisorRuns
  import opened SupervisorScan

  // ---- the acts of one service ----

  /** The acts about a service, in order. */
  function Of(trace: seq<Act>, id: Id): (acts: seq<Act>) {
    if trace == [] then [] else
      var front, a := Of(trace[..|trace| - 1], id), trace[|trace| - 1];
      if About(a, id) then front + [a] else front
  }

  lemma OfNext(trace: seq<Act>, a: Act, id: Id)
    ensures Of(trace + [a], id) == if About(a, id) then Of(trace, id) + [a] else Of(trace, id)
  {
    assert (trace + [a])[..|trace|] == trace;
  }

  lemma {:induction false} OfOthers(t: seq<Act>, t': seq<Act>, id: Id, other: Id)
    requires t <= t' && id != other && forall k :: |t| <= k < |t'| ==> About(t'[k], id)
    ensures Of(t', other) == Of(t, other)
    decreases |t'|
  {
    hide Of;
    if |t| == |t'| {
      assert t == t';
    } else {
      var last := |t'| - 1;
      assert t'[..last] + [t'[last]] == t';
      OfOthers(t, t'[..last], id, other);
      OfNext(t'[..last], t'[last], other);
    }
  }

  // ---- one activation ----

  /** The outcome of an attempt to start a process, on record. */
  predicate Attempted(a: Act, id: Id, which: Which, s: Sub) {
    if s.pid > 0 then a.Launch? && a.id == id && a.which == which && a.goal == Start && a.pid == s.pid && a.now == s.when
    else a == ForkFailed(id, which, Start)
  }

  /** A process that was to be started: it runs, or awaits a retry. */
  predicate Begun(s: Sub, once: bool) {
    !s.wantDown && !s.isReset && !s.isPaused && s.isOnce == once && (s.failing <==> s.pid == 0)
  }

  /** The entry of a newly activated directory: the logger is started if there is one, whatever the
      flags; main unless it is to be down. */
  predicate Opened(d: Dir, y: Svdef) {
    && y.id == d.id && y.when == d.when && y.hasLog == d.hasLog && y.down == d.down && y.once == d.once
    && y.active && !y.cull && !y.cycle
    && (if d.hasLog then Begun(y.log, false) else y.log == IDLE)
    && (if d.down then y.main == IDLE.(wantDown := true) else Begun(y.main, d.once))
  }

  /** The acts of an activation: these and no others. */
  predicate Born(acts: seq<Act>, d: Dir, y: Svdef) {
    && |acts| == 1 + (if d.hasLog then 1 else 0) + (if d.down then 0 else 1)
    && acts[0] == Activate(d.id, d.down, d.once)
    && (d.hasLog ==> Attempted(acts[1], d.id, Log, y.log))
    && (!d.down ==> Attempted(acts[|acts| - 1], d.id, Main, y.main))
  }

  /** One start on record: nothing else of the entry changes. */
  predicate StartOnly(sv: Svdef, sv': Svdef, which: Which) {
    && SameWishes(sv, sv', which) && sv'.id == sv.id
    && !sv'.Get(which).isReset && sv'.Get(which).isPaused == sv.Get(which).isPaused
  }

  lemma LaunchRecorded(sv: Svdef, which: Which, w: World)
    requires Forks(w)
    ensures var r := Launched(sv, which, Start, w);
            && StartOnly(sv, r.0, which) && r.0.Get(which).pid > 0 && !r.0.Get(which).failing
            && |r.1.trace| == |w.trace| + 1 && r.1.trace[..|w.trace|] == w.trace
            && Attempted(r.1.trace[|w.trace|], sv.id, which, r.0.Get(which))
  {
    hide Launched, NextOk, Later, SameWishes;
    LaunchParts(sv, which, Start, w);
  }

  lemma StuckRecorded(sv: Svdef, which: Which, w: World)
    requires !Refuses(sv, which)
    ensures var r := Stuck(sv, which, Start, w);
            && StartOnly(sv, r.0, which) && r.0.Get(which).pid == 0 && r.0.Get(which).failing
            && |r.1.trace| == |w.trace| + 1 && r.1.trace[..|w.trace|] == w.trace
            && Attempted(r.1.trace[|w.trace|], sv.id, which, r.0.Get(which))
  {
    match which
    case Main =>
    case Log =>
  }

  /** A start that is not refused: launched exactly if fork succeeds. */
  lemma StartRecorded(sv: Svdef, which: Which, w: World)
    requires !Refuses(sv, which)
    ensures var r := Run(sv, which, Start, w);
            && StartOnly(sv, r.0, which)
            && (r.0.Get(which).pid > 0 <==> Forks(w)) && (r.0.Get(which).failing <==> !Forks(w))
            && |r.1.trace| == |w.trace| + 1 && r.1.trace[..|w.trace|] == w.trace
            && Attempted(r.1.trace[|w.trace|], sv.id, which, r.0.Get(which))
  {
    hide Launched, Stuck, Forks, Refuses, StartOnly, Attempted;
    if Forks(w) {
      LaunchRecorded(sv, which, w);
    } else {
      StuckRecorded(sv, which, w);
    }
  }

  lemma StartOf1(sv: Svdef, which: Which, w: World)
    requires !Refuses(sv, which)
    ensures var r := Run(sv, which, Start, w);
            exists a :: Attempted(a, sv.id, which, r.0.Get(which)) && Of(r.1.trace, sv.id) == Of(w.trace, sv.id) + [a]
  {
    hide Run, Of;
    StartRecorded(sv, which, w);
    var t := Run(sv, which, Start, w).1.trace;
    assert t == w.trace + [t[|w.trace|]];
    OfNext(w.trace, t[|w.trace|], sv.id);
  }

  /** The world in which main's fork is tried. */
  function AfterLog(d: Dir, w: World): World {
    Run(Opening(d), Log, Start, w.Did(Activate(d.id, d.down, d.once))).1
  }

  lemma LogFirst(d: Dir, w: World)
    ensures var r := Run(Opening(d), Log, Start, w.Did(Activate(d.id, d.down, d.once)));
            && (if d.hasLog then StartOnly(Opening(d), r.0, Log) && (r.0.log.pid > 0 <==> Forks(w)) && Begun(r.0.log, false)
                else r.0 == Opening(d) && r.1 == w.Did(Activate(d.id, d.down, d.once)))
  {
    hide Run;
    var w0 := w.Did(Activate(d.id, d.down, d.once));
    if d.hasLog {
      StartRecorded(Opening(d), Log, w0);
    } else {
      RunRefused(Opening(d), Log, Start, w0);
    }
  }

  lemma ActivateOpens(d: Dir, w: World)
    ensures var y := ActivateNew(d, w).0;
            && Opened(d, y)
            && (d.hasLog ==> (y.log.pid > 0 <==> Forks(w)))
            && (!d.down ==> (y.main.pid > 0 <==> Forks(AfterLog(d, w))))
  {
    hide Run, Forks;
    LogFirst(d, w);
    var r := Run(Opening(d), Log, Start, w.Did(Activate(d.id, d.down, d.once)));
    if !d.down {
      StartRecorded(r.0, Main, r.1);
    }
  }

  lemma ActivateBears(d: Dir, w: World)
    ensures var r := ActivateNew(d, w);
            exists acts :: Born(acts, d, r.0) && Of(r.1.trace, d.id) == Of(w.trace, d.id) + acts
  {
    hide Run, Of, Forks, Attempted, Begun;
    var a := Activate(d.id, d.down, d.once);
    var w0 := w.Did(a);
    OfNext(w.trace, a, d.id);
    LogFirst(d, w);
    var r1 := Run(Opening(d), Log, Start, w0);
    var acts := [a];
    if d.hasLog {
      StartOf1(Opening(d), Log, w0);
      var b :| Attempted(b, d.id, Log, r1.0.log) && Of(r1.1.trace, d.id) == Of(w0.trace, d.id) + [b];
      acts := acts + [b];
    }
    assert Of(r1.1.trace, d.id) == Of(w.trace, d.id) + acts;
    if !d.down {
      StartOf1(r1.0, Main, r1.1);
      var r := Run(r1.0, Main, Start, r1.1);
      StartRecorded(r1.0, Main, r1.1);
      var c :| Attempted(c, d.id, Main, r.0.main) && Of(r.1.trace, d.id) == Of(r1.1.trace, d.id) + [c];
      assert Of(w.trace, d.id) + acts + [c] == Of(w.trace, d.id) + (acts + [c]);
      acts := acts + [c];
    }
    assert Born(acts, d, ActivateNew(d, w).0);
  }

  // ---- reading the directories ----

  /** Position k is the first directory of this service that opens. */
  ghost predicate FirstOpen(dirs: seq<Dir>, k: nat, id: Id) {
    && k < |dirs| && dirs[k].id == id && dirs[k].opens
    && forall j :: 0 <= j < k && dirs[j].id == id ==> !dirs[j].opens
  }

  /** The entry and the history of a service without an entry before the scan. */
  ghost predicate New(t0: seq<Act>, t: seq<Act>, dirs: seq<Dir>, y: Svdef) {
    exists k: nat, acts ::
      && FirstOpen(dirs, k, y.id) && Opened(dirs[k], y)
      && Born(acts, dirs[k], y) && Of(t, y.id) == Of(t0, y.id) + acts
  }

  ghost predicate Births(st0: State, dirs: seq<Dir>, st: State) {
    && (forall k :: 0 <= k < |st.svs| && Absent(st0.svs, st.svs[k].id) ==> New(st0.w.trace, st.w.trace, dirs, st.svs[k]))
    && (forall k :: 0 <= k < |st0.svs| ==> !Absent(st.svs, st0.svs[k].id))
    && (forall j :: 0 <= j < |dirs| && dirs[j].opens && Absent(st.svs, dirs[j].id) ==> |st.svs| >= PERP_MAX)
    && (forall id :: Absent(st.svs, id) ==> Of(st.w.trace, id) == Of(st0.w.trace, id))
  }

  lemma NewKept(t0: seq<Act>, t: seq<Act>, t': seq<Act>, dirs: seq<Dir>, d: Dir, y: Svdef)
    requires New(t0, t, dirs, y) && Of(t', y.id) == Of(t, y.id)
    ensures New(t0, t', dirs + [d], y)
  {
    hide Of, Opened, Born;
    var k: nat, acts :| FirstOpen(dirs, k, y.id) && Opened(dirs[k], y)
                        && Born(acts, dirs[k], y) && Of(t, y.id) == Of(t0, y.id) + acts;
    assert (dirs + [d])[k] == dirs[k];
    assert FirstOpen(dirs + [d], k, y.id);
  }

  lemma NewRetained(t0: seq<Act>, t: seq<Act>, dirs: seq<Dir>, y: Svdef)
    requires New(t0, t, dirs, y)
    ensures New(t0, t, dirs, Retained(y))
  {
    hide Of, Attempted, Begun;
    var k: nat, acts :| FirstOpen(dirs, k, y.id) && Opened(dirs[k], y)
                        && Born(acts, dirs[k], y) && Of(t, y.id) == Of(t0, y.id) + acts;
    assert Opened(dirs[k], Retained(y));
  }

  /** A directory of a service that has an entry. */
  lemma KeepBirths(st0: State, dirs: seq<Dir>, d: Dir, st: State, i: nat)
    requires Births(st0, dirs, st) && i < |st.svs| && st.svs[i].id == d.id
    ensures Births(st0, dirs + [d], State(st.svs[i := Retained(st.svs[i])], st.w))
  {
    hide New, Absent;
    var svs' := st.svs[i := Retained(st.svs[i])];
    var t0, t := st0.w.trace, st.w.trace;
    forall id
      ensures Absent(svs', id) <==> Absent(st.svs, id)
    {
      SameAbsent(st.svs, svs', id);
    }
    assert !Absent(svs', d.id) by { PresentAt(svs', i); }
    forall k | 0 <= k < |svs'| && Absent(st0.svs, svs'[k].id)
      ensures New(t0, t, dirs + [d], svs'[k])
    {
      NewKept(t0, t, t, dirs, d, st.svs[k]);
      if k == i {
        NewRetained(t0, t, dirs + [d], st.svs[k]);
      }
    }
  }

  lemma SameAbsent(svs: seq<Svdef>, svs': seq<Svdef>, id: Id)
    requires |svs| == |svs'| && forall k :: 0 <= k < |svs| ==> svs'[k].id == svs[k].id
    ensures Absent(svs', id) <==> Absent(svs, id)
  {
    if !Absent(svs, id) {
      StillPresent(svs, svs', id);
    }
    if !Absent(svs', id) {
      StillPresent(svs', svs, id);
    }
  }

  /** A directory that is not activated. */
  lemma SkipBirths(st0: State, dirs: seq<Dir>, d: Dir, st: State)
    requires Births(st0, dirs, st) && (|st.svs| >= PERP_MAX || !d.opens)
    ensures Births(st0, dirs + [d], st)
  {
    hide New, Absent, Of;
    var t0, t := st0.w.trace, st.w.trace;
    forall k | 0 <= k < |st.svs| && Absent(st0.svs, st.svs[k].id)
      ensures New(t0, t, dirs + [d], st.svs[k])
    {
      NewKept(t0, t, t, dirs, d, st.svs[k]);
    }
  }

  lemma NewlyNew(st0: State, dirs: seq<Dir>, d: Dir, st: State)
    requires Births(st0, dirs, st) && Absent(st.svs, d.id) && |st.svs| < PERP_MAX && d.opens
    ensures var r := ActivateNew(d, st.w); New(st0.w.trace, r.1.trace, dirs + [d], r.0)
  {
    hide Of, Attempted, Begun, ActivateNew, Absent, New, Opened, Born;
    var r := ActivateNew(d, st.w);
    ActivateOpens(d, st.w);
    ActivateBears(d, st.w);
    var acts :| Born(acts, d, r.0) && Of(r.1.trace, d.id) == Of(st.w.trace, d.id) + acts;
    assert r.0.id == d.id by { OpenedId(d, r.0); }
    forall j | 0 <= j < |dirs| && dirs[j].id == d.id
      ensures !dirs[j].opens
    {
    }
    assert FirstOpen(dirs + [d], |dirs|, d.id);
    assert New(st0.w.trace, r.1.trace, dirs + [d], r.0) by {
      NewIs(st0.w.trace, r.1.trace, dirs + [d], r.0, |dirs|, acts);
    }
  }

  lemma OpenedId(d: Dir, y: Svdef)
    requires Opened(d, y)
    ensures y.id == d.id && y.active && !y.cull
  {
  }

  lemma NewIs(t0: seq<Act>, t: seq<Act>, dirs: seq<Dir>, y: Svdef, k: nat, acts: seq<Act>)
    requires FirstOpen(dirs, k, y.id) && Opened(dirs[k], y) && Born(acts, dirs[k], y) && Of(t, y.id) == Of(t0, y.id) + acts
    ensures New(t0, t, dirs, y)
  {
  }

  /** A directory that is activated. */
  lemma AddBirths(st0: State, dirs: seq<Dir>, d: Dir, st: State)
    requires Births(st0, dirs, st) && Absent(st.svs, d.id) && |st.svs| < PERP_MAX && d.opens
    ensures var r := ActivateNew(d, st.w); Births(st0, dirs + [d], State(st.svs + [r.0.(active := true)], r.1))
  {
    hide New, Absent, Of, ActivateNew, Opened, After;
    var r := ActivateNew(d, st.w);
    var y, svs' := r.0.(active := true), st.svs + [r.0.(active := true)];
    var t0, t, t' := st0.w.trace, st.w.trace, r.1.trace;
    ActivateOpens(d, st.w);
    OpenedId(d, r.0);
    assert y == r.0;
    NewlyNew(st0, dirs, d, st);
    ActivateAfter(d, st.w);
    forall id
      ensures Absent(svs', id) <==> Absent(st.svs, id) && id != d.id
      ensures id != d.id ==> Of(t', id) == Of(t, id)
    {
      AddAbsent(st.svs, y, id);
      if id != d.id {
        OfAfter(st.w, r.1, d.id, id);
      }
    }
    forall k | 0 <= k < |svs'| && Absent(st0.svs, svs'[k].id)
      ensures New(t0, t', dirs + [d], svs'[k])
    {
      if k < |st.svs| {
        assert st.svs[k].id != d.id by { AbsentMeans(st.svs, d.id); }
        NewKept(t0, t, t', dirs, d, st.svs[k]);
      }
    }
  }

  lemma OfAfter(w: World, w': World, id: Id, other: Id)
    requires After(w, w', id) && other != id
    ensures Of(w'.trace, other) == Of(w.trace, other)
  {
    hide About, Of;
    OfOthers(w.trace, w'.trace, id, other);
  }

  lemma AddAbsent(svs: seq<Svdef>, y: Svdef, id: Id)
    ensures Absent(svs + [y], id) <==> Absent(svs, id) && id != y.id
  {
    var svs' := svs + [y];
    assert svs'[|svs|] == y;
    if Absent(svs', id) {
      AbsentFront(svs, y, id);
    }
  }

  lemma {:induction false} ScanDirsBears(g0: Scanning, dirs: seq<Dir>)
    ensures Births(g0.st, dirs, ScanDirs(g0, dirs).st)
  {
    hide Births, ActivateNew, Lookup;
    if dirs == [] {
      assert Births(g0.st, [], g0.st) by { NoBirths(g0.st); }
    } else {
      var front, d := dirs[..|dirs| - 1], dirs[|dirs| - 1];
      assert front + [d] == dirs;
      var g := ScanDirs(g0, front);
      ScanDirsBears(g0, front);
      var i := Lookup(g.st.svs, d.id);
      if i < |g.st.svs| {
        KeepBirths(g0.st, front, d, g.st, i);
      } else if |g.st.svs| < PERP_MAX && d.opens {
        LookupNone(g.st.svs, d.id);
        AddBirths(g0.st, front, d, g.st);
      } else {
        SkipBirths(g0.st, front, d, g.st);
      }
    }
  }

  lemma NoBirths(st: State)
    ensures Births(st, [], st)
  {
    hide New, Of;
  }

  // ---- the whole scan ----

  lemma {:induction false} DropAllKeeps(svs: seq<Svdef>, w: World, id: Id)
    requires forall k :: 0 <= k < |svs| && svs[k].id == id ==> svs[k].active
    ensures var g := DropAll(svs, w);
            && Of(g.w.trace, id) == Of(w.trace, id)
            && (forall k :: 0 <= k < |svs| ==> g.svs[k].id == svs[k].id)
            && (forall k :: 0 <= k < |svs| && svs[k].id == id ==> g.svs[k] == svs[k])
  {
    hide Of, DropOne, Lawful, After;
    if svs != [] {
      var last := |svs| - 1;
      var g := DropAll(svs[..last], w);
      DropAllKeeps(svs[..last], w, id);
      var r := DropOne(svs[last], g.w);
      DropOneLawful(svs[last], g.w);
      LawfulId(svs[last], g.w, r.0, r.1);
      LawfulAfter(svs[last], g.w, r.0, r.1);
      DropOneActive(svs[last], g.w);
      if svs[last].id != id {
        OfAfter(g.w, r.1, svs[last].id, id);
      }
    }
  }

  lemma DropOneActive(sv: Svdef, w: World)
    ensures sv.active ==> DropOne(sv, w).0 == sv && DropOne(sv, w).1 == w
  {
  }

  lemma {:induction false} CullOf(svs: seq<Svdef>, i: nat, w: World, id: Id)
    requires i <= |svs|
    ensures Of(CullFrom(svs, i, w).w.trace, id) == Of(w.trace, id)
    decreases |svs| - i
  {
    hide Of;
    if i < |svs| {
      if Cullok(svs[i]) {
        var last := |svs| - 1;
        var a := Remove(svs[i].id, svs[i].cycle);
        OfNext(w.trace, a, id);
        CullOf(svs[i := svs[last]][..last], i, w.Did(a), id);
      } else {
        CullOf(svs, i + 1, w, id);
      }
    }
  }

  lemma NewActive(t0: seq<Act>, t: seq<Act>, dirs: seq<Dir>, y: Svdef)
    requires New(t0, t, dirs, y)
    ensures y.active
  {
    hide Of, Born;
  }

  /** The sweep leaves new entries alone. */
  lemma SweepBirth(st0: State, dirs: seq<Dir>, st: State, y: Svdef)
    requires Births(st0, dirs, st) && Absent(st0.svs, y.id)
    requires var s := DropAll(st.svs, st.w);
             y in (if s.ready then Cull(State(s.svs, s.w)).svs else s.svs)
    ensures var s := DropAll(st.svs, st.w);
            New(st0.w.trace, (if s.ready then Cull(State(s.svs, s.w)).w else s.w).trace, dirs, y)
  {
    hide New, Of, DropAll, CullFrom, Cullok, Absent;
    var s := DropAll(st.svs, st.w);
    CullIs(s.svs, 0, s.w, y);
    var k :| 0 <= k < |s.svs| && s.svs[k] == y;
    forall j | 0 <= j < |st.svs| && st.svs[j].id == y.id
      ensures st.svs[j].active
    {
      NewActive(st0.w.trace, st.w.trace, dirs, st.svs[j]);
    }
    DropAllKeeps(st.svs, st.w, y.id);
    assert s.svs[k] == st.svs[k];
    CullOf(s.svs, 0, s.w, y.id);
    var t' := (if s.ready then Cull(State(s.svs, s.w)).w else s.w).trace;
    assert Of(t', y.id) == Of(st.w.trace, y.id);
    NewSame(st0.w.trace, st.w.trace, t', dirs, y);
  }

  lemma NewSame(t0: seq<Act>, t: seq<Act>, t': seq<Act>, dirs: seq<Dir>, y: Svdef)
    requires New(t0, t, dirs, y) && Of(t', y.id) == Of(t, y.id)
    ensures New(t0, t', dirs, y)
  {
    hide Of, Opened, Born;
  }

  lemma NewEnd(t0: seq<Act>, t: seq<Act>, a: Act, dirs: seq<Dir>, y: Svdef)
    requires New(t0, t, dirs, y) && OfDaemon(a)
    ensures New(t0, t + [a], dirs, y)
  {
    hide Of, New;
    OfNext(t, a, y.id);
    NewSame(t0, t, t + [a], dirs, y);
  }

  /** After any scan, whatever failed: an entry of a service that had none is that of its first directory
      that opens. Its logger was started if there is one, its main unless the directory says down, each
      running or awaiting a retry as fork decided; and its history grew by just that. */
  lemma ScanActivates(st: State, listing: Listing, i: nat)
    requires listing.Listing? && i < |Scan(st, listing).svs| && Absent(st.svs, Scan(st, listing).svs[i].id)
    ensures var r := Scan(st, listing); New(st.w.trace, r.w.trace, listing.dirs, r.svs[i])
  {
    hide New, Births, ScanDirs, DropAll, Cull, Absent, Unflag, TriggerScan;
    var r := Scan(st, listing);
    var y := r.svs[i];
    var st0 := State(Unflag(st.svs), st.w);
    var g := ScanDirs(Scanning(st0, false), listing.dirs);
    ScanDirsBears(Scanning(st0, false), listing.dirs);
    UnflagPresent(st.svs, y.id);
    if !listing.complete {
      assert New(st.w.trace, g.st.w.trace, listing.dirs, y) by { BirthAt(st0, listing.dirs, g.st, i); }
      NewEnd(st.w.trace, g.st.w.trace, ScanCut, listing.dirs, y);
      assert r.w.trace == g.st.w.trace + [ScanCut] by { Triggered(g.st.w.Did(ScanCut)); }
    } else {
      SweepBirth(st0, listing.dirs, g.st, y);
      var s := DropAll(g.st.svs, g.st.w);
      var w := if s.ready then Cull(State(s.svs, s.w)).w else s.w;
      NewEnd(st.w.trace, w.trace, ScanShort, listing.dirs, y);
      NewEnd(st.w.trace, w.trace, ScanDone, listing.dirs, y);
      Triggered(w.Did(ScanShort));
    }
  }

  lemma Triggered(w: World)
    ensures TriggerScan(w).trace == w.trace
  {
  }

  lemma BirthAt(st0: State, dirs: seq<Dir>, st: State, i: nat)
    requires Births(st0, dirs, st) && i < |st.svs| && Absent(st0.svs, st.svs[i].id)
    ensures New(st0.w.trace, st.w.trace, dirs, st.svs[i])
  {
  }
}
