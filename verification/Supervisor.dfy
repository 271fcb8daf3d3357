/** The perpd supervisor as a transition system: what each event of the main loop does to the table
    of services, to the processes, and to the pending flags. */
module Supervisor {
  import opened Tain

  datatype Which = Main | Log
  datatype Goal = Start | Reset

  /** The service definition directory: device and inode. */
  datatype Id = Id(dev: nat, ino: nat)

  /** One of a service's pair of processes. */
  datatype Sub = Sub(
    pid: nat, isReset: bool, isOnce: bool, isPaused: bool, wantDown: bool, failing: bool,
    when: Tain, whenOk: Tain)

  const IDLE := Sub(0, false, false, false, false, false, ZERO, ZERO)

  datatype Svdef = Svdef(
    id: Id, when: Tain, active: bool, hasLog: bool, cull: bool, cycle: bool, down: bool, once: bool,
    main: Sub, log: Sub)
  {
    function Get(which: Which): Sub {
      if which.Main? then main else log
    }

    function Set(which: Which, s: Sub): Svdef {
      if which.Main? then this.(main := s) else this.(log := s)
    }
  }

  const PERP_MAX: nat := 200

  datatype Sig = HUP | INT | QUIT | KILL | ALRM | TERM | CONT | STOP | USR1 | USR2 | WINCH

  /** What happens, in order. ScanDone is a scan without any failure, ScanShort one that read the whole
      base directory but could not activate something, ScanCut one whose reading failed midway, ScanLost
      one that could not open the directory. Retried is the beginning of a round of retries. */
  datatype Act =
    | Launch(id: Id, which: Which, goal: Goal, pid: nat, now: Tain, effective: Tain)
    | ForkFailed(id: Id, which: Which, goal: Goal)
    | Reap(pid: nat)
    | Signal(id: Id, which: Which, sig: Sig, group: bool)
    | WishDown(id: Id, which: Which)
    | WishUp(id: Id, which: Which, once: bool)
    | Activate(id: Id, down: bool, once: bool)
    | Deactivate(id: Id)
    | Remove(id: Id, cycle: bool)
    | ScanDone
    | ScanShort
    | ScanCut
    | ScanLost
    | Retried

  /** What the system calls of one launch will answer: the clock, and fork (a pid, or not). */
  datatype Answer = Answer(now: Tain, pid: int)

  /** Everything but the table: unreaped children, future answers, history, pending flags. */
  datatype World = World(
    children: set<nat>, answers: seq<Answer>, trace: seq<Act>, forkFailures: nat,
    flagHup: bool, flagFailing: bool, terminating: bool)
  {
    function Did(a: Act): World {
      this.(trace := trace + [a])
    }
  }

  datatype State = State(svs: seq<Svdef>, w: World)

  // ---- one service ----

  /** Nothing to run: no logger, or still running. */
  predicate Refuses(sv: Svdef, which: Which) {
    (which.Log? && !sv.hasLog) || sv.Get(which).pid > 0
  }

  /** What the system calls of the next launch answer. */
  function NextAnswer(w: World): Answer {
    if w.answers == [] then Answer(ZERO, -1) else w.answers[0]
  }

  function Asked(w: World): World {
    if w.answers == [] then w else w.(answers := w.answers[1..])
  }

  /** fork gives the pid of a new child. */
  predicate Forks(w: World) {
    NextAnswer(w).pid > 0 && NextAnswer(w).pid !in w.children
  }

  /** fork failed: remember the goal for a retry. */
  function Stuck(sv: Svdef, which: Which, goal: Goal, w: World): (r: (Svdef, World)) {
    (sv.Set(which, sv.Get(which).(isReset := goal.Reset?, failing := true)),
     Asked(w).(forkFailures := w.forkFailures + 1, flagFailing := w.flagFailing || !w.terminating)
             .Did(ForkFailed(sv.id, which, goal)))
  }

  /** fork succeeded. A start takes effect when the respawn governor allows. */
  function Launched(sv: Svdef, which: Which, goal: Goal, w: World): (r: (Svdef, World))
    requires Forks(w)
  {
    var sub, answer := sv.Get(which), NextAnswer(w);
    (sv.Set(which, sub.(isReset := goal.Reset?, failing := false, pid := answer.pid, when := answer.now,
                        whenOk := if goal.Start? then NextOk(answer.now, sub.whenOk) else sub.whenOk)),
     Asked(w).(children := w.children + {answer.pid})
             .Did(Launch(sv.id, which, goal, answer.pid, answer.now, Later(answer.now, sub.whenOk))))
  }

  /** perpd_svdef_run, in the parent. */
  function Run(sv: Svdef, which: Which, goal: Goal, w: World): (r: (Svdef, World)) {
    if Refuses(sv, which) then (sv, w)
    else if Forks(w) then Launched(sv, which, goal, w)
    else Stuck(sv, which, goal, w)
  }

  /** A service directory found by a scan. Activation fails (opens = false) before anything starts. */
  datatype Dir = Dir(id: Id, opens: bool, down: bool, once: bool, hasLog: bool, when: Tain)

  /** The entry of a directory that opens, before anything is started. */
  function Opening(d: Dir): Svdef {
    Svdef(d.id, d.when, true, d.hasLog, false, false, d.down, d.once,
          if d.down then IDLE.(wantDown := true) else IDLE.(isOnce := d.once), IDLE)
  }

  /** perpd_svdef_activate of a directory that opens. */
  function ActivateNew(d: Dir, w: World): (r: (Svdef, World)) {
    var (sv1, w1) := Run(Opening(d), Log, Start, w.Did(Activate(d.id, d.down, d.once)));
    if d.down then (sv1, w1) else Run(sv1, Main, Start, w1)
  }

  /** perpd_svdef_checkfail: retry what last failed. */
  function Checkfail(sv: Svdef, w: World): (r: (Svdef, World)) {
    if !sv.active then (sv, w) else
      var (sv1, w1) :=
        if sv.hasLog && sv.log.failing then Run(sv, Log, if sv.log.isReset then Reset else Start, w) else (sv, w);
      if sv1.main.failing then Run(sv1, Main, if sv1.main.isReset then Reset else Start, w1) else (sv1, w1)
  }

  /** Ask a live process to end, unless it is running reset, and make sure it is not paused. */
  function Hush(sv: Svdef, which: Which, w: World): (r: (Svdef, World)) {
    var sub := sv.Get(which);
    var w1 := if sub.isReset then w else w.Did(Signal(sv.id, which, TERM, false));
    (sv.Set(which, sub.(isPaused := false)), w1.Did(Signal(sv.id, which, CONT, false)))
  }

  /** perpd_svdef_wantcull; the flag tells that nothing was running. */
  function Wantcull(sv: Svdef, w: World): (r: (Svdef, World, bool)) {
    var sv1 := sv.(cull := true, main := sv.main.(wantDown := true),
                   log := if sv.hasLog then sv.log.(wantDown := true) else sv.log);
    var w1 := w.Did(Deactivate(sv.id));
    if sv1.main.pid > 0 then var (sv2, w2) := Hush(sv1, Main, w1); (sv2, w2, false)
    else if sv1.hasLog && sv1.log.pid > 0 then var (sv2, w2) := Hush(sv1, Log, w1); (sv2, w2, false)
    else (sv1, w1, true)
  }

  /** perpd_svdef_cullok. */
  predicate Cullok(sv: Svdef) {
    sv.cull && sv.main.pid == 0 && (sv.hasLog ==> sv.log.pid == 0)
  }

  // ---- control requests ----

  /** do_kill: a process running reset only gets SIGCONT and SIGKILL. */
  function DoKill(sv: Svdef, which: Which, sig: Sig, group: bool, w: World): (r: World) {
    var sub := sv.Get(which);
    if which.Log? && !sv.hasLog then w
    else if sub.pid == 0 then w
    else if sub.isReset && sig != CONT && sig != KILL then w
    else w.Did(Signal(sv.id, which, sig, group))
  }

  /** The commands that only send a signal. */
  function SignalOf(cmd: char): (r: seq<Sig>) {
    match cmd
    case 'a' => [ALRM]
    case 'h' => [HUP]
    case 'i' => [INT]
    case 'k' => [KILL]
    case 'q' => [QUIT]
    case 't' => [TERM]
    case 'w' => [WINCH]
    case '1' => [USR1]
    case '2' => [USR2]
    case _ => []
  }

  function Continue(sv: Svdef, which: Which, group: bool, w: World): (r: (Svdef, World)) {
    var sv1 := sv.Set(which, sv.Get(which).(isPaused := false));
    (sv1, DoKill(sv1, which, CONT, group, w))
  }

  function Down(sv: Svdef, which: Which, group: bool, w: World): (r: (Svdef, World)) {
    var sv1 := sv.Set(which, sv.Get(which).(wantDown := true));
    var w1 := w.Did(WishDown(sv.id, which));
    if sv1.Get(which).pid > 0 then Continue(sv1, which, group, DoKill(sv1, which, TERM, group, w1))
    else (sv1, w1)
  }

  function Up(sv: Svdef, which: Which, once: bool, w: World): (r: (Svdef, World)) {
    var sv1 := sv.Set(which, sv.Get(which).(isOnce := once, wantDown := false));
    var w1 := w.Did(WishUp(sv.id, which, once));
    if sv1.Get(which).pid == 0 then Run(sv1, which, Start, w1) else (sv1, w1)
  }

  function Pause(sv: Svdef, which: Which, group: bool, w: World): (r: (Svdef, World)) {
    var sub := sv.Get(which);
    if sub.pid > 0 && !sub.isReset then
      var sv1 := sv.Set(which, sub.(isPaused := true));
      (sv1, DoKill(sv1, which, STOP, group, w))
    else (sv, w)
  }

  /** do_control; the flag tells that the command is known. */
  function Control(sv: Svdef, which: Which, cmd: char, group: bool, w: World): (r: (Svdef, World, bool)) {
    match cmd
    case 'D' =>
      if which.Log? then (sv, w, true) else
        var (sv1, w1) := Down(sv, Main, group, w);
        var (sv2, w2) := Down(sv1, Log, group, w1);
        (sv2, w2, true)
    case 'U' =>
      if which.Log? then (sv, w, true) else
        var (sv1, w1) := Up(sv, Log, false, w);
        var (sv2, w2) := Up(sv1, Main, false, w1);
        (sv2, w2, true)
    case 'c' => var (sv1, w1) := Continue(sv, which, group, w); (sv1, w1, true)
    case 'd' => var (sv1, w1) := Down(sv, which, group, w); (sv1, w1, true)
    case 'o' => var (sv1, w1) := Up(sv, which, true, w); (sv1, w1, true)
    case 'u' => var (sv1, w1) := Up(sv, which, false, w); (sv1, w1, true)
    case 'p' => var (sv1, w1) := Pause(sv, which, group, w); (sv1, w1, true)
    case _ =>
      var sigs := SignalOf(cmd);
      if sigs == [] then (sv, w, false) else (sv, DoKill(sv, which, sigs[0], group, w), true)
  }

  // ---- the table ----

  /** perpd_lookup: index of the entry, or the number of entries. */
  function Lookup(svs: seq<Svdef>, id: Id): (i: nat)
    ensures i <= |svs|
    ensures i < |svs| ==> svs[i].id == id
  {
    if svs == [] then 0
    else if svs[0].id == id then 0
    else 1 + Lookup(svs[1..], id)
  }

  /** perpd_cull: remove finished entries, moving the last entry into the gap. */
  function CullFrom(svs: seq<Svdef>, i: nat, w: World): (r: State)
    requires i <= |svs|
    decreases |svs| - i
  {
    if i == |svs| then State(svs, w)
    else if Cullok(svs[i]) then
      var last := |svs| - 1;
      CullFrom(svs[i := svs[last]][..last], i, w.Did(Remove(svs[i].id, svs[i].cycle)))
    else CullFrom(svs, i + 1, w)
  }

  function Cull(st: State): State {
    CullFrom(st.svs, 0, st.w)
  }

  /** perpd_trigger_scan. */
  function TriggerScan(w: World): World {
    if w.terminating then w else w.(flagHup := true)
  }

  /** The entry and process with this pid: first match in table order, main before log. */
  function FindPid(svs: seq<Svdef>, pid: nat): (r: (nat, Which))
    ensures r.0 <= |svs|
    ensures r.0 < |svs| ==> svs[r.0].Get(r.1).pid == pid
  {
    if svs == [] then (0, Main)
    else if svs[0].main.pid == pid then (0, Main)
    else if svs[0].log.pid == pid then (0, Log)
    else var (i, which) := FindPid(svs[1..], pid); (i + 1, which)
  }

  /** What becomes of a service when one of its processes is gone. The flags tell that the entry may
      be removed, and that it asks for a rescan. */
  function Reaped(sv: Svdef, which: Which, w: World): (r: (Svdef, World, bool, bool)) {
    var sub := sv.Get(which);
    var sub1 := sub.(pid := 0, wantDown := sub.wantDown || sub.isOnce);
    var sv1 := sv.Set(which, sub1);
    if !sub1.isReset then var (sv2, w2) := Run(sv1, which, Reset, w); (sv2, w2, false, false)
    else if !sub1.wantDown then var (sv2, w2) := Run(sv1, which, Start, w); (sv2, w2, false, false)
    else if which.Main? && sv1.hasLog && sv1.log.wantDown && sv1.log.pid > 0 then
      var (sv2, w2) := Hush(sv1, Log, w); (sv2, w2, false, false)
    else (sv1, w, Cullok(sv1), sv1.cycle)
  }

  /** A reaping loop in progress: the state, and the two flags it collects. */
  datatype Reaping = Reaping(st: State, cull: bool, cycle: bool)

  /** One child that waitpid reports. */
  function WaitOne(g: Reaping, pid: nat): (r: Reaping) {
    var w := g.st.w;
    if pid !in w.children then g else
      var w1 := w.(children := w.children - {pid}).Did(Reap(pid));
      var (i, which) := FindPid(g.st.svs, pid);
      if i == |g.st.svs| then Reaping(State(g.st.svs, w1), g.cull, g.cycle) else
        var (sv, w2, cull, cycle) := Reaped(g.st.svs[i], which, w1);
        Reaping(State(g.st.svs[i := sv], w2), g.cull || cull, g.cycle || cycle)
  }

  function WaitAll(g: Reaping, dead: seq<nat>): (r: Reaping) {
    if dead == [] then g else WaitOne(WaitAll(g, dead[..|dead| - 1]), dead[|dead| - 1])
  }

  /** perpd_waitup. */
  function Waitup(st: State, dead: seq<nat>): (r: State) {
    var g := WaitAll(Reaping(st, false, false), dead);
    var st1 := if g.cull then Cull(g.st) else g.st;
    if g.cycle then State(st1.svs, TriggerScan(st1.w)) else st1
  }

  /** What reading the base directory yields: nothing, or the service directories in order and
      whether the end was reached without error. */
  datatype Listing = NoDir | Listing(dirs: seq<Dir>, complete: bool)

  function Unflag(svs: seq<Svdef>): (r: seq<Svdef>)
    ensures |r| == |svs|
    ensures forall i :: 0 <= i < |svs| ==> r[i] == svs[i].(active := false)
  {
    seq(|svs|, i requires 0 <= i < |svs| => svs[i].(active := false))
  }

  /** A scan in progress: the state, and whether an activation failed. */
  datatype Scanning = Scanning(st: State, failed: bool)

  /** One directory of a scan: keep the entry it has, or activate a new one. */
  function ScanOne(g: Scanning, d: Dir): (r: Scanning) {
    var svs, w := g.st.svs, g.st.w;
    var i := Lookup(svs, d.id);
    if i < |svs| then
      Scanning(State(svs[i := svs[i].(active := true, cycle := svs[i].cycle || svs[i].cull)], w), g.failed)
    else if !(|svs| < PERP_MAX) then g.(failed := true)
    else if !d.opens then g.(failed := true)
    else
      var (sv, w1) := ActivateNew(d, w);
      Scanning(State(svs + [sv.(active := true)], w1), g.failed)
  }

  function ScanDirs(g: Scanning, dirs: seq<Dir>): (r: Scanning) {
    if dirs == [] then g else ScanOne(ScanDirs(g, dirs[..|dirs| - 1]), dirs[|dirs| - 1])
  }

  /** A sweep over the table in progress: entries done, the world, and whether one is finished. */
  datatype Sweeping = Sweeping(svs: seq<Svdef>, w: World, ready: bool)

  /** Deactivate an entry the scan did not find. */
  function DropOne(sv: Svdef, w: World): (r: (Svdef, World, bool)) {
    if sv.active then (sv, w, false)
    else if !sv.cull then Wantcull(sv, w)
    else var sv1 := sv.(cycle := false); (sv1, w, Cullok(sv1))
  }

  function DropAll(svs: seq<Svdef>, w: World): (r: Sweeping)
    ensures |r.svs| == |svs|
  {
    if svs == [] then Sweeping([], w, false) else
      var last := |svs| - 1;
      var g := DropAll(svs[..last], w);
      var (sv, w1, ready) := DropOne(svs[last], g.w);
      Sweeping(g.svs + [sv], w1, g.ready || ready)
  }

  /** perpd_scan. */
  function Scan(st: State, listing: Listing): (r: State) {
    if listing.NoDir? then State(st.svs, st.w.Did(ScanLost)) else
      var g := ScanDirs(Scanning(State(Unflag(st.svs), st.w), false), listing.dirs);
      if !listing.complete then State(g.st.svs, TriggerScan(g.st.w.Did(ScanCut))) else
        var s := DropAll(g.st.svs, g.st.w);
        var st1 := State(s.svs, s.w);
        var st2 := if s.ready then Cull(st1) else st1;
        if g.failed then State(st2.svs, TriggerScan(st2.w.Did(ScanShort))) else State(st2.svs, st2.w.Did(ScanDone))
  }

  function WantcullAll(svs: seq<Svdef>, w: World): (r: Sweeping)
    ensures |r.svs| == |svs|
  {
    if svs == [] then Sweeping([], w, false) else
      var last := |svs| - 1;
      var g := WantcullAll(svs[..last], w);
      var (sv, w1, ready) := Wantcull(svs[last], g.w);
      Sweeping(g.svs + [sv], w1, g.ready || ready)
  }

  /** The SIGTERM branch of the main loop. */
  function Terminate(st: State): (r: State) {
    var s := WantcullAll(st.svs, st.w.(terminating := true, flagHup := false));
    var st1 := State(s.svs, s.w);
    if s.ready then Cull(st1) else st1
  }

  function CheckfailAll(svs: seq<Svdef>, w: World): (r: (seq<Svdef>, World))
    ensures |r.0| == |svs|
  {
    if svs == [] then ([], w) else
      var last := |svs| - 1;
      var (front, w1) := CheckfailAll(svs[..last], w);
      var (sv, w2) := Checkfail(svs[last], w1);
      (front + [sv], w2)
  }

  /** The retry branch of the main loop, while not terminating. */
  function Retry(st: State): (r: State) {
    var (svs, w) := CheckfailAll(st.svs, st.w.(flagFailing := false).Did(Retried));
    State(svs, w)
  }

  /** A control request that reached the daemon. */
  datatype Request = Request(id: Id, which: Which, cmd: char, group: bool)

  datatype Reply = NoEntry | Busy | Unknown | Okay

  /** perpd_conn_exec_control: requests on a deactivating service are dropped. */
  function Serve(st: State, q: Request): (r: (State, Reply)) {
    var i := Lookup(st.svs, q.id);
    if i == |st.svs| then (st, NoEntry)
    else if st.svs[i].cull then (st, Busy)
    else
      var (sv, w, known) := Control(st.svs[i], q.which, q.cmd, q.group, st.w);
      (State(st.svs[i := sv], w), if known then Okay else Unknown)
  }

  // ---- the main loop ----

  /** One event. */
  datatype Event =
    | SigHup                         // the handler, outside termination
    | SigTerm                        // the term branch
    | Chld(dead: seq<nat>)           // perpd_waitup with these children to report
    | Rescan(listing: Listing)       // the scan branch
    | Failing                        // the retry branch
    | Client(request: Request)       // a control request

  /** Which events the loop lets happen. Scans and clients stop at termination, scans need the
      pending flag or the timer (timer), retries need the failing flag. */
  function Step(st: State, e: Event): (r: State) {
    match e
    case SigHup => State(st.svs, TriggerScan(st.w))
    case SigTerm => if st.w.terminating then st else Terminate(st)
    case Chld(dead) => Waitup(st, dead)
    case Rescan(listing) =>
      if st.w.terminating then st else Scan(State(st.svs, st.w.(flagHup := false)), listing)
    case Failing => if st.w.terminating || !st.w.flagFailing then st else Retry(st)
    case Client(q) => if st.w.terminating then st else Serve(st, q).0
  }

  function Steps(st: State, es: seq<Event>): (r: State) {
    if es == [] then st else Step(Steps(st, es[..|es| - 1]), es[|es| - 1])
  }

  /** The daemon at the start: no service, no child, the first scan pending. */
  function Init(answers: seq<Answer>): State {
    State([], World({}, answers, [], 0, true, false, false))
  }
}
