/** What the up and down commands do across the functions they pass through, and which commands there
    are. */
module SupervisorControl {
  import opened Tain
  import opened Supervisor
  import opened SupervisorHistory

  /** A process that a signal can reach: one that exists, and while it runs reset only by SIGCONT and
      SIGKILL. */
  predicate Reachable(sv: Svdef, which: Which, sig: Sig) {
    && sv.Get(which).pid > 0 && (which.Main? || sv.hasLog)
    && (sv.Get(which).isReset ==> sig == CONT || sig == KILL)
  }

  /** One signal, if it can reach the process. */
  function Sent(sv: Svdef, which: Which, sig: Sig, group: bool): (acts: seq<Act>) {
    if Reachable(sv, which, sig) then [Signal(sv.id, which, sig, group)] else []
  }

  lemma KillTrace(sv: Svdef, which: Which, sig: Sig, group: bool, w: World)
    ensures DoKill(sv, which, sig, group, w) == w.(trace := w.trace + Sent(sv, which, sig, group))
  {
    assert w.trace + [] == w.trace;
  }

  lemma SentSame(sv: Svdef, which: Which, s: Sub, sig: Sig, group: bool)
    requires s.pid == sv.Get(which).pid && s.isReset == sv.Get(which).isReset
    ensures Sent(sv.Set(which, s), which, sig, group) == Sent(sv, which, sig, group)
  {
  }

  lemma SentNone(sv: Svdef, which: Which, sig: Sig, group: bool)
    requires sv.Get(which).pid == 0
    ensures Sent(sv, which, sig, group) == []
  {
  }

  lemma DownCases(sv: Svdef, which: Which, group: bool, w: World)
    ensures var s := sv.Get(which).(wantDown := true);
            var w0 := w.Did(WishDown(sv.id, which));
            Down(sv, which, group, w).1 ==
            if s.pid == 0 then w0
            else DoKill(sv.Set(which, s.(isPaused := false)), which, CONT, group,
                        DoKill(sv.Set(which, s), which, TERM, group, w0))
  {
    hide DoKill;
    match which
    case Main =>
    case Log =>
  }

  /** A down request is recorded; then a live process gets SIGTERM, unless it runs reset, and SIGCONT. */
  lemma DownSignals(sv: Svdef, which: Which, group: bool, w: World)
    ensures Down(sv, which, group, w).1.trace
         == w.trace + [WishDown(sv.id, which)] + Sent(sv, which, TERM, group) + Sent(sv, which, CONT, group)
  {
    hide *;
    var s := sv.Get(which).(wantDown := true);
    var s' := s.(isPaused := false);
    var w0 := w.Did(WishDown(sv.id, which));
    var w1 := DoKill(sv.Set(which, s), which, TERM, group, w0);
    DownCases(sv, which, group, w);
    assert w0.trace == w.trace + [WishDown(sv.id, which)] by { DidTrace(w, WishDown(sv.id, which)); }
    SentSame(sv, which, s, TERM, group);
    SentSame(sv, which, s', CONT, group);
    KillTrace(sv.Set(which, s), which, TERM, group, w0);
    KillTrace(sv.Set(which, s'), which, CONT, group, w1);
    if s.pid == 0 {
      SentNone(sv, which, TERM, group);
      SentNone(sv, which, CONT, group);
      assert w0.trace + [] + [] == w0.trace;
    }
  }

  lemma DidTrace(w: World, a: Act)
    ensures w.Did(a).trace == w.trace + [a]
  {
  }

  /** Nothing but this process of the service may differ. */
  predicate OtherSame(sv: Svdef, sv': Svdef, which: Which) {
    sv' == sv.Set(which, sv'.Get(which))
  }

  /** After a launch for "start" that was not refused. */
  predicate Started(sv: Svdef, sv': Svdef, which: Which, up: bool) {
    var s, s' := sv.Get(which), sv'.Get(which);
    && OtherSame(sv, sv', which) && s'.wantDown == s.wantDown && s'.isOnce == s.isOnce
    && !s'.isReset && (s'.pid > 0) == up && s'.failing == !up
  }

  /** The process id and the clock reading that the system gave. */
  predicate AsAnswered(s: Sub, w: World) {
    s.pid == NextAnswer(w).pid && s.when == NextAnswer(w).now
  }

  lemma StartMeans(sv: Svdef, which: Which, w: World)
    ensures var r := Run(sv, which, Start, w);
            if Refuses(sv, which) then r == (sv, w)
            else Started(sv, r.0, which, Forks(w)) && (Forks(w) ==> AsAnswered(r.0.Get(which), w))
  {
    hide Launched, Stuck, Forks, Started, AsAnswered;
    if !Refuses(sv, which) {
      StuckMeans(sv, which, w);
      if Forks(w) {
        LaunchMeans(sv, which, w);
      }
    }
  }

  lemma LaunchMeans(sv: Svdef, which: Which, w: World)
    requires Forks(w)
    ensures Started(sv, Launched(sv, which, Start, w).0, which, true)
    ensures AsAnswered(Launched(sv, which, Start, w).0.Get(which), w)
  {
    hide NextOk, Later, Asked;
  }

  lemma StuckMeans(sv: Svdef, which: Which, w: World)
    requires !Refuses(sv, which)
    ensures Started(sv, Stuck(sv, which, Start, w).0, which, false)
  {
    hide Asked;
  }

  /** Up or once: the wish is recorded, a live process is left alone, and one that is down is started
      or left to the retries. */
  lemma UpMeans(sv: Svdef, which: Which, once: bool, w: World)
    ensures var r := Up(sv, which, once, w);
            && OtherSame(sv, r.0, which) && !r.0.Get(which).wantDown && r.0.Get(which).isOnce == once
            && (sv.Get(which).pid > 0 ==> r.0.Get(which).pid == sv.Get(which).pid && r.1.children == w.children)
            && (sv.Get(which).pid == 0 && (which.Main? || sv.hasLog) ==>
                  && !r.0.Get(which).isReset && (r.0.Get(which).pid > 0) == Forks(w) && r.0.Get(which).failing == !Forks(w)
                  && (Forks(w) ==> AsAnswered(r.0.Get(which), w)))
  {
    hide Run;
    var sv1 := sv.Set(which, sv.Get(which).(isOnce := once, wantDown := false));
    StartMeans(sv1, which, w.Did(WishUp(sv.id, which, once)));
    match which
    case Main =>
    case Log =>
  }

  /** The commands there are; any other changes nothing. */
  lemma CommandsKnown(sv: Svdef, which: Which, cmd: char, group: bool, w: World)
    ensures var r := Control(sv, which, cmd, group, w);
            (r.2 <==> cmd in "DUacdhikopqtuw12") && (!r.2 ==> r.0 == sv && r.1 == w)
  {
    hide DoKill, Continue, Down, Up, Pause;
  }

  /** The command sends one signal, if it can reach the process, and does nothing else. */
  predicate Sends(sv: Svdef, which: Which, sig: Sig, group: bool, w: World, r: (Svdef, World, bool)) {
    r == (sv, w.(trace := w.trace + Sent(sv, which, sig, group)), true)
  }

  /** The nine commands that are signals. */
  lemma SignalCommands(sv: Svdef, which: Which, cmd: char, group: bool, w: World)
    ensures var r := Control(sv, which, cmd, group, w);
            && (cmd == 'a' ==> Sends(sv, which, ALRM, group, w, r))
            && (cmd == 'h' ==> Sends(sv, which, HUP, group, w, r))
            && (cmd == 'i' ==> Sends(sv, which, INT, group, w, r))
            && (cmd == 'k' ==> Sends(sv, which, KILL, group, w, r))
            && (cmd == 'q' ==> Sends(sv, which, QUIT, group, w, r))
            && (cmd == 't' ==> Sends(sv, which, TERM, group, w, r))
            && (cmd == 'w' ==> Sends(sv, which, WINCH, group, w, r))
            && (cmd == '1' ==> Sends(sv, which, USR1, group, w, r))
            && (cmd == '2' ==> Sends(sv, which, USR2, group, w, r))
  {
    hide DoKill, Continue, Down, Up, Pause, Sent;
    if SignalOf(cmd) != [] {
      KillTrace(sv, which, SignalOf(cmd)[0], group, w);
    }
  }

  lemma ContinueIs(sv: Svdef, which: Which, group: bool, w: World)
    ensures Continue(sv, which, group, w)
         == (sv.Set(which, sv.Get(which).(isPaused := false)), w.(trace := w.trace + Sent(sv, which, CONT, group)))
  {
    hide DoKill, Sent;
    var s := sv.Get(which).(isPaused := false);
    KillTrace(sv.Set(which, s), which, CONT, group, w);
    SentSame(sv, which, s, CONT, group);
  }

  lemma PauseIs(sv: Svdef, which: Which, group: bool, w: World)
    ensures var s := sv.Get(which);
            Pause(sv, which, group, w) ==
            if s.pid > 0 && !s.isReset then
              (sv.Set(which, s.(isPaused := true)), w.(trace := w.trace + Sent(sv, which, STOP, group)))
            else (sv, w)
  {
    hide DoKill, Sent;
    var s := sv.Get(which).(isPaused := true);
    KillTrace(sv.Set(which, s), which, STOP, group, w);
    SentSame(sv, which, s, STOP, group);
  }

  /** Pause and continue: the signal and the mark, and nothing else. A process running reset is not
      paused. */
  lemma PauseCommands(sv: Svdef, which: Which, group: bool, w: World)
    ensures var r := Control(sv, which, 'c', group, w);
            && OtherSame(sv, r.0, which) && r.0.Get(which) == sv.Get(which).(isPaused := false)
            && r.1 == w.(trace := w.trace + Sent(sv, which, CONT, group)) && r.2
    ensures var r := Control(sv, which, 'p', group, w);
            var paused := sv.Get(which).pid > 0 && !sv.Get(which).isReset;
            && OtherSame(sv, r.0, which)
            && r.0.Get(which) == (if paused then sv.Get(which).(isPaused := true) else sv.Get(which))
            && r.1 == (if paused then w.(trace := w.trace + Sent(sv, which, STOP, group)) else w) && r.2
  {
    hide Continue, Pause, Sent;
    ContinueIs(sv, which, group, w);
    PauseIs(sv, which, group, w);
  }

  lemma DownIs(sv: Svdef, which: Which, group: bool, w: World)
    ensures var s := sv.Get(which).(wantDown := true);
            var sv1, w0 := sv.Set(which, s), w.Did(WishDown(sv.id, which));
            Down(sv, which, group, w) ==
            if s.pid > 0 then Continue(sv1, which, group, DoKill(sv1, which, TERM, group, w0)) else (sv1, w0)
  {
    hide Continue, DoKill;
  }

  lemma UpIs(sv: Svdef, which: Which, once: bool, w: World)
    ensures var s := sv.Get(which).(isOnce := once, wantDown := false);
            var sv1, w0 := sv.Set(which, s), w.Did(WishUp(sv.id, which, once));
            Up(sv, which, once, w) == if s.pid == 0 then Run(sv1, which, Start, w0) else (sv1, w0)
  {
    hide Run;
  }

  lemma SetTwice(sv: Svdef, which: Which, s: Sub, s': Sub)
    ensures sv.Set(which, s).Set(which, s') == sv.Set(which, s')
    ensures sv.Set(which, s).Get(which) == s && sv.Set(which, s).Get(Other(which)) == sv.Get(Other(which))
  {
  }

  /** Down: the wish, the signals, and a live process is not left paused. */
  lemma DownCommand(sv: Svdef, which: Which, group: bool, w: World)
    ensures var r := Control(sv, which, 'd', group, w);
            var s := sv.Get(which);
            && r.2 && OtherSame(sv, r.0, which)
            && r.0.Get(which) == s.(wantDown := true, isPaused := s.isPaused && s.pid == 0)
            && r.1 == w.(trace := w.trace + [WishDown(sv.id, which)] + Sent(sv, which, TERM, group) + Sent(sv, which, CONT, group))
  {
    hide DoKill, Sent, Continue, Down;
    var s := sv.Get(which).(wantDown := true);
    var sv1, w0 := sv.Set(which, s), w.Did(WishDown(sv.id, which));
    DownIs(sv, which, group, w);
    DownSignals(sv, which, group, w);
    KillTrace(sv1, which, TERM, group, w0);
    ContinueIs(sv1, which, group, DoKill(sv1, which, TERM, group, w0));
    SetTwice(sv, which, s, s.(isPaused := false));
  }

  /** Up and once: the wish is recorded first, and nothing is signalled. */
  lemma UpCommands(sv: Svdef, which: Which, group: bool, w: World)
    ensures Control(sv, which, 'o', group, w) == var r := Up(sv, which, true, w); (r.0, r.1, true)
    ensures Control(sv, which, 'u', group, w) == var r := Up(sv, which, false, w); (r.0, r.1, true)
    ensures forall once :: var t := Up(sv, which, once, w).1.trace;
              && w.trace + [WishUp(sv.id, which, once)] <= t
              && |t| == |w.trace| + (if Refuses(sv, which) then 1 else 2)
              && forall k :: |w.trace| < k < |t| ==> (t[k].Launch? || t[k].ForkFailed?) && t[k].goal == Start
  {
    hide Run;
    forall once: bool
      ensures var t := Up(sv, which, once, w).1.trace;
              && w.trace + [WishUp(sv.id, which, once)] <= t
              && |t| == |w.trace| + (if Refuses(sv, which) then 1 else 2)
              && forall k :: |w.trace| < k < |t| ==> (t[k].Launch? || t[k].ForkFailed?) && t[k].goal == Start
    {
      UpTrace(sv, which, once, w);
    }
  }

  lemma UpTrace(sv: Svdef, which: Which, once: bool, w: World)
    ensures var t := Up(sv, which, once, w).1.trace;
            && w.trace + [WishUp(sv.id, which, once)] <= t
            && |t| == |w.trace| + (if Refuses(sv, which) then 1 else 2)
            && forall k :: |w.trace| < k < |t| ==> (t[k].Launch? || t[k].ForkFailed?) && t[k].goal == Start
  {
    hide Run;
    var sv1 := sv.Set(which, sv.Get(which).(isOnce := once, wantDown := false));
    var w1 := w.Did(WishUp(sv.id, which, once));
    StartTrace(sv1, which, w1);
    match which
    case Main =>
    case Log =>
  }

  lemma StartTrace(sv: Svdef, which: Which, w: World)
    ensures var t := Run(sv, which, Start, w).1.trace;
            && w.trace <= t && |t| == |w.trace| + (if Refuses(sv, which) then 0 else 1)
            && (!Refuses(sv, which) ==> (t[|w.trace|].Launch? || t[|w.trace|].ForkFailed?) && t[|w.trace|].goal == Start)
  {
    hide Launched, Forks;
    if Forks(w) {
      LaunchParts(sv, which, Start, w);
    }
  }

  /** The commands for both processes: main is taken down before its logger, and brought up after it. */
  lemma BothCommands(sv: Svdef, group: bool, w: World)
    ensures Control(sv, Main, 'D', group, w) ==
            var r := Control(sv, Main, 'd', group, w);
            Control(r.0, Log, 'd', group, r.1)
    ensures Control(sv, Main, 'U', group, w) ==
            var r := Control(sv, Log, 'u', group, w);
            Control(r.0, Main, 'u', group, r.1)
    ensures Control(sv, Log, 'D', group, w) == Control(sv, Log, 'U', group, w) == (sv, w, true)
  {
    hide Down, Up;
  }
}
