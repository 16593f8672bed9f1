/** The script check queue: one master and any number of workers around one mutex, as a transition
    system. A step is one critical section, or one check run outside the lock. */
module CheckQueue {
  import opened Basics

  type Check = int

  // Where a thread is in Loop: outside; asleep on its condition variable, perhaps already notified;
  // or holding a batch of nNow checks, of which rest are still to be looked at.
  datatype Thread = Out | Waiting(notified: bool) | Working(nNow: nat, rest: seq<Check>, fOk: bool)

  // threads[0] is the master. The last five fields record history: what was added in this round,
  // what became of it, and each earlier round with the answer Wait gave.
  datatype State = State(
    queue: seq<Check>, nIdle: int, nTotal: int, fAllOk: bool, nTodo: int, fQuit: bool, nBatchSize: nat,
    threads: seq<Thread>,
    added: multiset<Check>, passed: multiset<Check>, failed: multiset<Check>, skipped: multiset<Check>,
    rounds: seq<(multiset<Check>, bool)>)

  // Add wakes one worker, if any is asleep, for one check; all of them for several.
  datatype Action = Enter(t: nat) | Run(t: nat) | Finish(t: nat) | Wake(t: nat) | Add(checks: seq<Check>, woken: nat)

  // How many of the queued checks to take: fewer the more threads there are to share them.
  function BatchSize(nBatchSize: nat, queued: nat, nTotal: int, nIdle: int): (nNow: nat)
    requires nTotal + nIdle + 1 > 0 && queued > 0
    ensures 1 <= nNow <= queued
  {
    Max(1, Min(nBatchSize, queued / (nTotal + nIdle + 1)))
  }

  function Reverse(s: seq<Check>): seq<Check> {
    if s == [] then [] else Reverse(s[1..]) + [s[0]]
  }

  // Return from Loop. The master resets the flag; its answer ends the round.
  function Leave(s: State, t: nat): State
    requires t < |s.threads|
  {
    var left := s.(nTotal := s.nTotal - 1, threads := s.threads[t := Out]);
    if t == 0 then RoundEnded(left) else left
  }

  function RoundEnded(s: State): State {
    s.(fAllOk := true, rounds := s.rounds + [(s.added, s.fAllOk)],
       added := multiset{}, passed := multiset{}, failed := multiset{}, skipped := multiset{})
  }

  function Sleep(s: State, t: nat): State
    requires t < |s.threads|
  {
    s.(nIdle := s.nIdle + 1, threads := s.threads[t := Waiting(false)])
  }

  // Take a batch from the back of the queue.
  function Take(s: State, t: nat): State
    requires t < |s.threads| && s.nTotal + s.nIdle + 1 > 0 && s.queue != []
  {
    var nNow := BatchSize(s.nBatchSize, |s.queue|, s.nTotal, s.nIdle);
    var keep := |s.queue| - nNow;
    s.(queue := s.queue[..keep],
       threads := s.threads[t := Working(nNow, Reverse(s.queue[keep..]), s.fAllOk)])
  }

  // The rest of the critical section once the clean-up is done.
  function Decide(s: State, t: nat): State
    requires t < |s.threads| && s.nTotal + s.nIdle + 1 > 0
  {
    if s.queue != [] then Take(s, t)
    else if (t == 0 || s.fQuit) && s.nTodo == 0 then Leave(s, t)
    else Sleep(s, t)
  }

  function NotifyMaster(threads: seq<Thread>): seq<Thread> {
    if threads != [] && threads[0].Waiting? then threads[0 := Waiting(true)] else threads
  }

  predicate Asleep(threads: seq<Thread>, t: nat) { t < |threads| && threads[t] == Waiting(false) }

  // condWorker.notify_one, waking the sleeping worker w.
  function NotifyWorker(threads: seq<Thread>, w: nat): seq<Thread> {
    if w > 0 && Asleep(threads, w) then threads[w := Waiting(true)] else threads
  }

  function NotifyWorkers(threads: seq<Thread>): (r: seq<Thread>)
    ensures |r| == |threads|
  {
    seq(|threads|, i requires 0 <= i < |threads| =>
      if i > 0 && threads[i].Waiting? then Waiting(true) else threads[i])
  }

  predicate Enabled(s: State, a: Action) {
    match a
    case Enter(t) => t < |s.threads| && s.threads[t].Out?
    case Run(t) => t < |s.threads| && s.threads[t].Working? && s.threads[t].rest != []
    case Finish(t) => t < |s.threads| && s.threads[t].Working? && s.threads[t].rest == []
    case Wake(t) => t < |s.threads| && s.threads[t].Waiting?   // a wait may also end unprompted
    case Add(checks, woken) =>
      // only the master adds, between constructing its control and waiting; notify_one finds a sleeper
      && |s.threads| > 0 && s.threads[0].Out?
      && (|checks| == 1 ==>
            (woken > 0 && Asleep(s.threads, woken)) || forall w :: 0 < w < |s.threads| ==> !Asleep(s.threads, w))
  }

  // The clean-up a thread does on coming back with a finished batch.
  function CleanUp(s: State, t: nat): State
    requires t < |s.threads| && s.threads[t].Working?
  {
    var w := s.threads[t];
    var nTodo := s.nTodo - w.nNow;
    s.(fAllOk := s.fAllOk && w.fOk, nTodo := nTodo,
       threads := if nTodo == 0 && t != 0 then NotifyMaster(s.threads) else s.threads)
  }

  // One check: run it unless the batch has already failed.
  function Look(pass: Check -> bool, s: State, t: nat): State
    requires t < |s.threads| && s.threads[t].Working? && s.threads[t].rest != []
  {
    var w := s.threads[t];
    var c := w.rest[0];
    var fOk := w.fOk && pass(c);
    var seen := s.(threads := s.threads[t := Working(w.nNow, w.rest[1..], fOk)]);
    if !w.fOk then seen.(skipped := s.skipped + multiset{c})
    else if fOk then seen.(passed := s.passed + multiset{c})
    else seen.(failed := s.failed + multiset{c})
  }

  function Push(s: State, checks: seq<Check>, woken: nat): State {
    s.(queue := s.queue + checks, nTodo := s.nTodo + |checks|, added := s.added + multiset(checks),
       threads := if |checks| == 1 then NotifyWorker(s.threads, woken)
                  else if |checks| > 1 then NotifyWorkers(s.threads) else s.threads)
  }

  ghost function Step(pass: Check -> bool, s: State, a: Action): State
    requires Counts(s) && Enabled(s, a)
  {
    match a
    case Enter(t) => Decide(s.(nTotal := s.nTotal + 1), t)
    case Run(t) => Look(pass, s, t)
    case Finish(t) => Decide(CleanUp(s, t), t)
    case Wake(t) =>
      TotalAtLeast(Idle, s.threads, t);
      Decide(s.(nIdle := s.nIdle - 1), t)
    case Add(checks, woken) => Push(s, checks, woken)
  }

  // ---------- the invariant ----------

  function Total(f: Thread -> nat, threads: seq<Thread>): nat {
    if threads == [] then 0 else f(threads[0]) + Total(f, threads[1..])
  }

  const Inside := (t: Thread) => if t.Out? then 0 else 1
  const Idle := (t: Thread) => if t.Waiting? then 1 else 0
  const Held := (t: Thread) => if t.Working? then t.nNow else 0

  // How often a thread holds the check c without having looked at it.
  function Unseen(c: Check): Thread -> nat { (t: Thread) => if t.Working? then multiset(t.rest)[c] else 0 }

  predicate Bad(t: Thread) { t.Working? && !t.fOk }

  ghost predicate SomeBad(threads: seq<Thread>) { exists t :: 0 <= t < |threads| && Bad(threads[t]) }

  ghost predicate AllPass(pass: Check -> bool, m: multiset<Check>) { forall c :: c in m ==> pass(c) }

  ghost predicate Counts(s: State) {
    && |s.threads| > 0
    && s.nTotal == Total(Inside, s.threads)
    && s.nIdle == Total(Idle, s.threads)
    && s.nTodo == |s.queue| + Total(Held, s.threads)
    && forall t :: 0 <= t < |s.threads| && s.threads[t].Working? ==> s.threads[t].nNow >= 1
  }

  // Every check added in this round is in exactly one place.
  ghost predicate Conserved(s: State) {
    forall c {:trigger s.added[c]} ::
      s.added[c] == multiset(s.queue)[c] + Total(Unseen(c), s.threads) + s.passed[c] + s.failed[c] + s.skipped[c]
  }

  // A failure is never forgotten, and nothing is skipped before one.
  ghost predicate Verdict(pass: Check -> bool, s: State) {
    && AllPass(pass, s.passed)
    && (forall c :: c in s.failed ==> !pass(c))
    && (s.skipped != multiset{} ==> s.failed != multiset{})
    && (!s.fAllOk || SomeBad(s.threads) <==> s.failed != multiset{})
  }

  ghost predicate Answered(pass: Check -> bool, s: State) {
    forall i :: 0 <= i < |s.rounds| ==> (s.rounds[i].1 <==> AllPass(pass, s.rounds[i].0))
  }

  // A sleeping master whom nobody has notified still waits for a batch some worker holds.
  ghost predicate MasterAwaited(s: State)
    requires |s.threads| > 0
  {
    s.threads[0] == Waiting(false) ==> s.queue == [] && s.nTodo > 0
  }

  // Before the master adds anything there is nothing to do.
  ghost predicate Quiet(s: State) { s.added == multiset{} ==> s.nTodo == 0 }

  ghost predicate Inv(pass: Check -> bool, s: State) {
    Counts(s) && Conserved(s) && Verdict(pass, s) && Answered(pass, s) && MasterAwaited(s) && Quiet(s)
  }

  // ---------- sums over the threads ----------

  lemma {:induction false} TotalUpdate(f: Thread -> nat, threads: seq<Thread>, t: nat, w: Thread)
    requires t < |threads|
    ensures Total(f, threads[t := w]) == Total(f, threads) - f(threads[t]) + f(w)
  {
    if t > 0 {
      TotalUpdate(f, threads[1..], t - 1, w);
      assert threads[t := w][1..] == threads[1..][t - 1 := w];
    } else {
      assert threads[t := w][1..] == threads[1..];
    }
  }

  lemma {:induction false} TotalAtLeast(f: Thread -> nat, threads: seq<Thread>, t: nat)
    requires t < |threads|
    ensures Total(f, threads) >= f(threads[t])
  {
    if t > 0 { TotalAtLeast(f, threads[1..], t - 1); }
  }

  lemma {:induction false} TotalSome(f: Thread -> nat, threads: seq<Thread>) returns (t: nat)
    requires Total(f, threads) > 0
    ensures t < |threads| && f(threads[t]) > 0
  {
    if f(threads[0]) > 0 { t := 0; }
    else { t := TotalSome(f, threads[1..]); t := t + 1; }
  }

  lemma {:induction false} TotalNone(f: Thread -> nat, threads: seq<Thread>)
    requires forall t :: 0 <= t < |threads| ==> f(threads[t]) == 0
    ensures Total(f, threads) == 0
  {
    if threads != [] {
      assert forall i :: 0 <= i < |threads[1..]| ==> threads[1..][i] == threads[i + 1];
      TotalNone(f, threads[1..]);
    }
  }

  lemma {:induction false} TotalSame(f: Thread -> nat, g: Thread -> nat, a: seq<Thread>, b: seq<Thread>)
    requires |a| == |b| && forall t :: 0 <= t < |a| ==> f(a[t]) == g(b[t])
    ensures Total(f, a) == Total(g, b)
  {
    if a != [] {
      assert forall t :: 0 <= t < |a[1..]| ==> a[1..][t] == a[t + 1] && b[1..][t] == b[t + 1];
      TotalSame(f, g, a[1..], b[1..]);
    }
  }

  lemma {:induction false} ReverseSame(s: seq<Check>)
    ensures |Reverse(s)| == |s| && multiset(Reverse(s)) == multiset(s)
  {
    if s != [] {
      ReverseSame(s[1..]);
      assert s == [s[0]] + s[1..];
    }
  }

  // ---------- the invariant is kept by every step ----------

  // The counters after thread t moves from p to w.
  lemma CountsMove(threads: seq<Thread>, t: nat, w: Thread)
    requires t < |threads|
    ensures var now := threads[t := w]; var p := threads[t];
            && Total(Inside, now) == Total(Inside, threads) - Inside(p) + Inside(w)
            && Total(Idle, now) == Total(Idle, threads) - Idle(p) + Idle(w)
            && Total(Held, now) == Total(Held, threads) - Held(p) + Held(w)
  {
    TotalUpdate(Inside, threads, t, w);
    TotalUpdate(Idle, threads, t, w);
    TotalUpdate(Held, threads, t, w);
  }

  lemma UnseenMove(threads: seq<Thread>, t: nat, w: Thread)
    requires t < |threads|
    ensures forall c :: Total(Unseen(c), threads[t := w]) ==
                        Total(Unseen(c), threads) - Unseen(c)(threads[t]) + Unseen(c)(w)
  {
    forall c { TotalUpdate(Unseen(c), threads, t, w); }
  }

  lemma BadMove(threads: seq<Thread>, t: nat, w: Thread)
    requires t < |threads|
    ensures Bad(w) ==> SomeBad(threads[t := w])
    ensures !Bad(w) && !Bad(threads[t]) ==> (SomeBad(threads[t := w]) <==> SomeBad(threads))
    ensures !Bad(w) && SomeBad(threads[t := w]) ==> SomeBad(threads)
    ensures !Bad(threads[t]) && SomeBad(threads) ==> SomeBad(threads[t := w])
  {
    var now := threads[t := w];
    if Bad(w) { assert Bad(now[t]); }
    if !Bad(threads[t]) && SomeBad(threads) {
      var i :| 0 <= i < |threads| && Bad(threads[i]);
      assert Bad(now[i]);
    }
    if !Bad(w) && SomeBad(now) {
      var i :| 0 <= i < |now| && Bad(now[i]);
      assert Bad(threads[i]);
    }
  }

  // Two rows of threads that differ only in who has been notified.
  ghost predicate SameButNotified(a: seq<Thread>, b: seq<Thread>) {
    |a| == |b| && forall i :: 0 <= i < |a| ==> a[i] == b[i] || (a[i].Waiting? && b[i] == Waiting(true))
  }

  lemma NotifiedSame(pass: Check -> bool, s: State, b: seq<Thread>)
    requires SameButNotified(s.threads, b) && Counts(s) && Conserved(s) && Verdict(pass, s)
    ensures var r := s.(threads := b); Counts(r) && Conserved(r) && Verdict(pass, r)
  {
    hide Total;
    var a := s.threads;
    TotalSame(Inside, Inside, a, b);
    TotalSame(Idle, Idle, a, b);
    TotalSame(Held, Held, a, b);
    forall c { TotalSame(Unseen(c), Unseen(c), a, b); }
    if i :| 0 <= i < |a| && Bad(a[i]) { assert Bad(b[i]); }
    if i :| 0 <= i < |b| && Bad(b[i]) { assert Bad(a[i]); }
  }

  // With nothing queued and nothing held, every check of the round has been looked at.
  lemma NothingHeld(s: State)
    requires Counts(s) && Conserved(s) && s.nTodo == 0
    ensures forall i :: 0 <= i < |s.threads| ==> !s.threads[i].Working?
    ensures s.added == s.passed + s.failed + s.skipped
    ensures s.nTotal == s.nIdle
  {
    forall i | 0 <= i < |s.threads| ensures !s.threads[i].Working? { TotalAtLeast(Held, s.threads, i); }
    forall c ensures s.added[c] == s.passed[c] + s.failed[c] + s.skipped[c] { TotalNone(Unseen(c), s.threads); }
    TotalSame(Inside, Idle, s.threads, s.threads);
  }

  // When no check is left the verdict is whether every check of the round passes.
  lemma AllSeen(pass: Check -> bool, s: State)
    requires Counts(s) && Conserved(s) && Verdict(pass, s) && s.nTodo == 0
    ensures s.fAllOk <==> AllPass(pass, s.added)
  {
    NothingHeld(s);
    if AllPass(pass, s.added) {
      forall c ensures s.failed[c] == 0 { assert c in s.failed ==> c in s.added; }
      assert s.failed == multiset{};
    } else {
      assert s.added != s.passed;
    }
  }

  lemma RoundEnds(pass: Check -> bool, o: State)
    requires Counts(o) && Conserved(o) && Verdict(pass, o) && o.queue == [] && o.nTodo == 0
    ensures var r := RoundEnded(o); Counts(r) && Conserved(r) && Verdict(pass, r)
  {
    hide Total;
    NothingHeld(o);
    forall c { TotalNone(Unseen(c), o.threads); }
  }

  lemma {:induction false} LeaveKeeps(pass: Check -> bool, o: State, t: nat)
    requires Inv(pass, o) && t < |o.threads| && o.threads[t].Out? && o.queue == [] && o.nTodo == 0 && (t == 0 || o.fQuit)
    ensures Inv(pass, Decide(o.(nTotal := o.nTotal + 1), t))
  {
    hide Total, Conserved, Verdict;
    var r := Decide(o.(nTotal := o.nTotal + 1), t);
    assert r.threads == o.threads;
    if t == 0 {
      AllSeen(pass, o);
      RoundEnds(pass, o);
      assert r == RoundEnded(o);
    } else {
      assert r == o;
    }
  }

  lemma SleepKeeps(pass: Check -> bool, o: State, t: nat)
    requires Inv(pass, o) && t < |o.threads| && o.threads[t].Out?
    requires o.queue == [] && !((t == 0 || o.fQuit) && o.nTodo == 0)
    ensures Inv(pass, Decide(o.(nTotal := o.nTotal + 1), t))
  {
    hide Total;
    CountsMove(o.threads, t, Waiting(false));
    UnseenMove(o.threads, t, Waiting(false));
    BadMove(o.threads, t, Waiting(false));
  }

  lemma {:induction false} TakeKeeps(pass: Check -> bool, o: State, t: nat)
    requires Inv(pass, o) && t < |o.threads| && o.threads[t].Out? && o.queue != []
    ensures Inv(pass, Decide(o.(nTotal := o.nTotal + 1), t))
  {
    hide Total, Reverse;
    var s := o.(nTotal := o.nTotal + 1);
    var nNow := BatchSize(s.nBatchSize, |s.queue|, s.nTotal, s.nIdle);
    var keep := |s.queue| - nNow;
    var batch := s.queue[keep..];
    var w := Working(nNow, Reverse(batch), s.fAllOk);
    var r := Decide(s, t);
    assert r == s.(queue := s.queue[..keep], threads := o.threads[t := w]);
    assert Counts(r) by { hide Conserved, Verdict; CountsMove(o.threads, t, w); }
    assert Verdict(pass, r) by { hide Conserved, Counts; BadMove(o.threads, t, w); }
    assert Conserved(r) by {
      hide Counts, Verdict;
      ReverseSame(batch);
      assert s.queue == s.queue[..keep] + batch;
      UnseenMove(o.threads, t, w);
    }
  }

  lemma SetTwice(threads: seq<Thread>, t: nat, v: Thread, w: Thread)
    requires t < |threads|
    ensures threads[t := v][t := w] == threads[t := w]
  {}

  lemma TakeOverwrites(s: State, t: nat)
    requires t < |s.threads| && s.nTotal + s.nIdle + 1 > 0 && s.queue != []
    ensures Take(s.(threads := s.threads[t := Out]), t) == Take(s, t)
  {
    hide Reverse, BatchSize;
    SetTwice(s.threads, t, Out, Take(s, t).threads[t]);
  }

  // What t did before does not matter to its next place.
  lemma {:induction false} DecideOverwrites(s: State, t: nat)
    requires t < |s.threads| && s.nTotal + s.nIdle + 1 > 0
    ensures Decide(s.(threads := s.threads[t := Out]), t) == Decide(s, t)
  {
    hide Take, RoundEnded;
    if s.queue != [] {
      TakeOverwrites(s, t);
    } else {
      SetTwice(s.threads, t, Out, Out);
      SetTwice(s.threads, t, Out, Waiting(false));
    }
  }

  // With thread t set aside the state satisfies the invariant; what t does next keeps it.
  lemma {:induction false} DecideKeeps(pass: Check -> bool, s: State, t: nat)
    requires t < |s.threads|
    requires Inv(pass, s.(nTotal := s.nTotal - 1, threads := s.threads[t := Out]))
    ensures s.nTotal + s.nIdle + 1 > 0 && Inv(pass, Decide(s, t))
  {
    hide Total, Decide, Conserved, Verdict, Answered, MasterAwaited;
    var o := s.(nTotal := s.nTotal - 1, threads := s.threads[t := Out]);
    var back := o.(nTotal := o.nTotal + 1);
    DecideOverwrites(s, t);
    assert back == s.(threads := s.threads[t := Out]);
    if o.queue != [] { TakeKeeps(pass, o, t); }
    else if (t == 0 || o.fQuit) && o.nTodo == 0 { LeaveKeeps(pass, o, t); }
    else { SleepKeeps(pass, o, t); }
    assert Inv(pass, Decide(back, t));
  }

  lemma {:induction false} EnterKeeps(pass: Check -> bool, s: State, t: nat)
    requires Inv(pass, s) && Enabled(s, Enter(t))
    ensures Inv(pass, Step(pass, s, Enter(t)))
  {
    hide Total, Decide, Conserved, Verdict, Answered, MasterAwaited;
    assert s.threads[t := Out] == s.threads;
    DecideKeeps(pass, s.(nTotal := s.nTotal + 1), t);
  }

  lemma {:induction false} WakeKeeps(pass: Check -> bool, s: State, t: nat)
    requires Inv(pass, s) && Enabled(s, Wake(t))
    ensures Inv(pass, Step(pass, s, Wake(t)))
  {
    hide Total, Decide;
    var o := s.(nIdle := s.nIdle - 1, nTotal := s.nTotal - 1, threads := s.threads[t := Out]);
    assert Counts(o) by { hide Conserved, Verdict; CountsMove(s.threads, t, Out); }
    assert Conserved(o) by { hide Counts, Verdict; UnseenMove(s.threads, t, Out); }
    assert Verdict(pass, o) by { hide Counts, Conserved; BadMove(s.threads, t, Out); }
    DecideKeeps(pass, s.(nIdle := s.nIdle - 1), t);
  }

  lemma {:induction false} FinishKeeps(pass: Check -> bool, s: State, t: nat)
    requires Inv(pass, s) && Enabled(s, Finish(t))
    ensures Inv(pass, Step(pass, s, Finish(t)))
  {
    hide Total, Decide;
    var c := CleanUp(s, t);
    var o := s.(fAllOk := c.fAllOk, nTodo := c.nTodo, nTotal := s.nTotal - 1, threads := s.threads[t := Out]);
    assert Counts(o) by { hide Conserved, Verdict; CountsMove(s.threads, t, Out); }
    assert Conserved(o) by { hide Counts, Verdict; UnseenMove(s.threads, t, Out); }
    assert Verdict(pass, o) by { hide Counts, Conserved; BadMove(s.threads, t, Out); }
    NotifiedSame(pass, o, c.threads[t := Out]);
    DecideKeeps(pass, c, t);
  }

  // Looking at a check moves it from the batch to one of the three histories.
  lemma LookMovesOne(pass: Check -> bool, s: State, t: nat, c: Check)
    requires Enabled(s, Run(t))
    ensures var r := Look(pass, s, t);
            && r.added[c] == s.added[c]
            && r.passed[c] + r.failed[c] + r.skipped[c] + Unseen(c)(r.threads[t]) ==
               s.passed[c] + s.failed[c] + s.skipped[c] + Unseen(c)(s.threads[t])
  {
    var rest := s.threads[t].rest;
    assert rest == [rest[0]] + rest[1..];
    assert multiset(rest)[c] == multiset{rest[0]}[c] + multiset(rest[1..])[c];
  }

  lemma LookVerdict(pass: Check -> bool, s: State, t: nat)
    requires Enabled(s, Run(t)) && Verdict(pass, s)
    ensures Verdict(pass, Look(pass, s, t))
  {
    var r := Look(pass, s, t);
    BadMove(s.threads, t, r.threads[t]);
    assert Bad(s.threads[t]) ==> SomeBad(s.threads);
    var c := s.threads[t].rest[0];
    assert r.failed == s.failed || (r.failed[c] > 0 && !pass(c));
  }

  lemma {:induction false} LookCounts(pass: Check -> bool, s: State, t: nat)
    requires Enabled(s, Run(t)) && Counts(s)
    ensures Counts(Look(pass, s, t))
  {
    hide Total;
    CountsMove(s.threads, t, Look(pass, s, t).threads[t]);
  }

  lemma LookConserved(pass: Check -> bool, s: State, t: nat)
    requires Enabled(s, Run(t)) && Conserved(s)
    ensures Conserved(Look(pass, s, t))
  {
    hide Total;
    var r := Look(pass, s, t);
    assert r.queue == s.queue && r.threads == s.threads[t := r.threads[t]];
    hide Look;
    UnseenMove(s.threads, t, r.threads[t]);
    forall c { LookMovesOne(pass, s, t, c); }
  }

  lemma LookFrame(pass: Check -> bool, s: State, t: nat)
    requires Enabled(s, Run(t))
    ensures var r := Look(pass, s, t);
            && r.queue == s.queue && r.nTodo == s.nTodo && r.added == s.added && r.rounds == s.rounds
            && |r.threads| == |s.threads|
            && (r.threads[0].Waiting? ==> r.threads[0] == s.threads[0])
  {}

  lemma {:induction false} LookKeeps(pass: Check -> bool, s: State, t: nat)
    requires Inv(pass, s) && Enabled(s, Run(t))
    ensures Inv(pass, Look(pass, s, t))
  {
    hide Counts, Conserved, Verdict, Look;
    LookFrame(pass, s, t);
    LookCounts(pass, s, t);
    LookVerdict(pass, s, t);
    LookConserved(pass, s, t);
  }

  lemma {:induction false} PushKeeps(pass: Check -> bool, s: State, checks: seq<Check>, woken: nat)
    requires Inv(pass, s) && Enabled(s, Add(checks, woken))
    ensures Inv(pass, Push(s, checks, woken))
  {
    hide Total;
    var r := Push(s, checks, woken);
    var o := r.(threads := s.threads);
    assert Counts(o) && Conserved(o) && Verdict(pass, o);
    NotifiedSame(pass, o, r.threads);
  }

  lemma {:induction false} StepKeeps(pass: Check -> bool, s: State, a: Action)
    requires Inv(pass, s) && Enabled(s, a)
    ensures Inv(pass, Step(pass, s, a))
  {
    hide Total, Decide, Look, Push, Counts, Conserved, Verdict, Answered, MasterAwaited;
    match a
    case Enter(t) => EnterKeeps(pass, s, t);
    case Run(t) => LookKeeps(pass, s, t);
    case Finish(t) => FinishKeeps(pass, s, t);
    case Wake(t) => WakeKeeps(pass, s, t);
    case Add(checks, woken) => PushKeeps(pass, s, checks, woken);
  }

  // ---------- whole runs ----------

  function Initial(nThreads: nat, nBatchSize: nat): State
    requires nThreads > 0
  {
    State([], 0, 0, true, 0, false, nBatchSize, seq(nThreads, _ => Out),
          multiset{}, multiset{}, multiset{}, multiset{}, [])
  }

  lemma InitialInv(pass: Check -> bool, nThreads: nat, nBatchSize: nat)
    requires nThreads > 0
    ensures Inv(pass, Initial(nThreads, nBatchSize))
  {
    var threads := Initial(nThreads, nBatchSize).threads;
    TotalNone(Inside, threads);
    TotalNone(Idle, threads);
    TotalNone(Held, threads);
    forall c { TotalNone(Unseen(c), threads); }
  }

  // The run is one of the possible interleavings from s, and leads to r.
  ghost predicate Reaches(pass: Check -> bool, s: State, run: seq<Action>, r: State)
    requires Inv(pass, s)
    decreases |run|
  {
    if run == [] then r == s
    else
      hide Step, Counts, Conserved, Verdict, Answered, MasterAwaited, Quiet, Enabled;
      && Enabled(s, run[0])
      && (StepKeeps(pass, s, run[0]); Reaches(pass, Step(pass, s, run[0]), run[1..], r))
  }

  lemma {:induction false} RunKeeps(pass: Check -> bool, s: State, run: seq<Action>, r: State)
    requires Inv(pass, s) && Reaches(pass, s, run, r)
    ensures Inv(pass, r)
    decreases |run|
  {
    hide Step, Counts, Conserved, Verdict, Answered, MasterAwaited, Quiet, Enabled;
    if run != [] {
      StepKeeps(pass, s, run[0]);
      RunKeeps(pass, Step(pass, s, run[0]), run[1..], r);
    }
  }

  predicate HoldsBatch(t: Thread) { t.Working? && t.nNow > 0 }

  // A thread that moves on its own: it holds a batch or has been notified.
  predicate CanMove(t: Thread) { t.Working? || t == Waiting(true) }

  // What constructing the next control asserts.
  predicate ControlAsserts(s: State) { s.nTotal == s.nIdle && s.nTodo == 0 && s.fAllOk }

  // Whatever the interleaving.
  lemma {:induction false} EveryRunIsSafe(pass: Check -> bool, nThreads: nat, nBatchSize: nat, run: seq<Action>, s: State)
    requires nThreads > 0 && Inv(pass, Initial(nThreads, nBatchSize))
    requires Reaches(pass, Initial(nThreads, nBatchSize), run, s)
    ensures s.nTodo == |s.queue| + Total(Held, s.threads)
    ensures forall i :: 0 <= i < |s.rounds| ==> (s.rounds[i].1 <==> AllPass(pass, s.rounds[i].0))
    ensures |s.threads| > 0
    ensures s.threads[0] == Waiting(false) ==> exists w :: 0 < w < |s.threads| && HoldsBatch(s.threads[w])
    ensures !s.threads[0].Out? ==> exists t :: 0 <= t < |s.threads| && CanMove(s.threads[t])
    ensures s.nTodo == 0 ==> (s.fAllOk <==> AllPass(pass, s.added))
    ensures s.threads[0].Out? && s.nTodo == 0 ==> (ControlAsserts(s) <==> AllPass(pass, s.added))
    ensures s.threads[0].Out? && s.added == multiset{} ==> ControlAsserts(s)
  {
    RunKeeps(pass, Initial(nThreads, nBatchSize), run, s);
    if s.threads[0] == Waiting(false) {
      var w := TotalSome(Held, s.threads);
      assert HoldsBatch(s.threads[w]) && CanMove(s.threads[w]);
    } else if !s.threads[0].Out? {
      assert CanMove(s.threads[0]);
    }
    if s.nTodo == 0 {
      NothingHeld(s);
      AllSeen(pass, s);
    }
  }

  // A worker takes, fails and hands back the only check before the master waits.
  function OneFailure(k: nat): State {
    var s := State([], 0, 0, true, 0, false, 1, [Out, Out], multiset{}, multiset{}, multiset{}, multiset{}, []);
    if k == 0 then s
    else
      var added := s.(added := multiset{7}, nTodo := 1);
      if k == 1 then added.(queue := [7])
      else if k == 2 then added.(nTotal := 1, threads := [Out, Working(1, [7], true)])
      else
        var failed := added.(nTotal := 1, failed := multiset{7});
        if k == 3 then failed.(threads := [Out, Working(1, [], false)])
        else failed.(fAllOk := false, nTodo := 0, nIdle := 1, threads := [Out, Waiting(false)])
  }

  const FailingRun := [Add([7], 0), Enter(1), Run(1), Finish(1)]

  lemma {:induction false} OneFailureStep(pass: Check -> bool, k: nat)
    requires k < 4 && !pass(7) && Counts(OneFailure(k))
    ensures Enabled(OneFailure(k), FailingRun[k]) && Step(pass, OneFailure(k), FailingRun[k]) == OneFailure(k + 1)
  {
    hide Counts;
    if k == 0 { assert Push(OneFailure(0), [7], 0) == OneFailure(1); }
    else if k == 1 { assert Reverse([7]) == [7]; }
    else if k == 2 { assert Look(pass, OneFailure(2), 1) == OneFailure(3); }
  }

  lemma {:induction false} OneFailureRun(pass: Check -> bool, k: nat)
    requires k <= 4 && !pass(7) && Inv(pass, OneFailure(k))
    ensures Reaches(pass, OneFailure(k), FailingRun[k..], OneFailure(4))
    decreases 4 - k
  {
    hide Counts, Conserved, Verdict, Answered, MasterAwaited, Quiet, Step, OneFailure, Enabled;
    if k < 4 {
      OneFailureStep(pass, k);
      StepKeeps(pass, OneFailure(k), FailingRun[k]);
      OneFailureRun(pass, k + 1);
      assert FailingRun[k..][1..] == FailingRun[k + 1..];
    }
  }

  // With the master outside and nothing left to do the flag may still say that a check failed:
  // it is reset only when Wait returns.
  lemma FailureIsKeptForWait()
    ensures exists pass, run, s ::
              && Inv(pass, Initial(2, 1)) && Reaches(pass, Initial(2, 1), run, s)
              && |s.threads| > 0 && s.threads[0].Out? && s.nTodo == 0 && !s.fAllOk
  {
    hide Counts, Conserved, Verdict, Answered, MasterAwaited, Quiet, Reaches;
    var pass := (c: Check) => false;
    InitialInv(pass, 2, 1);
    assert Initial(2, 1).threads == [Out, Out];
    OneFailureRun(pass, 0);
  }

  // ---------- batches, and who is woken ----------

  // A batch is the largest that leaves every thread, counting the idle ones twice, and one more as much; but never
  // more than nBatchSize, nor less than 1.
  lemma BatchIs(nBatchSize: nat, queued: nat, nTotal: int, nIdle: int)
    requires nTotal + nIdle + 1 > 0 && queued > 0
    ensures var (nNow, shares) := (BatchSize(nBatchSize, queued, nTotal, nIdle), nTotal + nIdle + 1);
            && (nNow == 1 || (nNow <= nBatchSize && nNow * shares <= queued))
            && (nNow < nBatchSize ==> queued < (nNow + 1) * shares)
  {
    var shares := nTotal + nIdle + 1;
    var q := queued / shares;
    Basics.Quotient(queued, shares);
    assert (q + 1) * shares == q * shares + shares;
    if q == 0 { assert queued < shares <= 2 * shares; }
  }

  ghost predicate WorkerSleeps(s: State) { exists w :: 0 < w && Asleep(s.threads, w) }

  predicate Up(threads: seq<Thread>, u: nat) { 0 < u < |threads| && CanMove(threads[u]) }

  ghost predicate WorkerUp(s: State) { exists u :: Up(s.threads, u) }

  // Several checks wake all workers, one check wakes one of those asleep, if any, and nobody else is touched.
  lemma PushWakes(s: State, checks: seq<Check>, woken: nat)
    requires Enabled(s, Add(checks, woken))
    ensures var r := Push(s, checks, woken);
            && |r.threads| == |s.threads| && r.threads[0] == s.threads[0]
            && (forall w :: 0 < w < |s.threads| && s.threads[w] != Waiting(false) ==> r.threads[w] == s.threads[w])
            && (|checks| > 1 ==> !WorkerSleeps(r))
            && (|checks| == 1 && WorkerSleeps(s) ==>
                  0 < woken < |s.threads| && r.threads == s.threads[woken := Waiting(true)] && s.threads[woken] == Waiting(false))
            && (checks == [] || (|checks| == 1 && !WorkerSleeps(s)) ==> r.threads == s.threads)
  {
    if |checks| == 1 && WorkerSleeps(s) {
      var w :| 0 < w && Asleep(s.threads, w);
      assert !(forall x :: 0 < x < |s.threads| ==> !Asleep(s.threads, x));
    }
    if |checks| > 1 { forall w | 0 < w ensures !Asleep(Push(s, checks, woken).threads, w) {} }
    if |checks| == 1 && !WorkerSleeps(s) { assert !Asleep(s.threads, woken) || woken == 0; }
  }

  // While checks are queued and a worker sleeps, another worker is up: no checks are left to the master alone.
  ghost predicate Shared(s: State) { s.queue != [] && WorkerSleeps(s) ==> WorkerUp(s) }

  lemma DecideShares(s: State, t: nat)
    requires t < |s.threads| && s.nTotal + s.nIdle + 1 > 0
    requires t > 0 || (s.queue != [] && WorkerSleeps(s) ==> WorkerUp(s))
    ensures Shared(Decide(s, t))
  {
    var r := Decide(s, t);
    if r.queue != [] {
      assert r == Take(s, t);
      if t > 0 { assert Up(r.threads, t); }
      else if WorkerSleeps(r) {
        var w :| 0 < w && Asleep(r.threads, w);
        assert Asleep(s.threads, w);
        var u :| Up(s.threads, u);
        assert Up(r.threads, u);
      }
    }
  }

  lemma SameWorkers(s: State, r: State)
    requires |s.threads| == |r.threads| && s.queue == r.queue && Shared(s)
    requires forall w :: 0 < w < |s.threads| ==> r.threads[w] == s.threads[w]
    ensures Shared(r)
  {
    if r.queue != [] && WorkerSleeps(r) {
      var w :| 0 < w && Asleep(r.threads, w);
      assert Asleep(s.threads, w);
      var u :| Up(s.threads, u);
      assert Up(r.threads, u);
    }
  }

  lemma PushShares(s: State, checks: seq<Check>, woken: nat)
    requires Enabled(s, Add(checks, woken)) && Shared(s)
    ensures Shared(Push(s, checks, woken))
  {
    PushWakes(s, checks, woken);
    hide Push, Enabled;
    var r := Push(s, checks, woken);
    if |checks| == 1 && WorkerSleeps(s) { assert Up(r.threads, woken); }
    else if |checks| == 0 { assert r.queue == s.queue by { PushNothing(s, woken); } }
  }

  lemma PushNothing(s: State, woken: nat)
    ensures Push(s, [], woken).queue == s.queue
  {}

  lemma {:induction false} StepShares(pass: Check -> bool, s: State, a: Action)
    requires Inv(pass, s) && Enabled(s, a) && Shared(s)
    ensures Shared(Step(pass, s, a))
  {
    hide Total, Decide, Push, Conserved, Verdict, Answered, MasterAwaited, Quiet, WorkerSleeps, WorkerUp;
    match a
    case Enter(t) =>
      var c := s.(nTotal := s.nTotal + 1);
      SameWorkers(s, c);
      DecideShares(c, t);
    case Run(t) => LookShares(pass, s, t);
    case Finish(t) =>
      var c := CleanUp(s, t);
      SameWorkers(s, c);
      DecideShares(c, t);
    case Wake(t) =>
      TotalAtLeast(Idle, s.threads, t);
      var c := s.(nIdle := s.nIdle - 1);
      SameWorkers(s, c);
      DecideShares(c, t);
    case Add(checks, woken) => PushShares(s, checks, woken);
  }

  lemma LookShares(pass: Check -> bool, s: State, t: nat)
    requires Enabled(s, Run(t)) && Shared(s)
    ensures Shared(Look(pass, s, t))
  {
    var r := Look(pass, s, t);
    if r.queue != [] && WorkerSleeps(r) {
      var w :| 0 < w && Asleep(r.threads, w);
      assert Asleep(s.threads, w);
      var u :| Up(s.threads, u);
      assert Up(r.threads, u);
    }
  }

  // So in every run.
  lemma {:induction false} RunShares(pass: Check -> bool, s: State, run: seq<Action>, r: State)
    requires Inv(pass, s) && Shared(s) && Reaches(pass, s, run, r)
    ensures Shared(r)
    decreases |run|
  {
    hide Step, Shared, Counts, Conserved, Verdict, Answered, MasterAwaited, Quiet, Enabled;
    if run != [] {
      StepKeeps(pass, s, run[0]);
      StepShares(pass, s, run[0]);
      RunShares(pass, Step(pass, s, run[0]), run[1..], r);
    }
  }

  lemma EveryRunShares(pass: Check -> bool, nThreads: nat, nBatchSize: nat, run: seq<Action>, s: State)
    requires nThreads > 0 && Inv(pass, Initial(nThreads, nBatchSize))
    requires Reaches(pass, Initial(nThreads, nBatchSize), run, s)
    ensures s.queue != [] && (exists w :: 0 < w && Asleep(s.threads, w)) ==> exists u :: 0 < u < |s.threads| && CanMove(s.threads[u])
  {
    hide Reaches;
    RunShares(pass, Initial(nThreads, nBatchSize), run, s);
    if s.queue != [] && WorkerSleeps(s) { var u :| Up(s.threads, u); }
  }

  // ---------- a round ends ----------

  const Load := (t: Thread) => if t.Working? then 2 * |t.rest| + 3 else if t == Waiting(true) then 1 else 0

  // A bound on the moves left before every thread is asleep or outside.
  function Work(s: State): nat { 6 * |s.queue| + Total(Load, s.threads) }

  // Moves other than entering, adding and waking unprompted.
  predicate Moves(s: State, a: Action)
    requires Enabled(s, a)
  {
    a.Run? || a.Finish? || (a.Wake? && s.threads[a.t] == Waiting(true))
  }

  lemma TakeWork(s: State, t: nat)
    requires t < |s.threads| && s.nTotal + s.nIdle + 1 > 0 && s.queue != []
    ensures Work(Take(s, t)) <= Work(s) - Load(s.threads[t])
  {
    hide Reverse;
    var r := Take(s, t);
    TotalUpdate(Load, s.threads, t, r.threads[t]);
    ReverseSame(s.queue[|s.queue| - BatchSize(s.nBatchSize, |s.queue|, s.nTotal, s.nIdle)..]);
  }

  lemma DecideWork(s: State, t: nat)
    requires t < |s.threads| && s.nTotal + s.nIdle + 1 > 0
    ensures Work(Decide(s, t)) <= Work(s) - Load(s.threads[t])
  {
    hide Total, Take;
    if s.queue != [] { TakeWork(s, t); }
    else { TotalUpdate(Load, s.threads, t, Decide(s, t).threads[t]); }
  }

  lemma FinishWork(s: State, t: nat)
    requires Counts(s) && Enabled(s, Finish(t))
    ensures Work(Decide(CleanUp(s, t), t)) < Work(s)
  {
    hide Total, Decide;
    var c := CleanUp(s, t);
    TotalUpdate(Load, s.threads, 0, c.threads[0]);
    assert c.threads == s.threads[0 := c.threads[0]];
    DecideWork(c, t);
  }

  lemma LookWork(pass: Check -> bool, s: State, t: nat)
    requires Enabled(s, Run(t))
    ensures Work(Look(pass, s, t)) < Work(s)
  {
    hide Total;
    TotalUpdate(Load, s.threads, t, Look(pass, s, t).threads[t]);
  }

  lemma {:induction false} WorkShrinks(pass: Check -> bool, s: State, a: Action)
    requires Inv(pass, s) && Enabled(s, a) && !a.Add?
    ensures Work(Step(pass, s, a)) + (if Moves(s, a) then 1 else 0) <= Work(s)
  {
    hide Total, Decide, Look, CleanUp, Conserved, Verdict, Answered, MasterAwaited, Quiet;
    match a
    case Enter(t) => DecideWork(s.(nTotal := s.nTotal + 1), t);
    case Run(t) => LookWork(pass, s, t);
    case Finish(t) => FinishWork(s, t);
    case Wake(t) =>
      TotalAtLeast(Idle, s.threads, t);
      DecideWork(s.(nIdle := s.nIdle - 1), t);
  }

  // How many actions of a run are moves.
  ghost function MovesIn(pass: Check -> bool, s: State, run: seq<Action>): nat
    requires Inv(pass, s)
    decreases |run|
  {
    if run == [] || !Enabled(s, run[0]) then 0
    else
      hide Step, Counts, Conserved, Verdict, Answered, MasterAwaited, Quiet, Enabled;
      StepKeeps(pass, s, run[0]);
      (if Moves(s, run[0]) then 1 else 0) + MovesIn(pass, Step(pass, s, run[0]), run[1..])
  }

  // Until the master adds more, only so many moves are possible, however often threads wake unprompted.
  // By EveryRunIsSafe one is possible while the master is inside, so it gets out.
  lemma {:induction false} RoundEndsWithin(pass: Check -> bool, s: State, run: seq<Action>)
    requires Inv(pass, s) && forall i :: 0 <= i < |run| ==> !run[i].Add?
    ensures MovesIn(pass, s, run) <= Work(s)
    decreases |run|
  {
    hide Step, Counts, Conserved, Verdict, Answered, MasterAwaited, Quiet, Enabled;
    if run != [] && Enabled(s, run[0]) {
      WorkShrinks(pass, s, run[0]);
      StepKeeps(pass, s, run[0]);
      RoundEndsWithin(pass, Step(pass, s, run[0]), run[1..]);
    }
  }
}
