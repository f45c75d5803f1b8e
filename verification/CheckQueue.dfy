/** The queue of script checks shared by one master and any number of workers, as a transition system.
    One step is one critical section, one executed check, one notification or one wake-up, so a run of the
    system is an arbitrary interleaving of the threads. Thread 0 is the master. */
module CheckQueue {
  import opened Options
  import opened Powers

  /** What the mutex guards. */
  datatype Shared<T> = Shared(queue: seq<T>, nIdle: int, nTotal: int, allOk: bool, nTodo: int)

  /** Where a thread is. Outside and Notifying are the master's alone: between calls, and at the end of an
      Add that queued count checks. A thread that holds the mutex is Holding. */
  datatype Phase<T> =
    | Outside
    | Notifying(count: nat)
    | Entering
    | Blocked
    | Woken
    | Holding
    | Working(batch: seq<T>, next: nat, ok: bool)

  datatype State<T> = State(shared: Shared<T>, threads: seq<Phase<T>>)

  datatype Action<T> =
    | Add(checks: seq<T>)
    | Notify(who: nat)
    | CallWait
    | Lock(thread: nat)
    | Check(thread: nat)
    | Spurious(thread: nat)

  /** What the caller of the queue sees. */
  datatype Event<T> = Added(checks: seq<T>) | Returned(result: bool)

  datatype Outcome<T> = Returns(result: bool) | Waits | Takes(batch: seq<T>, ok: bool)

  // ---------- the critical section ----------

  lemma {:induction false} Share(queued: nat, threads: nat, maxBatch: nat)
    requires threads > 0
    ensures queued / threads * threads <= queued < (queued / threads + 1) * threads
    ensures maxBatch <= queued / threads ==> maxBatch * threads <= queued
  {
    Quotient(queued, threads);
    if maxBatch <= queued / threads {
      MulLe(threads, maxBatch, queued / threads);
    }
  }

  /** How many checks to take: a thread's share of the queue, but at least one, and no more than the limit. */
  function BatchSize(maxBatch: nat, queued: nat, threads: nat): (n: nat)
    requires threads > 0
    ensures 1 <= n && (queued > 0 ==> n <= queued) && (maxBatch > 0 ==> n <= maxBatch)
    ensures n > 1 ==> n * threads <= queued
    ensures n < maxBatch ==> queued < (n + 1) * threads
  {
    Quotient(queued, threads);
    Share(queued, threads, maxBatch);
    var share := queued / threads;
    var capped := if maxBatch <= share then maxBatch else share;
    if capped >= 1 then capped else 1
  }

  /** The book-keeping with which a thread in phase p starts its critical section. */
  function Arrived<T>(s: Shared<T>, p: Phase<T>): Shared<T> {
    match p
    case Entering => s.(nTotal := s.nTotal + 1)
    case Woken => s.(nIdle := s.nIdle - 1)
    case Working(batch, _, ok) => s.(allOk := s.allOk && ok, nTodo := s.nTodo - |batch|)
    case _ => s
  }

  /** The rest of the critical section: return, wait, or take a batch from the end of the queue. */
  function Decided<T>(s: Shared<T>, maxBatch: nat, master: bool): (Shared<T>, Outcome<T>)
    requires s.nTotal + s.nIdle >= 0
  {
    if s.queue == [] then
      if master && s.nTodo == 0 then
        (s.(nTotal := s.nTotal - 1, allOk := true), Returns(s.allOk))
      else
        (s.(nIdle := s.nIdle + 1), Waits)
    else
      var rest := |s.queue| - BatchSize(maxBatch, |s.queue|, s.nTotal + s.nIdle + 1);
      (s.(queue := s.queue[..rest]), Takes(s.queue[rest..], s.allOk))
  }

  function PhaseAfter<T>(o: Outcome<T>): Phase<T> {
    match o
    case Returns(_) => Outside
    case Waits => Blocked
    case Takes(batch, ok) => Working(batch, 0, ok)
  }

  /** A worker that folds the last unfinished batch notifies the master. */
  function Arrive<T>(s: State<T>, t: nat): State<T>
    requires t < |s.threads|
  {
    var sh := Arrived(s.shared, s.threads[t]);
    var threads := s.threads[t := Holding];
    if s.threads[t].Working? && sh.nTodo == 0 && t != 0 && threads[0].Blocked? then
      State(sh, threads[0 := Woken])
    else
      State(sh, threads)
  }

  function Decide<T>(s: State<T>, maxBatch: nat, t: nat): State<T>
    requires t < |s.threads| && s.shared.nTotal + s.shared.nIdle >= 0
  {
    var (sh, o) := Decided(s.shared, maxBatch, t == 0);
    State(sh, s.threads[t := PhaseAfter(o)])
  }

  // ---------- the steps ----------

  predicate MayLock<T>(p: Phase<T>) {
    p.Entering? || p.Woken? || (p.Working? && p.next == |p.batch|)
  }

  ghost predicate Enabled<T>(s: State<T>, a: Action<T>) {
    && |s.threads| > 0
    && match a
      case Add(checks) => s.threads[0].Outside?
      case Notify(who) =>
        && s.threads[0].Notifying?
        && (s.threads[0].count == 1 ==>
          || (0 < who < |s.threads| && s.threads[who].Blocked?)
          || (who == 0 && forall t :: 0 < t < |s.threads| ==> !s.threads[t].Blocked?))
      case CallWait => s.threads[0].Outside?
      case Lock(t) => t < |s.threads| && MayLock(s.threads[t]) && Arrive(s, t).shared.nTotal + Arrive(s, t).shared.nIdle >= 0
      case Check(t) => t < |s.threads| && s.threads[t].Working? && s.threads[t].next < |s.threads[t].batch|
      case Spurious(t) => t < |s.threads| && s.threads[t].Blocked?
  }

  /** Wakes every thread of the list that is blocked. */
  function WakeAll<T>(threads: seq<Phase<T>>): (r: seq<Phase<T>>)
    ensures |r| == |threads|
    ensures forall t :: 0 <= t < |threads| ==> r[t] == if threads[t].Blocked? then Woken else threads[t]
  {
    seq(|threads|, t requires 0 <= t < |threads| => if threads[t].Blocked? then Woken else threads[t])
  }

  function Executed<T>(eval: T -> bool, p: Phase<T>): Phase<T>
    requires p.Working? && p.next < |p.batch|
  {
    Working(p.batch, p.next + 1, p.ok && eval(p.batch[p.next]))
  }

  function Next<T>(eval: T -> bool, maxBatch: nat, s: State<T>, a: Action<T>): State<T>
    requires Enabled(s, a)
  {
    match a
    case Add(checks) =>
      if checks == [] then s
      else State(s.shared.(queue := s.shared.queue + checks, nTodo := s.shared.nTodo + |checks|),
                 s.threads[0 := Notifying(|checks|)])
    case Notify(who) =>
      var threads := s.threads[0 := Outside];
      if s.threads[0].count != 1 then s.(threads := WakeAll(threads))
      else if who == 0 then s.(threads := threads)
      else s.(threads := threads[who := Woken])
    case CallWait => s.(threads := s.threads[0 := Entering])
    case Lock(t) => Decide(Arrive(s, t), maxBatch, t)
    case Check(t) => s.(threads := s.threads[t := Executed(eval, s.threads[t])])
    case Spurious(t) => s.(threads := s.threads[t := Woken])
  }

  /** Wait returns when the master's critical section ends with a return. */
  function Shows<T>(maxBatch: nat, s: State<T>, a: Action<T>): Option<Event<T>>
    requires Enabled(s, a)
  {
    match a
    case Add(checks) => Some(Added(checks))
    case Lock(t) =>
      var o := Decided(Arrive(s, t).shared, maxBatch, t == 0).1;
      if o.Returns? then Some(Returned(o.result)) else None
    case _ => None
  }

  function Start<T>(workers: nat): State<T> {
    State(Shared([], 0, 0, true, 0), [Outside] + seq(workers, _ => Entering))
  }

  // ---------- sums over the threads ----------

  /** The threads that wait, the threads that have passed their first critical section, the checks in batches
      that are not folded yet, and the steps the threads can take without new work. */
  datatype Tally<T(==)> = Tally(idle: nat, inside: nat, batches: multiset<T>, effort: nat)

  ghost function One<T>(p: Phase<T>): Tally<T> {
    match p
    case Blocked => Tally(1, 1, multiset{}, 0)
    case Woken => Tally(1, 1, multiset{}, 1)
    case Entering => Tally(0, 0, multiset{}, 1)
    case Holding => Tally(0, 1, multiset{}, 1)
    case Working(batch, next, _) => Tally(0, 1, multiset(batch), (if next <= |batch| then |batch| - next else 0) + 2)
    case _ => Tally(0, 0, multiset{}, 0)
  }

  ghost function Sum<T>(threads: seq<Phase<T>>): Tally<T> {
    if threads == [] then Tally(0, 0, multiset{}, 0)
    else
      var a, b := One(threads[0]), Sum(threads[1..]);
      Tally(a.idle + b.idle, a.inside + b.inside, a.batches + b.batches, a.effort + b.effort)
  }

  lemma {:induction false} SumUpdate<T>(threads: seq<Phase<T>>, t: nat, p: Phase<T>)
    requires t < |threads|
    ensures var a, b, x, y := Sum(threads), Sum(threads[t := p]), One(threads[t]), One(p);
      && b.idle == a.idle - x.idle + y.idle
      && b.inside == a.inside - x.inside + y.inside
      && x.batches <= a.batches
      && b.batches == a.batches - x.batches + y.batches
      && b.effort == a.effort - x.effort + y.effort
  {
    hide One;
    if t == 0 {
      assert threads[t := p][1..] == threads[1..];
    } else {
      SumUpdate(threads[1..], t - 1, p);
      assert threads[t := p][1..] == threads[1..][t - 1 := p];
      Regroup(One(threads[0]).batches, One(threads[t]).batches, One(p).batches, Sum(threads[1..]).batches);
    }
  }

  lemma {:induction false} Regroup<T>(a: multiset<T>, x: multiset<T>, y: multiset<T>, b: multiset<T>)
    requires x <= b
    ensures x <= a + b && a + (b - x + y) == a + b - x + y
  {
  }

  lemma {:induction false} SumWake<T>(threads: seq<Phase<T>>)
    ensures var a, b := Sum(threads), Sum(WakeAll(threads));
      b.idle == a.idle && b.inside == a.inside && b.batches == a.batches
  {
    if threads != [] {
      SumWake(threads[1..]);
      assert WakeAll(threads)[1..] == WakeAll(threads[1..]);
    }
  }

  lemma {:induction false} SumStart<T>(threads: seq<Phase<T>>)
    requires forall t :: 0 <= t < |threads| ==> threads[t].Outside? || threads[t].Entering?
    ensures Sum(threads).idle == 0 && Sum(threads).inside == 0 && Sum(threads).batches == multiset{}
  {
    if threads != [] {
      SumStart(threads[1..]);
    }
  }

  /** A check that is in some unfolded batch is in a batch of some thread. */
  lemma {:induction false} SomeoneWorks<T>(threads: seq<Phase<T>>) returns (t: nat)
    requires Sum(threads).batches != multiset{}
    ensures t < |threads| && threads[t].Working? && threads[t].batch != []
  {
    if threads[0].Working? && threads[0].batch != [] {
      t := 0;
    } else {
      assert One(threads[0]).batches == multiset{};
      t := SomeoneWorks(threads[1..]);
      t := t + 1;
    }
  }

  // ---------- the invariant ----------

  ghost predicate AllTrue<T(!new)>(eval: T -> bool, checks: seq<T>) {
    forall c :: c in checks ==> eval(c)
  }

  ghost predicate SomeFalse<T(!new)>(eval: T -> bool, checks: seq<T>) {
    exists c :: c in checks && !eval(c)
  }

  /** Only the master is ever outside, and batches are never empty. */
  ghost predicate PhaseOk<T>(p: Phase<T>, master: bool) {
    && (p.Outside? || p.Notifying? ==> master)
    && (p.Working? ==> p.batch != [] && p.next <= |p.batch|)
  }

  /** The counters mean what their comments say. */
  ghost predicate Counted<T>(s: State<T>) {
    && s.shared.nIdle == Sum(s.threads).idle
    && s.shared.nTotal == Sum(s.threads).inside
    && s.shared.nTodo == |s.shared.queue| + |Sum(s.threads).batches|
  }

  /** A master that waits has nothing to take, and one that is blocked has something to wait for. */
  ghost predicate MasterOk<T>(s: State<T>) {
    && |s.threads| > 0
    && (s.threads[0].Blocked? || s.threads[0].Woken? ==> s.shared.queue == [])
    && (s.threads[0].Blocked? ==> s.shared.nTodo > 0)
  }

  /** What is queued and what is in batches was added in this round. */
  ghost predicate Conserved<T>(s: State<T>, round: seq<T>) {
    multiset(s.shared.queue) + Sum(s.threads).batches <= multiset(round)
  }

  /** The checks of the round whose results are part of allOk. */
  ghost function Folded<T>(s: State<T>, round: seq<T>): multiset<T> {
    multiset(round) - multiset(s.shared.queue) - Sum(s.threads).batches
  }

  ghost predicate FlagOk<T(!new)>(eval: T -> bool, s: State<T>, round: seq<T>) {
    && (s.shared.allOk ==> forall c :: c in Folded(s, round) ==> eval(c))
    && (!s.shared.allOk ==> SomeFalse(eval, round))
  }

  /** A running result is right about the checks already executed, and false only for a reason. */
  ghost predicate BatchOk<T(!new)>(eval: T -> bool, p: Phase<T>, round: seq<T>) {
    p.Working? ==>
      && (p.ok ==> forall k :: 0 <= k < p.next && k < |p.batch| ==> eval(p.batch[k]))
      && (!p.ok ==> SomeFalse(eval, round))
  }

  ghost predicate ThreadsOk<T(!new)>(eval: T -> bool, threads: seq<Phase<T>>, round: seq<T>) {
    forall t :: 0 <= t < |threads| ==> PhaseOk(threads[t], t == 0) && BatchOk(eval, threads[t], round)
  }

  ghost predicate Inv<T(!new)>(eval: T -> bool, s: State<T>, round: seq<T>) {
    Counted(s) && MasterOk(s) && Conserved(s, round) && FlagOk(eval, s, round) && ThreadsOk(eval, s.threads, round)
  }

  ghost predicate NobodyHolds<T>(threads: seq<Phase<T>>) {
    forall t :: 0 <= t < |threads| ==> !threads[t].Holding?
  }

  // ---------- every step keeps it ----------

  /** Replacing a phase by one that holds the same checks and counts the same. */
  lemma {:induction false} Rephase<T(!new)>(eval: T -> bool, s: State<T>, round: seq<T>, t: nat, p: Phase<T>)
    requires Inv(eval, s, round) && t < |s.threads|
    requires PhaseOk(p, t == 0) && BatchOk(eval, p, round)
    requires One(p).idle == One(s.threads[t]).idle && One(p).inside == One(s.threads[t]).inside
    requires One(p).batches == One(s.threads[t]).batches
    requires t == 0 ==> !p.Blocked? && (p.Woken? ==> s.threads[0].Blocked?)
    ensures Inv(eval, s.(threads := s.threads[t := p]), round)
  {
    hide Sum, BatchOk, PhaseOk;
    SumUpdate(s.threads, t, p);
    var u := s.(threads := s.threads[t := p]);
    SameBatches(eval, s, u, round);
    PutPhase(eval, s.threads, round, t, p);
  }

  /** The accounting depends on the queue and on the sum of the batches only. */
  lemma {:induction false} SameBatches<T(!new)>(eval: T -> bool, s: State<T>, u: State<T>, round: seq<T>)
    requires Conserved(s, round) && FlagOk(eval, s, round)
    requires Sum(u.threads).batches == Sum(s.threads).batches
    requires u.shared.queue == s.shared.queue && u.shared.allOk == s.shared.allOk
    ensures Conserved(u, round) && FlagOk(eval, u, round)
  {
    hide Sum;
    assert Folded(u, round) == Folded(s, round);
  }

  lemma {:induction false} PutPhase<T(!new)>(eval: T -> bool, threads: seq<Phase<T>>, round: seq<T>, t: nat, p: Phase<T>)
    requires ThreadsOk(eval, threads, round) && t < |threads|
    requires PhaseOk(p, t == 0) && BatchOk(eval, p, round)
    ensures ThreadsOk(eval, threads[t := p], round)
  {
    hide BatchOk, PhaseOk;
  }

  lemma {:induction false} MultisetSize<T>(q: seq<T>, b: multiset<T>)
    ensures |multiset(q) + b| == |q| + |b|
  {
  }

  lemma {:induction false} LongerRound<T(!new)>(eval: T -> bool, threads: seq<Phase<T>>, round: seq<T>, more: seq<T>)
    requires ThreadsOk(eval, threads, round)
    ensures ThreadsOk(eval, threads, round + more)
    ensures SomeFalse(eval, round) ==> SomeFalse(eval, round + more)
  {
    if SomeFalse(eval, round) {
      var c :| c in round && !eval(c);
      assert c in round + more;
    }
  }

  lemma {:induction false} AddKeeps<T(!new)>(eval: T -> bool, s: State<T>, round: seq<T>, checks: seq<T>)
    requires Inv(eval, s, round) && s.threads[0].Outside? && checks != []
    ensures Inv(eval, State(s.shared.(queue := s.shared.queue + checks, nTodo := s.shared.nTodo + |checks|),
                            s.threads[0 := Notifying(|checks|)]), round + checks)
  {
    hide Sum, BatchOk, PhaseOk, FlagOk, Conserved, ThreadsOk, SomeFalse;
    var sh := s.shared.(queue := s.shared.queue + checks, nTodo := s.shared.nTodo + |checks|);
    var u := State(sh, s.threads[0 := Notifying(|checks|)]);
    SumUpdate(s.threads, 0, Notifying(|checks|));
    AddAccounts(eval, s, u, round, checks);
    LongerRound(eval, s.threads, round, checks);
    SimplePhase(eval, Notifying(|checks|), round + checks, true);
    PutPhase(eval, s.threads, round + checks, 0, Notifying(|checks|));
  }

  lemma {:induction false} AddAccounts<T(!new)>(eval: T -> bool, s: State<T>, u: State<T>, round: seq<T>, checks: seq<T>)
    requires Conserved(s, round) && FlagOk(eval, s, round) && Sum(u.threads).batches == Sum(s.threads).batches
    requires u.shared.queue == s.shared.queue + checks && u.shared.allOk == s.shared.allOk
    ensures Conserved(u, round + checks) && FlagOk(eval, u, round + checks)
  {
    hide Sum, SomeFalse;
    LongerRound(eval, [], round, checks);
    var q, r, c := multiset(s.shared.queue), multiset(round), multiset(checks);
    assert multiset(u.shared.queue) == q + c && multiset(round + checks) == r + c;
    MoreOnBothSides(q, Sum(s.threads).batches, r, c);
    assert Folded(u, round + checks) == Folded(s, round);
  }

  lemma {:induction false} MoreOnBothSides<T>(q: multiset<T>, b: multiset<T>, r: multiset<T>, c: multiset<T>)
    requires q + b <= r
    ensures q + c + b <= r + c && r + c - (q + c) - b == r - q - b
  {
  }

  lemma {:induction false} NotifyAllKeeps<T(!new)>(eval: T -> bool, s: State<T>, round: seq<T>)
    requires Inv(eval, s, round) && s.threads[0].Outside?
    ensures Inv(eval, s.(threads := WakeAll(s.threads)), round)
  {
    var u := s.(threads := WakeAll(s.threads));
    SumWake(s.threads);
    assert Folded(u, round) == Folded(s, round);
    assert ThreadsOk(eval, u.threads, round);
  }

  /** The first half of a critical section. The finished batch becomes part of the folded checks. */
  lemma {:induction false} ArriveKeeps<T(!new)>(eval: T -> bool, s: State<T>, round: seq<T>, t: nat)
    requires Inv(eval, s, round) && t < |s.threads| && MayLock(s.threads[t])
    ensures Inv(eval, Arrive(s, t), round)
    ensures Arrive(s, t).threads[t].Holding?
  {
    hide Sum, One, BatchOk, PhaseOk, Counted, Conserved, FlagOk, ThreadsOk;
    var mid := State(Arrived(s.shared, s.threads[t]), s.threads[t := Holding]);
    if s.threads[t].Working? {
      FoldFlag(eval, s, round, t);
      FoldCounts(s, round, t);
    } else {
      EnterKeeps(eval, s, round, t);
    }
    SimplePhase(eval, Holding, round, t == 0);
    PutPhase(eval, s.threads, round, t, Holding);
    var u := Arrive(s, t);
    if u.threads != mid.threads {
      SimplePhase(eval, Woken, round, true);
      PutPhase(eval, mid.threads, round, 0, Woken);
      WakeMaster(eval, mid, round);
    }
  }

  lemma {:induction false} WakeMaster<T(!new)>(eval: T -> bool, s: State<T>, round: seq<T>)
    requires |s.threads| > 0 && s.threads[0].Blocked? && Counted(s) && Conserved(s, round) && FlagOk(eval, s, round)
    ensures var u := s.(threads := s.threads[0 := Woken]);
      Counted(u) && Conserved(u, round) && FlagOk(eval, u, round)
  {
    hide Sum;
    SumUpdate(s.threads, 0, Woken);
    SameBatches(eval, s, s.(threads := s.threads[0 := Woken]), round);
  }

  lemma {:induction false} EnterKeeps<T(!new)>(eval: T -> bool, s: State<T>, round: seq<T>, t: nat)
    requires t < |s.threads| && (s.threads[t].Entering? || s.threads[t].Woken?)
    requires Counted(s) && Conserved(s, round) && FlagOk(eval, s, round)
    ensures var u := State(Arrived(s.shared, s.threads[t]), s.threads[t := Holding]);
      Counted(u) && Conserved(u, round) && FlagOk(eval, u, round)
  {
    hide Sum;
    SumUpdate(s.threads, t, Holding);
    SameBatches(eval, s, State(Arrived(s.shared, s.threads[t]), s.threads[t := Holding]), round);
  }

  lemma {:induction false} FoldFlag<T(!new)>(eval: T -> bool, s: State<T>, round: seq<T>, t: nat)
    requires Inv(eval, s, round) && t < |s.threads| && s.threads[t].Working? && MayLock(s.threads[t])
    ensures FlagOk(eval, State(Arrived(s.shared, s.threads[t]), s.threads[t := Holding]), round)
  {
    hide Sum, Counted, MasterOk, Conserved, ThreadsOk, SomeFalse, Folded;
    var u := State(Arrived(s.shared, s.threads[t]), s.threads[t := Holding]);
    InvParts(eval, s, round, t);
    if u.shared.allOk {
      forall c | c in Folded(u, round) ensures eval(c) {
        NewlyFolded(s, u, round, t, c);
      }
    }
  }

  lemma {:induction false} NewlyFolded<T>(s: State<T>, u: State<T>, round: seq<T>, t: nat, c: T)
    requires t < |s.threads| && s.threads[t].Working? && u.threads == s.threads[t := Holding]
    requires u.shared.queue == s.shared.queue && c in Folded(u, round)
    ensures c in Folded(s, round) || c in s.threads[t].batch
  {
    hide Sum;
    SumUpdate(s.threads, t, Holding);
    var b, x := Sum(s.threads).batches, multiset(s.threads[t].batch);
    assert Sum(u.threads).batches == b - x;
    FoldedMore(multiset(round), multiset(s.shared.queue), b, x, c);
  }

  lemma {:induction false} FoldedMore<T>(r: multiset<T>, q: multiset<T>, b: multiset<T>, x: multiset<T>, c: T)
    requires x <= b && c in r - q - (b - x)
    ensures c in x || c in r - q - b
  {
  }

  lemma {:induction false} FoldCounts<T(!new)>(s: State<T>, round: seq<T>, t: nat)
    requires Counted(s) && MasterOk(s) && Conserved(s, round) && t < |s.threads| && s.threads[t].Working?
    ensures var u := State(Arrived(s.shared, s.threads[t]), s.threads[t := Holding]);
      && Counted(u) && Conserved(u, round)
      && u.shared.nTodo >= 0
      && u.threads[0] == (if t == 0 then Holding else s.threads[0])
  {
    hide Sum;
    SumUpdate(s.threads, t, Holding);
    TakeOut(multiset(s.shared.queue), Sum(s.threads).batches, s.threads[t].batch, multiset(round));
  }

  lemma {:induction false} TakeOut<T>(q: multiset<T>, b: multiset<T>, batch: seq<T>, r: multiset<T>)
    requires multiset(batch) <= b && q + b <= r
    ensures |b - multiset(batch) + multiset{}| == |b| - |batch|
    ensures q + (b - multiset(batch) + multiset{}) <= r
  {
    var x := multiset(batch);
    assert b - x + multiset{} == b - x;
    assert b - x + x == b;
    assert |b - x| + |x| == |b|;
  }

  /** The second half of a critical section. */
  lemma {:induction false} DecideKeeps<T(!new)>(eval: T -> bool, maxBatch: nat, s: State<T>, round: seq<T>, t: nat)
    requires Inv(eval, s, round) && t < |s.threads| && s.threads[t].Holding?
    ensures s.shared.nTotal + s.shared.nIdle >= 0
    ensures var o := Decided(s.shared, maxBatch, t == 0).1; var u := Decide(s, maxBatch, t);
      && (!o.Returns? ==> Inv(eval, u, round))
      && (o.Returns? ==> Inv(eval, u, []) && (o.result <==> AllTrue(eval, round)))
  {
    var (sh, o) := Decided(s.shared, maxBatch, t == 0);
    match o
    case Returns(_) => ReturnKeeps(eval, maxBatch, s, round);
    case Waits => WaitKeeps(eval, maxBatch, s, round, t);
    case Takes(_, _) => TakeKeeps(eval, maxBatch, s, round, t);
  }

  lemma {:induction false} NoBatches<T(!new)>(eval: T -> bool, s: State<T>, round: seq<T>)
    requires Inv(eval, s, round) && s.shared.queue == [] && s.shared.nTodo == 0
    ensures Sum(s.threads).batches == multiset{}
    ensures Folded(s, round) == multiset(round)
    ensures forall t :: 0 <= t < |s.threads| ==> !s.threads[t].Working?
  {
    hide Sum;
    forall t | 0 <= t < |s.threads| ensures !s.threads[t].Working? {
      SumUpdate(s.threads, t, Holding);
      assert PhaseOk(s.threads[t], t == 0);
      assert |One(s.threads[t]).batches| <= |Sum(s.threads).batches|;
    }
  }

  lemma {:induction false} ReturnKeeps<T(!new)>(eval: T -> bool, maxBatch: nat, s: State<T>, round: seq<T>)
    requires Inv(eval, s, round) && s.threads[0].Holding? && s.shared.queue == [] && s.shared.nTodo == 0
    requires s.shared.nTotal + s.shared.nIdle >= 0
    ensures var u := Decide(s, maxBatch, 0);
      Inv(eval, u, []) && (s.shared.allOk <==> AllTrue(eval, round))
  {
    hide Sum, FlagOk, ThreadsOk, AllTrue, Folded;
    var u := Decide(s, maxBatch, 0);
    NoBatches(eval, s, round);
    ReturnExact(eval, s, round);
    SumUpdate(s.threads, 0, Outside);
    assert Sum(u.threads).batches == multiset{};
    ResetFlag(eval, u);
    NewRound(eval, s.threads, round);
  }

  lemma {:induction false} ResetFlag<T(!new)>(eval: T -> bool, u: State<T>)
    requires u.shared.allOk
    ensures FlagOk(eval, u, [])
  {
    hide Sum;
  }

  lemma {:induction false} ReturnExact<T(!new)>(eval: T -> bool, s: State<T>, round: seq<T>)
    requires FlagOk(eval, s, round) && Folded(s, round) == multiset(round)
    ensures s.shared.allOk <==> AllTrue(eval, round)
  {
    hide Folded;
    if s.shared.allOk {
      forall c | c in round ensures eval(c) {
        assert c in multiset(round);
      }
    }
  }

  lemma {:induction false} NewRound<T(!new)>(eval: T -> bool, threads: seq<Phase<T>>, round: seq<T>)
    requires ThreadsOk(eval, threads, round) && |threads| > 0
    requires forall t :: 0 <= t < |threads| ==> !threads[t].Working?
    ensures ThreadsOk(eval, threads[0 := Outside], [])
  {
    var after := threads[0 := Outside];
    forall t | 0 <= t < |after| ensures PhaseOk(after[t], t == 0) && BatchOk(eval, after[t], []) {
      assert PhaseOk(threads[t], t == 0);
    }
  }

  lemma {:induction false} WaitKeeps<T(!new)>(eval: T -> bool, maxBatch: nat, s: State<T>, round: seq<T>, t: nat)
    requires Inv(eval, s, round) && t < |s.threads| && s.threads[t].Holding?
    requires s.shared.queue == [] && !(t == 0 && s.shared.nTodo == 0)
    requires s.shared.nTotal + s.shared.nIdle >= 0
    ensures Inv(eval, Decide(s, maxBatch, t), round)
  {
    hide Sum, BatchOk, PhaseOk;
    var u := Decide(s, maxBatch, t);
    SumUpdate(s.threads, t, Blocked);
    SameBatches(eval, s, u, round);
    SimplePhase(eval, Blocked, round, t == 0);
    PutPhase(eval, s.threads, round, t, Blocked);
  }

  lemma {:induction false} TakeKeeps<T(!new)>(eval: T -> bool, maxBatch: nat, s: State<T>, round: seq<T>, t: nat)
    requires Inv(eval, s, round) && t < |s.threads| && s.threads[t].Holding? && s.shared.queue != []
    requires s.shared.nTotal + s.shared.nIdle >= 0
    ensures Inv(eval, Decide(s, maxBatch, t), round)
  {
    hide Sum, One, BatchOk, PhaseOk, Counted, Conserved, FlagOk, ThreadsOk, BatchSize;
    var u := Decide(s, maxBatch, t);
    var rest := |u.shared.queue|;
    var p := Working(s.shared.queue[rest..], 0, s.shared.allOk);
    TakeCounts(eval, s, round, t, rest);
    TakenPhase(eval, s, round, t, p);
    PutPhase(eval, s.threads, round, t, p);
  }

  lemma {:induction false} TakenPhase<T(!new)>(eval: T -> bool, s: State<T>, round: seq<T>, t: nat, p: Phase<T>)
    requires FlagOk(eval, s, round) && p.Working? && p.next == 0 && p.batch != [] && p.ok == s.shared.allOk
    ensures PhaseOk(p, t == 0) && BatchOk(eval, p, round)
  {
  }

  lemma {:induction false} TakeCounts<T(!new)>(eval: T -> bool, s: State<T>, round: seq<T>, t: nat, rest: nat)
    requires t < |s.threads| && s.threads[t].Holding? && rest <= |s.shared.queue|
    requires Counted(s) && Conserved(s, round) && FlagOk(eval, s, round)
    ensures var p := Working(s.shared.queue[rest..], 0, s.shared.allOk);
      var u := State(s.shared.(queue := s.shared.queue[..rest]), s.threads[t := p]);
      Counted(u) && Conserved(u, round) && FlagOk(eval, u, round)
  {
    hide Sum;
    var batch := s.shared.queue[rest..];
    var p := Working(batch, 0, s.shared.allOk);
    var u := State(s.shared.(queue := s.shared.queue[..rest]), s.threads[t := p]);
    SumUpdate(s.threads, t, p);
    assert s.shared.queue == u.shared.queue + batch;
    var q, x, b := multiset(u.shared.queue), multiset(batch), Sum(s.threads).batches;
    assert multiset(s.shared.queue) == q + x;
    MoveAcross(q, x, b, multiset(round));
    assert Sum(u.threads).batches == b + x;
    assert |b + x| == |b| + |batch|;
    assert Folded(u, round) == Folded(s, round);
  }

  lemma {:induction false} MoveAcross<T>(q: multiset<T>, x: multiset<T>, b: multiset<T>, r: multiset<T>)
    ensures q + (b + x) == q + x + b && r - q - (b + x) == r - (q + x) - b
  {
  }

  lemma {:induction false} CheckKeeps<T(!new)>(eval: T -> bool, s: State<T>, round: seq<T>, t: nat)
    requires Inv(eval, s, round) && t < |s.threads| && s.threads[t].Working? && s.threads[t].next < |s.threads[t].batch|
    ensures Inv(eval, s.(threads := s.threads[t := Executed(eval, s.threads[t])]), round)
  {
    hide Sum, Inv, FlagOk;
    var p := s.threads[t];
    InvParts(eval, s, round, t);
    ExecutedOk(eval, p, round, t == 0) by {
      SumUpdate(s.threads, t, p);
      InRound(multiset(p.batch), multiset(s.shared.queue), Sum(s.threads).batches, p.batch, round);
    }
    Rephase(eval, s, round, t, Executed(eval, p));
  }

  lemma {:induction false} InvParts<T(!new)>(eval: T -> bool, s: State<T>, round: seq<T>, t: nat)
    requires Inv(eval, s, round) && t < |s.threads|
    ensures Conserved(s, round) && PhaseOk(s.threads[t], t == 0) && BatchOk(eval, s.threads[t], round)
  {
  }

  lemma {:induction false} InRound<T>(x: multiset<T>, q: multiset<T>, b: multiset<T>, batch: seq<T>, round: seq<T>)
    requires x == multiset(batch) && x <= b && q + b <= multiset(round)
    ensures forall c :: c in batch ==> c in round
  {
    forall c | c in batch ensures c in round {
      assert c in x;
      assert c in b;
      assert c in q + b;
      assert c in multiset(round);
    }
  }

  lemma {:induction false} ExecutedOk<T(!new)>(eval: T -> bool, p: Phase<T>, round: seq<T>, master: bool)
    requires p.Working? && p.next < |p.batch| && PhaseOk(p, master) && BatchOk(eval, p, round)
    requires forall c :: c in p.batch ==> c in round
    ensures PhaseOk(Executed(eval, p), master) && BatchOk(eval, Executed(eval, p), round)
  {
    var c := p.batch[p.next];
    assert c in p.batch;
  }

  /** Every step keeps the invariant, and a return gives the conjunction of the round's checks. */
  lemma {:induction false} StepKeeps<T(!new)>(eval: T -> bool, maxBatch: nat, s: State<T>, a: Action<T>, round: seq<T>)
    requires Inv(eval, s, round) && NobodyHolds(s.threads) && Enabled(s, a)
    ensures NobodyHolds(Next(eval, maxBatch, s, a).threads)
    ensures var e := Shows(maxBatch, s, a); var u := Next(eval, maxBatch, s, a);
      match e {
        case None => Inv(eval, u, round)
        case Some(Added(checks)) => Inv(eval, u, round + checks)
        case Some(Returned(result)) => Inv(eval, u, []) && (result <==> AllTrue(eval, round))
      }
  {
    hide Inv, BatchOk, AllTrue;
    match a
    case Add(checks) =>
      if checks == [] {
        assert round + checks == round;
      } else {
        AddKeeps(eval, s, round, checks);
      }
    case Notify(who) => NotifyKeeps(eval, maxBatch, s, round, who);
    case CallWait => Rephase(eval, s, round, 0, Entering) by { SimplePhase(eval, Entering, round, true); }
    case Lock(t) =>
      ArriveKeeps(eval, s, round, t);
      DecideKeeps(eval, maxBatch, Arrive(s, t), round, t);
    case Check(t) => CheckKeeps(eval, s, round, t);
    case Spurious(t) => Rephase(eval, s, round, t, Woken) by { SimplePhase(eval, Woken, round, t == 0); }
  }

  lemma {:induction false} SimplePhase<T(!new)>(eval: T -> bool, p: Phase<T>, round: seq<T>, master: bool)
    requires !p.Working? && (p.Outside? || p.Notifying? ==> master)
    ensures PhaseOk(p, master) && BatchOk(eval, p, round)
  {
  }

  lemma {:induction false} NotifyKeeps<T(!new)>(eval: T -> bool, maxBatch: nat, s: State<T>, round: seq<T>, who: nat)
    requires Inv(eval, s, round) && Enabled(s, Notify(who))
    ensures Inv(eval, Next(eval, maxBatch, s, Notify(who)), round)
  {
    hide Inv, BatchOk;
    SimplePhase(eval, Outside, round, true);
    SimplePhase(eval, Woken, round, false);
    Rephase(eval, s, round, 0, Outside);
    var mid := s.(threads := s.threads[0 := Outside]);
    if s.threads[0].count != 1 {
      NotifyAllKeeps(eval, mid, round);
    } else if who != 0 {
      Rephase(eval, mid, round, who, Woken);
    }
  }

  // ---------- whole runs ----------

  /** The states and events of the interleaving that takes the given actions in order. */
  ghost predicate Legal<T>(eval: T -> bool, maxBatch: nat, s: State<T>, actions: seq<Action<T>>)
    decreases |actions|
  {
    actions == [] ||
    (Enabled(s, actions[0]) && Legal(eval, maxBatch, Next(eval, maxBatch, s, actions[0]), actions[1..]))
  }

  ghost function Run<T>(eval: T -> bool, maxBatch: nat, s: State<T>, actions: seq<Action<T>>): State<T>
    requires Legal(eval, maxBatch, s, actions)
    decreases |actions|
  {
    if actions == [] then s else Run(eval, maxBatch, Next(eval, maxBatch, s, actions[0]), actions[1..])
  }

  ghost function Events<T>(eval: T -> bool, maxBatch: nat, s: State<T>, actions: seq<Action<T>>): seq<Event<T>>
    requires Legal(eval, maxBatch, s, actions)
    decreases |actions|
  {
    if actions == [] then []
    else
      var e := Shows(maxBatch, s, actions[0]);
      (if e.Some? then [e.value] else []) + Events(eval, maxBatch, Next(eval, maxBatch, s, actions[0]), actions[1..])
  }

  /** The checks added since the last return. */
  ghost function Pending<T>(events: seq<Event<T>>): seq<T> {
    if events == [] then []
    else
      var last := events[|events| - 1];
      if last.Returned? then [] else Pending(events[..|events| - 1]) + last.checks
  }

  /** Each return tells whether all checks added since the return before it are true. */
  ghost predicate Truthful<T(!new)>(eval: T -> bool, events: seq<Event<T>>) {
    forall i :: 0 <= i < |events| && events[i].Returned? ==>
      (events[i].result <==> AllTrue(eval, Pending(events[..i])))
  }

  lemma {:induction false} TruthfulMore<T(!new)>(eval: T -> bool, events: seq<Event<T>>, e: Event<T>)
    requires Truthful(eval, events)
    requires e.Returned? ==> (e.result <==> AllTrue(eval, Pending(events)))
    ensures Truthful(eval, events + [e])
  {
    var all := events + [e];
    forall i | 0 <= i < |all| && all[i].Returned? ensures all[i].result <==> AllTrue(eval, Pending(all[..i])) {
      if i < |events| {
        assert all[..i] == events[..i];
      } else {
        assert all[..i] == events;
      }
    }
  }

  /** The events so far and what a step shows. */
  ghost function Shown<T>(maxBatch: nat, s: State<T>, a: Action<T>, before: seq<Event<T>>): seq<Event<T>>
    requires Enabled(s, a)
  {
    var e := Shows(maxBatch, s, a);
    before + if e.Some? then [e.value] else []
  }

  lemma {:induction false} ShownKeeps<T(!new)>(eval: T -> bool, maxBatch: nat, s: State<T>, a: Action<T>, before: seq<Event<T>>)
    requires Inv(eval, s, Pending(before)) && NobodyHolds(s.threads) && Truthful(eval, before) && Enabled(s, a)
    ensures var u := Next(eval, maxBatch, s, a); var events := Shown(maxBatch, s, a, before);
      Inv(eval, u, Pending(events)) && NobodyHolds(u.threads) && Truthful(eval, events)
  {
    hide Inv, NobodyHolds, Truthful, Enabled, AllTrue, Next, Shows;
    StepKeeps(eval, maxBatch, s, a, Pending(before));
    var e := Shows(maxBatch, s, a);
    if e.Some? {
      TruthfulMore(eval, before, e.value);
      assert (before + [e.value])[..|before|] == before;
    } else {
      assert Shown(maxBatch, s, a, before) == before;
    }
  }

  lemma {:induction false} RunKeeps<T(!new)>(eval: T -> bool, maxBatch: nat, s: State<T>, actions: seq<Action<T>>, before: seq<Event<T>>)
    requires Inv(eval, s, Pending(before)) && NobodyHolds(s.threads) && Truthful(eval, before)
    requires Legal(eval, maxBatch, s, actions)
    ensures var events := before + Events(eval, maxBatch, s, actions); var u := Run(eval, maxBatch, s, actions);
      Inv(eval, u, Pending(events)) && NobodyHolds(u.threads) && Truthful(eval, events)
    decreases |actions|
  {
    hide Inv, NobodyHolds, Truthful, Enabled, Pending, Next, Shows;
    if actions == [] {
      assert before + Events(eval, maxBatch, s, actions) == before;
    } else {
      ShownKeeps(eval, maxBatch, s, actions[0], before);
      var u := Next(eval, maxBatch, s, actions[0]);
      var events := Shown(maxBatch, s, actions[0], before);
      RunKeeps(eval, maxBatch, u, actions[1..], events);
      assert before + Events(eval, maxBatch, s, actions) == events + Events(eval, maxBatch, u, actions[1..]);
    }
  }

  lemma {:induction false} StartOk<T(!new)>(eval: T -> bool, workers: nat)
    ensures Inv(eval, Start(workers), []) && NobodyHolds(Start<T>(workers).threads)
  {
    SumStart(Start<T>(workers).threads);
  }

  /** In every interleaving, from the start, of one master and any number of workers, every Wait returns true
      exactly when all checks added since the previous Wait are true. */
  lemma {:induction false} WaitIsExact<T(!new)>(eval: T -> bool, maxBatch: nat, workers: nat, actions: seq<Action<T>>)
    requires Legal(eval, maxBatch, Start(workers), actions)
    ensures Truthful(eval, Events(eval, maxBatch, Start(workers), actions))
  {
    StartOk(eval, workers);
    RunKeeps(eval, maxBatch, Start(workers), actions, []);
    assert [] + Events(eval, maxBatch, Start(workers), actions) == Events(eval, maxBatch, Start(workers), actions);
  }

  /** In every reachable state the counters are exact, and a master that is blocked is owed a notification:
      the queue is empty and some worker holds a batch that is not folded yet. */
  lemma {:induction false} ReachableState<T(!new)>(eval: T -> bool, maxBatch: nat, workers: nat, actions: seq<Action<T>>)
    requires Legal(eval, maxBatch, Start(workers), actions)
    ensures var u := Run(eval, maxBatch, Start(workers), actions);
      && |u.threads| > 0 && Counted(u)
      && Conserved(u, Pending(Events(eval, maxBatch, Start(workers), actions)))
      && (u.threads[0].Blocked? ==>
        u.shared.queue == [] && exists t :: 0 < t < |u.threads| && u.threads[t].Working? && u.threads[t].batch != [])
  {
    StartOk(eval, workers);
    RunKeeps(eval, maxBatch, Start(workers), actions, []);
    assert [] + Events(eval, maxBatch, Start(workers), actions) == Events(eval, maxBatch, Start(workers), actions);
    var u := Run(eval, maxBatch, Start(workers), actions);
    if u.threads[0].Blocked? {
      MultisetSize(u.shared.queue, Sum(u.threads).batches);
      var t := SomeoneWorks(u.threads);
    }
  }

  /** Without a batch nobody is working, and the other way round. */
  lemma {:induction false} NobodyWorks<T(!new)>(threads: seq<Phase<T>>)
    requires forall t :: 0 <= t < |threads| && threads[t].Working? ==> threads[t].batch != []
    ensures Sum(threads).batches == multiset{} <==> forall t :: 0 <= t < |threads| ==> !threads[t].Working?
  {
    hide Sum;
    if Sum(threads).batches != multiset{} {
      var t := SomeoneWorks(threads);
    } else {
      forall t | 0 <= t < |threads| ensures !threads[t].Working? {
        SumUpdate(threads, t, Holding);
        assert |One(threads[t]).batches| <= |Sum(threads).batches|;
      }
    }
  }

  /** Only thread t has a batch that is not folded. */
  ghost predicate WorksAlone<T>(threads: seq<Phase<T>>, t: nat) {
    && t < |threads| && threads[t].Working?
    && forall other :: 0 <= other < |threads| && threads[other].Working? ==> other == t
  }

  lemma {:induction false} AloneAfter<T>(threads: seq<Phase<T>>, t: nat)
    requires t < |threads| && threads[t].Working?
    ensures var after := threads[t := Holding];
      WorksAlone(threads, t) <==> forall k :: 0 <= k < |after| ==> !after[k].Working?
  {
    if !WorksAlone(threads, t) {
      var other :| 0 <= other < |threads| && threads[other].Working? && other != t;
      assert threads[t := Holding][other].Working?;
    }
  }

  lemma {:induction false} LastBatch<T(!new)>(eval: T -> bool, s: State<T>, round: seq<T>, t: nat)
    requires Inv(eval, s, round) && s.shared.queue == [] && t < |s.threads| && s.threads[t].Working?
    ensures s.shared.nTodo == |s.threads[t].batch| <==> WorksAlone(s.threads, t)
  {
    hide Sum, FlagOk, Conserved, BatchOk, MasterOk, WorksAlone;
    var after := s.threads[t := Holding];
    FoldedSize(s.threads, t);
    forall k | 0 <= k < |after| && after[k].Working? ensures after[k].batch != [] {
      assert PhaseOk(s.threads[k], k == 0);
    }
    NobodyWorks(after);
    AloneAfter(s.threads, t);
  }

  lemma {:induction false} FoldedSize<T>(threads: seq<Phase<T>>, t: nat)
    requires t < |threads| && threads[t].Working?
    ensures var left := Sum(threads[t := Holding]).batches;
      |left| == |Sum(threads).batches| - |threads[t].batch| && (|left| == 0 <==> left == multiset{})
  {
    hide Sum;
    SumUpdate(threads, t, Holding);
    TakeOut(multiset{}, Sum(threads).batches, threads[t].batch, Sum(threads).batches);
  }

  /** In every reachable state in which the master is blocked, one step wakes it exactly if the step is a
      spurious wake-up or folds the last batch that is left. */
  lemma {:induction false} WokenByLastFold<T(!new)>(eval: T -> bool, maxBatch: nat, workers: nat, actions: seq<Action<T>>, a: Action<T>)
    requires Legal(eval, maxBatch, Start(workers), actions)
    requires var u := Run(eval, maxBatch, Start(workers), actions); Enabled(u, a) && u.threads[0].Blocked?
    ensures var u := Run(eval, maxBatch, Start(workers), actions); var v := Next(eval, maxBatch, u, a);
      && (v.threads[0].Blocked? || v.threads[0].Woken?)
      && (v.threads[0].Woken? <==> a == Spurious(0) || (a.Lock? && WorksAlone(u.threads, a.thread)))
  {
    hide Sum, Run, Inv, Events, Legal, WorksAlone, BatchSize;
    StartOk(eval, workers);
    RunKeeps(eval, maxBatch, Start(workers), actions, []);
    var u := Run(eval, maxBatch, Start(workers), actions);
    var round := Pending([] + Events(eval, maxBatch, Start(workers), actions));
    BlockedQueue(eval, u, round);
    if a.Lock? && u.threads[a.thread].Working? {
      LastBatch(eval, u, round, a.thread);
    } else if a.Lock? {
      assert !WorksAlone(u.threads, a.thread) by { NotAlone(u.threads, a.thread); }
    }
  }

  lemma {:induction false} NotAlone<T>(threads: seq<Phase<T>>, t: nat)
    requires t < |threads| && !threads[t].Working?
    ensures !WorksAlone(threads, t)
  {
  }

  lemma {:induction false} BlockedQueue<T(!new)>(eval: T -> bool, s: State<T>, round: seq<T>)
    requires Inv(eval, s, round) && |s.threads| > 0 && s.threads[0].Blocked?
    ensures s.shared.queue == []
  {
  }

  // ---------- nobody sleeps while there is work ----------

  ghost predicate SomeoneAwake<T>(threads: seq<Phase<T>>) {
    exists t :: 0 < t < |threads| && !threads[t].Blocked?
  }

  /** If there are workers and checks in the queue, a worker is awake, or the master is about to wake one. */
  ghost predicate Attended<T>(s: State<T>) {
    && |s.threads| > 0
    && (s.threads[0].Notifying? ==> s.threads[0].count > 0)
    && (s.shared.queue == [] || |s.threads| == 1 || s.threads[0].Notifying? || SomeoneAwake(s.threads))
  }

  lemma {:induction false} NotifyAttends<T>(eval: T -> bool, maxBatch: nat, s: State<T>, who: nat)
    requires Attended(s) && Enabled(s, Notify(who))
    ensures Attended(Next(eval, maxBatch, s, Notify(who)))
  {
    var u := Next(eval, maxBatch, s, Notify(who));
    if |s.threads| > 1 {
      if s.threads[0].count != 1 || who == 0 {
        assert !u.threads[1].Blocked?;
      } else {
        assert !u.threads[who].Blocked?;
      }
    }
  }

  lemma {:induction false} LockAttends<T>(eval: T -> bool, maxBatch: nat, s: State<T>, t: nat)
    requires Attended(s) && Enabled(s, Lock(t))
    ensures Attended(Next(eval, maxBatch, s, Lock(t)))
  {
    hide BatchSize;
    var mid := Arrive(s, t);
    var u := Next(eval, maxBatch, s, Lock(t));
    if u.shared.queue != [] && |s.threads| > 1 {
      if t != 0 {
        assert !u.threads[t].Blocked?;
      } else {
        var k :| 0 < k < |s.threads| && !s.threads[k].Blocked?;
        assert u.threads[k] == s.threads[k];
      }
    }
  }

  lemma {:induction false} StepAttends<T>(eval: T -> bool, maxBatch: nat, s: State<T>, a: Action<T>)
    requires Attended(s) && Enabled(s, a)
    ensures Attended(Next(eval, maxBatch, s, a))
  {
    hide Arrive, Decide;
    match a
    case Notify(who) => NotifyAttends(eval, maxBatch, s, who);
    case Lock(t) => LockAttends(eval, maxBatch, s, t);
    case _ =>
      var u := Next(eval, maxBatch, s, a);
      if k :| 0 < k < |s.threads| && !s.threads[k].Blocked? {
        assert !u.threads[k].Blocked?;
      }
  }

  lemma {:induction false} RunAttends<T>(eval: T -> bool, maxBatch: nat, s: State<T>, actions: seq<Action<T>>)
    requires Attended(s) && Legal(eval, maxBatch, s, actions)
    ensures Attended(Run(eval, maxBatch, s, actions))
    decreases |actions|
  {
    hide Attended, Enabled, Next;
    if actions != [] {
      StepAttends(eval, maxBatch, s, actions[0]);
      RunAttends(eval, maxBatch, Next(eval, maxBatch, s, actions[0]), actions[1..]);
    }
  }

  /** In every reachable state with checks in the queue, unless the master is just notifying, some worker is awake. */
  lemma {:induction false} NobodySleeps<T>(eval: T -> bool, maxBatch: nat, workers: nat, actions: seq<Action<T>>)
    requires Legal(eval, maxBatch, Start(workers), actions) && workers > 0
    ensures var u := Run(eval, maxBatch, Start(workers), actions);
      |u.threads| > 0 && (u.shared.queue != [] && !u.threads[0].Notifying? ==> SomeoneAwake(u.threads))
  {
    hide Legal, Run;
    RunAttends(eval, maxBatch, Start(workers), actions);
    RunThreads(eval, maxBatch, Start(workers), actions);
  }

  lemma {:induction false} RunThreads<T>(eval: T -> bool, maxBatch: nat, s: State<T>, actions: seq<Action<T>>)
    requires Legal(eval, maxBatch, s, actions)
    ensures |Run(eval, maxBatch, s, actions).threads| == |s.threads|
    decreases |actions|
  {
    if actions != [] {
      StepThreads(eval, maxBatch, s, actions[0]);
      RunThreads(eval, maxBatch, Next(eval, maxBatch, s, actions[0]), actions[1..]);
    }
  }

  lemma {:induction false} StepThreads<T>(eval: T -> bool, maxBatch: nat, s: State<T>, a: Action<T>)
    requires Enabled(s, a)
    ensures |Next(eval, maxBatch, s, a).threads| == |s.threads|
  {
    hide BatchSize;
  }

  /** The notification after an Add: one check wakes one blocked worker, if there is one, and several wake all. */
  lemma {:induction false} NotifyWakes<T>(eval: T -> bool, maxBatch: nat, s: State<T>, who: nat)
    requires Enabled(s, Notify(who))
    ensures var u := Next(eval, maxBatch, s, Notify(who)); var blocked := exists t :: 0 < t < |s.threads| && s.threads[t].Blocked?;
      && u.shared == s.shared && |u.threads| == |s.threads| && u.threads[0].Outside?
      && (s.threads[0].count == 1 && blocked ==>
        0 < who < |s.threads| && s.threads[who].Blocked? && u.threads == s.threads[0 := Outside][who := Woken])
      && (s.threads[0].count == 1 && !blocked ==> u.threads == s.threads[0 := Outside])
      && (s.threads[0].count > 1 ==>
        forall t :: 0 < t < |s.threads| ==> u.threads[t] == if s.threads[t].Blocked? then Woken else s.threads[t])
  {
  }

  // ---------- Wait ends ----------

  ghost predicate InWait<T>(s: State<T>) {
    |s.threads| > 0 && !s.threads[0].Outside? && !s.threads[0].Notifying?
  }

  /** A bound on the steps that can still be taken before Wait returns. */
  ghost function Effort<T>(s: State<T>): nat {
    3 * |s.shared.queue| + Sum(s.threads).effort
  }

  /** During a Wait some thread can always take a step: there is no deadlock. */
  lemma {:induction false} NoDeadlock<T(!new)>(eval: T -> bool, s: State<T>, round: seq<T>)
    requires Inv(eval, s, round) && NobodyHolds(s.threads) && InWait(s)
    ensures exists t :: 0 <= t < |s.threads| && (Enabled(s, Lock(t)) || Enabled(s, Check(t)))
  {
    var t := 0;
    if s.threads[0].Blocked? {
      MultisetSize(s.shared.queue, Sum(s.threads).batches);
      t := SomeoneWorks(s.threads);
    }
    assert PhaseOk(s.threads[t], t == 0);
    if MayLock(s.threads[t]) {
      ArriveKeeps(eval, s, round, t);
      assert Counted(Arrive(s, t));
      assert Enabled(s, Lock(t));
    } else {
      assert Enabled(s, Check(t));
    }
  }

  /** Each step of a critical section or of a check brings the return nearer; a spurious wake-up takes it
      one step further away. */
  lemma {:induction false} EffortDrops<T(!new)>(eval: T -> bool, maxBatch: nat, s: State<T>, round: seq<T>, a: Action<T>)
    requires Inv(eval, s, round) && InWait(s) && Enabled(s, a)
    ensures var u := Next(eval, maxBatch, s, a);
      if a.Spurious? then Effort(u) == Effort(s) + 1 && InWait(u)
      else Effort(u) < Effort(s) && (InWait(u) || (exists b :: Shows(maxBatch, s, a) == Some(Returned(b))))
  {
    hide Sum, One, Inv, Executed;
    match a
    case Lock(t) => LockEffort(eval, maxBatch, s, round, t);
    case Check(t) => CheckEffort(eval, s.threads, t);
    case Spurious(t) => SpuriousEffort(s.threads, t);
  }

  lemma {:induction false} CheckEffort<T>(eval: T -> bool, threads: seq<Phase<T>>, t: nat)
    requires t < |threads| && threads[t].Working? && threads[t].next < |threads[t].batch|
    ensures Executed(eval, threads[t]).Working?
    ensures Sum(threads[t := Executed(eval, threads[t])]).effort == Sum(threads).effort - 1
  {
    hide Sum;
    SumUpdate(threads, t, Executed(eval, threads[t]));
  }

  lemma {:induction false} SpuriousEffort<T>(threads: seq<Phase<T>>, t: nat)
    requires t < |threads| && threads[t].Blocked?
    ensures Sum(threads[t := Woken]).effort == Sum(threads).effort + 1
  {
    hide Sum;
    SumUpdate(threads, t, Woken);
  }

  lemma {:induction false} LockEffort<T(!new)>(eval: T -> bool, maxBatch: nat, s: State<T>, round: seq<T>, t: nat)
    requires Inv(eval, s, round) && InWait(s) && Enabled(s, Lock(t))
    ensures var u := Next(eval, maxBatch, s, Lock(t));
      Effort(u) < Effort(s) && (InWait(u) || (exists b :: Shows(maxBatch, s, Lock(t)) == Some(Returned(b))))
  {
    hide Inv, Sum, Arrive, BatchSize;
    ArriveEffort(s, t);
    var mid := Arrive(s, t);
    var (sh, o) := Decided(mid.shared, maxBatch, t == 0);
    SumUpdate(mid.threads, t, PhaseAfter(o));
    if o.Returns? {
      assert Shows(maxBatch, s, Lock(t)) == Some(Returned(o.result));
    }
  }

  lemma {:induction false} ArriveEffort<T>(s: State<T>, t: nat)
    requires t < |s.threads| && MayLock(s.threads[t]) && InWait(s)
    ensures Effort(Arrive(s, t)) <= Effort(s)
    ensures |Arrive(s, t).threads| == |s.threads| && Arrive(s, t).threads[t].Holding? && InWait(Arrive(s, t))
  {
    hide Sum, One;
    var mid := s.threads[t := Holding];
    HoldEffort(s.threads, t);
    if mid[0].Blocked? {
      SpuriousEffort(mid, 0);
    }
  }

  lemma {:induction false} HoldEffort<T>(threads: seq<Phase<T>>, t: nat)
    requires t < |threads| && MayLock(threads[t])
    ensures Sum(threads[t := Holding]).effort == Sum(threads).effort - if threads[t].Working? then 1 else 0
  {
    hide Sum;
    SumUpdate(threads, t, Holding);
  }

  ghost function SpuriousWakes<T>(actions: seq<Action<T>>): nat {
    if actions == [] then 0 else (if actions[0].Spurious? then 1 else 0) + SpuriousWakes(actions[1..])
  }

  /** Every interleaving of a Wait that has not returned is short: with no spurious wake-ups it takes at most
      Effort(s) steps, and each spurious wake-up makes room for one more besides itself. With NoDeadlock,
      Wait returns under every schedule. */
  lemma {:induction false} WaitEnds<T(!new)>(eval: T -> bool, maxBatch: nat, s: State<T>, round: seq<T>, actions: seq<Action<T>>)
    requires Inv(eval, s, round) && NobodyHolds(s.threads) && InWait(s) && Legal(eval, maxBatch, s, actions)
    requires Events(eval, maxBatch, s, actions) == []
    ensures |actions| <= Effort(s) + 2 * SpuriousWakes(actions)
    decreases |actions|
  {
    hide Inv, NobodyHolds, Enabled, Effort;
    if actions != [] {
      var a := actions[0];
      StepKeeps(eval, maxBatch, s, a, round);
      EffortDrops(eval, maxBatch, s, round, a);
      WaitEnds(eval, maxBatch, Next(eval, maxBatch, s, a), round, actions[1..]);
    }
  }
}
