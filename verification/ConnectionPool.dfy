/** The bounded connection pool shared by worker threads, one atomic step of one
    thread at a time, under every interleaving. */
module ConnectionPool {
  import opened Numbers
  import opened Outcomes

  type Conn = nat

  /** The shard pool records its peak in the same critical section as the checkout;
      the service pool does so in a later one. */
  datatype Kind = Shard | Service

  datatype Outcome = Succeeded | SqlFailed | TimedOut

  /** Where a worker is in its attempt. */
  datatype Pc =
    | Start
    | Waiting
    | Refused
    | Admitted
    | Uncounted
    | Permitted
    | Holding(conn: Conn)
    | Seen(conn: Conn, seen: nat)
    | Ready(conn: Conn)
    | Worked(conn: Conn, ok: bool)
    | Finishing(conn: Conn, ok: bool)
    | Returned(ok: bool)
    | CheckedIn(ok: bool)
    | Finished(outcome: Outcome)

  datatype Counters = Counters(attempts: nat, measured: nat, failed: nat, timeout: nat, success: nat, sqlError: nat)

  /** `high` is the largest number of connections ever checked out at once; the
      program does not keep it. */
  datatype Shared = Shared(permits: nat, idle: seq<Conn>, checkedOut: int, peak: int, high: int, counters: Counters)

  function CheckOut(s: Shared): Shared {
    s.(checkedOut := s.checkedOut + 1, high := Max(s.high, s.checkedOut + 1))
  }

  /** The counters of the service pool change under a lock. Those of the shard pool do
      not, and may lose updates: they are not part of the model. */
  function Tally(kind: Kind, s: Shared, k: Counters): Shared {
    if kind == Service then s.(counters := k) else s
  }

  /** One atomic step. `choice` is what the step depends on besides the shared state:
      at the semaphore, to take a permit or to time out; at the SQL, to succeed or to
      fail. Nothing happens when the step would block, and a release beyond the bound
      of the semaphore would raise. */
  function Step(kind: Kind, size: nat, s: Shared, pc: Pc, choice: bool): Option<(Shared, Pc)> {
    var k := s.counters;
    match pc
    case Start => Some((Tally(kind, s, k.(attempts := k.attempts + 1)), Waiting))
    case Waiting =>
      if !choice then Some((s, Refused))
      else if s.permits == 0 then None
      else Some((s.(permits := s.permits - 1), Admitted))
    case Refused => Some((Tally(kind, s, k.(measured := k.measured + 1)), Uncounted))
    case Uncounted => Some((Tally(kind, s, k.(failed := k.failed + 1, timeout := k.timeout + 1)), Finished(TimedOut)))
    case Admitted => Some((Tally(kind, s, k.(measured := k.measured + 1)), Permitted))
    case Permitted => if s.idle == [] then None else Some((s.(idle := s.idle[1..]), Holding(s.idle[0])))
    case Holding(c) =>
      var n := s.checkedOut + 1;
      if kind == Shard then Some((CheckOut(s).(peak := Max(s.peak, n)), Ready(c)))
      else if n < 0 then None
      else Some((CheckOut(s), Seen(c, n)))
    case Seen(c, n) => Some((s.(peak := Max(s.peak, n)), Ready(c)))
    case Ready(c) => Some((s, Worked(c, choice)))
    case Worked(c, ok) =>
      Some((Tally(kind, s, if ok then k.(success := k.success + 1) else k.(sqlError := k.sqlError + 1)), Finishing(c, ok)))
    case Finishing(c, ok) => Some((s.(idle := s.idle + [c]), Returned(ok)))
    case Returned(ok) => Some((s.(checkedOut := s.checkedOut - 1), CheckedIn(ok)))
    case CheckedIn(ok) =>
      if s.permits >= size then None
      else Some((s.(permits := s.permits + 1), Finished(if ok then Succeeded else SqlFailed)))
    case Finished(_) => None
  }

  datatype State = State(shared: Shared, pcs: seq<Pc>)

  function Exec(kind: Kind, size: nat, s: State, thread: nat, choice: bool): State {
    if thread >= |s.pcs| then s
    else
      match Step(kind, size, s.shared, s.pcs[thread], choice)
      case None => s
      case Some((shared, pc)) => State(shared, s.pcs[thread := pc])
  }

  type Schedule = seq<(nat, bool)>

  function Run(kind: Kind, size: nat, s: State, schedule: Schedule): State {
    if schedule == [] then s
    else
      var n := |schedule| - 1;
      Exec(kind, size, Run(kind, size, s, schedule[..n]), schedule[n].0, schedule[n].1)
  }

  function Initial(connections: seq<Conn>, threads: nat): State {
    State(Shared(|connections|, connections, 0, 0, 0, Counters(0, 0, 0, 0, 0, 0)), seq(threads, _ => Start))
  }

  // ---------------------------------------------------------------- who holds what

  predicate HasPermit(pc: Pc) {
    pc.Admitted? || pc.Permitted? || HasConnection(pc) || pc.Returned? || pc.CheckedIn?
  }

  predicate HasConnection(pc: Pc) {
    pc.Holding? || pc.Seen? || pc.Ready? || pc.Worked? || pc.Finishing?
  }

  predicate IsCheckedOut(pc: Pc) {
    pc.Seen? || pc.Ready? || pc.Worked? || pc.Finishing? || pc.Returned?
  }

  predicate HasAttempted(pc: Pc) {
    !pc.Start?
  }

  predicate IsMeasured(pc: Pc) {
    !pc.Start? && !pc.Waiting? && !pc.Refused? && !pc.Admitted?
  }

  predicate HasTimedOut(pc: Pc) {
    pc == Finished(TimedOut)
  }

  predicate HasSucceeded(pc: Pc) {
    pc == Finished(Succeeded) || ((pc.Finishing? || pc.Returned? || pc.CheckedIn?) && pc.ok)
  }

  predicate HasFailedSql(pc: Pc) {
    pc == Finished(SqlFailed) || ((pc.Finishing? || pc.Returned? || pc.CheckedIn?) && !pc.ok)
  }

  function Count(pcs: seq<Pc>, f: Pc -> bool): (n: nat)
    ensures n <= |pcs|
  {
    if pcs == [] then 0 else Count(pcs[..|pcs| - 1], f) + One(f(pcs[|pcs| - 1]))
  }

  function HeldBy(pc: Pc): multiset<Conn> {
    if HasConnection(pc) then multiset{pc.conn} else multiset{}
  }

  function Held(pcs: seq<Pc>): multiset<Conn> {
    if pcs == [] then multiset{} else Held(pcs[..|pcs| - 1]) + HeldBy(pcs[|pcs| - 1])
  }

  function PendingPeak(pcs: seq<Pc>): int {
    if pcs == [] then 0
    else Max(PendingPeak(pcs[..|pcs| - 1]), SeenBy(pcs[|pcs| - 1]))
  }

  function One(b: bool): nat {
    if b then 1 else 0
  }

  lemma {:induction false} CountUpdate(pcs: seq<Pc>, t: nat, pc: Pc, f: Pc -> bool)
    requires t < |pcs|
    ensures Count(pcs[t := pc], f) == Count(pcs, f) - One(f(pcs[t])) + One(f(pc))
  {
    var n := |pcs| - 1;
    if t < n {
      CountUpdate(pcs[..n], t, pc, f);
      assert pcs[t := pc][..n] == pcs[..n][t := pc];
    } else {
      assert pcs[t := pc][..n] == pcs[..n];
    }
  }

  lemma SumSwap(a: multiset<Conn>, b: multiset<Conn>, c: multiset<Conn>, d: multiset<Conn>, l: multiset<Conn>)
    requires a + b == c + d
    ensures a + l + b == c + l + d
  {
    forall x ensures (a + l + b)[x] == (c + l + d)[x] {
      assert (a + b)[x] == (c + d)[x];
    }
  }

  lemma SumSwapLast(a: multiset<Conn>, b: multiset<Conn>, c: multiset<Conn>)
    ensures a + b + c == a + c + b
  {
    forall x ensures (a + b + c)[x] == (a + c + b)[x] {
    }
  }

  lemma HeldLast(pcs: seq<Pc>, n: nat)
    requires n < |pcs| && n == |pcs| - 1
    ensures Held(pcs) == Held(pcs[..n]) + HeldBy(pcs[n])
  {
  }

  lemma {:induction false} HeldUpdate(pcs: seq<Pc>, t: nat, pc: Pc)
    requires t < |pcs|
    ensures Held(pcs[t := pc]) + HeldBy(pcs[t]) == Held(pcs) + HeldBy(pc)
  {
    var n, updated := |pcs| - 1, pcs[t := pc];
    HeldLast(pcs, n);
    HeldLast(updated, n);
    if t < n {
      HeldUpdate(pcs[..n], t, pc);
      assert updated[..n] == pcs[..n][t := pc] && updated[n] == pcs[n];
      SumSwap(Held(updated[..n]), HeldBy(pcs[t]), Held(pcs[..n]), HeldBy(pc), HeldBy(pcs[n]));
    } else {
      assert updated[..n] == pcs[..n];
      SumSwapLast(Held(pcs[..n]), HeldBy(pc), HeldBy(pcs[n]));
    }
  }

  function SeenBy(pc: Pc): int {
    if pc.Seen? then pc.seen else 0
  }

  lemma {:induction false} PendingUpdate(pcs: seq<Pc>, t: nat, pc: Pc)
    requires t < |pcs|
    ensures Max(PendingPeak(pcs[t := pc]), SeenBy(pcs[t])) == Max(PendingPeak(pcs), SeenBy(pc))
  {
    var n := |pcs| - 1;
    if t < n {
      PendingUpdate(pcs[..n], t, pc);
      assert pcs[t := pc][..n] == pcs[..n][t := pc];
    } else {
      assert pcs[t := pc][..n] == pcs[..n];
    }
  }

  lemma {:induction false} HeldSize(pcs: seq<Pc>)
    ensures |Held(pcs)| == Count(pcs, HasConnection)
  {
    if pcs != [] {
      HeldSize(pcs[..|pcs| - 1]);
    }
  }

  lemma {:induction false} CountImplies(pcs: seq<Pc>, f: Pc -> bool, g: Pc -> bool)
    requires forall pc :: f(pc) ==> g(pc)
    ensures Count(pcs, f) <= Count(pcs, g)
  {
    if pcs != [] {
      CountImplies(pcs[..|pcs| - 1], f, g);
    }
  }

  /** A thread that has g but not f makes g strictly more frequent. */
  lemma {:induction false} CountStrict(pcs: seq<Pc>, f: Pc -> bool, g: Pc -> bool, t: nat)
    requires (forall pc :: f(pc) ==> g(pc)) && t < |pcs| && g(pcs[t]) && !f(pcs[t])
    ensures Count(pcs, f) < Count(pcs, g)
  {
    var n := |pcs| - 1;
    if t < n {
      CountStrict(pcs[..n], f, g, t);
    } else {
      CountImplies(pcs[..n], f, g);
    }
  }

  lemma {:induction false} CountAll(pcs: seq<Pc>, f: Pc -> bool, b: bool)
    requires forall i | 0 <= i < |pcs| :: f(pcs[i]) == b
    ensures Count(pcs, f) == if b then |pcs| else 0
  {
    if pcs != [] {
      CountAll(pcs[..|pcs| - 1], f, b);
    }
  }

  // ---------------------------------------------------------------- the invariant

  predicate PermitsOk(size: nat, s: State) {
    s.shared.permits + Count(s.pcs, HasPermit) == size
  }

  predicate ConnectionsOk(connections: seq<Conn>, s: State) {
    multiset(s.shared.idle) + Held(s.pcs) == multiset(connections)
  }

  predicate CheckoutsOk(s: State) {
    s.shared.checkedOut == Count(s.pcs, IsCheckedOut)
  }

  predicate AttemptsOk(s: State) {
    var k := s.shared.counters;
    k.attempts == Count(s.pcs, HasAttempted) && k.measured == Count(s.pcs, IsMeasured)
  }

  predicate OutcomesOk(s: State) {
    var k := s.shared.counters;
    && k.failed == k.timeout == Count(s.pcs, HasTimedOut)
    && k.success == Count(s.pcs, HasSucceeded)
    && k.sqlError == Count(s.pcs, HasFailedSql)
  }

  /** No checkout count is forgotten: it is the recorded peak or still to be recorded. */
  predicate PeakOk(size: nat, s: State) {
    && s.shared.high == Max(s.shared.peak, PendingPeak(s.pcs))
    && 0 <= s.shared.peak <= s.shared.high <= size && s.shared.checkedOut <= s.shared.high
  }

  predicate Inv(kind: Kind, connections: seq<Conn>, s: State) {
    && PermitsOk(|connections|, s) && ConnectionsOk(connections, s) && CheckoutsOk(s)
    && (kind == Service ==> AttemptsOk(s) && OutcomesOk(s)) && PeakOk(|connections|, s)
  }

  /** Thread t moves from one point to the next. */
  predicate Moves(kind: Kind, size: nat, s: State, t: nat, choice: bool, s': State) {
    && t < |s.pcs| && |s'.pcs| == |s.pcs| && s'.pcs == s.pcs[t := s'.pcs[t]]
    && Step(kind, size, s.shared, s.pcs[t], choice) == Some((s'.shared, s'.pcs[t]))
  }

  lemma PermitsKept(kind: Kind, size: nat, s: State, t: nat, choice: bool, s': State)
    requires PermitsOk(size, s) && Moves(kind, size, s, t, choice, s')
    ensures PermitsOk(size, s')
  {
    CountUpdate(s.pcs, t, s'.pcs[t], HasPermit);
  }

  lemma CheckoutsKept(kind: Kind, size: nat, s: State, t: nat, choice: bool, s': State)
    requires CheckoutsOk(s) && Moves(kind, size, s, t, choice, s')
    ensures CheckoutsOk(s')
  {
    CountUpdate(s.pcs, t, s'.pcs[t], IsCheckedOut);
  }

  lemma AttemptsKept(kind: Kind, size: nat, s: State, t: nat, choice: bool, s': State)
    requires kind == Service && AttemptsOk(s) && Moves(kind, size, s, t, choice, s')
    ensures AttemptsOk(s')
  {
    CountUpdate(s.pcs, t, s'.pcs[t], HasAttempted);
    CountUpdate(s.pcs, t, s'.pcs[t], IsMeasured);
  }

  lemma OutcomesKept(kind: Kind, size: nat, s: State, t: nat, choice: bool, s': State)
    requires kind == Service && OutcomesOk(s) && Moves(kind, size, s, t, choice, s')
    ensures OutcomesOk(s')
  {
    var pc, pc' := s.pcs[t], s'.pcs[t];
    CountUpdate(s.pcs, t, pc', HasTimedOut);
    CountUpdate(s.pcs, t, pc', HasSucceeded);
    CountUpdate(s.pcs, t, pc', HasFailedSql);
    OutcomeCounted(kind, size, s.shared, pc, choice, s'.shared, pc');
  }

  /** A step adds to a counter exactly when it settles that outcome. */
  lemma OutcomeCounted(kind: Kind, size: nat, s: Shared, pc: Pc, choice: bool, s': Shared, pc': Pc)
    requires kind == Service && Step(kind, size, s, pc, choice) == Some((s', pc'))
    ensures var k, k' := s.counters, s'.counters;
            && k'.failed - k.failed == k'.timeout - k.timeout == One(HasTimedOut(pc')) - One(HasTimedOut(pc))
            && k'.success - k.success == One(HasSucceeded(pc')) - One(HasSucceeded(pc))
            && k'.sqlError - k.sqlError == One(HasFailedSql(pc')) - One(HasFailedSql(pc))
  {
  }

  /** A connection goes from the idle ones to a holder, or back. */
  lemma ConnectionMoves(idle: multiset<Conn>, held: multiset<Conn>, idle': multiset<Conn>, held': multiset<Conn>,
                        was: multiset<Conn>, now: multiset<Conn>)
    requires held' + was == held + now && idle' + now == idle + was
    ensures idle' + held' == idle + held
  {
    forall x ensures (idle' + held')[x] == (idle + held)[x] {
      assert (held' + was)[x] == (held + now)[x] && (idle' + now)[x] == (idle + was)[x];
    }
  }

  lemma IdleKept(kind: Kind, size: nat, s: Shared, pc: Pc, choice: bool, s': Shared, pc': Pc)
    requires Step(kind, size, s, pc, choice) == Some((s', pc'))
    ensures multiset(s'.idle) + HeldBy(pc') == multiset(s.idle) + HeldBy(pc)
  {
    if pc.Permitted? {
      assert HeldBy(pc) == multiset{} && HeldBy(pc') == multiset{s.idle[0]};
      FirstTaken(s.idle);
    } else if pc.Finishing? {
      assert HeldBy(pc) == multiset{pc.conn} && HeldBy(pc') == multiset{};
      LastPut(s.idle, pc.conn);
    } else {
      OthersHold(kind, size, s, pc, choice, s', pc');
    }
  }

  lemma OthersHold(kind: Kind, size: nat, s: Shared, pc: Pc, choice: bool, s': Shared, pc': Pc)
    requires Step(kind, size, s, pc, choice) == Some((s', pc')) && !pc.Permitted? && !pc.Finishing?
    ensures s'.idle == s.idle && HasConnection(pc') == HasConnection(pc)
    ensures HasConnection(pc) ==> pc'.conn == pc.conn
  {
  }

  lemma FirstTaken(idle: seq<Conn>)
    requires idle != []
    ensures multiset(idle[1..]) + multiset{idle[0]} == multiset(idle) + multiset{}
  {
    assert idle == [idle[0]] + idle[1..];
  }

  lemma LastPut(idle: seq<Conn>, c: Conn)
    ensures multiset(idle + [c]) + multiset{} == multiset(idle) + multiset{c}
  {
  }

  lemma ConnectionsKept(kind: Kind, connections: seq<Conn>, s: State, t: nat, choice: bool, s': State)
    requires ConnectionsOk(connections, s) && Moves(kind, |connections|, s, t, choice, s')
    ensures ConnectionsOk(connections, s')
  {
    HeldUpdate(s.pcs, t, s'.pcs[t]);
    IdleKept(kind, |connections|, s.shared, s.pcs[t], choice, s'.shared, s'.pcs[t]);
    ConnectionMoves(multiset(s.shared.idle), Held(s.pcs), multiset(s'.shared.idle), Held(s'.pcs), HeldBy(s.pcs[t]), HeldBy(s'.pcs[t]));
  }

  /** The checkout that a thread is about to make is within the bound. */
  lemma RoomToCheckOut(size: nat, s: State, t: nat)
    requires PermitsOk(size, s) && CheckoutsOk(s) && t < |s.pcs| && s.pcs[t].Holding?
    ensures 0 <= s.shared.checkedOut < size
  {
    CountStrict(s.pcs, IsCheckedOut, HasPermit, t);
  }

  /** How one step moves the checkout count, its history and what is to be recorded. */
  lemma PeakStep(kind: Kind, size: nat, s: Shared, pc: Pc, choice: bool, s': Shared, pc': Pc)
    requires Step(kind, size, s, pc, choice) == Some((s', pc')) && s.peak >= 0
    ensures if pc.Holding? then
              && s'.checkedOut == s.checkedOut + 1 && s'.high == Max(s.high, s.checkedOut + 1)
              && Max(s'.peak, SeenBy(pc')) == Max(s.peak, s.checkedOut + 1) && (s'.peak == s.peak || SeenBy(pc') == 0)
            else
              && s'.checkedOut <= s.checkedOut && s'.high == s.high && SeenBy(pc') == 0
              && s'.peak == if pc.Seen? then Max(s.peak, SeenBy(pc)) else s.peak
  {
  }

  lemma PeakKept(kind: Kind, size: nat, s: State, t: nat, choice: bool, s': State)
    requires PermitsOk(size, s) && CheckoutsOk(s) && PeakOk(size, s) && Moves(kind, size, s, t, choice, s')
    ensures PeakOk(size, s')
  {
    PeakStep(kind, size, s.shared, s.pcs[t], choice, s'.shared, s'.pcs[t]);
    PendingUpdate(s.pcs, t, s'.pcs[t]);
    PendingPositive(s.pcs);
    PendingPositive(s'.pcs);
    if s.pcs[t].Holding? {
      RoomToCheckOut(size, s, t);
    }
  }

  lemma {:induction false} PendingPositive(pcs: seq<Pc>)
    ensures PendingPeak(pcs) >= 0
  {
    if pcs != [] {
      PendingPositive(pcs[..|pcs| - 1]);
    }
  }

  lemma ExecKeepsInv(kind: Kind, connections: seq<Conn>, s: State, t: nat, choice: bool)
    requires Inv(kind, connections, s)
    ensures Inv(kind, connections, Exec(kind, |connections|, s, t, choice))
  {
    var size, s' := |connections|, Exec(kind, |connections|, s, t, choice);
    if t < |s.pcs| && Step(kind, size, s.shared, s.pcs[t], choice).Some? {
      assert Moves(kind, size, s, t, choice, s');
      PermitsKept(kind, size, s, t, choice, s');
      ConnectionsKept(kind, connections, s, t, choice, s');
      CheckoutsKept(kind, size, s, t, choice, s');
      if kind == Service {
        AttemptsKept(kind, size, s, t, choice, s');
        OutcomesKept(kind, size, s, t, choice, s');
      }
      PeakKept(kind, size, s, t, choice, s');
    }
  }

  lemma InitialInv(kind: Kind, connections: seq<Conn>, threads: nat)
    ensures Inv(kind, connections, Initial(connections, threads))
  {
    var pcs := Initial(connections, threads).pcs;
    CountAll(pcs, HasPermit, false);
    CountAll(pcs, IsCheckedOut, false);
    CountAll(pcs, HasAttempted, false);
    CountAll(pcs, IsMeasured, false);
    CountAll(pcs, HasTimedOut, false);
    CountAll(pcs, HasSucceeded, false);
    CountAll(pcs, HasFailedSql, false);
    NothingHeld(pcs);
  }

  lemma {:induction false} NothingHeld(pcs: seq<Pc>)
    requires forall i | 0 <= i < |pcs| :: !HasConnection(pcs[i])
    ensures Held(pcs) == multiset{} && PendingPeak(pcs) == 0
  {
    if pcs != [] {
      NothingHeld(pcs[..|pcs| - 1]);
    }
  }

  lemma {:induction false} RunInv(kind: Kind, connections: seq<Conn>, threads: nat, schedule: Schedule)
    ensures var s := Run(kind, |connections|, Initial(connections, threads), schedule);
            Inv(kind, connections, s) && |s.pcs| == threads
  {
    if schedule == [] {
      InitialInv(kind, connections, threads);
    } else {
      var n := |schedule| - 1;
      RunInv(kind, connections, threads, schedule[..n]);
      ExecKeepsInv(kind, connections, Run(kind, |connections|, Initial(connections, threads), schedule[..n]), schedule[n].0, schedule[n].1);
    }
  }

  // ---------------------------------------------------------------- what every interleaving keeps

  /** Idle and held connections add up to the pool, and the checkouts stay within it. */
  lemma PoolSafe(kind: Kind, connections: seq<Conn>, threads: nat, schedule: Schedule)
    ensures var s := Run(kind, |connections|, Initial(connections, threads), schedule);
            && |s.shared.idle| + Count(s.pcs, HasConnection) == |connections|
            && multiset(s.shared.idle) + Held(s.pcs) == multiset(connections)
            && 0 <= s.shared.checkedOut <= |connections|
            && s.shared.checkedOut <= s.shared.high <= |connections| && s.shared.peak <= s.shared.high
            && s.shared.permits + Count(s.pcs, HasPermit) == |connections|
  {
    var s := Run(kind, |connections|, Initial(connections, threads), schedule);
    RunInv(kind, connections, threads, schedule);
    HeldSize(s.pcs);
    assert |multiset(s.shared.idle) + Held(s.pcs)| == |s.shared.idle| + |Held(s.pcs)|;
    CountImplies(s.pcs, IsCheckedOut, HasPermit);
  }

  /** A thread that has a permit but no connection yet always finds an idle one, and
      a permit being given back is never one too many. */
  lemma PermitFindsConnection(kind: Kind, connections: seq<Conn>, s: State, t: nat)
    requires Inv(kind, connections, s) && t < |s.pcs|
    ensures HasPermit(s.pcs[t]) && !HasConnection(s.pcs[t]) ==> s.shared.idle != []
    ensures HasPermit(s.pcs[t]) ==> s.shared.permits < |connections|
  {
    var size := |connections|;
    HeldSize(s.pcs);
    assert |multiset(s.shared.idle) + Held(s.pcs)| == |s.shared.idle| + |Held(s.pcs)|;
    if HasPermit(s.pcs[t]) {
      CountStrict(s.pcs, (pc: Pc) => false, HasPermit, t);
      if !HasConnection(s.pcs[t]) {
        CountStrict(s.pcs, HasConnection, HasPermit, t);
      }
    }
  }

  lemma OnlyRefusals(kind: Kind, size: nat, s: Shared, pc: Pc, choice: bool)
    requires s.checkedOut >= 0
    requires HasPermit(pc) ==> s.permits < size
    requires HasPermit(pc) && !HasConnection(pc) ==> s.idle != []
    ensures Step(kind, size, s, pc, choice).None? <==> pc.Finished? || (pc.Waiting? && choice && s.permits == 0)
  {
  }

  /** No thread ever blocks or raises: whatever the others do, one that has not
      finished can step, and only taking a permit can be refused. */
  lemma NoThreadStuck(kind: Kind, connections: seq<Conn>, threads: nat, schedule: Schedule, t: nat, choice: bool)
    requires t < threads
    ensures var s := Run(kind, |connections|, Initial(connections, threads), schedule);
            |s.pcs| == threads &&
            (Step(kind, |connections|, s.shared, s.pcs[t], choice).None? <==>
              s.pcs[t].Finished? || (s.pcs[t].Waiting? && choice && s.shared.permits == 0))
  {
    var s := Run(kind, |connections|, Initial(connections, threads), schedule);
    RunInv(kind, connections, threads, schedule);
    PermitFindsConnection(kind, connections, s, t);
    OnlyRefusals(kind, |connections|, s.shared, s.pcs[t], choice);
  }

  predicate Distinct(connections: seq<Conn>) {
    forall i, j | 0 <= i < j < |connections| :: connections[i] != connections[j]
  }

  lemma {:induction false} DistinctOnce(connections: seq<Conn>, c: Conn)
    requires Distinct(connections)
    ensures multiset(connections)[c] <= 1
  {
    if connections != [] {
      var n := |connections| - 1;
      DistinctOnce(connections[..n], c);
      assert connections == connections[..n] + [connections[n]];
      assert c == connections[n] ==> c !in connections[..n];
    }
  }

  lemma {:induction false} HeldTwice(pcs: seq<Pc>, t: nat, u: nat)
    requires t < u < |pcs| && HasConnection(pcs[t]) && HasConnection(pcs[u]) && pcs[t].conn == pcs[u].conn
    ensures Held(pcs)[pcs[t].conn] >= 2
  {
    var n := |pcs| - 1;
    HeldLast(pcs, n);
    if u < n {
      HeldTwice(pcs[..n], t, u);
    } else {
      HeldOnce(pcs[..n], t);
      assert pcs[..n][t] == pcs[t];
    }
  }

  lemma {:induction false} HeldOnce(pcs: seq<Pc>, t: nat)
    requires t < |pcs| && HasConnection(pcs[t])
    ensures Held(pcs)[pcs[t].conn] >= 1
  {
    var n := |pcs| - 1;
    if t < n {
      HeldOnce(pcs[..n], t);
    }
  }

  /** No connection is ever used by two threads, or idle while it is used. */
  lemma ConnectionsAreExclusive(kind: Kind, connections: seq<Conn>, threads: nat, schedule: Schedule, t: nat, u: nat)
    requires Distinct(connections) && t < u < threads
    ensures var s := Run(kind, |connections|, Initial(connections, threads), schedule);
            && |s.pcs| == threads
            && (HasConnection(s.pcs[t]) ==> s.pcs[t].conn !in s.shared.idle)
            && (HasConnection(s.pcs[t]) && HasConnection(s.pcs[u]) ==> s.pcs[t].conn != s.pcs[u].conn)
  {
    var s := Run(kind, |connections|, Initial(connections, threads), schedule);
    RunInv(kind, connections, threads, schedule);
    if HasConnection(s.pcs[t]) {
      var c := s.pcs[t].conn;
      DistinctOnce(connections, c);
      HeldOnce(s.pcs, t);
      assert multiset(connections)[c] == multiset(s.shared.idle)[c] + Held(s.pcs)[c];
      if HasConnection(s.pcs[u]) && s.pcs[u].conn == c {
        HeldTwice(s.pcs, t, u);
      }
    }
  }

  predicate AllFinished(s: State) {
    forall i | 0 <= i < |s.pcs| :: s.pcs[i].Finished?
  }

  lemma FinishedOnce(pc: Pc)
    requires pc.Finished?
    ensures One(HasSucceeded(pc)) + One(HasTimedOut(pc)) + One(HasFailedSql(pc)) == 1
  {
    match pc.outcome
    case Succeeded =>
    case SqlFailed =>
    case TimedOut =>
  }

  lemma {:induction false} OutcomesPartition(pcs: seq<Pc>)
    requires forall i | 0 <= i < |pcs| :: pcs[i].Finished?
    ensures Count(pcs, HasSucceeded) + Count(pcs, HasTimedOut) + Count(pcs, HasFailedSql) == |pcs|
  {
    if pcs != [] {
      var n := |pcs| - 1;
      OutcomesPartition(pcs[..n]);
      FinishedOnce(pcs[n]);
    }
  }

  lemma FinishedHoldNothing(pcs: seq<Pc>)
    requires forall i | 0 <= i < |pcs| :: pcs[i].Finished?
    ensures Count(pcs, HasPermit) == Count(pcs, IsCheckedOut) == Count(pcs, HasConnection) == 0
    ensures Count(pcs, HasAttempted) == Count(pcs, IsMeasured) == |pcs|
    ensures Held(pcs) == multiset{} && PendingPeak(pcs) == 0
  {
    NothingHeld(pcs);
    CountAll(pcs, HasPermit, false);
    CountAll(pcs, IsCheckedOut, false);
    CountAll(pcs, HasConnection, false);
    CountAll(pcs, HasAttempted, true);
    CountAll(pcs, IsMeasured, true);
  }

  /** Every connection is idle again, every permit is back, and the recorded peak is
      exactly the largest number of connections ever out at once. */
  predicate Recovered(connections: seq<Conn>, s: Shared) {
    && multiset(s.idle) == multiset(connections) && |s.idle| == |connections|
    && s.permits == |connections| && s.checkedOut == 0
    && s.peak == s.high
  }

  /** The locked counters add up. */
  predicate CountersAddUp(threads: nat, k: Counters) {
    k.attempts == k.measured == threads == k.success + k.failed + k.sqlError && k.timeout == k.failed
  }

  lemma InvRecovers(kind: Kind, connections: seq<Conn>, s: State)
    requires Inv(kind, connections, s) && AllFinished(s)
    ensures Recovered(connections, s.shared)
    ensures kind == Service ==> CountersAddUp(|s.pcs|, s.shared.counters)
  {
    FinishedHoldNothing(s.pcs);
    OutcomesPartition(s.pcs);
    assert multiset(s.shared.idle) == multiset(connections);
    assert |multiset(s.shared.idle)| == |s.shared.idle| && |multiset(connections)| == |connections|;
  }

  /** Once every thread has finished, everything is recovered, and the counters of the
      service pool, which are locked, add up. */
  lemma AllRecovered(kind: Kind, connections: seq<Conn>, threads: nat, schedule: Schedule)
    ensures var s := Run(kind, |connections|, Initial(connections, threads), schedule);
            AllFinished(s) ==>
              Recovered(connections, s.shared) && (kind == Service ==> CountersAddUp(threads, s.shared.counters))
  {
    var s := Run(kind, |connections|, Initial(connections, threads), schedule);
    RunInv(kind, connections, threads, schedule);
    if AllFinished(s) {
      InvRecovers(kind, connections, s);
    }
  }

  /** How many steps an attempt can still take. */
  function Rank(pc: Pc): nat {
    match pc
    case Start => 11
    case Waiting => 10
    case Refused => 2
    case Uncounted => 1
    case Admitted => 9
    case Permitted => 8
    case Holding(_) => 7
    case Seen(_, _) => 6
    case Ready(_) => 5
    case Worked(_, _) => 4
    case Finishing(_, _) => 3
    case Returned(_) => 2
    case CheckedIn(_) => 1
    case Finished(_) => 0
  }

  lemma StepRanks(kind: Kind, size: nat, s: Shared, pc: Pc, choice: bool)
    requires Step(kind, size, s, pc, choice).Some?
    ensures Rank(Step(kind, size, s, pc, choice).value.1) < Rank(pc)
  {
  }

  lemma RunLonger(kind: Kind, size: nat, s: State, schedule: Schedule, t: nat, choice: bool)
    ensures Run(kind, size, s, schedule + [(t, choice)]) == Exec(kind, size, Run(kind, size, s, schedule), t, choice)
  {
    assert (schedule + [(t, choice)])[..|schedule|] == schedule;
  }

  lemma {:induction false} FinishWithin(kind: Kind, connections: seq<Conn>, threads: nat, schedule: Schedule, t: nat, rank: nat)
    returns (longer: Schedule)
    requires t < threads
    requires var pcs := Run(kind, |connections|, Initial(connections, threads), schedule).pcs;
             t < |pcs| ==> Rank(pcs[t]) <= rank
    ensures schedule <= longer
    ensures var s := Run(kind, |connections|, Initial(connections, threads), longer);
            |s.pcs| == threads && s.pcs[t].Finished?
    decreases rank
  {
    var start := Initial(connections, threads);
    RunInv(kind, connections, threads, schedule);
    var s := Run(kind, |connections|, start, schedule);
    longer := schedule;
    if !s.pcs[t].Finished? {
      NoThreadStuck(kind, connections, threads, schedule, t, false);
      StepRanks(kind, |connections|, s.shared, s.pcs[t], false);
      RunLonger(kind, |connections|, start, schedule, t, false);
      longer := FinishWithin(kind, connections, threads, schedule + [(t, false)], t, rank - 1);
    }
  }

  /** From every reachable point any thread can be brought to its end without waiting
      for another. */
  lemma EveryThreadCanFinish(kind: Kind, connections: seq<Conn>, threads: nat, schedule: Schedule, t: nat)
    returns (longer: Schedule)
    requires t < threads
    ensures schedule <= longer
    ensures var s := Run(kind, |connections|, Initial(connections, threads), longer);
            |s.pcs| == threads && s.pcs[t].Finished?
  {
    longer := FinishWithin(kind, connections, threads, schedule, t, 11);
  }
}
