/** The pool as an object: its fields are updated by the atomic steps of the workers,
    in any order a scheduler picks, and it is closed at the end. */
module PoolObject {
  import opened Numbers
  import opened Outcomes
  import opened ConnectionPool

  /** The size `SQLiteShardPool.close` compares with. */
  const POOL_SIZE: nat := 3

  class SQLitePool {
    var permits: nat
    var connections: seq<Conn>
    var checkedOut: int
    var checkedOutPeak: int
    var attempts: nat
    var measured: nat
    var failed: nat
    var timeout: nat
    var success: nat
    var sqlError: nat
    ghost var high: int

    ghost function View(): Shared reads this {
      Shared(permits, connections, checkedOut, checkedOutPeak, high,
             Counters(attempts, measured, failed, timeout, success, sqlError))
    }

    constructor (conns: seq<Conn>)
      ensures View() == Initial(conns, 0).shared
    {
      permits, connections, checkedOut, checkedOutPeak := |conns|, conns, 0, 0;
      attempts, measured, failed, timeout, success, sqlError := 0, 0, 0, 0, 0, 0;
      high := 0;
    }

    method TakeConnection() returns (c: Conn)
      requires connections != []
      modifies this`connections
      ensures c == old(connections)[0] && connections == old(connections)[1..]
    {
      c := connections[0];
      connections := connections[1..];
    }

    /** `checked_out += 1` under the checkout lock. */
    method CountCheckout() returns (n: int)
      modifies this`checkedOut, this`high
      ensures n == checkedOut == old(checkedOut) + 1 && View() == CheckOut(old(View()))
    {
      checkedOut := checkedOut + 1;
      high := Max(high, checkedOut);
      n := checkedOut;
    }

    method RecordPeak(n: int)
      modifies this`checkedOutPeak
      ensures checkedOutPeak == Max(old(checkedOutPeak), n)
    {
      checkedOutPeak := Max(checkedOutPeak, n);
    }

    /** A worker asks for a permit, and gives up when it times out. */
    method Ask(kind: Kind, size: nat, pc: Pc, choice: bool) returns (next: Pc)
      requires pc.Start? || pc.Waiting? || pc.Refused? || pc.Uncounted? || pc.Admitted?
      modifies this
      ensures match Step(kind, size, old(View()), pc, choice)
              case None => next == pc && View() == old(View())
              case Some((shared, to)) => next == to && View() == shared
    {
      next := pc;
      match pc
      case Start =>
        if kind == Service {
          attempts := attempts + 1;
        }
        next := Waiting;
      case Waiting =>
        if !choice {
          next := Refused;
        } else if permits > 0 {
          permits := permits - 1;
          next := Admitted;
        }
      case Refused =>
        if kind == Service {
          measured := measured + 1;
        }
        next := Uncounted;
      case Uncounted =>
        if kind == Service {
          failed := failed + 1;
          timeout := timeout + 1;
        }
        next := Finished(TimedOut);
      case Admitted =>
        if kind == Service {
          measured := measured + 1;
        }
        next := Permitted;
    }

    /** A worker with a permit takes a connection, counts it and uses it. */
    method Use(kind: Kind, size: nat, pc: Pc, choice: bool) returns (next: Pc)
      requires pc.Permitted? || pc.Holding? || pc.Seen? || pc.Ready? || pc.Worked?
      modifies this
      ensures match Step(kind, size, old(View()), pc, choice)
              case None => next == pc && View() == old(View())
              case Some((shared, to)) => next == to && View() == shared
    {
      next := pc;
      match pc
      case Permitted =>
        if connections != [] {
          var c := TakeConnection();
          next := Holding(c);
        }
      case Holding(c) =>
        if kind == Shard {
          var n := CountCheckout();
          RecordPeak(n);
          next := Ready(c);
        } else if checkedOut + 1 >= 0 {
          var n := CountCheckout();
          next := Seen(c, n);
        }
      case Seen(c, n) =>
        RecordPeak(n);
        next := Ready(c);
      case Ready(c) =>
        next := Worked(c, choice);
      case Worked(c, ok) =>
        if kind == Service && ok {
          success := success + 1;
        } else if kind == Service {
          sqlError := sqlError + 1;
        }
        next := Finishing(c, ok);
    }

    /** The next atomic step of a worker, if it does not block; at the end it gives
        its connection and then its permit back. */
    method Advance(kind: Kind, size: nat, pc: Pc, choice: bool) returns (next: Pc)
      modifies this
      ensures match Step(kind, size, old(View()), pc, choice)
              case None => next == pc && View() == old(View())
              case Some((shared, to)) => next == to && View() == shared
    {
      next := pc;
      if pc.Start? || pc.Waiting? || pc.Refused? || pc.Uncounted? || pc.Admitted? {
        next := Ask(kind, size, pc, choice);
      } else if pc.Permitted? || pc.Holding? || pc.Seen? || pc.Ready? || pc.Worked? {
        next := Use(kind, size, pc, choice);
      } else if pc.Finishing? {
        connections := connections + [pc.conn];
        next := Returned(pc.ok);
      } else if pc.Returned? {
        checkedOut := checkedOut - 1;
        next := CheckedIn(pc.ok);
      } else if pc.CheckedIn? && permits < size {
        permits := permits + 1;
        next := Finished(if pc.ok then Succeeded else SqlFailed);
      }
    }

    /** `close`: drains the idle connections and says whether there were `POOL_SIZE`. */
    method Close() returns (recovered: bool)
      modifies this`connections
      ensures connections == [] && (recovered <==> |old(connections)| == POOL_SIZE)
    {
      var closed := 0;
      while connections != []
        invariant closed + |connections| == |old(connections)|
      {
        var _ := TakeConnection();
        closed := closed + 1;
      }
      return closed == POOL_SIZE;
    }
  }

  /** Any interleaving of the workers does to the pool what the step model says. */
  method Interleave(kind: Kind, pool: SQLitePool, conns: seq<Conn>, pcs: array<Pc>, schedule: Schedule)
    requires pool.View() == Initial(conns, pcs.Length).shared && pcs[..] == Initial(conns, pcs.Length).pcs
    modifies pool, pcs
    ensures State(pool.View(), pcs[..]) == Run(kind, |conns|, Initial(conns, pcs.Length), schedule)
  {
    for i := 0 to |schedule|
      invariant State(pool.View(), pcs[..]) == Run(kind, |conns|, Initial(conns, pcs.Length), schedule[..i])
    {
      assert schedule[..i + 1][..i] == schedule[..i];
      var (thread, choice) := schedule[i];
      if thread < pcs.Length {
        pcs[thread] := pool.Advance(kind, |conns|, pcs[thread], choice);
      }
    }
    assert schedule[..|schedule|] == schedule;
  }

  /** A run of a shard: every interleaving in which all workers finish lets `close`
      recover every connection, for the pool size the program uses. */
  method RunShard(conns: seq<Conn>, threads: nat, schedule: Schedule) returns (finished: bool, recovered: bool)
    ensures finished == AllFinished(Run(Shard, |conns|, Initial(conns, threads), schedule))
    ensures finished ==> (recovered <==> |conns| == POOL_SIZE)
  {
    var pool := new SQLitePool(conns);
    var pcs := new Pc[threads](_ => Start);
    Interleave(Shard, pool, conns, pcs, schedule);
    AllRecovered(Shard, conns, threads, schedule);
    finished := true;
    for i := 0 to threads
      invariant finished <==> forall k | 0 <= k < i :: pcs[k].Finished?
    {
      finished := finished && pcs[i].Finished?;
    }
    assert finished <==> AllFinished(State(pool.View(), pcs[..])) by {
      assert forall k | 0 <= k < threads :: pcs[..][k] == pcs[k];
    }
    recovered := pool.Close();
  }
}
