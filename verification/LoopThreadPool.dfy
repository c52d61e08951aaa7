/**
 The IO thread pool of vserver/net/EventLoopThreadPool.cc and the server that
 draws on it, vserver/net/TcpServer.cc: objects whose methods refine the steps
 of the load balance, so that no assertion in them can fail.
 */
module LoopThreadPools {
  import opened Common
  import opened LoadBalance

  class EventLoopThreadPool {
    const baseLoop: Loop
    var started: bool
    var numThreads: nat
    var next: nat
    var loops: seq<Loop>
    var connectionCount: set<(int, int)>
    var loopInfo: map<Loop, (int, int)>

    ghost function View(): Pool
      reads this
    {
      Pool(baseLoop, loops, connectionCount, loopInfo)
    }

    ghost predicate Valid()
      reads this
    {
      if loops == [] then next == 0 else next < |loops|
    }

    constructor (baseLoop: Loop)
      ensures Valid() && View() == Fresh(baseLoop, []) && !started && numThreads == 0
    {
      this.baseLoop := baseLoop;
      started, numThreads, next := false, 0, 0;
      loops, connectionCount, loopInfo := [], {}, map[];
    }

    method SetThreadNum(n: nat)
      modifies this`numThreads
      ensures numThreads == n
    {
      numThreads := n;
    }

    /** Starts the threads; created are the loops they hand back. */
    method Start(created: seq<Loop>)
      requires !started && View() == Fresh(baseLoop, []) && |created| == numThreads
      modifies this`started, this`loops, this`connectionCount, this`loopInfo
      ensures started && View() == Fresh(baseLoop, created)
    {
      started := true;
      assert created[..0] == [];
      for i := 0 to numThreads
        invariant View() == Fresh(baseLoop, created[..i])
        invariant started
      {
        assert created[..i + 1][..i] == created[..i];
        var loop := created[i];
        loops := loops + [loop];
        loopInfo := loopInfo[loop := (0, i)];
        connectionCount := connectionCount + {(0, i)};
        assert created[..i + 1] == loops;
      }
      assert created[..numThreads] == created;
    }

    /** Round robin. */
    method GetNextLoop() returns (loop: Loop)
      requires Valid() && started
      modifies this`next
      ensures Valid() && loop == if loops == [] then baseLoop else loops[old(next)]
      ensures loops != [] ==> next == NextTurn(old(next), |loops|)
    {
      loop := baseLoop;
      if loops != [] {
        loop := loops[next];
        next := next + 1;
        if next >= |loops| {
          next := 0;
        }
      }
    }

    method Update(loop: Loop, newCnt: int)
      requires started && LoadBalance.Update(View(), loop, newCnt).Next?
      modifies this`connectionCount, this`loopInfo
      ensures Next(View()) == LoadBalance.Update(old(View()), loop, newCnt)
    {
      assert loop in loopInfo;
      var info := loopInfo[loop];
      var idx := info.1;
      assert info in connectionCount;
      connectionCount := connectionCount - {info};
      connectionCount := connectionCount + {(newCnt, idx)};
      loopInfo := loopInfo[loop := (newCnt, idx)];
    }

    method RemoveLoopConnection(loop: Loop)
      requires started && Release(View(), loop).Next?
      modifies this`connectionCount, this`loopInfo
      ensures Next(View()) == Release(old(View()), loop)
    {
      if connectionCount != {} {
        if loop !in loopInfo {
          loopInfo := loopInfo[loop := (0, 0)];
        }
        var cnt := loopInfo[loop].0;
        Update(loop, cnt - 1);
      }
    }

    method GetNextLoopMinConnection() returns (loop: Loop)
      requires started && Acquire(View()).Next?
      modifies this`connectionCount, this`loopInfo
      ensures Next((View(), loop)) == Acquire(old(View()))
    {
      loop := baseLoop;
      if connectionCount != {} {
        LeastExists(connectionCount);
        var first :| first in connectionCount && forall q | q in connectionCount :: Leq(first, q);
        OneLeast(first, Least(connectionCount), connectionCount);
        loop := loops[first.1];
        Update(loop, first.0 + 1);
      }
    }
  }

  lemma OneLeast(p: (int, int), q: (int, int), s: set<(int, int)>)
    requires IsLeast(p, s) && IsLeast(q, s)
    ensures p == q
  {
    assert Leq(p, q) && Leq(q, p);
  }

  lemma AcquireSafe(s: Server)
    requires Inv(s)
    ensures Acquire(s.pool).Next?
  {
    hide Inv, Acquire;
    AcceptKeeps(s);
  }

  lemma ReleaseSafe(s: Server, c: Conn)
    requires Inv(s) && c in s.conns
    ensures c in s.made && s.conns[c] == s.made[c] && Release(s.pool, s.made[c]).Next?
  {
    hide Release, Counted;
    assert c in s.made;
    RemoveKeeps(s, c);
  }

  class TcpServer {
    const threadPool: EventLoopThreadPool
    var connections: map<Conn, Loop>
    var connId: nat
    ghost var made: map<Conn, Loop>

    ghost function View(): Server
      reads this, threadPool
    {
      Server(threadPool.View(), connections, made, connId)
    }

    ghost predicate Valid()
      reads this, threadPool
    {
      Inv(View()) && threadPool.started
    }

    /** A server over a started pool. */
    constructor (pool: EventLoopThreadPool)
      requires pool.started && Distinct(pool.baseLoop, pool.loops) && pool.View() == Fresh(pool.baseLoop, pool.loops)
      ensures Valid() && threadPool == pool && View() == LoadBalance.Start(pool.baseLoop, pool.loops)
    {
      threadPool, connections, connId, made := pool, map[], 0, map[];
      new;
      StartInv(pool.baseLoop, pool.loops);
    }

    /** Makes the connection, keeps it by its name and returns the loop it must be established on. */
    method NewConnection() returns (conn: Conn, ioLoop: Loop)
      requires Valid()
      modifies this, threadPool
      ensures Valid() && Next(View()) == Step(old(View()), Accept)
      ensures conn == old(connId) && connections == old(connections)[conn := ioLoop]
    {
      hide Inv, Acquire;
      AcquireSafe(View());
      AcceptKeeps(View());
      ghost var s := View();
      ioLoop := threadPool.GetNextLoopMinConnection();
      conn := connId;
      connId := connId + 1;
      connections := connections[conn := ioLoop];
      made := made[conn := ioLoop];
      assert Step(s, Accept).state == View();
    }

    /** Drops the connection; ioLoop is where connectDestroyed must be queued. */
    method RemoveConnectionInLoop(conn: Conn) returns (ioLoop: Loop)
      requires Valid() && conn in connections
      modifies this, threadPool
      ensures Valid() && Next(View()) == Step(old(View()), Remove(conn))
      ensures connections == old(connections) - {conn} && ioLoop == old(connections)[conn]
    {
      hide Inv, Release;
      ReleaseSafe(View(), conn);
      RemoveKeeps(View(), conn);
      ghost var s := View();
      ioLoop := connections[conn];
      connections := connections - {conn};
      threadPool.RemoveLoopConnection(ioLoop);
      assert Step(s, Remove(conn)).state == View();
    }
  }
}
