/**
 The log space protocol of begin_op, log_write and end_op (kernel/log.c) for any
 number of concurrent operations: `left[op]` is what remains of the MAXOPBLOCKS
 blocks that begin_op reserved for the outstanding operation `op`.
 */
module Reservation {
  import opened Journal
  import opened Sequences

  const MAXOPBLOCKS: nat := 10

  datatype State = State(n: nat, left: map<nat, nat>, committing: bool)

  datatype Event =
    | Begin(op: nat)
    | LogNew(op: nat)     // log_write of a block not yet in the log
    | LogAgain(op: nat)   // log_write absorbed by an earlier one
    | End(op: nat)
    | Committed

  const Init: State := State(0, map[], false)

  /** begin_op's test: with this operation's reservation the log cannot overflow. */
  predicate HasRoom(n: nat, outstanding: nat) {
    n + (outstanding + 1) * MAXOPBLOCKS <= LOGSIZE
  }

  /** What operations that record at most `limit` new blocks each can do next. */
  predicate Enabled(limit: nat, s: State, e: Event) {
    match e
    case Begin(op) => op !in s.left && !s.committing && HasRoom(s.n, |s.left|)
    case LogNew(op) => op in s.left && 0 < s.left[op] && MAXOPBLOCKS - s.left[op] < limit
    case LogAgain(op) => op in s.left && 0 < s.n
    case End(op) => op in s.left
    case Committed => s.committing
  }

  /** log_write's test for "too big a transaction", in a log area of `size` blocks. */
  predicate TooBig(size: nat, n: nat) {
    n >= LOGSIZE || n >= size - 1
  }

  /** log_write's "too big a transaction" and end_op's "log.committing". */
  predicate Panics(size: nat, s: State, e: Event) {
    match e
    case LogNew(_) => TooBig(size, s.n)
    case LogAgain(_) => TooBig(size, s.n)
    case End(_) => s.committing
    case _ => false
  }

  function Next(s: State, e: Event): (s': State)
    requires e.LogNew? ==> e.op in s.left && 0 < s.left[e.op]
  {
    match e
    case Begin(op) => s.(left := s.left[op := MAXOPBLOCKS])
    case LogNew(op) => s.(n := s.n + 1, left := s.left[op := s.left[op] - 1])
    case LogAgain(_) => s
    case End(op) => s.(left := s.left - {op}, committing := s.left.Keys <= {op})
    case Committed => s.(n := 0, committing := false)
  }

  ghost predicate Run(limit: nat, ss: seq<State>, es: seq<Event>) {
    && |ss| == |es| + 1 && ss[0] == Init
    && forall i :: 0 <= i < |es| ==> Enabled(limit, ss[i], es[i]) && ss[i + 1] == Next(ss[i], es[i])
  }

  // ----- sums over the outstanding operations -----------------------------------

  ghost function Sum(m: map<nat, nat>): (t: nat) {
    if m == map[] then 0 else
    var k :| k in m;
    m[k] + Sum(m - {k})
  }

  lemma {:induction false} SumTake(m: map<nat, nat>, k: nat)
    requires k in m
    ensures Sum(m) == m[k] + Sum(m - {k})
    decreases |m|
  {
    var j :| j in m && Sum(m) == m[j] + Sum(m - {j});
    if j != k {
      SumTake(m - {j}, k);
      SumTake(m - {k}, j);
      assert m - {j} - {k} == m - {k} - {j};
    }
  }

  lemma {:induction false} SumPut(m: map<nat, nat>, k: nat, v: nat)
    ensures Sum(m[k := v]) == v + Sum(m - {k})
  {
    SumTake(m[k := v], k);
    assert m[k := v] - {k} == m - {k};
  }

  /** What `outstanding` reservations can amount to. */
  lemma {:induction false} SumBound(m: map<nat, nat>)
    requires forall k :: k in m ==> m[k] <= MAXOPBLOCKS
    ensures Sum(m) <= |m| * MAXOPBLOCKS
    decreases |m|
  {
    if m != map[] {
      var k :| k in m;
      SumTake(m, k);
      assert m.Keys - {k} == (m - {k}).Keys;
      SumBound(m - {k});
    }
  }

  /** a times b, by counting. */
  function Times(a: nat, b: nat): (t: nat) {
    if b == 0 then 0 else a + Times(a, b - 1)
  }

  lemma {:induction false} OneLess(m: map<nat, nat>, k: nat)
    requires k in m
    ensures |m| == |m - {k}| + 1
  {
    assert m.Keys - {k} == (m - {k}).Keys;
  }

  lemma {:induction false} SumAtLeast(m: map<nat, nat>, least: nat)
    requires forall k :: k in m ==> least <= m[k]
    ensures Times(least, |m|) <= Sum(m)
    decreases |m|
  {
    if m != map[] {
      var k :| k in m;
      SumTake(m, k);
      OneLess(m, k);
      SumAtLeast(m - {k}, least);
    }
  }

  // ----- every reachable state --------------------------------------------------

  /** Logged blocks and unused reservations fit the log together. */
  ghost predicate Fits(n: nat, left: map<nat, nat>) {
    n + Sum(left) <= LOGSIZE
  }

  /**
   What is logged and what the outstanding operations may still log, `limit` in all each:
   the last of them to begin found at most one other, or an empty log.
   */
  ghost predicate Tight(limit: nat, n: nat, left: map<nat, nat>) {
    limit <= MAXOPBLOCKS && n + Sum(left) <= MAXOPBLOCKS + 2 * limit + Times(MAXOPBLOCKS - limit, |left|)
  }

  ghost predicate Inv(limit: nat, s: State) {
    && Fits(s.n, s.left) && (limit <= MAXOPBLOCKS ==> Tight(limit, s.n, s.left))
    && (s.committing ==> s.left == map[]) && (s.left == map[] && !s.committing ==> s.n == 0)
    && forall op :: op in s.left ==> MAXOPBLOCKS - limit <= s.left[op] <= MAXOPBLOCKS
  }

  lemma {:induction false} BeginKeeps(limit: nat, n: nat, left: map<nat, nat>, op: nat)
    requires op !in left && HasRoom(n, |left|) && (left == map[] ==> n == 0)
    requires forall k :: k in left ==> left[k] <= MAXOPBLOCKS
    ensures Fits(n, left[op := MAXOPBLOCKS])
    ensures limit <= MAXOPBLOCKS ==> Tight(limit, n, left[op := MAXOPBLOCKS])
  {
    hide Sum;
    SumBound(left);
    SumPut(left, op, MAXOPBLOCKS);
    OneLess(left[op := MAXOPBLOCKS], op);
    assert left - {op} == left && left[op := MAXOPBLOCKS] - {op} == left;
    assert |left| == 0 || |left| == 1 || |left| == 2;
    if limit <= MAXOPBLOCKS {
      assert Times(MAXOPBLOCKS - limit, 1) == MAXOPBLOCKS - limit;
      assert Times(MAXOPBLOCKS - limit, 2) == 2 * (MAXOPBLOCKS - limit);
    }
  }

  /** Leaving out an operation gives up at least what it had not logged. */
  lemma {:induction false} EndKeeps(limit: nat, n: nat, left: map<nat, nat>, op: nat)
    requires op in left && Tight(limit, n, left) && MAXOPBLOCKS - limit <= left[op]
    ensures Tight(limit, n, left - {op})
  {
    hide Sum;
    SumTake(left, op);
    OneLess(left, op);
  }

  lemma {:induction false} LogKeeps(limit: nat, n: nat, left: map<nat, nat>, op: nat)
    requires op in left && 0 < left[op]
    ensures Fits(n, left) ==> Fits(n + 1, left[op := left[op] - 1])
    ensures Tight(limit, n, left) ==> Tight(limit, n + 1, left[op := left[op] - 1])
  {
    SumTake(left, op);
    SumPut(left, op, left[op] - 1);
    assert left[op := left[op] - 1].Keys == left.Keys;
  }

  lemma {:induction false} StepKeeps(limit: nat, s: State, e: Event)
    requires Inv(limit, s) && Enabled(limit, s, e)
    ensures Inv(limit, Next(s, e))
  {
    hide Tight, Sum;
    match e
    case Begin(op) =>
      BeginKeeps(limit, s.n, s.left, op);
    case LogNew(op) =>
      LogKeeps(limit, s.n, s.left, op);
      assert op in Next(s, e).left;
    case LogAgain(_) =>
    case End(op) =>
      SumTake(s.left, op);
      if limit <= MAXOPBLOCKS {
        EndKeeps(limit, s.n, s.left, op);
      }
      Alone(s.left, op);
    case Committed =>
      NothingLogged(limit);
  }

  lemma {:induction false} Alone(m: map<nat, nat>, k: nat)
    ensures m - {k} == map[] <==> m.Keys <= {k}
  {
    if m - {k} == map[] {
      forall x | x in m ensures x == k {
        assert x != k ==> x in m - {k};
      }
    }
    if m.Keys <= {k} {
      assert (m - {k}).Keys == {};
    }
  }

  lemma {:induction false} NothingLogged(limit: nat)
    ensures limit <= MAXOPBLOCKS ==> Tight(limit, 0, map[])
    ensures Fits(0, map[])
  {
  }

  lemma {:induction false} RunKeeps(limit: nat, ss: seq<State>, es: seq<Event>)
    requires Run(limit, ss, es)
    ensures Inv(limit, ss[|es|])
    decreases |es|
  {
    if es != [] {
      var k := |es| - 1;
      RunKeeps(limit, ss[..|es|], es[..k]);
      StepKeeps(limit, ss[k], es[k]);
    }
  }

  /** An operation that may log (again) finds no more than this in the log. */
  lemma {:induction false} LoggedBound(limit: nat, n: nat, left: map<nat, nat>, op: nat)
    requires Tight(limit, n, left) && op in left
    requires forall k :: k in left ==> MAXOPBLOCKS - limit <= left[k]
    ensures n + (left[op] - (MAXOPBLOCKS - limit)) <= MAXOPBLOCKS + 2 * limit
  {
    hide Sum;
    SumTake(left, op);
    OneLess(left, op);
    SumAtLeast(left - {op}, MAXOPBLOCKS - limit);
  }

  /** In no run of operations with the given limit, in a log of this size, does the next event panic. */
  ghost predicate NeverPanics(limit: nat, size: nat) {
    forall ss: seq<State>, es: seq<Event>, e: Event ::
      Run(limit, ss, es) && Enabled(limit, ss[|es|], e) ==> !Panics(size, ss[|es|], e)
  }

  /** What the code needs of its operations and of the log area. */
  predicate Roomy(limit: nat, size: nat) {
    limit == 0 || (limit < MAXOPBLOCKS && MAXOPBLOCKS + 2 * limit + 1 < size)
  }

  lemma {:induction false} NothingWithoutLimit(ss: seq<State>, es: seq<Event>)
    requires Run(0, ss, es)
    ensures ss[|es|].n == 0
    decreases |es|
  {
    if es != [] {
      var k := |es| - 1;
      NothingWithoutLimit(ss[..|es|], es[..k]);
      RunKeeps(0, ss[..|es|], es[..k]);
    }
  }

  lemma {:induction false} SmallOperationsNeverPanic(limit: nat, size: nat)
    requires Roomy(limit, size)
    ensures NeverPanics(limit, size)
  {
    forall ss: seq<State>, es: seq<Event>, e: Event | Run(limit, ss, es) && Enabled(limit, ss[|es|], e)
      ensures !Panics(size, ss[|es|], e)
    {
      RunKeeps(limit, ss, es);
      if e.LogNew? || e.LogAgain? {
        LoggedBound(limit, ss[|es|].n, ss[|es|].left, e.op);
        if limit == 0 {
          NothingWithoutLimit(ss, es);
        }
      }
    }
  }

  // ----- the limit is sharp -----------------------------------------------------

  lemma {:induction false} Extend(limit: nat, ss: seq<State>, es: seq<Event>, e: Event)
    requires Run(limit, ss, es) && Enabled(limit, ss[|es|], e)
    ensures Run(limit, ss + [Next(ss[|es|], e)], es + [e])
  {
  }

  /** An operation records `m` new blocks in a row. */
  lemma {:induction false} Record(limit: nat, ss: seq<State>, es: seq<Event>, op: nat, m: nat)
    returns (ss': seq<State>, es': seq<Event>)
    requires Run(limit, ss, es) && op in ss[|es|].left
    requires m <= ss[|es|].left[op] <= MAXOPBLOCKS && MAXOPBLOCKS - ss[|es|].left[op] + m <= limit
    ensures Run(limit, ss', es')
    ensures var s := ss[|es|];
            ss'[|es'|] == s.(n := s.n + m, left := s.left[op := s.left[op] - m])
    decreases m
  {
    if m == 0 {
      ss', es' := ss, es;
      assert ss[|es|].left[op := ss[|es|].left[op]] == ss[|es|].left;
    } else {
      Extend(limit, ss, es, LogNew(op));
      ss', es' := Record(limit, ss + [Next(ss[|es|], LogNew(op))], es + [LogNew(op)], op, m - 1);
    }
  }

  lemma {:induction false} FullOperationsPanic(limit: nat, size: nat)
    requires MAXOPBLOCKS <= limit
    ensures !NeverPanics(limit, size)
  {
    var s1 := Next(Init, Begin(0));
    var s2 := Next(s1, Begin(1));
    var s3 := Next(s2, Begin(2));
    Extend(limit, [Init], [], Begin(0));
    Extend(limit, [Init, s1], [Begin(0)], Begin(1));
    Extend(limit, [Init, s1, s2], [Begin(0), Begin(1)], Begin(2));
    assert [Init] + [s1] == [Init, s1] && [Init, s1] + [s2] == [Init, s1, s2];
    assert [Init, s1, s2] + [s3] == [Init, s1, s2, s3];
    assert [] + [Begin(0)] == [Begin(0)] && [Begin(0)] + [Begin(1)] == [Begin(0), Begin(1)];
    assert [Begin(0), Begin(1)] + [Begin(2)] == [Begin(0), Begin(1), Begin(2)];
    var ss, es := Record(limit, [Init, s1, s2, s3], [Begin(0), Begin(1), Begin(2)], 0, MAXOPBLOCKS);
    ss, es := Record(limit, ss, es, 1, MAXOPBLOCKS);
    ss, es := Record(limit, ss, es, 2, MAXOPBLOCKS);
    assert Enabled(limit, ss[|es|], LogAgain(2)) && Panics(size, ss[|es|], LogAgain(2));
  }

  /** While operation 0 is outstanding and idle, others log n blocks, one each. */
  lemma {:induction false} OneByOne(limit: nat, n: nat) returns (ss: seq<State>, es: seq<Event>)
    requires 0 < limit && n <= MAXOPBLOCKS
    ensures Run(limit, ss, es) && ss[|es|] == State(n, map[0 := MAXOPBLOCKS], false)
    decreases n
  {
    if n == 0 {
      Extend(limit, [Init], [], Begin(0));
      ss, es := [Init] + [Next(Init, Begin(0))], [] + [Begin(0)];
    } else {
      ss, es := OneByOne(limit, n - 1);
      ss, es := OneMore(limit, ss, es, Begin(1));
      ss, es := OneMore(limit, ss, es, LogNew(1));
      ss, es := OneMore(limit, ss, es, End(1));
      assert ss[|es|].left == map[0 := MAXOPBLOCKS];
    }
  }

  lemma {:induction false} OneMore(limit: nat, ss: seq<State>, es: seq<Event>, e: Event)
    returns (ss': seq<State>, es': seq<Event>)
    requires Run(limit, ss, es) && Enabled(limit, ss[|es|], e)
    ensures Run(limit, ss', es') && ss'[|es'|] == Next(ss[|es|], e)
  {
    Extend(limit, ss, es, e);
    ss', es' := ss + [Next(ss[|es|], e)], es + [e];
  }

  /** Others log MAXOPBLOCKS blocks beside one that has not logged; it and one more then log all they may. */
  lemma {:induction false} SmallLogsPanic(limit: nat, size: nat)
    requires 0 < limit < MAXOPBLOCKS && size <= MAXOPBLOCKS + 2 * limit + 1
    ensures !NeverPanics(limit, size)
  {
    var ss, es := OneByOne(limit, MAXOPBLOCKS);
    ss, es := OneMore(limit, ss, es, Begin(1));
    ss, es := Record(limit, ss, es, 0, limit);
    ss, es := Record(limit, ss, es, 1, limit);
    assert Enabled(limit, ss[|es|], LogAgain(1)) && Panics(size, ss[|es|], LogAgain(1));
  }

  /**
   For every limit on the new blocks an operation records and every size of the log
   area, the protocol keeps log_write and end_op from panicking exactly under Roomy.
   */
  lemma {:induction false} PanicFreeIffRoomy(limit: nat, size: nat)
    ensures NeverPanics(limit, size) <==> Roomy(limit, size)
  {
    if Roomy(limit, size) {
      SmallOperationsNeverPanic(limit, size);
    } else if limit < MAXOPBLOCKS {
      SmallLogsPanic(limit, size);
    } else {
      FullOperationsPanic(limit, size);
    }
  }

  /**
   In a log area of at least LOGSIZE blocks this is: fewer than MAXOPBLOCKS new blocks
   each.  At MAXOPBLOCKS - 1 it is: a log area of at least LOGSIZE blocks.
   */
  lemma {:induction false} PanicFreeIffBelowLimit(limit: nat, size: nat)
    ensures size >= LOGSIZE ==> (NeverPanics(limit, size) <==> limit < MAXOPBLOCKS)
    ensures limit == MAXOPBLOCKS - 1 ==> (NeverPanics(limit, size) <==> size >= LOGSIZE)
  {
    hide NeverPanics;
    PanicFreeIffRoomy(limit, size);
  }
}
