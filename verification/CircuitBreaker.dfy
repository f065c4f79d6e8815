/** The circuit breaker and the retry loop of agentflow/services/llm_service.py. */
module CircuitBreakers {

  import opened Options

  datatype Circuit = CLOSED | OPEN | HALF_OPEN

  /** The three mutable fields of one breaker, with its two constants. */
  datatype Breaker = Breaker(threshold: int, timeout: real, circuit: Circuit, failures: nat, lastFailure: real)

  function NewBreaker(threshold: int, timeout: real): Breaker {
    Breaker(threshold, timeout, CLOSED, 0, 0.0)
  }

  function OnSuccess(b: Breaker): Breaker {
    b.(circuit := CLOSED, failures := 0)
  }

  function OnFailure(b: Breaker, now: real): Breaker {
    var n := b.failures + 1;
    b.(failures := n, lastFailure := now, circuit := if n >= b.threshold then OPEN else b.circuit)
  }

  predicate Expired(b: Breaker, now: real) {
    now - b.lastFailure >= b.timeout
  }

  /** The locked part of the `state` property. */
  function Probe(b: Breaker): Breaker {
    if b.circuit.OPEN? then b.(circuit := HALF_OPEN) else b
  }

  // ---------------------------------------------------------------- threads and the lock

  /** Where a thread stands in `call`: it has read OPEN and an elapsed timeout and waits for the lock; it
      is about to read the state it acts on; its request is under way; or it is outside. */
  datatype Thread = Outside | AtLock | Reading | InFlight

  /** What one thread does next.  Times are the clock's at that very step. */
  datatype Move =
    | Enter(now: real)        // unlocked look at state and clock
    | TakeLock                // OPEN -> HALF_OPEN under the lock
    | ReadState               // unlocked read: admitted unless OPEN
    | Succeed                 // the request returned; `_on_success` under the lock
    | Fail(now: real)         // the request raised; `_on_failure` under the lock

  datatype Event = CompletedSuccess | CompletedFailure

  datatype System = System(breaker: Breaker, threads: seq<Thread>)

  predicate CanMove(t: Thread, m: Move) {
    match m
    case Enter(_) => t.Outside?
    case TakeLock => t.AtLock?
    case ReadState => t.Reading?
    case Succeed => t.InFlight?
    case Fail(_) => t.InFlight?
  }

  function MoveThread(s: System, i: nat, m: Move): (System, seq<Event>)
    requires i < |s.threads| && CanMove(s.threads[i], m)
  {
    var b := s.breaker;
    match m
    case Enter(now) =>
      (s.(threads := s.threads[i := if b.circuit.OPEN? && Expired(b, now) then AtLock else Reading]), [])
    case TakeLock => (System(Probe(b), s.threads[i := Reading]), [])
    case ReadState => (s.(threads := s.threads[i := if b.circuit.OPEN? then Outside else InFlight]), [])
    case Succeed => (System(OnSuccess(b), s.threads[i := Outside]), [CompletedSuccess])
    case Fail(now) => (System(OnFailure(b, now), s.threads[i := Outside]), [CompletedFailure])
  }

  /** An interleaving: which thread moves, and how.  None when a move does not fit. */
  function Interleave(s: System, moves: seq<(nat, Move)>): Option<(System, seq<Event>)> {
    if moves == [] then Some((s, []))
    else
      match Interleave(s, moves[..|moves| - 1])
      case None => None
      case Some((t, history)) =>
        var (i, m) := moves[|moves| - 1];
        if i < |t.threads| && CanMove(t.threads[i], m) then
          var (u, happened) := MoveThread(t, i, m);
          Some((u, history + happened))
        else None
  }

  function Idle(b: Breaker, n: nat): System {
    System(b, seq(n, _ => Outside))
  }

  /** Failures completed since the last completed success. */
  function TrailingFailures(history: seq<Event>): nat {
    if history == [] || history[|history| - 1].CompletedSuccess? then 0
    else 1 + TrailingFailures(history[..|history| - 1])
  }

  /** A thread has gone through the lock since the last completed request. */
  predicate ProbedSince(moves: seq<(nat, Move)>) {
    if moves == [] then false
    else
      match moves[|moves| - 1].1
      case TakeLock => true
      case Succeed => false
      case Fail(_) => false
      case _ => ProbedSince(moves[..|moves| - 1])
  }

  /** A threshold below one acts as one: the first failure opens the circuit. */
  function Effective(threshold: int): int {
    if threshold < 1 then 1 else threshold
  }

  /** In every interleaving, for every threshold, the failure count is the number of trailing failures; the
      breaker is CLOSED exactly while that number is below the threshold, and otherwise HALF_OPEN exactly
      when a thread has gone through the lock since. */
  lemma {:induction false} StateIsHistory(threshold: int, timeout: real, n: nat, moves: seq<(nat, Move)>)
    requires Interleave(Idle(NewBreaker(threshold, timeout), n), moves).Some?
    ensures var (s, history) := Interleave(Idle(NewBreaker(threshold, timeout), n), moves).value;
            && s.breaker.threshold == threshold
            && s.breaker.failures == TrailingFailures(history)
            && s.breaker.circuit
               == (if TrailingFailures(history) < Effective(threshold) then CLOSED
                   else if ProbedSince(moves) then HALF_OPEN else OPEN)
  {
    if moves != [] {
      StateIsHistory(threshold, timeout, n, moves[..|moves| - 1]);
      var (s, history) := Interleave(Idle(NewBreaker(threshold, timeout), n), moves[..|moves| - 1]).value;
      var (i, m) := moves[|moves| - 1];
      HistorySnoc(history);
      MoveOnBreaker(s, i, m);
      hide MoveThread, TrailingFailures, Idle, NewBreaker;
    }
  }

  lemma HistorySnoc(history: seq<Event>)
    ensures history + [] == history
    ensures TrailingFailures(history + [CompletedFailure]) == TrailingFailures(history) + 1
    ensures TrailingFailures(history + [CompletedSuccess]) == 0
  {
    assert (history + [CompletedFailure])[..|history|] == history;
  }

  /** What a move does to the breaker, and what it adds to the history. */
  lemma MoveOnBreaker(s: System, i: nat, m: Move)
    requires i < |s.threads| && CanMove(s.threads[i], m)
    ensures MoveThread(s, i, m).0.breaker
         == match m
            case TakeLock => Probe(s.breaker)
            case Succeed => OnSuccess(s.breaker)
            case Fail(now) => OnFailure(s.breaker, now)
            case _ => s.breaker
    ensures MoveThread(s, i, m).1
         == match m case Succeed => [CompletedSuccess] case Fail(_) => [CompletedFailure] case _ => []
  {
  }

  /** A failed probe re-opens the circuit although no branch of the source says so. */
  lemma FailedProbeReopens(threshold: int, timeout: real, n: nat, moves: seq<(nat, Move)>, i: nat, now: real)
    requires var r := Interleave(Idle(NewBreaker(threshold, timeout), n), moves);
             r.Some? && r.value.0.breaker.circuit.HALF_OPEN?
             && i < |r.value.0.threads| && r.value.0.threads[i].InFlight?
    ensures var s := Interleave(Idle(NewBreaker(threshold, timeout), n), moves).value.0;
            MoveThread(s, i, Fail(now)).0.breaker.circuit.OPEN?
  {
    StateIsHistory(threshold, timeout, n, moves);
  }

  // ---------------------------------------------------------------- the time guard

  /** The failures among these moves are dated at `now` or later, each no earlier than the one before. */
  predicate FailuresFrom(moves: seq<(nat, Move)>, now: real) {
    moves != [] ==>
      && FailuresFrom(moves[..|moves| - 1], now)
      && (moves[|moves| - 1].1.Fail? ==> LastFailure(moves[..|moves| - 1], now) <= moves[|moves| - 1].1.now)
  }

  /** The date of the last failure among these moves, `date` if there is none. */
  function LastFailure(moves: seq<(nat, Move)>, date: real): real {
    if moves == [] then date
    else
      var (_, m) := moves[|moves| - 1];
      if m.Fail? then m.now else LastFailure(moves[..|moves| - 1], date)
  }

  /** Every failure among these moves is at least `timeout` old at `later`. */
  predicate FailuresAreOld(moves: seq<(nat, Move)>, timeout: real, later: real) {
    forall k :: 0 <= k < |moves| && moves[k].1.Fail? ==> later - moves[k].1.now >= timeout
  }

  /** `i` does not move. */
  predicate Waits(moves: seq<(nat, Move)>, i: nat) {
    moves != [] ==> Waits(moves[..|moves| - 1], i) && moves[|moves| - 1].0 != i
  }

  predicate Failed(history: seq<Event>) {
    CompletedFailure in history
  }

  lemma {:induction false} LastFailureIsLatest(moves: seq<(nat, Move)>, now: real)
    requires FailuresFrom(moves, now)
    ensures now <= LastFailure(moves, now)
    ensures forall k :: 0 <= k < |moves| && moves[k].1.Fail? ==> now <= moves[k].1.now <= LastFailure(moves, now)
    ensures LastFailure(moves, now) == now || exists k ::
              0 <= k < |moves| && moves[k].1.Fail? && moves[k].1.now == LastFailure(moves, now)
  {
    if moves != [] {
      var n := |moves| - 1;
      LastFailureIsLatest(moves[..n], now);
      if !moves[n].1.Fail? && LastFailure(moves, now) != now {
        var k :| 0 <= k < n && moves[..n][k].1.Fail? && moves[..n][k].1.now == LastFailure(moves, now);
        assert moves[k].1.Fail?;
      }
      forall k | 0 <= k < |moves| && moves[k].1.Fail? ensures now <= moves[k].1.now <= LastFailure(moves, now) {
        assert k < n ==> moves[..n][k] == moves[k];
      }
    }
  }

  /** While thread `i` waits for the lock, the last failure is dated by the others' moves alone. */
  lemma {:induction false} WaitingThread(s: System, i: nat, now: real, moves: seq<(nat, Move)>)
    requires s.breaker.circuit.OPEN? && Expired(s.breaker, now) && i < |s.threads| && s.threads[i].Outside?
    requires Waits(moves, i) && Interleave(MoveThread(s, i, Enter(now)).0, moves).Some?
    ensures var (t, history) := Interleave(MoveThread(s, i, Enter(now)).0, moves).value;
            && i < |t.threads| && CanMove(t.threads[i], TakeLock)
            && t.breaker.timeout == s.breaker.timeout
            && t.breaker.lastFailure == LastFailure(moves, s.breaker.lastFailure)
            && (Failed(history) <==> exists k :: 0 <= k < |moves| && moves[k].1.Fail?)
  {
    if moves != [] {
      var n := |moves| - 1;
      WaitingThread(s, i, now, moves[..n]);
      var (t, history) := Interleave(MoveThread(s, i, Enter(now)).0, moves[..n]).value;
      assert moves[n].1.Fail? ==> Failed(history + [CompletedFailure]);
      if Failed(history) {
        var k :| 0 <= k < n && moves[..n][k].1.Fail?;
        assert moves[k].1.Fail?;
      }
    }
  }

  lemma {:induction false} LastFailureOf(moves: seq<(nat, Move)>, a: real, b: real)
    ensures (exists k :: 0 <= k < |moves| && moves[k].1.Fail?) ==> LastFailure(moves, a) == LastFailure(moves, b)
    ensures !(exists k :: 0 <= k < |moves| && moves[k].1.Fail?) ==> LastFailure(moves, a) == a
  {
    if moves != [] {
      var n := |moves| - 1;
      LastFailureOf(moves[..n], a, b);
      if k :| 0 <= k < n && moves[..n][k].1.Fail? {
        assert moves[k].1.Fail?;
      }
      if k :| 0 <= k < |moves| && moves[k].1.Fail? {
        assert k < n ==> moves[..n][k].1.Fail?;
      }
    }
  }

  /** Thread `i` looks at `now`, sees OPEN and an elapsed timeout, and gets the lock at `later`, after moves
      of the others.  The guard it passed still holds then exactly when every request that failed meanwhile
      has been timed out in its turn; so at `now` itself it holds exactly when none failed.  Whether it
      holds or not, the thread lets its probe through. */
  lemma TimeGuardHoldsIff(s: System, i: nat, now: real, later: real, moves: seq<(nat, Move)>)
    requires s.breaker.circuit.OPEN? && Expired(s.breaker, now) && now <= later
    requires i < |s.threads| && s.threads[i].Outside?
    requires Waits(moves, i) && FailuresFrom(moves, now)
    requires Interleave(MoveThread(s, i, Enter(now)).0, moves).Some?
    ensures var (t, history) := Interleave(MoveThread(s, i, Enter(now)).0, moves).value;
            && i < |t.threads| && CanMove(t.threads[i], TakeLock)
            && t.breaker.timeout == s.breaker.timeout
            && (Expired(t.breaker, later) <==> FailuresAreOld(moves, s.breaker.timeout, later))
            && (s.breaker.timeout > 0.0 ==> (Expired(t.breaker, now) <==> !Failed(history)))
            && (Failed(history) ==> t.breaker.lastFailure >= now)
            && (!Failed(history) ==> t.breaker.lastFailure == s.breaker.lastFailure)
            && (t.breaker.circuit.OPEN? ==> MoveThread(t, i, TakeLock).0.breaker.circuit.HALF_OPEN?)
  {
    WaitingThread(s, i, now, moves);
    LastFailureIsLatest(moves, now);
    LastFailureOf(moves, s.breaker.lastFailure, now);
    hide Interleave, LastFailure, FailuresFrom, Waits;
  }

  /** From a fresh breaker: one failure opens it, both threads see the timeout elapsed, one probes and
      fails, and the other still probes although that failure has just been recorded.  Only a lock it gets
      another timeout later would see that failure timed out. */
  function StaleMoves(timeout: real): seq<(nat, Move)> {
    [(0, Enter(0.0)), (0, ReadState), (0, Fail(0.0)),
     (0, Enter(timeout)), (1, Enter(timeout)), (1, TakeLock), (1, ReadState), (1, Fail(timeout)),
     (0, TakeLock), (0, ReadState)]
  }

  lemma StaleTimeoutProbes(timeout: real)
    requires timeout > 0.0
    ensures var r := Interleave(Idle(NewBreaker(1, timeout), 2), StaleMoves(timeout));
            r.Some? && r.value.0.threads[0].InFlight? && r.value.0.breaker.lastFailure == timeout
            && !Expired(r.value.0.breaker, timeout) && Expired(r.value.0.breaker, timeout + timeout)
  {
    var s := Idle(NewBreaker(1, timeout), 2);
    var b := Breaker(1, timeout, OPEN, 1, 0.0);
    var again := b.(failures := 2, lastFailure := timeout);
    hide Interleave;
    var moves := NoMoves(s);
    assert s.threads == [Outside, Outside];
    moves := Extend(s, moves, 0, Enter(0.0));
    moves := Extend(s, moves, 0, ReadState);
    moves := Extend(s, moves, 0, Fail(0.0));
    assert Interleave(s, moves).value.0 == System(b, [Outside, Outside]);
    moves := Extend(s, moves, 0, Enter(timeout));
    moves := Extend(s, moves, 1, Enter(timeout));
    assert Interleave(s, moves).value.0 == System(b, [AtLock, AtLock]);
    moves := Extend(s, moves, 1, TakeLock);
    moves := Extend(s, moves, 1, ReadState);
    assert Interleave(s, moves).value.0 == System(b.(circuit := HALF_OPEN), [AtLock, InFlight]);
    moves := Extend(s, moves, 1, Fail(timeout));
    assert Interleave(s, moves).value.0 == System(again, [AtLock, Outside]);
    moves := Extend(s, moves, 0, TakeLock);
    moves := Extend(s, moves, 0, ReadState);
    assert moves == StaleMoves(timeout);
  }

  lemma NoMoves(s: System) returns (moves: seq<(nat, Move)>)
    ensures moves == [] && Interleave(s, moves) == Some((s, []))
  {
    moves := [];
  }

  lemma Extend(s: System, moves: seq<(nat, Move)>, i: nat, m: Move) returns (longer: seq<(nat, Move)>)
    requires Interleave(s, moves).Some?
    requires var t := Interleave(s, moves).value.0; i < |t.threads| && CanMove(t.threads[i], m)
    ensures longer == moves + [(i, m)] && Interleave(s, longer).Some?
    ensures Interleave(s, longer).value.0 == MoveThread(Interleave(s, moves).value.0, i, m).0
  {
    longer := moves + [(i, m)];
    assert longer[..|longer| - 1] == moves;
  }

  // ---------------------------------------------------------------- sequential use

  /** One attempt: when the state is read, when the request ends, and how. */
  datatype Attempt = Attempt(askedAt: real, doneAt: real, ok: bool)

  datatype Verdict = Rejected | Answered | Raised

  /** `state`, alone. */
  function StateAt(b: Breaker, now: real): Breaker {
    if b.circuit.OPEN? && Expired(b, now) then Probe(b) else b
  }

  /** `call`, alone. */
  function Call(b: Breaker, a: Attempt): (Breaker, Verdict) {
    var c := StateAt(b, a.askedAt);
    if c.circuit.OPEN? then (c, Rejected)
    else if a.ok then (OnSuccess(c), Answered)
    else (OnFailure(c, a.doneAt), Raised)
  }

  const MAX_RETRIES: nat := 2

  /** `_call_with_retry`: attempts until one is answered, at most three.  Returns the breaker, whether an
      answer came, and how often the service was really called. */
  function Request(b: Breaker, attempts: seq<Attempt>): (Breaker, bool, nat)
    decreases |attempts|
  {
    if attempts == [] then (b, false, 0)
    else
      var (c, v) := Call(b, attempts[0]);
      var here := if v.Rejected? then 0 else 1;
      if v.Answered? then (c, true, here)
      else
        var (d, answered, more) := Request(c, attempts[1..]);
        (d, answered, here + more)
  }

  /** Running attempts one after the other, counting calls that reach the service. */
  function Calls(b: Breaker, attempts: seq<Attempt>): (Breaker, nat) {
    if attempts == [] then (b, 0)
    else
      var (c, n) := Calls(b, attempts[..|attempts| - 1]);
      var (d, v) := Call(c, attempts[|attempts| - 1]);
      (d, n + if v.Rejected? then 0 else 1)
  }

  /** The clock does not run backwards. */
  ghost predicate Ordered(attempts: seq<Attempt>) {
    && (forall k :: 0 <= k < |attempts| ==> attempts[k].askedAt <= attempts[k].doneAt)
    && (forall k, l :: 0 <= k < l < |attempts| ==> attempts[k].doneAt <= attempts[l].askedAt)
  }

  /** Every request fails. */
  ghost predicate Outage(attempts: seq<Attempt>) {
    forall k :: 0 <= k < |attempts| ==> !attempts[k].ok
  }

  /** When the circuit first opens during an outage: the end of the attempt numbered `threshold`. */
  function OpenedAt(threshold: int, attempts: seq<Attempt>): real
    requires 1 <= threshold <= |attempts|
  {
    attempts[threshold - 1].doneAt
  }

  lemma {:induction false} BeforeOpening(threshold: int, timeout: real, attempts: seq<Attempt>)
    requires |attempts| <= threshold && Outage(attempts)
    ensures var (b, n) := Calls(NewBreaker(threshold, timeout), attempts);
            && n == |attempts| && b.failures == n && b.threshold == threshold && b.timeout == timeout
            && (n < threshold ==> b.circuit.CLOSED?)
            && (1 <= n == threshold ==> b.circuit.OPEN? && b.lastFailure == OpenedAt(threshold, attempts))
  {
    if attempts != [] {
      BeforeOpening(threshold, timeout, attempts[..|attempts| - 1]);
    }
  }

  /** A failing attempt on an open circuit: turned away, or let through a full timeout after the last
      failure. */
  lemma AttemptOnOpen(b: Breaker, a: Attempt)
    requires b.circuit.OPEN? && b.failures >= b.threshold && !a.ok && a.askedAt <= a.doneAt
    ensures var (c, v) := Call(b, a);
            && c.circuit.OPEN? && c.failures >= c.threshold && c.threshold == b.threshold && c.timeout == b.timeout
            && (v.Rejected? ==> c.lastFailure == b.lastFailure)
            && (!v.Rejected? ==> c.lastFailure == a.doneAt && a.doneAt >= b.lastFailure + b.timeout)
  {
  }

  /** `k` timeouts in a row. */
  function Times(k: nat, x: real): real {
    if k == 0 then 0.0 else Times(k - 1, x) + x
  }

  lemma {:induction false} TimesIsProduct(k: nat, x: real)
    ensures Times(k, x) == k as real * x
  {
    if k > 0 { TimesIsProduct(k - 1, x); }
  }

  lemma TimesBelowQuotient(k: nat, x: real, y: real)
    requires y > 0.0 && Times(k, y) <= x
    ensures k <= (x / y).Floor
  {
    TimesIsProduct(k, y);
    FloorOfQuotient(k, x, y);
  }

  /** What an outage of at least `threshold` attempts leaves behind after `n` calls: the k-th call past
      the opening at `t0` failed at t0 + k * timeout or later. */
  ghost predicate OpenSince(b: Breaker, n: nat, t0: real, now: real) {
    && n >= b.threshold && b.circuit.OPEN? && b.failures >= b.threshold
    && b.lastFailure <= now
    && b.lastFailure >= t0 + Times(n - b.threshold, b.timeout)
  }

  lemma {:induction false} AfterOpening(threshold: int, timeout: real, attempts: seq<Attempt>)
    requires 1 <= threshold <= |attempts| && timeout >= 0.0 && Outage(attempts) && Ordered(attempts)
    ensures var (b, n) := Calls(NewBreaker(threshold, timeout), attempts);
            && b.threshold == threshold && b.timeout == timeout
            && OpenSince(b, n, OpenedAt(threshold, attempts), attempts[|attempts| - 1].doneAt)
    decreases |attempts|
  {
    if |attempts| == threshold {
      BeforeOpening(threshold, timeout, attempts);
    } else {
      var before, a := attempts[..|attempts| - 1], attempts[|attempts| - 1];
      AfterOpening(threshold, timeout, before);
      var (b, n) := Calls(NewBreaker(threshold, timeout), before);
      assert before[|before| - 1] == attempts[|attempts| - 2];
      AttemptOnOpen(b, a);
      hide Call;
    }
  }

  /** Outage bound: whatever the attempts, the service has been called at most
      threshold + floor(T / timeout) times when the last attempt ends at time T after the circuit opened. */
  lemma OutageBound(threshold: int, timeout: real, attempts: seq<Attempt>)
    requires threshold >= 1 && timeout > 0.0 && Outage(attempts) && Ordered(attempts)
    ensures var n := Calls(NewBreaker(threshold, timeout), attempts).1;
            if |attempts| < threshold then n == |attempts|
            else var elapsed := attempts[|attempts| - 1].doneAt - OpenedAt(threshold, attempts);
                 elapsed >= 0.0 && n <= threshold + (elapsed / timeout).Floor
  {
    if |attempts| < threshold {
      BeforeOpening(threshold, timeout, attempts);
    } else {
      AfterOpening(threshold, timeout, attempts);
      var n := Calls(NewBreaker(threshold, timeout), attempts).1;
      hide Calls;
      TimesBelowQuotient(n - threshold, attempts[|attempts| - 1].doneAt - OpenedAt(threshold, attempts), timeout);
      assert attempts[threshold - 1].doneAt <= attempts[|attempts| - 1].doneAt;
    }
  }

  lemma FloorOfQuotient(k: nat, x: real, y: real)
    requires y > 0.0 && k as real * y <= x
    ensures k <= (x / y).Floor
  {
    assert x / y * y == x;
    assert x / y >= k as real;
  }

  // ---------------------------------------------------------------- requests

  /** Attempts of several requests, one after the other. */
  function Requests(b: Breaker, requests: seq<seq<Attempt>>): (Breaker, nat)
  {
    if requests == [] then (b, 0)
    else
      var (c, n) := Requests(b, requests[..|requests| - 1]);
      var (d, _, m) := Request(c, requests[|requests| - 1]);
      (d, n + m)
  }

  lemma {:induction false} RequestCalls(b: Breaker, attempts: seq<Attempt>)
    ensures Request(b, attempts).2 <= |attempts|
    decreases |attempts|
  {
    if attempts != [] { RequestCalls(Call(b, attempts[0]).0, attempts[1..]); }
  }

  /** m requests cause at most 3m calls. */
  lemma {:induction false} RequestsCalls(b: Breaker, requests: seq<seq<Attempt>>)
    requires forall k :: 0 <= k < |requests| ==> |requests[k]| == MAX_RETRIES + 1
    ensures Requests(b, requests).1 <= 3 * |requests|
  {
    if requests != [] {
      RequestsCalls(b, requests[..|requests| - 1]);
      RequestCalls(Requests(b, requests[..|requests| - 1]).0, requests[|requests| - 1]);
    }
  }

  function Flatten(requests: seq<seq<Attempt>>): seq<Attempt> {
    if requests == [] then [] else Flatten(requests[..|requests| - 1]) + requests[|requests| - 1]
  }

  lemma {:induction false} CallsConcat(b: Breaker, x: seq<Attempt>, y: seq<Attempt>)
    ensures Calls(b, x + y) == (Calls(Calls(b, x).0, y).0, Calls(b, x).1 + Calls(Calls(b, x).0, y).1)
    decreases |y|
  {
    if y == [] {
      assert x + y == x;
    } else {
      assert (x + y)[..|x + y| - 1] == x + y[..|y| - 1];
      CallsConcat(b, x, y[..|y| - 1]);
    }
  }

  /** During an outage no attempt is saved by an answer, so a request is just its attempts in a row. */
  lemma {:induction false} RequestInOutage(b: Breaker, attempts: seq<Attempt>)
    requires Outage(attempts)
    ensures Calls(b, attempts) == (Request(b, attempts).0, Request(b, attempts).2) && !Request(b, attempts).1
    decreases |attempts|
  {
    if attempts != [] {
      var a := attempts[..1];
      assert attempts == a + attempts[1..];
      assert a[..0] == [];
      assert Calls(b, a) == (Call(b, a[0]).0, if Call(b, a[0]).1.Rejected? then 0 else 1) by {
        assert Calls(b, []) == (b, 0);
      }
      CallsConcat(b, a, attempts[1..]);
      RequestInOutage(Call(b, attempts[0]).0, attempts[1..]);
    }
  }

  lemma OutageSplits(x: seq<Attempt>, y: seq<Attempt>)
    ensures Outage(x + y) <==> Outage(x) && Outage(y)
  {
    assert forall k :: 0 <= k < |x| ==> x[k] == (x + y)[k];
    assert forall k :: 0 <= k < |y| ==> y[k] == (x + y)[|x| + k];
  }

  lemma {:induction false} RequestsInOutage(b: Breaker, requests: seq<seq<Attempt>>)
    requires Outage(Flatten(requests))
    ensures Requests(b, requests) == Calls(b, Flatten(requests))
  {
    if requests != [] {
      hide Call, Calls, Request;
      var n := |requests| - 1;
      var before := Flatten(requests[..n]);
      OutageSplits(before, requests[n]);
      RequestsInOutage(b, requests[..n]);
      CallsConcat(b, before, requests[n]);
      RequestInOutage(Requests(b, requests[..n]).0, requests[n]);
    }
  }

  /** Both bounds for whole requests during an outage. */
  lemma OutageOfRequests(threshold: int, timeout: real, requests: seq<seq<Attempt>>)
    requires threshold >= 1 && timeout > 0.0
    requires forall k :: 0 <= k < |requests| ==> |requests[k]| == MAX_RETRIES + 1
    requires Outage(Flatten(requests)) && Ordered(Flatten(requests)) && |Flatten(requests)| >= threshold
    ensures var all := Flatten(requests);
            var n := Requests(NewBreaker(threshold, timeout), requests).1;
            && n <= 3 * |requests|
            && n <= threshold + ((all[|all| - 1].doneAt - OpenedAt(threshold, all)) / timeout).Floor
  {
    RequestsInOutage(NewBreaker(threshold, timeout), requests);
    OutageBound(threshold, timeout, Flatten(requests));
    RequestsCalls(NewBreaker(threshold, timeout), requests);
  }

  // ---------------------------------------------------------------- sequential use is one interleaving

  /** The moves of one thread that makes one call on breaker `b`, alone. */
  function CallMoves(b: Breaker, a: Attempt): seq<(nat, Move)> {
    var turnedAway := b.circuit.OPEN? && !Expired(b, a.askedAt);
    var probes := b.circuit.OPEN? && Expired(b, a.askedAt);
    [(0, Enter(a.askedAt))] + (if probes then [(0, TakeLock)] else []) + [(0, ReadState)]
    + if turnedAway then [] else if a.ok then [(0, Succeed)] else [(0, Fail(a.doneAt))]
  }

  /** What such a call adds to the history. */
  function CallEvents(b: Breaker, a: Attempt): seq<Event> {
    if b.circuit.OPEN? && !Expired(b, a.askedAt) then []
    else if a.ok then [CompletedSuccess] else [CompletedFailure]
  }

  lemma NoMovesYet(s: System)
    ensures Interleave(s, []) == Some((s, []))
  {
  }

  /** One more move. */
  lemma MoveSnoc(s: System, moves: seq<(nat, Move)>, t: System, history: seq<Event>, i: nat, m: Move)
    requires Interleave(s, moves) == Some((t, history)) && i < |t.threads| && CanMove(t.threads[i], m)
    ensures Interleave(s, moves + [(i, m)])
         == Some((MoveThread(t, i, m).0, history + MoveThread(t, i, m).1))
  {
    assert (moves + [(i, m)])[..|moves|] == moves;
    hide MoveThread;
  }

  /** A move of the only thread. */
  lemma AloneMoves(s: System, moves: seq<(nat, Move)>, c: Breaker, thread: Thread, m: Move)
    requires Interleave(s, moves) == Some((System(c, [thread]), [])) && CanMove(thread, m)
    ensures var (t, happened) := MoveThread(System(c, [thread]), 0, m);
            |t.threads| == 1 && Interleave(s, moves + [(0, m)]) == Some((System(t.breaker, [t.threads[0]]), happened))
  {
    MoveSnoc(s, moves, System(c, [thread]), [], 0, m);
    var (t, happened) := MoveThread(System(c, [thread]), 0, m);
    hide Interleave;
    assert t.threads == [t.threads[0]] && [] + happened == happened;
  }

  /** `call` alone is a run of one thread: it looks, takes the lock if the timeout has elapsed, reads the
      state, and its request succeeds or fails under the lock. */
  lemma CallIsMoves(b: Breaker, a: Attempt)
    ensures Interleave(Idle(b, 1), CallMoves(b, a)) == Some((Idle(Call(b, a).0, 1), CallEvents(b, a)))
    ensures Call(b, a).1.Rejected? <==> b.circuit.OPEN? && !Expired(b, a.askedAt)
    ensures Call(b, a).1.Answered? <==> !Call(b, a).1.Rejected? && a.ok
  {
    var s := Idle(b, 1);
    NoMovesYet(s);
    assert s == System(b, [Outside]);
    hide Interleave;
    AloneMoves(s, [], b, Outside, Enter(a.askedAt));
    var looked := [(0, Enter(a.askedAt))];
    assert [] + looked == looked;
    if b.circuit.OPEN? && Expired(b, a.askedAt) {
      AloneMoves(s, looked, b, AtLock, TakeLock);
      ReadAndEnd(s, b, a, looked + [(0, TakeLock)], Probe(b));
    } else {
      ReadAndEnd(s, b, a, looked, b);
    }
  }

  /** The second half of a call: the state is read, and unless it is OPEN the request runs. */
  lemma ReadAndEnd(s: System, b: Breaker, a: Attempt, moves: seq<(nat, Move)>, c: Breaker)
    requires Interleave(s, moves) == Some((System(c, [Reading]), [])) && c == StateAt(b, a.askedAt)
    requires moves == [(0, Enter(a.askedAt))]
                      + if b.circuit.OPEN? && Expired(b, a.askedAt) then [(0, TakeLock)] else []
    ensures Interleave(s, CallMoves(b, a)) == Some((Idle(Call(b, a).0, 1), CallEvents(b, a)))
  {
    hide Interleave;
    AloneMoves(s, moves, c, Reading, ReadState);
    var read := moves + [(0, ReadState)];
    assert Idle(Call(b, a).0, 1) == System(Call(b, a).0, [Outside]);
    if c.circuit.OPEN? {
      assert CallMoves(b, a) == read;
    } else {
      var m := if a.ok then Succeed else Fail(a.doneAt);
      AloneMoves(s, read, c, InFlight, m);
      assert CallMoves(b, a) == read + [(0, m)];
    }
  }

  /** The moves of attempts made one after the other, and the history they leave. */
  function CallsMoves(b: Breaker, attempts: seq<Attempt>): seq<(nat, Move)> {
    if attempts == [] then []
    else
      var n := |attempts| - 1;
      CallsMoves(b, attempts[..n]) + CallMoves(Calls(b, attempts[..n]).0, attempts[n])
  }

  function CallsEvents(b: Breaker, attempts: seq<Attempt>): seq<Event> {
    if attempts == [] then []
    else
      var n := |attempts| - 1;
      CallsEvents(b, attempts[..n]) + CallEvents(Calls(b, attempts[..n]).0, attempts[n])
  }

  lemma {:induction false} InterleaveOver(s: System, x: seq<(nat, Move)>, y: seq<(nat, Move)>)
    requires Interleave(s, x).Some? && Interleave(Interleave(s, x).value.0, y).Some?
    ensures var (t, before) := Interleave(s, x).value;
            var (u, after) := Interleave(t, y).value;
            Interleave(s, x + y) == Some((u, before + after))
    decreases |y|
  {
    if y == [] {
      assert x + y == x;
      assert Interleave(s, x).value.1 + [] == Interleave(s, x).value.1;
    } else {
      var front := y[..|y| - 1];
      var (t, before) := Interleave(s, x).value;
      assert (x + y)[..|x + y| - 1] == x + front;
      InterleaveOver(s, x, front);
      var (_, after) := Interleave(t, front).value;
      hide MoveThread;
      assert forall more: seq<Event> :: (before + after) + more == before + (after + more);
    }
  }

  lemma {:induction false} CallsAreMoves(b: Breaker, attempts: seq<Attempt>)
    ensures Interleave(Idle(b, 1), CallsMoves(b, attempts))
         == Some((Idle(Calls(b, attempts).0, 1), CallsEvents(b, attempts)))
  {
    if attempts == [] {
      NoMovesYet(Idle(b, 1));
    } else {
      hide *;
      var n := |attempts| - 1;
      var before := Calls(b, attempts[..n]).0;
      CallsAreMoves(b, attempts[..n]);
      CallIsMoves(before, attempts[n]);
      InterleaveOver(Idle(b, 1), CallsMoves(b, attempts[..n]), CallMoves(before, attempts[n]));
      CallsUnfold(b, attempts);
    }
  }

  lemma CallsUnfold(b: Breaker, attempts: seq<Attempt>)
    requires attempts != []
    ensures var n := |attempts| - 1;
            var before := Calls(b, attempts[..n]).0;
            && Calls(b, attempts).0 == Call(before, attempts[n]).0
            && CallsMoves(b, attempts) == CallsMoves(b, attempts[..n]) + CallMoves(before, attempts[n])
            && CallsEvents(b, attempts) == CallsEvents(b, attempts[..n]) + CallEvents(before, attempts[n])
  {
  }

  /** Used one call at a time, answered calls among them, the breaker counts the failures since the last
      answer, is CLOSED exactly below the threshold and otherwise OPEN: a probe never leaves it half open. */
  lemma CallsFollowHistory(threshold: int, timeout: real, attempts: seq<Attempt>)
    ensures var b := Calls(NewBreaker(threshold, timeout), attempts).0;
            var n := TrailingFailures(CallsEvents(NewBreaker(threshold, timeout), attempts));
            && b.failures == n && b.threshold == threshold
            && b.circuit == if n < Effective(threshold) then CLOSED else OPEN
  {
    var start := NewBreaker(threshold, timeout);
    CallsAreMoves(start, attempts);
    StateIsHistory(threshold, timeout, 1, CallsMoves(start, attempts));
    NeverHalfOpen(start, attempts);
    hide *;
    BreakerOfIdle(Calls(start, attempts).0);
  }

  lemma BreakerOfIdle(b: Breaker)
    ensures Idle(b, 1).breaker == b
  {
  }

  lemma {:induction false} NeverHalfOpen(b: Breaker, attempts: seq<Attempt>)
    requires !b.circuit.HALF_OPEN? && (b.circuit.OPEN? ==> b.failures >= b.threshold)
    ensures var c := Calls(b, attempts).0;
            && !c.circuit.HALF_OPEN? && c.threshold == b.threshold && (c.circuit.OPEN? ==> c.failures >= c.threshold)
  {
    if attempts != [] {
      NeverHalfOpen(b, attempts[..|attempts| - 1]);
    }
  }

  // ---------------------------------------------------------------- what a request comes to

  /** How many attempts a request makes: up to and with the first that is answered, else all. */
  function Tried(b: Breaker, attempts: seq<Attempt>, n: nat): nat
    requires n <= |attempts|
    decreases |attempts| - n
  {
    if n == |attempts| then n
    else if Call(Calls(b, attempts[..n]).0, attempts[n]).1.Answered? then n + 1
    else Tried(b, attempts, n + 1)
  }

  /** The attempt numbered `k` of a row would be answered. */
  predicate AnsweredAt(b: Breaker, attempts: seq<Attempt>, k: nat)
    requires k < |attempts|
  {
    Call(Calls(b, attempts[..k]).0, attempts[k]).1.Answered?
  }

  lemma {:induction false} TriedBounds(b: Breaker, attempts: seq<Attempt>, n: nat)
    requires n <= |attempts|
    ensures n <= Tried(b, attempts, n) <= |attempts|
    ensures forall k :: n <= k < Tried(b, attempts, n) - 1 ==> !AnsweredAt(b, attempts, k)
    ensures Tried(b, attempts, n) < |attempts| ==>
              Tried(b, attempts, n) > n && AnsweredAt(b, attempts, Tried(b, attempts, n) - 1)
    decreases |attempts| - n
  {
    if n < |attempts| && !AnsweredAt(b, attempts, n) {
      TriedBounds(b, attempts, n + 1);
    }
  }

  lemma OneMoreCall(b: Breaker, attempts: seq<Attempt>, n: nat)
    requires n < |attempts|
    ensures var (c, v) := Call(Calls(b, attempts[..n]).0, attempts[n]);
            Calls(b, attempts[..n + 1]) == (c, Calls(b, attempts[..n]).1 + if v.Rejected? then 0 else 1)
  {
    assert attempts[..n + 1][..n] == attempts[..n];
  }

  lemma RequestStep(b: Breaker, attempts: seq<Attempt>, n: nat)
    requires n < |attempts|
    ensures var (c, v) := Call(Calls(b, attempts[..n]).0, attempts[n]);
            var here := if v.Rejected? then 0 else 1;
            Request(Calls(b, attempts[..n]).0, attempts[n..])
            == if v.Answered? then (c, true, here)
               else (var (d, answered, more) := Request(c, attempts[n + 1..]); (d, answered, here + more))
  {
    assert attempts[n..][0] == attempts[n] && attempts[n..][1..] == attempts[n + 1..];
    hide Call, Calls;
  }

  lemma {:induction false} RequestFrom(b: Breaker, attempts: seq<Attempt>, n: nat)
    requires n <= |attempts|
    ensures n <= Tried(b, attempts, n) <= |attempts|
    ensures var (c, before) := Calls(b, attempts[..n]);
            var (d, answered, more) := Request(c, attempts[n..]);
            var m := Tried(b, attempts, n);
            && Calls(b, attempts[..m]) == (d, before + more)
            && (answered <==> m > n && AnsweredAt(b, attempts, m - 1))
    decreases |attempts| - n
  {
    hide Call, Calls;
    TriedBounds(b, attempts, n);
    if n < |attempts| {
      OneMoreCall(b, attempts, n);
      RequestStep(b, attempts, n);
      if !AnsweredAt(b, attempts, n) {
        RequestFrom(b, attempts, n + 1);
      }
      hide Request;
    }
  }

  /** A request is its attempts in a row up to the first answer; an answered one leaves the breaker as good
      as new, and counts no more calls than it made. */
  lemma RequestIsItsTries(b: Breaker, attempts: seq<Attempt>)
    ensures var n := Tried(b, attempts, 0);
            var (d, answered, calls) := Request(b, attempts);
            && n <= |attempts| && Calls(b, attempts[..n]) == (d, calls)
            && (forall k :: 0 <= k < n - 1 ==> !AnsweredAt(b, attempts, k))
            && (answered <==> exists k :: 0 <= k < |attempts| && AnsweredAt(b, attempts, k))
            && (answered ==> n > 0 && AnsweredAt(b, attempts, n - 1) && d.circuit.CLOSED? && d.failures == 0)
            && (!answered ==> n == |attempts|)
  {
    hide *;
    RequestFrom(b, attempts, 0);
    TriedBounds(b, attempts, 0);
    NoCalls(b, attempts);
    var n := Tried(b, attempts, 0);
    if Request(b, attempts).1 {
      AnswerCloses(b, attempts, n - 1);
    } else {
      assert forall k :: 0 <= k < |attempts| ==> !AnsweredAt(b, attempts, k);
    }
  }

  lemma NoCalls(b: Breaker, attempts: seq<Attempt>)
    ensures attempts[..0] == [] && attempts[0..] == attempts && Calls(b, []) == (b, 0)
  {
  }

  lemma AnswerCloses(b: Breaker, attempts: seq<Attempt>, k: nat)
    requires k < |attempts| && AnsweredAt(b, attempts, k)
    ensures var c := Calls(b, attempts[..k + 1]).0; c.circuit.CLOSED? && c.failures == 0
  {
    OneMoreCall(b, attempts, k);
  }

  /** All attempts that several requests make. */
  function AllTries(b: Breaker, requests: seq<seq<Attempt>>): seq<Attempt> {
    if requests == [] then []
    else
      var n := |requests| - 1;
      var c := Requests(b, requests[..n]).0;
      TriedBounds(c, requests[n], 0);
      AllTries(b, requests[..n]) + requests[n][..Tried(c, requests[n], 0)]
  }

  /** So the state after any requests is that of their tries in a row, and CallsFollowHistory speaks of it. */
  lemma {:induction false} RequestsAreTheirTries(b: Breaker, requests: seq<seq<Attempt>>)
    ensures Requests(b, requests) == Calls(b, AllTries(b, requests))
  {
    if requests != [] {
      var n := |requests| - 1;
      var c := Requests(b, requests[..n]).0;
      RequestsAreTheirTries(b, requests[..n]);
      RequestIsItsTries(c, requests[n]);
      CallsConcat(b, AllTries(b, requests[..n]), requests[n][..Tried(c, requests[n], 0)]);
      hide Request, Tried, Calls;
    }
  }

  // ---------------------------------------------------------------- the classes

  class CircuitBreaker {
    const threshold: int
    const timeout: real
    var circuit: Circuit
    var failures: nat
    var lastFailure: real

    function View(): Breaker
      reads this
    {
      Breaker(threshold, timeout, circuit, failures, lastFailure)
    }

    constructor (threshold: int, timeout: real)
      ensures View() == NewBreaker(threshold, timeout)
    {
      this.threshold, this.timeout := threshold, timeout;
      circuit, failures, lastFailure := CLOSED, 0, 0.0;
    }

    method State(now: real) returns (r: Circuit)
      modifies this`circuit
      ensures View() == StateAt(old(View()), now) && r == circuit
    {
      if circuit == OPEN {
        if now - lastFailure >= timeout {
          if circuit == OPEN { circuit := HALF_OPEN; }
        }
      }
      r := circuit;
    }

    method RecordSuccess()
      modifies this`circuit, this`failures
      ensures View() == OnSuccess(old(View()))
    {
      circuit := CLOSED;
      failures := 0;
    }

    method RecordFailure(now: real)
      modifies this`circuit, this`failures, this`lastFailure
      ensures View() == OnFailure(old(View()), now)
    {
      failures := failures + 1;
      lastFailure := now;
      if failures >= threshold { circuit := OPEN; }
    }

    method TryCall(a: Attempt) returns (v: Verdict)
      modifies this
      ensures (View(), v) == Call(old(View()), a)
    {
      var current := State(a.askedAt);
      if current == OPEN { return Rejected; }
      if a.ok {
        RecordSuccess();
        v := Answered;
      } else {
        RecordFailure(a.doneAt);
        v := Raised;
      }
    }

    method CallWithRetry(attempts: seq<Attempt>) returns (answered: bool, calls: nat)
      modifies this
      ensures (View(), answered, calls) == Request(old(View()), attempts)
    {
      answered, calls := false, 0;
      for n := 0 to |attempts|
        invariant Request(old(View()), attempts)
               == (var (b, ok, more) := Request(View(), attempts[n..]); (b, ok, calls + more))
      {
        assert attempts[n..][0] == attempts[n] && attempts[n..][1..] == attempts[n + 1..];
        var v := TryCall(attempts[n]);
        if v != Rejected { calls := calls + 1; }
        if v == Answered { return true, calls; }
      }
      answered := false;
    }
  }

  // ---------------------------------------------------------------- one breaker per node

  const FAILURE_THRESHOLD: int := 5
  const RECOVERY_TIMEOUT: real := 30.0

  /** `_get_breaker`: the breaker of a node, made on first use. */
  function BreakerOf(bs: map<string, Breaker>, node: string): Breaker {
    if node in bs then bs[node] else NewBreaker(FAILURE_THRESHOLD, RECOVERY_TIMEOUT)
  }

  function NodeRequests(bs: map<string, Breaker>, rs: seq<(string, seq<Attempt>)>): map<string, Breaker> {
    if rs == [] then bs
    else
      var before := NodeRequests(bs, rs[..|rs| - 1]);
      var (node, attempts) := rs[|rs| - 1];
      before[node := Request(BreakerOf(before, node), attempts).0]
  }

  function OwnRequests(rs: seq<(string, seq<Attempt>)>, node: string): seq<seq<Attempt>> {
    if rs == [] then []
    else OwnRequests(rs[..|rs| - 1], node) + if rs[|rs| - 1].0 == node then [rs[|rs| - 1].1] else []
  }

  /** A node's breaker is what its own requests made of it: other nodes' failures never show. */
  lemma {:induction false} NodesAreIsolated(rs: seq<(string, seq<Attempt>)>, node: string)
    ensures BreakerOf(NodeRequests(map[], rs), node)
         == Requests(NewBreaker(5, 30.0), OwnRequests(rs, node)).0
  {
    if rs != [] {
      var n := |rs| - 1;
      NodesAreIsolated(rs[..n], node);
      var mine := OwnRequests(rs[..n], node);
      if rs[n].0 == node {
        assert (mine + [rs[n].1])[..|mine|] == mine;
      } else {
        assert mine + [] == mine;
      }
    }
  }
}
