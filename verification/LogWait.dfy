/** The load test's Executor: a process that stays in the background is watched until its log
    shows a given text, it ends, or the waiting time is over; then it is polled once more. */
module LogWait {
  import opened Text

  /** sys.maxsize of a 64-bit interpreter. */
  const MAXSIZE := 0x7FFF_FFFF_FFFF_FFFF

  const MICROS := 1_000_000

  const DAY := 86_400

  /** One turn of the loop, after its sleep: whether the log shows the text, what poll returns,
      and the clock, in microseconds. */
  datatype Turn = Turn(seen: bool, poll: Option<int>, clock: int)

  /** The seconds field of a time difference, which leaves whole days out. */
  function Seconds(micros: int): int {
    (micros / MICROS) % DAY
  }

  /** The process has ended, as the comparison with -sys.maxsize finds out. */
  predicate Ended(poll: Option<int>) {
    poll.Some? && poll.value > -MAXSIZE
  }

  predicate TimeIsOver(t: Turn, start: int, wait: nat) {
    t.poll == None && Seconds(t.clock - start) > wait
  }

  predicate LeavesLoop(t: Turn, start: int, wait: nat) {
    t.seen || Ended(t.poll) || TimeIsOver(t, start, wait)
  }

  /** Every turn sleeps for at least half a second. */
  ghost predicate Sleeps(turns: nat -> Turn, start: int) {
    forall k: nat :: turns(k).clock - start >= (k + 1) * (MICROS / 2)
  }

  /** The first 2 (wait + 1) turns lie within a day of the start, and no return code is below
      what the loop can see. */
  ghost predicate Plain(turns: nat -> Turn, start: int, wait: nat) {
    && (forall k: nat :: k < 2 * (wait + 1) ==> turns(k).clock - start < DAY * MICROS)
    && (forall k: nat :: turns(k).poll.Some? ==> turns(k).poll.value > -MAXSIZE)
  }

  /** At the latest in turn 2 (wait + 1) the loop is left. */
  lemma {:induction false} LastTurnLeaves(turns: nat -> Turn, start: int, wait: nat)
    requires Sleeps(turns, start) && Plain(turns, start, wait)
    ensures LeavesLoop(turns(2 * wait + 1), start, wait)
  {
    var t := turns(2 * wait + 1);
    var d := t.clock - start;
    assert d >= (2 * wait + 2) * (MICROS / 2);
    assert (2 * wait + 2) * (MICROS / 2) == (wait + 1) * MICROS;
    SecondsGrow(d, wait + 1);
  }

  lemma {:induction false} SecondsGrow(d: int, s: nat)
    requires s * MICROS <= d < DAY * MICROS
    ensures Seconds(d) >= s
  {
    assert s <= d / MICROS < DAY;
  }

  /** The process in the background, its caller, and what the outside does to it. */
  class Executor {
    var returncode: Option<int>
    var registered: bool

    constructor ()
      ensures returncode == None && !registered
    {
      returncode, registered := None, false;
    }

    /** _handleLogOutputWaiting: the number of turns made. The last of them is the first one that
        shows the text, finds a code above -sys.maxsize, or finds the process running with the
        seconds field of the time past the limit; in the turn that shows the text the process is
        not polled any more. */
    method HandleLogOutputWaiting(turns: nat -> Turn, start: int, wait: nat) returns (made: nat)
      requires Sleeps(turns, start) && Plain(turns, start, wait)
      modifies this`returncode
      ensures 0 < made <= 2 * (wait + 1)
      ensures var t := turns(made - 1);
              || t.seen
              || (t.poll.Some? && t.poll.value > -0x7FFF_FFFF_FFFF_FFFF)
              || (t.poll == None && ((t.clock - start) / 1_000_000) % 86_400 > wait)
      ensures forall k: nat :: k < made - 1 ==>
                var t := turns(k);
                && !t.seen
                && !(t.poll.Some? && t.poll.value > -0x7FFF_FFFF_FFFF_FFFF)
                && !(t.poll == None && ((t.clock - start) / 1_000_000) % 86_400 > wait)
      ensures forall k: nat :: turns(k).seen ==> made <= k + 1
      ensures returncode ==
              if !turns(made - 1).seen then turns(made - 1).poll
              else if made == 1 then old(returncode)
              else turns(made - 2).poll
    {
      made := 0;
      while true
        invariant made <= 2 * wait + 1
        invariant forall k: nat :: k < made ==> !LeavesLoop(turns(k), start, wait)
        invariant returncode == if made == 0 then old(returncode) else turns(made - 1).poll
        decreases 2 * wait + 1 - made
      {
        var t := turns(made);
        if made == 2 * wait + 1 {
          LastTurnLeaves(turns, start, wait);
        }
        made := made + 1;
        if t.seen {
          break;
        }
        returncode := t.poll;
        if Ended(returncode) {
          break;
        }
        if Seconds(t.clock - start) > wait {
          if returncode == None {
            break;
          }
        }
      }
    }

    /** _handleNonBlockingProcess; last is what the poll after the waiting returns. */
    method HandleNonBlockingProcess(waits: bool, turns: nat -> Turn, start: int, wait: nat, last: Option<int>)
        returns (raised: bool)
      requires waits ==> Sleeps(turns, start) && Plain(turns, start, wait)
      requires !registered
      modifies this
      ensures registered <==> last == None
      ensures raised <==> last.Some?
      ensures returncode == last
    {
      if waits {
        var made := HandleLogOutputWaiting(turns, start, wait);
      }
      returncode := last;
      if returncode.Some? {
        return true;
      }
      registered := true;
      return false;
    }

    /** execute, of a process in the background. */
    method Execute(opens: bool, waits: bool, turns: nat -> Turn, start: int, wait: nat, last: Option<int>)
        returns (raised: bool)
      requires waits ==> Sleeps(turns, start) && Plain(turns, start, wait)
      requires !registered
      modifies this
      ensures registered <==> opens && last == None
      ensures raised <==> !registered
    {
      if !opens {
        return true;
      }
      raised := HandleNonBlockingProcess(waits, turns, start, wait, last);
    }
  }

  /** A process that runs on without showing the text is given up on exactly when the seconds
      field passes the waiting time; with a waiting time of a day less one second or more that
      never happens, and the loop does not end. */
  lemma {:induction false} LongWaitsNeverEnd(turns: nat -> Turn, start: int, wait: nat)
    requires forall k: nat :: !turns(k).seen && turns(k).poll == None
    ensures forall k: nat :: LeavesLoop(turns(k), start, wait) <==>
                             ((turns(k).clock - start) / 1_000_000) % 86_400 > wait
    ensures wait >= 86_399 ==> forall k: nat :: !LeavesLoop(turns(k), start, wait)
  {
    forall k: nat ensures Seconds(turns(k).clock - start) <= DAY - 1 {
    }
  }
}
