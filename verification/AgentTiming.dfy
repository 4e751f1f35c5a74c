/** The time budgets around the calls of an agent: a triage run and a doer's question, with two kinds of retry,
    exponential backoff and a deadline. Time is counted in seconds and passes only in posts and sleeps. */
module AgentTiming {
  import opened Basics
  import opened Text
  import opened AgentCall

  // ---------------------------------------------------------------------------
  // backend failures
  // ---------------------------------------------------------------------------

  const BACKEND_MARKERS: seq<string> := ["no deployments available", "connection refused", "stream_error",
    "apiconnectionerror", "service unavailable", "upstream connect error", "econnrefused", "litellm", ":4000", "503"]

  /** is_backend_unavailable */
  predicate BackendUnavailable(text: string, state: string) {
    || "transport-error" <= state
    || (state == "failed" && (Strip(Lower(text)) == "" || exists m | m in BACKEND_MARKERS :: Contains(Lower(text), m)))
  }

  /** The signs of a backend that is down: the post failed, or the task failed with no text but blanks, or with one
      that, in small letters, has one of the markers somewhere in it. */
  ghost predicate DownSigns(text: string, state: string) {
    || "transport-error" <= state
    || (state == "failed" &&
        (AllOf(Lower(text), IsSpace) || exists m :: m in BACKEND_MARKERS && OccursIn(m, Lower(text))))
  }

  lemma UnavailableIff(text: string, state: string)
    ensures BackendUnavailable(text, state) <==> DownSigns(text, state)
  {
    var low := Lower(text);
    StripsToNothing(low, IsSpace);
    forall m ensures Contains(low, m) <==> OccursIn(m, low) { ContainsIff(low, m); }
  }

  /** int(x) for a float: truncation towards zero. */
  function Trunc(x: real): int { if x >= 0.0 then x.Floor else -((-x).Floor) }

  // ---------------------------------------------------------------------------
  // the triage run
  // ---------------------------------------------------------------------------

  datatype Result = Sent | AllClear | Empty | Malformed | Error

  /** What the reply's text amounts to: classify_tag, strip_roster and is_empty_finding together. */
  datatype Reading = ReadProblem | ReadAllClear | ReadMalformed

  function Outcome(read: string -> Reading, text: string): Result {
    if text == "" then Empty else match read(text)
      case ReadAllClear => AllClear
      case ReadProblem => Sent
      case ReadMalformed => Malformed
  }

  /** max(60, int(BUDGET * 0.5)) */
  function PerCall(budget: int): (r: int)
    ensures r >= 60
  {
    if budget <= 0 then 60 else Max(60, budget / 2)
  }

  // ---------------------------------------------------------------------------
  // the record of a run
  // ---------------------------------------------------------------------------

  /** A call of the agent: when it began, the number of its first post, how it ended, and whether that means that the
      backend is down. */
  datatype Attempt = Attempt(start: real, from: nat, end: Progress, down: bool)

  /** What it takes for an attempt to be a call of this agent. */
  ghost predicate IsCall(net: Network, budget: int, a: Attempt) {
    Transcript(net, budget, a.start, a.from, a.end) && (a.down <==> DownSigns(a.end.text, a.end.state))
  }

  ghost function Calls(net: Network, budget: int): Attempt -> bool { a => IsCall(net, budget, a) }

  /** How many of the attempts found the backend down. */
  function Downs(attempts: seq<Attempt>): (n: nat)
    ensures n <= |attempts|
  {
    if attempts == [] then 0
    else Downs(attempts[..|attempts| - 1]) + if attempts[|attempts| - 1].down then 1 else 0
  }

  function Answers(attempts: seq<Attempt>): nat { |attempts| - Downs(attempts) }

  /** How long to wait when the backend is down for the n-th time, counted from 0. */
  function Backoff(n: nat): int { if n == 0 then 20 else if n == 1 then 40 else if n == 2 then 80 else 120 }

  /** These attempts were made and each was followed by another one, which begins now with post number `sent`: after a
      failure of the backend, while there is a whole second left of the window, after a pause of the backoff, or of
      what is left if that is less; at once, but only one time in all, after a reply whose text calls for it. */
  ghost predicate Tried(made: Attempt -> bool, start: real, deadline: real, again: string -> bool,
                        attempts: seq<Attempt>, now: real, sent: nat)
    decreases |attempts|
  {
    if attempts == [] then now == start && sent == 0
    else
      var front, a := attempts[..|attempts| - 1], attempts[|attempts| - 1];
      && Tried(made, start, deadline, again, front, a.start, a.from)
      && made(a) && sent == a.end.sent && now == a.end.now + Wait(deadline, front, a) as real
      && if a.down then Trunc(deadline - a.end.now) > 0 else again(a.end.text) && Answers(front) == 0
  }

  /** The record of a run: the attempts that were followed by another one, and the last one. */
  ghost predicate Recorded(made: Attempt -> bool, start: real, deadline: real, again: string -> bool,
                           earlier: seq<Attempt>, last: Attempt)
  {
    Tried(made, start, deadline, again, earlier, last.start, last.from) && made(last)
  }

  /** The seconds between an attempt and the next one. */
  function Wait(deadline: real, earlier: seq<Attempt>, a: Attempt): int {
    if a.down then Min(Backoff(Downs(earlier)), Trunc(deadline - a.end.now)) else 0
  }

  lemma OneMore(made: Attempt -> bool, start: real, deadline: real, again: string -> bool, attempts: seq<Attempt>,
                a: Attempt, now: real)
    requires Tried(made, start, deadline, again, attempts, a.start, a.from) && made(a)
    requires now == a.end.now + Wait(deadline, attempts, a) as real
    requires if a.down then Trunc(deadline - a.end.now) > 0 else again(a.end.text) && Answers(attempts) == 0
    ensures Tried(made, start, deadline, again, attempts + [a], now, a.end.sent)
    ensures Downs(attempts + [a]) == Downs(attempts) + if a.down then 1 else 0
  {
    assert (attempts + [a])[..|attempts|] == attempts;
  }

  /** The backend was down and there is time to wait. */
  lemma Requeued(made: Attempt -> bool, start: real, deadline: real, again: string -> bool, attempts: seq<Attempt>,
                 a: Attempt, left: int, pause: int)
    requires Tried(made, start, deadline, again, attempts, a.start, a.from) && made(a) && a.down
    requires left == Trunc(deadline - a.end.now) && left > 0 && pause == Min(Backoff(Downs(attempts)), Max(1, left))
    ensures Tried(made, start, deadline, again, attempts + [a], a.end.now + pause as real, a.end.sent)
    ensures Downs(attempts + [a]) == Downs(attempts) + 1
    ensures Backoff(Downs(attempts + [a])) == Min(Backoff(Downs(attempts)) * 2, 120)
    ensures 1 <= pause && a.end.now + pause as real <= deadline
  {
    OneMore(made, start, deadline, again, attempts, a, a.end.now + pause as real);
  }

  /** One call, and whether it found the backend down. */
  method TryAgent(net: Network, budget: int, start: real, from: nat)
      returns (text: string, state: string, now: real, sent: nat, down: bool, ghost a: Attempt)
    ensures Calls(net, budget)(a) && a.start == start && a.from == from
    ensures text == a.end.text && state == a.end.state && now == a.end.now && sent == a.end.sent && down == a.down
    ensures start <= now < start + MaxR(30.0, budget as real) + 15.0
  {
    ghost var turns;
    text, state, now, sent, turns := CallAgent(net, budget, start, from);
    down := BackendUnavailable(text, state);
    UnavailableIff(text, state);
    a := Attempt(start, from, Progress(text, state, now, sent, turns), down);
  }

  /** The texts after which the triage asks once more. */
  function Unproductive(read: string -> Reading): string -> bool { t => t == "" || read(t) == ReadMalformed }

  method Classify(read: string -> Reading, text: string) returns (result: Result)
    ensures result == Outcome(read, text) && result != Error
  {
    if text == "" {
      return Empty;
    }
    match read(text)
    case ReadAllClear => result := AllClear;
    case ReadProblem => result := Sent;
    case ReadMalformed => result := Malformed;
  }

  /** The triage loop: every run ends, its record says which calls were made and when, and the result is that of the
      last one. Calls and sleeps together take less than the requeue window plus two calls, and without a requeue less
      than two calls; an `error` means that the backend was still down when the window was used up to the last second;
      the run gives up on an unproductive reply only after a second one. */
  method TriageRun(net: Network, read: string -> Reading, budget: int, window: int, start: real)
      returns (result: Result, now: real, ghost earlier: seq<Attempt>, ghost last: Attempt)
    ensures Recorded(Calls(net, PerCall(budget)), start, start + window as real, Unproductive(read), earlier, last)
    ensures now == last.end.now
    ensures result == Error <==> last.down
    ensures result == Empty <==> !last.down && last.end.text == ""
    ensures result == Sent <==> !last.down && last.end.text != "" && read(last.end.text) == ReadProblem
    ensures result == AllClear <==> !last.down && last.end.text != "" && read(last.end.text) == ReadAllClear
    ensures result == Error ==> now > start + window as real - 1.0
    ensures result in {Empty, Malformed} ==> Answers(earlier) == 1
    ensures Answers(earlier) <= 1
    ensures start <= now < start + MaxR(0.0, window as real) + 2.0 * (PerCall(budget) as real + 15.0)
    ensures Downs(earlier) == 0 ==> now < start + 2.0 * (PerCall(budget) as real + 15.0)
  {
    result, now, earlier, last := TriageLoop(net, read, PerCall(budget), start + window as real, start,
                                             Calls(net, PerCall(budget)), Unproductive(read));
  }

  /** The state of the triage at the head of its loop, with the bounds on the time used so far. */
  ghost predicate UnderWay(made: Attempt -> bool, start: real, deadline: real, again: string -> bool, callTime: real,
                           earlier: seq<Attempt>, now: real, sent: nat, backoff: int, second: bool)
  {
    && Tried(made, start, deadline, again, earlier, now, sent)
    && backoff == Backoff(Downs(earlier)) && Answers(earlier) == (if second then 1 else 0)
    && start <= now <= MaxR(start, deadline) + (if second then callTime else 0.0)
    && (Downs(earlier) == 0 ==> now <= start + (if second then callTime else 0.0))
  }

  lemma WaitsAgain(made: Attempt -> bool, start: real, deadline: real, again: string -> bool, callTime: real,
                   earlier: seq<Attempt>, backoff: int, second: bool, a: Attempt, left: int, pause: int)
    requires UnderWay(made, start, deadline, again, callTime, earlier, a.start, a.from, backoff, second)
    requires made(a) && a.down && a.start <= a.end.now && callTime >= 0.0
    requires left == Trunc(deadline - a.end.now) && left > 0 && pause == Min(backoff, Max(1, left))
    ensures UnderWay(made, start, deadline, again, callTime, earlier + [a], a.end.now + pause as real, a.end.sent,
                     Min(backoff * 2, 120), second)
    ensures 1 <= pause && a.end.now + pause as real <= deadline
  {
    Requeued(made, start, deadline, again, earlier, a, left, pause);
  }

  lemma AsksAgain(made: Attempt -> bool, start: real, deadline: real, again: string -> bool, callTime: real,
                  earlier: seq<Attempt>, backoff: int, a: Attempt)
    requires UnderWay(made, start, deadline, again, callTime, earlier, a.start, a.from, backoff, false)
    requires made(a) && !a.down && again(a.end.text) && a.start <= a.end.now < a.start + callTime
    ensures UnderWay(made, start, deadline, again, callTime, earlier + [a], a.end.now, a.end.sent, backoff, true)
  {
    OneMore(made, start, deadline, again, earlier, a, a.end.now);
  }

  /** The end of a triage. */
  ghost predicate Finished(made: Attempt -> bool, read: string -> Reading, start: real, deadline: real,
                           again: string -> bool, callTime: real, earlier: seq<Attempt>, last: Attempt, result: Result,
                           now: real)
  {
    && Recorded(made, start, deadline, again, earlier, last) && now == last.end.now
    && result == (if last.down then Error else Outcome(read, last.end.text))
    && (result == Error ==> now > deadline - 1.0)
    && (result in {Empty, Malformed} ==> Answers(earlier) == 1) && Answers(earlier) <= 1
    && start <= now < MaxR(start, deadline) + 2.0 * callTime
    && (Downs(earlier) == 0 ==> now < start + 2.0 * callTime)
  }

  method TriageLoop(net: Network, read: string -> Reading, perCall: int, deadline: real, start: real,
                    ghost made: Attempt -> bool, ghost again: string -> bool)
      returns (result: Result, now: real, ghost earlier: seq<Attempt>, ghost last: Attempt)
    requires made == Calls(net, perCall) && again == Unproductive(read) && perCall >= 60
    ensures Finished(made, read, start, deadline, again, perCall as real + 15.0, earlier, last, result, now)
  {
    ghost var callTime := perCall as real + 15.0;
    var backoff, sent, driftRetryUsed := 20, 0, false;
    now, earlier := start, [];
    while true
      invariant UnderWay(made, start, deadline, again, callTime, earlier, now, sent, backoff, driftRetryUsed)
      decreases !driftRetryUsed, Steps(deadline, now)
    {
      var done;
      done, result, now, sent, backoff, driftRetryUsed, earlier, last :=
        TriageTurn(net, read, perCall, deadline, start, made, again, earlier, now, sent, backoff, driftRetryUsed);
      if done {
        return;
      }
    }
  }

  lemma GivesUp(made: Attempt -> bool, read: string -> Reading, start: real, deadline: real, again: string -> bool,
                callTime: real, earlier: seq<Attempt>, backoff: int, second: bool, last: Attempt)
    requires UnderWay(made, start, deadline, again, callTime, earlier, last.start, last.from, backoff, second)
    requires made(last) && last.down && Trunc(deadline - last.end.now) <= 0
    requires last.start <= last.end.now < last.start + callTime
    ensures Finished(made, read, start, deadline, again, callTime, earlier, last, Error, last.end.now)
  {}

  lemma Concludes(made: Attempt -> bool, read: string -> Reading, start: real, deadline: real, again: string -> bool,
                  callTime: real, earlier: seq<Attempt>, backoff: int, second: bool, last: Attempt, result: Result)
    requires UnderWay(made, start, deadline, again, callTime, earlier, last.start, last.from, backoff, second)
    requires made(last) && !last.down && result == Outcome(read, last.end.text)
    requires second || result in {AllClear, Sent}
    requires last.start <= last.end.now < last.start + callTime
    ensures Finished(made, read, start, deadline, again, callTime, earlier, last, result, last.end.now)
  {}

  /** One turn of the triage loop: a call, and what follows from it. */
  method TriageTurn(net: Network, read: string -> Reading, perCall: int, deadline: real, start: real,
                    ghost made: Attempt -> bool, ghost again: string -> bool, ghost earlier: seq<Attempt>, began: real,
                    from: nat, wait: int, second: bool)
      returns (done: bool, result: Result, now: real, sent: nat, backoff: int, driftRetryUsed: bool,
               ghost attempts: seq<Attempt>, ghost last: Attempt)
    requires made == Calls(net, perCall) && again == Unproductive(read) && perCall >= 60
    requires UnderWay(made, start, deadline, again, perCall as real + 15.0, earlier, began, from, wait, second)
    ensures done ==>
              Finished(made, read, start, deadline, again, perCall as real + 15.0, attempts, last, result, now)
    ensures !done ==>
              && UnderWay(made, start, deadline, again, perCall as real + 15.0, attempts, now, sent, backoff,
                          driftRetryUsed)
              && (second ==> driftRetryUsed)
              && (driftRetryUsed == second ==> Steps(deadline, now) < Steps(deadline, began))
  {
    ghost var callTime := perCall as real + 15.0;
    var text, state, down;
    text, state, now, sent, down, last := TryAgent(net, perCall, began, from);
    done, backoff, driftRetryUsed, attempts := true, wait, second, earlier;
    if down {
      result := Error;
      done, now, backoff, attempts :=
        WaitOrGiveUp(read, deadline, start, made, again, callTime, earlier, now, wait, second, last);
      return;
    }
    result := Classify(read, text);
    if result == AllClear || result == Sent || driftRetryUsed {
      Concludes(made, read, start, deadline, again, callTime, earlier, backoff, second, last, result);
      return;
    }
    AsksAgain(made, start, deadline, again, callTime, earlier, backoff, last);
    done, driftRetryUsed, attempts := false, true, earlier + [last];
  }

  /** The backend is down: a pause before the next call, or the end of the run. */
  method WaitOrGiveUp(ghost read: string -> Reading, deadline: real, ghost start: real, ghost made: Attempt -> bool,
                      ghost again: string -> bool, ghost callTime: real, ghost earlier: seq<Attempt>, now: real,
                      wait: int, ghost second: bool, ghost last: Attempt)
      returns (done: bool, later: real, backoff: int, ghost attempts: seq<Attempt>)
    requires UnderWay(made, start, deadline, again, callTime, earlier, last.start, last.from, wait, second)
    requires made(last) && last.down && now == last.end.now && last.start <= now < last.start + callTime
    ensures done ==> Finished(made, read, start, deadline, again, callTime, attempts, last, Error, later)
    ensures !done ==>
              && UnderWay(made, start, deadline, again, callTime, attempts, later, last.end.sent, backoff, second)
              && Steps(deadline, later) < Steps(deadline, last.start)
  {
    done, later, backoff, attempts := true, now, wait, earlier;
    var remaining := Trunc(deadline - now);
    if remaining <= 0 {
      GivesUp(made, read, start, deadline, again, callTime, earlier, wait, second, last);
      return;
    }
    var pause := Min(wait, Max(1, remaining));
    WaitsAgain(made, start, deadline, again, callTime, earlier, wait, second, last, remaining, pause);
    later, attempts := now + pause as real, earlier + [last];
    FloorDrops(deadline - last.start, deadline - later);
    done, backoff := false, Min(wait * 2, 120);
  }

  /** The doer asks no second time, whatever the text. */
  function Never(): string -> bool { (t: string) => false }

  /** The doer's question: the same requeue, no corrective retry, so one call past the window at most. */
  method AskAgent(net: Network, budget: int, window: int, start: real)
      returns (text: string, state: string, now: real, ghost earlier: seq<Attempt>, ghost last: Attempt)
    ensures Recorded(Calls(net, budget), start, start + window as real, Never(), earlier, last)
    ensures text == last.end.text && state == last.end.state && now == last.end.now
    ensures last.down ==> now > start + window as real - 1.0
    ensures start <= now < start + MaxR(0.0, window as real) + MaxR(30.0, budget as real) + 15.0
  {
    text, state, now, earlier, last := AskLoop(net, budget, start + window as real, start, Calls(net, budget), Never());
  }

  method AskLoop(net: Network, budget: int, deadline: real, start: real, ghost made: Attempt -> bool,
                 ghost again: string -> bool)
      returns (text: string, state: string, now: real, ghost earlier: seq<Attempt>, ghost last: Attempt)
    requires made == Calls(net, budget)
    ensures Recorded(made, start, deadline, again, earlier, last)
    ensures text == last.end.text && state == last.end.state && now == last.end.now
    ensures last.down ==> now > deadline - 1.0
    ensures start <= now < MaxR(start, deadline) + MaxR(30.0, budget as real) + 15.0
  {
    var backoff, sent := 20, 0;
    now, earlier := start, [];
    while true
      invariant Tried(made, start, deadline, again, earlier, now, sent) && backoff == Backoff(Downs(earlier))
      invariant start <= now <= MaxR(start, deadline)
      decreases Steps(deadline, now)
    {
      ghost var before := now;
      var down;
      text, state, now, sent, down, last := TryAgent(net, budget, now, sent);
      if !down {
        return;
      }
      var remaining := Trunc(deadline - now);
      if remaining <= 0 {
        return;
      }
      var pause := Min(backoff, Max(1, remaining));
      Requeued(made, start, deadline, again, earlier, last, remaining, pause);
      now, earlier := now + pause as real, earlier + [last];
      FloorDrops(deadline - before, deadline - now);
      backoff := Min(backoff * 2, 120);
    }
  }

  // ---------------------------------------------------------------------------
  // two attempts can take longer than the budget they split
  // ---------------------------------------------------------------------------

  const WORKING := Reply("", "working", true)

  /** An agent that holds every first post for all but twenty seconds of the call, every poll for fifteen, and
      never finishes. */
  function SlowNetwork(perCall: int): Network {
    i => if i % 2 == 0 then Post(perCall as real - 20.0, false, WORKING) else Post(15.0, false, WORKING)
  }

  lemma SlowCall(perCall: int, start: real, sent: nat)
    requires perCall >= 60 && sent % 2 == 0
    ensures var p := Call(SlowNetwork(perCall), perCall, start, sent);
            p.text == "" && p.state == "working" && p.now == start + perCall as real + 5.0 && p.sent == sent + 2
  {
    var net, deadline := SlowNetwork(perCall), start + perCall as real;
    var p := Progress("", "working", deadline - 20.0, sent + 1, [Turn(start, SendTimeout(perCall))]);
    assert !Terminal("working");
    assert Call(net, perCall, start, sent) == Poll(net, deadline, p);
    var q := After(p, net(p.sent), Turn(deadline - 10.0, 15.0));
    assert q.now == deadline + 5.0 && q.state == "working" && q.text == "";
    assert Poll(net, deadline, p) == Poll(net, deadline, q);
  }

  /** For every budget there is an agent whose two attempts, both answered and both unproductive, take longer
      together than the budget they are meant to split. */
  lemma TwoAttemptsOverrunBudget(budget: int, start: real)
    ensures var net, perCall := SlowNetwork(PerCall(budget)), PerCall(budget);
            var first := Call(net, perCall, start, 0);
            var second := Call(net, perCall, first.now, first.sent);
            && !BackendUnavailable(first.text, first.state) && first.text == ""
            && !BackendUnavailable(second.text, second.state) && second.text == ""
            && second.now - start > budget as real
  {
    SlowCall(PerCall(budget), start, 0);
    SlowCall(PerCall(budget), start + PerCall(budget) as real + 5.0, 2);
    assert !("transport-error" <= "working") by { assert "transport-error"[0] != "working"[0]; }
  }
}
