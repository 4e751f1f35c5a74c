/** One call of an agent: a first post, then polls until a terminal state or the end of the budget. The loop is proved
    against a record of its posts that determines the answer. */
module AgentCall {

  /** One reply of the agent's endpoint. */
  datatype Reply = Reply(text: string, state: string, hasTask: bool)

  /** How a post would go if it were allowed to take forever. */
  datatype Post = Post(took: real, fails: bool, reply: Reply)

  /** The i-th post of a run; the network decides. */
  type Network = nat -> Post

  function MaxR(a: real, b: real): real { if a <= b then b else a }
  function MinR(a: real, b: real): real { if a <= b then a else b }

  /** How long a post takes: never more than its timeout, never less than nothing. */
  function Duration(p: Post, timeout: real): (t: real)
    requires timeout >= 0.0
    ensures 0.0 <= t <= timeout
  {
    MinR(timeout, MaxR(0.0, p.took))
  }

  /** The post raises: a transport error, or it ran into its timeout. */
  predicate Fails(p: Post, timeout: real) { p.fails || p.took > timeout }

  const POLL_INTERVAL := 10.0

  predicate Terminal(state: string) {
    state in {"completed", "failed", "canceled", "rejected", "unknown", "input-required"}
  }

  /** When a post of a call was sent, and the timeout it was given. */
  datatype Turn = Turn(sent: real, granted: real)

  /** What a call knows at some point: text and state so far, the time, the number of posts of the run so far, and
      this call's own posts. */
  datatype Progress = Progress(text: string, state: string, now: real, sent: nat, turns: seq<Turn>)

  /** The pause before a poll. */
  function Pause(remaining: real): real { MinR(POLL_INTERVAL, MaxR(1.0, remaining)) }

  /** One turn of the polling loop: whether it ends the loop, and what is known then. */
  function PollStep(net: Network, deadline: real, p: Progress): (r: (bool, Progress))
    ensures !r.0 ==> Steps(deadline, r.1.now) < Steps(deadline, p.now)
  {
    var woke := p.now + Pause(deadline - p.now);
    if p.now >= deadline then (true, p)
    else if woke >= deadline then (true, p.(now := woke))
    else
      var t := Turn(woke, PollTimeout(deadline - woke));
      var post := net(p.sent);
      FloorDrops(deadline - p.now, deadline - (woke + Duration(post, t.granted)));
      (!Fails(post, t.granted) && Terminal(post.reply.state), After(p, post, t))
  }

  /** The polling loop of call_agent, from some point on. */
  function Poll(net: Network, deadline: real, p: Progress): Progress
    decreases Steps(deadline, p.now)
  {
    var (done, next) := PollStep(net, deadline, p);
    if done then next else Poll(net, deadline, next)
  }

  function PollTimeout(remaining: real): (t: real)
    ensures 15.0 <= t <= 60.0 && (remaining >= 15.0 ==> t <= remaining)
  {
    MaxR(15.0, MinR(60.0, remaining))
  }

  /** A poll that fails changes nothing but the time; an empty text does not replace an earlier one. */
  function After(p: Progress, post: Post, t: Turn): Progress
    requires t.granted >= 0.0
  {
    var now := t.sent + Duration(post, t.granted);
    if Fails(post, t.granted) then Progress(p.text, p.state, now, p.sent + 1, p.turns + [t])
    else Progress(if post.reply.text != "" then post.reply.text else p.text, post.reply.state, now, p.sent + 1,
                  p.turns + [t])
  }

  function SendTimeout(budget: int): (t: real)
    ensures t >= 30.0
  {
    MaxR(30.0, budget as real - POLL_INTERVAL)
  }

  /** The first reply settles the matter: a text in a terminal or unnamed state. */
  predicate Conclusive(r: Reply) { r.text != "" && (Terminal(r.state) || r.state == "?") }

  /** The first post: whether it settles the call, and what is known then. */
  function SendStep(net: Network, budget: int, start: real, sent: nat): (bool, Progress) {
    var post, t := net(sent), Turn(start, SendTimeout(budget));
    var now := start + Duration(post, t.granted);
    if Fails(post, t.granted) then (true, Progress("", "transport-error", now, sent + 1, [t]))
    else (Conclusive(post.reply) || !post.reply.hasTask,
          Progress(post.reply.text, post.reply.state, now, sent + 1, [t]))
  }

  /** call_agent as a function of the network. */
  function Call(net: Network, budget: int, start: real, sent: nat): Progress {
    var (done, p) := SendStep(net, budget, start, sent);
    if done then p else Poll(net, start + budget as real, p)
  }

  /** How many more seconds there can be before the deadline, rounded up; it bounds the turns of the loops. */
  function Steps(deadline: real, now: real): int { if now < deadline then (deadline - now).Floor + 1 else 0 }

  lemma FloorDrops(a: real, b: real)
    requires b <= a - 1.0
    ensures b.Floor <= a.Floor - 1
  {}

  // ---------------------------------------------------------------------------
  // the record of a call
  // ---------------------------------------------------------------------------

  /** The posts are sent when they should be, with the timeouts they should have: the first at the start with all but
      ten seconds of the budget (at least thirty seconds), each poll after a pause of ten seconds or what is left of
      the budget (at least one), before the deadline, with fifteen to sixty seconds. */
  ghost predicate OnSchedule(net: Network, budget: int, start: real, from: nat, turns: seq<Turn>) {
    && turns != [] && turns[0] == Turn(start, MaxR(30.0, budget as real - 10.0))
    && forall j :: 0 <= j < |turns| - 1 ==> Follows(net, start + budget as real, from + j, turns[j], turns[j + 1])
  }

  /** The next post, after the one with number n, which was t. */
  predicate Follows(net: Network, deadline: real, n: nat, t: Turn, next: Turn) {
    && t.granted >= 0.0 && EndOf(net, n, t) < deadline
    && next.sent == EndOf(net, n, t) + MinR(10.0, MaxR(1.0, deadline - EndOf(net, n, t))) < deadline
    && next.granted == MaxR(15.0, MinR(60.0, deadline - next.sent))
  }

  /** When a post was answered or given up. */
  function EndOf(net: Network, n: nat, t: Turn): real
    requires t.granted >= 0.0
  {
    t.sent + Duration(net(n), t.granted)
  }

  /** The j-th post of the call was answered within the timeout it was given. */
  predicate Delivered(net: Network, from: nat, turns: seq<Turn>, j: nat) {
    j < |turns| && !Fails(net(from + j), turns[j].granted)
  }

  /** The state is that of the last delivered reply. */
  ghost predicate LastState(net: Network, from: nat, turns: seq<Turn>, state: string) {
    exists j: nat ::
      && Delivered(net, from, turns, j) && net(from + j).reply.state == state
      && forall i: nat :: i > j ==> !Delivered(net, from, turns, i)
  }

  /** The text is the last non-empty one of the delivered replies, or empty when there is none. */
  ghost predicate LastText(net: Network, from: nat, turns: seq<Turn>, text: string) {
    || (text == "" && forall i: nat :: Delivered(net, from, turns, i) ==> net(from + i).reply.text == "")
    || exists j: nat ::
         && Delivered(net, from, turns, j) && net(from + j).reply.text == text != ""
         && forall i: nat :: i > j && Delivered(net, from, turns, i) ==> net(from + i).reply.text == ""
  }

  /** None of the first n posts ended the call: the first reply named a task and did not conclude, no poll was
      answered with a terminal state. */
  ghost predicate GoesOn(net: Network, from: nat, turns: seq<Turn>, n: nat) {
    n > 0 ==>
      && Delivered(net, from, turns, 0) && !Conclusive(net(from).reply) && net(from).reply.hasTask
      && forall j: nat :: 0 < j < n && Delivered(net, from, turns, j) ==> !Terminal(net(from + j).reply.state)
  }

  /** The last post ends the call. */
  predicate Ends(net: Network, from: nat, turns: seq<Turn>) {
    var last: int := |turns| - 1;
    && last >= 0
    && if last == 0 then
         !Delivered(net, from, turns, 0) || Conclusive(net(from).reply) || !net(from).reply.hasTask
       else
         Delivered(net, from, turns, last) && Terminal(net(from + last).reply.state)
  }

  /** The call returned when its last post ended it, or else when the deadline had passed or would pass in the pause. */
  ghost predicate ReturnsAt(net: Network, deadline: real, from: nat, turns: seq<Turn>, now: real) {
    turns != [] && turns[|turns| - 1].granted >= 0.0 &&
    var end := EndOf(net, from + |turns| - 1, turns[|turns| - 1]);
    if Ends(net, from, turns) || end >= deadline then now == end
    else now == end + MinR(10.0, MaxR(1.0, deadline - end)) && now >= deadline
  }

  /** The record of a call that returned: its posts, why it stopped, and what it returned. */
  ghost predicate Transcript(net: Network, budget: int, start: real, from: nat, p: Progress) {
    && OnSchedule(net, budget, start, from, p.turns) && p.sent == from + |p.turns|
    && GoesOn(net, from, p.turns, |p.turns| - 1)
    && ReturnsAt(net, start + budget as real, from, p.turns, p.now)
    && if Delivered(net, from, p.turns, 0)
       then LastState(net, from, p.turns, p.state) && LastText(net, from, p.turns, p.text)
       else p.text == "" && p.state == "transport-error"
  }

  // ---------------------------------------------------------------------------
  // the loop keeps the record
  // ---------------------------------------------------------------------------

  /** The record of a call that has not returned yet, at the head of the loop. */
  ghost predicate Talking(net: Network, budget: int, start: real, from: nat, p: Progress) {
    && OnSchedule(net, budget, start, from, p.turns) && p.sent == from + |p.turns|
    && GoesOn(net, from, p.turns, |p.turns|)
    && LastState(net, from, p.turns, p.state) && LastText(net, from, p.turns, p.text)
    && p.turns[|p.turns| - 1].granted >= 0.0
    && p.now == EndOf(net, from + |p.turns| - 1, p.turns[|p.turns| - 1])
  }

  lemma DeliveredMore(net: Network, from: nat, turns: seq<Turn>, t: Turn)
    ensures forall j: nat :: Delivered(net, from, turns + [t], j) <==>
              if j == |turns| then !Fails(net(from + j), t.granted) else Delivered(net, from, turns, j)
  {}

  lemma StateAfter(net: Network, from: nat, p: Progress, t: Turn)
    requires LastState(net, from, p.turns, p.state) && p.sent == from + |p.turns| && t.granted >= 0.0
    ensures LastState(net, from, p.turns + [t], After(p, net(p.sent), t).state)
  {
    DeliveredMore(net, from, p.turns, t);
    var more := p.turns + [t];
    if Fails(net(p.sent), t.granted) {
      var j: nat :| Delivered(net, from, p.turns, j) && net(from + j).reply.state == p.state &&
                    forall i: nat :: i > j ==> !Delivered(net, from, p.turns, i);
      assert Delivered(net, from, more, j);
    } else {
      assert Delivered(net, from, more, |p.turns|);
    }
  }

  lemma TextAfter(net: Network, from: nat, p: Progress, t: Turn)
    requires LastText(net, from, p.turns, p.text) && p.sent == from + |p.turns| && t.granted >= 0.0
    ensures LastText(net, from, p.turns + [t], After(p, net(p.sent), t).text)
  {
    DeliveredMore(net, from, p.turns, t);
    var more := p.turns + [t];
    if !Fails(net(p.sent), t.granted) && net(p.sent).reply.text != "" {
      assert Delivered(net, from, more, |p.turns|);
    } else if p.text != "" {
      var j: nat :| Delivered(net, from, p.turns, j) && net(from + j).reply.text == p.text != "" &&
                    forall i: nat :: i > j && Delivered(net, from, p.turns, i) ==> net(from + i).reply.text == "";
      assert Delivered(net, from, more, j);
    }
  }

  lemma ScheduleAfter(net: Network, budget: int, start: real, from: nat, turns: seq<Turn>, t: Turn)
    requires OnSchedule(net, budget, start, from, turns)
    requires Follows(net, start + budget as real, from + |turns| - 1, turns[|turns| - 1], t)
    ensures OnSchedule(net, budget, start, from, turns + [t])
  {
    var more := turns + [t];
    forall j | 0 <= j < |more| - 1 ensures Follows(net, start + budget as real, from + j, more[j], more[j + 1]) {
      if j < |turns| - 1 { assert more[j] == turns[j] && more[j + 1] == turns[j + 1]; }
    }
  }

  lemma GoesOnAfter(net: Network, from: nat, turns: seq<Turn>, t: Turn)
    requires turns != [] && GoesOn(net, from, turns, |turns|)
    ensures GoesOn(net, from, turns + [t], |turns|)
    ensures Ends(net, from, turns + [t]) || GoesOn(net, from, turns + [t], |turns| + 1)
    ensures Ends(net, from, turns + [t]) <==>
            !Fails(net(from + |turns|), t.granted) && Terminal(net(from + |turns|).reply.state)
  {
    DeliveredMore(net, from, turns, t);
  }

  /** A poll on schedule keeps all of the record but, if it is answered with a terminal state, that the call goes on. */
  lemma PollKeeps(net: Network, budget: int, start: real, from: nat, p: Progress, t: Turn) returns (q: Progress)
    requires Talking(net, budget, start, from, p)
    requires Follows(net, start + budget as real, from + |p.turns| - 1, p.turns[|p.turns| - 1], t)
    ensures t.granted >= 0.0 && q == After(p, net(p.sent), t) && q.turns == p.turns + [t]
    ensures OnSchedule(net, budget, start, from, q.turns) && GoesOn(net, from, q.turns, |p.turns|)
    ensures LastState(net, from, q.turns, q.state) && LastText(net, from, q.turns, q.text)
    ensures Delivered(net, from, q.turns, 0)
  {
    q := After(p, net(p.sent), t);
    ScheduleAfter(net, budget, start, from, p.turns, t);
    GoesOnAfter(net, from, p.turns, t);
    StateAfter(net, from, p, t);
    TextAfter(net, from, p, t);
    DeliveredMore(net, from, p.turns, t);
    assert Delivered(net, from, p.turns, 0);
  }

  /** A poll on schedule either ends the call or leaves it talking. */
  lemma PollAdds(net: Network, budget: int, start: real, from: nat, p: Progress, t: Turn) returns (q: Progress)
    requires Talking(net, budget, start, from, p)
    requires Follows(net, start + budget as real, from + |p.turns| - 1, p.turns[|p.turns| - 1], t)
    ensures t.granted >= 0.0 && q == After(p, net(p.sent), t)
    ensures if !Fails(net(p.sent), t.granted) && Terminal(q.state) then Tells(net, budget, start, from)(q)
            else Talking(net, budget, start, from, q)
  {
    q := PollKeeps(net, budget, start, from, p, t);
    GoesOnAfter(net, from, p.turns, t);
    assert q.now == EndOf(net, from + |p.turns|, t);
  }

  /** Without a further poll the call returns when the time is up. */
  lemma TimeIsUp(net: Network, budget: int, start: real, from: nat, p: Progress, now: real)
    requires Talking(net, budget, start, from, p)
    requires var deadline := start + budget as real;
             if p.now >= deadline then now == p.now else now == p.now + Pause(deadline - p.now) && now >= deadline
    ensures Tells(net, budget, start, from)(p.(now := now))
  {
    assert Delivered(net, from, p.turns, 0);
    assert !Ends(net, from, p.turns);
  }

  ghost function Tells(net: Network, budget: int, start: real, from: nat): Progress -> bool {
    p => Transcript(net, budget, start, from, p)
  }

  /** One turn of the loop, on the record: it returns, or goes on talking. */
  lemma PollTurn(net: Network, budget: int, start: real, from: nat, p: Progress)
    requires Talking(net, budget, start, from, p)
    ensures var (done, q) := PollStep(net, start + budget as real, p);
            if done then Tells(net, budget, start, from)(q) else Talking(net, budget, start, from, q)
  {
    var deadline := start + budget as real;
    var woke := p.now + Pause(deadline - p.now);
    if p.now >= deadline {
      TimeIsUp(net, budget, start, from, p, p.now);
    } else if woke >= deadline {
      TimeIsUp(net, budget, start, from, p, woke);
    } else {
      var q := PollAdds(net, budget, start, from, p, Turn(woke, PollTimeout(deadline - woke)));
    }
  }

  lemma {:induction false} PollTranscript(net: Network, budget: int, start: real, from: nat, p: Progress)
    requires Talking(net, budget, start, from, p)
    ensures Tells(net, budget, start, from)(Poll(net, start + budget as real, p))
    decreases Steps(start + budget as real, p.now)
  {
    PollTurn(net, budget, start, from, p);
    var (done, q) := PollStep(net, start + budget as real, p);
    if !done { PollTranscript(net, budget, start, from, q); }
  }

  /** What the first post leaves on the record. */
  lemma FirstTurn(net: Network, budget: int, start: real, from: nat)
    ensures var (done, p) := SendStep(net, budget, start, from);
            if done then Tells(net, budget, start, from)(p) else Talking(net, budget, start, from, p)
  {
    var (done, p) := SendStep(net, budget, start, from);
    if Fails(net(from), SendTimeout(budget)) {
      assert !Delivered(net, from, p.turns, 0);
    } else {
      assert Delivered(net, from, p.turns, 0);
      assert LastState(net, from, p.turns, p.state);
      assert LastText(net, from, p.turns, p.text);
    }
  }

  lemma CallTranscript(net: Network, budget: int, start: real, sent: nat)
    ensures Tells(net, budget, start, sent)(Call(net, budget, start, sent))
  {
    FirstTurn(net, budget, start, sent);
    var (done, p) := SendStep(net, budget, start, sent);
    if !done { PollTranscript(net, budget, start, sent, p); }
  }

  // ---------------------------------------------------------------------------
  // what the record says
  // ---------------------------------------------------------------------------

  /** Every post is over less than fifteen seconds after the deadline; a budget below thirty seconds counts as
      thirty. */
  lemma {:induction false} PostsEnd(net: Network, budget: int, start: real, from: nat, turns: seq<Turn>, j: nat)
    requires OnSchedule(net, budget, start, from, turns) && j < |turns|
    ensures turns[j].granted >= 0.0
    ensures start <= turns[j].sent <= EndOf(net, from + j, turns[j]) < start + MaxR(30.0, budget as real) + 15.0
    decreases j
  {
    if j > 0 {
      PostsEnd(net, budget, start, from, turns, j - 1);
      assert Follows(net, start + budget as real, from + (j - 1), turns[j - 1], turns[j - 1 + 1]);
    }
  }

  lemma TranscriptEnds(net: Network, budget: int, start: real, from: nat, p: Progress)
    requires Transcript(net, budget, start, from, p)
    ensures start <= p.now < start + MaxR(30.0, budget as real) + 15.0 && p.sent > from
  {
    PostsEnd(net, budget, start, from, p.turns, |p.turns| - 1);
  }

  /** Two records of the same call have the same posts as far as both go ... */
  lemma {:induction false} SamePosts(net: Network, budget: int, start: real, from: nat, a: seq<Turn>, b: seq<Turn>,
                                     j: nat)
    requires OnSchedule(net, budget, start, from, a) && OnSchedule(net, budget, start, from, b)
    requires j < |a| && j < |b|
    ensures a[j] == b[j]
    decreases j
  {
    if j > 0 {
      SamePosts(net, budget, start, from, a, b, j - 1);
      assert Follows(net, start + budget as real, from + (j - 1), a[j - 1], a[j - 1 + 1]);
      assert Follows(net, start + budget as real, from + (j - 1), b[j - 1], b[j - 1 + 1]);
    }
  }

  /** ... one that stops where another goes on was ended by its last post ... */
  lemma StopsOnlyAtTheEnd(net: Network, budget: int, start: real, from: nat, p: Progress, turns: seq<Turn>)
    requires Transcript(net, budget, start, from, p) && OnSchedule(net, budget, start, from, turns)
    requires |turns| > |p.turns|
    ensures turns[..|p.turns|] == p.turns && Ends(net, from, p.turns)
  {
    var last := |p.turns| - 1;
    forall j: nat | j < |p.turns| ensures p.turns[j] == turns[j] {
      SamePosts(net, budget, start, from, p.turns, turns, j);
    }
    assert Follows(net, start + budget as real, from + last, turns[last], turns[last + 1]);
  }

  lemma NotEndedBefore(net: Network, from: nat, turns: seq<Turn>, n: nat, m: nat)
    requires GoesOn(net, from, turns, n) && 0 < m <= n <= |turns|
    ensures !Ends(net, from, turns[..m])
  {
    assert forall j: nat :: j < m ==> (Delivered(net, from, turns[..m], j) <==> Delivered(net, from, turns, j));
  }

  /** ... so none goes further than another. */
  lemma NoneGoesFurther(net: Network, budget: int, start: real, from: nat, p: Progress, q: Progress)
    requires Transcript(net, budget, start, from, p) && Transcript(net, budget, start, from, q)
    ensures |q.turns| <= |p.turns|
  {
    if |q.turns| > |p.turns| {
      NotEndedBefore(net, from, q.turns, |q.turns| - 1, |p.turns|);
      StopsOnlyAtTheEnd(net, budget, start, from, p, q.turns);
      assert false;
    }
  }

  /** The record determines the answer: there is only one way a call can go on a given network. */
  lemma TranscriptIsUnique(net: Network, budget: int, start: real, from: nat, p: Progress, q: Progress)
    requires Transcript(net, budget, start, from, p) && Transcript(net, budget, start, from, q)
    ensures p == q
  {
    NoneGoesFurther(net, budget, start, from, p, q);
    NoneGoesFurther(net, budget, start, from, q, p);
    forall j: nat | j < |p.turns| ensures p.turns[j] == q.turns[j] {
      SamePosts(net, budget, start, from, p.turns, q.turns, j);
    }
    assert p.turns == q.turns;
  }

  // ---------------------------------------------------------------------------
  // the loop itself
  // ---------------------------------------------------------------------------

  /** call_agent: it always ends, less than fifteen seconds after its budget (a budget below thirty counts as thirty,
      the shortest timeout of the first post), and its record says what it returns and why. */
  method CallAgent(net: Network, budget: int, start: real, sent: nat)
      returns (text: string, state: string, now: real, sent': nat, ghost turns: seq<Turn>)
    ensures Transcript(net, budget, start, sent, Progress(text, state, now, sent', turns))
    ensures start <= now < start + MaxR(30.0, budget as real) + 15.0 && sent' > sent
  {
    ghost var p;
    text, state, now, sent', p := RunCall(net, budget, start, sent);
    turns := p.turns;
    CallTranscript(net, budget, start, sent);
    assert Transcript(net, budget, start, sent, p);
    TranscriptEnds(net, budget, start, sent, p);
  }

  method RunCall(net: Network, budget: int, start: real, sent: nat)
      returns (text: string, state: string, now: real, sent': nat, ghost p: Progress)
    ensures p == Call(net, budget, start, sent)
    ensures text == p.text && state == p.state && now == p.now && sent' == p.sent
  {
    p := Call(net, budget, start, sent);
    var deadline := start + budget as real;
    var timeout := MaxR(30.0, budget as real - POLL_INTERVAL);
    var post := net(sent);
    now, sent' := start + Duration(post, timeout), sent + 1;
    if Fails(post, timeout) {
      return "", "transport-error", now, sent', p;
    }
    text, state := post.reply.text, post.reply.state;
    if text != "" && (Terminal(state) || state == "?") {
      return;
    }
    if !post.reply.hasTask {
      return;
    }
    var progress := Progress(text, state, now, sent', [Turn(start, timeout)]);
    var done := false;
    while !done
      invariant p == if done then progress else Poll(net, deadline, progress)
      decreases !done, Steps(deadline, progress.now)
    {
      done, progress := PollOnce(net, deadline, progress);
    }
    return progress.text, progress.state, progress.now, progress.sent, p;
  }

  /** One turn of the polling loop: a pause and, unless the deadline has passed, a post. */
  method PollOnce(net: Network, deadline: real, p: Progress) returns (done: bool, next: Progress)
    ensures (done, next) == PollStep(net, deadline, p)
  {
    var remaining := deadline - p.now;
    if remaining <= 0.0 {
      return true, p;
    }
    var now := p.now + MinR(POLL_INTERVAL, MaxR(1.0, remaining));
    remaining := deadline - now;
    if remaining <= 0.0 {
      return true, p.(now := now);
    }
    var t := Turn(now, MaxR(15.0, MinR(60.0, remaining)));
    var post := net(p.sent);
    now := now + Duration(post, t.granted);
    if Fails(post, t.granted) {
      return false, Progress(p.text, p.state, now, p.sent + 1, p.turns + [t]);
    }
    var text := p.text;
    if post.reply.text != "" {
      text := post.reply.text;
    }
    next := Progress(text, post.reply.state, now, p.sent + 1, p.turns + [t]);
    done := Terminal(next.state);
  }
}
