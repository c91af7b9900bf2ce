/** The stdio JSON-RPC client (internal/mcpclient/stdio.go): requests over one shared
    stream of lines, with deadlines, late replies, and reader goroutines that outlive
    their request and still take a line. */
module Stdio {
  import opened Wrappers
  import opened Text

  datatype Body = Result(payload: string) | Failure(message: string)

  /** A line from the server; idText is the raw JSON text of its id. */
  datatype Line = Malformed | Notice | Reply(idText: string, body: Body)

  datatype Outcome = Returned(payload: string) | ServerError(message: string) | TimedOut | ReadFailed

  /** How the n-th request ended, and the place of the line that ended it, -1 if none. */
  datatype Completion = Completion(n: nat, outcome: Outcome, at: int)

  // ----- Request ids: a 64-bit counter -----

  const TWO64: int := 0x1_0000_0000_0000_0000

  /** atomic.AddInt64(&nextID, 1). */
  function Increment(id: int): int { if id == MAX64 then MIN64 else id + 1 }

  /** The id of the n-th request. */
  function IdOf(n: nat): int { (n - MIN64) % TWO64 + MIN64 }

  lemma IdStep(n: nat)
    ensures Increment(IdOf(n)) == IdOf(n + 1)
  {
  }

  /** Ids repeat only after the whole 64-bit range. */
  lemma IdsRepeatAfterRange(m: nat, n: nat)
    ensures IdOf(m) == IdOf(n) <==> (m - n) % TWO64 == 0
  {
  }

  // ----- The connection as a state machine -----

  /** sends requests were issued; of all lines that ever arrived the first `taken` were
      read; `abandoned` readers still wait on behalf of requests that gave up; waiting
      tells whether the last request is open. */
  datatype Conn = Conn(sends: nat, arrivals: seq<Line>, taken: nat, abandoned: nat, waiting: bool, done: seq<Completion>)

  datatype Move =
    | Send
    | Arrive(line: Line)
    | AbandonedTakes
    | OwnTakes
    | Timeout
    | TimeoutHolding
    | ReadFails

  const START := Conn(0, [], 0, 0, false, [])

  function Finish(c: Conn, o: Outcome, at: int): Conn {
    c.(waiting := false, done := c.done + [Completion(c.sends, o, at)])
  }

  predicate Unread(c: Conn) { c.taken < |c.arrivals| }

  /** What request n makes of a line: its answer, or nothing. */
  function Match(n: nat, line: Line): Option<Outcome> {
    if line.Reply? && line.idText == Decimal(IdOf(n)) then Some(Ending(line.body)) else None
  }

  function Ending(body: Body): Outcome {
    match body case Result(p) => Returned(p) case Failure(m) => ServerError(m)
  }

  /** One move; a move that cannot happen changes nothing. TimeoutHolding is the deadline
      striking when the reader already holds a line, which is then lost. */
  function Step(c: Conn, m: Move): Conn {
    match m
    case Send => if c.waiting then c else c.(sends := c.sends + 1, waiting := true)
    case Arrive(line) => c.(arrivals := c.arrivals + [line])
    case AbandonedTakes => if c.abandoned > 0 && Unread(c) then c.(taken := c.taken + 1, abandoned := c.abandoned - 1) else c
    case OwnTakes =>
      if c.waiting && Unread(c) then
        var c' := c.(taken := c.taken + 1);
        var o := Match(c.sends, c.arrivals[c.taken]);
        if o.None? then c' else Finish(c', o.value, c.taken)
      else c
    case Timeout => if c.waiting then Finish(c.(abandoned := c.abandoned + 1), TimedOut, -1) else c
    case TimeoutHolding => if c.waiting && Unread(c) then Finish(c.(taken := c.taken + 1), TimedOut, -1) else c
    case ReadFails => if c.waiting then Finish(c, ReadFailed, -1) else c
  }

  function Run(c: Conn, moves: seq<Move>): Conn {
    if moves == [] then c else Step(Run(c, moves[..|moves| - 1]), moves[|moves| - 1])
  }

  // ----- What every run keeps -----

  /** An answer comes from a line that was read and carries the request's id. */
  predicate EndedBy(c: Conn, d: Completion)
    requires c.taken <= |c.arrivals|
  {
    if d.outcome.Returned? || d.outcome.ServerError? then
      0 <= d.at < c.taken && Match(d.n, c.arrivals[d.at]) == Some(d.outcome)
    else d.at == -1
  }

  /** Requests end in the order they were issued, each at most once, and no line ends two. */
  predicate InOrder(done: seq<Completion>) {
    forall i, j :: 0 <= i < j < |done| ==> done[i].n < done[j].n && (done[j].at >= 0 ==> done[i].at < done[j].at)
  }

  predicate Inv(c: Conn) {
    && c.taken <= |c.arrivals|
    && (c.waiting ==> c.sends >= 1)
    && (forall d :: d in c.done ==> 1 <= d.n <= c.sends - (if c.waiting then 1 else 0) && EndedBy(c, d))
    && InOrder(c.done)
  }

  lemma FinishKeepsInv(c: Conn, o: Outcome, at: int)
    requires Inv(c) && c.waiting
    requires EndedBy(c, Completion(c.sends, o, at))
    requires at >= 0 ==> forall d :: d in c.done ==> d.at < at
    ensures Inv(Finish(c, o, at))
  {
    var d := Completion(c.sends, o, at);
    forall i, j | 0 <= i < j < |c.done + [d]| ensures
      (c.done + [d])[i].n < (c.done + [d])[j].n && ((c.done + [d])[j].at >= 0 ==> (c.done + [d])[i].at < (c.done + [d])[j].at)
    {
      if j == |c.done| { assert c.done[i] in c.done; }
    }
  }

  lemma ReadKeepsInv(c: Conn)
    requires Inv(c) && Unread(c)
    ensures Inv(c.(taken := c.taken + 1))
  {
  }

  lemma StepKeepsInv(c: Conn, m: Move)
    requires Inv(c)
    ensures Inv(Step(c, m))
  {
    if Unread(c) { ReadKeepsInv(c); }
    match m
    case OwnTakes =>
      if c.waiting && Unread(c) && Match(c.sends, c.arrivals[c.taken]).Some? {
        FinishKeepsInv(c.(taken := c.taken + 1), Match(c.sends, c.arrivals[c.taken]).value, c.taken);
      }
    case Timeout => if c.waiting { FinishKeepsInv(c.(abandoned := c.abandoned + 1), TimedOut, -1); }
    case TimeoutHolding => if c.waiting && Unread(c) { FinishKeepsInv(c.(taken := c.taken + 1), TimedOut, -1); }
    case ReadFails => if c.waiting { FinishKeepsInv(c, ReadFailed, -1); }
    case _ =>
  }

  lemma {:induction false} RunKeepsInv(moves: seq<Move>)
    ensures Inv(Run(START, moves))
  {
    if moves == [] {
    } else {
      RunKeepsInv(moves[..|moves| - 1]);
      StepKeepsInv(Run(START, moves[..|moves| - 1]), moves[|moves| - 1]);
    }
  }

  /** A result is returned as it is, an error as the server's error. */
  ghost predicate IsOutcomeOf(o: Outcome, body: Body) {
    (forall p :: o == Returned(p) <==> body == Result(p)) && (forall m :: o == ServerError(m) <==> body == Failure(m))
  }

  lemma EndingIsOutcome(body: Body)
    ensures IsOutcomeOf(Ending(body), body)
  {
  }

  /** The line that ended the request is its own answer with this body. */
  predicate EndedWith(c: Conn, d: Completion, body: Body) {
    0 <= d.at < |c.arrivals| && Answers(c.arrivals[d.at], d.n, body)
  }

  /** A request ends with a result exactly when the line that ended it is its answer with
      that result, and with a server's error exactly when it is one with that error. */
  ghost predicate EndsAsAnswered(c: Conn, d: Completion) {
    && (forall p :: d.outcome == Returned(p) <==> EndedWith(c, d, Result(p)))
    && (forall m :: d.outcome == ServerError(m) <==> EndedWith(c, d, Failure(m)))
  }

  lemma CompletionAsAnswered(c: Conn, d: Completion)
    requires Inv(c) && d in c.done
    ensures EndsAsAnswered(c, d)
  {
    assert EndedBy(c, d);
  }

  /** So do all requests of all runs. */
  lemma AllEndAsAnswered(moves: seq<Move>, i: nat)
    requires i < |Run(START, moves).done|
    ensures EndsAsAnswered(Run(START, moves), Run(START, moves).done[i])
  {
    RunKeepsInv(moves);
    CompletionAsAnswered(Run(START, moves), Run(START, moves).done[i]);
  }

  /** A line the server sent in answer to the k-th request. */
  predicate Answers(line: Line, k: nat, body: Body) { line == Reply(Decimal(IdOf(k)), body) }

  /** Over every run, whatever arrives late, gets lost or goes to the wrong reader: the
      line a request returns was never the answer to another one. */
  lemma NoCrossTalk(moves: seq<Move>, i: nat, k: nat, body: Body)
    requires i < |Run(START, moves).done|
    requires var c := Run(START, moves);
      var d := c.done[i];
      && (d.outcome.Returned? || d.outcome.ServerError?)
      && 0 <= d.at < |c.arrivals| && Answers(c.arrivals[d.at], k, body)
    requires 1 <= k <= Run(START, moves).sends < TWO64
    ensures var d := Run(START, moves).done[i]; k == d.n && IsOutcomeOf(d.outcome, body)
  {
    RunKeepsInv(moves);
    OwnAnswer(Run(START, moves), Run(START, moves).done[i], k, body);
  }

  lemma OwnAnswer(c: Conn, d: Completion, k: nat, body: Body)
    requires Inv(c) && d in c.done && (d.outcome.Returned? || d.outcome.ServerError?)
    requires Answers(c.arrivals[d.at], k, body) && 1 <= k <= c.sends < TWO64
    ensures k == d.n && IsOutcomeOf(d.outcome, body)
  {
    DecimalInjective(IdOf(k), IdOf(d.n));
    IdsRepeatAfterRange(k, d.n);
    EndingIsOutcome(body);
  }

  /** No line ends two requests. */
  lemma LinesUsedOnce(moves: seq<Move>, i: nat, j: nat)
    requires i < j < |Run(START, moves).done|
    ensures var done := Run(START, moves).done; done[i].n < done[j].n
    ensures var done := Run(START, moves).done; done[i].at >= 0 ==> done[i].at != done[j].at
  {
    RunKeepsInv(moves);
    assert InOrder(Run(START, moves).done);
  }

  // ----- Progress -----

  function Reads(n: nat): seq<Move> { if n == 0 then [] else Reads(n - 1) + [OwnTakes] }

  lemma SkipsOne(c: Conn)
    requires c.waiting && Unread(c) && Match(c.sends, c.arrivals[c.taken]).None?
    ensures Step(c, OwnTakes) == c.(taken := c.taken + 1)
  {
  }

  lemma TakesOwn(c: Conn)
    requires c.waiting && Unread(c) && Match(c.sends, c.arrivals[c.taken]).Some?
    ensures Step(c, OwnTakes) == Finish(c.(taken := c.taken + 1), Match(c.sends, c.arrivals[c.taken]).value, c.taken)
  {
  }

  lemma {:induction false} SkipsOthers(c: Conn, n: nat)
    requires c.waiting && c.taken + n <= |c.arrivals|
    requires forall i :: c.taken <= i < c.taken + n ==> Match(c.sends, c.arrivals[i]).None?
    ensures Run(c, Reads(n)) == c.(taken := c.taken + n)
  {
    if n == 0 {
    } else {
      SkipsOthers(c, n - 1);
      RunMore(c, Reads(n - 1), OwnTakes);
      SkipsOne(c.(taken := c.taken + n - 1));
    }
  }

  /** A request that keeps reading gets its answer from the unread lines, past whatever
      precedes it. */
  lemma AnswerIsFound(c: Conn, n: nat)
    requires c.waiting && c.taken + n < |c.arrivals|
    requires forall i :: c.taken <= i < c.taken + n ==> Match(c.sends, c.arrivals[i]).None?
    requires Match(c.sends, c.arrivals[c.taken + n]).Some?
    ensures Run(c, Reads(n + 1)) == Finish(c.(taken := c.taken + n + 1), Match(c.sends, c.arrivals[c.taken + n]).value, c.taken + n)
  {
    var c' := c.(taken := c.taken + n);
    SkipsOthers(c, n);
    RunMore(c, Reads(n), OwnTakes);
    assert c'.arrivals[c'.taken] == c.arrivals[c.taken + n];
    TakesOwn(c');
  }

  // ----- When an answer that came in time is lost -----

  /** No request is open. */
  predicate Idle(c: Conn) { !c.waiting && c.taken <= |c.arrivals| }

  /** The request opened at `sent` ended with this line, or its deadline struck. */
  predicate Accounted(sent: Conn, c: Conn, i: nat) {
    exists d :: d in c.done && d.n == sent.sends && (d.outcome.TimedOut? || d.at == i)
  }

  /** Of the lines read since `sent` one answers the request opened there, which neither
      ended with it nor timed out. */
  predicate Lost(sent: Conn, c: Conn) {
    exists i :: sent.taken <= i < c.taken && i < |c.arrivals| && Match(sent.sends, c.arrivals[i]).Some? && !Accounted(sent, c, i)
  }

  /** No line in this range answers the request. */
  predicate NoAnswer(sent: Conn, c: Conn, until: nat) {
    until <= |c.arrivals| && forall i :: sent.taken <= i < until ==> Match(sent.sends, c.arrivals[i]).None?
  }

  /** Sent with no reader left over: while the request waits nobody but itself has been
      reading. Once it has timed out at most one more line is read. */
  predicate OnlyItself(sent: Conn, c: Conn) {
    && c.sends == sent.sends && sent.taken <= c.taken <= |c.arrivals|
    && if c.waiting then c.done == sent.done && c.abandoned == 0 && NoAnswer(sent, c, c.taken)
       else
         && |c.done| == |sent.done| + 1
         && var d := c.done[|sent.done|];
            && d.n == sent.sends
            && if d.outcome.TimedOut? then
                 if c.abandoned == 0 then sent.taken < c.taken && NoAnswer(sent, c, c.taken - 1)
                 else c.abandoned == 1 && NoAnswer(sent, c, c.taken)
               else if d.outcome.ReadFailed? then c.abandoned == 0 && NoAnswer(sent, c, c.taken)
               else c.abandoned == 0 && d.at == c.taken - 1 && sent.taken <= d.at && NoAnswer(sent, c, d.at)
  }

  lemma WaitingStep(sent: Conn, c: Conn, m: Move)
    requires OnlyItself(sent, c) && c.waiting && m != Send
    ensures OnlyItself(sent, Step(c, m))
  {
  }

  lemma EndedStep(sent: Conn, c: Conn, m: Move)
    requires OnlyItself(sent, c) && !c.waiting && m != Send
    ensures OnlyItself(sent, Step(c, m))
  {
  }

  lemma StepKeepsOnlyItself(sent: Conn, c: Conn, m: Move)
    requires OnlyItself(sent, c) && m != Send
    ensures OnlyItself(sent, Step(c, m))
  {
    if c.waiting { WaitingStep(sent, c, m); } else { EndedStep(sent, c, m); }
  }

  lemma {:induction false} RunKeepsOnlyItself(sent: Conn, moves: seq<Move>)
    requires sent.waiting && sent.abandoned == 0 && sent.taken <= |sent.arrivals| && Send !in moves
    ensures OnlyItself(sent, Run(sent, moves))
  {
    if moves == [] {
    } else {
      var n := |moves| - 1;
      RunKeepsOnlyItself(sent, moves[..n]);
      StepKeepsOnlyItself(sent, Run(sent, moves[..n]), moves[n]);
    }
  }

  lemma OnlyItselfLosesNothing(sent: Conn, c: Conn)
    requires OnlyItself(sent, c)
    ensures !Lost(sent, c)
  {
    if !c.waiting { assert c.done[|sent.done|] in c.done; }
  }

  /** Sent with no reader left over, a request that times out costs at most the one line
      that was next when the deadline struck. */
  lemma DeadlineCostsOneLine(c: Conn, moves: seq<Move>, i: nat)
    requires Idle(c) && c.abandoned == 0 && Send !in moves
    requires var sent := Step(c, Send);
      var last := Run(sent, moves);
      !last.waiting && c.taken <= i < last.taken && i < |last.arrivals| && Match(sent.sends, last.arrivals[i]).Some?
    ensures var sent := Step(c, Send);
      var last := Run(sent, moves);
      && i == last.taken - 1 && last.abandoned == 0 && |last.done| == |c.done| + 1
      && var d := last.done[|c.done|]; d.n == sent.sends && (d.outcome.TimedOut? || d.at == i)
  {
    RunKeepsOnlyItself(Step(c, Send), moves);
  }

  /** How many lines precede the first that is an answer. */
  lemma {:induction false} FirstHit(answers: seq<bool>, from: nat) returns (n: nat)
    requires from <= |answers|
    ensures from + n <= |answers|
    ensures forall i :: from <= i < from + n ==> !answers[i]
    ensures from + n < |answers| ==> answers[from + n]
    decreases |answers| - from
  {
    if from == |answers| || answers[from] {
      n := 0;
    } else {
      var rest := FirstHit(answers, from + 1);
      n := 1 + rest;
    }
  }

  lemma FirstAnswer(c: Conn, from: nat) returns (n: nat)
    requires from <= |c.arrivals|
    ensures from + n <= |c.arrivals|
    ensures forall i :: from <= i < from + n ==> Match(c.sends, c.arrivals[i]).None?
    ensures from + n < |c.arrivals| ==> Match(c.sends, c.arrivals[from + n]).Some?
  {
    var answers := seq(|c.arrivals|, i requires 0 <= i < |c.arrivals| => Match(c.sends, c.arrivals[i]).Some?);
    n := FirstHit(answers, from);
    assert forall i :: 0 <= i < |answers| ==> answers[i] == Match(c.sends, c.arrivals[i]).Some?;
  }

  /** A left-over reader takes the answer next in line. */
  lemma TakenByOther(c: Conn, moves: seq<Move>, sent: Conn)
    requires c == Run(sent, moves) && c.waiting && c.abandoned > 0 && sent.taken <= c.taken && Unread(c)
    requires c.done == sent.done && Inv(sent) && sent.waiting
    requires Match(sent.sends, c.arrivals[c.taken]).Some?
    ensures Lost(sent, Run(sent, moves + [AbandonedTakes]))
  {
    RunMore(sent, moves, AbandonedTakes);
    LostToOther(c, sent);
  }

  lemma StillOpen(sent: Conn, c: Conn, i: nat)
    requires Inv(sent) && sent.waiting && c.done == sent.done
    ensures !Accounted(sent, c, i)
  {
  }

  lemma LostToOther(c: Conn, sent: Conn)
    requires c.waiting && c.abandoned > 0 && sent.taken <= c.taken && Unread(c)
    requires c.done == sent.done && Inv(sent) && sent.waiting
    requires Match(sent.sends, c.arrivals[c.taken]).Some?
    ensures Lost(sent, Step(c, AbandonedTakes))
  {
    var last := Step(c, AbandonedTakes);
    StillOpen(sent, last, c.taken);
    assert last.arrivals == c.arrivals && last.taken == c.taken + 1;
  }

  lemma ReadsSendNothing(n: nat)
    ensures Send !in Reads(n)
  {
  }

  lemma OtherIsQuicker(sent: Conn, n: nat, moves: seq<Move>)
    requires sent.waiting && sent.abandoned > 0 && Inv(sent) && sent.taken + n < |sent.arrivals|
    requires Run(sent, moves) == sent.(taken := sent.taken + n)
    requires Match(sent.sends, sent.arrivals[sent.taken + n]).Some?
    ensures Lost(sent, Run(sent, moves + [AbandonedTakes]))
  {
    TakenByOther(sent.(taken := sent.taken + n), moves, sent);
  }

  /** The answer is among the unread lines: the request reads up to it. */
  lemma NextIsTaken(sent: Conn, n: nat)
    requires sent.waiting && sent.abandoned > 0 && Inv(sent) && sent.taken + n < |sent.arrivals|
    requires forall i :: sent.taken <= i < sent.taken + n ==> Match(sent.sends, sent.arrivals[i]).None?
    requires Match(sent.sends, sent.arrivals[sent.taken + n]).Some?
    ensures Lost(sent, Run(sent, Reads(n) + [AbandonedTakes]))
  {
    SkipsOthers(sent, n);
    OtherIsQuicker(sent, n, Reads(n));
  }

  /** It is not: the request reads everything, and then the answer arrives. */
  lemma LateIsTaken(sent: Conn, n: nat, line: Line)
    requires sent.waiting && sent.abandoned > 0 && Inv(sent) && sent.taken + n == |sent.arrivals|
    requires forall i :: sent.taken <= i < sent.taken + n ==> Match(sent.sends, sent.arrivals[i]).None?
    requires Match(sent.sends, line).Some?
    ensures Lost(sent, Run(sent, Reads(n) + [Arrive(line)] + [AbandonedTakes]))
  {
    var c := sent.(taken := sent.taken + n);
    SkipsOthers(sent, n);
    RunMore(sent, Reads(n), Arrive(line));
    TakenByOther(c.(arrivals := c.arrivals + [line]), Reads(n) + [Arrive(line)], sent);
  }

  /** With a left-over reader around, a run loses the answer: the request reads what does
      not concern it, the answer arrives if it has not, and the other reader is quicker. */
  lemma LeftoverReaderCanTakeAnswer(sent: Conn) returns (moves: seq<Move>)
    requires sent.waiting && sent.abandoned > 0 && Inv(sent)
    ensures Send !in moves && Lost(sent, Run(sent, moves))
  {
    var n := FirstAnswer(sent, sent.taken);
    ReadsSendNothing(n);
    if sent.taken + n < |sent.arrivals| {
      NextIsTaken(sent, n);
      moves := Reads(n) + [AbandonedTakes];
    } else {
      var line := Reply(Decimal(IdOf(sent.sends)), Result(""));
      LateIsTaken(sent, n, line);
      moves := Reads(n) + [Arrive(line)] + [AbandonedTakes];
    }
  }

  /** An answer can be lost, other than to the request's own deadline, exactly when a
      reader is left over from an earlier request at the time of sending. */
  lemma AnswerSafeIffNoReaderLeft(c: Conn)
    requires Idle(c) && Inv(c)
    ensures c.abandoned == 0 <==>
            forall moves :: Send !in moves ==> !Lost(Step(c, Send), Run(Step(c, Send), moves))
  {
    var sent := Step(c, Send);
    if c.abandoned == 0 {
      forall moves | Send !in moves ensures !Lost(sent, Run(sent, moves)) {
        RunKeepsOnlyItself(sent, moves);
        OnlyItselfLosesNothing(sent, Run(sent, moves));
      }
    } else {
      StepKeepsInv(c, Send);
      var moves := LeftoverReaderCanTakeAnswer(sent);
    }
  }

  lemma NotYetRead(sent: Conn, c: Conn, i: nat)
    requires sent.taken <= i < |c.arrivals| && Match(sent.sends, c.arrivals[i]).Some? && NoAnswer(sent, c, c.taken)
    ensures c.taken <= i
  {
  }

  lemma FoundFrom(sent: Conn, c: Conn, i: nat)
    requires c.waiting && c.sends == sent.sends && sent.taken <= c.taken <= i < |c.arrivals|
    requires Match(sent.sends, c.arrivals[i]).Some?
    requires forall k :: sent.taken <= k < i ==> Match(sent.sends, c.arrivals[k]).None?
    ensures Run(c, Reads(i - c.taken + 1)) == Finish(c.(taken := i + 1), Match(sent.sends, c.arrivals[i]).value, i)
  {
    var n: nat := i - c.taken;
    assert c.taken + n == i;
    AnswerIsFound(c, n);
  }

  lemma ReturnedFrom(sent: Conn, c: Conn, i: nat)
    requires OnlyItself(sent, c) && c.waiting && sent.taken <= i < |c.arrivals| && Match(sent.sends, c.arrivals[i]).Some?
    requires forall k :: sent.taken <= k < i ==> Match(sent.sends, c.arrivals[k]).None?
    ensures c.taken <= i
    ensures Run(c, Reads(i - c.taken + 1)) == Finish(c.(taken := i + 1), Match(sent.sends, c.arrivals[i]).value, i)
  {
    NotYetRead(sent, c, i);
    FoundFrom(sent, c, i);
  }

  /** Sent with no reader left over, a request that still waits after any run finds its
      answer among the lines it has not read, and reading on returns it. */
  lemma AnswerReturned(sent: Conn, moves: seq<Move>, i: nat)
    requires sent.waiting && sent.abandoned == 0 && sent.taken <= |sent.arrivals| && Send !in moves
    requires var c := Run(sent, moves);
      && c.waiting && sent.taken <= i < |c.arrivals| && Match(sent.sends, c.arrivals[i]).Some?
      && forall k :: sent.taken <= k < i ==> Match(sent.sends, c.arrivals[k]).None?
    ensures var c := Run(sent, moves);
      && c.taken <= i
      && Run(c, Reads(i - c.taken + 1)) == Finish(c.(taken := i + 1), Match(sent.sends, c.arrivals[i]).value, i)
  {
    RunKeepsOnlyItself(sent, moves);
    ReturnedFrom(sent, Run(sent, moves), i);
  }

  /** A line for the n-th request, whatever it says. */
  ghost predicate IsAnswer(n: nat, line: Line) { exists body :: Answers(line, n, body) }

  lemma MatchIsAnswer(n: nat, line: Line)
    ensures Match(n, line).Some? <==> IsAnswer(n, line)
  {
    if Match(n, line).Some? { assert Answers(line, n, line.body); }
  }

  lemma FirstAnswerMatches(sent: Conn, c: Conn, i: nat, body: Body)
    requires sent.taken <= i < |c.arrivals| && Answers(c.arrivals[i], sent.sends, body)
    requires forall k :: sent.taken <= k < i ==> !IsAnswer(sent.sends, c.arrivals[k])
    ensures Match(sent.sends, c.arrivals[i]) == Some(Ending(body))
    ensures forall k :: sent.taken <= k < i ==> Match(sent.sends, c.arrivals[k]).None?
  {
    forall k | sent.taken <= k < i ensures Match(sent.sends, c.arrivals[k]).None? { MatchIsAnswer(sent.sends, c.arrivals[k]); }
  }

  /** The last request ended as its n-th, with this body. */
  ghost predicate CameBackWith(c: Conn, n: nat, body: Body) {
    !c.waiting && c.done != [] && var d := c.done[|c.done| - 1]; d.n == n && IsOutcomeOf(d.outcome, body)
  }

  lemma FinishComesBack(c: Conn, body: Body, at: int)
    ensures CameBackWith(Finish(c, Ending(body), at), c.sends, body)
  {
    EndingIsOutcome(body);
  }

  lemma SendsKept(sent: Conn, moves: seq<Move>)
    requires sent.waiting && sent.abandoned == 0 && sent.taken <= |sent.arrivals| && Send !in moves
    ensures Run(sent, moves).sends == sent.sends
  {
    RunKeepsOnlyItself(sent, moves);
  }

  /** In terms of the lines themselves: the first answer after the send, a result or an
      error, is what the request comes back with. */
  lemma AnswerGiven(sent: Conn, moves: seq<Move>, i: nat, body: Body)
    requires sent.waiting && sent.abandoned == 0 && sent.taken <= |sent.arrivals| && Send !in moves
    requires var c := Run(sent, moves);
      && c.waiting && sent.taken <= i < |c.arrivals| && Answers(c.arrivals[i], sent.sends, body)
      && forall k :: sent.taken <= k < i ==> !IsAnswer(sent.sends, c.arrivals[k])
    ensures var c := Run(sent, moves);
      c.taken <= i && CameBackWith(Run(c, Reads(i - c.taken + 1)), sent.sends, body)
  {
    var c := Run(sent, moves);
    FirstAnswerMatches(sent, c, i, body);
    AnswerReturned(sent, moves, i);
    SendsKept(sent, moves);
    FinishComesBack(c.(taken := i + 1), body, i);
  }

  /** Any request that times out before a line arrives leaves such a reader. */
  lemma TimeoutLeavesReader(c: Conn)
    requires !c.waiting && !Unread(c)
    ensures var c' := Step(Step(c, Send), Timeout);
      !c'.waiting && c'.abandoned == c.abandoned + 1 && !Unread(c') && c'.taken == c.taken && c'.arrivals == c.arrivals
  {
  }

  lemma RunMore(c: Conn, moves: seq<Move>, m: Move)
    ensures Run(c, moves + [m]) == Step(Run(c, moves), m)
  {
    assert (moves + [m])[..|moves + [m]| - 1] == moves;
  }

  // ----- The client -----

  predicate IsDeadline(m: Move) { m.Timeout? || m.TimeoutHolding? }

  class StdioClient {
    var nextID: int
    /** Lines delivered and not yet read, and readers left over from earlier requests. */
    var unread: seq<Line>
    var abandoned: nat
    ghost var conn: Conn

    ghost predicate Mirrors()
      reads this
    {
      && Inv(conn) && nextID == IdOf(conn.sends)
      && unread == conn.arrivals[conn.taken..] && abandoned == conn.abandoned
    }

    ghost predicate Valid()
      reads this
    {
      Mirrors() && !conn.waiting
    }

    constructor ()
      ensures Valid() && conn == START
    {
      nextID, unread, abandoned, conn := 0, [], 0, START;
    }

    /** One request. env is what happens while it is open: lines arriving, readers taking
        them, the deadline; when env runs out, so does the deadline. used moves of env
        happened before the request ended. */
    method Request(env: seq<Move>) returns (o: Outcome, used: nat)
      requires Valid() && Send !in env
      modifies this
      ensures Valid() && used <= |env|
      ensures var c := Run(Step(old(conn), Send), env[..used]);
        conn == if c.waiting then Step(c, Timeout) else c
      ensures used < |env| ==> !Run(Step(old(conn), Send), env[..used]).waiting
      ensures |conn.done| == |old(conn).done| + 1 && old(conn).done <= conn.done
      ensures var d := conn.done[|old(conn).done|];
        d.n == old(conn).sends + 1 && d.outcome == o && EndsAsAnswered(conn, d)
      ensures o.TimedOut? <==>
        Run(Step(old(conn), Send), env[..used]).waiting || (used > 0 && IsDeadline(env[used - 1]))
      ensures o.ReadFailed? <==> used > 0 && env[used - 1] == ReadFails
    {
      IdStep(conn.sends);
      StepKeepsInv(conn, Send);
      nextID := Increment(nextID);
      conn := Step(conn, Send);
      used := 0;
      ghost var sent := conn;
      while used < |env|
        invariant used <= |env| && Mirrors() && conn.waiting
        invariant conn == Run(sent, env[..used])
        invariant conn.sends == sent.sends && conn.done == sent.done
      {
        var m := env[used];
        assert env[..used + 1][..used] == env[..used];
        assert m in env;
        StepKeepsInv(conn, m);
        used := used + 1;
        var ended := Observe(m);
        if ended.Some? {
          CompletionAsAnswered(conn, conn.done[|old(conn).done|]);
          return ended.value, used;
        }
      }
      StepKeepsInv(conn, Timeout);
      abandoned, conn := abandoned + 1, Step(conn, Timeout);
      return TimedOut, used;
    }

    /** One turn of the read loop: what a move does to the open request. */
    method Observe(m: Move) returns (ended: Option<Outcome>)
      requires Mirrors() && conn.waiting && m != Send && Inv(Step(conn, m))
      modifies this
      ensures Mirrors() && conn == Step(old(conn), m) && conn.waiting == ended.None?
      ensures ended.None? ==> conn.done == old(conn).done && conn.sends == old(conn).sends
      ensures ended.Some? ==> |conn.done| == |old(conn).done| + 1 && old(conn).done <= conn.done
      ensures ended.Some? ==> conn.done[|old(conn).done|].n == old(conn).sends
      ensures ended.Some? ==> conn.done[|old(conn).done|].outcome == ended.value
      ensures ended == Some(TimedOut) <==> ended.Some? && IsDeadline(m)
      ensures ended == Some(ReadFailed) <==> m == ReadFails
    {
      conn := Step(conn, m);
      match m
      case Arrive(line) =>
        unread := unread + [line];
        return None;
      case AbandonedTakes =>
        if abandoned > 0 && unread != [] {
          unread, abandoned := unread[1..], abandoned - 1;
        }
        return None;
      case OwnTakes =>
        if unread == [] {
          return None;
        }
        var line := unread[0];
        unread := unread[1..];
        if line.Malformed? || line.Notice? || line.idText != Decimal(nextID) {
          return None;
        }
        return Some(Ending(line.body));
      case Timeout =>
        abandoned := abandoned + 1;
        return Some(TimedOut);
      case TimeoutHolding =>
        if unread == [] {
          return None;
        }
        unread := unread[1..];
        return Some(TimedOut);
      case ReadFails =>
        return Some(ReadFailed);
    }
  }
}
