/**
 * The per-turn dialogue controller (reservation_graph.py).
 *
 * The conversation state holds the message history, the `asking` flag and
 * the reservation record. Two nodes, the router and the question asker, each
 * return a partial update that the graph merges into the state; a routing
 * function after the router decides whether the invocation ends or a
 * question is asked. One user turn is one invocation of the graph, and the
 * console loop repeats turns until the last message is the success message.
 *
 * The extractor, the question-phrasing model and the record-merging helper
 * are outside this model: their results enter as parameters.
 */
module ReservationGraph {
  import opened Wrappers
  import opened ReservationSchema

  /** The message that announces a completed reservation. */
  const CompletedReservation := "Reserva realizada con éxito"

  datatype Role = Human | Ai

  datatype Message = Message(role: Role, content: string)

  /**
   * What the extractor hands back for one utterance: nothing, or a mapping
   * from field name to extracted value.
   */
  type Extraction = Option<map<string, string>>

  /** Python truthiness of an extraction: present and not empty. */
  predicate Truthy(e: Extraction)
  {
    e.Some? && e.value != map[]
  }

  /**
   * The record-merging helper `assign_if_default`, whose definition is not
   * part of this model: any function from a record and extracted data to the
   * updated record.
   */
  type Assign = (ReservationData, map<string, string>) -> ReservationData

  /**
   * The conversation state. `reservation` is None until the router has run
   * for the first time in a thread.
   */
  datatype State = State(messages: seq<Message>, asking: bool, reservation: Option<ReservationData>)

  /**
   * The partial update a node returns: messages to append, and new values
   * for the keys it mentions.
   */
  datatype Update = Update(messages: seq<Message>, asking: Option<bool>, reservation: Option<ReservationData>)

  /**
   * Merging an update into the state: `messages` uses the appending
   * reducer, the other keys are overwritten when the update mentions them.
   */
  function Apply(s: State, u: Update): (t: State)
    ensures s.messages <= t.messages && t.messages[|s.messages|..] == u.messages
    ensures u.asking.Some? ==> t.asking == u.asking.value
    ensures u.asking.None? ==> t.asking == s.asking
    ensures u.reservation.Some? ==> t.reservation == u.reservation
    ensures u.reservation.None? ==> t.reservation == s.reservation
    ensures u == Update([], None, None) ==> t == s
  {
    State(s.messages + u.messages,
          u.asking.GetOr(s.asking),
          if u.reservation.Some? then u.reservation else s.reservation)
  }

  /** Content of the newest message. */
  function LastContent(messages: seq<Message>): string
    requires |messages| > 0
  {
    messages[|messages| - 1].content
  }

  /** The record the router starts from: the stored one, or a fresh, incomplete one. */
  function CurrentRecord(s: State): (r: ReservationData)
    ensures s.reservation.Some? ==> r == s.reservation.value
    ensures s.reservation.None? ==> !IsComplete(r)
  {
    s.reservation.GetOr(NewReservationData())
  }

  /** The record after the router's merge step: merged only on a truthy extraction. */
  function Merge(current: ReservationData, e: Extraction, assign: Assign): (r: ReservationData)
    ensures !Truthy(e) ==> r == current
    ensures Truthy(e) ==> r == assign(current, e.value)
  {
    if Truthy(e) then assign(current, e.value) else current
  }

  /**
   * router_node. Outside asking mode it extracts from the newest message,
   * merges a non-empty extraction into the record and announces completion
   * when the record is complete; in asking mode it hands back the record as
   * it found it.
   */
  function RouterNode(s: State, extract: string -> Extraction, assign: Assign): (u: Update)
    requires !s.asking ==> |s.messages| > 0
    ensures u.asking.None?
    ensures u.reservation.Some?
    ensures s.asking ==> u.messages == [] && u.reservation == Some(CurrentRecord(s))
    ensures !s.asking && !Truthy(extract(LastContent(s.messages))) ==> u.reservation == Some(CurrentRecord(s))
    ensures !s.asking && Truthy(extract(LastContent(s.messages))) ==>
              u.reservation == Some(assign(CurrentRecord(s), extract(LastContent(s.messages)).value))
    ensures u.messages == [] || u.messages == [Message(Ai, CompletedReservation)]
    ensures u.messages != [] <==> !s.asking && u.reservation.value.name != ""
  {
    var current := CurrentRecord(s);
    if s.asking then
      Update([], None, Some(current))
    else
      var record := Merge(current, extract(LastContent(s.messages)), assign);
      if IsComplete(record) then
        Update([Message(Ai, CompletedReservation)], None, Some(record))
      else
        Update([], None, Some(record))
  }

  /** While asking, the router's output does not depend on the extractor or the merge helper. */
  lemma RouterSkipsExtractionWhileAsking(s: State, e1: string -> Extraction, a1: Assign,
                                         e2: string -> Extraction, a2: Assign)
    requires s.asking
    ensures RouterNode(s, e1, a1) == RouterNode(s, e2, a2) == Update([], None, Some(CurrentRecord(s)))
  {
  }

  /** The graph's positions: the two nodes and END. */
  datatype Node = Router | AskQuestion | End

  /**
   * check_data: the invocation ends when a question is pending or the
   * record is complete, otherwise a question is asked.
   */
  function CheckData(s: State): (next: Node)
    requires s.reservation.Some?
    ensures next != Router
    ensures next == End <==> s.asking || s.reservation.value.name != ""
  {
    if s.asking || IsComplete(s.reservation.value) then End else AskQuestion
  }

  /**
   * ask_question's update: one assistant message carrying the phrased
   * question, and the asking flag raised. The question text is an input.
   */
  function AskQuestionNode(s: State, question: string): (u: Update)
    requires s.reservation.Some?
    ensures u.messages == [Message(Ai, question)]
    ensures u.asking == Some(true) && u.reservation.None?
  {
    Update([Message(Ai, question)], Some(true), None)
  }

  /** Asking a question appends exactly that question, raises the flag and keeps the record. */
  lemma AskQuestionEffect(s: State, question: string)
    requires s.reservation.Some?
    ensures Apply(s, AskQuestionNode(s, question))
            == State(s.messages + [Message(Ai, question)], true, s.reservation)
  {
  }

  /** The external answers one turn needs: the extractor and the phrased question. */
  datatype Oracle = Oracle(extract: string -> Extraction, question: string)

  /** A node execution, with the asking flag it found on entry. */
  datatype Visit = Visit(node: Node, askingOnEntry: bool)

  /** What one invocation of the graph produces. */
  datatype Invocation = Invocation(final: State, trace: seq<Visit>)

  /** Node executions that run the extractor (the router outside asking mode). */
  function Extractions(trace: seq<Visit>): nat
  {
    if trace == [] then 0
    else (if trace[0] == Visit(Router, false) then 1 else 0) + Extractions(trace[1..])
  }

  /** Node executions that ask a question. */
  function Questions(trace: seq<Visit>): nat
  {
    if trace == [] then 0
    else (if trace[0].node == AskQuestion then 1 else 0) + Questions(trace[1..])
  }

  /** Upper bound on the node executions left before END. */
  function Rank(pos: Node, s: State): nat
  {
    match pos
    case End => 0
    case Router => if s.asking then 1 else 3
    case AskQuestion => 2
  }

  /** What a node needs of the state it is entered with. */
  predicate Ready(pos: Node, s: State)
  {
    && (pos == Router && !s.asking ==> |s.messages| > 0)
    && (pos == AskQuestion ==> s.reservation.Some?)
  }

  /**
   * Running the graph from `pos`: edges router -> check_data and
   * ask_question -> router. It reaches END within Rank(pos, s) node
   * executions, extracts at most once, asks at most one question and only
   * appends to the history.
   */
  function Run(pos: Node, s: State, o: Oracle, assign: Assign): (r: Invocation)
    requires Ready(pos, s)
    decreases Rank(pos, s)
    ensures |r.trace| <= Rank(pos, s)
    ensures s.messages <= r.final.messages
    ensures Extractions(r.trace) == (if pos == Router && !s.asking then 1 else 0)
    ensures Questions(r.trace) <= (if pos == End || (pos == Router && s.asking) then 0 else 1)
    ensures pos != End ==> r.final.reservation.Some?
  {
    match pos
    case End => Invocation(s, [])
    case Router =>
      var t := Apply(s, RouterNode(s, o.extract, assign));
      var rest := Run(CheckData(t), t, o, assign);
      var trace := [Visit(Router, s.asking)] + rest.trace;
      assert trace[1..] == rest.trace;
      Invocation(rest.final, trace)
    case AskQuestion =>
      var t := Apply(s, AskQuestionNode(s, o.question));
      var rest := Run(Router, t, o, assign);
      var trace := [Visit(AskQuestion, s.asking)] + rest.trace;
      assert trace[1..] == rest.trace;
      Invocation(rest.final, trace)
  }

  /**
   * The stored state once an invocation's input is merged in: the user's
   * utterance is appended, the asking flag is reset, the record is kept.
   */
  function InvokeInput(s: State, utterance: string): (t: State)
    ensures t == State(s.messages + [Message(Human, utterance)], false, s.reservation)
    ensures Ready(Router, t) && LastContent(t.messages) == utterance
  {
    Apply(s, Update([Message(Human, utterance)], Some(false), None))
  }

  /** One user turn and the external answers it receives. */
  datatype TurnInput = TurnInput(utterance: string, oracle: Oracle)

  /**
   * One turn: the input is merged into the stored state, then the graph runs
   * from START. It ends within three node executions, runs the extractor
   * exactly once, asks at most one question and leaves a record in the
   * state (its messages are described by TurnOutcome).
   */
  function Turn(s: State, t: TurnInput, assign: Assign): (r: Invocation)
    ensures |r.trace| <= 3
    ensures Extractions(r.trace) == 1 && Questions(r.trace) <= 1
    ensures r.final.reservation.Some?
  {
    Run(Router, InvokeInput(s, t.utterance), t.oracle, assign)
  }

  /** The record a turn's extraction leaves behind. */
  function TurnRecord(s: State, t: TurnInput, assign: Assign): ReservationData
  {
    Merge(CurrentRecord(s), t.oracle.extract(t.utterance), assign)
  }

  /**
   * What a turn does, in full. The record is the merge of the turn's
   * extraction; if it is complete the router announces success and the
   * invocation stops after one node, otherwise the question is asked and
   * the router runs once more without extracting. Either way the history
   * grows by the utterance and exactly one assistant message.
   */
  lemma TurnOutcome(s: State, t: TurnInput, assign: Assign)
    ensures var record := TurnRecord(s, t, assign);
            var r := Turn(s, t, assign);
            && r.final.reservation == Some(record)
            && r.final.asking == !IsComplete(record)
            && r.final.messages == s.messages + [Message(Human, t.utterance),
                 Message(Ai, if IsComplete(record) then CompletedReservation else t.oracle.question)]
            && r.trace == if IsComplete(record) then [Visit(Router, false)]
                          else [Visit(Router, false), Visit(AskQuestion, false), Visit(Router, true)]
  {
    var record := TurnRecord(s, t, assign);
    var s0 := InvokeInput(s, t.utterance);
    var s1 := Apply(s0, RouterNode(s0, t.oracle.extract, assign));
    assert s1.reservation == Some(record);
    assert Turn(s, t, assign) == Run(Router, s0, t.oracle, assign);
    if IsComplete(record) {
      assert CheckData(s1) == End;
      assert Run(Router, s0, t.oracle, assign) == Invocation(s1, [Visit(Router, false)]);
    } else {
      assert CheckData(s1) == AskQuestion;
      var s2 := Apply(s1, AskQuestionNode(s1, t.oracle.question));
      var s3 := Apply(s2, RouterNode(s2, t.oracle.extract, assign));
      assert s3 == s2;
      assert CheckData(s3) == End;
      assert Run(Router, s2, t.oracle, assign) == Invocation(s3, [Visit(Router, true)]);
      assert Run(AskQuestion, s1, t.oracle, assign)
             == Invocation(s3, [Visit(AskQuestion, false), Visit(Router, true)]);
      assert Run(Router, s0, t.oracle, assign)
             == Invocation(s3, [Visit(Router, false), Visit(AskQuestion, false), Visit(Router, true)]);
    }
  }

  /** The invocation ended on the success message. */
  predicate Completed(s: State)
    ensures Completed(s) ==> |s.messages| > 0
  {
    |s.messages| > 0 && LastContent(s.messages) == CompletedReservation
  }

  /**
   * The loop's stop test after a turn holds exactly when the turn's record
   * is complete, or when the phrased question happens to be the success text.
   */
  lemma TurnCompletesIff(s: State, t: TurnInput, assign: Assign)
    ensures Completed(Turn(s, t, assign).final)
            <==> TurnRecord(s, t, assign).name != "" || t.oracle.question == CompletedReservation
  {
    TurnOutcome(s, t, assign);
  }

  /** The state of a new thread, before its first turn. */
  const InitialState := State([], false, None)

  /** The state after playing every turn in order, ignoring the stop test. */
  function SessionAfter(turns: seq<TurnInput>, assign: Assign): State
    decreases |turns|
  {
    if turns == [] then InitialState
    else Turn(SessionAfter(turns[..|turns| - 1], assign), turns[|turns| - 1], assign).final
  }

  /**
   * A session state that has not ended on the success message holds no
   * record yet or an incomplete one: every turn the loop plays starts from
   * an incomplete record.
   */
  lemma {:induction false} UnfinishedSessionIsIncomplete(turns: seq<TurnInput>, k: nat, assign: Assign)
    requires k <= |turns|
    requires !Completed(SessionAfter(turns[..k], assign))
    ensures var s := SessionAfter(turns[..k], assign);
            s.reservation.None? || !IsComplete(s.reservation.value)
  {
    var front := turns[..k];
    if k > 0 {
      var prior := SessionAfter(front[..k - 1], assign);
      TurnOutcome(prior, front[k - 1], assign);
    }
  }

  /** Across turns the history is only ever appended to. */
  lemma {:induction false} HistoryOnlyGrows(turns: seq<TurnInput>, k: nat, assign: Assign)
    requires k <= |turns|
    ensures SessionAfter(turns[..k], assign).messages <= SessionAfter(turns, assign).messages
    decreases |turns|
  {
    if k < |turns| {
      var front := turns[..|turns| - 1];
      assert front[..k] == turns[..k];
      HistoryOnlyGrows(front, k, assign);
    } else {
      assert turns[..k] == turns;
    }
  }

  /** Playing one more turn extends the fold by one step. */
  lemma SessionStep(turns: seq<TurnInput>, k: nat, assign: Assign)
    requires k < |turns|
    ensures SessionAfter(turns[..k + 1], assign) == Turn(SessionAfter(turns[..k], assign), turns[k], assign).final
  {
    assert turns[..k + 1][..k] == turns[..k];
  }

  /** No session state before the first `n` turns were played ended on the success message. */
  ghost predicate NoEarlierCompletion(turns: seq<TurnInput>, n: nat, assign: Assign)
    requires n <= |turns|
  {
    forall k :: 0 <= k < n ==> !Completed(SessionAfter(turns[..k], assign))
  }

  /** Playing on from an unfinished state keeps the loop's record of unfinished states. */
  lemma NoEarlierCompletionStep(turns: seq<TurnInput>, n: nat, assign: Assign)
    requires n < |turns|
    requires NoEarlierCompletion(turns, n, assign) && !Completed(SessionAfter(turns[..n], assign))
    ensures NoEarlierCompletion(turns, n + 1, assign)
  {
  }

  /**
   * The console loop: one graph invocation per user turn, stopping as soon
   * as the newest message is the success message. The turns are given up
   * front; `played` says how many were consumed.
   */
  method Converse(turns: seq<TurnInput>, assign: Assign) returns (s: State, played: nat, done: bool)
    ensures played <= |turns|
    ensures s == SessionAfter(turns[..played], assign)
    ensures done <==> Completed(s)
    ensures !done ==> played == |turns|
    ensures forall k :: 0 <= k < played ==> !Completed(SessionAfter(turns[..k], assign))
  {
    s, played, done := InitialState, 0, false;
    while played < |turns| && !done
      invariant played <= |turns|
      invariant s == SessionAfter(turns[..played], assign)
      invariant done <==> Completed(s)
      invariant NoEarlierCompletion(turns, played, assign)
    {
      SessionStep(turns, played, assign);
      NoEarlierCompletionStep(turns, played, assign);
      s := Turn(s, turns[played], assign).final;
      played := played + 1;
      done := Completed(s);
    }
  }
}
