/**
 * The exporter's `parse`: for every session created after the start instant,
 * look up its agent, reconstruct the turns according to the agent's category,
 * prefix every turn with seven agent and session fields, and concatenate the
 * rows session by session.
 */
module Parser {
  import opened Wrappers
  import opened Records
  import opened Turns
  import SessionHandler

  // ------------------------------------------------------------- category

  /** The three message layouts the exporter understands. */
  datatype Category = Prompt | General | Rag

  /** The string an agent's `context.category` carries for each layout. */
  function CategoryName(c: Category): string {
    match c
    case Prompt => "prompt"
    case General => "general"
    case Rag => "rag"
  }

  /**
   * The dispatch on the agent's category string: a recognised string is
   * the name of the layout returned, and any other string names no layout.
   */
  function CategoryOf(name: string): (r: Option<Category>)
    ensures r.Some? ==> CategoryName(r.value) == name
    ensures r.None? <==> forall c: Category :: CategoryName(c) != name
  {
    if name == "prompt" then Some(Prompt)
    else if name == "general" then Some(General)
    else if name == "rag" then Some(Rag)
    else None
  }

  /** The field pattern every turn of a layout has; the assistant text is always present. */
  predicate HasShape(c: Category, t: Turn) {
    && t.user.Some?
    && t.assistant.Some?
    && match c
       case General => t.system.None? && t.rag.None?
       case Prompt => t.system.Some? && t.rag.None?
       case Rag => t.system.Some? && t.rag.Some?
  }

  /** Runs the parser of layout `c`; every turn it yields has that layout's shape. */
  function ParseMessages(c: Category, messages: seq<Message>): (r: Result<seq<Turn>, ParseError>)
    ensures r.Success? ==> forall t :: t in r.value ==> HasShape(c, t)
  {
    match c
    case Prompt => ParsePromptMessages(messages)
    case General => ParseGeneralMessages(messages)
    case Rag => ParseRagMessages(messages)
  }

  // ----------------------------------------------------------------- rows

  /** The seven agent and session values every row of a session starts with. */
  datatype SessionMetadata = SessionMetadata(
    agentName: string,
    agentType: string,
    agentContentCategory: string,
    agentContentDescription: string,
    agentContentSourceText: string,
    sessionName: string,
    sessionCreatedUserName: string)

  /** One row of the exported table: the session's metadata, then the turn's five fields. */
  datatype ExportRow = ExportRow(metadata: SessionMetadata, turn: Turn)

  /** The seven values, in column order: five from the agent, two from the session. */
  function MetadataOf(agent: Agent, session: Session): SessionMetadata {
    SessionMetadata(agent.name, agent.agentType, agent.context.category, agent.context.description,
                    agent.context.sourceText, session.name, session.createdUserName)
  }

  /** Prefixes every turn with `metadata`, keeping the turns and their order. */
  function Decorate(metadata: SessionMetadata, turns: seq<Turn>): (rows: seq<ExportRow>)
    ensures |rows| == |turns|
    ensures forall j :: 0 <= j < |rows| ==> rows[j].metadata == metadata && rows[j].turn == turns[j]
  {
    if |turns| == 0 then []
    else [ExportRow(metadata, turns[0])] + Decorate(metadata, turns[1..])
  }

  /** Prefixing one more turn appends one more row. */
  lemma {:induction false} DecorateAppend(metadata: SessionMetadata, turns: seq<Turn>, j: nat)
    requires j < |turns|
    ensures Decorate(metadata, turns[..j + 1]) == Decorate(metadata, turns[..j]) + [ExportRow(metadata, turns[j])]
  {
    var a := Decorate(metadata, turns[..j + 1]);
    var b := Decorate(metadata, turns[..j]) + [ExportRow(metadata, turns[j])];
    assert |a| == |b|;
    forall q | 0 <= q < |a| ensures a[q] == b[q] {
      assert turns[..j + 1][q] == turns[q];
      if q < j {
        assert turns[..j][q] == turns[q];
      }
    }
  }

  /**
   * The rows one session contributes: none when its agent's category is not
   * one of the three layouts, otherwise one row per reconstructed turn, in
   * order, each carrying the session's metadata; it fails exactly when the
   * reconstruction fails.
   */
  function SessionRows(session: Session, agent: Agent): (r: Result<seq<ExportRow>, ParseError>)
    ensures CategoryOf(agent.context.category).None? ==> r == Success([])
    ensures CategoryOf(agent.context.category).Some? ==>
              var turns := ParseMessages(CategoryOf(agent.context.category).value, session.messages);
              && (r.Success? <==> turns.Success?)
              && (r.Success? ==>
                    && |r.value| == |turns.value|
                    && forall j :: 0 <= j < |r.value| ==>
                         r.value[j] == ExportRow(MetadataOf(agent, session), turns.value[j]))
  {
    match CategoryOf(agent.context.category)
    case None => Success([])
    case Some(c) =>
      var turns :- ParseMessages(c, session.messages);
      Success(Decorate(MetadataOf(agent, session), turns))
  }

  /** The number of turns a session yields: zero for an unsupported category. */
  function TurnCount(session: Session, agent: Agent): nat {
    match CategoryOf(agent.context.category)
    case None => 0
    case Some(c) =>
      match ParseMessages(c, session.messages)
      case Success(turns) => |turns|
      case Failure(_) => 0
  }

  /** The number of turns over all sessions, each looked up with its own agent. */
  function TotalTurnCount(sessions: seq<Session>, getAgent: string -> Agent): nat {
    if |sessions| == 0 then 0
    else TurnCount(sessions[0], getAgent(sessions[0].agent)) + TotalTurnCount(sessions[1..], getAgent)
  }

  /** `row` is one of the rows `session` contributes under `agent`. */
  ghost predicate RowOf(row: ExportRow, session: Session, agent: Agent) {
    && CategoryOf(agent.context.category).Some?
    && var turns := ParseMessages(CategoryOf(agent.context.category).value, session.messages);
    && turns.Success?
    && row.metadata == MetadataOf(agent, session)
    && row.turn in turns.value
  }

  /**
   * The loop over sessions in `parse`, as a fold: the table is the rows of
   * every session concatenated in session order. It fails exactly when some
   * session of a supported category fails to reconstruct; otherwise it has one
   * row per turn of the supported sessions.
   */
  function MergeRows(sessions: seq<Session>, getAgent: string -> Agent): (r: Result<seq<ExportRow>, ParseError>)
    ensures r.Success? ==> |r.value| == TotalTurnCount(sessions, getAgent)
  {
    if |sessions| == 0 then Success([])
    else
      var head :- SessionRows(sessions[0], getAgent(sessions[0].agent));
      var tail :- MergeRows(sessions[1..], getAgent);
      Success(head + tail)
  }

  /** The table is built exactly when every session reconstructs (unsupported ones always do). */
  lemma {:induction false} MergeRowsSucceeds(sessions: seq<Session>, getAgent: string -> Agent)
    ensures MergeRows(sessions, getAgent).Success? <==>
              forall s :: s in sessions ==> SessionRows(s, getAgent(s.agent)).Success?
  {
    if |sessions| > 0 {
      MergeRowsSucceeds(sessions[1..], getAgent);
      assert sessions == [sessions[0]] + sessions[1..];
      assert forall s :: s in sessions <==> s == sessions[0] || s in sessions[1..];
    }
  }

  /** Every row of the table is a turn of one of the sessions, carrying that session's metadata. */
  lemma {:induction false} MergeRowsProvenance(sessions: seq<Session>, getAgent: string -> Agent)
    requires MergeRows(sessions, getAgent).Success?
    ensures forall row :: row in MergeRows(sessions, getAgent).value ==>
              exists s :: s in sessions && RowOf(row, s, getAgent(s.agent))
  {
    if |sessions| > 0 {
      var s0 := sessions[0];
      var head := SessionRows(s0, getAgent(s0.agent)).value;
      var tail := MergeRows(sessions[1..], getAgent).value;
      MergeRowsProvenance(sessions[1..], getAgent);
      assert MergeRows(sessions, getAgent).value == head + tail;
      forall row | row in head + tail
        ensures exists s :: s in sessions && RowOf(row, s, getAgent(s.agent))
      {
        if row in head {
          var j :| 0 <= j < |head| && head[j] == row;
          assert RowOf(row, s0, getAgent(s0.agent));
        } else {
          var s :| s in sessions[1..] && RowOf(row, s, getAgent(s.agent));
          assert s in sessions;
        }
      }
    }
  }

  /**
   * The table of a concatenation of session lists is the concatenation of
   * their tables: rows appear session by session in input order.
   */
  lemma {:induction false} MergeRowsConcat(a: seq<Session>, b: seq<Session>, getAgent: string -> Agent)
    ensures MergeRows(a + b, getAgent).Success? <==> MergeRows(a, getAgent).Success? && MergeRows(b, getAgent).Success?
    ensures MergeRows(a + b, getAgent).Success? ==>
              MergeRows(a + b, getAgent).value == MergeRows(a, getAgent).value + MergeRows(b, getAgent).value
  {
    if |a| == 0 {
      assert a + b == b;
      assert MergeRows(a, getAgent) == Success([]);
    } else {
      var ab := a + b;
      assert ab[0] == a[0];
      assert ab[1..] == a[1..] + b;
      MergeRowsConcat(a[1..], b, getAgent);
      ConcatStep(a, b, getAgent);
    }
  }

  /** One step of the fold: the first session's rows, then the table of the others. */
  lemma MergeRowsUnfold(sessions: seq<Session>, getAgent: string -> Agent)
    requires |sessions| > 0
    ensures var head := SessionRows(sessions[0], getAgent(sessions[0].agent));
            var tail := MergeRows(sessions[1..], getAgent);
            && (MergeRows(sessions, getAgent).Success? <==> head.Success? && tail.Success?)
            && (MergeRows(sessions, getAgent).Success? ==> MergeRows(sessions, getAgent).value == head.value + tail.value)
  {
  }

  /** The inductive step of `MergeRowsConcat`, once the claim holds for `a[1..]` and `b`. */
  lemma ConcatStep(a: seq<Session>, b: seq<Session>, getAgent: string -> Agent)
    requires |a| > 0
    requires (a + b)[0] == a[0] && (a + b)[1..] == a[1..] + b
    requires MergeRows(a[1..] + b, getAgent).Success? <==>
               MergeRows(a[1..], getAgent).Success? && MergeRows(b, getAgent).Success?
    requires MergeRows(a[1..] + b, getAgent).Success? ==>
               MergeRows(a[1..] + b, getAgent).value == MergeRows(a[1..], getAgent).value + MergeRows(b, getAgent).value
    ensures MergeRows(a + b, getAgent).Success? <==> MergeRows(a, getAgent).Success? && MergeRows(b, getAgent).Success?
    ensures MergeRows(a + b, getAgent).Success? ==>
              MergeRows(a + b, getAgent).value == MergeRows(a, getAgent).value + MergeRows(b, getAgent).value
  {
    MergeRowsUnfold(a + b, getAgent);
    MergeRowsUnfold(a, getAgent);
    var head := SessionRows(a[0], getAgent(a[0].agent));
    var restA := MergeRows(a[1..], getAgent);
    var whole := MergeRows(b, getAgent);
    if head.Success? && restA.Success? && whole.Success? {
      assert head.value + (restA.value + whole.value) == (head.value + restA.value) + whole.value;
    }
  }

  /** A session of an unsupported category adds no rows and does not stop the ones after it. */
  lemma UnsupportedSessionSkipped(session: Session, rest: seq<Session>, getAgent: string -> Agent)
    requires CategoryOf(getAgent(session.agent).context.category).None?
    ensures MergeRows([session] + rest, getAgent) == MergeRows(rest, getAgent)
  {
    assert ([session] + rest)[1..] == rest;
    var tail := MergeRows(rest, getAgent);
    if tail.Success? {
      assert [] + tail.value == tail.value;
    }
  }

  lemma MergeRowsSingle(session: Session, getAgent: string -> Agent)
    ensures MergeRows([session], getAgent) == SessionRows(session, getAgent(session.agent))
  {
    assert [session][1..] == [];
    var rows := SessionRows(session, getAgent(session.agent));
    if rows.Success? {
      assert rows.value + [] == rows.value;
    }
  }

  /** Extending the session list by one session appends that session's rows to the table. */
  lemma MergeRowsSnoc(sessions: seq<Session>, i: nat, getAgent: string -> Agent)
    requires i < |sessions|
    ensures var before := MergeRows(sessions[..i], getAgent);
            var rows := SessionRows(sessions[i], getAgent(sessions[i].agent));
            MergeRows(sessions[..i + 1], getAgent)
              == if before.Success? && rows.Success? then Success(before.value + rows.value)
                 else Failure(IndexError)
  {
    var a, b := sessions[..i], [sessions[i]];
    assert sessions[..i + 1] == a + b;
    MergeRowsConcat(a, b, getAgent);
    MergeRowsSingle(sessions[i], getAgent);
    var after := MergeRows(a + b, getAgent);
    if after.Failure? {
      assert after.error == IndexError;
    }
  }

  /** One session that fails to reconstruct makes the whole table fail. */
  lemma MergeRowsFailsAt(sessions: seq<Session>, i: nat, getAgent: string -> Agent)
    requires i < |sessions|
    requires SessionRows(sessions[i], getAgent(sessions[i].agent)).Failure?
    ensures MergeRows(sessions, getAgent) == Failure(IndexError)
  {
    MergeRowsSucceeds(sessions, getAgent);
    assert sessions[i] in sessions;
    var whole := MergeRows(sessions, getAgent);
    assert whole.error == IndexError;
  }

  /**
   * `parse` up to writing the file: keep the sessions created strictly after
   * `startDatetime`, then merge their rows. It fails exactly when a kept
   * session of a supported category fails to reconstruct, so sessions at or
   * before the bound can never make it fail, and every row comes from a kept
   * session.
   */
  function Parse(sessions: seq<Session>, startDatetime: string, parseTime: string -> int,
                 getAgent: string -> Agent): (r: Result<seq<ExportRow>, ParseError>)
    ensures r.Success? <==>
              forall s :: s in sessions && parseTime(startDatetime) < parseTime(s.createdAt) ==>
                SessionRows(s, getAgent(s.agent)).Success?
    ensures r.Success? ==>
              forall row :: row in r.value ==>
                exists s :: && s in sessions
                            && parseTime(startDatetime) < parseTime(s.createdAt)
                            && RowOf(row, s, getAgent(s.agent))
  {
    var kept := SessionHandler.SessionsCreatedAfter(sessions, startDatetime, parseTime);
    assert forall s :: s in kept <==> s in sessions && parseTime(startDatetime) < parseTime(s.createdAt) by {
      forall s ensures s in kept <==> s in sessions && parseTime(startDatetime) < parseTime(s.createdAt) {
        SessionHandler.SessionsCreatedAfterKeepsAll(sessions, startDatetime, parseTime, s);
      }
    }
    MergeRowsSucceeds(kept, getAgent);
    if MergeRows(kept, getAgent).Success? then
      MergeRowsProvenance(kept, getAgent);
      MergeRows(kept, getAgent)
    else
      MergeRows(kept, getAgent)
  }

  /** The inner loop of `parse`: appends one row per turn, each prefixed with `metadata`. */
  method AppendTurnRows(table: seq<ExportRow>, metadata: SessionMetadata, turns: seq<Turn>)
    returns (extended: seq<ExportRow>)
    ensures extended == table + Decorate(metadata, turns)
  {
    extended := table;
    var j := 0;
    while j < |turns|
      invariant 0 <= j <= |turns|
      invariant extended == table + Decorate(metadata, turns[..j])
    {
      DecorateAppend(metadata, turns, j);
      extended := extended + [ExportRow(metadata, turns[j])];
      j := j + 1;
    }
    assert turns[..j] == turns;
  }

  /**
   * The loop of `parse` as written: sessions in order, an unsupported
   * category skipped with `continue`, a failing reconstruction aborting the
   * run, and the rows of a session appended one at a time. It builds the same
   * table as the fold `MergeRows`.
   */
  method MergeRowsLoop(sessions: seq<Session>, getAgent: string -> Agent) returns (r: Result<seq<ExportRow>, ParseError>)
    ensures r == MergeRows(sessions, getAgent)
  {
    var table: seq<ExportRow> := [];
    var i := 0;
    while i < |sessions|
      invariant 0 <= i <= |sessions|
      invariant MergeRows(sessions[..i], getAgent) == Success(table)
    {
      var session := sessions[i];
      var agent := getAgent(session.agent);
      MergeRowsSnoc(sessions, i, getAgent);
      var category := CategoryOf(agent.context.category);
      if category.None? {
        assert SessionRows(session, agent) == Success([]);
        assert table + [] == table;
        i := i + 1;
        continue;
      }
      var messagesRows := ParseMessages(category.value, session.messages);
      if messagesRows.Failure? {
        MergeRowsFailsAt(sessions, i, getAgent);
        return Failure(IndexError);
      }
      assert SessionRows(session, agent) == Success(Decorate(MetadataOf(agent, session), messagesRows.value));
      table := AppendTurnRows(table, MetadataOf(agent, session), messagesRows.value);
      i := i + 1;
    }
    assert sessions[..i] == sessions;
    r := Success(table);
  }
}
