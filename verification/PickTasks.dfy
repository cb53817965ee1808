/** Pick tasks: a BEFORE trigger classifies a line when its quantities are written, an AFTER trigger closes the
    task's head when no line of it is left open. Nothing ever reopens a head. */
module PickTasks {
  import opened Sql

  type Id = nat

  datatype LineStatus = OPEN | PARTIAL | LINE_DONE | LINE_CANCELLED
  datatype HeadStatus = READY | ASSIGNED | PICKING | DONE | CANCELLED

  datatype Line = Line(task: Id, req: int, picked: int, status: LineStatus, preferPickface: bool)
  datatype State = State(tasks: map<Id, HeadStatus>, lines: map<Id, Line>)

  datatype Column = TaskId | ReqQty | PickedQty | Status | PreferPickface

  /** Statements on the two tables. `cols` is the SET list of an UPDATE. */
  datatype Statement =
    | InsertTasks(newTasks: map<Id, HeadStatus>)
    | SetHeads(heads: set<Id>, to: HeadStatus)
    | DeleteTasks(gone: set<Id>)
    | InsertLines(newLines: map<Id, Line>)
    | UpdateLines(cols: set<Column>, rows: map<Id, Line>)
    | DeleteLines(ids: set<Id>)

  // ---------------------------------------------------------------- triggers

  /** pick_task_lines_auto_status */
  function Classify(picked: int, req: int): LineStatus {
    if picked <= 0 then OPEN else if picked < req then PARTIAL else LINE_DONE
  }

  function AutoStatus(l: Line): Line {
    l.(status := Classify(l.picked, l.req))
  }

  /** BEFORE .. UPDATE OF picked_qty, req_qty */
  predicate WritesQty(cols: set<Column>) {
    PickedQty in cols || ReqQty in cols
  }

  /** AFTER .. UPDATE OF status, picked_qty, req_qty */
  predicate FiresAggregate(cols: set<Column>) {
    Status in cols || WritesQty(cols)
  }

  function SetLine(cols: set<Column>, old_: Line, new_: Line): Line {
    Line(if TaskId in cols then new_.task else old_.task,
         if ReqQty in cols then new_.req else old_.req,
         if PickedQty in cols then new_.picked else old_.picked,
         if Status in cols then new_.status else old_.status,
         if PreferPickface in cols then new_.preferPickface else old_.preferPickface)
  }

  /** One updated row, after its BEFORE trigger. */
  function UpdatedLine(cols: set<Column>, old_: Line, new_: Line): Line {
    if WritesQty(cols) then AutoStatus(SetLine(cols, old_, new_)) else SetLine(cols, old_, new_)
  }

  predicate Closed(l: Line) {
    l.status == LINE_DONE || l.status == LINE_CANCELLED
  }

  /** COUNT(*) of the task's lines not in ('DONE', 'CANCELLED') is zero. */
  predicate AllClosed(lines: map<Id, Line>, task: Id) {
    forall l :: l in lines && lines[l].task == task ==> Closed(lines[l])
  }

  /** The heads after the AFTER ROW firings for the tasks `fired`. */
  function Aggregated(tasks: map<Id, HeadStatus>, lines: map<Id, Line>, fired: set<Id>): map<Id, HeadStatus> {
    map t | t in tasks :: if t in fired && AllClosed(lines, t) then DONE else tasks[t]
  }

  // ---------------------------------------------------------------- statements

  function LinesAfter(st: State, stmt: Statement): map<Id, Line> {
    match stmt
    case DeleteTasks(gone) => map l | l in st.lines && st.lines[l].task !in gone :: st.lines[l]
    case InsertLines(rows) => st.lines + map l | l in rows :: AutoStatus(rows[l])
    case UpdateLines(cols, rows) =>
      map l | l in st.lines :: if l in rows then UpdatedLine(cols, st.lines[l], rows[l]) else st.lines[l]
    case DeleteLines(ids) => st.lines - ids
    case _ => st.lines
  }

  function HeadsWritten(st: State, stmt: Statement): map<Id, HeadStatus> {
    match stmt
    case InsertTasks(tasks) => st.tasks + tasks
    case SetHeads(heads, to) => map t | t in st.tasks :: if t in heads then to else st.tasks[t]
    case DeleteTasks(gone) => st.tasks - gone
    case _ => st.tasks
  }

  /** NEW.task_id of each affected row. */
  function TasksOf(lines: map<Id, Line>, rows: set<Id>): set<Id> {
    set l | l in rows && l in lines :: lines[l].task
  }

  /** The tasks for which some row of the statement fires the aggregate trigger. */
  function Fired(st: State, stmt: Statement): set<Id> {
    match stmt
    case InsertLines(rows) => TasksOf(LinesAfter(st, stmt), rows.Keys)
    case UpdateLines(cols, rows) =>
      if FiresAggregate(cols) then TasksOf(LinesAfter(st, stmt), rows.Keys) else {}
    case _ => {}
  }

  predicate LineChecks(l: Line) {
    l.req > 0 && l.picked >= 0 && l.picked <= l.req
  }

  predicate Admissible(st: State, stmt: Statement) {
    && (stmt.InsertTasks? ==> stmt.newTasks.Keys !! st.tasks.Keys)
    && (stmt.InsertLines? ==> stmt.newLines.Keys !! st.lines.Keys)
    && (forall l :: l in LinesAfter(st, stmt) ==>
          LineChecks(LinesAfter(st, stmt)[l]) && LinesAfter(st, stmt)[l].task in HeadsWritten(st, stmt))
  }

  function Step(st: State, stmt: Statement): Outcome<State> {
    if !Admissible(st, stmt) then Aborted
    else Done(State(Aggregated(HeadsWritten(st, stmt), LinesAfter(st, stmt), Fired(st, stmt)), LinesAfter(st, stmt)))
  }

  function After(st: State, stmt: Statement): State {
    if Step(st, stmt).Done? then Step(st, stmt).state else st
  }

  /** The states of a run: the i-th is the one before statement i. */
  function Trace(st: State, stmts: seq<Statement>): (states: seq<State>)
    ensures |states| == |stmts| + 1 && states[0] == st
    ensures forall i :: 0 <= i < |stmts| ==> states[i + 1] == After(states[i], stmts[i])
    decreases |stmts|
  {
    if stmts == [] then [st] else [st] + Trace(After(st, stmts[0]), stmts[1..])
  }

  // ---------------------------------------------------------------- head history

  /** The statement is accepted, fires the aggregate for the task, and at that moment no line of the task is open. */
  predicate Closes(st: State, stmt: Statement, task: Id) {
    Step(st, stmt).Done? && task in Fired(st, stmt) && AllClosed(Step(st, stmt).state.lines, task)
  }

  /** Nothing but the trigger writes a head to or from DONE. */
  predicate LeavesDoneAlone(st: State, stmt: Statement) {
    match stmt
    case InsertTasks(tasks) => forall t :: t in tasks ==> tasks[t] != DONE
    case SetHeads(heads, to) => to != DONE && forall t :: t in heads && t in st.tasks ==> st.tasks[t] != DONE
    case _ => true
  }

  /** Some statement before step `n` closed the task, and its head has existed ever since. */
  ghost predicate ClosedBefore(states: seq<State>, stmts: seq<Statement>, n: nat, task: Id)
    requires |states| == |stmts| + 1 && n <= |stmts|
  {
    exists i :: 0 <= i < n && Closes(states[i], stmts[i], task) && forall j :: i < j <= n ==> task in states[j].tasks
  }

  lemma HeadStep(st: State, stmt: Statement, task: Id)
    requires LeavesDoneAlone(st, stmt) && task in After(st, stmt).tasks
    ensures After(st, stmt).tasks[task] == DONE <==>
      Closes(st, stmt, task) || (task in st.tasks && st.tasks[task] == DONE)
  {
  }

  /** One more statement: it closes the task itself, or an earlier one did and the head was still there. */
  lemma ClosedBeforeStep(states: seq<State>, stmts: seq<Statement>, n: nat, task: Id)
    requires |states| == |stmts| + 1 && 0 < n <= |stmts| && task in states[n].tasks
    ensures ClosedBefore(states, stmts, n, task) <==>
      Closes(states[n - 1], stmts[n - 1], task) ||
      (task in states[n - 1].tasks && ClosedBefore(states, stmts, n - 1, task))
  {
    hide Closes;
    if ClosedBefore(states, stmts, n, task) {
      var i :| 0 <= i < n && Closes(states[i], stmts[i], task) && forall j :: i < j <= n ==> task in states[j].tasks;
      assert i < n - 1 ==> task in states[n - 1].tasks;
    }
    if task in states[n - 1].tasks && ClosedBefore(states, stmts, n - 1, task) {
      var i :| 0 <= i < n - 1 && Closes(states[i], stmts[i], task) &&
               forall j :: i < j <= n - 1 ==> task in states[j].tasks;
      assert forall j :: i < j <= n ==> task in states[j].tasks;
    }
  }

  /** A head is DONE exactly when some earlier line event found every line of its task done or cancelled. */
  lemma {:induction false} HeadHistory(st: State, stmts: seq<Statement>, n: nat, task: Id)
    requires n <= |stmts|
    requires forall t :: t in st.tasks ==> st.tasks[t] != DONE
    requires forall i :: 0 <= i < |stmts| ==> LeavesDoneAlone(Trace(st, stmts)[i], stmts[i])
    ensures var states := Trace(st, stmts);
      task in states[n].tasks && states[n].tasks[task] == DONE <==>
        task in states[n].tasks && ClosedBefore(states, stmts, n, task)
  {
    hide After, Closes, LeavesDoneAlone;
    var states := Trace(st, stmts);
    if n > 0 && task in states[n].tasks {
      hide ClosedBefore;
      HeadHistory(st, stmts, n - 1, task);
      assert states[n] == After(states[n - 1], stmts[n - 1]);
      HeadStep(states[n - 1], stmts[n - 1], task);
      ClosedBeforeStep(states, stmts, n, task);
    }
  }

  /** Reopening a line does not reopen its head: a DONE head may have open lines. */
  lemma ReopenedLineLeavesHeadDone(st: State, task: Id, l: Id, line: Line)
    requires task in st.tasks && st.tasks[task] == DONE
    requires l in st.lines && st.lines[l] == line && line.task == task && LineChecks(line) && line.picked == line.req
    requires forall k :: k in st.lines ==> LineChecks(st.lines[k]) && st.lines[k].task in st.tasks
    ensures var st' := After(st, UpdateLines({PickedQty}, map[l := line.(picked := 0)]));
      st'.tasks[task] == DONE && l in st'.lines && !Closed(st'.lines[l])
  {
    var stmt := UpdateLines({PickedQty}, map[l := line.(picked := 0)]);
    assert LinesAfter(st, stmt)[l] == AutoStatus(line.(picked := 0));
    assert Admissible(st, stmt);
  }

  /** Every DONE head has only closed lines. */
  ghost predicate DoneHeadsClosed(st: State) {
    forall t :: t in st.tasks && st.tasks[t] == DONE ==> AllClosed(st.lines, t)
  }

  /** The line rows that a statement inserts or updates, as its BEFORE trigger leaves them. */
  function LinesWritten(st: State, stmt: Statement): map<Id, Line> {
    match stmt
    case InsertLines(rows) => map l | l in rows :: AutoStatus(rows[l])
    case UpdateLines(cols, rows) => map l | l in rows && l in st.lines :: UpdatedLine(cols, st.lines[l], rows[l])
    case _ => map[]
  }

  /** Each written line whose task's head is DONE is itself closed. */
  ghost predicate WritesNoOpenLine(st: State, stmt: Statement) {
    forall l :: l in LinesWritten(st, stmt) ==>
      var x := LinesWritten(st, stmt)[l];
      x.task in st.tasks && st.tasks[x.task] == DONE ==> Closed(x)
  }

  /** The lines after a statement are those it writes and those it leaves. */
  lemma WrittenOrLeft(st: State, stmt: Statement)
    requires Admissible(st, stmt)
    ensures var lines', written := LinesAfter(st, stmt), LinesWritten(st, stmt);
      && (forall l :: l in written ==> l in lines' && lines'[l] == written[l])
      && (forall l :: l in lines' && l !in written ==> l in st.lines && lines'[l] == st.lines[l])
  {
    hide AutoStatus, UpdatedLine;
  }

  /** Which heads are DONE afterwards: those that were, and those that the aggregate closes, with all their lines. */
  lemma DoneAfter(st: State, stmt: Statement, task: Id)
    requires LeavesDoneAlone(st, stmt) && Step(st, stmt).Done?
    ensures var st' := After(st, stmt);
      && (task in st'.tasks && st'.tasks[task] == DONE ==>
            (task in st.tasks && st.tasks[task] == DONE) || AllClosed(st'.lines, task))
      && (task in st.tasks && st.tasks[task] == DONE && (exists l :: l in st'.lines && st'.lines[l].task == task) ==>
            task in st'.tasks && st'.tasks[task] == DONE)
  {
    hide AllClosed;
  }

  /** The step on tables alone: `written` are the new or changed lines, and only heads without open lines become DONE. */
  lemma OpenLinesAreWritten(before: State, after: State, written: map<Id, Line>)
    requires DoneHeadsClosed(before)
    requires forall l :: l in written ==> l in after.lines && after.lines[l] == written[l]
    requires forall l :: l in after.lines && l !in written ==> l in before.lines && after.lines[l] == before.lines[l]
    requires forall t :: t in after.tasks && after.tasks[t] == DONE ==>
      (t in before.tasks && before.tasks[t] == DONE) || AllClosed(after.lines, t)
    requires forall l ::
      l in after.lines && after.lines[l].task in before.tasks && before.tasks[after.lines[l].task] == DONE ==>
      after.lines[l].task in after.tasks && after.tasks[after.lines[l].task] == DONE
    ensures DoneHeadsClosed(after) <==>
      forall l :: l in written && written[l].task in before.tasks && before.tasks[written[l].task] == DONE ==>
        Closed(written[l])
  {
    hide Closed;
    if DoneHeadsClosed(after) {
      forall l | l in written && written[l].task in before.tasks && before.tasks[written[l].task] == DONE
        ensures Closed(written[l])
      {
        assert AllClosed(after.lines, after.lines[l].task);
      }
    }
  }

  /** Exactly when an accepted statement keeps every DONE head without open lines: when no row it writes is an open line of a
      DONE head. */
  lemma StepKeepsDoneClosed(st: State, stmt: Statement)
    requires DoneHeadsClosed(st) && LeavesDoneAlone(st, stmt) && Step(st, stmt).Done?
    ensures DoneHeadsClosed(After(st, stmt)) <==> WritesNoOpenLine(st, stmt)
  {
    hide LinesAfter, LinesWritten, LeavesDoneAlone, AllClosed, Closed, DoneHeadsClosed, HeadsWritten, Fired;
    var st' := After(st, stmt);
    assert st'.lines == LinesAfter(st, stmt);
    WrittenOrLeft(st, stmt);
    hide Step, After;
    forall t ensures
      && (t in st'.tasks && st'.tasks[t] == DONE ==> (t in st.tasks && st.tasks[t] == DONE) || AllClosed(st'.lines, t))
      && (t in st.tasks && st.tasks[t] == DONE && (exists l :: l in st'.lines && st'.lines[l].task == t) ==>
            t in st'.tasks && st'.tasks[t] == DONE)
    {
      DoneAfter(st, stmt, t);
    }
    OpenLinesAreWritten(st, st', LinesWritten(st, stmt));
  }

  /** The same over runs: DONE heads are without open lines throughout exactly when no accepted statement of the run writes an
      open line of a DONE head. */
  lemma {:induction false} RunKeepsDoneClosed(st: State, stmts: seq<Statement>, n: nat)
    requires n <= |stmts| && DoneHeadsClosed(st)
    requires forall i :: 0 <= i < |stmts| ==> LeavesDoneAlone(Trace(st, stmts)[i], stmts[i])
    ensures var states := Trace(st, stmts);
      (forall i :: 0 <= i <= n ==> DoneHeadsClosed(states[i])) <==>
      (forall i :: 0 <= i < n && Step(states[i], stmts[i]).Done? ==> WritesNoOpenLine(states[i], stmts[i]))
  {
    var states := Trace(st, stmts);
    hide Step, LeavesDoneAlone, DoneHeadsClosed, WritesNoOpenLine;
    if n > 0 {
      RunKeepsDoneClosed(st, stmts, n - 1);
      assert states[n] == After(states[n - 1], stmts[n - 1]);
      if DoneHeadsClosed(states[n - 1]) && Step(states[n - 1], stmts[n - 1]).Done? {
        StepKeepsDoneClosed(states[n - 1], stmts[n - 1]);
      }
    }
  }

  // ---------------------------------------------------------------- line status

  /** The statement wrote the line's quantities, so that the BEFORE trigger classified it. */
  predicate Classifies(st: State, stmt: Statement, l: Id) {
    Step(st, stmt).Done? &&
    ((stmt.InsertLines? && l in stmt.newLines) ||
     (stmt.UpdateLines? && l in stmt.rows && l in st.lines && WritesQty(stmt.cols)))
  }

  /** The statement set the line's status by hand. */
  predicate SetsStatus(st: State, stmt: Statement, l: Id) {
    Step(st, stmt).Done? && stmt.UpdateLines? && l in stmt.rows && l in st.lines &&
    Status in stmt.cols && !WritesQty(stmt.cols)
  }

  /** What statement `i` of a run says about the status of a line afterwards, if nothing overrules it later. */
  ghost predicate Explains(states: seq<State>, stmts: seq<Statement>, i: nat, n: nat, l: Id)
    requires |states| == |stmts| + 1 && i < n <= |stmts| && l in states[n].lines
  {
    && (forall j :: i < j < n ==> !Classifies(states[j], stmts[j], l) && !SetsStatus(states[j], stmts[j], l))
    && ((Classifies(states[i], stmts[i], l) &&
         states[n].lines[l].status == Classify(states[n].lines[l].picked, states[n].lines[l].req))
        || (SetsStatus(states[i], stmts[i], l) && states[n].lines[l].status == stmts[i].rows[l].status))
  }

  lemma LineStep(st: State, stmt: Statement, l: Id)
    requires l in After(st, stmt).lines
    ensures Classifies(st, stmt, l) ==>
      var x := After(st, stmt).lines[l]; x.status == Classify(x.picked, x.req)
    ensures SetsStatus(st, stmt, l) ==> After(st, stmt).lines[l].status == stmt.rows[l].status
    ensures !Classifies(st, stmt, l) && !SetsStatus(st, stmt, l) ==>
      && l in st.lines
      && var x, x' := st.lines[l], After(st, stmt).lines[l];
         x'.status == x.status && x'.picked == x.picked && x'.req == x.req
  {
  }

  /** Every line's status is the classification of its current quantities, or the status set by hand by a later
      statement: one last statement of the run accounts for it. */
  lemma {:induction false} LineStatusExplained(st: State, stmts: seq<Statement>, n: nat, l: Id)
    requires st.lines == map[] && n <= |stmts| && l in Trace(st, stmts)[n].lines
    ensures exists i :: 0 <= i < n && Explains(Trace(st, stmts), stmts, i, n, l)
  {
    hide Step, After, WritesQty;
    var states := Trace(st, stmts);
    assert n > 0;
    var before, stmt := states[n - 1], stmts[n - 1];
    assert states[n] == After(before, stmt);
    LineStep(before, stmt, l);
    hide Classifies, SetsStatus, Classify;
    if Classifies(before, stmt, l) || SetsStatus(before, stmt, l) {
      assert Explains(states, stmts, n - 1, n, l);
    } else {
      LineStatusExplained(st, stmts, n - 1, l);
      var i :| 0 <= i < n - 1 && Explains(states, stmts, i, n - 1, l);
      assert Explains(states, stmts, i, n, l);
    }
  }

  // ---------------------------------------------------------------- the database

  lemma NothingFired(tasks: map<Id, HeadStatus>, lines: map<Id, Line>)
    ensures Aggregated(tasks, lines, {}) == tasks
  {
  }

  /** pick_task_lines_auto_status: assigns NEW.status. */
  method BeforeRow(row: Line) returns (new_: Line)
    ensures new_ == AutoStatus(row)
    ensures LineChecks(row) ==>
      && (new_.status == OPEN <==> row.picked == 0) && (new_.status == LINE_DONE <==> row.picked == row.req)
      && (new_.status == PARTIAL <==> 0 < row.picked < row.req)
  {
    new_ := row;
    if new_.picked <= 0 {
      new_ := new_.(status := OPEN);
    } else if new_.picked < new_.req {
      new_ := new_.(status := PARTIAL);
    } else {
      new_ := new_.(status := LINE_DONE);
    }
  }

  /** One row of an UPDATE, column by column, then its BEFORE trigger if that fires. */
  method WriteRow(cols: set<Column>, old_: Line, new_: Line) returns (row: Line)
    ensures row == UpdatedLine(cols, old_, new_)
  {
    row := old_;
    if TaskId in cols { row := row.(task := new_.task); }
    if ReqQty in cols { row := row.(req := new_.req); }
    if PickedQty in cols { row := row.(picked := new_.picked); }
    if Status in cols { row := row.(status := new_.status); }
    if PreferPickface in cols { row := row.(preferPickface := new_.preferPickface); }
    if PickedQty in cols || ReqQty in cols {
      row := BeforeRow(row);
    }
  }

  class PickDb {
    var tasks: map<Id, HeadStatus>
    var lines: map<Id, Line>

    function Contents(): State
      reads this
    {
      State(tasks, lines)
    }

    /** INSERT INTO pick_task_lines: each row passes the BEFORE trigger. */
    method InsertLineRows(rows: map<Id, Line>)
      modifies this`lines
      ensures lines == old(lines) + map l | l in rows :: AutoStatus(rows[l])
    {
      var todo := rows.Keys;
      while todo != {}
        invariant todo <= rows.Keys && lines.Keys == old(lines).Keys + (rows.Keys - todo)
        invariant forall l :: l in lines ==>
          lines[l] == if l in rows && l !in todo then AutoStatus(rows[l]) else old(lines)[l]
        decreases todo
      {
        var l := NextRow(todo);
        var row := BeforeRow(rows[l]);
        lines := lines[l := row];
        todo := todo - {l};
      }
    }

    /** UPDATE pick_task_lines SET ..: the BEFORE trigger only fires when a quantity is in the SET list. */
    method UpdateLineRows(cols: set<Column>, rows: map<Id, Line>)
      modifies this`lines
      ensures lines == map l | l in old(lines) ::
        if l in rows then UpdatedLine(cols, old(lines)[l], rows[l]) else old(lines)[l]
    {
      hide UpdatedLine;
      var todo := rows.Keys * lines.Keys;
      while todo != {}
        invariant todo <= rows.Keys * lines.Keys && lines.Keys == old(lines).Keys
        invariant forall l :: l in lines ==>
          lines[l] == if l in rows && l !in todo then UpdatedLine(cols, old(lines)[l], rows[l]) else old(lines)[l]
        decreases todo
      {
        var l := NextRow(todo);
        var row := WriteRow(cols, lines[l], rows[l]);
        lines := lines[l := row];
        todo := todo - {l};
      }
    }

    /** pick_tasks_aggregate_status, for NEW.task_id. */
    method AggregateStatus(task: Id)
      modifies this`tasks
      ensures tasks == Aggregated(old(tasks), lines, {task})
    {
      var remain := 0;
      var todo := lines.Keys;
      while todo != {}
        invariant todo <= lines.Keys && remain >= 0 && tasks == old(tasks)
        invariant remain == 0 <==> forall l :: l in lines && l !in todo && lines[l].task == task ==> Closed(lines[l])
        decreases todo
      {
        var l := NextRow(todo);
        if lines[l].task == task && lines[l].status != LINE_DONE && lines[l].status != LINE_CANCELLED {
          remain := remain + 1;
        }
        todo := todo - {l};
      }
      if remain == 0 && task in tasks && tasks[task] != DONE {
        tasks := tasks[task := DONE];
      }
    }

    /** The AFTER ROW firings of one statement, in any order. */
    method FireAggregate(fired: set<Id>)
      modifies this`tasks
      ensures tasks == Aggregated(old(tasks), lines, fired)
    {
      var todo := fired;
      while todo != {}
        invariant todo <= fired && tasks == Aggregated(old(tasks), lines, fired - todo)
        decreases todo
      {
        var t := NextRow(todo);
        AggregateStatus(t);
        todo := todo - {t};
      }
      assert fired - todo == fired;
    }

    method Execute(stmt: Statement) returns (ok: bool)
      modifies this
      ensures ok == Step(old(Contents()), stmt).Done?
      ensures Contents() == After(old(Contents()), stmt)
    {
      hide Admissible, Aggregated;
      var before := Contents();
      if !Admissible(before, stmt) {
        return false;
      }
      ok := true;
      if !stmt.InsertLines? && !stmt.UpdateLines? {
        NothingFired(HeadsWritten(before, stmt), LinesAfter(before, stmt));
      }
      ghost var heads', lines' := HeadsWritten(before, stmt), LinesAfter(before, stmt);
      match stmt {
        case InsertTasks(rows) =>
          tasks := tasks + rows;
        case SetHeads(heads, to) =>
          tasks := map t | t in tasks :: if t in heads then to else tasks[t];
        case DeleteTasks(gone) =>
          tasks := tasks - gone;
          lines := map l | l in lines && lines[l].task !in gone :: lines[l];
        case InsertLines(rows) =>
          InsertLineRows(rows);
          FireAggregate(TasksOf(lines, rows.Keys));
        case UpdateLines(cols, rows) =>
          UpdateLineRows(cols, rows);
          if FiresAggregate(cols) {
            FireAggregate(TasksOf(lines, rows.Keys));
          } else {
            NothingFired(tasks, lines);
          }
        case DeleteLines(ids) =>
          lines := lines - ids;
      }
      assert lines == lines';
      assert tasks == Aggregated(heads', lines', Fired(before, stmt));
    }
  }
}
