/** Pick tasks on the raw columns: every head and line after a statement, and which statements are accepted. */
module PickColumns {
  import opened Sql
  import opened PickTasks

  /** The line is done or cancelled. */
  predicate DoneOrCancelled(status: LineStatus) {
    status == LINE_DONE || status == LINE_CANCELLED
  }

  /** The statement fires the aggregate for the task: it inserts one of its lines, or updates one with the status or a quantity
      in its SET list. Deletes fire nothing. */
  ghost predicate FiresFor(st: State, stmt: Statement, task: Id) {
    match stmt
    case InsertLines(rows) => exists l :: l in rows && rows[l].task == task
    case UpdateLines(cols, rows) =>
      && (Status in cols || PickedQty in cols || ReqQty in cols)
      && exists l :: l in rows && l in st.lines && (if TaskId in cols then rows[l].task else st.lines[l].task) == task
    case _ => false
  }

  /** Every head after an accepted statement: as the statement itself writes it, except that a firing closes it when all its
      lines are then done or cancelled. */
  lemma HeadsOnColumns(st: State, stmt: Statement, task: Id)
    requires Step(st, stmt).Done?
    ensures var st' := Step(st, stmt).state;
      && (task in st'.tasks <==>
            (task in st.tasks && !(stmt.DeleteTasks? && task in stmt.gone)) || (stmt.InsertTasks? && task in stmt.newTasks))
      && (task in st'.tasks ==>
            var closed := forall l :: l in st'.lines && st'.lines[l].task == task ==> DoneOrCancelled(st'.lines[l].status);
            && (FiresFor(st, stmt, task) && closed ==> st'.tasks[task] == DONE)
            && (!(FiresFor(st, stmt, task) && closed) ==>
                  && (stmt.InsertTasks? && task in stmt.newTasks ==> st'.tasks[task] == stmt.newTasks[task])
                  && (stmt.SetHeads? && task in stmt.heads ==> st'.tasks[task] == stmt.to)
                  && (!(stmt.InsertTasks? && task in stmt.newTasks) && !(stmt.SetHeads? && task in stmt.heads) ==>
                        st'.tasks[task] == st.tasks[task])))
  {
    FiredExactly(st, stmt, task);
    hide Fired, FiresFor, LinesAfter;
  }

  lemma FiredExactly(st: State, stmt: Statement, task: Id)
    requires Admissible(st, stmt)
    ensures task in Fired(st, stmt) <==> FiresFor(st, stmt, task)
  {
    var lines' := LinesAfter(st, stmt);
    if stmt.InsertLines? {
      forall l | l in stmt.newLines ensures l in lines' && lines'[l].task == stmt.newLines[l].task {
      }
    } else if stmt.UpdateLines? {
      forall l | l in stmt.rows && l in lines' ensures l in st.lines &&
        lines'[l].task == if TaskId in stmt.cols then stmt.rows[l].task else st.lines[l].task
      {
      }
    }
    hide LinesAfter, AutoStatus, UpdatedLine;
  }

  /** The status that the quantities give. */
  predicate StatusOf(status: LineStatus, picked: int, req: int) {
    && (picked <= 0 ==> status == OPEN) && (0 < picked < req ==> status == PARTIAL)
    && (0 < picked && req <= picked ==> status == LINE_DONE)
  }

  /** Every line as a statement would leave it. */
  lemma LinesOnColumns(st: State, stmt: Statement, l: Id)
    ensures var lines' := LinesAfter(st, stmt);
      && (l in lines' <==> match stmt
            case InsertLines(rows) => l in st.lines || l in rows
            case DeleteLines(ids) => l in st.lines && l !in ids
            case DeleteTasks(gone) => l in st.lines && st.lines[l].task !in gone
            case _ => l in st.lines)
      && (l in lines' && stmt.InsertLines? && l in stmt.newLines ==> var x := stmt.newLines[l];
            lines'[l] == x.(status := lines'[l].status) && StatusOf(lines'[l].status, x.picked, x.req))
      && (l in lines' && stmt.UpdateLines? && l in stmt.rows ==> var old_, x, new_ := st.lines[l], stmt.rows[l], lines'[l];
            && new_.task == (if TaskId in stmt.cols then x.task else old_.task)
            && new_.req == (if ReqQty in stmt.cols then x.req else old_.req)
            && new_.picked == (if PickedQty in stmt.cols then x.picked else old_.picked)
            && new_.preferPickface == (if PreferPickface in stmt.cols then x.preferPickface else old_.preferPickface)
            && (PickedQty in stmt.cols || ReqQty in stmt.cols ==> StatusOf(new_.status, new_.picked, new_.req))
            && (PickedQty !in stmt.cols && ReqQty !in stmt.cols ==>
                  new_.status == if Status in stmt.cols then x.status else old_.status))
      && (l in lines' && !(stmt.InsertLines? && l in stmt.newLines) && !(stmt.UpdateLines? && l in stmt.rows) ==>
            l in st.lines && lines'[l] == st.lines[l])
    ensures Step(st, stmt).Done? ==> Step(st, stmt).state.lines == LinesAfter(st, stmt)
  {
    hide Admissible, Fired, HeadsWritten;
  }

  /** Exactly when a statement is accepted: no id is used twice, and every line it leaves is of an existing task and has
      between none and all of a positive quantity picked. */
  lemma AcceptedOnColumns(st: State, stmt: Statement)
    ensures Step(st, stmt).Done? <==>
      && (stmt.InsertTasks? ==> forall t :: t in stmt.newTasks ==> t !in st.tasks)
      && (stmt.InsertLines? ==> forall l :: l in stmt.newLines ==> l !in st.lines)
      && forall l :: l in LinesAfter(st, stmt) ==> var x := LinesAfter(st, stmt)[l];
           && 0 < x.req && 0 <= x.picked <= x.req
           && (|| (x.task in st.tasks && !(stmt.DeleteTasks? && x.task in stmt.gone))
               || (stmt.InsertTasks? && x.task in stmt.newTasks))
  {
    hide LinesAfter;
  }

  /** Cancelling the last open line by hand closes its head. */
  lemma CancellingClosesHead(st: State, rows: map<Id, Line>, l: Id)
    requires Step(st, UpdateLines({Status}, rows)).Done? && l in rows && l in st.lines
    requires forall k :: k in st.lines && st.lines[k].task == st.lines[l].task ==>
      DoneOrCancelled(if k in rows then rows[k].status else st.lines[k].status)
    ensures var st' := Step(st, UpdateLines({Status}, rows)).state;
      st.lines[l].task in st'.tasks && st'.tasks[st.lines[l].task] == DONE
  {
    var stmt := UpdateLines({Status}, rows);
    var st' := Step(st, stmt).state;
    forall k | k in st'.lines ensures k in st.lines &&
      st'.lines[k].task == st.lines[k].task && st'.lines[k].status == if k in rows then rows[k].status else st.lines[k].status
    {
      LinesOnColumns(st, stmt, k);
    }
    LinesOnColumns(st, stmt, l);
    AcceptedOnColumns(st, stmt);
    HeadsOnColumns(st, stmt, st.lines[l].task);
    assert FiresFor(st, stmt, st.lines[l].task);
    assert st'.lines == LinesAfter(st, stmt);
    hide Step, DoneOrCancelled, FiresFor;
  }
}
