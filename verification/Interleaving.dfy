/**
 Posts and reversals by concurrent callers. Each caller first checks for an existing row and later
 inserts its own; between the two any other caller may act. Only the unique constraint on the key
 makes a caller fail at the insertion.
 */
module Interleaving {
  import opened Prelude
  import opened Calendar
  import opened Journal
  import opened Ledger
  import opened Invariant

  datatype Task = PostTask(key: string) | ReverseTask(entryId: int)

  datatype Row = Row(key: string, reverses: Option<int>)

  datatype Phase = Ready | Checked | Inserted | Refused

  /** The rows of the table, and how far each caller has got. */
  datatype World = World(rows: seq<Row>, phases: seq<Phase>)

  datatype Move = Check(caller: nat) | Insert(caller: nat)

  function RowOf(t: Task): Row
  {
    match t
    case PostTask(key) => Row(key, None)
    case ReverseTask(entryId) => Row(ReversalKey(entryId), Some(entryId))
  }

  predicate HasKey(rows: seq<Row>, key: string)
  {
    exists i :: 0 <= i < |rows| && rows[i].key == key
  }

  predicate HasReversal(rows: seq<Row>, entryId: int)
  {
    exists i :: 0 <= i < |rows| && rows[i].reverses == Some(entryId)
  }

  /** What the caller's own check looks for. */
  predicate AlreadyThere(rows: seq<Row>, t: Task)
  {
    match t
    case PostTask(key) => HasKey(rows, key)
    case ReverseTask(entryId) => HasReversal(rows, entryId)
  }

  /** One move of one caller; a caller that is not at that point, or not there at all, does nothing. */
  function Step(constrained: bool, tasks: seq<Task>, w: World, m: Move): World
    requires |w.phases| == |tasks|
  {
    var i := m.caller;
    if i >= |tasks| then w
    else if m.Check? && w.phases[i] == Ready then
      w.(phases := w.phases[i := if AlreadyThere(w.rows, tasks[i]) then Refused else Checked])
    else if m.Insert? && w.phases[i] == Checked then
      if constrained && HasKey(w.rows, RowOf(tasks[i]).key) then w.(phases := w.phases[i := Refused])
      else World(w.rows + [RowOf(tasks[i])], w.phases[i := Inserted])
    else w
  }

  function Moves(constrained: bool, tasks: seq<Task>, w: World, moves: seq<Move>): (r: World)
    requires |w.phases| == |tasks|
    ensures |r.phases| == |tasks|
  {
    if moves == [] then w
    else Step(constrained, tasks, Moves(constrained, tasks, w, moves[..|moves| - 1]), moves[|moves| - 1])
  }

  function Start(rows: seq<Row>, tasks: seq<Task>): World
  {
    World(rows, seq(|tasks|, _ => Ready))
  }

  /** Only an insertion by a caller that has checked adds a row, its own; no move touches another caller. */
  lemma {:induction false} OnlyCheckedInsert(constrained: bool, tasks: seq<Task>, w: World, m: Move)
    requires |w.phases| == |tasks|
    ensures var w' := Step(constrained, tasks, w, m);
            && (forall j :: 0 <= j < |tasks| && j != m.caller ==> w'.phases[j] == w.phases[j])
            && (w'.rows == w.rows
                || (m.Insert? && m.caller < |tasks| && w.phases[m.caller] == Checked
                    && w'.phases[m.caller] == Inserted && w'.rows == w.rows + [RowOf(tasks[m.caller])]))
            && (m.caller < |tasks| && w'.phases[m.caller] == Inserted && w.phases[m.caller] != Inserted ==>
                  w'.rows == w.rows + [RowOf(tasks[m.caller])])
  {
  }

  /** What a caller finds decides, with nobody in between, whether it inserts. */
  lemma {:induction false} CallerAlone(constrained: bool, tasks: seq<Task>, w: World, i: nat)
    requires |w.phases| == |tasks| && i < |tasks| && w.phases[i] == Ready
    ensures var w' := Step(constrained, tasks, Step(constrained, tasks, w, Check(i)), Insert(i));
            var refused := AlreadyThere(w.rows, tasks[i]) || (constrained && HasKey(w.rows, RowOf(tasks[i]).key));
            && w'.phases == w.phases[i := if refused then Refused else Inserted]
            && w'.rows == w.rows + if refused then [] else [RowOf(tasks[i])]
  {
  }

  ghost predicate KeysDistinct(rows: seq<Row>)
  {
    forall i, j :: 0 <= i < j < |rows| ==> rows[i].key != rows[j].key
  }

  ghost predicate ReversalsKeyed(rows: seq<Row>)
  {
    forall i :: 0 <= i < |rows| && rows[i].reverses.Some? ==>
      rows[i].key == ReversalKey(rows[i].reverses.value)
  }

  ghost predicate TableOk(rows: seq<Row>) { KeysDistinct(rows) && ReversalsKeyed(rows) }

  /** A caller that inserted finds its key in the table; no two such callers share a key. */
  ghost predicate CallersOk(tasks: seq<Task>, w: World)
    requires |w.phases| == |tasks|
  {
    && (forall i :: 0 <= i < |tasks| && w.phases[i] == Inserted ==> HasKey(w.rows, RowOf(tasks[i]).key))
    && (forall i, j :: 0 <= i < j < |tasks| && w.phases[i] == Inserted && w.phases[j] == Inserted ==>
          RowOf(tasks[i]).key != RowOf(tasks[j]).key)
  }

  lemma {:induction false} InsertKeepsTable(rows: seq<Row>, t: Task)
    requires TableOk(rows) && !HasKey(rows, RowOf(t).key)
    ensures TableOk(rows + [RowOf(t)])
  {
  }

  lemma {:induction false} InsertKeepsKeys(rows: seq<Row>, r: Row, key: string)
    ensures HasKey(rows, key) ==> HasKey(rows + [r], key)
    ensures HasKey(rows + [r], r.key)
  {
    if HasKey(rows, key) {
      var i :| 0 <= i < |rows| && rows[i].key == key;
      assert (rows + [r])[i].key == key;
    }
    assert (rows + [r])[|rows|] == r;
  }

  lemma {:induction false} StepKeeps(tasks: seq<Task>, w: World, m: Move)
    requires |w.phases| == |tasks| && TableOk(w.rows) && CallersOk(tasks, w)
    ensures var w' := Step(true, tasks, w, m);
            TableOk(w'.rows) && CallersOk(tasks, w')
  {
    var w' := Step(true, tasks, w, m);
    var i := m.caller;
    if w'.rows != w.rows {
      var r := RowOf(tasks[i]);
      InsertKeepsTable(w.rows, tasks[i]);
      forall j | 0 <= j < |tasks| && w'.phases[j] == Inserted
        ensures HasKey(w'.rows, RowOf(tasks[j]).key)
      {
        InsertKeepsKeys(w.rows, r, RowOf(tasks[j]).key);
      }
    }
  }

  lemma {:induction false} MovesKeep(tasks: seq<Task>, w: World, moves: seq<Move>)
    requires |w.phases| == |tasks| && TableOk(w.rows) && CallersOk(tasks, w)
    ensures var w' := Moves(true, tasks, w, moves);
            TableOk(w'.rows) && CallersOk(tasks, w')
  {
    if moves != [] {
      MovesKeep(tasks, w, moves[..|moves| - 1]);
      StepKeeps(tasks, Moves(true, tasks, w, moves[..|moves| - 1]), moves[|moves| - 1]);
    }
  }

  function RowsOf(es: seq<Entry>): (rows: seq<Row>)
    ensures |rows| == |es|
  {
    seq(|es|, i requires 0 <= i < |es| => Row(es[i].key, es[i].reverses))
  }

  /** The callers may start from any reachable books. */
  lemma {:induction false} ReachableTable(b: Books)
    requires Reachable(b)
    ensures TableOk(RowsOf(b.entries))
  {
    ReachableOk(b);
    forall i | 0 <= i < |b.entries| && b.entries[i].reverses.Some?
      ensures b.entries[i].key == ReversalKey(b.entries[i].reverses.value)
    {
      assert LinkOk(b.entries, i);
    }
  }

  /**
   However the callers interleave, the table never holds two rows with one key or two reversals of
   one entry, and of several callers with one key at most one inserts.
   */
  lemma {:induction false} AtMostOnce(b: Books, tasks: seq<Task>, moves: seq<Move>)
    requires Reachable(b)
    ensures var w := Moves(true, tasks, Start(RowsOf(b.entries), tasks), moves);
            && KeysDistinct(w.rows)
            && (forall i, j :: 0 <= i < j < |w.rows| && w.rows[i].reverses.Some? ==>
                  w.rows[i].reverses != w.rows[j].reverses)
            && (forall i, j :: 0 <= i < j < |tasks| && RowOf(tasks[i]).key == RowOf(tasks[j]).key ==>
                  !(w.phases[i] == Inserted && w.phases[j] == Inserted))
  {
    ReachableTable(b);
    MovesKeep(tasks, Start(RowsOf(b.entries), tasks), moves);
  }

  lemma {:induction false} SameKeys(es: seq<Entry>, key: string)
    ensures HasKey(RowsOf(es), key) <==> KeyUsed(es, key)
  {
    if HasKey(RowsOf(es), key) {
      var i :| 0 <= i < |es| && RowsOf(es)[i].key == key;
      assert RowsOf(es)[i] == Row(es[i].key, es[i].reverses);
    }
    if KeyUsed(es, key) {
      var i :| 0 <= i < |es| && es[i].key == key;
      assert RowsOf(es)[i].key == key;
    }
  }

  lemma {:induction false} SameReversals(es: seq<Entry>, id: int)
    ensures HasReversal(RowsOf(es), id) <==> Reversed(es, id)
  {
    if HasReversal(RowsOf(es), id) {
      var i :| 0 <= i < |es| && RowsOf(es)[i].reverses == Some(id);
      assert RowsOf(es)[i] == Row(es[i].key, es[i].reverses);
    }
    if Reversed(es, id) {
      var i :| 0 <= i < |es| && es[i].reverses == Some(id);
      assert RowsOf(es)[i].reverses == Some(id);
    }
  }

  /** What a caller's two moves are, seen from the books: the check and the insertion of a post. */
  lemma {:induction false} PostsAreMoves(b: Books, env: Env, r: PostRequest, a: Admission)
    ensures CheckPost(b, env, r).1 == Ok(None) <==> AlreadyThere(RowsOf(b.entries), PostTask(r.key))
    ensures InsertPost(b, r, a).1.Err? <==> HasKey(RowsOf(b.entries), r.key)
    ensures RowsOf(InsertPost(b, r, a).0.entries)
            == RowsOf(b.entries) + if HasKey(RowsOf(b.entries), r.key) then [] else [RowOf(PostTask(r.key))]
  {
    SameKeys(b.entries, r.key);
    CheckPostOutcome(b, env, r);
  }

  /** And those of a reversal. */
  lemma {:induction false} ReversalsAreMoves(b: Books, id: int, reason: Option<string>, date: Option<Date>, today: Date,
                                             p: ReversalPlan)
    requires HasEntry(b.entries, id)
    ensures CheckReverse(b, id, reason, date, today).1 == Err(AlreadyReversed(id))
            <==> AlreadyThere(RowsOf(b.entries), ReverseTask(id))
    ensures InsertReversal(b, id, p).1.Err? <==> HasKey(RowsOf(b.entries), ReversalKey(id))
    ensures RowsOf(InsertReversal(b, id, p).0.entries)
            == RowsOf(b.entries) + if HasKey(RowsOf(b.entries), ReversalKey(id)) then [] else [RowOf(ReverseTask(id))]
  {
    SameKeys(b.entries, ReversalKey(id));
    SameReversals(b.entries, id);
  }

  /** Looking up the periods of some dates, each under the key of its month. */
  function PeriodTasks(dates: seq<Date>): (tasks: seq<Task>)
    ensures |tasks| == |dates|
  {
    seq(|dates|, i requires 0 <= i < |dates| => PostTask(PeriodKey(dates[i])))
  }

  /**
   The table of periods, with its unique key: however callers look periods up at once, no month gets two,
   and of the callers with dates in one month at most one creates its period.
   */
  lemma {:induction false} OnePeriodPerMonth(rows: seq<Row>, dates: seq<Date>, moves: seq<Move>)
    requires KeysDistinct(rows) && forall i :: 0 <= i < |rows| ==> rows[i].reverses.None?
    ensures var w := Moves(true, PeriodTasks(dates), Start(rows, PeriodTasks(dates)), moves);
            && KeysDistinct(w.rows)
            && forall i, j :: 0 <= i < j < |dates| && SameMonth(dates[i], dates[j]) ==>
                 !(w.phases[i] == Inserted && w.phases[j] == Inserted)
  {
    MovesKeep(PeriodTasks(dates), Start(rows, PeriodTasks(dates)), moves);
    forall i, j | 0 <= i < j < |dates| && SameMonth(dates[i], dates[j])
      ensures RowOf(PeriodTasks(dates)[i]).key == RowOf(PeriodTasks(dates)[j]).key
    {
      SameKeyIffSameMonth(dates[i], dates[j]);
    }
  }

  /** The schedule of two callers who both check before either inserts. */
  function Race(): seq<Move> { [Check(0), Check(1), Insert(0), Insert(1)] }

  lemma {:induction false} FourMoves(constrained: bool, tasks: seq<Task>, w: World, a: Move, b: Move, c: Move, d: Move)
    requires |w.phases| == |tasks|
    ensures Moves(constrained, tasks, w, [a, b, c, d])
            == Step(constrained, tasks,
                 Step(constrained, tasks,
                   Step(constrained, tasks, Step(constrained, tasks, w, a), b), c), d)
  {
    assert [a, b, c, d][..3] == [a, b, c] && [a, b, c][..2] == [a, b] && [a, b][..1] == [a];
    assert Moves(constrained, tasks, w, [a]) == Step(constrained, tasks, w, a);
    assert Moves(constrained, tasks, w, [a, b])
           == Step(constrained, tasks, Moves(constrained, tasks, w, [a]), b);
    assert Moves(constrained, tasks, w, [a, b, c])
           == Step(constrained, tasks, Moves(constrained, tasks, w, [a, b]), c);
  }

  /** It is the constraint that decides: the checks alone let the same race reverse an entry twice. */
  lemma {:induction false} ChecksAloneDoNotSuffice(entryId: int)
    ensures var t := ReverseTask(entryId);
            && Moves(false, [t, t], Start([], [t, t]), Race()).rows == [RowOf(t), RowOf(t)]
            && Moves(true, [t, t], Start([], [t, t]), Race()).rows == [RowOf(t)]
  {
    var t := ReverseTask(entryId);
    var w := Start([], [t, t]);
    assert w.phases == [Ready, Ready];
    FourMoves(false, [t, t], w, Check(0), Check(1), Insert(0), Insert(1));
    FourMoves(true, [t, t], w, Check(0), Check(1), Insert(0), Insert(1));
    assert [] + [RowOf(t)] == [RowOf(t)];
    assert [RowOf(t)][0].key == RowOf(t).key;
    assert HasKey([RowOf(t)], RowOf(t).key);
  }
}
