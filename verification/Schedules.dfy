/**
 Any number of calls at once on the same books. Each call first makes its checks and later its write,
 and between the two any other call may do either; whole operations may come in as well. Not all of the
 invariant survives that (module Overtaking), but what this module calls sound does.
 */
module Schedules {
  import opened Prelude
  import opened Calendar
  import opened Journal
  import opened Ledger
  import opened Invariant
  import opened Reversals

  datatype Call =
    | Posting(env: Env, request: PostRequest)
    | Editing(env: Env, entryId: int, date: Date, description: string, lines: seq<RawLine>)
    | Reversing(entryId: int, reason: Option<string>, reversalDate: Option<Date>, today: Date)

  datatype Phase =
    | Ready | Admitted(admission: Admission) | Revising(revision: Revision) | Planned(plan: ReversalPlan)
    | Done | Refused

  datatype World = World(books: Books, phases: seq<Phase>)

  datatype Move = Advance(caller: nat) | Whole(op: Op)

  function CheckCall(b: Books, call: Call): (Books, Phase)
  {
    match call
    case Posting(env, r) =>
      (match CheckPost(b, env, r)
       case (b', Ok(Some(a))) => (b', Admitted(a))
       case (b', _) => (b', Refused))
    case Editing(env, id, date, description, lines) =>
      (match CheckEdit(b, env, id, date, description, lines)
       case (b', Ok(v)) => (b', Revising(v))
       case (b', _) => (b', Refused))
    case Reversing(id, reason, date, today) =>
      (match CheckReverse(b, id, reason, date, today)
       case (b', Ok(p)) => (b', Planned(p))
       case (b', _) => (b', Refused))
  }

  /** The write of a call that has passed its checks; any other call is left where it is. */
  function WriteCall(b: Books, call: Call, phase: Phase): (Books, Phase)
  {
    if call.Posting? && phase.Admitted? then
      var (b', answer) := InsertPost(b, call.request, phase.admission);
      (b', if answer.Ok? then Done else Refused)
    else if call.Editing? && phase.Revising? && HasEntry(b.entries, call.entryId) then
      (WriteEdit(b, call.entryId, phase.revision), Done)
    else if call.Reversing? && phase.Planned? then
      var (b', answer) := InsertReversal(b, call.entryId, phase.plan);
      (b', if answer.Ok? then Done else Refused)
    else (b, phase)
  }

  function AdvanceCall(b: Books, call: Call, phase: Phase): (Books, Phase)
  {
    if phase == Ready then CheckCall(b, call) else WriteCall(b, call, phase)
  }

  function Step(calls: seq<Call>, w: World, m: Move): World
    requires |w.phases| == |calls|
  {
    match m
    case Whole(op) => w.(books := Apply(w.books, op))
    case Advance(i) =>
      if i >= |calls| then w
      else
        var (b, phase) := AdvanceCall(w.books, calls[i], w.phases[i]);
        World(b, w.phases[i := phase])
  }

  function Moves(calls: seq<Call>, w: World, moves: seq<Move>): (r: World)
    requires |w.phases| == |calls|
    ensures |r.phases| == |calls|
  {
    if moves == [] then w
    else Step(calls, Moves(calls, w, moves[..|moves| - 1]), moves[|moves| - 1])
  }

  function Start(b: Books, calls: seq<Call>): World { World(b, seq(|calls|, _ => Ready)) }

  // ----- One call on its own -----

  /** The operation that the call is when nothing comes between its checks and its write. */
  function OpOf(call: Call): Op
  {
    match call
    case Posting(env, r) => PostOp(env, r)
    case Editing(env, id, date, description, lines) => EditOp(env, id, date, description, lines)
    case Reversing(id, reason, date, today) => ReverseOp(id, reason, date, today)
  }

  /** The answer of the operation is that it wrote something. */
  predicate Wrote(b: Books, call: Call)
  {
    match call
    case Posting(env, r) => Post(b, env, r).1.Ok? && Post(b, env, r).1.value.Some?
    case Editing(env, id, date, description, lines) => Edit(b, env, id, date, description, lines).1.Ok?
    case Reversing(id, reason, date, today) => Reverse(b, id, reason, date, today).1.Ok?
  }

  /** What is left of a reversal whose key is taken: its transaction is undone here only by the whole operation. */
  predicate TakenBack(b: Books, call: Call)
  {
    call.Reversing? && KeyUsed(b.entries, ReversalKey(call.entryId))
  }

  /** The checks and then the write of a call. */
  function BothParts(b: Books, call: Call): (Books, Phase)
  {
    var (b', phase) := CheckCall(b, call);
    WriteCall(b', call, phase)
  }

  lemma {:induction false} PostingAlone(b: Books, call: Call)
    requires call.Posting?
    ensures BothParts(b, call).0 == Post(b, call.env, call.request).0
    ensures BothParts(b, call).1 == if Wrote(b, call) then Done else Refused
  {
    CheckPostOutcome(b, call.env, call.request);
    EnsureOpenOutcome(b, call.request.date, call.request.allowSoft);
  }

  lemma {:induction false} EditingAlone(b: Books, call: Call)
    requires call.Editing?
    ensures BothParts(b, call).0 == Edit(b, call.env, call.entryId, call.date, call.description, call.lines).0
    ensures BothParts(b, call).1 == if Wrote(b, call) then Done else Refused
  {
    CheckedEntry(b, call.env, call.entryId, call.date, call.description, call.lines);
  }

  lemma {:induction false} ReversingAlone(b: Books, call: Call)
    requires call.Reversing?
    ensures var whole := Reverse(b, call.entryId, call.reason, call.reversalDate, call.today).0;
            BothParts(b, call).0.entries == whole.entries && (!TakenBack(b, call) ==> BothParts(b, call).0 == whole)
    ensures BothParts(b, call).1 == if Wrote(b, call) then Done else Refused
  {
    CheckReverseOutcome(b, call.entryId, call.reason, call.reversalDate, call.today);
    EnsureOpenOutcome(b, if call.reversalDate.Some? then call.reversalDate.value else call.today, true);
  }

  lemma {:induction false} TwoMoves(calls: seq<Call>, w: World, i: nat)
    requires |w.phases| == |calls| && i < |calls| && w.phases[i] == Ready
    ensures var (b, phase) := BothParts(w.books, calls[i]);
            Moves(calls, w, [Advance(i), Advance(i)]) == World(b, w.phases[i := phase])
  {
    var once := [Advance(i)];
    var (b, phase) := CheckCall(w.books, calls[i]);
    assert once[..0] == [] && [Advance(i), Advance(i)][..1] == once;
    assert Moves(calls, w, []) == w;
    assert Moves(calls, w, once) == World(b, w.phases[i := phase]);
    assert phase != Ready;
    assert w.phases[i := phase][i := BothParts(w.books, calls[i]).1] == w.phases[i := BothParts(w.books, calls[i]).1];
  }

  /**
   A call that checks and then writes with nothing in between is the whole operation: the same entries,
   and the same periods but after a reversal whose key is taken.
   */
  lemma {:induction false} AloneIsWhole(calls: seq<Call>, w: World, i: nat)
    requires |w.phases| == |calls| && i < |calls| && w.phases[i] == Ready
    ensures var w' := Moves(calls, w, [Advance(i), Advance(i)]);
            && w'.books.entries == Apply(w.books, OpOf(calls[i])).entries
            && (!TakenBack(w.books, calls[i]) ==> w'.books == Apply(w.books, OpOf(calls[i])))
            && w'.phases[i] == (if Wrote(w.books, calls[i]) then Done else Refused)
            && forall j :: 0 <= j < |calls| && j != i ==> w'.phases[j] == w.phases[j]
  {
    TwoMoves(calls, w, i);
    match calls[i]
    case Posting(_, _) => PostingAlone(w.books, calls[i]);
    case Editing(_, _, _, _, _) => EditingAlone(w.books, calls[i]);
    case Reversing(_, _, _, _) => ReversingAlone(w.books, calls[i]);
  }

  function Wholes(ops: seq<Op>): (moves: seq<Move>)
    ensures |moves| == |ops|
  {
    seq(|ops|, i requires 0 <= i < |ops| => Whole(ops[i]))
  }

  /** A schedule of whole operations alone is a run of them. */
  lemma {:induction false} WholesAreRun(calls: seq<Call>, w: World, ops: seq<Op>)
    requires |w.phases| == |calls|
    ensures Moves(calls, w, Wholes(ops)) == World(Run(w.books, ops), w.phases)
  {
    if ops != [] {
      var n := |ops| - 1;
      assert Wholes(ops)[..n] == Wholes(ops[..n]);
      WholesAreRun(calls, w, ops[..n]);
    }
  }

  // ----- Sound books -----

  /** What is well-formed but for the numbers of the lines. */
  ghost predicate Balanced(lines: seq<Stored>)
  {
    && lines != []
    && (forall i :: 0 <= i < |lines| ==> OneSided(lines[i]) && 1 <= |lines[i].currency| <= 3)
    && TotalDebit(lines) == TotalCredit(lines)
  }

  ghost predicate StoredPeriod(ps: map<string, Period>, id: int) { exists k :: k in ps && ps[k].id == id }

  /** A reversal follows the entry it reverses, and carries its key. */
  ghost predicate LinkKeyed(es: seq<Entry>, i: nat)
    requires i < |es|
  {
    es[i].reverses.Some? ==> 1 <= es[i].reverses.value <= i && es[i].key == ReversalKey(es[i].reverses.value)
  }

  ghost predicate EachBalanced(rows: seq<Batch>)
  {
    forall i :: 0 <= i < |rows| ==> Balanced(rows[i].lines)
  }

  /** Every batch of lines is balanced, and the entry has the lines of its batches. */
  ghost predicate RowsBalanced(e: Entry)
  {
    EachBalanced(e.rows) && e.lines == LinesOf(e.rows)
  }

  ghost predicate AllBalanced(es: seq<Entry>)
  {
    forall i :: 0 <= i < |es| ==> Balanced(es[i].lines) && RowsBalanced(es[i])
  }

  ghost predicate AllLinksKeyed(es: seq<Entry>) { forall i :: 0 <= i < |es| ==> LinkKeyed(es, i) }

  ghost predicate AllInPeriods(ps: map<string, Period>, es: seq<Entry>)
  {
    forall i :: 0 <= i < |es| ==> StoredPeriod(ps, es[i].periodId)
  }

  ghost predicate SoundEntries(es: seq<Entry>)
  {
    EntryIds(es) && KeysUnique(es) && AllBalanced(es) && AllLinksKeyed(es)
  }

  ghost predicate Sound(b: Books)
  {
    SoundEntries(b.entries) && PeriodsOk(b.periods) && AllInPeriods(b.periods, b.entries)
  }

  lemma {:induction false} OneBatchBalanced(e: Entry)
    requires OneBatch(e) && Balanced(e.lines)
    ensures RowsBalanced(e)
  {
    assert e.rows[..0] == [];
  }

  lemma {:induction false} InvIsSound(b: Books)
    requires Inv(b)
    ensures Sound(b)
  {
    forall i | 0 <= i < |b.entries|
      ensures Balanced(b.entries[i].lines) && RowsBalanced(b.entries[i]) && LinkKeyed(b.entries, i)
      ensures StoredPeriod(b.periods, b.entries[i].periodId)
    {
      assert WellFormed(b.entries[i].lines) && LinkOk(b.entries, i) && Placed(b.periods, b.entries[i]);
      assert OneBatch(b.entries[i]);
      OneBatchBalanced(b.entries[i]);
    }
  }

  // ----- Growth -----

  ghost predicate PeriodsGrow(ps: map<string, Period>, ps': map<string, Period>)
  {
    forall k :: k in ps ==> k in ps' && ps'[k].id == ps[k].id
  }

  ghost predicate KeysStay(es: seq<Entry>, es': seq<Entry>)
  {
    |es| <= |es'| && forall i :: 0 <= i < |es| ==> es'[i].key == es[i].key
  }

  ghost predicate Grows(b: Books, b': Books)
  {
    KeysStay(b.entries, b'.entries) && PeriodsGrow(b.periods, b'.periods)
  }

  lemma {:induction false} GrowsOn(a: Books, b: Books, c: Books)
    requires Grows(a, b) && Grows(b, c)
    ensures Grows(a, c)
  {
  }

  lemma {:induction false} StaysStored(ps: map<string, Period>, ps': map<string, Period>, id: int)
    requires PeriodsGrow(ps, ps') && StoredPeriod(ps, id)
    ensures StoredPeriod(ps', id)
  {
    var k :| k in ps && ps[k].id == id;
    assert ps'[k].id == id;
  }

  lemma {:induction false} StaysUsed(es: seq<Entry>, es': seq<Entry>, key: string)
    requires KeysStay(es, es') && KeyUsed(es, key)
    ensures KeyUsed(es', key)
  {
    var i :| 0 <= i < |es| && es[i].key == key;
    assert es'[i].key == key;
  }

  lemma {:induction false} PeriodsChange(b: Books, ps: map<string, Period>)
    requires Sound(b) && PeriodsOk(ps) && PeriodsGrow(b.periods, ps)
    ensures Sound(b.(periods := ps)) && Grows(b, b.(periods := ps))
  {
    forall i | 0 <= i < |b.entries|
      ensures StoredPeriod(ps, b.entries[i].periodId)
    {
      StaysStored(b.periods, ps, b.entries[i].periodId);
    }
  }

  lemma {:induction false} LookUpAdds(b: Books, d: Date, allowSoft: bool)
    ensures OnlyAddsPeriod(b, EnsureOpen(b, d, allowSoft).0, d)
  {
  }

  lemma {:induction false} AddsPeriodSound(b: Books, b': Books, d: Date)
    requires Sound(b) && OnlyAddsPeriod(b, b', d)
    ensures Sound(b') && Grows(b, b')
  {
    if b'.periods != b.periods {
      NewPeriodIsOk(b, d);
      AddPeriod(b.periods, PeriodKey(d), NewPeriod(b, d));
    }
    PeriodsChange(b, b'.periods);
  }

  lemma {:induction false} LookUpSound(b: Books, d: Date, allowSoft: bool)
    requires Sound(b)
    ensures var (b', r) := EnsureOpen(b, d, allowSoft);
            && Sound(b') && Grows(b, b') && b'.entries == b.entries
            && (r.Ok? ==> StoredPeriod(b'.periods, r.value.id))
  {
    LookUpAdds(b, d, allowSoft);
    AddsPeriodSound(b, EnsureOpen(b, d, allowSoft).0, d);
    if EnsureOpen(b, d, allowSoft).1.Ok? {
      EnsureOpenFinds(b, d, allowSoft);
    }
  }

  lemma {:induction false} StatusSound(b: Books, key: string, status: string, actor: int, now: int)
    requires Sound(b)
    ensures Sound(SetStatus(b, key, status, actor, now).0) && Grows(b, SetStatus(b, key, status, actor, now).0)
  {
    SetStatusOutcome(b, key, status, actor, now);
    var (b', r) := SetStatus(b, key, status, actor, now);
    if r.Ok? {
      assert PeriodOk(key, b.periods[key]);
      StatusOnlyKeepsMonth(key, b.periods[key], r.value);
      ChangeKeepsMonths(b.periods, key, r.value);
      ChangeKeepsIds(b.periods, key, r.value);
    }
    PeriodsChange(b, b'.periods);
  }

  lemma {:induction false} AppendSound(b: Books, e: Entry)
    requires Sound(b) && e.id == |b.entries| + 1 && !KeyUsed(b.entries, e.key)
    requires Balanced(e.lines) && OneBatch(e)
    requires StoredPeriod(b.periods, e.periodId) && LinkKeyed(b.entries + [e], |b.entries|)
    ensures Sound(b.(entries := b.entries + [e])) && Grows(b, b.(entries := b.entries + [e]))
  {
    var es := b.entries + [e];
    OneBatchBalanced(e);
    AppendKeepsKeys(b.entries, e);
    forall i | 0 <= i < |es|
      ensures LinkKeyed(es, i)
    {
      if i < |b.entries| {
        assert LinkKeyed(b.entries, i);
      }
    }
  }

  lemma {:induction false} ReplaceSound(b: Books, at: nat, e: Entry)
    requires Sound(b) && at < |b.entries| && SameIdentity(b.entries[at], e)
    requires Balanced(e.lines) && RowsBalanced(e) && StoredPeriod(b.periods, e.periodId)
    ensures Sound(b.(entries := b.entries[at := e])) && Grows(b, b.(entries := b.entries[at := e]))
  {
    var es := b.entries[at := e];
    assert KeysUnique(es) && EntryIds(es);
    forall i | 0 <= i < |es|
      ensures LinkKeyed(es, i)
    {
      assert LinkKeyed(b.entries, i);
    }
  }

  /** Balanced lines, or none. */
  ghost predicate Even(lines: seq<Stored>) { lines != [] ==> Balanced(lines) }

  lemma {:induction false} EvenTogether(ls: seq<Stored>, ms: seq<Stored>)
    requires Even(ls) && Balanced(ms)
    ensures Balanced(ls + ms)
  {
    if ls == [] {
      assert ls + ms == ms;
    } else {
      TotalsAdd(ls, ms);
    }
  }

  lemma {:induction false} RowsEven(rows: seq<Batch>)
    requires EachBalanced(rows)
    ensures Even(LinesOf(rows))
  {
    if rows != [] {
      var n := |rows| - 1;
      RowsEven(rows[..n]);
      EvenTogether(LinesOf(rows[..n]), rows[n].lines);
    }
  }

  lemma {:induction false} UnreadBalanced(rows: seq<Batch>, read: seq<Batch>)
    requires EachBalanced(rows)
    ensures EachBalanced(Unread(rows, read))
  {
    if rows != [] {
      UnreadBalanced(rows[..|rows| - 1], read);
    }
  }

  lemma {:induction false} LinesOfMore(rows: seq<Batch>, row: Batch)
    ensures LinesOf(rows + [row]) == LinesOf(rows) + row.lines
  {
    assert (rows + [row])[..|rows|] == rows;
  }

  lemma {:induction false} LeftBalanced(e: Entry, read: Entry)
    requires EachBalanced(e.rows)
    ensures EachBalanced(Left(e, read))
  {
    UnreadBalanced(e.rows, read.rows);
  }

  lemma {:induction false} OneMoreBalanced(rows: seq<Batch>, row: Batch)
    requires EachBalanced(rows) && Balanced(row.lines)
    ensures EachBalanced(rows + [row]) && Balanced(LinesOf(rows) + row.lines)
    ensures LinesOf(rows + [row]) == LinesOf(rows) + row.lines
  {
    RowsEven(rows);
    EvenTogether(LinesOf(rows), row.lines);
    LinesOfMore(rows, row);
  }

  lemma {:induction false} MadeOfRows(e: Entry, kept: seq<Batch>, row: Batch)
    requires e.rows == kept + [row] && e.lines == LinesOf(kept) + row.lines
    requires EachBalanced(kept) && Balanced(row.lines)
    ensures Balanced(e.lines) && RowsBalanced(e)
  {
    OneMoreBalanced(kept, row);
  }

  lemma {:induction false} RevisedRows(e: Entry, v: Revision)
    ensures Revise(e, v).rows == Left(e, v.read) + [Batch(e.batch + 1, v.lines)]
    ensures Revise(e, v).lines == LinesOf(Left(e, v.read)) + v.lines
  {
  }

  /** Whatever batches an edit leaves, with its own they are balanced. */
  lemma {:induction false} RevisedBalanced(e: Entry, e': Entry, v: Revision)
    requires RowsBalanced(e) && Balanced(v.lines) && e' == Revise(e, v)
    ensures Balanced(e'.lines) && RowsBalanced(e')
  {
    LeftBalanced(e, v.read);
    RevisedRows(e, v);
    MadeOfRows(e', Left(e, v.read), Batch(e.batch + 1, v.lines));
  }

  lemma {:induction false} MirrorBalanced(ls: seq<Stored>)
    requires Balanced(ls)
    ensures Balanced(Mirror(ls))
  {
    MirrorTotals(ls);
    forall i | 0 <= i < |ls|
      ensures OneSided(Mirror(ls)[i]) && 1 <= |Mirror(ls)[i].currency| <= 3
    {
      assert OneSided(ls[i]);
    }
  }

  lemma {:induction false} AcceptedIsBalanced(env: Env, lines: seq<RawLine>, strict: bool)
    requires ValidateLines(env, lines, strict).Ok?
    ensures Balanced(StoreAll(ValidateLines(env, lines, strict).value))
  {
    AcceptedIsWellFormed(env, lines, strict);
  }

  // ----- Calls -----

  /** What a call has in hand is fit to be written. */
  ghost predicate Fit(b: Books, call: Call, phase: Phase)
  {
    && (call.Posting? && phase.Admitted? ==>
          Balanced(StoreAll(phase.admission.drafts)) && StoredPeriod(b.periods, phase.admission.periodId))
    && (call.Editing? && phase.Revising? ==>
          Balanced(phase.revision.lines) && StoredPeriod(b.periods, phase.revision.periodId))
    && (call.Reversing? && phase.Planned? ==>
          HasEntry(b.entries, call.entryId) && Balanced(phase.plan.lines)
          && StoredPeriod(b.periods, phase.plan.periodId))
  }

  lemma {:induction false} StaysFit(b: Books, b': Books, call: Call, phase: Phase)
    requires Grows(b, b') && Fit(b, call, phase)
    ensures Fit(b', call, phase)
  {
    if call.Posting? && phase.Admitted? {
      StaysStored(b.periods, b'.periods, phase.admission.periodId);
    } else if call.Editing? && phase.Revising? {
      StaysStored(b.periods, b'.periods, phase.revision.periodId);
    } else if call.Reversing? && phase.Planned? {
      StaysStored(b.periods, b'.periods, phase.plan.periodId);
    }
  }

  lemma {:induction false} CheckPostSound(b: Books, env: Env, r: PostRequest)
    requires Sound(b)
    ensures var (b', answer) := CheckPost(b, env, r);
            && Sound(b') && Grows(b, b') && b'.entries == b.entries
            && (answer.Ok? && answer.value.Some? ==>
                  Balanced(StoreAll(answer.value.value.drafts))
                  && StoredPeriod(b'.periods, answer.value.value.periodId))
  {
    CheckPostOutcome(b, env, r);
    LookUpSound(b, r.date, r.allowSoft);
    if ValidateLines(env, r.lines, r.strict).Ok? {
      AcceptedIsBalanced(env, r.lines, r.strict);
    }
  }

  lemma {:induction false} CheckEditInParts(b: Books, env: Env, id: int, date: Date, description: string,
                                            lines: seq<RawLine>)
    requires HasEntry(b.entries, id)
    ensures var b1 := EnsureOpen(b, b.entries[id - 1].date, false).0;
            var (b2, month) := EnsureOpen(b1, date, false);
            var (b', answer) := CheckEdit(b, env, id, date, description, lines);
            && (b' == b || b' == b1 || b' == b2)
            && (answer.Ok? ==>
                  && b' == b2 && month.Ok? && ValidateLines(env, lines, true).Ok?
                  && answer.value.periodId == month.value.id
                  && answer.value.lines == StoreAll(ValidateLines(env, lines, true).value))
  {
  }

  lemma {:induction false} CheckEditSound(b: Books, env: Env, id: int, date: Date, description: string,
                                          lines: seq<RawLine>)
    requires Sound(b)
    ensures var (b', answer) := CheckEdit(b, env, id, date, description, lines);
            && Sound(b') && Grows(b, b') && b'.entries == b.entries
            && (answer.Ok? ==> HasEntry(b.entries, id) && Balanced(answer.value.lines)
                               && StoredPeriod(b'.periods, answer.value.periodId))
  {
    if HasEntry(b.entries, id) {
      var b1 := EnsureOpen(b, b.entries[id - 1].date, false).0;
      CheckEditInParts(b, env, id, date, description, lines);
      LookUpSound(b, b.entries[id - 1].date, false);
      LookUpSound(b1, date, false);
      GrowsOn(b, b1, EnsureOpen(b1, date, false).0);
      if ValidateLines(env, lines, true).Ok? {
        AcceptedIsBalanced(env, lines, true);
      }
    }
  }

  lemma {:induction false} CheckReverseSound(b: Books, id: int, reason: Option<string>, date: Option<Date>, today: Date)
    requires Sound(b)
    ensures var (b', answer) := CheckReverse(b, id, reason, date, today);
            && Sound(b') && Grows(b, b') && b'.entries == b.entries
            && (answer.Ok? ==> HasEntry(b.entries, id) && Balanced(answer.value.lines)
                               && StoredPeriod(b'.periods, answer.value.periodId))
  {
    CheckReverseOutcome(b, id, reason, date, today);
    LookUpSound(b, if date.Some? then date.value else today, true);
    if HasEntry(b.entries, id) {
      assert Balanced(b.entries[id - 1].lines);
      MirrorBalanced(b.entries[id - 1].lines);
    }
  }

  lemma {:induction false} InsertPostSound(b: Books, r: PostRequest, a: Admission)
    requires Sound(b) && Balanced(StoreAll(a.drafts)) && StoredPeriod(b.periods, a.periodId)
    ensures Sound(InsertPost(b, r, a).0) && Grows(b, InsertPost(b, r, a).0)
  {
    if !KeyUsed(b.entries, r.key) {
      AppendSound(b, PostedEntry(b.entries, r, a.periodId, a.drafts));
    }
  }

  lemma {:induction false} WriteEditSound(b: Books, id: int, v: Revision)
    requires Sound(b) && HasEntry(b.entries, id) && Balanced(v.lines) && StoredPeriod(b.periods, v.periodId)
    ensures Sound(WriteEdit(b, id, v)) && Grows(b, WriteEdit(b, id, v))
  {
    var e := b.entries[id - 1];
    assert RowsBalanced(e) && StoredPeriod(b.periods, e.periodId);
    RevisedBalanced(e, Revise(e, v), v);
    ReplaceSound(b, id - 1, Revise(e, v));
  }

  lemma {:induction false} InsertReversalSound(b: Books, id: int, p: ReversalPlan)
    requires Sound(b) && HasEntry(b.entries, id) && Balanced(p.lines) && StoredPeriod(b.periods, p.periodId)
    ensures Sound(InsertReversal(b, id, p).0) && Grows(b, InsertReversal(b, id, p).0)
  {
    if !KeyUsed(b.entries, ReversalKey(id)) {
      AppendSound(b, PlannedEntry(b.entries, id, p));
    }
  }

  lemma {:induction false} CheckCallSound(b: Books, call: Call)
    requires Sound(b)
    ensures var (b', phase) := CheckCall(b, call);
            Sound(b') && Grows(b, b') && b'.entries == b.entries && Fit(b', call, phase) && phase != Done
  {
    match call
    case Posting(env, r) => CheckPostSound(b, env, r);
    case Editing(env, id, date, description, lines) => CheckEditSound(b, env, id, date, description, lines);
    case Reversing(id, reason, date, today) => CheckReverseSound(b, id, reason, date, today);
  }

  /** The key of the row that the call inserts. */
  function KeyOf(call: Call): Option<string>
  {
    match call
    case Posting(_, r) => Some(r.key)
    case Editing(_, _, _, _, _) => None
    case Reversing(id, _, _, _) => Some(ReversalKey(id))
  }

  /** A write that inserts a row found its key free, and leaves it used. */
  ghost predicate InsertsOnce(b: Books, b': Books, call: Call)
  {
    KeyOf(call).Some? ==> !KeyUsed(b.entries, KeyOf(call).value) && KeyUsed(b'.entries, KeyOf(call).value)
  }

  lemma {:induction false} LastIsUsed(es: seq<Entry>, e: Entry)
    ensures KeyUsed(es + [e], e.key)
  {
    assert (es + [e])[|es|] == e;
  }

  /** What a write must leave. */
  ghost predicate WellWritten(b: Books, b': Books, call: Call, phase': Phase)
  {
    Sound(b') && Grows(b, b') && (phase' == Done ==> InsertsOnce(b, b', call))
  }

  lemma {:induction false} WritePostSound(b: Books, call: Call, phase: Phase)
    requires Sound(b) && Fit(b, call, phase) && call.Posting? && phase.Admitted?
    ensures var (b', phase') := WriteCall(b, call, phase);
            WellWritten(b, b', call, phase') && (phase' == Done || phase' == Refused)
  {
    InsertPostSound(b, call.request, phase.admission);
    LastIsUsed(b.entries, PostedEntry(b.entries, call.request, phase.admission.periodId, phase.admission.drafts));
  }

  lemma {:induction false} WriteReversalSound(b: Books, call: Call, phase: Phase)
    requires Sound(b) && Fit(b, call, phase) && call.Reversing? && phase.Planned?
    ensures var (b', phase') := WriteCall(b, call, phase);
            WellWritten(b, b', call, phase') && (phase' == Done || phase' == Refused)
  {
    InsertReversalSound(b, call.entryId, phase.plan);
    LastIsUsed(b.entries, PlannedEntry(b.entries, call.entryId, phase.plan));
  }

  lemma {:induction false} WriteCallSound(b: Books, call: Call, phase: Phase)
    requires Sound(b) && Fit(b, call, phase)
    ensures var (b', phase') := WriteCall(b, call, phase);
            && Sound(b') && Grows(b, b') && Fit(b', call, phase')
            && (phase' == Done && phase != Done ==> InsertsOnce(b, b', call))
  {
    if call.Posting? && phase.Admitted? {
      WritePostSound(b, call, phase);
    } else if call.Reversing? && phase.Planned? {
      WriteReversalSound(b, call, phase);
    } else if call.Editing? && phase.Revising? && HasEntry(b.entries, call.entryId) {
      WriteEditSound(b, call.entryId, phase.revision);
    }
  }

  lemma {:induction false} AdvanceSound(b: Books, call: Call, phase: Phase)
    requires Sound(b) && Fit(b, call, phase)
    ensures var (b', phase') := AdvanceCall(b, call, phase);
            && Sound(b') && Grows(b, b') && Fit(b', call, phase')
            && (phase' == Done && phase != Done ==> InsertsOnce(b, b', call))
            && (phase == Done ==> phase' == Done)
  {
    if phase == Ready {
      CheckCallSound(b, call);
    } else {
      WriteCallSound(b, call, phase);
    }
  }

  // ----- Whole operations -----

  lemma {:induction false} PostSound(b: Books, env: Env, r: PostRequest)
    requires Sound(b)
    ensures Sound(Post(b, env, r).0) && Grows(b, Post(b, env, r).0)
  {
    CheckPostSound(b, env, r);
    var (b', answer) := CheckPost(b, env, r);
    if answer.Ok? && answer.value.Some? {
      InsertPostSound(b', r, answer.value.value);
      GrowsOn(b, b', InsertPost(b', r, answer.value.value).0);
    }
  }

  lemma {:induction false} EditSound(b: Books, env: Env, id: int, date: Date, description: string, lines: seq<RawLine>)
    requires Sound(b)
    ensures Sound(Edit(b, env, id, date, description, lines).0)
    ensures Grows(b, Edit(b, env, id, date, description, lines).0)
  {
    CheckEditSound(b, env, id, date, description, lines);
    var (b', answer) := CheckEdit(b, env, id, date, description, lines);
    if answer.Ok? {
      WriteEditSound(b', id, answer.value);
      GrowsOn(b, b', WriteEdit(b', id, answer.value));
    }
  }

  lemma {:induction false} ReverseSound(b: Books, id: int, reason: Option<string>, date: Option<Date>, today: Date)
    requires Sound(b)
    ensures Sound(Reverse(b, id, reason, date, today).0) && Grows(b, Reverse(b, id, reason, date, today).0)
  {
    ReverseInParts(b, id, reason, date, today);
    CheckReverseSound(b, id, reason, date, today);
    var (b', answer) := CheckReverse(b, id, reason, date, today);
    if answer.Ok? {
      InsertReversalSound(b', id, answer.value);
      GrowsOn(b, b', InsertReversal(b', id, answer.value).0);
    }
  }

  lemma {:induction false} ApplySound(b: Books, op: Op)
    requires Sound(b)
    ensures Sound(Apply(b, op)) && Grows(b, Apply(b, op))
  {
    match op
    case PostOp(env, r) => PostSound(b, env, r);
    case EditOp(env, id, date, description, lines) => EditSound(b, env, id, date, description, lines);
    case ReverseOp(id, reason, date, today) => ReverseSound(b, id, reason, date, today);
    case StatusOp(key, status, actor, now) => StatusSound(b, key, status, actor, now);
    case EnsureOp(date, allowSoft) => LookUpSound(b, date, allowSoft);
    case CanPostOp(date) =>
      LookUpSound(b, date, false);
      LookUpsAgree(b, date, false);
  }

  // ----- Schedules -----

  /** The call has inserted a row. */
  predicate Inserted(call: Call, phase: Phase) { phase == Done && KeyOf(call).Some? }

  ghost predicate KeysUsed(calls: seq<Call>, phases: seq<Phase>, es: seq<Entry>)
    requires |phases| == |calls|
  {
    forall i :: 0 <= i < |calls| && Inserted(calls[i], phases[i]) ==> KeyUsed(es, KeyOf(calls[i]).value)
  }

  /** No two calls that have inserted rows share a key. */
  ghost predicate KeysApart(calls: seq<Call>, phases: seq<Phase>)
    requires |phases| == |calls|
  {
    forall i, j :: 0 <= i < j < |calls| && Inserted(calls[i], phases[i]) && Inserted(calls[j], phases[j]) ==>
      KeyOf(calls[i]) != KeyOf(calls[j])
  }

  ghost predicate AllFit(calls: seq<Call>, w: World)
    requires |w.phases| == |calls|
  {
    forall i :: 0 <= i < |calls| ==> Fit(w.books, calls[i], w.phases[i])
  }

  ghost predicate WorldOk(calls: seq<Call>, w: World)
  {
    && |w.phases| == |calls| && Sound(w.books) && AllFit(calls, w)
    && KeysUsed(calls, w.phases, w.books.entries) && KeysApart(calls, w.phases)
  }

  lemma {:induction false} BooksGrow(calls: seq<Call>, w: World, b: Books)
    requires WorldOk(calls, w) && Sound(b) && Grows(w.books, b)
    ensures WorldOk(calls, w.(books := b))
  {
    forall i | 0 <= i < |calls|
      ensures Fit(b, calls[i], w.phases[i])
    {
      StaysFit(w.books, b, calls[i], w.phases[i]);
    }
    forall i | 0 <= i < |calls| && Inserted(calls[i], w.phases[i])
      ensures KeyUsed(b.entries, KeyOf(calls[i]).value)
    {
      StaysUsed(w.books.entries, b.entries, KeyOf(calls[i]).value);
    }
  }

  lemma {:induction false} KeysAfter(calls: seq<Call>, phases: seq<Phase>, i: nat, phase: Phase,
                                     es: seq<Entry>, es': seq<Entry>)
    requires |phases| == |calls| && i < |calls| && KeysApart(calls, phases)
    requires KeysUsed(calls, phases, es) && KeysUsed(calls, phases, es')
    requires Inserted(calls[i], phase) && !Inserted(calls[i], phases[i]) ==>
               !KeyUsed(es, KeyOf(calls[i]).value) && KeyUsed(es', KeyOf(calls[i]).value)
    ensures KeysUsed(calls, phases[i := phase], es') && KeysApart(calls, phases[i := phase])
  {
  }

  lemma {:induction false} PhaseChanges(calls: seq<Call>, w: World, i: nat, phase: Phase, before: Books)
    requires WorldOk(calls, w) && i < |calls| && Fit(w.books, calls[i], phase)
    requires KeysUsed(calls, w.phases, before.entries)
    requires phase == Done && w.phases[i] != Done ==> InsertsOnce(before, w.books, calls[i])
    ensures WorldOk(calls, w.(phases := w.phases[i := phase]))
  {
    KeysAfter(calls, w.phases, i, phase, before.entries, w.books.entries);
    var phases' := w.phases[i := phase];
    forall j | 0 <= j < |calls|
      ensures Fit(w.books, calls[j], phases'[j])
    {
      assert Fit(w.books, calls[j], w.phases[j]);
    }
  }

  lemma {:induction false} AdvanceOk(calls: seq<Call>, w: World, i: nat)
    requires WorldOk(calls, w) && i < |calls|
    ensures var (b, phase) := AdvanceCall(w.books, calls[i], w.phases[i]);
            WorldOk(calls, World(b, w.phases[i := phase]))
  {
    var (b, phase) := AdvanceCall(w.books, calls[i], w.phases[i]);
    AdvanceSound(w.books, calls[i], w.phases[i]);
    BooksGrow(calls, w, b);
    PhaseChanges(calls, World(b, w.phases), i, phase, w.books);
  }

  lemma {:induction false} StepOk(calls: seq<Call>, w: World, m: Move)
    requires WorldOk(calls, w)
    ensures WorldOk(calls, Step(calls, w, m))
  {
    match m
    case Whole(op) =>
      ApplySound(w.books, op);
      BooksGrow(calls, w, Apply(w.books, op));
    case Advance(i) =>
      if i < |calls| {
        AdvanceOk(calls, w, i);
      }
  }

  lemma {:induction false} MovesOk(calls: seq<Call>, w: World, moves: seq<Move>)
    requires WorldOk(calls, w)
    ensures WorldOk(calls, Moves(calls, w, moves))
  {
    if moves != [] {
      MovesOk(calls, w, moves[..|moves| - 1]);
      StepOk(calls, Moves(calls, w, moves[..|moves| - 1]), moves[|moves| - 1]);
    }
  }

  lemma {:induction false} StartOk(b: Books, calls: seq<Call>)
    requires Reachable(b)
    ensures WorldOk(calls, Start(b, calls))
  {
    ReachableOk(b);
    InvIsSound(b);
  }

  /**
   Whatever calls there are and however they interleave, from any reachable books: no two entries have
   one key, no entry has two reversals, and of the calls with one key at most one inserts.
   */
  lemma {:induction false} EveryScheduleInsertsOnce(b: Books, calls: seq<Call>, moves: seq<Move>)
    requires Reachable(b)
    ensures var w := Moves(calls, Start(b, calls), moves);
            KeysUnique(w.books.entries) && AtMostOneReversal(w.books.entries) && KeysApart(calls, w.phases)
  {
    StartOk(b, calls);
    MovesOk(calls, Start(b, calls), moves);
    var es := Moves(calls, Start(b, calls), moves).books.entries;
    forall i, j | 0 <= i < j < |es| && es[i].reverses.Some?
      ensures es[i].reverses != es[j].reverses
    {
      assert LinkKeyed(es, i) && LinkKeyed(es, j);
    }
  }

  /**
   And debits equal credits in each entry, each period and the whole ledger, each line has one side, and
   each entry is in a stored period, a whole month that overlaps no other.
   */
  lemma {:induction false} EveryScheduleBalances(b: Books, calls: seq<Call>, moves: seq<Move>, periodId: int)
    requires Reachable(b)
    ensures var c := Moves(calls, Start(b, calls), moves).books;
            && EachBalances(c.entries) && AllBalanced(c.entries)
            && DebitsOf(c.entries, 0, periodId) == CreditsOf(c.entries, 0, periodId)
            && AllDebits(c.entries, 0) == AllCredits(c.entries, 0)
            && PeriodsOk(c.periods) && AllInPeriods(c.periods, c.entries)
  {
    StartOk(b, calls);
    MovesOk(calls, Start(b, calls), moves);
    var es := Moves(calls, Start(b, calls), moves).books.entries;
    forall i | 0 <= i < |es|
      ensures TotalDebit(es[i].lines) == TotalCredit(es[i].lines)
    {
      assert Balanced(es[i].lines);
    }
    SuffixBalanced(es, 0, periodId);
  }
}
