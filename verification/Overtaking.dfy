/**
 Calls overtaken by others. The checks of a call pass on some books, other callers then run any
 operations, and only after them does the call write what its checks had found. No row is locked in
 between: this module says exactly when the ledger survives that.
 */
module Overtaking {
  import opened Prelude
  import opened Calendar
  import opened Money
  import opened Journal
  import opened Ledger
  import opened Invariant
  import opened Periods
  import opened Replay

  // ----- What lasts -----

  /** The period found for a date stays the stored one of its month. */
  lemma {:induction false} MonthStays(b: Books, ops: seq<Op>, date: Date, periodId: int)
    requires Inv(b) && PeriodKey(date) in b.periods && b.periods[PeriodKey(date)].id == periodId
    ensures var c := Run(b, ops);
            Inv(c) && PeriodKey(date) in c.periods && c.periods[PeriodKey(date)].id == periodId
  {
    ReachableInv(b, ops);
    PeriodIdKeptOverRun(b, ops, PeriodKey(date));
  }

  /** The same lines but for memos and parties. */
  ghost predicate SameFigures(ls: seq<Stored>, ms: seq<Stored>)
  {
    && |ls| == |ms|
    && forall k :: 0 <= k < |ls| ==>
         && ms[k].debit == ls[k].debit && ms[k].credit == ls[k].credit
         && ms[k].account == ls[k].account && ms[k].branch == ls[k].branch
         && ms[k].currency == ls[k].currency && ms[k].foreignAmount == ls[k].foreignAmount
         && ms[k].rate == ls[k].rate
  }

  /** Two batches have the same reversal exactly when they have the same figures. */
  lemma {:induction false} SameMirrorIff(ls: seq<Stored>, ms: seq<Stored>)
    requires WellFormed(ls) && WellFormed(ms)
    ensures Mirror(ls) == Mirror(ms) <==> SameFigures(ls, ms)
  {
    if Mirror(ls) == Mirror(ms) {
      assert |ls| == |ms|;
      forall k | 0 <= k < |ls|
        ensures MirrorLine(ls[k]) == MirrorLine(ms[k])
      {
        assert Mirror(ls)[k] == Mirror(ms)[k];
      }
    }
  }

  // ----- Posts -----

  lemma {:induction false} CheckPostFinds(b: Books, env: Env, r: PostRequest)
    requires Inv(b) && CheckPost(b, env, r).1.Ok? && CheckPost(b, env, r).1.value.Some?
    ensures var (b', answer) := CheckPost(b, env, r);
            && Inv(b') && WellFormed(StoreAll(answer.value.value.drafts))
            && HasMonthBounds(r.date) && PeriodKey(r.date) in b'.periods
            && b'.periods[PeriodKey(r.date)].id == answer.value.value.periodId
  {
    CheckPostOutcome(b, env, r);
    EnsureOpenKeeps(b, r.date, r.allowSoft);
    EnsureOpenFinds(b, r.date, r.allowSoft);
    AcceptedIsWellFormed(env, r.lines, r.strict);
  }

  lemma {:induction false} InsertPostKeeps(c: Books, r: PostRequest, a: Admission)
    requires Inv(c) && WellFormed(StoreAll(a.drafts)) && HasMonthBounds(r.date)
    requires PeriodKey(r.date) in c.periods && c.periods[PeriodKey(r.date)].id == a.periodId
    ensures Inv(InsertPost(c, r, a).0)
  {
    if !KeyUsed(c.entries, r.key) {
      AppendKeeps(c, PostedEntry(c.entries, r, a.periodId, a.drafts));
    }
  }

  /** A post may be overtaken by anything and the ledger stays sound. */
  lemma {:induction false} OvertakenPostKeepsInv(b: Books, env: Env, r: PostRequest, ops: seq<Op>)
    requires Reachable(b) && CheckPost(b, env, r).1.Ok? && CheckPost(b, env, r).1.value.Some?
    ensures var (b', a) := CheckPost(b, env, r);
            Inv(InsertPost(Run(b', ops), r, a.value.value).0)
  {
    ReachableOk(b);
    CheckPostFinds(b, env, r);
    var (b', a) := CheckPost(b, env, r);
    MonthStays(b', ops, r.date, a.value.value.periodId);
    InsertPostKeeps(Run(b', ops), r, a.value.value);
  }

  /** Whether a period of this status takes an entry, with the flag or without. */
  predicate Admits(status: Status, allowSoft: bool)
  {
    status == Open || (status == SoftClosed && allowSoft)
  }

  ghost predicate LocksHold(c: Books, op: Op, c': Books)
  {
    forall k :: Locked(c, k) ==> LockHolds(c, op, c', k)
  }

  lemma {:induction false} InsertedElsewhere(c: Books, e: Entry, date: Date, op: Op)
    requires Inv(c) && PeriodKey(date) in c.periods && c.periods[PeriodKey(date)].id == e.periodId
    requires c.periods[PeriodKey(date)].status == Open
             || (c.periods[PeriodKey(date)].status == SoftClosed && AddedBy(op, e))
    ensures LocksHold(c, op, c.(entries := c.entries + [e]))
  {
    forall k | Locked(c, k)
      ensures LockHolds(c, op, c.(entries := c.entries + [e]), k)
    {
      assert PeriodIds(c.periods);
      AppendedStep(c, c.periods, e, op, k);
    }
  }

  lemma {:induction false} InsertedInside(c: Books, e: Entry, op: Op, k: string)
    requires k in c.periods && e.periodId == c.periods[k].id
    requires LockHolds(c, op, c.(entries := c.entries + [e]), k)
    ensures c.periods[k].status == SoftClosed && AddedBy(op, e)
  {
    var c' := c.(entries := c.entries + [e]);
    assert c'.entries[|c.entries|] == e && InPeriod(c', |c.entries|, k);
    assert !WasIn(c, |c.entries|, e);
  }

  lemma {:induction false} InsertPostLocksIff(c: Books, env: Env, r: PostRequest, a: Admission)
    requires Inv(c) && PeriodKey(r.date) in c.periods && c.periods[PeriodKey(r.date)].id == a.periodId
    requires !KeyUsed(c.entries, r.key)
    ensures LocksHold(c, PostOp(env, r), InsertPost(c, r, a).0)
            <==> Admits(c.periods[PeriodKey(r.date)].status, r.allowSoft)
  {
    var k, op := PeriodKey(r.date), PostOp(env, r);
    var e := PostedEntry(c.entries, r, a.periodId, a.drafts);
    if Admits(c.periods[k].status, r.allowSoft) {
      InsertedElsewhere(c, e, r.date, op);
    } else if LocksHold(c, op, c.(entries := c.entries + [e])) {
      assert Locked(c, k);
      InsertedInside(c, e, op, k);
    }
  }

  /**
   An overtaken post that is inserted respects the locks exactly when its month still admits it at the
   insertion: it breaks a lock when the month has been closed, or soft-closed without the flag, since
   its checks.
   */
  lemma {:induction false} OvertakenPostRespectsLocksIff(b: Books, env: Env, r: PostRequest, ops: seq<Op>)
    requires Reachable(b) && CheckPost(b, env, r).1.Ok? && CheckPost(b, env, r).1.value.Some?
    ensures var (b', a) := CheckPost(b, env, r);
            var c := Run(b', ops);
            && PeriodKey(r.date) in c.periods
            && (InsertPost(c, r, a.value.value).1.Ok? <==> !KeyUsed(c.entries, r.key))
            && (InsertPost(c, r, a.value.value).1.Ok? ==>
                  (LocksHold(c, PostOp(env, r), InsertPost(c, r, a.value.value).0)
                   <==> Admits(c.periods[PeriodKey(r.date)].status, r.allowSoft)))
  {
    ReachableOk(b);
    CheckPostFinds(b, env, r);
    var (b', a) := CheckPost(b, env, r);
    var c := Run(b', ops);
    MonthStays(b', ops, r.date, a.value.value.periodId);
    if !KeyUsed(c.entries, r.key) {
      InsertPostLocksIff(c, env, r, a.value.value);
    }
  }

  // ----- Edits -----

  ghost predicate Ordinary(es: seq<Entry>, id: int)
  {
    HasEntry(es, id) && es[id - 1].sourceType != REVERSAL && es[id - 1].reverses.None?
  }

  lemma {:induction false} OrdinaryReversesNone(es: seq<Entry>, id: int)
    requires AllLinked(es) && HasEntry(es, id) && es[id - 1].sourceType != REVERSAL
    ensures Ordinary(es, id)
  {
    assert LinkOk(es, id - 1);
  }

  /** The entry that an edit was checked for is still there, and still reverses none. */
  lemma {:induction false} OrdinaryStays(es: seq<Entry>, es': seq<Entry>, id: int)
    requires Ordinary(es, id) && IdentitiesKept(es, es')
    ensures Ordinary(es', id)
  {
    assert SameIdentity(es[id - 1], es'[id - 1]);
  }

  ghost predicate EditedBy(b: Books, op: Op, id: int)
  {
    op.EditOp? && op.entryId == id && Edit(b, op.env, id, op.date, op.description, op.lines).1.Ok?
  }

  /** Operation n of the run edits the entry. */
  ghost predicate EditsAt(b: Books, ops: seq<Op>, n: nat, id: int)
  {
    n < |ops| && EditedBy(Run(b, ops[..n]), ops[n], id)
  }

  lemma {:induction false} EditRenewsIff(b: Books, env: Env, id: int, date: Date, description: string,
                                         lines: seq<RawLine>)
    requires AllPlaced(b.periods, b.entries)
    ensures var (b', answer) := Edit(b, env, id, date, description, lines);
            if answer.Ok? then
              HasEntry(b.entries, id) && b'.entries == b.entries[id - 1 := answer.value]
              && answer.value.batch == b.entries[id - 1].batch + 1
            else b'.entries == b.entries
  {
    EditOutcome(b, env, id, date, description, lines);
    EnsureOpenOutcome(b, date, false);
  }

  lemma {:induction false} OtherStepsKeepBatches(b: Books, op: Op, i: nat)
    requires AllPlaced(b.periods, b.entries) && !op.EditOp? && i < |b.entries|
    ensures i < |Apply(b, op).entries| && Apply(b, op).entries[i] == b.entries[i]
  {
    StepShape(b, op);
  }

  lemma {:induction false} ReplacedBatch(es: seq<Entry>, at: int, e: Entry, id: int)
    requires HasEntry(es, at) && HasEntry(es, id) && e.batch == es[at - 1].batch + 1
    ensures es[at - 1 := e][id - 1].batch != es[id - 1].batch <==> at == id
  {
  }

  lemma {:induction false} EditRenewsOne(b: Books, env: Env, at: int, date: Date, description: string,
                                         lines: seq<RawLine>, id: int)
    requires AllPlaced(b.periods, b.entries) && HasEntry(b.entries, id)
    ensures var (b', answer) := Edit(b, env, at, date, description, lines);
            HasEntry(b'.entries, id)
            && (b'.entries[id - 1].batch != b.entries[id - 1].batch <==> at == id && answer.Ok?)
  {
    EditRenewsIff(b, env, at, date, description, lines);
    var answer := Edit(b, env, at, date, description, lines).1;
    if answer.Ok? {
      ReplacedBatch(b.entries, at, answer.value, id);
    }
  }

  lemma {:induction false} StepRenewsIff(b: Books, op: Op, id: int)
    requires AllPlaced(b.periods, b.entries) && HasEntry(b.entries, id)
    ensures HasEntry(Apply(b, op).entries, id)
    ensures Apply(b, op).entries[id - 1].batch != b.entries[id - 1].batch <==> EditedBy(b, op, id)
  {
    if op.EditOp? {
      EditRenewsOne(b, op.env, op.entryId, op.date, op.description, op.lines, id);
    } else {
      OtherStepsKeepBatches(b, op, id - 1);
    }
  }

  lemma {:induction false} EarlierEdit(b: Books, ops: seq<Op>, op: Op, n: nat, id: int)
    requires n < |ops|
    ensures EditsAt(b, ops + [op], n, id) <==> EditsAt(b, ops, n, id)
  {
    assert (ops + [op])[..n] == ops[..n];
  }

  lemma {:induction false} LastEdit(b: Books, ops: seq<Op>, op: Op, id: int)
    ensures EditsAt(b, ops + [op], |ops|, id) <==> EditedBy(Run(b, ops), op, id)
  {
    assert (ops + [op])[..|ops|] == ops;
  }

  lemma {:induction false} EarlierEdits(b: Books, ops: seq<Op>, op: Op, id: int)
    ensures (exists n: nat :: EditsAt(b, ops + [op], n, id)) <==>
              (exists n: nat :: EditsAt(b, ops, n, id)) || EditedBy(Run(b, ops), op, id)
  {
    LastEdit(b, ops, op, id);
    if exists n: nat :: EditsAt(b, ops, n, id) {
      var n: nat :| EditsAt(b, ops, n, id);
      EarlierEdit(b, ops, op, n, id);
    }
    if exists n: nat :: EditsAt(b, ops + [op], n, id) {
      var n: nat :| EditsAt(b, ops + [op], n, id);
      if n < |ops| {
        EarlierEdit(b, ops, op, n, id);
      }
    }
  }

  /** The lines of an entry have been replaced exactly when some operation has edited it. */
  lemma {:induction false} BatchRenewedIff(b: Books, ops: seq<Op>, id: int)
    requires Inv(b) && HasEntry(b.entries, id)
    ensures HasEntry(Run(b, ops).entries, id)
    ensures Run(b, ops).entries[id - 1].batch != b.entries[id - 1].batch <==> exists n :: EditsAt(b, ops, n, id)
  {
    if ops != [] {
      var n := |ops| - 1;
      var c := Run(b, ops[..n]);
      BatchRenewedIff(b, ops[..n], id);
      RunBatchesTell(b, ops[..n]);
      ReachableInv(b, ops[..n]);
      StepRenewsIff(c, ops[n], id);
      StepBatchesTell(c, ops[n]);
      EarlierEdits(b, ops[..n], ops[n], id);
      LastApart(ops);
    }
  }

  lemma {:induction false} RevisedLinks(es: seq<Entry>, id: int, e: Entry)
    requires AllLinked(es) && HasEntry(es, id) && es[id - 1].reverses.None? && e.reverses.None?
    requires Mirror(e.lines) == Mirror(es[id - 1].lines)
    ensures AllLinked(es[id - 1 := e])
  {
    var es' := es[id - 1 := e];
    forall i | 0 <= i < |es'|
      ensures LinkOk(es', i)
    {
      assert LinkOk(es, i);
    }
  }

  lemma {:induction false} LinkedMirror(es: seq<Entry>, id: int, j: nat)
    requires AllLinked(es) && j < |es| && es[j].reverses == Some(id)
    ensures HasEntry(es, id) && es[j].lines == Mirror(es[id - 1].lines)
  {
    assert LinkOk(es, j);
  }

  /** Replacing an entry keeps the links exactly when it is not reversed or keeps its figures. */
  lemma {:induction false} ReplaceKeepsLinksIff(es: seq<Entry>, id: int, e: Entry)
    requires AllLinked(es) && Ordinary(es, id) && e.reverses.None?
    requires WellFormed(es[id - 1].lines) && WellFormed(e.lines)
    ensures AllLinked(es[id - 1 := e]) <==> !Reversed(es, id) || SameFigures(es[id - 1].lines, e.lines)
  {
    var es' := es[id - 1 := e];
    SameMirrorIff(es[id - 1].lines, e.lines);
    if !Reversed(es, id) {
      ReplaceKeepsLinks(es, id - 1, e);
    } else {
      if SameFigures(es[id - 1].lines, e.lines) {
        RevisedLinks(es, id, e);
      }
      if AllLinked(es') {
        var j :| 0 <= j < |es| && es[j].reverses == Some(id);
        LinkedMirror(es, id, j);
        LinkedMirror(es', id, j);
      }
    }
  }

  /** Replacing an entry by one of the same identity breaks nothing but what concerns that entry. */
  lemma {:induction false} ReplaceKeepsInvIff(c: Books, id: int, e: Entry)
    requires Inv(c) && HasEntry(c.entries, id) && SameIdentity(c.entries[id - 1], e)
    ensures Inv(c.(entries := c.entries[id - 1 := e])) <==>
              Placed(c.periods, e) && OneBatch(e) && WellFormed(e.lines) && AllLinked(c.entries[id - 1 := e])
  {
    var es, es' := c.entries, c.entries[id - 1 := e];
    assert es'[id - 1] == e;
    assert KeysUnique(es') && EntryIds(es');
    if Placed(c.periods, e) && OneBatch(e) && WellFormed(e.lines) {
      assert AllOneBatch(es') && AllWellFormed(es') && AllPlaced(c.periods, es');
    }
  }

  /** Two batches of lines together are not numbered from 1 to their number. */
  lemma {:induction false} TwoBatchesMisnumbered(ls: seq<Stored>, ms: seq<Stored>)
    requires WellFormed(ls) && WellFormed(ms)
    ensures !WellFormed(ls + ms)
  {
    assert (ls + ms)[|ls|] == ms[0];
  }

  lemma {:induction false} CheckEditWrites(b: Books, env: Env, id: int, date: Date, description: string,
                                           lines: seq<RawLine>)
    requires CheckEdit(b, env, id, date, description, lines).1.Ok?
    ensures CheckEdit(b, env, id, date, description, lines).1.value.lines == StoreAll(Drafts(lines, env.scale))
  {
  }

  /** What the write of an edit finds: the entry as read, or one that other edits have changed since. */
  ghost predicate Found(c: Books, id: int, v: Revision)
  {
    && Inv(c) && Ordinary(c.entries, id) && WellFormed(v.lines) && WellFormed(v.read.lines) && OneBatch(v.read)
    && SameIdentity(v.read, c.entries[id - 1])
    && (c.entries[id - 1].batch == v.read.batch ==> c.entries[id - 1] == v.read)
    && HasMonthBounds(v.date) && PeriodKey(v.date) in c.periods && c.periods[PeriodKey(v.date)].id == v.periodId
    && HasMonthBounds(v.read.date) && PeriodKey(v.read.date) in c.periods
    && c.periods[PeriodKey(v.read.date)].id == v.read.periodId
  }

  lemma {:induction false} FoundParts(es: seq<Entry>, es': seq<Entry>, id: int)
    requires HasEntry(es, id) && IdentitiesKept(es, es') && BatchesTell(es, es')
    ensures SameIdentity(es[id - 1], es'[id - 1])
    ensures es'[id - 1].batch == es[id - 1].batch ==> es'[id - 1] == es[id - 1]
  {
  }

  lemma {:induction false} FoundLater(b: Books, id: int, v: Revision, ops: seq<Op>)
    requires Inv(b) && Writable(b, id, v)
    ensures Found(Run(b, ops), id, v)
  {
    assert Placed(b.periods, v.read) && WellFormed(v.read.lines) && OneBatch(v.read);
    MonthStays(b, ops, v.date, v.periodId);
    MonthStays(b, ops, v.read.date, v.read.periodId);
    OrdinaryReversesNone(b.entries, id);
    RunKeepsIdentities(b, ops);
    OrdinaryStays(b.entries, Run(b, ops).entries, id);
    RunBatchesTell(b, ops);
    FoundParts(b.entries, Run(b, ops).entries, id);
  }

  /** A session that has read another batch than the one it finds deletes nothing. */
  lemma {:induction false} LeavesAll(e: Entry, v: Revision)
    requires OneBatch(e) && OneBatch(v.read) && e.batch != v.read.batch
    ensures Revise(e, v).lines == e.lines + v.lines
  {
    var row := Batch(e.batch, e.lines);
    assert [row][..0] == [];
    assert LinesOf([row]) == e.lines;
    assert !HasBatch(v.read.rows, row.id);
    assert Unread([row], v.read.rows) == [row];
  }

  lemma {:induction false} WriteKeepsInvIff(c: Books, id: int, v: Revision)
    requires Found(c, id, v)
    ensures Inv(WriteEdit(c, id, v)) <==>
              && c.entries[id - 1].batch == v.read.batch
              && (!Reversed(c.entries, id) || SameFigures(v.read.lines, v.lines))
  {
    var e := Revise(c.entries[id - 1], v);
    ReplaceKeepsInvIff(c, id, e);
    if c.entries[id - 1].batch == v.read.batch {
      RevisedAsRead(c.periods, v);
      ReplaceKeepsLinksIff(c.entries, id, e);
    } else {
      assert WellFormed(c.entries[id - 1].lines) && OneBatch(c.entries[id - 1]);
      LeavesAll(c.entries[id - 1], v);
      TwoBatchesMisnumbered(c.entries[id - 1].lines, v.lines);
    }
  }

  /**
   An overtaken edit leaves the ledger sound exactly when nobody else has edited the entry since it was
   read, and it has not been reversed or the lines to be written have its figures.
   */
  lemma {:induction false} OvertakenEditKeepsInvIff(b: Books, env: Env, id: int, date: Date, description: string,
                                                    lines: seq<RawLine>, ops: seq<Op>)
    requires Reachable(b) && CheckEdit(b, env, id, date, description, lines).1.Ok?
    ensures var (b', v) := CheckEdit(b, env, id, date, description, lines);
            var c := Run(b', ops);
            && HasEntry(b.entries, id) && HasEntry(c.entries, id)
            && (Inv(WriteEdit(c, id, v.value)) <==>
                  && !(exists n :: EditsAt(b', ops, n, id))
                  && (!Reversed(c.entries, id)
                      || SameFigures(b.entries[id - 1].lines, StoreAll(Drafts(lines, env.scale)))))
  {
    ReachableOk(b);
    CheckEditKeeps(b, env, id, date, description, lines);
    CheckEditWrites(b, env, id, date, description, lines);
    var (b', v) := CheckEdit(b, env, id, date, description, lines);
    FoundLater(b', id, v.value, ops);
    BatchRenewedIff(b', ops, id);
    WriteKeepsInvIff(Run(b', ops), id, v.value);
  }

  /** What the write makes of an entry that was edited after it was read. */
  ghost predicate Mixed(ps: map<string, Period>, e: Entry, v: Revision)
  {
    var e' := Revise(e, v);
    && e'.lines == e.lines + v.lines && !WellFormed(e'.lines)
    && TotalDebit(e'.lines) == TotalCredit(e'.lines)
    && (if v.date == v.read.date then e'.date == e.date else e'.date == v.date)
    && (if v.description == v.read.description then e'.description == e.description
        else e'.description == v.description)
    && (Placed(ps, e') <==>
          v.date == v.read.date || v.periodId != v.read.periodId || e.periodId == v.read.periodId)
  }

  lemma {:induction false} WriteMixes(c: Books, id: int, v: Revision)
    requires Found(c, id, v) && c.entries[id - 1].batch != v.read.batch
    ensures Mixed(c.periods, c.entries[id - 1], v)
  {
    var e := c.entries[id - 1];
    assert WellFormed(e.lines) && Placed(c.periods, e) && OneBatch(e);
    LeavesAll(e, v);
    TwoBatchesMisnumbered(e.lines, v.lines);
    TotalsAdd(e.lines, v.lines);
  }

  /**
   Two edits of one entry that overtake each other: the entry then holds the lines of both, still
   balanced but no longer numbered apart. Its date and its period disagree exactly when the later write
   changes the date within the month that was read while the other edit has moved the entry away.
   */
  lemma {:induction false} OvertakenByEditMixes(b: Books, env: Env, id: int, date: Date, description: string,
                                                lines: seq<RawLine>, ops: seq<Op>)
    requires Reachable(b) && CheckEdit(b, env, id, date, description, lines).1.Ok?
    requires exists n :: EditsAt(CheckEdit(b, env, id, date, description, lines).0, ops, n, id)
    ensures var (b', v) := CheckEdit(b, env, id, date, description, lines);
            var c := Run(b', ops);
            HasEntry(c.entries, id) && Mixed(c.periods, c.entries[id - 1], v.value)
  {
    ReachableOk(b);
    CheckEditKeeps(b, env, id, date, description, lines);
    var (b', v) := CheckEdit(b, env, id, date, description, lines);
    FoundLater(b', id, v.value, ops);
    BatchRenewedIff(b', ops, id);
    WriteMixes(Run(b', ops), id, v.value);
  }

  /** A write to an entry of period k, or one that brings an entry into it, breaks the lock. */
  lemma {:induction false} WriteIsSeen(c: Books, id: int, v: Revision, op: Op, k: string)
    requires HasEntry(c.entries, id) && k in c.periods
    requires c.entries[id - 1].periodId == c.periods[k].id
             || Revise(c.entries[id - 1], v).periodId == c.periods[k].id
    ensures !LockHolds(c, op, WriteEdit(c, id, v), k)
  {
    var c' := WriteEdit(c, id, v);
    assert c'.entries[id - 1].batch != c.entries[id - 1].batch;
    if c.entries[id - 1].periodId == c.periods[k].id {
      assert InPeriod(c, id - 1, k);
    } else {
      assert InPeriod(c', id - 1, k);
    }
  }

  lemma {:induction false} OpenWriteHolds(c: Books, id: int, v: Revision, op: Op, k: string, k': string)
    requires PeriodIds(c.periods) && HasEntry(c.entries, id) && k in c.periods && k' in c.periods
    requires c.periods[k].id == c.entries[id - 1].periodId
    requires c.periods[k'].id == Revise(c.entries[id - 1], v).periodId
    requires c.periods[k].status == Open && c.periods[k'].status == Open
    ensures LocksHold(c, op, WriteEdit(c, id, v))
  {
    forall l | Locked(c, l)
      ensures LockHolds(c, op, WriteEdit(c, id, v), l)
    {
      ReplacedStep(c, WriteEdit(c, id, v), id - 1, Revise(c.entries[id - 1], v), op, l);
    }
  }

  lemma {:induction false} WriteLocksIff(c: Books, id: int, v: Revision, op: Op, k: string, k': string)
    requires PeriodIds(c.periods) && HasEntry(c.entries, id) && k in c.periods && k' in c.periods
    requires c.periods[k].id == c.entries[id - 1].periodId
    requires c.periods[k'].id == Revise(c.entries[id - 1], v).periodId
    ensures LocksHold(c, op, WriteEdit(c, id, v)) <==>
              c.periods[k].status == Open && c.periods[k'].status == Open
  {
    if c.periods[k].status == Open && c.periods[k'].status == Open {
      OpenWriteHolds(c, id, v, op, k, k');
    } else {
      var l := if c.periods[k].status != Open then k else k';
      WriteIsSeen(c, id, v, op, l);
      assert Locked(c, l);
    }
  }

  lemma {:induction false} FoundLocksIff(c: Books, id: int, v: Revision, op: Op)
    requires Found(c, id, v)
    ensures PeriodKey(c.entries[id - 1].date) in c.periods
    ensures LocksHold(c, op, WriteEdit(c, id, v)) <==>
              && c.periods[PeriodKey(c.entries[id - 1].date)].status == Open
              && (v.periodId == v.read.periodId || c.periods[PeriodKey(v.date)].status == Open)
  {
    var e := c.entries[id - 1];
    assert Placed(c.periods, e);
    WriteLocksIff(c, id, v, op, PeriodKey(e.date),
                  if v.periodId == v.read.periodId then PeriodKey(e.date) else PeriodKey(v.date));
  }

  /**
   An overtaken edit respects the locks exactly when the month that the entry is in at the write is
   open and, if the edit goes to another month than the one it had read, that month is open too. A write
   replaces the rows of the lines even when it repeats them.
   */
  lemma {:induction false} OvertakenEditRespectsLocksIff(b: Books, env: Env, id: int, date: Date,
                                                         description: string, lines: seq<RawLine>, ops: seq<Op>)
    requires Reachable(b) && CheckEdit(b, env, id, date, description, lines).1.Ok?
    ensures var (b', v) := CheckEdit(b, env, id, date, description, lines);
            var c := Run(b', ops);
            && HasEntry(b.entries, id) && HasEntry(c.entries, id)
            && PeriodKey(c.entries[id - 1].date) in c.periods && PeriodKey(v.value.date) in c.periods
            && (LocksHold(c, EditOp(env, id, date, description, lines), WriteEdit(c, id, v.value)) <==>
                  && c.periods[PeriodKey(c.entries[id - 1].date)].status == Open
                  && (v.value.periodId == b.entries[id - 1].periodId
                      || c.periods[PeriodKey(v.value.date)].status == Open))
  {
    ReachableOk(b);
    CheckEditKeeps(b, env, id, date, description, lines);
    var (b', v) := CheckEdit(b, env, id, date, description, lines);
    FoundLater(b', id, v.value, ops);
    FoundLocksIff(Run(b', ops), id, v.value, EditOp(env, id, date, description, lines));
  }

  // ----- Reversals -----

  lemma {:induction false} InsertReversalKeepsIff(c: Books, id: int, p: ReversalPlan)
    requires Inv(c) && Insertable(c, id, p)
    ensures Inv(InsertReversal(c, id, p).0)
            <==> KeyUsed(c.entries, ReversalKey(id)) || p.lines == Mirror(c.entries[id - 1].lines)
  {
    if !KeyUsed(c.entries, ReversalKey(id)) {
      ReversalIsLinked(c.entries, id, p);
      if p.lines == Mirror(c.entries[id - 1].lines) {
        InsertReversalKeeps(c, id, p);
      }
      if Inv(InsertReversal(c, id, p).0) {
        assert LinkOk(InsertReversal(c, id, p).0.entries, |c.entries|);
      }
    }
  }

  /**
   An overtaken reversal leaves the ledger sound exactly when its key has been taken, and it is
   refused, or the entry still has the figures that the reversal was prepared from.
   */
  lemma {:induction false} OvertakenReversalKeepsInvIff(b: Books, id: int, reason: Option<string>,
                                                        date: Option<Date>, today: Date, ops: seq<Op>)
    requires Reachable(b) && CheckReverse(b, id, reason, date, today).1.Ok?
    ensures var (b', p) := CheckReverse(b, id, reason, date, today);
            var c := Run(b', ops);
            && HasEntry(b.entries, id) && HasEntry(c.entries, id)
            && (Inv(InsertReversal(c, id, p.value).0) <==>
                  KeyUsed(c.entries, ReversalKey(id))
                  || SameFigures(b.entries[id - 1].lines, c.entries[id - 1].lines))
  {
    ReachableOk(b);
    CheckReverseKeeps(b, id, reason, date, today);
    var (b', p) := CheckReverse(b, id, reason, date, today);
    var c := Run(b', ops);
    MonthStays(b', ops, p.value.date, p.value.periodId);
    RunKeepsIdentities(b', ops);
    assert WellFormed(b.entries[id - 1].lines) && WellFormed(c.entries[id - 1].lines);
    SameMirrorIff(b.entries[id - 1].lines, c.entries[id - 1].lines);
    InsertReversalKeepsIff(c, id, p.value);
  }

  lemma {:induction false} InsertReversalLocksIff(c: Books, id: int, p: ReversalPlan, op: Op)
    requires Inv(c) && Insertable(c, id, p) && !KeyUsed(c.entries, ReversalKey(id))
    requires op.ReverseOp? && op.entryId == id
    ensures LocksHold(c, op, InsertReversal(c, id, p).0) <==> Admits(c.periods[PeriodKey(p.date)].status, true)
  {
    var k, e := PeriodKey(p.date), PlannedEntry(c.entries, id, p);
    if Admits(c.periods[k].status, true) {
      InsertedElsewhere(c, e, p.date, op);
    } else if LocksHold(c, op, c.(entries := c.entries + [e])) {
      assert Locked(c, k);
      InsertedInside(c, e, op, k);
    }
  }

  /**
   An overtaken reversal that is inserted respects the locks exactly when its month is not closed at the
   insertion.
   */
  lemma {:induction false} OvertakenReversalRespectsLocksIff(b: Books, id: int, reason: Option<string>,
                                                             date: Option<Date>, today: Date, ops: seq<Op>)
    requires Reachable(b) && CheckReverse(b, id, reason, date, today).1.Ok?
    ensures var (b', p) := CheckReverse(b, id, reason, date, today);
            var c := Run(b', ops);
            && PeriodKey(p.value.date) in c.periods
            && (InsertReversal(c, id, p.value).1.Ok? <==> !KeyUsed(c.entries, ReversalKey(id)))
            && (InsertReversal(c, id, p.value).1.Ok? ==>
                  (LocksHold(c, ReverseOp(id, reason, date, today), InsertReversal(c, id, p.value).0)
                   <==> Admits(c.periods[PeriodKey(p.value.date)].status, true)))
  {
    ReachableOk(b);
    CheckReverseKeeps(b, id, reason, date, today);
    var (b', p) := CheckReverse(b, id, reason, date, today);
    var c := Run(b', ops);
    MonthStays(b', ops, p.value.date, p.value.periodId);
    RunKeepsIdentities(b', ops);
    if !KeyUsed(c.entries, ReversalKey(id)) {
      InsertReversalLocksIff(c, id, p.value, ReverseOp(id, reason, date, today));
    }
  }

  // ----- Instances -----

  lemma {:induction false} OneStep(b: Books, op: Op)
    ensures Run(b, [op]) == Apply(b, op)
  {
    assert [op][..0] == [];
    assert Run(b, []) == b;
  }

  /** Closing a stored period. */
  function Close(day: Date): Op { StatusOp(PeriodKey(day), "closed", 1, 0) }

  lemma {:induction false} ClosedAfter(b: Books, day: Date)
    requires PeriodKey(day) in b.periods
    ensures var c := Run(b, [Close(day)]);
            c.entries == b.entries && PeriodKey(day) in c.periods && c.periods[PeriodKey(day)].status == Closed
  {
    OneStep(b, Close(day));
    SetStatusOutcome(b, PeriodKey(day), "closed", 1, 0);
  }

  /** A post whose month is closed between its checks and its insertion. */
  lemma {:induction false} OvertakenPostBreaksLock(day: Date)
    requires HasMonthBounds(day)
    ensures var (b', a) := CheckPost(EMPTY, Permissive(1), Transfer("k", day));
            && a.Ok? && a.value.Some?
            && var c := Run(b', [Close(day)]);
               !LocksHold(c, PostOp(Permissive(1), Transfer("k", day)),
                          InsertPost(c, Transfer("k", day), a.value.value).0)
  {
    var env, r := Permissive(1), Transfer("k", day);
    TransferIsValid("k", day);
    EmptyIsReachable();
    CheckPostOutcome(EMPTY, env, r);
    EnsureOpenFinds(EMPTY, day, false);
    ClosedAfter(CheckPost(EMPTY, env, r).0, day);
    OvertakenPostRespectsLocksIff(EMPTY, env, r, [Close(day)]);
  }

  function Doubled(): seq<RawLine> { [Simple(200, 0), Simple(0, 200)] }

  lemma {:induction false} FirstDebit(a: RawLine, b: RawLine)
    ensures StoreAll(Drafts([a, b], 1))[0].debit == Cents(Given(a.debit), 1)
  {
  }

  /** Amounts that differ are different figures. */
  lemma {:induction false} DoubledDiffers()
    ensures !SameFigures(StoreAll(Drafts([Simple(100, 0), Simple(0, 100)], 1)), StoreAll(Drafts(Doubled(), 1)))
  {
    FirstDebit(Simple(100, 0), Simple(0, 100));
    FirstDebit(Simple(200, 0), Simple(0, 200));
  }

  /** Books with one ordinary entry, of 1.00, that is open to everything. */
  ghost predicate OneEntry(b: Books, day: Date)
  {
    && Reachable(b) && |b.entries| == 1 && b.entries[0].date == day && b.entries[0].sourceType != REVERSAL
    && b.entries[0].reverses.None? && !Reversed(b.entries, 1) && !KeyUsed(b.entries, ReversalKey(1))
    && b.entries[0].lines == StoreAll(Drafts([Simple(100, 0), Simple(0, 100)], 1))
    && EnsureOpen(b, day, false).1.Ok? && EnsureOpen(b, day, true).1.Ok?
  }

  function FirstBooks(day: Date): Books { Post(EMPTY, Permissive(1), Transfer("k", day)).0 }

  lemma {:induction false} FirstBooksHaveOne(day: Date)
    requires HasMonthBounds(day)
    ensures OneEntry(FirstBooks(day), day)
  {
    var env, r := Permissive(1), Transfer("k", day);
    EmptyIsReachable();
    ReachableStep(EMPTY, PostOp(env, r));
    TransferPosts(EMPTY, "k", day);
    PostVerdict(EMPTY, env, r);
    assert "manual"[0] != REVERSAL[0];
    assert ReversalKey(1)[0] == 'j';
  }

  /** An edit of the one entry to 2.00, on some day. */
  function EditTo(day: Date): Op { EditOp(Permissive(1), 1, day, "", Doubled()) }

  lemma {:induction false} EditToPasses(b: Books, day: Date, to: Date)
    requires OneEntry(b, day) && EnsureOpen(b, to, false).1.Ok?
    ensures var (b', v) := CheckEdit(b, Permissive(1), 1, to, "", Doubled());
            && v.Ok? && b' == EnsureOpen(b, to, false).0 && Writable(b', 1, v.value)
            && v.value.read == b.entries[0] && v.value.date == to
            && v.value.lines == StoreAll(Drafts(Doubled(), 1))
  {
    ReachableOk(b);
    PairVerdict(200, 0, 0, 200, 1);
    EditVerdict(b, Permissive(1), 1, to, "", Doubled());
    CheckEditOutcome(b, Permissive(1), 1, to, "", Doubled());
    CheckEditKeeps(b, Permissive(1), 1, to, "", Doubled());
    CheckEditWrites(b, Permissive(1), 1, to, "", Doubled());
  }

  lemma {:induction false} OwnMonthIsThere(b: Books, day: Date)
    requires OneEntry(b, day)
    ensures HasMonthBounds(day) && PeriodKey(day) in b.periods
    ensures EnsureOpen(b, day, false).0 == b && EnsureOpen(b, day, true).0 == b
    ensures b.periods[PeriodKey(day)].id == b.entries[0].periodId
  {
    ReachableOk(b);
    assert Placed(b.periods, b.entries[0]);
  }

  lemma {:induction false} ReversedAfter(b: Books, day: Date)
    requires OneEntry(b, day)
    ensures var c := Run(b, [ReverseOp(1, None, None, day)]);
            HasEntry(c.entries, 1) && Reversed(c.entries, 1)
  {
    OneStep(b, ReverseOp(1, None, None, day));
    ReverseSucceedsIff(b, 1, None, None, day);
    ReverseOutcome(b, 1, None, None, day);
    var c := Run(b, [ReverseOp(1, None, None, day)]);
    assert c.entries[|b.entries|].reverses == Some(1);
  }

  /** 1.00 is posted, an edit to 2.00 passes its checks, 1.00 is reversed, and the edit writes 2.00. */
  lemma {:induction false} OvertakenEditBreaksMirror(day: Date)
    requires HasMonthBounds(day)
    ensures var b := FirstBooks(day);
            var (b', v) := CheckEdit(b, Permissive(1), 1, day, "", Doubled());
            var c := Run(b', [ReverseOp(1, None, None, day)]);
            Reachable(b) && v.Ok? && HasEntry(c.entries, 1) && !Inv(WriteEdit(c, 1, v.value))
  {
    var b := FirstBooks(day);
    FirstBooksHaveOne(day);
    OwnMonthIsThere(b, day);
    EditToPasses(b, day, day);
    ReversedAfter(b, day);
    DoubledDiffers();
    OvertakenEditKeepsInvIff(b, Permissive(1), 1, day, "", Doubled(), [ReverseOp(1, None, None, day)]);
  }

  /** An edit whose month is closed between its checks and its write. */
  lemma {:induction false} OvertakenEditBreaksLock(day: Date)
    requires HasMonthBounds(day)
    ensures var b := FirstBooks(day);
            var (b', v) := CheckEdit(b, Permissive(1), 1, day, "", Doubled());
            var c := Run(b', [Close(day)]);
            && Reachable(b) && v.Ok? && HasEntry(c.entries, 1)
            && !LocksHold(c, EditTo(day), WriteEdit(c, 1, v.value))
  {
    var b := FirstBooks(day);
    FirstBooksHaveOne(day);
    OwnMonthIsThere(b, day);
    EditToPasses(b, day, day);
    ClosedAfter(b, day);
    OvertakenEditRespectsLocksIff(b, Permissive(1), 1, day, "", Doubled(), [Close(day)]);
  }

  lemma {:induction false} ReversalPasses(b: Books, day: Date)
    requires OneEntry(b, day)
    ensures CheckReverse(b, 1, None, None, day).1.Ok? && CheckReverse(b, 1, None, None, day).0 == b
    ensures CheckReverse(b, 1, None, None, day).1.value.date == day
  {
    OwnMonthIsThere(b, day);
  }

  /** A reversal whose month is closed between its checks and its insertion. */
  lemma {:induction false} OvertakenReversalBreaksLock(day: Date)
    requires HasMonthBounds(day)
    ensures var b := FirstBooks(day);
            var (b', p) := CheckReverse(b, 1, None, None, day);
            var c := Run(b', [Close(day)]);
            && Reachable(b) && p.Ok?
            && !LocksHold(c, ReverseOp(1, None, None, day), InsertReversal(c, 1, p.value).0)
  {
    var b := FirstBooks(day);
    FirstBooksHaveOne(day);
    OwnMonthIsThere(b, day);
    ReversalPasses(b, day);
    ClosedAfter(b, day);
    OvertakenReversalRespectsLocksIff(b, 1, None, None, day, [Close(day)]);
  }

  lemma {:induction false} EditedAfter(b: Books, day: Date, to: Date)
    requires OneEntry(b, day) && EnsureOpen(b, to, false).1.Ok?
    ensures EditedBy(b, EditTo(to), 1) && EditsAt(b, [EditTo(to)], 0, 1)
    ensures var c := Run(b, [EditTo(to)]);
            && |c.entries| == 1 && c.entries[0].lines == StoreAll(Drafts(Doubled(), 1))
            && c.entries[0].key == b.entries[0].key
            && PeriodKey(to) in c.periods && c.periods[PeriodKey(to)].id == c.entries[0].periodId
  {
    EditToPasses(b, day, to);
    OneStep(b, EditTo(to));
    assert [EditTo(to)][..0] == [] && Run(b, []) == b;
  }

  /** After the edit the figures are others, and the key of the reversal is still free. */
  lemma {:induction false} FiguresGone(b: Books, c: Books, day: Date)
    requires OneEntry(b, day) && |c.entries| == 1 && c.entries[0].key == b.entries[0].key
    requires c.entries[0].lines == StoreAll(Drafts(Doubled(), 1))
    ensures !KeyUsed(c.entries, ReversalKey(1)) && !SameFigures(b.entries[0].lines, c.entries[0].lines)
  {
    DoubledDiffers();
    assert b.entries[0].key != ReversalKey(1);
  }

  lemma {:induction false} EditedMeanwhile(b: Books, day: Date)
    requires OneEntry(b, day)
    ensures var (b', p) := CheckReverse(b, 1, None, None, day);
            p.Ok? && !Inv(InsertReversal(Run(b', [EditTo(day)]), 1, p.value).0)
  {
    ReversalPasses(b, day);
    EditedAfter(b, day, day);
    FiguresGone(b, Run(b, [EditTo(day)]), day);
    OvertakenReversalKeepsInvIff(b, 1, None, None, day, [EditTo(day)]);
  }

  /** 1.00 is posted, its reversal passes its checks, an edit makes it 2.00, and 1.00 is reversed. */
  lemma {:induction false} OvertakenReversalBreaksMirror(day: Date)
    requires HasMonthBounds(day)
    ensures var b := FirstBooks(day);
            var (b', p) := CheckReverse(b, 1, None, None, day);
            Reachable(b) && p.Ok? && !Inv(InsertReversal(Run(b', [EditTo(day)]), 1, p.value).0)
  {
    FirstBooksHaveOne(day);
    EditedMeanwhile(FirstBooks(day), day);
  }

  lemma {:induction false} SameMonthOpen(b: Books, day: Date, sameMonth: Date)
    requires OneEntry(b, day) && PeriodKey(sameMonth) == PeriodKey(day)
    ensures EnsureOpen(b, sameMonth, false).1.Ok? && EnsureOpen(b, sameMonth, false).0 == b
    ensures EnsureOpen(b, sameMonth, false).1.value.id == b.entries[0].periodId
  {
    OwnMonthIsThere(b, day);
    SameKeyIffSameMonth(sameMonth, day);
  }

  lemma {:induction false} OtherMonthOpen(b: Books, otherMonth: Date, day: Date)
    requires b == FirstBooks(day) && HasMonthBounds(day) && HasMonthBounds(otherMonth)
    requires PeriodKey(otherMonth) != PeriodKey(day)
    ensures EnsureOpen(b, otherMonth, false).1.Ok?
  {
    TransferIsValid("k", day);
    PostOutcome(EMPTY, Permissive(1), Transfer("k", day));
  }

  /**
   Two edits that overtake each other: the first, to another day of the month, passes its checks; the
   second moves the entry to another month; the first then writes the day into that month, and its
   lines beside the others.
   */
  lemma {:induction false} OvertakenEditTearsEntry(day: Date, sameMonth: Date, otherMonth: Date)
    requires HasMonthBounds(day) && HasMonthBounds(otherMonth)
    requires sameMonth != day && PeriodKey(sameMonth) == PeriodKey(day) != PeriodKey(otherMonth)
    ensures var b := FirstBooks(day);
            var (b', v) := CheckEdit(b, Permissive(1), 1, sameMonth, "", Doubled());
            var c := Run(b', [EditTo(otherMonth)]);
            && Reachable(b) && v.Ok? && HasEntry(c.entries, 1)
            && var e := WriteEdit(c, 1, v.value).entries[0];
               && e.date == sameMonth && !Placed(c.periods, e)
               && |e.lines| == |c.entries[0].lines| + |v.value.lines| && !WellFormed(e.lines)
  {
    var b, env := FirstBooks(day), Permissive(1);
    FirstBooksHaveOne(day);
    OwnMonthIsThere(b, day);
    SameKeyIffSameMonth(day, sameMonth);
    SameMonthOpen(b, day, sameMonth);
    OtherMonthOpen(b, otherMonth, day);
    EditToPasses(b, day, sameMonth);
    EditedAfter(b, day, otherMonth);
    ReachableOk(b);
    var ops := [EditTo(otherMonth)];
    OvertakenByEditMixes(b, env, 1, sameMonth, "", Doubled(), ops);
    ReachableInv(b, ops);
    PeriodIdKeptOverRun(b, ops, PeriodKey(day));
    assert PeriodIds(Run(b, ops).periods);
  }
}
