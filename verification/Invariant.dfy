/** What every reachable state of the books satisfies. */
module Invariant {
  import opened Prelude
  import opened Text
  import opened Calendar
  import opened Journal
  import opened Ledger

  ghost predicate EntryIds(es: seq<Entry>)
  {
    forall i :: 0 <= i < |es| ==> es[i].id == i + 1
  }

  /** The unique constraint on idempotency keys. */
  ghost predicate KeysUnique(es: seq<Entry>)
  {
    forall i, j :: 0 <= i < j < |es| ==> es[i].key != es[j].key
  }

  /** A stored period is a whole calendar month under its own key; it is signed off iff closed. */
  ghost predicate PeriodOk(key: string, p: Period)
  {
    && p.key == key
    && HasMonthBounds(p.start) && MonthBounds(p.start) == MonthSpan(key, p.start, p.end)
    && (p.status == Closed <==> p.closedAt.Some?)
    && (p.status == Closed <==> p.closedBy.Some?)
  }

  ghost predicate AllMonths(ps: map<string, Period>)
  {
    forall k :: k in ps ==> PeriodOk(k, ps[k])
  }

  /** No two periods share an id. */
  ghost predicate PeriodIds(ps: map<string, Period>)
  {
    && (forall k :: k in ps ==> 1 <= ps[k].id <= |ps|)
    && (forall k, l :: k in ps && l in ps && ps[k].id == ps[l].id ==> k == l)
  }

  ghost predicate PeriodsOk(ps: map<string, Period>) { AllMonths(ps) && PeriodIds(ps) }

  /** The entry's period is the stored period of the month of its date. */
  ghost predicate Placed(ps: map<string, Period>, e: Entry)
  {
    && HasMonthBounds(e.date)
    && PeriodKey(e.date) in ps
    && ps[PeriodKey(e.date)].id == e.periodId
  }

  /** A reversal follows the entry it reverses, mirrors it, and is marked as a reversal of it. */
  ghost predicate LinkOk(es: seq<Entry>, i: nat)
    requires i < |es|
  {
    es[i].reverses.Some? ==>
      var o := es[i].reverses.value;
      && 1 <= o <= i
      && es[i].sourceType == REVERSAL
      && Denotes(es[i].sourceId, o)
      && es[i].key == ReversalKey(o)
      && es[i].lines == Mirror(es[o - 1].lines)
  }

  ghost predicate AllLinked(es: seq<Entry>)
  {
    forall i :: 0 <= i < |es| ==> LinkOk(es, i)
  }

  ghost predicate AllWellFormed(es: seq<Entry>)
  {
    forall i :: 0 <= i < |es| ==> WellFormed(es[i].lines)
  }

  ghost predicate AllPlaced(ps: map<string, Period>, es: seq<Entry>)
  {
    forall i :: 0 <= i < |es| ==> Placed(ps, es[i])
  }

  /** All lines of the entry were written together, by its last write. */
  ghost predicate OneBatch(e: Entry) { e.rows == [Batch(e.batch, e.lines)] }

  ghost predicate AllOneBatch(es: seq<Entry>)
  {
    forall i :: 0 <= i < |es| ==> OneBatch(es[i])
  }

  ghost predicate EntriesOk(es: seq<Entry>)
  {
    EntryIds(es) && KeysUnique(es) && AllOneBatch(es) && AllWellFormed(es) && AllLinked(es)
  }

  ghost predicate Inv(b: Books)
  {
    EntriesOk(b.entries) && PeriodsOk(b.periods) && AllPlaced(b.periods, b.entries)
  }

  // ----- Mirrors -----

  lemma {:induction false} MirrorTotals(lines: seq<Stored>)
    ensures TotalDebit(Mirror(lines)) == TotalCredit(lines)
    ensures TotalCredit(Mirror(lines)) == TotalDebit(lines)
  {
    if lines != [] {
      var n := |lines| - 1;
      assert Mirror(lines)[..n] == Mirror(lines[..n]);
      MirrorTotals(lines[..n]);
    }
  }

  lemma {:induction false} MirrorIsWellFormed(lines: seq<Stored>)
    requires WellFormed(lines)
    ensures WellFormed(Mirror(lines))
  {
    MirrorTotals(lines);
    forall i | 0 <= i < |lines|
      ensures Mirror(lines)[i].lineNo == i + 1 && OneSided(Mirror(lines)[i])
              && 1 <= |Mirror(lines)[i].currency| <= 3
    {
      assert OneSided(lines[i]);
    }
  }

  // ----- What each operation does, and that a refusal leaves no trace -----

  /** A refused look-up leaves the books alone: a period it would have created is open. */
  lemma {:induction false} EnsureOpenOutcome(b: Books, d: Date, allowSoft: bool)
    ensures var (b', r) := EnsureOpen(b, d, allowSoft);
            && b'.entries == b.entries
            && (r.Err? ==> b' == b)
            && (r.Ok? ==> HasMonthBounds(d) && r.value.status != Closed
                          && (r.value.status == SoftClosed ==> allowSoft))
  {
  }

  lemma {:induction false} CheckPostOutcome(b: Books, env: Env, r: PostRequest)
    ensures var (b', answer) := CheckPost(b, env, r);
            if answer.Err? || answer.value.None? then b' == b
            else
              var (after, month) := EnsureOpen(b, r.date, r.allowSoft);
              && !KeyUsed(b.entries, r.key) && ValidateLines(env, r.lines, r.strict) == Ok(answer.value.value.drafts)
              && month.Ok? && answer.value.value.periodId == month.value.id && b' == after
  {
    EnsureOpenOutcome(b, r.date, r.allowSoft);
  }

  lemma {:induction false} PostOutcome(b: Books, env: Env, r: PostRequest)
    ensures var (b', answer) := Post(b, env, r);
            if answer.Err? || answer.value.None? then b' == b
            else
              && !KeyUsed(b.entries, r.key) && ValidateLines(env, r.lines, r.strict).Ok?
              && EnsureOpen(b, r.date, r.allowSoft).1.Ok?
              && b'.periods == EnsureOpen(b, r.date, r.allowSoft).0.periods
              && b'.entries == b.entries + [answer.value.value]
  {
    CheckPostOutcome(b, env, r);
    EnsureOpenOutcome(b, r.date, r.allowSoft);
  }

  /** A post that passes every check. */
  lemma {:induction false} PostSucceeds(b: Books, env: Env, r: PostRequest, drafts: seq<Draft>,
                                        b': Books, period: Period)
    requires !KeyUsed(b.entries, r.key) && ValidateLines(env, r.lines, r.strict) == Ok(drafts)
    requires EnsureOpen(b, r.date, r.allowSoft) == (b', Ok(period))
    ensures var e := PostedEntry(b.entries, r, period.id, drafts);
            Post(b, env, r) == (Books(b.entries + [e], b'.periods), Ok(Some(e)))
  {
    EnsureOpenOutcome(b, r.date, r.allowSoft);
  }

  lemma {:induction false} CheckReverseOutcome(b: Books, id: int, reason: Option<string>, date: Option<Date>,
                                               today: Date)
    ensures var (b', answer) := CheckReverse(b, id, reason, date, today);
            var postingDate := if date.Some? then date.value else today;
            var (after, month) := EnsureOpen(b, postingDate, true);
            if answer.Err? then b' == b
            else
              && HasEntry(b.entries, id) && !Reversed(b.entries, id) && month.Ok? && b' == after
              && answer.value == PlanOf(b.entries[id - 1], id, reason, postingDate, month.value.id)
  {
    EnsureOpenOutcome(b, if date.Some? then date.value else today, true);
  }

  lemma {:induction false} ReverseOutcome(b: Books, id: int, reason: Option<string>, date: Option<Date>,
                                          today: Date)
    ensures var (b', answer) := Reverse(b, id, reason, date, today);
            var postingDate := if date.Some? then date.value else today;
            if answer.Err? then b' == b
            else
              && HasEntry(b.entries, id) && !Reversed(b.entries, id)
              && !KeyUsed(b.entries, ReversalKey(id))
              && EnsureOpen(b, postingDate, true).1.Ok?
              && answer.value == PlannedEntry(b.entries, id,
                                              PlanOf(b.entries[id - 1], id, reason, postingDate,
                                                     EnsureOpen(b, postingDate, true).1.value.id))
              && b' == Books(b.entries + [answer.value], EnsureOpen(b, postingDate, true).0.periods)
  {
    EnsureOpenOutcome(b, if date.Some? then date.value else today, true);
  }

  lemma {:induction false} CheckEditOutcome(b: Books, env: Env, id: int, date: Date, description: string,
                                            lines: seq<RawLine>)
    requires AllPlaced(b.periods, b.entries)
    ensures var (b', answer) := CheckEdit(b, env, id, date, description, lines);
            var (b1, month) := EnsureOpen(b, date, false);
            if answer.Ok? then
              && HasEntry(b.entries, id) && b.entries[id - 1].sourceType != REVERSAL
              && !Reversed(b.entries, id)
              && EnsureOpen(b, b.entries[id - 1].date, false).1.Ok? && month.Ok?
              && ValidateLines(env, lines, true).Ok?
              && answer.value == RevisionOf(b.entries[id - 1], date, description, month.value.id,
                                            ValidateLines(env, lines, true).value)
              && b' == b1
            else
              b' == b || (b' == b1 && month.Ok? && ValidateLines(env, lines, true) == Err(answer.error))
  {
    EnsureOpenOutcome(b, date, false);
    if HasEntry(b.entries, id) {
      assert Placed(b.periods, b.entries[id - 1]);
      EnsureOpenOutcome(b, b.entries[id - 1].date, false);
    }
  }

  lemma {:induction false} EditOutcome(b: Books, env: Env, id: int, date: Date, description: string,
                                       lines: seq<RawLine>)
    requires AllPlaced(b.periods, b.entries)
    ensures var (b', answer) := Edit(b, env, id, date, description, lines);
            var (b1, month) := EnsureOpen(b, date, false);
            if answer.Ok? then
              && HasEntry(b.entries, id) && b.entries[id - 1].sourceType != REVERSAL
              && !Reversed(b.entries, id)
              && EnsureOpen(b, b.entries[id - 1].date, false).1.Ok? && month.Ok?
              && ValidateLines(env, lines, true).Ok?
              && answer.value == b.entries[id - 1].(
                                   date := date, description := Take(description, DESCRIPTION_LENGTH),
                                   periodId := month.value.id, batch := b.entries[id - 1].batch + 1,
                                   rows := [Batch(b.entries[id - 1].batch + 1,
                                                  StoreAll(ValidateLines(env, lines, true).value))],
                                   lines := StoreAll(ValidateLines(env, lines, true).value))
              && b' == Books(b.entries[id - 1 := answer.value], b1.periods)
            else
              b' == b || (b' == b1 && month.Ok? && ValidateLines(env, lines, true) == Err(answer.error))
  {
    CheckEditOutcome(b, env, id, date, description, lines);
    EnsureOpenOutcome(b, date, false);
  }

  /** A check that passes has read the entry that is there, and changes none. */
  lemma {:induction false} CheckedEntry(b: Books, env: Env, id: int, date: Date, description: string,
                                        lines: seq<RawLine>)
    ensures var (b', answer) := CheckEdit(b, env, id, date, description, lines);
            answer.Ok? ==> HasEntry(b.entries, id) && answer.value.read == b.entries[id - 1] && b'.entries == b.entries
  {
  }

  lemma {:induction false} SetStatusOutcome(b: Books, key: string, status: string, actor: int, now: int)
    ensures var (b', r) := SetStatus(b, key, status, actor, now);
            && b'.entries == b.entries
            && (r.Ok? <==> key in b.periods && ParseStatus(status).Some?)
            && (r.Err? ==> b' == b)
            && (r.Ok? ==>
                  && b'.periods == b.periods[key := r.value]
                  && ParseStatus(status) == Some(r.value.status)
                  && r.value == b.periods[key].(status := r.value.status, closedAt := r.value.closedAt,
                                                closedBy := r.value.closedBy)
                  && (r.value.status == b.periods[key].status ==> r.value == b.periods[key])
                  && (r.value.status != b.periods[key].status ==>
                        && r.value.closedAt == (if r.value.status == Closed then Some(now) else None)
                        && r.value.closedBy == (if r.value.status == Closed then Some(actor) else None)))
  {
    if key in b.periods {
      assert b.periods[key := b.periods[key]] == b.periods;
    }
  }

  /** The three ways an operation can leave the entries: as they were, one longer, or one edited. */
  ghost predicate Appended(op: Op, es: seq<Entry>, es': seq<Entry>)
  {
    && |es'| == |es| + 1 && es' == es + [es'[|es|]]
    && var e := es'[|es|];
       || (op.PostOp? && e.key == op.request.key && e.reverses.None?)
       || (op.ReverseOp? && e.key == ReversalKey(op.entryId) && e.reverses == Some(op.entryId))
  }

  ghost predicate Edited(op: Op, es: seq<Entry>, es': seq<Entry>)
  {
    && op.EditOp? && HasEntry(es, op.entryId) && |es'| == |es|
    && var at, e := op.entryId - 1, es'[op.entryId - 1];
       && es[at].sourceType != REVERSAL && !Reversed(es, op.entryId)
       && es' == es[at := e] && e.id == es[at].id && e.key == es[at].key
       && e.sourceType == es[at].sourceType && e.reverses == es[at].reverses
       && e.batch == es[at].batch + 1
  }

  lemma {:induction false} QuietStep(b: Books, op: Op)
    requires op.StatusOp? || op.EnsureOp? || op.CanPostOp?
    ensures Apply(b, op).entries == b.entries
  {
    match op
    case StatusOp(k, status, actor, now) => SetStatusOutcome(b, k, status, actor, now);
    case EnsureOp(date, allowSoft) => EnsureOpenOutcome(b, date, allowSoft);
    case CanPostOp(date) => EnsureOpenOutcome(b, date, false);
    case _ =>
  }

  lemma {:induction false} EditShape(b: Books, op: Op)
    requires AllPlaced(b.periods, b.entries) && op.EditOp?
    ensures var es' := Apply(b, op).entries;
            es' == b.entries || Edited(op, b.entries, es')
  {
    EditOutcome(b, op.env, op.entryId, op.date, op.description, op.lines);
    EnsureOpenOutcome(b, op.date, false);
  }

  lemma {:induction false} AppendShape(b: Books, op: Op)
    requires op.PostOp? || op.ReverseOp?
    ensures var es' := Apply(b, op).entries;
            es' == b.entries || Appended(op, b.entries, es')
  {
    if op.PostOp? {
      PostOutcome(b, op.env, op.request);
    } else {
      ReverseOutcome(b, op.entryId, op.reason, op.reversalDate, op.today);
    }
  }

  lemma {:induction false} StepShape(b: Books, op: Op)
    requires AllPlaced(b.periods, b.entries)
    ensures var es' := Apply(b, op).entries;
            es' == b.entries || Appended(op, b.entries, es') || Edited(op, b.entries, es')
  {
    if op.PostOp? || op.ReverseOp? {
      AppendShape(b, op);
    } else if op.EditOp? {
      EditShape(b, op);
    } else {
      QuietStep(b, op);
    }
  }

  /** What no operation changes about an entry. */
  ghost predicate SameIdentity(e: Entry, e': Entry)
  {
    e'.id == e.id && e'.key == e.key && e'.sourceType == e.sourceType && e'.reverses == e.reverses
  }

  ghost predicate IdentitiesKept(es: seq<Entry>, es': seq<Entry>)
  {
    |es| <= |es'| && forall i :: 0 <= i < |es| ==> SameIdentity(es[i], es'[i])
  }

  lemma {:induction false} ShapeKeepsIdentities(op: Op, es: seq<Entry>, es': seq<Entry>)
    requires es' == es || Appended(op, es, es') || Edited(op, es, es')
    ensures IdentitiesKept(es, es')
  {
  }

  lemma {:induction false} StepKeepsIdentities(b: Books, op: Op)
    requires AllPlaced(b.periods, b.entries)
    ensures IdentitiesKept(b.entries, Apply(b, op).entries)
  {
    StepShape(b, op);
    ShapeKeepsIdentities(op, b.entries, Apply(b, op).entries);
  }

  lemma {:induction false} IdentitiesCompose(es: seq<Entry>, fs: seq<Entry>, gs: seq<Entry>)
    requires IdentitiesKept(es, fs) && IdentitiesKept(fs, gs)
    ensures IdentitiesKept(es, gs)
  {
  }

  /** Batches do not go back, and an entry whose batch is the same is the same entry. */
  ghost predicate BatchesTell(es: seq<Entry>, es': seq<Entry>)
  {
    && |es| <= |es'|
    && forall i :: 0 <= i < |es| ==>
         es[i].batch <= es'[i].batch && (es'[i].batch == es[i].batch ==> es'[i] == es[i])
  }

  lemma {:induction false} ShapeBatchesTell(op: Op, es: seq<Entry>, es': seq<Entry>)
    requires es' == es || Appended(op, es, es') || Edited(op, es, es')
    ensures BatchesTell(es, es')
  {
  }

  lemma {:induction false} StepBatchesTell(b: Books, op: Op)
    requires AllPlaced(b.periods, b.entries)
    ensures BatchesTell(b.entries, Apply(b, op).entries)
  {
    StepShape(b, op);
    ShapeBatchesTell(op, b.entries, Apply(b, op).entries);
  }

  lemma {:induction false} BatchesCompose(es: seq<Entry>, fs: seq<Entry>, gs: seq<Entry>)
    requires BatchesTell(es, fs) && BatchesTell(fs, gs)
    ensures BatchesTell(es, gs)
  {
  }

  lemma {:induction false} LinksPointBack(es: seq<Entry>)
    requires AllLinked(es)
    ensures forall i :: 0 <= i < |es| && es[i].reverses.Some? ==> 1 <= es[i].reverses.value <= i
  {
    forall i | 0 <= i < |es| && es[i].reverses.Some?
      ensures 1 <= es[i].reverses.value <= i
    {
      assert LinkOk(es, i);
    }
  }

  // ----- Each operation keeps the invariant -----

  /** Looking a period up adds at most one, open and new, and changes none. */
  ghost predicate OnlyAddsPeriod(b: Books, b': Books, d: Date)
  {
    && b'.entries == b.entries
    && (b'.periods == b.periods
        || (HasMonthBounds(d) && PeriodKey(d) !in b.periods
            && b'.periods == b.periods[PeriodKey(d) := NewPeriod(b, d)]))
  }

  lemma {:induction false} NewPeriodIsOk(b: Books, d: Date)
    requires HasMonthBounds(d)
    ensures PeriodOk(PeriodKey(d), NewPeriod(b, d))
  {
    var start := MonthStart(d);
    assert MonthStart(start) == start;
    assert NextMonthStart(start) == NextMonthStart(MonthStart(start));
  }

  lemma {:induction false} AddPeriod(ps: map<string, Period>, key: string, p: Period)
    requires PeriodsOk(ps) && key !in ps && PeriodOk(key, p) && p.id == |ps| + 1
    ensures PeriodsOk(ps[key := p])
  {
    assert |ps[key := p]| == |ps| + 1;
  }

  lemma {:induction false} AddPeriodPlaced(ps: map<string, Period>, key: string, p: Period, es: seq<Entry>)
    requires AllPlaced(ps, es) && key !in ps
    ensures AllPlaced(ps[key := p], es)
  {
    forall i | 0 <= i < |es|
      ensures Placed(ps[key := p], es[i])
    {
      assert Placed(ps, es[i]);
    }
  }

  lemma {:induction false} GetOrCreateKeeps(b: Books, d: Date)
    requires Inv(b)
    ensures Inv(GetOrCreate(b, d).0) && OnlyAddsPeriod(b, GetOrCreate(b, d).0, d)
  {
    if HasMonthBounds(d) && PeriodKey(d) !in b.periods {
      NewPeriodIsOk(b, d);
      AddPeriod(b.periods, PeriodKey(d), NewPeriod(b, d));
      AddPeriodPlaced(b.periods, PeriodKey(d), NewPeriod(b, d), b.entries);
    }
  }

  lemma {:induction false} LookUpsAgree(b: Books, d: Date, allowSoft: bool)
    ensures EnsureOpen(b, d, allowSoft).0 == GetOrCreate(b, d).0
  {
  }

  lemma {:induction false} EnsureOpenKeeps(b: Books, d: Date, allowSoft: bool)
    requires Inv(b)
    ensures Inv(EnsureOpen(b, d, allowSoft).0) && OnlyAddsPeriod(b, EnsureOpen(b, d, allowSoft).0, d)
  {
    GetOrCreateKeeps(b, d);
    LookUpsAgree(b, d, allowSoft);
  }

  /** The period a date's look-up returns is the one stored for its month. */
  lemma {:induction false} EnsureOpenFinds(b: Books, d: Date, allowSoft: bool)
    requires EnsureOpen(b, d, allowSoft).1.Ok?
    ensures var (b', r) := EnsureOpen(b, d, allowSoft);
            HasMonthBounds(d) && PeriodKey(d) in b'.periods && b'.periods[PeriodKey(d)] == r.value
  {
  }

  lemma {:induction false} AppendKeepsKeys(es: seq<Entry>, e: Entry)
    requires KeysUnique(es) && !KeyUsed(es, e.key)
    ensures KeysUnique(es + [e])
  {
  }

  lemma {:induction false} AppendKeepsLinks(es: seq<Entry>, e: Entry)
    requires AllLinked(es) && LinkOk(es + [e], |es|)
    ensures AllLinked(es + [e])
  {
    forall i | 0 <= i < |es + [e]|
      ensures LinkOk(es + [e], i)
    {
      if i < |es| {
        assert LinkOk(es, i) && (es + [e])[i] == es[i];
      }
    }
  }

  /** Appending an entry whose key is free, that is in its period and properly linked. */
  lemma {:induction false} AppendKeeps(b: Books, e: Entry)
    requires Inv(b)
    requires e.id == |b.entries| + 1 && !KeyUsed(b.entries, e.key)
    requires Placed(b.periods, e) && WellFormed(e.lines) && OneBatch(e)
    requires LinkOk(b.entries + [e], |b.entries|)
    ensures Inv(b.(entries := b.entries + [e]))
  {
    AppendKeepsKeys(b.entries, e);
    AppendKeepsLinks(b.entries, e);
  }

  lemma {:induction false} PostKeeps(b: Books, env: Env, r: PostRequest)
    requires Inv(b)
    ensures Inv(Post(b, env, r).0)
  {
    PostOutcome(b, env, r);
    EnsureOpenKeeps(b, r.date, r.allowSoft);
    var answer := Post(b, env, r).1;
    if answer.Ok? && answer.value.Some? {
      EnsureOpenFinds(b, r.date, r.allowSoft);
      AcceptedIsWellFormed(env, r.lines, r.strict);
      AppendKeeps(EnsureOpen(b, r.date, r.allowSoft).0, answer.value.value);
    }
  }

  lemma {:induction false} ReversalIsLinked(es: seq<Entry>, id: int, p: ReversalPlan)
    requires HasEntry(es, id)
    ensures LinkOk(es + [PlannedEntry(es, id, p)], |es|) <==> p.lines == Mirror(es[id - 1].lines)
  {
    assert (es + [PlannedEntry(es, id, p)])[id - 1] == es[id - 1];
    IntTextDenotes(id);
  }

  /** What a passed check of a reversal hands to its insertion. */
  ghost predicate Insertable(b: Books, id: int, p: ReversalPlan)
  {
    && HasEntry(b.entries, id) && WellFormed(p.lines)
    && HasMonthBounds(p.date) && PeriodKey(p.date) in b.periods && b.periods[PeriodKey(p.date)].id == p.periodId
  }

  lemma {:induction false} PlanIsInsertable(b: Books, id: int, reason: Option<string>, date: Date)
    requires Inv(b) && HasEntry(b.entries, id) && EnsureOpen(b, date, true).1.Ok?
    ensures var (b', month) := EnsureOpen(b, date, true);
            Insertable(b', id, PlanOf(b.entries[id - 1], id, reason, date, month.value.id))
  {
    EnsureOpenOutcome(b, date, true);
    EnsureOpenFinds(b, date, true);
    assert WellFormed(b.entries[id - 1].lines);
    MirrorIsWellFormed(b.entries[id - 1].lines);
  }

  lemma {:induction false} CheckReverseKeeps(b: Books, id: int, reason: Option<string>, date: Option<Date>,
                                             today: Date)
    requires Inv(b)
    ensures var (b', answer) := CheckReverse(b, id, reason, date, today);
            && Inv(b') && b'.entries == b.entries
            && (answer.Ok? ==> Insertable(b', id, answer.value)
                               && answer.value.lines == Mirror(b.entries[id - 1].lines))
  {
    var postingDate := if date.Some? then date.value else today;
    CheckReverseOutcome(b, id, reason, date, today);
    if CheckReverse(b, id, reason, date, today).1.Ok? {
      EnsureOpenKeeps(b, postingDate, true);
      PlanIsInsertable(b, id, reason, postingDate);
    }
  }

  lemma {:induction false} InsertReversalKeeps(b: Books, id: int, p: ReversalPlan)
    requires Inv(b) && Insertable(b, id, p) && p.lines == Mirror(b.entries[id - 1].lines)
    ensures Inv(InsertReversal(b, id, p).0)
  {
    if !KeyUsed(b.entries, ReversalKey(id)) {
      ReversalIsLinked(b.entries, id, p);
      AppendKeeps(b, PlannedEntry(b.entries, id, p));
    }
  }

  lemma {:induction false} ReverseInParts(b: Books, id: int, reason: Option<string>, date: Option<Date>, today: Date)
    ensures var (b', answer) := CheckReverse(b, id, reason, date, today);
            var after := Reverse(b, id, reason, date, today).0;
            after == b || after == b' || (answer.Ok? && after == InsertReversal(b', id, answer.value).0)
  {
  }

  lemma {:induction false} ReverseKeeps(b: Books, id: int, reason: Option<string>, date: Option<Date>, today: Date)
    requires Inv(b)
    ensures Inv(Reverse(b, id, reason, date, today).0)
  {
    ReverseInParts(b, id, reason, date, today);
    CheckReverseKeeps(b, id, reason, date, today);
    var (b', answer) := CheckReverse(b, id, reason, date, today);
    if answer.Ok? {
      InsertReversalKeeps(b', id, answer.value);
    }
  }

  lemma {:induction false} ReplaceKeepsLinks(es: seq<Entry>, at: nat, e: Entry)
    requires AllLinked(es) && at < |es|
    requires es[at].sourceType != REVERSAL && !Reversed(es, at + 1) && e.reverses == es[at].reverses
    ensures AllLinked(es[at := e])
  {
    assert LinkOk(es, at);
    var es' := es[at := e];
    forall i | 0 <= i < |es'|
      ensures LinkOk(es', i)
    {
      assert LinkOk(es, i);
    }
  }

  /** e can take the place of an entry that is neither a reversal nor reversed. */
  ghost predicate Replacement(b: Books, at: nat, e: Entry)
  {
    && at < |b.entries| && b.entries[at].sourceType != REVERSAL && !Reversed(b.entries, at + 1)
    && e.id == b.entries[at].id && e.key == b.entries[at].key && e.reverses == b.entries[at].reverses
    && Placed(b.periods, e) && WellFormed(e.lines) && OneBatch(e)
  }

  /** Such a replacement breaks no link. */
  lemma {:induction false} ReplaceKeeps(b: Books, at: nat, e: Entry)
    requires Inv(b) && Replacement(b, at, e)
    ensures Inv(b.(entries := b.entries[at := e]))
  {
    ReplaceKeepsLinks(b.entries, at, e);
    assert KeysUnique(b.entries[at := e]);
  }

  /** What a passed check of an edit hands to its write. */
  ghost predicate Writable(b: Books, id: int, v: Revision)
  {
    && HasEntry(b.entries, id) && v.read == b.entries[id - 1]
    && v.read.sourceType != REVERSAL && !Reversed(b.entries, id)
    && HasMonthBounds(v.date) && PeriodKey(v.date) in b.periods
    && b.periods[PeriodKey(v.date)].id == v.periodId && WellFormed(v.lines)
  }

  /** Nothing has come between the check and the write: the revision takes over whole. */
  lemma {:induction false} RevisedAsRead(ps: map<string, Period>, v: Revision)
    requires HasMonthBounds(v.date) && PeriodKey(v.date) in ps && ps[PeriodKey(v.date)].id == v.periodId
    ensures var e := Revise(v.read, v);
            && Placed(ps, e) && e.lines == v.lines && OneBatch(e)
            && e.id == v.read.id && e.key == v.read.key && e.reverses == v.read.reverses
  {
  }

  lemma {:induction false} WriteReplaces(b: Books, id: int, v: Revision)
    requires HasEntry(b.entries, id) && v.read == b.entries[id - 1]
    ensures WriteEdit(b, id, v) == b.(entries := b.entries[id - 1 := Revise(v.read, v)])
  {
  }

  lemma {:induction false} RevisedReplaces(b: Books, id: int, v: Revision)
    requires Writable(b, id, v)
    ensures Replacement(b, id - 1, Revise(v.read, v))
  {
    RevisedAsRead(b.periods, v);
  }

  lemma {:induction false} WriteKeeps(b: Books, id: int, v: Revision)
    requires Inv(b) && Writable(b, id, v)
    ensures Inv(WriteEdit(b, id, v))
  {
    WriteReplaces(b, id, v);
    RevisedReplaces(b, id, v);
    ReplaceKeeps(b, id - 1, Revise(v.read, v));
  }

  lemma {:induction false} CheckEditKeeps(b: Books, env: Env, id: int, date: Date, description: string,
                                          lines: seq<RawLine>)
    requires Inv(b)
    ensures var (b', answer) := CheckEdit(b, env, id, date, description, lines);
            Inv(b') && b'.entries == b.entries && (answer.Ok? ==> Writable(b', id, answer.value))
  {
    CheckEditOutcome(b, env, id, date, description, lines);
    EnsureOpenKeeps(b, date, false);
    if CheckEdit(b, env, id, date, description, lines).1.Ok? {
      EnsureOpenFinds(b, date, false);
      AcceptedIsWellFormed(env, lines, true);
    }
  }

  lemma {:induction false} EditKeeps(b: Books, env: Env, id: int, date: Date, description: string,
                                     lines: seq<RawLine>)
    requires Inv(b)
    ensures Inv(Edit(b, env, id, date, description, lines).0)
  {
    var (b', answer) := CheckEdit(b, env, id, date, description, lines);
    CheckEditKeeps(b, env, id, date, description, lines);
    if answer.Ok? {
      WriteKeeps(b', id, answer.value);
    }
  }

  lemma {:induction false} ChangeKeepsMonths(ps: map<string, Period>, key: string, p: Period)
    requires AllMonths(ps) && key in ps && PeriodOk(key, p)
    ensures AllMonths(ps[key := p])
  {
    var ps' := ps[key := p];
    forall k | k in ps'
      ensures PeriodOk(k, ps'[k])
    {
      assert k != key ==> ps'[k] == ps[k];
    }
  }

  lemma {:induction false} ChangeKeepsIds(ps: map<string, Period>, key: string, p: Period)
    requires PeriodIds(ps) && key in ps && p.id == ps[key].id
    ensures PeriodIds(ps[key := p])
  {
    var ps' := ps[key := p];
    assert ps'.Keys == ps.Keys && |ps'| == |ps|;
    assert forall k :: k in ps ==> ps'[k].id == ps[k].id;
  }

  lemma {:induction false} ChangeStatusPlaced(ps: map<string, Period>, key: string, p: Period, es: seq<Entry>)
    requires AllPlaced(ps, es) && key in ps && p.id == ps[key].id
    ensures AllPlaced(ps[key := p], es)
  {
    forall i | 0 <= i < |es|
      ensures Placed(ps[key := p], es[i])
    {
      assert Placed(ps, es[i]);
    }
  }

  lemma {:induction false} StatusOnlyKeepsMonth(key: string, p: Period, p': Period)
    requires PeriodOk(key, p)
    requires p' == p.(status := p'.status, closedAt := p'.closedAt, closedBy := p'.closedBy)
    requires p'.status == Closed <==> p'.closedAt.Some?
    requires p'.status == Closed <==> p'.closedBy.Some?
    ensures PeriodOk(key, p')
  {
  }

  lemma {:induction false} SetStatusKeeps(b: Books, key: string, status: string, actor: int, now: int)
    requires Inv(b)
    ensures Inv(SetStatus(b, key, status, actor, now).0)
  {
    SetStatusOutcome(b, key, status, actor, now);
    var r := SetStatus(b, key, status, actor, now).1;
    if r.Ok? {
      assert PeriodOk(key, b.periods[key]);
      StatusOnlyKeepsMonth(key, b.periods[key], r.value);
      ChangeKeepsMonths(b.periods, key, r.value);
      ChangeKeepsIds(b.periods, key, r.value);
      ChangeStatusPlaced(b.periods, key, r.value, b.entries);
    }
  }

  lemma {:induction false} ApplyKeeps(b: Books, op: Op)
    requires Inv(b)
    ensures Inv(Apply(b, op))
  {
    match op
    case PostOp(env, r) => PostKeeps(b, env, r);
    case EditOp(env, id, date, description, lines) => EditKeeps(b, env, id, date, description, lines);
    case ReverseOp(id, reason, date, today) => ReverseKeeps(b, id, reason, date, today);
    case StatusOp(key, status, actor, now) => SetStatusKeeps(b, key, status, actor, now);
    case EnsureOp(date, allowSoft) => EnsureOpenKeeps(b, date, allowSoft);
    case CanPostOp(date) => EnsureOpenKeeps(b, date, false);
  }

  /** Every state of every run satisfies the invariant. */
  lemma {:induction false} ReachableInv(b: Books, ops: seq<Op>)
    requires Inv(b)
    ensures Inv(Run(b, ops))
  {
    if ops != [] {
      ReachableInv(b, ops[..|ops| - 1]);
      ApplyKeeps(Run(b, ops[..|ops| - 1]), ops[|ops| - 1]);
    }
  }

  /** Every entry keeps its id, key, source and link over any run. */
  lemma {:induction false} RunKeepsIdentities(b: Books, ops: seq<Op>)
    requires Inv(b)
    ensures IdentitiesKept(b.entries, Run(b, ops).entries)
  {
    if ops != [] {
      var n := |ops| - 1;
      var c := Run(b, ops[..n]);
      RunKeepsIdentities(b, ops[..n]);
      ReachableInv(b, ops[..n]);
      StepKeepsIdentities(c, ops[n]);
      IdentitiesCompose(b.entries, c.entries, Apply(c, ops[n]).entries);
    }
  }

  lemma {:induction false} RunBatchesTell(b: Books, ops: seq<Op>)
    requires Inv(b)
    ensures BatchesTell(b.entries, Run(b, ops).entries)
  {
    if ops != [] {
      var n := |ops| - 1;
      var c := Run(b, ops[..n]);
      RunBatchesTell(b, ops[..n]);
      ReachableInv(b, ops[..n]);
      StepBatchesTell(c, ops[n]);
      BatchesCompose(b.entries, c.entries, Apply(c, ops[n]).entries);
    }
  }

  /** The states that some run from empty books ends in. */
  ghost predicate Reachable(b: Books)
  {
    exists ops :: b == Run(EMPTY, ops)
  }

  lemma {:induction false} ReachableStep(b: Books, op: Op)
    requires Reachable(b)
    ensures Reachable(Apply(b, op))
  {
    var ops :| b == Run(EMPTY, ops);
    assert (ops + [op])[..|ops|] == ops;
    assert Run(EMPTY, ops + [op]) == Apply(b, op);
  }

  lemma {:induction false} EmptyIsReachable()
    ensures Reachable(EMPTY)
  {
    assert Run(EMPTY, []) == EMPTY;
  }

  lemma {:induction false} ReachableOk(b: Books)
    requires Reachable(b)
    ensures Inv(b)
  {
    var ops :| b == Run(EMPTY, ops);
    ReachableInv(EMPTY, ops);
  }

  lemma {:induction false} ReachableKeysUnique(b: Books)
    requires Reachable(b)
    ensures KeysUnique(b.entries)
  {
    ReachableOk(b);
  }
}
