/** Fiscal periods over whole runs: where entries belong, and what a lock protects. */
module Periods {
  import opened Prelude
  import opened Text
  import opened Calendar
  import opened Journal
  import opened Ledger
  import opened Invariant

  // ----- Containment -----

  lemma {:induction false} PeriodCovers(key: string, p: Period, d: Date)
    requires PeriodOk(key, p)
    ensures Contains(p.Span(), d) <==> key == PeriodKey(d)
  {
    InMonthIffSameKey(p.start, d);
    assert key == PeriodKey(p.start);
  }

  /**
   An entry's period id names exactly one stored period, the one whose interval contains the date of
   the entry; no other stored period's interval does.
   */
  lemma {:induction false} EntryInItsPeriod(b: Books, i: nat)
    requires Reachable(b) && i < |b.entries|
    ensures var key := PeriodKey(b.entries[i].date);
            && key in b.periods
            && b.periods[key].id == b.entries[i].periodId
            && Contains(b.periods[key].Span(), b.entries[i].date)
            && forall k :: k in b.periods && k != key ==>
                 b.periods[k].id != b.entries[i].periodId && !Contains(b.periods[k].Span(), b.entries[i].date)
  {
    ReachableOk(b);
    var e := b.entries[i];
    assert Placed(b.periods, e);
    forall k | k in b.periods
      ensures Contains(b.periods[k].Span(), e.date) <==> k == PeriodKey(e.date)
    {
      PeriodCovers(k, b.periods[k], e.date);
    }
  }

  /** Stored periods do not overlap. */
  lemma {:induction false} PeriodsDisjoint(b: Books, k: string, l: string, d: Date)
    requires Reachable(b) && k in b.periods && l in b.periods
    requires Contains(b.periods[k].Span(), d) && Contains(b.periods[l].Span(), d)
    ensures k == l
  {
    ReachableOk(b);
    PeriodCovers(k, b.periods[k], d);
    PeriodCovers(l, b.periods[l], d);
  }

  /** Listing the stored periods by start is listing them by key. */
  lemma {:induction false} KeysSortPeriods(b: Books, k: string, l: string)
    requires Reachable(b) && k in b.periods && l in b.periods
    ensures Before(b.periods[k].start, b.periods[l].start) <==> Precedes(k, l)
  {
    ReachableOk(b);
    var s, t := b.periods[k].start, b.periods[l].start;
    assert PeriodOk(k, b.periods[k]) && PeriodOk(l, b.periods[l]);
    assert MonthStart(s) == s && MonthStart(t) == t;
    KeyOrderIsDateOrder(s, t);
  }

  // ----- The lock -----

  /** Only dates in December 9999 have no period to look up, in any books. */
  lemma {:induction false} OutOfRangeIff(b: Books, d: Date, allowSoft: bool)
    ensures EnsureOpen(b, d, allowSoft) == (b, Err(DateOutOfRange)) <==> d.year == 9999 && d.month == 12
    ensures CanPost(b, d) == (b, Err(DateOutOfRange)) <==> d.year == 9999 && d.month == 12
  {
  }

  /** A look-up that finds no period for a month leaves a new one there, open, as an operation of its own. */
  lemma {:induction false} LookUpStores(b: Books, d: Date, allowSoft: bool)
    requires HasMonthBounds(d) && PeriodKey(d) !in b.periods
    ensures var p := Period(|b.periods| + 1, PeriodKey(d), MonthBounds(d).start, MonthBounds(d).end, Open, None, None);
            && Apply(b, EnsureOp(d, allowSoft)) == Books(b.entries, b.periods[PeriodKey(d) := p])
            && Apply(b, CanPostOp(d)) == Books(b.entries, b.periods[PeriodKey(d) := p])
  {
  }

  /** How a status is written. */
  function Word(s: Status): string
  {
    match s
    case Open => "open"
    case SoftClosed => "soft_closed"
    case Closed => "closed"
  }

  /** What the word makes of a date in period k: what the lock answers without the flag and with it, and why. */
  ghost predicate LockedAs(b: Books, k: string, word: string, d: Date)
    requires k in b.periods
  {
    && EnsureOpen(b, d, false)
       == (b, if word == "open" then Ok(b.periods[k])
              else if word == "soft_closed" then Err(PeriodSoftClosed(k)) else Err(PeriodClosed(k)))
    && EnsureOpen(b, d, true) == (b, if word == "closed" then Err(PeriodClosed(k)) else Ok(b.periods[k]))
    && CanPost(b, d)
       == (b, Ok(if word == "open" then Permission(true, "Period is open")
                 else if word == "soft_closed"
                 then Permission(false, "Period is soft-closed (only reversing journal entries may post)")
                 else Permission(false, "Period " + k + " is permanently closed")))
  }

  lemma {:induction false} FoundPeriod(b: Books, k: string, d: Date)
    requires PeriodsOk(b.periods) && k in b.periods && Contains(b.periods[k].Span(), d)
    ensures GetOrCreate(b, d) == (b, Ok(b.periods[k])) && b.periods[k].key == k
  {
    assert PeriodOk(k, b.periods[k]);
    PeriodCovers(k, b.periods[k], d);
    InMonthIffSameKey(b.periods[k].start, d);
  }

  /** In every reachable state a stored period locks the dates in its interval as its status says. */
  lemma {:induction false} StatusLocks(b: Books, k: string, d: Date)
    requires Reachable(b) && k in b.periods && Contains(b.periods[k].Span(), d)
    ensures LockedAs(b, k, Word(b.periods[k].status), d)
  {
    ReachableOk(b);
    FoundPeriod(b, k, d);
  }

  /**
   What the status of a stored period decides, for every date in its interval: an open one takes all
   entries, a soft-closed one those carrying the flag, a closed one none; and a period carries a
   closing time and a closing user exactly while it is closed.
   */
  lemma {:induction false} StatusDecides(b: Books, k: string, d: Date, allowSoft: bool)
    requires Reachable(b) && k in b.periods && Contains(b.periods[k].Span(), d)
    ensures var p := b.periods[k];
            && (p.status == Closed <==> p.closedAt.Some?) && (p.status == Closed <==> p.closedBy.Some?)
            && (EnsureOpen(b, d, allowSoft) == (b, Ok(p)) <==>
                  p.status == Open || (p.status == SoftClosed && allowSoft))
            && (EnsureOpen(b, d, allowSoft).1.Ok? ==> EnsureOpen(b, d, allowSoft) == (b, Ok(p)))
            && CanPost(b, d) == (b, Ok(PermissionOf(p)))
            && (PermissionOf(p).allowed <==> p.status == Open)
  {
    ReachableOk(b);
    assert PeriodOk(k, b.periods[k]);
    PeriodCovers(k, b.periods[k], d);
    InMonthIffSameKey(b.periods[k].start, d);
  }

  /**
   `can_post_to_period` says yes exactly when `ensure_period_open` passes without the soft-close
   flag; the flag only adds cases, the soft-closed ones; all three leave the same books.
   */
  lemma {:induction false} LockChecksAgree(b: Books, d: Date)
    ensures (CanPost(b, d).1.Ok? && CanPost(b, d).1.value.allowed) <==> EnsureOpen(b, d, false).1.Ok?
    ensures EnsureOpen(b, d, false).1.Ok? ==> EnsureOpen(b, d, true) == EnsureOpen(b, d, false)
    ensures EnsureOpen(b, d, true).1.Ok? && EnsureOpen(b, d, false).1.Err? <==>
              HasMonthBounds(d) && PeriodKey(d) in b.periods && b.periods[PeriodKey(d)].status == SoftClosed
    ensures CanPost(b, d).0 == EnsureOpen(b, d, false).0 == EnsureOpen(b, d, true).0
  {
  }

  lemma {:induction false} ParsedWord(w: string)
    ensures ParseStatus(w).Some? <==> w == "open" || w == "soft_closed" || w == "closed"
    ensures ParseStatus(w).Some? ==> Word(ParseStatus(w).value) == w
  {
  }

  lemma {:induction false} SetStatusRefuses(b: Books, k: string, w: string, actor: int, now: int)
    requires k !in b.periods || ParseStatus(w).None?
    ensures SetStatus(b, k, w, actor, now) == (b, Err(if k !in b.periods then PeriodNotFound(k) else BadStatus(w)))
  {
  }

  lemma {:induction false} SetStatusIsReachable(b: Books, k: string, w: string, actor: int, now: int)
    requires Reachable(b)
    ensures Reachable(SetStatus(b, k, w, actor, now).0)
  {
    ReachableStep(b, StatusOp(k, w, actor, now));
    assert Apply(b, StatusOp(k, w, actor, now)) == SetStatus(b, k, w, actor, now).0;
  }

  /**
   What the three words do. A stored period takes each of them, and afterwards locks every date in its
   interval as the word says; it is signed off exactly under "closed". Any other word is refused, and so
   is a key without a period.
   */
  lemma {:induction false} StatusWords(b: Books, k: string, w: string, actor: int, now: int, d: Date)
    requires Reachable(b)
    ensures var (b', r) := SetStatus(b, k, w, actor, now);
            if k !in b.periods then (b', r) == (b, Err(PeriodNotFound(k)))
            else if w != "open" && w != "soft_closed" && w != "closed" then (b', r) == (b, Err(BadStatus(w)))
            else
              && r.Ok? && b' == b.(periods := b.periods[k := r.value]) && r.value.Span() == b.periods[k].Span()
              && (w == "closed" <==> r.value.closedAt.Some?) && (w == "closed" <==> r.value.closedBy.Some?)
              && (Contains(r.value.Span(), d) ==> LockedAs(b', k, w, d))
  {
    ParsedWord(w);
    if k in b.periods && ParseStatus(w).Some? {
      SetStatusOutcome(b, k, w, actor, now);
      SetStatusIsReachable(b, k, w, actor, now);
      var b' := SetStatus(b, k, w, actor, now).0;
      ReachableOk(b');
      assert PeriodOk(k, b'.periods[k]);
      if Contains(b'.periods[k].Span(), d) {
        StatusLocks(b', k, d);
      }
    } else {
      SetStatusRefuses(b, k, w, actor, now);
    }
  }

  /** Every change between two different known statuses is allowed: no status is final. */
  lemma {:induction false} NoStatusIsFinal(b: Books, key: string, status: string, actor: int, now: int)
    requires key in b.periods && ParseStatus(status).Some?
    ensures SetStatus(b, key, status, actor, now).1.Ok?
    ensures SetStatus(b, key, status, actor, now).0.periods[key].status == ParseStatus(status).value
  {
    SetStatusOutcome(b, key, status, actor, now);
  }

  // ----- Frozen periods -----

  ghost predicate InPeriod(b: Books, i: nat, k: string)
    requires i < |b.entries|
  {
    k in b.periods && b.entries[i].periodId == b.periods[k].id
  }

  /** Every entry of period k in b is in b' at the same place, unchanged. */
  ghost predicate Kept(b: Books, b': Books, k: string)
  {
    forall i :: 0 <= i < |b.entries| && InPeriod(b, i, k) ==>
      i < |b'.entries| && b'.entries[i] == b.entries[i]
  }

  ghost predicate WasIn(b: Books, i: nat, e: Entry)
  {
    i < |b.entries| && b.entries[i] == e
  }

  /** e is what op adds to a soft-closed period: a reversal, or a post carrying the flag. */
  ghost predicate AddedBy(op: Op, e: Entry)
  {
    || (op.ReverseOp? && e.reverses == Some(op.entryId))
    || (op.PostOp? && op.request.allowSoft && e.key == op.request.key)
  }

  /**
   What the lock of period k asks of one step: its entries stay as they are, and the only one to join is
   one that the operation adds while the period is soft-closed.
   */
  ghost predicate LockHolds(b: Books, op: Op, b': Books, k: string)
    requires k in b.periods
  {
    && Kept(b, b', k)
    && forall i :: 0 <= i < |b'.entries| && InPeriod(b', i, k) ==>
         WasIn(b, i, b'.entries[i])
         || (i == |b.entries| && b.periods[k].status == SoftClosed && AddedBy(op, b'.entries[i]))
  }

  /** Operation n of the run added e at position i, as it may while period k is soft-closed. */
  ghost predicate AddedAt(b: Books, ops: seq<Op>, n: nat, i: nat, e: Entry, k: string)
  {
    && n < |ops| && AddedBy(ops[n], e)
    && var before := Run(b, ops[..n]);
       && i == |before.entries| && k in before.periods && before.periods[k].status == SoftClosed
       && WasIn(Run(b, ops[..n + 1]), i, e)
  }

  /** Every entry of period k after the run was there before it, or was added by the operation that could. */
  ghost predicate Explained(b: Books, ops: seq<Op>, k: string)
  {
    var b' := Run(b, ops);
    forall i :: 0 <= i < |b'.entries| && InPeriod(b', i, k) ==>
      WasIn(b, i, b'.entries[i]) || exists n :: AddedAt(b, ops, n, i, b'.entries[i], k)
  }

  ghost predicate Locked(b: Books, k: string) { k in b.periods && b.periods[k].status != Open }

  lemma {:induction false} LookUpKeepsPeriod(b: Books, d: Date, allowSoft: bool, k: string)
    requires k in b.periods
    ensures k in EnsureOpen(b, d, allowSoft).0.periods
    ensures EnsureOpen(b, d, allowSoft).0.periods[k] == b.periods[k]
  {
  }

  lemma {:induction false} PeriodIdKept(b: Books, op: Op, k: string)
    requires Inv(b) && k in b.periods
    ensures k in Apply(b, op).periods && Apply(b, op).periods[k].id == b.periods[k].id
    ensures |b.entries| <= |Apply(b, op).entries|
  {
    StepShape(b, op);
    match op
    case PostOp(env, r) =>
      PostOutcome(b, env, r);
      LookUpKeepsPeriod(b, r.date, r.allowSoft, k);
    case EditOp(env, id, date, description, lines) =>
      EditOutcome(b, env, id, date, description, lines);
      LookUpKeepsPeriod(b, date, false, k);
    case ReverseOp(id, reason, date, today) =>
      ReverseOutcome(b, id, reason, date, today);
      LookUpKeepsPeriod(b, if date.Some? then date.value else today, true, k);
    case StatusOp(key, status, actor, now) => SetStatusOutcome(b, key, status, actor, now);
    case EnsureOp(date, allowSoft) => LookUpKeepsPeriod(b, date, allowSoft, k);
    case CanPostOp(date) =>
      LookUpKeepsPeriod(b, date, false, k);
      LockChecksAgree(b, date);
  }

  /** An entry dated where the look-up passes is not in a period that the look-up refuses. */
  lemma {:induction false} PassedIsElsewhere(b: Books, d: Date, allowSoft: bool, k: string)
    requires Inv(b) && k in b.periods && EnsureOpen(b, d, allowSoft).1.Ok?
    requires b.periods[k].status == Closed || (b.periods[k].status == SoftClosed && !allowSoft)
    ensures EnsureOpen(b, d, allowSoft).1.value.id != EnsureOpen(b, d, allowSoft).0.periods[k].id
  {
    EnsureOpenKeeps(b, d, allowSoft);
    EnsureOpenFinds(b, d, allowSoft);
    EnsureOpenOutcome(b, d, allowSoft);
    var (b', r) := EnsureOpen(b, d, allowSoft);
    assert b'.periods[k].status == b.periods[k].status;
    assert PeriodIds(b'.periods);
  }

  /** An entry whose own date passes the look-up is not in a locked period. */
  lemma {:induction false} PassedIsOwn(b: Books, e: Entry, k: string)
    requires Inv(b) && Locked(b, k) && Placed(b.periods, e) && EnsureOpen(b, e.date, false).1.Ok?
    ensures e.periodId != b.periods[k].id
  {
    EnsureOpenOutcome(b, e.date, false);
    assert b.periods[PeriodKey(e.date)].status == Open;
    assert PeriodIds(b.periods);
  }

  lemma {:induction false} AppendedStep(b: Books, ps: map<string, Period>, e: Entry, op: Op, k: string)
    requires k in b.periods && k in ps && ps[k].id == b.periods[k].id
    requires e.periodId == ps[k].id ==> b.periods[k].status == SoftClosed && AddedBy(op, e)
    ensures LockHolds(b, op, Books(b.entries + [e], ps), k)
  {
  }

  lemma {:induction false} ReplacedStep(b: Books, b': Books, at: nat, e: Entry, op: Op, k: string)
    requires at < |b.entries| && b'.entries == b.entries[at := e]
    requires k in b.periods && k in b'.periods && b'.periods[k].id == b.periods[k].id
    requires b.entries[at].periodId != b.periods[k].id && e.periodId != b.periods[k].id
    ensures LockHolds(b, op, b', k)
  {
  }

  lemma {:induction false} UnchangedStep(b: Books, b': Books, op: Op, k: string)
    requires b'.entries == b.entries
    requires k in b.periods && k in b'.periods && b'.periods[k].id == b.periods[k].id
    ensures LockHolds(b, op, b', k)
  {
  }

  lemma {:induction false} PostedWhere(b: Books, env: Env, r: PostRequest)
    requires Post(b, env, r).1.Ok? && Post(b, env, r).1.value.Some?
    ensures EnsureOpen(b, r.date, r.allowSoft).1.Ok?
    ensures Post(b, env, r).1.value.value.periodId == EnsureOpen(b, r.date, r.allowSoft).1.value.id
    ensures Post(b, env, r).1.value.value.key == r.key
  {
  }

  lemma {:induction false} LockedPost(b: Books, op: Op, k: string)
    requires Inv(b) && Locked(b, k) && op.PostOp? && Apply(b, op).entries != b.entries
    ensures LockHolds(b, op, Apply(b, op), k)
  {
    var r := op.request;
    PostOutcome(b, op.env, r);
    PostedWhere(b, op.env, r);
    PeriodIdKept(b, op, k);
    if b.periods[k].status == Closed || !r.allowSoft {
      PassedIsElsewhere(b, r.date, r.allowSoft, k);
    }
    AppendedStep(b, Apply(b, op).periods, Post(b, op.env, r).1.value.value, op, k);
  }

  lemma {:induction false} LockedReverse(b: Books, op: Op, k: string)
    requires Inv(b) && Locked(b, k) && op.ReverseOp? && Apply(b, op).entries != b.entries
    ensures LockHolds(b, op, Apply(b, op), k)
  {
    ReverseOutcome(b, op.entryId, op.reason, op.reversalDate, op.today);
    PeriodIdKept(b, op, k);
    var e := Reverse(b, op.entryId, op.reason, op.reversalDate, op.today).1.value;
    if b.periods[k].status == Closed {
      PassedIsElsewhere(b, if op.reversalDate.Some? then op.reversalDate.value else op.today, true, k);
    }
    AppendedStep(b, Apply(b, op).periods, e, op, k);
  }

  /** An accepted edit touches a locked period neither where the entry was nor where it goes. */
  lemma {:induction false} EditIsElsewhere(b: Books, id: int, date: Date, k: string)
    requires Inv(b) && Locked(b, k) && HasEntry(b.entries, id)
    requires EnsureOpen(b, b.entries[id - 1].date, false).1.Ok? && EnsureOpen(b, date, false).1.Ok?
    ensures b.entries[id - 1].periodId != b.periods[k].id
    ensures EnsureOpen(b, date, false).1.value.id != b.periods[k].id
  {
    assert Placed(b.periods, b.entries[id - 1]);
    PassedIsOwn(b, b.entries[id - 1], k);
    PassedIsElsewhere(b, date, false, k);
    LookUpKeepsPeriod(b, date, false, k);
  }

  lemma {:induction false} EditedWhere(b: Books, env: Env, id: int, date: Date, description: string,
                                       lines: seq<RawLine>, k: string)
    requires Inv(b) && Locked(b, k)
    ensures var (b', answer) := Edit(b, env, id, date, description, lines);
            if answer.Ok? then
              && HasEntry(b.entries, id) && b'.entries == b.entries[id - 1 := answer.value]
              && b.entries[id - 1].periodId != b.periods[k].id && answer.value.periodId != b.periods[k].id
            else b'.entries == b.entries
  {
    EditOutcome(b, env, id, date, description, lines);
    EnsureOpenOutcome(b, date, false);
    if Edit(b, env, id, date, description, lines).1.Ok? {
      EditIsElsewhere(b, id, date, k);
    }
  }

  lemma {:induction false} LockedEdit(b: Books, op: Op, k: string)
    requires Inv(b) && Locked(b, k) && op.EditOp?
    ensures LockHolds(b, op, Apply(b, op), k)
  {
    var b' := Apply(b, op);
    PeriodIdKept(b, op, k);
    EditedWhere(b, op.env, op.entryId, op.date, op.description, op.lines, k);
    if b'.entries == b.entries {
      UnchangedStep(b, b', op, k);
    } else {
      var e := Edit(b, op.env, op.entryId, op.date, op.description, op.lines).1.value;
      ReplacedStep(b, b', op.entryId - 1, e, op, k);
    }
  }

  /** What one operation can do to a period that is not open. */
  lemma {:induction false} LockedStep(b: Books, op: Op, k: string)
    requires Inv(b) && Locked(b, k)
    ensures LockHolds(b, op, Apply(b, op), k)
  {
    PeriodIdKept(b, op, k);
    var b' := Apply(b, op);
    if b'.entries == b.entries {
      UnchangedStep(b, b', op, k);
    } else {
      StepShape(b, op);
      match op
      case PostOp(_, _) => LockedPost(b, op, k);
      case EditOp(_, _, _, _, _) => LockedEdit(b, op, k);
      case ReverseOp(_, _, _, _) => LockedReverse(b, op, k);
      case _ => assert false;
    }
  }

  /** Before each operation of the run, period k exists and satisfies the test. */
  ghost predicate Throughout(b: Books, ops: seq<Op>, k: string, closed: bool)
  {
    ops == [] ||
    var before := Run(b, ops[..|ops| - 1]);
    && Throughout(b, ops[..|ops| - 1], k, closed)
    && Locked(before, k) && (closed ==> before.periods[k].status == Closed)
  }

  lemma {:induction false} PeriodIdKeptOverRun(b: Books, ops: seq<Op>, k: string)
    requires Inv(b) && k in b.periods
    ensures k in Run(b, ops).periods && Run(b, ops).periods[k].id == b.periods[k].id
    ensures |b.entries| <= |Run(b, ops).entries|
  {
    if ops != [] {
      var n := |ops| - 1;
      PeriodIdKeptOverRun(b, ops[..n], k);
      ReachableInv(b, ops[..n]);
      PeriodIdKept(Run(b, ops[..n]), ops[n], k);
    }
  }

  lemma {:induction false} KeptCompose(b: Books, c: Books, d: Books, k: string)
    requires Kept(b, c, k) && Kept(c, d, k)
    requires k in b.periods && k in c.periods && c.periods[k].id == b.periods[k].id
    ensures Kept(b, d, k)
  {
    forall i | 0 <= i < |b.entries| && InPeriod(b, i, k)
      ensures i < |d.entries| && d.entries[i] == b.entries[i]
    {
      assert c.entries[i] == b.entries[i] && InPeriod(c, i, k);
    }
  }

  lemma {:induction false} AddedAtExtends(b: Books, ops: seq<Op>, op: Op, n: nat, i: nat, e: Entry, k: string)
    requires AddedAt(b, ops, n, i, e, k)
    ensures AddedAt(b, ops + [op], n, i, e, k)
  {
    assert (ops + [op])[..n] == ops[..n] && (ops + [op])[..n + 1] == ops[..n + 1];
  }

  lemma {:induction false} RunSnoc(b: Books, ops: seq<Op>, op: Op)
    ensures Run(b, ops + [op]) == Apply(Run(b, ops), op)
  {
    assert (ops + [op])[..|ops|] == ops;
  }

  lemma {:induction false} LastAddedAt(b: Books, ops: seq<Op>, op: Op, e: Entry, k: string)
    requires AddedBy(op, e)
    requires k in Run(b, ops).periods && Run(b, ops).periods[k].status == SoftClosed
    requires WasIn(Apply(Run(b, ops), op), |Run(b, ops).entries|, e)
    ensures AddedAt(b, ops + [op], |ops|, |Run(b, ops).entries|, e, k)
  {
    RunSnoc(b, ops, op);
    assert (ops + [op])[..|ops|] == ops && (ops + [op])[..|ops| + 1] == ops + [op];
  }

  lemma {:induction false} ExplainedCompose(b: Books, ops: seq<Op>, op: Op, k: string)
    requires var c, d := Run(b, ops), Apply(Run(b, ops), op);
             && k in c.periods && k in d.periods && c.periods[k].id == d.periods[k].id
             && Explained(b, ops, k) && LockHolds(c, op, d, k)
    ensures Explained(b, ops + [op], k)
  {
    RunSnoc(b, ops, op);
    var c, d := Run(b, ops), Apply(Run(b, ops), op);
    forall i | 0 <= i < |d.entries| && InPeriod(d, i, k)
      ensures WasIn(b, i, d.entries[i]) || exists n :: AddedAt(b, ops + [op], n, i, d.entries[i], k)
    {
      var e := d.entries[i];
      if WasIn(c, i, e) {
        assert InPeriod(c, i, k);
        if !WasIn(b, i, e) {
          var n :| AddedAt(b, ops, n, i, e, k);
          AddedAtExtends(b, ops, op, n, i, e, k);
        }
      } else {
        LastAddedAt(b, ops, op, e, k);
      }
    }
  }

  lemma {:induction false} LastApart(ops: seq<Op>)
    requires ops != []
    ensures ops[..|ops| - 1] + [ops[|ops| - 1]] == ops
  {
  }

  lemma {:induction false} ClosedStep(b: Books, op: Op, b': Books, k: string)
    requires k in b.periods && b.periods[k].status == Closed && LockHolds(b, op, b', k)
    ensures Kept(b', b, k)
  {
  }

  lemma {:induction false} LockedRun(b: Books, ops: seq<Op>, k: string, closed: bool)
    requires Inv(b) && k in b.periods && Throughout(b, ops, k, closed)
    ensures Kept(b, Run(b, ops), k) && Explained(b, ops, k)
    ensures closed ==> Kept(Run(b, ops), b, k)
  {
    if ops != [] {
      var n := |ops| - 1;
      var c, op := Run(b, ops[..n]), ops[n];
      var d := Apply(c, op);
      LockedRun(b, ops[..n], k, closed);
      ReachableInv(b, ops[..n]);
      PeriodIdKeptOverRun(b, ops[..n], k);
      PeriodIdKept(c, op, k);
      LockedStep(c, op, k);
      KeptCompose(b, c, d, k);
      ExplainedCompose(b, ops[..n], op, k);
      LastApart(ops);
      if closed {
        ClosedStep(c, op, d, k);
        KeptCompose(d, c, b, k);
      }
    }
  }

  /** While a period stays closed its entries are the same ones, with the same lines. */
  lemma {:induction false} ClosedPeriodIsFrozen(b: Books, ops: seq<Op>, k: string)
    requires Reachable(b) && k in b.periods && Throughout(b, ops, k, true)
    ensures Kept(b, Run(b, ops), k) && Kept(Run(b, ops), b, k)
  {
    ReachableOk(b);
    LockedRun(b, ops, k, true);
  }

  /**
   While a period is soft-closed or closed its entries neither change nor move, and each that joins it
   is added by a reversal, or by a post that carries the soft-close flag, while it is soft-closed.
   */
  lemma {:induction false} LockedPeriodOnlyGrows(b: Books, ops: seq<Op>, k: string)
    requires Reachable(b) && k in b.periods && Throughout(b, ops, k, false)
    ensures Kept(b, Run(b, ops), k) && Explained(b, ops, k)
  {
    ReachableOk(b);
    LockedRun(b, ops, k, false);
  }
}
