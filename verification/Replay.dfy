/** Idempotency keys, refused operations, and the relation between editing and posting. */
module Replay {
  import opened Prelude
  import opened Text
  import opened Calendar
  import opened Journal
  import opened Ledger
  import opened Invariant

  // ----- Replay -----

  /** A used key is answered None before anything else is looked at, whatever the request holds. */
  lemma {:induction false} DuplicateComesFirst(b: Books, env: Env, r: PostRequest)
    ensures KeyUsed(b.entries, r.key) ==> Post(b, env, r) == (b, Ok(None))
    ensures Post(b, env, r).1 == Ok(None) ==> KeyUsed(b.entries, r.key)
  {
    PostOutcome(b, env, r);
  }

  lemma {:induction false} ShapesKeepKeys(op: Op, es: seq<Entry>, es': seq<Entry>, key: string)
    requires es' == es || Appended(op, es, es') || Edited(op, es, es')
    requires KeyUsed(es, key)
    ensures KeyUsed(es', key)
  {
    var i :| 0 <= i < |es| && es[i].key == key;
    assert es'[i].key == key;
  }

  lemma {:induction false} KeysPersist(b: Books, op: Op, key: string)
    requires AllPlaced(b.periods, b.entries) && KeyUsed(b.entries, key)
    ensures KeyUsed(Apply(b, op).entries, key)
  {
    StepShape(b, op);
    ShapesKeepKeys(op, b.entries, Apply(b, op).entries, key);
  }

  /** Operation n of the run is a post under this key that was not refused. */
  ghost predicate AcceptedIn(ops: seq<Op>, n: nat, key: string)
    requires n < |ops|
  {
    && ops[n].PostOp? && ops[n].request.key == key
    && Post(Run(EMPTY, ops[..n]), ops[n].env, ops[n].request).1.Ok?
  }

  lemma {:induction false} AcceptedPostUsesKey(b: Books, env: Env, r: PostRequest)
    requires Post(b, env, r).1.Ok?
    ensures KeyUsed(Post(b, env, r).0.entries, r.key)
  {
    PostOutcome(b, env, r);
    var (b', answer) := Post(b, env, r);
    if answer.value.Some? {
      assert b'.entries[|b.entries|].key == r.key;
    }
  }

  lemma {:induction false} RunSplits(b: Books, xs: seq<Op>, ys: seq<Op>)
    ensures Run(b, xs + ys) == Run(Run(b, xs), ys)
  {
    if ys == [] {
      assert xs + ys == xs;
    } else {
      var n := |ys| - 1;
      assert (xs + ys)[..|xs + ys| - 1] == xs + ys[..n];
      RunSplits(b, xs, ys[..n]);
    }
  }

  lemma {:induction false} KeysPersistOverRun(b: Books, ops: seq<Op>, key: string)
    requires Inv(b) && KeyUsed(b.entries, key)
    ensures KeyUsed(Run(b, ops).entries, key)
  {
    if ops != [] {
      var n := |ops| - 1;
      KeysPersistOverRun(b, ops[..n], key);
      ReachableInv(b, ops[..n]);
      KeysPersist(Run(b, ops[..n]), ops[n], key);
    }
  }

  lemma {:induction false} LastAcceptedKeyUsed(ops: seq<Op>, key: string)
    requires ops != [] && AcceptedIn(ops, |ops| - 1, key)
    ensures KeyUsed(Run(EMPTY, ops).entries, key)
  {
    var before, op := Run(EMPTY, ops[..|ops| - 1]), ops[|ops| - 1];
    AcceptedPostUsesKey(before, op.env, op.request);
  }

  lemma {:induction false} SplitAfter(ops: seq<Op>, n: nat)
    requires n < |ops|
    ensures ops == ops[..n + 1] + ops[n + 1..]
    ensures ops[..n + 1][..n] == ops[..n] && ops[..n + 1][n] == ops[n]
  {
  }

  lemma {:induction false} AcceptedKeyUsed(ops: seq<Op>, n: nat, key: string)
    requires n < |ops| && AcceptedIn(ops, n, key)
    ensures KeyUsed(Run(EMPTY, ops).entries, key)
  {
    var xs, ys := ops[..n + 1], ops[n + 1..];
    SplitAfter(ops, n);
    LastAcceptedKeyUsed(xs, key);
    RunSplits(EMPTY, xs, ys);
    ReachableInv(EMPTY, xs);
    KeysPersistOverRun(Run(EMPTY, xs), ys, key);
  }

  /** Every request repeats the key of a post that the run accepted. */
  ghost predicate Repeats(ops: seq<Op>, again: seq<Op>)
  {
    forall m :: 0 <= m < |again| ==>
      again[m].PostOp? && exists n :: 0 <= n < |ops| && AcceptedIn(ops, n, again[m].request.key)
  }

  lemma {:induction false} UsedKeysChangeNothing(b: Books, again: seq<Op>)
    requires forall m :: 0 <= m < |again| ==> again[m].PostOp? && KeyUsed(b.entries, again[m].request.key)
    ensures Run(b, again) == b
  {
    if again != [] {
      var n := |again| - 1;
      UsedKeysChangeNothing(b, again[..n]);
      PostOutcome(b, again[n].env, again[n].request);
      DuplicateComesFirst(b, again[n].env, again[n].request);
    }
  }

  /**
   Submitting accepted posts again, any number of times and in any order, whatever has since
   happened to their entries and periods, leaves the books as they are.
   */
  lemma {:induction false} ReplayIsIdentity(ops: seq<Op>, again: seq<Op>)
    requires Repeats(ops, again)
    ensures Run(Run(EMPTY, ops), again) == Run(EMPTY, ops)
  {
    forall m | 0 <= m < |again|
      ensures again[m].PostOp? && KeyUsed(Run(EMPTY, ops).entries, again[m].request.key)
    {
      var n :| 0 <= n < |ops| && AcceptedIn(ops, n, again[m].request.key);
      AcceptedKeyUsed(ops, n, again[m].request.key);
    }
    UsedKeysChangeNothing(Run(EMPTY, ops), again);
  }

  // ----- Refusals -----

  /** A refused post or reversal leaves the books as they are. */
  lemma {:induction false} RefusalLeavesNoTrace(b: Books, op: Op)
    requires op.PostOp? ==> Post(b, op.env, op.request).1.Err?
    requires op.ReverseOp? ==> Reverse(b, op.entryId, op.reason, op.reversalDate, op.today).1.Err?
    requires op.PostOp? || op.ReverseOp?
    ensures Apply(b, op) == b
  {
    match op
    case PostOp(env, r) => PostOutcome(b, env, r);
    case ReverseOp(id, reason, date, today) => ReverseOutcome(b, id, reason, date, today);
  }

  /**
   A refused edit changes no entry. It leaves a trace only when its lines are refused and its date
   is in a month without a period: that month's period, open and without entries.
   */
  lemma {:induction false} RefusedEditTrace(b: Books, env: Env, id: int, date: Date, description: string,
                                            lines: seq<RawLine>)
    requires Reachable(b) && Edit(b, env, id, date, description, lines).1.Err?
    ensures var b' := Edit(b, env, id, date, description, lines).0;
            b' == b ||
            (&& b'.entries == b.entries
             && ValidateLines(env, lines, true).Err?
             && HasMonthBounds(date) && PeriodKey(date) !in b.periods
             && b'.periods == b.periods[PeriodKey(date) := NewPeriod(b, date)]
             && NewPeriod(b, date).status == Open
             && forall i :: 0 <= i < |b.entries| ==> b.entries[i].periodId != NewPeriod(b, date).id)
  {
    ReachableOk(b);
    EditOutcome(b, env, id, date, description, lines);
    EnsureOpenKeeps(b, date, false);
    forall i | 0 <= i < |b.entries|
      ensures b.entries[i].periodId <= |b.periods|
    {
      assert Placed(b.periods, b.entries[i]);
    }
  }

  // ----- Editing is posting anew -----

  lemma {:induction false} SameVerdictAfterPost(b: Books, env: Env, r: PostRequest, d: Date)
    requires Post(b, env, r).1.Ok? && Post(b, env, r).1.value.Some?
    ensures EnsureOpen(Post(b, env, r).0, d, false).1.Ok? <==> EnsureOpen(b, d, false).1.Ok?
    ensures EnsureOpen(b, d, false).1.Err? ==>
              EnsureOpen(Post(b, env, r).0, d, false).1.error == EnsureOpen(b, d, false).1.error
  {
    PostOutcome(b, env, r);
  }

  lemma {:induction false} NewEntryIsEditable(b: Books, env: Env, r: PostRequest)
    requires Inv(b) && Post(b, env, r).1.Ok? && Post(b, env, r).1.value.Some?
    ensures var (b1, posted) := Post(b, env, r);
            && b1.entries == b.entries + [posted.value.value]
            && posted.value.value.date == r.date && posted.value.value.sourceType == r.sourceType
            && !Reversed(b1.entries, |b.entries| + 1)
  {
    PostOutcome(b, env, r);
    LinksPointBack(b.entries);
  }

  ghost predicate Reposts(b: Books, env: Env, r: PostRequest, r': PostRequest)
  {
    && Post(b, env, r).1.Ok? && Post(b, env, r).1.value.Some? && r.sourceType != REVERSAL
    && !KeyUsed(b.entries, r'.key) && r'.strict && !r'.allowSoft
  }

  /** A post under a new key: the answer depends on its lines and its month alone. */
  lemma {:induction false} PostVerdict(b: Books, env: Env, r: PostRequest)
    requires !KeyUsed(b.entries, r.key)
    ensures var answer := Post(b, env, r).1;
            var verdict, month := ValidateLines(env, r.lines, r.strict), EnsureOpen(b, r.date, r.allowSoft).1;
            && (answer.Ok? <==> verdict.Ok? && month.Ok?)
            && (verdict.Err? ==> answer == Err(verdict.error))
            && (verdict.Ok? && month.Err? ==> answer == Err(month.error))
            && (answer.Ok? ==>
                  && answer.value.Some? && answer.value.value.id == |b.entries| + 1
                  && answer.value.value.date == r.date
                  && answer.value.value.description == Take(r.description, 512)
                  && answer.value.value.lines == StoreAll(verdict.value)
                  && answer.value.value.sourceType == r.sourceType && answer.value.value.sourceId == r.sourceId
                  && answer.value.value.key == r.key && answer.value.value.reverses.None?
                  && answer.value.value.periodId == month.value.id && answer.value.value.batch == 0)
  {
  }

  /** An editable entry: the answer depends on the two months and the lines alone. */
  lemma {:induction false} EditVerdict(b: Books, env: Env, id: int, date: Date, description: string,
                                       lines: seq<RawLine>)
    requires AllPlaced(b.periods, b.entries)
    requires HasEntry(b.entries, id) && b.entries[id - 1].sourceType != REVERSAL && !Reversed(b.entries, id)
    ensures var answer := Edit(b, env, id, date, description, lines).1;
            var own, target := EnsureOpen(b, b.entries[id - 1].date, false).1, EnsureOpen(b, date, false).1;
            && (answer.Ok? <==> own.Ok? && target.Ok? && ValidateLines(env, lines, true).Ok?)
            && (own.Err? ==> answer == Err(own.error))
            && (own.Ok? && target.Err? ==> answer == Err(target.error))
            && (own.Ok? && target.Ok? && ValidateLines(env, lines, true).Err? ==>
                  answer == Err(ValidateLines(env, lines, true).error))
  {
    assert Placed(b.periods, b.entries[id - 1]);
    EnsureOpenOutcome(b, b.entries[id - 1].date, false);
  }

  /**
   Posting r and then editing the entry to the contents of r' succeeds exactly when r' could have been
   posted instead, strictly and without the soft-close flag, and r's own month is open. When both
   months are open the two are refused with the same error.
   */
  lemma {:induction false} EditAcceptedIffRepost(b: Books, env: Env, r: PostRequest, env': Env, r': PostRequest)
    requires Inv(b) && Reposts(b, env, r, r')
    ensures var reposted := Post(b, env', r').1;
            var edited := Edit(Post(b, env, r).0, env', |b.entries| + 1, r'.date, r'.description, r'.lines).1;
            && (edited.Ok? <==> reposted.Ok? && EnsureOpen(b, r.date, false).1.Ok?)
            && (EnsureOpen(b, r.date, false).1.Ok? && EnsureOpen(b, r'.date, false).1.Ok? && reposted.Err? ==>
                  edited.Err? && edited.error == reposted.error)
  {
    PostKeeps(b, env, r);
    NewEntryIsEditable(b, env, r);
    SameVerdictAfterPost(b, env, r, r.date);
    SameVerdictAfterPost(b, env, r, r'.date);
    PostVerdict(b, env', r');
    EditVerdict(Post(b, env, r).0, env', |b.entries| + 1, r'.date, r'.description, r'.lines);
  }

  /** What an accepted post is stored with is what was submitted, line by line. */
  lemma {:induction false} PostedAsSubmitted(b: Books, env: Env, r: PostRequest)
    requires Post(b, env, r).1.Ok? && Post(b, env, r).1.value.Some?
    ensures AllAsSubmitted(r.lines, Post(b, env, r).1.value.value.lines, env.scale)
  {
    DuplicateComesFirst(b, env, r);
    PostOutcome(b, env, r);
    PostVerdict(b, env, r);
    AcceptedAsSubmitted(env, r.lines, r.strict);
  }

  lemma {:induction false} EditedContents(b: Books, env: Env, id: int, date: Date, description: string,
                                          lines: seq<RawLine>)
    requires Inv(b) && Edit(b, env, id, date, description, lines).1.Ok?
    ensures HasEntry(b.entries, id) && ValidateLines(env, lines, true).Ok?
    ensures var (b', edited) := Edit(b, env, id, date, description, lines);
            var e, before := edited.value, b.entries[id - 1];
            && e.date == date && e.description == Take(description, 512)
            && e.lines == StoreAll(ValidateLines(env, lines, true).value)
            && e.id == before.id && e.key == before.key
            && e.sourceType == before.sourceType && e.sourceId == before.sourceId
            && PeriodKey(date) in b'.periods && b'.periods[PeriodKey(date)].id == e.periodId
  {
    EditOutcome(b, env, id, date, description, lines);
    EnsureOpenFinds(b, date, false);
  }

  /** And so is what an accepted edit leaves. */
  lemma {:induction false} EditedAsSubmitted(b: Books, env: Env, id: int, date: Date, description: string,
                                             lines: seq<RawLine>)
    requires Reachable(b) && Edit(b, env, id, date, description, lines).1.Ok?
    ensures AllAsSubmitted(lines, Edit(b, env, id, date, description, lines).1.value.lines, env.scale)
  {
    ReachableOk(b);
    EditedContents(b, env, id, date, description, lines);
    AcceptedAsSubmitted(env, lines, true);
  }

  /**
   The entry then has the date, description, lines and month that posting r' would have given it, and
   the id, key and source that posting r gave it.
   */
  lemma {:induction false} EditEqualsRepost(b: Books, env: Env, r: PostRequest, env': Env, r': PostRequest)
    requires Inv(b) && Reposts(b, env, r, r')
    requires Post(b, env', r').1.Ok? && EnsureOpen(b, r.date, false).1.Ok?
    ensures var (b1, posted) := Post(b, env, r);
            var reposted := Post(b, env', r').1;
            var (b2, edited) := Edit(b1, env', |b.entries| + 1, r'.date, r'.description, r'.lines);
            && edited.Ok? && reposted.value.Some?
            && var e, p, q := edited.value, posted.value.value, reposted.value.value;
            && e.date == q.date && e.description == q.description && e.lines == q.lines
            && e.id == p.id && e.key == p.key && e.sourceType == p.sourceType && e.sourceId == p.sourceId
            && PeriodKey(q.date) in b2.periods && b2.periods[PeriodKey(q.date)].id == e.periodId
  {
    EditAcceptedIffRepost(b, env, r, env', r');
    PostKeeps(b, env, r);
    NewEntryIsEditable(b, env, r);
    PostVerdict(b, env', r');
    EditedContents(Post(b, env, r).0, env', |b.entries| + 1, r'.date, r'.description, r'.lines);
  }

  // ----- When a reversal is possible -----

  /** Exactly when a reversal succeeds. */
  lemma {:induction false} ReverseSucceedsIff(b: Books, id: int, reason: Option<string>, date: Option<Date>,
                                              today: Date)
    ensures Reverse(b, id, reason, date, today).1.Ok? <==>
              && HasEntry(b.entries, id) && !Reversed(b.entries, id)
              && EnsureOpen(b, if date.Some? then date.value else today, true).1.Ok?
              && !KeyUsed(b.entries, ReversalKey(id))
  {
    ReverseOutcome(b, id, reason, date, today);
  }

  /** Which of several reasons against a reversal is given. */
  lemma {:induction false} ReverseRefusals(b: Books, id: int, reason: Option<string>, date: Option<Date>, today: Date)
    ensures var answer := Reverse(b, id, reason, date, today).1;
            var month := EnsureOpen(b, if date.Some? then date.value else today, true).1;
            if id < 1 || id > |b.entries| then answer == Err(EntryNotFound(id))
            else if Reversed(b.entries, id) then answer == Err(AlreadyReversed(id))
            else if month.Err? then answer == Err(month.error)
            else if KeyUsed(b.entries, ReversalKey(id)) then answer == Err(KeyTaken(ReversalKey(id)))
            else answer.Ok?
  {
    EnsureOpenOutcome(b, if date.Some? then date.value else today, true);
  }

  /** And which against an edit of something that is not an ordinary unreversed entry. */
  lemma {:induction false} EditRefusals(b: Books, env: Env, id: int, date: Date, description: string,
                                        lines: seq<RawLine>)
    ensures var answer := Edit(b, env, id, date, description, lines).1;
            if id < 1 || id > |b.entries| then answer == Err(EntryNotFound(id))
            else if b.entries[id - 1].sourceType == "journal_reversal" then answer == Err(EntryIsReversal)
            else Reversed(b.entries, id) ==> answer == Err(EntryIsReversed)
  {
  }

  const PREFIX := "journal_reversal:"

  predicate LooksLikeReversal(key: string) { PREFIX <= key }

  lemma {:induction false} ReversalKeysDiffer(m: int, n: int)
    requires m >= 0 && n >= 0
    ensures LooksLikeReversal(ReversalKey(m))
    ensures ReversalKey(m) == ReversalKey(n) ==> m == n
  {
    assert ReversalKey(m)[|PREFIX|..] == Decimal(m);
    assert ReversalKey(n)[|PREFIX|..] == Decimal(n);
    DecimalParses(m);
    DecimalParses(n);
  }

  ghost predicate OnlyReversalsLookIt(es: seq<Entry>)
  {
    forall i :: 0 <= i < |es| && LooksLikeReversal(es[i].key) ==> es[i].reverses.Some?
  }

  lemma {:induction false} LooksKept(b: Books, op: Op)
    requires AllPlaced(b.periods, b.entries) && OnlyReversalsLookIt(b.entries)
    requires op.PostOp? ==> !LooksLikeReversal(op.request.key)
    ensures OnlyReversalsLookIt(Apply(b, op).entries)
  {
    StepShape(b, op);
  }

  ghost predicate NoLookalikes(ops: seq<Op>)
  {
    forall n :: 0 <= n < |ops| && ops[n].PostOp? ==> !LooksLikeReversal(ops[n].request.key)
  }

  lemma {:induction false} LooksKeptOverRun(ops: seq<Op>)
    requires NoLookalikes(ops)
    ensures OnlyReversalsLookIt(Run(EMPTY, ops).entries)
  {
    if ops != [] {
      var n := |ops| - 1;
      LooksKeptOverRun(ops[..n]);
      ReachableInv(EMPTY, ops[..n]);
      LooksKept(Run(EMPTY, ops[..n]), ops[n]);
    }
  }

  lemma {:induction false} TakenMeansReversed(es: seq<Entry>, id: int)
    requires AllLinked(es) && OnlyReversalsLookIt(es) && HasEntry(es, id)
    requires KeyUsed(es, ReversalKey(id))
    ensures Reversed(es, id)
  {
    var i :| 0 <= i < |es| && es[i].key == ReversalKey(id);
    ReversalKeysDiffer(id, id);
    assert LinkOk(es, i);
    ReversalKeysDiffer(id, es[i].reverses.value);
  }

  /**
   When no post uses a key that looks like a reversal's, an unreversed entry can always be reversed
   into a month that is not closed.
   */
  lemma {:induction false} ReversalNeverBlocked(ops: seq<Op>, id: int, reason: Option<string>,
                                                date: Option<Date>, today: Date)
    requires NoLookalikes(ops)
    ensures var b := Run(EMPTY, ops);
            Reverse(b, id, reason, date, today).1.Ok? <==>
              && HasEntry(b.entries, id) && !Reversed(b.entries, id)
              && EnsureOpen(b, if date.Some? then date.value else today, true).1.Ok?
  {
    var b := Run(EMPTY, ops);
    ReverseSucceedsIff(b, id, reason, date, today);
    ReachableInv(EMPTY, ops);
    LooksKeptOverRun(ops);
    if HasEntry(b.entries, id) && KeyUsed(b.entries, ReversalKey(id)) {
      TakenMeansReversed(b.entries, id);
    }
  }

  // ----- A reversal blocked by another entry's key -----

  /** One amount from one account to another, in whole cents, on a given day. */
  function Transfer(key: string, day: Date): PostRequest
  {
    PostRequest(day, "", "manual", "", key, [Simple(100, 0), Simple(0, 100)], false, true)
  }

  lemma {:induction false} TransferIsValid(key: string, day: Date)
    ensures ValidateLines(Permissive(1), Transfer(key, day).lines, true).Ok?
  {
    PairVerdict(100, 0, 0, 100, 1);
  }

  lemma {:induction false} TransferPosts(b: Books, key: string, day: Date)
    requires !KeyUsed(b.entries, key) && EnsureOpen(b, day, false).1.Ok?
    ensures var (b', answer) := Post(b, Permissive(1), Transfer(key, day));
            && answer.Ok? && answer.value.Some?
            && b'.entries == b.entries + [answer.value.value]
            && answer.value.value.key == key && answer.value.value.reverses.None?
            && EnsureOpen(b', day, false).1.Ok? && EnsureOpen(b', day, true).1.Ok?
  {
    TransferIsValid(key, day);
    PostVerdict(b, Permissive(1), Transfer(key, day));
    PostOutcome(b, Permissive(1), Transfer(key, day));
  }

  lemma {:induction false} ReverseRefusesTakenKey(b: Books, id: int, today: Date)
    requires HasEntry(b.entries, id) && !Reversed(b.entries, id) && EnsureOpen(b, today, true).1.Ok?
    requires KeyUsed(b.entries, ReversalKey(id))
    ensures Reverse(b, id, None, None, today).1 == Err(KeyTaken(ReversalKey(id)))
  {
  }

  /**
   An entry that nobody has reversed cannot be reversed once an ordinary entry has been posted under
   the key its reversal would take.
   */
  lemma {:induction false} ReversalCanBeBlocked(day: Date)
    requires HasMonthBounds(day)
    ensures var env := Permissive(1);
            var b1 := Post(EMPTY, env, Transfer(ReversalKey(2), day)).0;
            var b2 := Post(b1, env, Transfer("k", day)).0;
            && HasEntry(b2.entries, 2) && !Reversed(b2.entries, 2)
            && EnsureOpen(b2, day, true).1.Ok?
            && Reverse(b2, 2, None, None, day).1 == Err(KeyTaken(ReversalKey(2)))
  {
    var env := Permissive(1);
    TransferPosts(EMPTY, ReversalKey(2), day);
    var b1 := Post(EMPTY, env, Transfer(ReversalKey(2), day)).0;
    assert ReversalKey(2)[0] == 'j';
    assert !KeyUsed(b1.entries, "k");
    TransferPosts(b1, "k", day);
    var b2 := Post(b1, env, Transfer("k", day)).0;
    assert b2.entries[0].key == ReversalKey(2);
    ReverseRefusesTakenKey(b2, 2, day);
  }
}
