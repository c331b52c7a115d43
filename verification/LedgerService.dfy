/** The posting services: the same operations carried out step by step on a mutable ledger. */
module LedgerService {
  import opened Prelude
  import opened Text
  import opened Calendar
  import opened Money
  import opened Journal
  import opened Ledger
  import opened Invariant

  /** `validate_accounts_for_journal_posting`: line by line, or over the accounts in order and once each. */
  method ValidateAccounts(env: Env, lines: seq<RawLine>, strict: bool) returns (r: Option<Error>)
    ensures r == ChartVerdict(env, lines, strict)
  {
    if strict {
      for i := 0 to |lines|
        invariant FirstLineRefused(env, lines, 0) == FirstLineRefused(env, lines, i)
      {
        var reason := env.checkLine(RefOf(lines[i]));
        if reason.Some? {
          return Some(LineRefused(i, reason.value));
        }
      }
      return None;
    }
    var ids: seq<int> := [];
    for i := 0 to |lines|
      invariant ids == AccountIds(lines[..i])
    {
      assert lines[..i + 1][..i] == lines[..i];
      ids := WithId(ids, lines[i].account);
    }
    assert lines[..|lines|] == lines;
    for i := 0 to |ids|
      invariant FirstAccountRefused(env, ids, 0) == FirstAccountRefused(env, ids, i)
    {
      var reason := env.checkAccount(ids[i]);
      if reason.Some? {
        return Some(AccountRefused(reason.value));
      }
    }
    return None;
  }

  lemma {:induction false} DraftsGrow(lines: seq<RawLine>, scale: Scale, i: nat)
    requires i < |lines|
    ensures var before, after := Drafts(lines, scale)[..i], Drafts(lines, scale)[..i + 1];
            && after == before + [MakeDraft(lines[i], scale, i)]
            && TotalDebit(after) == TotalDebit(before) + MakeDraft(lines[i], scale, i).debit
            && TotalCredit(after) == TotalCredit(before) + MakeDraft(lines[i], scale, i).credit
  {
    assert Drafts(lines, scale)[..i + 1][..i] == Drafts(lines, scale)[..i];
  }

  /** One turn of the loop over the submitted lines. */
  method NormalizeLine(ln: RawLine, scale: Scale, i: nat) returns (r: Result<Draft, Error>)
    ensures r == match AmountError(ln, scale, i) case Some(e) => Err(e) case None => Ok(MakeDraft(ln, scale, i))
  {
    var dr, cr := Cents(Given(ln.debit), scale), Cents(Given(ln.credit), scale);
    if dr < 0 || cr < 0 {
      return Err(NegativeAmount(i));
    }
    if (dr > 0 && cr > 0) || (dr == 0 && cr == 0) {
      return Err(NotOneSided(i));
    }
    return Ok(Line(
      i + 1, ln.account, ln.branch, dr, cr, ln.memo,
      if ln.currency.Some? && Strip(ln.currency.value) != "" then ln.currency else None,
      if ln.foreignAmount.Some? then Some(Cents(ln.foreignAmount.value, scale)) else None,
      ln.rate, ln.customer, ln.supplier, ln.employee));
  }

  /** A total of whole cents, rounded once more: the same total. */
  method Requantized(total: int, scale: Scale) returns (r: int)
    ensures r == total
  {
    WholeCentsFixed(total, scale);
    r := Cents(Units(total, scale), scale);
  }

  /**
   `_build_normalized_journal_lines`: one pass over the amounts, one over the currencies, and the
   balance check on totals that are rounded once more.
   */
  method BuildNormalizedJournalLines(env: Env, lines: seq<RawLine>, strict: bool)
    returns (r: Result<seq<Draft>, Error>)
    ensures r == ValidateLines(env, lines, strict)
  {
    if |lines| == 0 {
      return Err(NoLines);
    }
    var verdict := ValidateAccounts(env, lines, strict);
    if verdict.Some? {
      return Err(verdict.value);
    }

    var totalDr, totalCr := 0, 0;
    var normalized: seq<Draft> := [];
    for i := 0 to |lines|
      invariant normalized == Drafts(lines, env.scale)[..i]
      invariant totalDr == TotalDebit(normalized) && totalCr == TotalCredit(normalized)
      invariant FirstAmountError(lines, env.scale, 0) == FirstAmountError(lines, env.scale, i)
    {
      var ln := NormalizeLine(lines[i], env.scale, i);
      if ln.Err? {
        return Err(ln.error);
      }
      DraftsGrow(lines, env.scale, i);
      totalDr, totalCr := totalDr + ln.value.debit, totalCr + ln.value.credit;
      normalized := normalized + [ln.value];
    }
    assert normalized == Drafts(lines, env.scale);
    assert FirstAmountError(lines, env.scale, 0).None?;

    if env.baseCode.None? {
      return Err(NotConfigured);
    }
    var base := Strip(env.baseCode.value);
    for i := 0 to |normalized|
      invariant FirstCurrencyError(normalized, base, 0) == FirstCurrencyError(normalized, base, i)
    {
      var ln := normalized[i];
      if IsForeign(ln.currency, base) {
        if ln.foreignAmount.None? || ln.rate.None? {
          return Err(ForeignIncomplete(i, ln.currency.value));
        }
        if ln.rate.value <= 0 {
          return Err(RateNotPositive(i));
        }
      } else if ln.foreignAmount.Some? != ln.rate.Some? {
        return Err(HalfForeign(i));
      }
    }

    assert FirstCurrencyError(normalized, base, 0).None?;
    var dr := Requantized(totalDr, env.scale);
    var cr := Requantized(totalCr, env.scale);
    if dr != cr {
      return Err(Unbalanced(totalDr, totalCr));
    }
    return Ok(normalized);
  }

  /** The checks that `post_journal_entry` makes inline: the same ones, in a second copy. */
  method CheckPostedLines(env: Env, lines: seq<RawLine>, strict: bool)
    returns (answer: Result<seq<Draft>, Error>)
    ensures answer == ValidateLines(env, lines, strict)
  {
    if |lines| == 0 {
      return Err(NoLines);
    }
    var verdict := ValidateAccounts(env, lines, strict);
    if verdict.Some? {
      return Err(verdict.value);
    }

    var totalDr, totalCr := 0, 0;
    var normalized: seq<Draft> := [];
    for i := 0 to |lines|
      invariant normalized == Drafts(lines, env.scale)[..i]
      invariant totalDr == TotalDebit(normalized) && totalCr == TotalCredit(normalized)
      invariant FirstAmountError(lines, env.scale, 0) == FirstAmountError(lines, env.scale, i)
    {
      var ln := NormalizeLine(lines[i], env.scale, i);
      if ln.Err? {
        return Err(ln.error);
      }
      DraftsGrow(lines, env.scale, i);
      totalDr, totalCr := totalDr + ln.value.debit, totalCr + ln.value.credit;
      normalized := normalized + [ln.value];
    }
    assert normalized == Drafts(lines, env.scale);
    assert FirstAmountError(lines, env.scale, 0).None?;

    if env.baseCode.None? {
      return Err(NotConfigured);
    }
    var base := Strip(env.baseCode.value);
    for i := 0 to |normalized|
      invariant FirstCurrencyError(normalized, base, 0) == FirstCurrencyError(normalized, base, i)
    {
      var ln := normalized[i];
      if IsForeign(ln.currency, base) {
        if ln.foreignAmount.None? || ln.rate.None? {
          return Err(ForeignIncomplete(i, ln.currency.value));
        }
        if ln.rate.value <= 0 {
          return Err(RateNotPositive(i));
        }
      } else if ln.foreignAmount.Some? != ln.rate.Some? {
        return Err(HalfForeign(i));
      }
    }

    assert FirstCurrencyError(normalized, base, 0).None?;
    var dr := Requantized(totalDr, env.scale);
    var cr := Requantized(totalCr, env.scale);
    if dr != cr {
      return Err(Unbalanced(totalDr, totalCr));
    }
    return Ok(normalized);
  }

  /** The loop that writes normalized lines. */
  method StoreLines(normalized: seq<Draft>) returns (lines: seq<Stored>)
    ensures lines == StoreAll(normalized)
  {
    lines := [];
    for i := 0 to |normalized|
      invariant lines == StoreAll(normalized)[..i]
    {
      var ln := normalized[i];
      var code := "USD";
      if ln.currency.Some? && ln.currency.value != "" {
        code := Take(ln.currency.value, 3);
      }
      lines := lines + [Line(ln.lineNo, ln.account, ln.branch, ln.debit, ln.credit, ln.memo, code,
                             ln.foreignAmount, ln.rate, ln.customer, ln.supplier, ln.employee)];
    }
  }

  /** The loop that writes the lines of a reversal. */
  method MirrorLines(original: seq<Stored>) returns (lines: seq<Stored>)
    ensures lines == Mirror(original)
  {
    lines := [];
    for i := 0 to |original|
      invariant lines == Mirror(original)[..i]
    {
      var line := original[i];
      var code := "USD";
      if line.currency != "" {
        code := Take(line.currency, 3);
      }
      lines := lines + [Line(line.lineNo, line.account, line.branch, line.credit, line.debit,
                             Some("Reversal of line " + IntText(line.lineNo)), code,
                             line.foreignAmount, line.rate, None, None, None)];
    }
  }

  /** The position of the first entry with a key; |entries| when there is none. */
  method FindKey(entries: seq<Entry>, key: string) returns (at: nat)
    ensures at <= |entries| && (at < |entries| <==> KeyUsed(entries, key))
    ensures at < |entries| ==> entries[at].key == key
  {
    for i := 0 to |entries|
      invariant forall j :: 0 <= j < i ==> entries[j].key != key
    {
      if entries[i].key == key {
        return i;
      }
    }
    return |entries|;
  }

  class Service {
    var entries: seq<Entry>
    var periods: map<string, Period>

    function Contents(): Books
      reads this
    {
      Books(entries, periods)
    }

    /** The ledger is as some run of its operations left it. */
    ghost predicate Valid()
      reads this
    {
      Reachable(Contents())
    }

    constructor ()
      ensures Valid() && Contents() == EMPTY
    {
      entries, periods := [], map[];
      EmptyIsReachable();
    }

    method GetOrCreatePeriod(date: Date) returns (r: Result<Period, Error>)
      modifies this
      ensures (Contents(), r) == GetOrCreate(old(Contents()), date)
    {
      if !HasMonthBounds(date) {
        return Err(DateOutOfRange);
      }
      var span := MonthBounds(date);
      if span.key in periods {
        return Ok(periods[span.key]);
      }
      var period := Period(|periods| + 1, span.key, span.start, span.end, Open, None, None);
      periods := periods[span.key := period];
      return Ok(period);
    }

    method EnsurePeriodOpen(date: Date, allowInSoftClose: bool) returns (r: Result<Period, Error>)
      modifies this
      ensures (Contents(), r) == EnsureOpen(old(Contents()), date, allowInSoftClose)
    {
      r := GetOrCreatePeriod(date);
      if r.Ok? {
        var period := r.value;
        if period.status == Closed {
          r := Err(PeriodClosed(period.key));
        } else if period.status == SoftClosed && !allowInSoftClose {
          r := Err(PeriodSoftClosed(period.key));
        }
      }
    }

    method CanPostToPeriod(date: Date) returns (r: Result<Permission, Error>)
      modifies this
      ensures (Contents(), r) == CanPost(old(Contents()), date)
    {
      var period := GetOrCreatePeriod(date);
      match period
      case Err(e) => r := Err(e);
      case Ok(p) =>
        if p.status == Open {
          r := Ok(Permission(true, "Period is open"));
        } else if p.status == SoftClosed {
          r := Ok(Permission(false, "Period is soft-closed (only reversing journal entries may post)"));
        } else {
          r := Ok(Permission(false, "Period " + p.key + " is permanently closed"));
        }
    }

    method SetPeriodStatus(key: string, status: string, actor: int, now: int) returns (r: Result<Period, Error>)
      modifies this
      ensures (Contents(), r) == SetStatus(old(Contents()), key, status, actor, now)
    {
      if key !in periods {
        return Err(PeriodNotFound(key));
      }
      var wanted := ParseStatus(status);
      if wanted.None? {
        return Err(BadStatus(status));
      }
      var period := periods[key];
      if period.status == wanted.value {
        return Ok(period);
      }
      if wanted.value !in Successors(period.status) {
        return Err(BadTransition(key));
      }
      period := period.(status := wanted.value);
      if wanted.value == Closed {
        period := period.(closedAt := Some(now), closedBy := Some(actor));
      } else {
        period := period.(closedAt := None, closedBy := None);
      }
      periods := periods[key := period];
      return Ok(period);
    }

    /** `get_journal_by_idempotency`: there is never a second entry to find. */
    method GetJournalByIdempotency(key: string) returns (r: Option<Entry>)
      requires Valid()
      ensures r.Some? <==> KeyUsed(entries, key)
      ensures r.Some? ==>
                r.value in entries && r.value.key == key
                && forall i :: 0 <= i < |entries| && entries[i].key == key ==> entries[i] == r.value
    {
      ReachableKeysUnique(Contents());
      var at := FindKey(entries, key);
      r := if at < |entries| then Some(entries[at]) else None;
    }

    /** Whether some entry reverses this one. */
    method FindReversal(entryId: int) returns (found: bool)
      ensures found == Reversed(entries, entryId)
    {
      for i := 0 to |entries|
        invariant forall j :: 0 <= j < i ==> entries[j].reverses != Some(entryId)
      {
        if entries[i].reverses == Some(entryId) {
          return true;
        }
      }
      return false;
    }

    method PostJournalEntry(env: Env, r: PostRequest) returns (answer: Result<Option<Entry>, Error>)
      modifies this
      ensures (Contents(), answer) == Post(old(Contents()), env, r)
    {
      var existing := FindKey(entries, r.key);
      if existing < |entries| {
        return Ok(None);
      }
      var checked := CheckPostedLines(env, r.lines, r.strict);
      if checked.Err? {
        return Err(checked.error);
      }
      var normalized := checked.value;
      var period := EnsurePeriodOpen(r.date, r.allowSoft);
      if period.Err? {
        return Err(period.error);
      }
      var lines := StoreLines(normalized);
      var entry := Entry(|entries| + 1, r.date, Take(r.description, DESCRIPTION_LENGTH), r.sourceType,
                         r.sourceId, r.key, period.value.id, None, 0, [Batch(0, lines)], lines);
      PostSucceeds(old(Contents()), env, r, normalized, Contents(), period.value);
      entries := entries + [entry];
      return Ok(Some(entry));
    }

    /** What `update_journal_entry` does before it writes. */
    method CheckJournalEdit(env: Env, entryId: int, date: Date, description: string, lines: seq<RawLine>)
      returns (answer: Result<Revision, Error>)
      modifies this
      ensures (Contents(), answer) == CheckEdit(old(Contents()), env, entryId, date, description, lines)
    {
      if !HasEntry(entries, entryId) {
        return Err(EntryNotFound(entryId));
      }
      var je := entries[entryId - 1];
      if je.sourceType == REVERSAL {
        return Err(EntryIsReversal);
      }
      var reversed := FindReversal(entryId);
      if reversed {
        return Err(EntryIsReversed);
      }
      var own := EnsurePeriodOpen(je.date, false);
      if own.Err? {
        return Err(own.error);
      }
      var period := EnsurePeriodOpen(date, false);
      if period.Err? {
        return Err(period.error);
      }
      var normalized := BuildNormalizedJournalLines(env, lines, true);
      if normalized.Err? {
        return Err(normalized.error);
      }
      var stored := StoreLines(normalized.value);
      return Ok(Revision(je, date, Take(description, DESCRIPTION_LENGTH), period.value.id, stored));
    }

    method UpdateJournalEntry(env: Env, entryId: int, date: Date, description: string, lines: seq<RawLine>)
      returns (answer: Result<Entry, Error>)
      modifies this
      ensures (Contents(), answer) == Edit(old(Contents()), env, entryId, date, description, lines)
    {
      CheckedEntry(Contents(), env, entryId, date, description, lines);
      var checked := CheckJournalEdit(env, entryId, date, description, lines);
      if checked.Err? {
        return Err(checked.error);
      }
      var je := entries[entryId - 1];
      je := je.(rows := [], lines := []);
      je := je.(date := checked.value.date, description := checked.value.description,
                periodId := checked.value.periodId);
      je := je.(batch := je.batch + 1, rows := [Batch(je.batch + 1, checked.value.lines)],
                lines := checked.value.lines);
      assert je == Revise(entries[entryId - 1], checked.value);
      entries := entries[entryId - 1 := je];
      return Ok(je);
    }

    method ReverseJournalEntry(entryId: int, reason: Option<string>, reversalDate: Option<Date>, today: Date)
      returns (answer: Result<Entry, Error>)
      modifies this
      ensures (Contents(), answer) == Reverse(old(Contents()), entryId, reason, reversalDate, today)
    {
      if !HasEntry(entries, entryId) {
        return Err(EntryNotFound(entryId));
      }
      var original := entries[entryId - 1];
      var reversed := FindReversal(entryId);
      if reversed {
        return Err(AlreadyReversed(entryId));
      }
      var postingDate := if reversalDate.Some? then reversalDate.value else today;
      var committed := periods;
      var period := EnsurePeriodOpen(postingDate, true);
      if period.Err? {
        return Err(period.error);
      }
      var description := "Reversal of JE #" + IntText(entryId);
      if reason.Some? && reason.value != "" {
        description := description + " (" + reason.value + ")";
      }
      var key := ReversalKey(entryId);
      var clash := FindKey(entries, key);
      if clash < |entries| {
        // The unique constraint refuses the row and the transaction is rolled back.
        periods := committed;
        return Err(KeyTaken(key));
      }

      var lines := MirrorLines(original.lines);
      var reversal := Entry(|entries| + 1, postingDate, Take(description, DESCRIPTION_LENGTH), REVERSAL,
                            IntText(entryId), key, period.value.id, Some(entryId), 0, [Batch(0, lines)],
                            lines);
      assert reversal
             == PlannedEntry(entries, entryId, PlanOf(original, entryId, reason, postingDate, period.value.id));
      entries := entries + [reversal];
      return Ok(reversal);
    }

    /** Any of the operations, as the API dispatches them: the ledger stays reachable. */
    method Execute(op: Op)
      requires Valid()
      modifies this
      ensures Valid() && Contents() == Apply(old(Contents()), op)
    {
      ReachableStep(Contents(), op);
      match op
      case PostOp(env, r) => var _ := PostJournalEntry(env, r);
      case EditOp(env, id, date, description, lines) =>
        var _ := UpdateJournalEntry(env, id, date, description, lines);
      case ReverseOp(id, reason, date, today) => var _ := ReverseJournalEntry(id, reason, date, today);
      case StatusOp(key, status, actor, now) => var _ := SetPeriodStatus(key, status, actor, now);
      case EnsureOp(date, allowSoft) => var _ := EnsurePeriodOpen(date, allowSoft);
      case CanPostOp(date) => var _ := CanPostToPeriod(date);
    }
  }
}
