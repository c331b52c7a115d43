/** Journal lines: what a caller submits, what validation makes of it, and what is stored. */
module Journal {
  import opened Prelude
  import opened Text
  import opened Money

  /** Reasons for refusing a request, with the details the caller is given. */
  datatype Error =
    | NoLines
    | LineRefused(line: nat, reason: string)
    | AccountRefused(reason: string)
    | NegativeAmount(line: nat)
    | NotOneSided(line: nat)
    | NotConfigured
    | ForeignIncomplete(line: nat, code: string)
    | RateNotPositive(line: nat)
    | HalfForeign(line: nat)
    | Unbalanced(totalDebit: int, totalCredit: int)
    | DateOutOfRange
    | PeriodClosed(periodKey: string)
    | PeriodSoftClosed(periodKey: string)
    | EntryNotFound(entryId: int)
    | EntryIsReversal
    | EntryIsReversed
    | AlreadyReversed(entryId: int)
    | KeyTaken(idempotencyKey: string)
    | PeriodNotFound(periodKey: string)
    | BadStatus(status: string)
    | BadTransition(periodKey: string)

  /**
   A line as submitted, its amounts and rate in raw units (module Money). An amount that is None
   was not given and counts as zero.
   */
  datatype RawLine = RawLine(
    account: int, branch: int, debit: Option<int>, credit: Option<int>, memo: Option<string>,
    currency: Option<string>, foreignAmount: Option<int>, rate: Option<int>,
    customer: Option<int>, supplier: Option<int>, employee: Option<int>)

  /** A validated line; amounts are cents. C is the type of its currency code. */
  datatype Line<+C> = Line(
    lineNo: int, account: int, branch: int, debit: int, credit: int, memo: Option<string>,
    currency: C, foreignAmount: Option<int>, rate: Option<int>,
    customer: Option<int>, supplier: Option<int>, employee: Option<int>)

  /** Before storage the currency may still be missing. */
  type Draft = Line<Option<string>>

  type Stored = Line<string>

  datatype AccountRef = AccountRef(
    account: int, customer: Option<int>, supplier: Option<int>, employee: Option<int>)

  /**
   What a request is validated against: the scale of its amounts; the chart of accounts, as what it has
   against a line's account and party (strict) or against a bare account; and the base currency once
   accounting is configured.
   */
  datatype Env = Env(
    scale: Scale,
    checkLine: AccountRef -> Option<string>,
    checkAccount: int -> Option<string>,
    baseCode: Option<string>)

  function Given(amount: Option<int>): int { if amount.Some? then amount.value else 0 }

  // ----- The chart of accounts -----

  /** What the strict check is asked about a line. */
  function RefOf(l: RawLine): AccountRef { AccountRef(l.account, l.customer, l.supplier, l.employee) }

  /** The first line from position i on that the chart refuses. */
  function FirstLineRefused(env: Env, lines: seq<RawLine>, i: nat): Option<Error>
    requires i <= |lines|
    decreases |lines| - i
  {
    if i == |lines| then None
    else
      var reason := env.checkLine(RefOf(lines[i]));
      if reason.Some? then Some(LineRefused(i, reason.value)) else FirstLineRefused(env, lines, i + 1)
  }

  /** Adds an id to ids in increasing order, once. */
  function WithId(ids: seq<int>, id: int): seq<int>
  {
    if ids == [] then [id]
    else if ids[|ids| - 1] < id then ids + [id]
    else if ids[|ids| - 1] == id then ids
    else WithId(ids[..|ids| - 1], id) + [ids[|ids| - 1]]
  }

  /** `sorted({...})` over the accounts of the lines. */
  function AccountIds(lines: seq<RawLine>): seq<int>
  {
    if lines == [] then [] else WithId(AccountIds(lines[..|lines| - 1]), lines[|lines| - 1].account)
  }

  /** The first account from position i on that the chart refuses. */
  function FirstAccountRefused(env: Env, ids: seq<int>, i: nat): Option<Error>
    requires i <= |ids|
    decreases |ids| - i
  {
    if i == |ids| then None
    else
      var reason := env.checkAccount(ids[i]);
      if reason.Some? then Some(AccountRefused(reason.value)) else FirstAccountRefused(env, ids, i + 1)
  }

  /** `validate_accounts_for_journal_posting` */
  function ChartVerdict(env: Env, lines: seq<RawLine>, strict: bool): Option<Error>
  {
    if strict then FirstLineRefused(env, lines, 0) else FirstAccountRefused(env, AccountIds(lines), 0)
  }

  predicate ChartTakes(env: Env, l: RawLine, strict: bool)
  {
    if strict then env.checkLine(AccountRef(l.account, l.customer, l.supplier, l.employee)).None?
    else env.checkAccount(l.account).None?
  }

  lemma {:induction false} FirstLineRefusedIsFirst(env: Env, lines: seq<RawLine>, i: nat)
    requires i <= |lines|
    ensures var e := FirstLineRefused(env, lines, i);
            if e.None? then forall k :: i <= k < |lines| ==> ChartTakes(env, lines[k], true)
            else
              && e.value.LineRefused? && i <= e.value.line < |lines|
              && env.checkLine(RefOf(lines[e.value.line])) == Some(e.value.reason)
              && forall k :: i <= k < e.value.line ==> ChartTakes(env, lines[k], true)
    decreases |lines| - i
  {
    if i < |lines| {
      FirstLineRefusedIsFirst(env, lines, i + 1);
    }
  }

  predicate Increasing(ids: seq<int>) { forall i, j :: 0 <= i < j < |ids| ==> ids[i] < ids[j] }

  lemma {:induction false} WithIdMeaning(ids: seq<int>, id: int)
    requires Increasing(ids)
    ensures Increasing(WithId(ids, id))
    ensures forall x :: x in WithId(ids, id) <==> x in ids || x == id
  {
    if ids != [] && ids[|ids| - 1] > id {
      var n := |ids| - 1;
      assert ids == ids[..n] + [ids[n]];
      WithIdMeaning(ids[..n], id);
      var r := WithId(ids[..n], id);
      assert forall k :: 0 <= k < |r| ==> r[k] in r;
    }
  }

  predicate Names(lines: seq<RawLine>, account: int)
  {
    exists k :: 0 <= k < |lines| && lines[k].account == account
  }

  lemma {:induction false} NamesOneMore(lines: seq<RawLine>, account: int)
    requires lines != []
    ensures Names(lines, account) <==> Names(lines[..|lines| - 1], account) || lines[|lines| - 1].account == account
  {
    var n := |lines| - 1;
    if Names(lines[..n], account) {
      var k :| 0 <= k < n && lines[..n][k].account == account;
      assert lines[k].account == account;
    }
    if Names(lines, account) && lines[n].account != account {
      var k :| 0 <= k < |lines| && lines[k].account == account;
      assert lines[..n][k].account == account;
    }
  }

  /** The ids are the accounts that the lines name, in order and once each. */
  lemma {:induction false} AccountIdsMeaning(lines: seq<RawLine>)
    ensures Increasing(AccountIds(lines))
    ensures forall x :: x in AccountIds(lines) <==> Names(lines, x)
  {
    if lines != [] {
      var n := |lines| - 1;
      AccountIdsMeaning(lines[..n]);
      WithIdMeaning(AccountIds(lines[..n]), lines[n].account);
      forall x
        ensures x in AccountIds(lines) <==> Names(lines, x)
      {
        NamesOneMore(lines, x);
      }
    }
  }

  ghost predicate FirstRefused(env: Env, ids: seq<int>, i: nat, k: nat)
  {
    && i <= k < |ids| && env.checkAccount(ids[k]).Some?
    && forall l :: i <= l < k ==> env.checkAccount(ids[l]).None?
  }

  lemma {:induction false} FirstAccountRefusedIsFirst(env: Env, ids: seq<int>, i: nat) returns (k: nat)
    requires i <= |ids|
    ensures var e := FirstAccountRefused(env, ids, i);
            if e.None? then forall l :: i <= l < |ids| ==> env.checkAccount(ids[l]).None?
            else FirstRefused(env, ids, i, k) && e == Some(AccountRefused(env.checkAccount(ids[k]).value))
    decreases |ids| - i
  {
    k := i;
    if i < |ids| && env.checkAccount(ids[i]).None? {
      k := FirstAccountRefusedIsFirst(env, ids, i + 1);
    }
  }

  /** The chart has nothing against a batch exactly when it has nothing against any line. */
  lemma {:induction false} ChartTakesAllIff(env: Env, lines: seq<RawLine>, strict: bool)
    ensures ChartVerdict(env, lines, strict).None? <==>
              forall k :: 0 <= k < |lines| ==> ChartTakes(env, lines[k], strict)
  {
    if strict {
      FirstLineRefusedIsFirst(env, lines, 0);
    } else {
      var ids := AccountIds(lines);
      AccountIdsMeaning(lines);
      var at := FirstAccountRefusedIsFirst(env, ids, 0);
      if ChartVerdict(env, lines, strict).None? {
        forall k | 0 <= k < |lines|
          ensures ChartTakes(env, lines[k], strict)
        {
          assert Names(lines, lines[k].account);
        }
      } else {
        assert Names(lines, ids[at]);
        var k :| 0 <= k < |lines| && lines[k].account == ids[at];
        assert !ChartTakes(env, lines[k], strict);
      }
    }
  }

  lemma {:induction false} ChartErrorKind(env: Env, lines: seq<RawLine>, strict: bool)
    requires ChartVerdict(env, lines, strict).Some?
    ensures var e := ChartVerdict(env, lines, strict).value;
            if strict then e.LineRefused? else e.AccountRefused?
  {
    if strict {
      FirstLineRefusedIsFirst(env, lines, 0);
    } else {
      var _ := FirstAccountRefusedIsFirst(env, AccountIds(lines), 0);
    }
  }

  /** A loose check reports the least account that the chart refuses. */
  lemma {:induction false} LeastAccountReported(env: Env, lines: seq<RawLine>)
    requires ChartVerdict(env, lines, false).Some?
    ensures exists k :: 0 <= k < |lines|
              && !ChartTakes(env, lines[k], false)
              && ChartVerdict(env, lines, false) == Some(AccountRefused(env.checkAccount(lines[k].account).value))
              && forall l :: 0 <= l < |lines| && !ChartTakes(env, lines[l], false) ==>
                   lines[k].account <= lines[l].account
  {
    var ids := AccountIds(lines);
    AccountIdsMeaning(lines);
    var at := FirstAccountRefusedIsFirst(env, ids, 0);
    assert Names(lines, ids[at]);
    var k :| 0 <= k < |lines| && lines[k].account == ids[at];
    forall l | 0 <= l < |lines| && !ChartTakes(env, lines[l], false)
      ensures lines[k].account <= lines[l].account
    {
      assert Names(lines, lines[l].account);
      var m :| 0 <= m < |ids| && ids[m] == lines[l].account;
    }
    assert !ChartTakes(env, lines[k], false);
  }

  // ----- Validation, as a specification -----

  function AmountError(l: RawLine, scale: Scale, i: nat): Option<Error>
  {
    var dr, cr := Cents(Given(l.debit), scale), Cents(Given(l.credit), scale);
    if dr < 0 || cr < 0 then Some(NegativeAmount(i))
    else if (dr > 0 && cr > 0) || (dr == 0 && cr == 0) then Some(NotOneSided(i))
    else None
  }

  /** The first amount error among the lines from position i on. */
  function FirstAmountError(lines: seq<RawLine>, scale: Scale, i: nat): Option<Error>
    requires i <= |lines|
    decreases |lines| - i
  {
    if i == |lines| then None
    else if AmountError(lines[i], scale, i).Some? then AmountError(lines[i], scale, i)
    else FirstAmountError(lines, scale, i + 1)
  }

  function MakeDraft(l: RawLine, scale: Scale, i: nat): Draft
  {
    Line(i + 1, l.account, l.branch, Cents(Given(l.debit), scale), Cents(Given(l.credit), scale), l.memo,
         if l.currency.Some? && Strip(l.currency.value) != "" then l.currency else None,
         if l.foreignAmount.Some? then Some(Cents(l.foreignAmount.value, scale)) else None,
         l.rate, l.customer, l.supplier, l.employee)
  }

  function Drafts(lines: seq<RawLine>, scale: Scale): (ds: seq<Draft>)
    ensures |ds| == |lines|
  {
    seq(|lines|, i requires 0 <= i < |lines| => MakeDraft(lines[i], scale, i))
  }

  predicate IsForeign(code: Option<string>, base: string)
  {
    code.Some? && Strip(code.value) != "" && Upper(Strip(code.value)) != Upper(base)
  }

  function CurrencyError(d: Draft, base: string, i: nat): Option<Error>
  {
    if IsForeign(d.currency, base) then
      if d.foreignAmount.None? || d.rate.None? then Some(ForeignIncomplete(i, d.currency.value))
      else if d.rate.value <= 0 then Some(RateNotPositive(i))
      else None
    else if d.foreignAmount.Some? != d.rate.Some? then Some(HalfForeign(i))
    else None
  }

  function FirstCurrencyError(ds: seq<Draft>, base: string, i: nat): Option<Error>
    requires i <= |ds|
    decreases |ds| - i
  {
    if i == |ds| then None
    else if CurrencyError(ds[i], base, i).Some? then CurrencyError(ds[i], base, i)
    else FirstCurrencyError(ds, base, i + 1)
  }

  function TotalDebit<C>(lines: seq<Line<C>>): int
  {
    if lines == [] then 0 else TotalDebit(lines[..|lines| - 1]) + lines[|lines| - 1].debit
  }

  function TotalCredit<C>(lines: seq<Line<C>>): int
  {
    if lines == [] then 0 else TotalCredit(lines[..|lines| - 1]) + lines[|lines| - 1].credit
  }

  /** The verdict on a submitted batch: its first error in the services' order, or its lines. */
  function ValidateLines(env: Env, lines: seq<RawLine>, strict: bool): Result<seq<Draft>, Error>
  {
    var ds := Drafts(lines, env.scale);
    var verdict := ChartVerdict(env, lines, strict);
    if |lines| == 0 then Err(NoLines)
    else if verdict.Some? then Err(verdict.value)
    else if FirstAmountError(lines, env.scale, 0).Some? then Err(FirstAmountError(lines, env.scale, 0).value)
    else if env.baseCode.None? then Err(NotConfigured)
    else
      var currency := FirstCurrencyError(ds, Strip(env.baseCode.value), 0);
      if currency.Some? then Err(currency.value)
      else if TotalDebit(ds) != TotalCredit(ds) then Err(Unbalanced(TotalDebit(ds), TotalCredit(ds)))
      else Ok(ds)
  }

  /** How a draft is written: the code cut to three characters, the column default when missing. */
  function Store(d: Draft): Stored
  {
    Line(d.lineNo, d.account, d.branch, d.debit, d.credit, d.memo,
         if d.currency.Some? && d.currency.value != "" then Take(d.currency.value, 3) else "USD",
         d.foreignAmount, d.rate, d.customer, d.supplier, d.employee)
  }

  function StoreAll(ds: seq<Draft>): (ls: seq<Stored>)
    ensures |ls| == |ds|
  {
    seq(|ds|, i requires 0 <= i < |ds| => Store(ds[i]))
  }

  // ----- What validation accepts -----

  /** On raw amounts: one side over half a cent, the other at most half a cent either way. */
  predicate AmountsInRange(l: RawLine, scale: Scale)
  {
    var dr := if l.debit.Some? then l.debit.value else 0;
    var cr := if l.credit.Some? then l.credit.value else 0;
    (2 * dr > scale && 2 * Abs(cr) <= scale) || (2 * cr > scale && 2 * Abs(dr) <= scale)
  }

  /** The trimmed code of the line is there and is not, letter by letter, that of the base currency. */
  predicate NamesOther(l: RawLine, base: string)
  {
    l.currency.Some? && Strip(l.currency.value) != "" && !SameLetters(Strip(l.currency.value), base)
  }

  /** A line in another currency needs its amount and a positive rate; others have both or neither. */
  predicate CurrencyComplete(l: RawLine, base: string)
  {
    if NamesOther(l, base)
    then l.foreignAmount.Some? && l.rate.Some? && l.rate.value > 0
    else l.foreignAmount.Some? <==> l.rate.Some?
  }

  lemma {:induction false} LineThreshold(l: RawLine, scale: Scale, i: nat)
    ensures AmountError(l, scale, i).None? <==> AmountsInRange(l, scale)
    ensures AmountError(l, scale, i) == Some(NegativeAmount(i)) <==>
              2 * -Given(l.debit) > scale || 2 * -Given(l.credit) > scale
  {
    SignThresholds(Given(l.debit), scale);
    SignThresholds(Given(l.credit), scale);
  }

  /** What is wrong with a line's currency details, if anything. */
  lemma {:induction false} LineCurrency(l: RawLine, scale: Scale, base: string, i: nat)
    ensures CurrencyError(MakeDraft(l, scale, i), base, i).None? <==> CurrencyComplete(l, base)
    ensures !CurrencyComplete(l, base) ==>
              CurrencyError(MakeDraft(l, scale, i), base, i)
              == Some(if !NamesOther(l, base) then HalfForeign(i)
                      else if l.foreignAmount.None? || l.rate.None? then ForeignIncomplete(i, l.currency.value)
                      else RateNotPositive(i))
  {
    if l.currency.Some? {
      UpperComparesLetters(Strip(l.currency.value), base);
    }
  }

  /** The reported amount error is that of the first line out of range. */
  lemma {:induction false} FirstAmountErrorIsFirst(lines: seq<RawLine>, scale: Scale, i: nat)
    requires i <= |lines|
    ensures var e := FirstAmountError(lines, scale, i);
            if e.None? then forall k :: i <= k < |lines| ==> AmountsInRange(lines[k], scale)
            else
              && (e.value.NegativeAmount? || e.value.NotOneSided?)
              && i <= e.value.line < |lines|
              && !AmountsInRange(lines[e.value.line], scale)
              && e == AmountError(lines[e.value.line], scale, e.value.line)
              && forall k :: i <= k < e.value.line ==> AmountsInRange(lines[k], scale)
    decreases |lines| - i
  {
    if i < |lines| {
      LineThreshold(lines[i], scale, i);
      FirstAmountErrorIsFirst(lines, scale, i + 1);
    }
  }

  /** Likewise for currency errors. */
  lemma {:induction false} FirstCurrencyErrorIsFirst(lines: seq<RawLine>, scale: Scale, base: string, i: nat)
    requires i <= |lines|
    ensures var e := FirstCurrencyError(Drafts(lines, scale), base, i);
            if e.None? then forall k :: i <= k < |lines| ==> CurrencyComplete(lines[k], base)
            else
              && (e.value.ForeignIncomplete? || e.value.RateNotPositive? || e.value.HalfForeign?)
              && i <= e.value.line < |lines|
              && !CurrencyComplete(lines[e.value.line], base)
              && e == CurrencyError(Drafts(lines, scale)[e.value.line], base, e.value.line)
              && forall k :: i <= k < e.value.line ==> CurrencyComplete(lines[k], base)
    decreases |lines| - i
  {
    if i < |lines| {
      LineCurrency(lines[i], scale, base, i);
      FirstCurrencyErrorIsFirst(lines, scale, base, i + 1);
    }
  }

  /** Exactly which batches are accepted, on the raw request. */
  lemma {:induction false} AcceptedIff(env: Env, lines: seq<RawLine>, strict: bool)
    ensures ValidateLines(env, lines, strict).Ok? <==>
              && lines != []
              && (forall k :: 0 <= k < |lines| ==> ChartTakes(env, lines[k], strict))
              && (forall k :: 0 <= k < |lines| ==> AmountsInRange(lines[k], env.scale))
              && env.baseCode.Some?
              && (forall k :: 0 <= k < |lines| ==> CurrencyComplete(lines[k], Strip(env.baseCode.value)))
              && TotalDebit(Drafts(lines, env.scale)) == TotalCredit(Drafts(lines, env.scale))
  {
    ChartTakesAllIff(env, lines, strict);
    FirstAmountErrorIsFirst(lines, env.scale, 0);
    if env.baseCode.Some? {
      FirstCurrencyErrorIsFirst(lines, env.scale, Strip(env.baseCode.value), 0);
    }
  }

  /** Exactly one side of the line is positive and the other is zero. */
  predicate OneSided<C>(l: Line<C>)
  {
    (l.debit > 0 && l.credit == 0) || (l.debit == 0 && l.credit > 0)
  }

  /** What every stored batch looks like. */
  ghost predicate WellFormed(lines: seq<Stored>)
  {
    && lines != []
    && (forall i :: 0 <= i < |lines| ==>
          lines[i].lineNo == i + 1 && OneSided(lines[i]) && 1 <= |lines[i].currency| <= 3)
    && TotalDebit(lines) == TotalCredit(lines)
  }

  lemma {:induction false} TotalsAdd(ls: seq<Stored>, ms: seq<Stored>)
    ensures TotalDebit(ls + ms) == TotalDebit(ls) + TotalDebit(ms)
    ensures TotalCredit(ls + ms) == TotalCredit(ls) + TotalCredit(ms)
  {
    if ms == [] {
      assert ls + ms == ls;
    } else {
      var n := |ms| - 1;
      assert (ls + ms)[..|ls + ms| - 1] == ls + ms[..n];
      TotalsAdd(ls, ms[..n]);
    }
  }

  lemma {:induction false} StoringKeepsTotals(ds: seq<Draft>)
    ensures TotalDebit(StoreAll(ds)) == TotalDebit(ds)
    ensures TotalCredit(StoreAll(ds)) == TotalCredit(ds)
  {
    if ds != [] {
      var n := |ds| - 1;
      assert StoreAll(ds)[..n] == StoreAll(ds[..n]);
      StoringKeepsTotals(ds[..n]);
    }
  }

  lemma {:induction false} AcceptedIsWellFormed(env: Env, lines: seq<RawLine>, strict: bool)
    requires ValidateLines(env, lines, strict).Ok?
    ensures WellFormed(StoreAll(ValidateLines(env, lines, strict).value))
  {
    var ds := Drafts(lines, env.scale);
    StoringKeepsTotals(ds);
    AcceptedIff(env, lines, strict);
    forall i | 0 <= i < |ds|
      ensures OneSided(StoreAll(ds)[i]) && 1 <= |StoreAll(ds)[i].currency| <= 3
    {
      SignThresholds(Given(lines[i].debit), env.scale);
      SignThresholds(Given(lines[i].credit), env.scale);
      assert AmountsInRange(lines[i], env.scale);
      assert Strip("") == "";
    }
  }

  // ----- What becomes of a submitted batch -----

  /** The cents that a submitted amount comes to; one that was not given comes to nothing. */
  function CentsOf(amount: Option<int>, scale: Scale): int
  {
    if amount.Some? then Cents(amount.value, scale) else 0
  }

  lemma {:induction false} GivenInCents(amount: Option<int>, scale: Scale)
    ensures Cents(Given(amount), scale) == CentsOf(amount, scale)
  {
    WholeCentsFixed(0, scale);
  }

  /** The code that a line is stored with: the first three characters of the one given, if it is not blank. */
  ghost predicate CodeAsSubmitted(submitted: Option<string>, stored: string)
  {
    if submitted.None? || Blank(submitted.value) then stored == "USD"
    else stored <= submitted.value && (|stored| == 3 || (|stored| < 3 && stored == submitted.value))
  }

  /** Stored line k is the submitted one: numbered, in cents, with its code cut, otherwise as it was. */
  ghost predicate AsSubmitted(raw: RawLine, l: Stored, scale: Scale, k: nat)
  {
    && l.lineNo == k + 1 && l.account == raw.account && l.branch == raw.branch && l.memo == raw.memo
    && l.debit == CentsOf(raw.debit, scale) && l.credit == CentsOf(raw.credit, scale)
    && l.customer == raw.customer && l.supplier == raw.supplier && l.employee == raw.employee
    && l.rate == raw.rate && CodeAsSubmitted(raw.currency, l.currency)
    && (l.foreignAmount.Some? <==> raw.foreignAmount.Some?)
    && (raw.foreignAmount.Some? ==> l.foreignAmount.value == Cents(raw.foreignAmount.value, scale))
  }

  lemma {:induction false} CodeIsKept(d: Draft, submitted: Option<string>)
    requires d.currency == if submitted.Some? && Strip(submitted.value) != "" then submitted else None
    ensures CodeAsSubmitted(submitted, Store(d).currency)
  {
    if submitted.Some? {
      NothingLeftIff(submitted.value);
    }
  }

  lemma {:induction false} StoredAsSubmitted(lines: seq<RawLine>, scale: Scale, k: nat)
    requires k < |lines|
    ensures AsSubmitted(lines[k], StoreAll(Drafts(lines, scale))[k], scale, k)
  {
    GivenInCents(lines[k].debit, scale);
    GivenInCents(lines[k].credit, scale);
    CodeIsKept(MakeDraft(lines[k], scale, k), lines[k].currency);
  }

  ghost predicate AllAsSubmitted(lines: seq<RawLine>, stored: seq<Stored>, scale: Scale)
  {
    |stored| == |lines| && forall k: nat :: k < |lines| ==> AsSubmitted(lines[k], stored[k], scale, k)
  }

  lemma {:induction false} AllStoredAsSubmitted(lines: seq<RawLine>, scale: Scale)
    ensures AllAsSubmitted(lines, StoreAll(Drafts(lines, scale)), scale)
  {
    forall k: nat | k < |lines|
      ensures AsSubmitted(lines[k], StoreAll(Drafts(lines, scale))[k], scale, k)
    {
      StoredAsSubmitted(lines, scale, k);
    }
  }

  /** The lines made of an accepted batch are the submitted ones. */
  lemma {:induction false} AcceptedAsSubmitted(env: Env, lines: seq<RawLine>, strict: bool)
    requires ValidateLines(env, lines, strict).Ok?
    ensures AllAsSubmitted(lines, StoreAll(ValidateLines(env, lines, strict).value), env.scale)
  {
    AllStoredAsSubmitted(lines, env.scale);
  }

  /** The cents submitted on the debit side, and on the credit side. */
  function CentsDebit(lines: seq<RawLine>, scale: Scale): int
  {
    if lines == [] then 0
    else CentsDebit(lines[..|lines| - 1], scale) + CentsOf(lines[|lines| - 1].debit, scale)
  }

  function CentsCredit(lines: seq<RawLine>, scale: Scale): int
  {
    if lines == [] then 0
    else CentsCredit(lines[..|lines| - 1], scale) + CentsOf(lines[|lines| - 1].credit, scale)
  }

  lemma {:induction false} TotalsAsSubmitted(lines: seq<RawLine>, scale: Scale)
    ensures TotalDebit(Drafts(lines, scale)) == CentsDebit(lines, scale)
    ensures TotalCredit(Drafts(lines, scale)) == CentsCredit(lines, scale)
  {
    if lines != [] {
      var n := |lines| - 1;
      TotalsAsSubmitted(lines[..n], scale);
      assert Drafts(lines, scale)[..n] == Drafts(lines[..n], scale);
      GivenInCents(lines[n].debit, scale);
      GivenInCents(lines[n].credit, scale);
    }
  }

  // ----- The order of errors -----

  predicate IsNegative(amount: Option<int>, scale: Scale) { amount.Some? && 2 * -amount.value > scale }

  /** Line k is the first whose amounts are out of range, and e says in which way. */
  ghost predicate BadAmountsAt(lines: seq<RawLine>, scale: Scale, k: nat, e: Error)
  {
    && k < |lines| && !AmountsInRange(lines[k], scale)
    && (forall i :: 0 <= i < k ==> AmountsInRange(lines[i], scale))
    && e == (if IsNegative(lines[k].debit, scale) || IsNegative(lines[k].credit, scale)
             then NegativeAmount(k) else NotOneSided(k))
  }

  /** Line k is the first whose currency details are incomplete, and e says in which way. */
  ghost predicate BadCurrencyAt(lines: seq<RawLine>, base: string, k: nat, e: Error)
  {
    && k < |lines| && !CurrencyComplete(lines[k], base)
    && (forall i :: 0 <= i < k ==> CurrencyComplete(lines[i], base))
    && e == (if !NamesOther(lines[k], base) then HalfForeign(k)
             else if lines[k].foreignAmount.Some? && lines[k].rate.Some? then RateNotPositive(k)
             else ForeignIncomplete(k, lines[k].currency.value))
  }

  lemma {:induction false} AmountErrorReported(lines: seq<RawLine>, scale: Scale) returns (at: nat)
    requires !(forall k :: 0 <= k < |lines| ==> AmountsInRange(lines[k], scale))
    ensures FirstAmountError(lines, scale, 0).Some?
    ensures BadAmountsAt(lines, scale, at, FirstAmountError(lines, scale, 0).value)
  {
    FirstAmountErrorIsFirst(lines, scale, 0);
    at := FirstAmountError(lines, scale, 0).value.line;
    LineThreshold(lines[at], scale, at);
  }

  lemma {:induction false} CurrencyErrorReported(lines: seq<RawLine>, scale: Scale, base: string) returns (at: nat)
    requires !(forall k :: 0 <= k < |lines| ==> CurrencyComplete(lines[k], base))
    ensures FirstCurrencyError(Drafts(lines, scale), base, 0).Some?
    ensures BadCurrencyAt(lines, base, at, FirstCurrencyError(Drafts(lines, scale), base, 0).value)
  {
    FirstCurrencyErrorIsFirst(lines, scale, base, 0);
    at := FirstCurrencyError(Drafts(lines, scale), base, 0).value.line;
    LineCurrency(lines[at], scale, base, at);
  }

  /** The chart has nothing against any line. */
  ghost predicate ChartTakesAll(env: Env, lines: seq<RawLine>, strict: bool)
  {
    forall k :: 0 <= k < |lines| ==> ChartTakes(env, lines[k], strict)
  }

  ghost predicate AllInRange(env: Env, lines: seq<RawLine>)
  {
    forall k :: 0 <= k < |lines| ==> AmountsInRange(lines[k], env.scale)
  }

  ghost predicate AllComplete(lines: seq<RawLine>, base: string)
  {
    forall k :: 0 <= k < |lines| ==> CurrencyComplete(lines[k], base)
  }

  /**
   Which of several errors is reported: no lines before the chart's, that before the first line with amounts
   out of range, that before a missing base currency, that before the first line with incomplete currency
   details, and that before the balance, which is told with the two totals. `at` is the line.
   */
  lemma {:induction false} VerdictOrder(env: Env, lines: seq<RawLine>, strict: bool) returns (at: nat)
    ensures var answer := ValidateLines(env, lines, strict);
            if lines == [] then answer == Err(NoLines)
            else if !ChartTakesAll(env, lines, strict) then
              answer.Err? && (if strict then answer.error.LineRefused? else answer.error.AccountRefused?)
            else if !AllInRange(env, lines) then
              answer.Err? && BadAmountsAt(lines, env.scale, at, answer.error)
            else if env.baseCode.None? then answer == Err(NotConfigured)
            else if !AllComplete(lines, Strip(env.baseCode.value)) then
              answer.Err? && BadCurrencyAt(lines, Strip(env.baseCode.value), at, answer.error)
            else if CentsDebit(lines, env.scale) != CentsCredit(lines, env.scale) then
              answer == Err(Unbalanced(CentsDebit(lines, env.scale), CentsCredit(lines, env.scale)))
            else answer.Ok?
  {
    at := 0;
    ChartTakesAllIff(env, lines, strict);
    TotalsAsSubmitted(lines, env.scale);
    if !ChartTakesAll(env, lines, strict) {
      ChartErrorKind(env, lines, strict);
    } else if !AllInRange(env, lines) {
      at := AmountErrorReported(lines, env.scale);
    } else {
      FirstAmountErrorIsFirst(lines, env.scale, 0);
      if env.baseCode.Some? {
        var base := Strip(env.baseCode.value);
        if AllComplete(lines, base) {
          FirstCurrencyErrorIsFirst(lines, env.scale, base, 0);
        } else {
          at := CurrencyErrorReported(lines, env.scale, base);
        }
      }
    }
  }

  // ----- Rounding over a whole batch -----

  function RawDebit(lines: seq<RawLine>): int
  {
    if lines == [] then 0 else RawDebit(lines[..|lines| - 1]) + Given(lines[|lines| - 1].debit)
  }

  function RawCredit(lines: seq<RawLine>): int
  {
    if lines == [] then 0 else RawCredit(lines[..|lines| - 1]) + Given(lines[|lines| - 1].credit)
  }

  /** Every line's unused side was exactly zero. */
  ghost predicate UnusedSideZero(lines: seq<RawLine>)
  {
    forall k :: 0 <= k < |lines| ==> Given(lines[k].debit) == 0 || Given(lines[k].credit) == 0
  }

  /** The error that rounding makes on the difference of the two sides. */
  function RoundingGap(lines: seq<RawLine>, scale: Scale): int
  {
    RawDebit(lines) - RawCredit(lines)
    - Units(TotalDebit(Drafts(lines, scale)) - TotalCredit(Drafts(lines, scale)), scale)
  }

  /** The error that rounding makes on one line. */
  function LineGap(l: RawLine, scale: Scale): int
  {
    (Given(l.debit) - Units(Cents(Given(l.debit), scale), scale))
    - (Given(l.credit) - Units(Cents(Given(l.credit), scale), scale))
  }

  lemma {:induction false} LineGapBound(l: RawLine, scale: Scale)
    ensures Abs(LineGap(l, scale)) <= scale
    ensures Given(l.debit) == 0 || Given(l.credit) == 0 ==> 2 * Abs(LineGap(l, scale)) <= scale
  {
    CentsError(Given(l.debit), scale);
    CentsError(Given(l.credit), scale);
    WholeCentsFixed(0, scale);
  }

  lemma {:induction false} GapOfLast(lines: seq<RawLine>, scale: Scale)
    requires lines != []
    ensures var n := |lines| - 1;
            RoundingGap(lines, scale) == RoundingGap(lines[..n], scale) + LineGap(lines[n], scale)
  {
    var n := |lines| - 1;
    var d, c := TotalDebit(Drafts(lines[..n], scale)), TotalCredit(Drafts(lines[..n], scale));
    var dr, cr := Cents(Given(lines[n].debit), scale), Cents(Given(lines[n].credit), scale);
    assert Drafts(lines, scale)[..n] == Drafts(lines[..n], scale);
    UnitsSubtract(c, d, scale);
    UnitsSubtract(cr, dr, scale);
    UnitsSubtract(cr - dr, d - c, scale);
    UnitsSubtract(dr, cr, scale);
  }

  lemma {:induction false} RoundingGapBound(lines: seq<RawLine>, scale: Scale)
    ensures Abs(RoundingGap(lines, scale)) <= Units(|lines|, scale)
    ensures UnusedSideZero(lines) ==> 2 * Abs(RoundingGap(lines, scale)) <= Units(|lines|, scale)
  {
    if lines != [] {
      var n := |lines| - 1;
      RoundingGapBound(lines[..n], scale);
      GapOfLast(lines, scale);
      LineGapBound(lines[n], scale);
      UnitsSubtract(1, n + 1, scale);
      assert Units(1, scale) == scale;
      assert UnusedSideZero(lines) ==> UnusedSideZero(lines[..n]);
    }
  }

  lemma {:induction false} BalancedIsNearlyBalanced(lines: seq<RawLine>, scale: Scale)
    requires TotalDebit(Drafts(lines, scale)) == TotalCredit(Drafts(lines, scale))
    ensures Abs(RawDebit(lines) - RawCredit(lines)) <= Units(|lines|, scale)
    ensures UnusedSideZero(lines) ==>
              2 * Abs(RawDebit(lines) - RawCredit(lines)) <= Units(|lines|, scale)
  {
    var d := TotalDebit(Drafts(lines, scale)) - TotalCredit(Drafts(lines, scale));
    var gap := RoundingGap(lines, scale);
    assert d == 0 && Units(d, scale) == 0;
    assert gap == RawDebit(lines) - RawCredit(lines) - Units(d, scale);
    RoundingGapBound(lines, scale);
  }

  /**
   An accepted batch of n lines was balanced before rounding to within n cents, or n half-cents
   when no line gave anything on its unused side.
   */
  lemma {:induction false} AcceptedIsNearlyBalanced(env: Env, lines: seq<RawLine>, strict: bool)
    requires ValidateLines(env, lines, strict).Ok?
    ensures Abs(RawDebit(lines) - RawCredit(lines)) <= Units(|lines|, env.scale)
    ensures UnusedSideZero(lines) ==>
              2 * Abs(RawDebit(lines) - RawCredit(lines)) <= Units(|lines|, env.scale)
  {
    AcceptedIff(env, lines, strict);
    BalancedIsNearlyBalanced(lines, env.scale);
  }

  /** The errors that rounding makes on the lines, added up. */
  function TotalGap(lines: seq<RawLine>, scale: Scale): int
  {
    if lines == [] then 0 else TotalGap(lines[..|lines| - 1], scale) + LineGap(lines[|lines| - 1], scale)
  }

  lemma {:induction false} TotalGapIsRoundingGap(lines: seq<RawLine>, scale: Scale)
    ensures TotalGap(lines, scale) == RoundingGap(lines, scale)
  {
    if lines != [] {
      TotalGapIsRoundingGap(lines[..|lines| - 1], scale);
      GapOfLast(lines, scale);
    }
  }

  lemma {:induction false} UnitsZeroIff(n: int, scale: Scale)
    ensures Units(n, scale) == 0 <==> n == 0
  {
    if n > 0 {
      UnitsGrow(0, n, scale);
    } else if n < 0 {
      UnitsGrow(n, 0, scale);
    }
  }

  /** The batch has nothing against it but, perhaps, its balance. */
  ghost predicate PassesLineChecks(env: Env, lines: seq<RawLine>, strict: bool)
  {
    && lines != [] && (forall k :: 0 <= k < |lines| ==> ChartTakes(env, lines[k], strict))
    && (forall k :: 0 <= k < |lines| ==> AmountsInRange(lines[k], env.scale))
    && env.baseCode.Some?
    && (forall k :: 0 <= k < |lines| ==> CurrencyComplete(lines[k], Strip(env.baseCode.value)))
  }

  /**
   A batch that balances before rounding, and passes the other checks, is accepted exactly when the
   rounding errors of its lines cancel.
   */
  lemma {:induction false} BalancedAcceptedIff(env: Env, lines: seq<RawLine>, strict: bool)
    requires PassesLineChecks(env, lines, strict) && RawDebit(lines) == RawCredit(lines)
    ensures ValidateLines(env, lines, strict).Ok? <==> TotalGap(lines, env.scale) == 0
  {
    var ds := Drafts(lines, env.scale);
    AcceptedIff(env, lines, strict);
    TotalGapIsRoundingGap(lines, env.scale);
    UnitsZeroIff(TotalDebit(ds) - TotalCredit(ds), env.scale);
  }

  // ----- Witnesses, in tenths of a cent -----

  function Simple(debit: int, credit: int): RawLine
  {
    RawLine(1, 1, Some(debit), Some(credit), None, None, None, None, None, None, None)
  }

  function Permissive(scale: Scale): Env { Env(scale, _ => None, _ => None, Some("USD")) }

  lemma {:induction false} TwoTotals<C>(a: Line<C>, b: Line<C>)
    ensures TotalDebit([a, b]) == a.debit + b.debit
    ensures TotalCredit([a, b]) == a.credit + b.credit
  {
    assert [a, b][..1] == [a];
    assert TotalDebit([a]) == a.debit && TotalCredit([a]) == a.credit;
  }

  lemma {:induction false} TwoRawTotals(a: RawLine, b: RawLine)
    ensures RawDebit([a, b]) == Given(a.debit) + Given(b.debit)
    ensures RawCredit([a, b]) == Given(a.credit) + Given(b.credit)
  {
    assert [a, b][..1] == [a];
    assert RawDebit([a]) == Given(a.debit) && RawCredit([a]) == Given(a.credit);
  }

  lemma {:induction false} PairVerdict(dr: int, cr: int, dr': int, cr': int, scale: Scale)
    requires AmountsInRange(Simple(dr, cr), scale) && AmountsInRange(Simple(dr', cr'), scale)
    ensures var lines := [Simple(dr, cr), Simple(dr', cr')];
            ValidateLines(Permissive(scale), lines, true).Ok? <==>
            Cents(dr, scale) + Cents(dr', scale) == Cents(cr, scale) + Cents(cr', scale)
  {
    var a, b := Simple(dr, cr), Simple(dr', cr');
    AcceptedIff(Permissive(scale), [a, b], true);
    assert Drafts([a, b], scale) == [MakeDraft(a, scale, 0), MakeDraft(b, scale, 1)];
    TwoTotals(MakeDraft(a, scale, 0), MakeDraft(b, scale, 1));
    assert CurrencyComplete(a, Strip("USD")) && CurrencyComplete(b, Strip("USD"));
  }

  /** Both bounds are attained by accepted batches: 0.015 and 0.025 both round to 0.02. */
  lemma {:induction false} RoundingBoundsAreTight()
    ensures var lines := [Simple(15, 5), Simple(-5, 25)];
            ValidateLines(Permissive(10), lines, true).Ok?
            && Abs(RawDebit(lines) - RawCredit(lines)) == Units(|lines|, 10)
    ensures var lines := [Simple(15, 0), Simple(0, 25)];
            ValidateLines(Permissive(10), lines, true).Ok? && UnusedSideZero(lines)
            && 2 * Abs(RawDebit(lines) - RawCredit(lines)) == Units(|lines|, 10)
  {
    PairVerdict(15, 5, -5, 25, 10);
    PairVerdict(15, 0, 0, 25, 10);
    TwoRawTotals(Simple(15, 5), Simple(-5, 25));
    TwoRawTotals(Simple(15, 0), Simple(0, 25));
  }

  /** A batch can balance exactly before rounding and still be refused. */
  lemma {:induction false} BalancedYetRefused()
    ensures var lines := [Simple(30, 0), Simple(0, 15), Simple(0, 15)];
            RawDebit(lines) == RawCredit(lines)
            && ValidateLines(Permissive(10), lines, true) == Err(Unbalanced(3, 4))
  {
    var a, b := Simple(30, 0), Simple(0, 15);
    var lines := [a, b, b];
    assert lines[..2] == [a, b];
    TwoRawTotals(a, b);
    var ds := [MakeDraft(a, 10, 0), MakeDraft(b, 10, 1), MakeDraft(b, 10, 2)];
    assert Drafts(lines, 10) == ds && ds[..2] == [MakeDraft(a, 10, 0), MakeDraft(b, 10, 1)];
    TwoTotals(MakeDraft(a, 10, 0), MakeDraft(b, 10, 1));
    FirstAmountErrorIsFirst(lines, 10, 0);
    FirstCurrencyErrorIsFirst(lines, 10, Strip("USD"), 0);
    assert TotalDebit(ds) == 3 && TotalCredit(ds) == 4;
  }
}
