/**
 The general ledger as a value: posted entries in id order and the fiscal periods by key. Each
 service operation is given as a function from the books before to the books after and the answer.
 */
module Ledger {
  import opened Prelude
  import opened Text
  import opened Calendar
  import opened Journal

  datatype Status = Open | SoftClosed | Closed

  datatype Period = Period(
    id: int, key: string, start: Date, end: Date, status: Status,
    closedAt: Option<int>, closedBy: Option<int>)
  {
    function Span(): MonthSpan { MonthSpan(key, start, end) }
  }

  /** Lines written together: the id stands for the identities of their rows. */
  datatype Batch = Batch(id: nat, lines: seq<Stored>)

  /** lines are those of rows in order; batch is the number of times that lines have been written anew. */
  datatype Entry = Entry(
    id: int, date: Date, description: string, sourceType: string, sourceId: string,
    key: string, periodId: int, reverses: Option<int>, batch: nat, rows: seq<Batch>, lines: seq<Stored>)

  /** The entry with id n is entries[n - 1]. */
  datatype Books = Books(entries: seq<Entry>, periods: map<string, Period>)

  const EMPTY := Books([], map[])

  const REVERSAL := "journal_reversal"

  const DESCRIPTION_LENGTH := 512

  function ReversalKey(entryId: int): string { "journal_reversal:" + IntText(entryId) }

  predicate KeyUsed(entries: seq<Entry>, key: string)
  {
    exists i :: 0 <= i < |entries| && entries[i].key == key
  }

  predicate Reversed(entries: seq<Entry>, entryId: int)
  {
    exists i :: 0 <= i < |entries| && entries[i].reverses == Some(entryId)
  }

  predicate HasEntry(entries: seq<Entry>, entryId: int) { 1 <= entryId <= |entries| }

  // ----- Periods -----

  function NewPeriod(b: Books, d: Date): Period
    requires HasMonthBounds(d)
  {
    var span := MonthBounds(d);
    Period(|b.periods| + 1, span.key, span.start, span.end, Open, None, None)
  }

  /** `get_or_create_period` */
  function GetOrCreate(b: Books, d: Date): (Books, Result<Period, Error>)
  {
    if !HasMonthBounds(d) then (b, Err(DateOutOfRange))
    else
      var key := PeriodKey(d);
      if key in b.periods then (b, Ok(b.periods[key]))
      else (b.(periods := b.periods[key := NewPeriod(b, d)]), Ok(NewPeriod(b, d)))
  }

  /** `ensure_period_open` */
  function EnsureOpen(b: Books, d: Date, allowSoft: bool): (Books, Result<Period, Error>)
  {
    var (b', r) := GetOrCreate(b, d);
    if r.Ok? && r.value.status == Closed then (b', Err(PeriodClosed(r.value.key)))
    else if r.Ok? && r.value.status == SoftClosed && !allowSoft then (b', Err(PeriodSoftClosed(r.value.key)))
    else (b', r)
  }

  datatype Permission = Permission(allowed: bool, reason: string)

  function PermissionOf(p: Period): Permission
  {
    match p.status
    case Open => Permission(true, "Period is open")
    case SoftClosed => Permission(false, "Period is soft-closed (only reversing journal entries may post)")
    case Closed => Permission(false, "Period " + p.key + " is permanently closed")
  }

  /** `can_post_to_period` */
  function CanPost(b: Books, d: Date): (Books, Result<Permission, Error>)
  {
    var (b', r) := GetOrCreate(b, d);
    (b', if r.Ok? then Ok(PermissionOf(r.value)) else Err(r.error))
  }

  function ParseStatus(s: string): Option<Status>
  {
    if s == "open" then Some(Open)
    else if s == "soft_closed" then Some(SoftClosed)
    else if s == "closed" then Some(Closed)
    else None
  }

  /** The transition table. */
  function Successors(s: Status): set<Status>
  {
    match s
    case Open => {SoftClosed, Closed}
    case SoftClosed => {Open, Closed}
    case Closed => {Open, SoftClosed}
  }

  /** `set_period_status` */
  function SetStatus(b: Books, key: string, status: string, actor: int, now: int)
    : (Books, Result<Period, Error>)
  {
    if key !in b.periods then (b, Err(PeriodNotFound(key)))
    else if ParseStatus(status).None? then (b, Err(BadStatus(status)))
    else
      var period, wanted := b.periods[key], ParseStatus(status).value;
      if period.status == wanted then (b, Ok(period))
      else if wanted !in Successors(period.status) then (b, Err(BadTransition(key)))
      else
        var period' := if wanted == Closed
                       then period.(status := wanted, closedAt := Some(now), closedBy := Some(actor))
                       else period.(status := wanted, closedAt := None, closedBy := None);
        (b.(periods := b.periods[key := period']), Ok(period'))
  }

  // ----- Entries -----

  datatype PostRequest = PostRequest(
    date: Date, description: string, sourceType: string, sourceId: string, key: string,
    lines: seq<RawLine>, allowSoft: bool, strict: bool)

  function PostedEntry(entries: seq<Entry>, r: PostRequest, periodId: int, drafts: seq<Draft>): Entry
  {
    Entry(|entries| + 1, r.date, Take(r.description, DESCRIPTION_LENGTH), r.sourceType, r.sourceId,
          r.key, periodId, None, 0, [Batch(0, StoreAll(drafts))], StoreAll(drafts))
  }

  /** What the checks of a post have found when they pass. */
  datatype Admission = Admission(periodId: int, drafts: seq<Draft>)

  /** The checks of a post; the answer None means that the key had been used before. */
  function CheckPost(b: Books, env: Env, r: PostRequest): (Books, Result<Option<Admission>, Error>)
  {
    if KeyUsed(b.entries, r.key) then (b, Ok(None))
    else
      match ValidateLines(env, r.lines, r.strict)
      case Err(e) => (b, Err(e))
      case Ok(drafts) =>
        match EnsureOpen(b, r.date, r.allowSoft)
        case (b', Err(e)) => (b', Err(e))
        case (b', Ok(period)) => (b', Ok(Some(Admission(period.id, drafts))))
  }

  /** The insertion of a post. The unique constraint on the key can still refuse it. */
  function InsertPost(b: Books, r: PostRequest, a: Admission): (Books, Result<Option<Entry>, Error>)
  {
    if KeyUsed(b.entries, r.key) then (b, Err(KeyTaken(r.key)))
    else
      var entry := PostedEntry(b.entries, r, a.periodId, a.drafts);
      (b.(entries := b.entries + [entry]), Ok(Some(entry)))
  }

  /** `post_journal_entry` */
  function Post(b: Books, env: Env, r: PostRequest): (Books, Result<Option<Entry>, Error>)
  {
    match CheckPost(b, env, r)
    case (b', Err(e)) => (b', Err(e))
    case (b', Ok(None)) => (b', Ok(None))
    case (b', Ok(Some(a))) => InsertPost(b', r, a)
  }

  /** What the checks of an edit have found when they pass: the entry as it was read, and what to make of it. */
  datatype Revision = Revision(read: Entry, date: Date, description: string, periodId: int, lines: seq<Stored>)

  function RevisionOf(read: Entry, date: Date, description: string, periodId: int, drafts: seq<Draft>): Revision
  {
    Revision(read, date, Take(description, DESCRIPTION_LENGTH), periodId, StoreAll(drafts))
  }

  /** The checks of an edit. */
  function CheckEdit(b: Books, env: Env, entryId: int, date: Date, description: string, lines: seq<RawLine>)
    : (Books, Result<Revision, Error>)
  {
    if !HasEntry(b.entries, entryId) then (b, Err(EntryNotFound(entryId)))
    else if b.entries[entryId - 1].sourceType == REVERSAL then (b, Err(EntryIsReversal))
    else if Reversed(b.entries, entryId) then (b, Err(EntryIsReversed))
    else
      match EnsureOpen(b, b.entries[entryId - 1].date, false)
      case (b1, Err(e)) => (b1, Err(e))
      case (b1, Ok(_)) =>
        match EnsureOpen(b1, date, false)
        case (b2, Err(e)) => (b2, Err(e))
        case (b2, Ok(period)) =>
          match ValidateLines(env, lines, true)
          case Err(e) => (b2, Err(e))
          case Ok(drafts) =>
            (b2, Ok(RevisionOf(b.entries[entryId - 1], date, description, period.id, drafts)))
  }

  function LinesOf(rows: seq<Batch>): seq<Stored>
  {
    if rows == [] then [] else LinesOf(rows[..|rows| - 1]) + rows[|rows| - 1].lines
  }

  predicate HasBatch(rows: seq<Batch>, id: nat) { exists i :: 0 <= i < |rows| && rows[i].id == id }

  /** The rows that are not among those read. */
  function Unread(rows: seq<Batch>, read: seq<Batch>): seq<Batch>
  {
    if rows == [] then [] else
      var before, last := Unread(rows[..|rows| - 1], read), rows[|rows| - 1];
      if HasBatch(read, last.id) then before else before + [last]
  }

  /** The rows that a session leaves on the entry e: none when nothing has been written since it read them. */
  function Left(e: Entry, read: Entry): seq<Batch>
  {
    if e.batch == read.batch then [] else Unread(e.rows, read.rows)
  }

  /**
   What the session writes on the entry e that it finds: only the columns that differ from what it had
   read, and, after deleting only the lines that it had read, the new lines.
   */
  function Revise(e: Entry, v: Revision): Entry
  {
    e.(date := if v.date == v.read.date then e.date else v.date,
       description := if v.description == v.read.description then e.description else v.description,
       periodId := if v.periodId == v.read.periodId then e.periodId else v.periodId,
       batch := e.batch + 1,
       rows := Left(e, v.read) + [Batch(e.batch + 1, v.lines)],
       lines := LinesOf(Left(e, v.read)) + v.lines)
  }

  /** The write of an edit. */
  function WriteEdit(b: Books, entryId: int, v: Revision): Books
    requires HasEntry(b.entries, entryId)
  {
    b.(entries := b.entries[entryId - 1 := Revise(b.entries[entryId - 1], v)])
  }

  /** `update_journal_entry` */
  function Edit(b: Books, env: Env, entryId: int, date: Date, description: string, lines: seq<RawLine>)
    : (Books, Result<Entry, Error>)
  {
    match CheckEdit(b, env, entryId, date, description, lines)
    case (b', Err(e)) => (b', Err(e))
    case (b', Ok(v)) => (WriteEdit(b', entryId, v), Ok(Revise(b.entries[entryId - 1], v)))
  }

  /** The line that undoes l. */
  function MirrorLine(l: Stored): Stored
  {
    Line(l.lineNo, l.account, l.branch, l.credit, l.debit,
         Some("Reversal of line " + IntText(l.lineNo)),
         if l.currency != "" then Take(l.currency, 3) else "USD",
         l.foreignAmount, l.rate, None, None, None)
  }

  function Mirror(lines: seq<Stored>): (ms: seq<Stored>)
    ensures |ms| == |lines|
  {
    seq(|lines|, i requires 0 <= i < |lines| => MirrorLine(lines[i]))
  }

  function ReversalDescription(entryId: int, reason: Option<string>): string
  {
    var text := "Reversal of JE #" + IntText(entryId);
    Take(if reason.Some? && reason.value != "" then text + " (" + reason.value + ")" else text,
         DESCRIPTION_LENGTH)
  }

  /** What the checks of a reversal have found when they pass. */
  datatype ReversalPlan = ReversalPlan(date: Date, description: string, periodId: int, lines: seq<Stored>)

  function PlanOf(original: Entry, entryId: int, reason: Option<string>, date: Date, periodId: int): ReversalPlan
  {
    ReversalPlan(date, ReversalDescription(entryId, reason), periodId, Mirror(original.lines))
  }

  function PlannedEntry(entries: seq<Entry>, entryId: int, p: ReversalPlan): Entry
  {
    Entry(|entries| + 1, p.date, p.description, REVERSAL, IntText(entryId), ReversalKey(entryId), p.periodId,
          Some(entryId), 0, [Batch(0, p.lines)], p.lines)
  }

  /** The checks of a reversal. */
  function CheckReverse(b: Books, entryId: int, reason: Option<string>, date: Option<Date>, today: Date)
    : (Books, Result<ReversalPlan, Error>)
  {
    if !HasEntry(b.entries, entryId) then (b, Err(EntryNotFound(entryId)))
    else if Reversed(b.entries, entryId) then (b, Err(AlreadyReversed(entryId)))
    else
      var postingDate := if date.Some? then date.value else today;
      match EnsureOpen(b, postingDate, true)
      case (b', Err(e)) => (b', Err(e))
      case (b', Ok(period)) =>
        (b', Ok(PlanOf(b.entries[entryId - 1], entryId, reason, postingDate, period.id)))
  }

  /** The insertion of a reversal. The unique constraint on the key can still refuse it. */
  function InsertReversal(b: Books, entryId: int, p: ReversalPlan): (Books, Result<Entry, Error>)
  {
    if KeyUsed(b.entries, ReversalKey(entryId)) then (b, Err(KeyTaken(ReversalKey(entryId))))
    else
      var entry := PlannedEntry(b.entries, entryId, p);
      (b.(entries := b.entries + [entry]), Ok(entry))
  }

  /** `reverse_journal_entry`; an insertion refused takes the whole transaction back. */
  function Reverse(b: Books, entryId: int, reason: Option<string>, date: Option<Date>, today: Date)
    : (Books, Result<Entry, Error>)
  {
    match CheckReverse(b, entryId, reason, date, today)
    case (b', Err(e)) => (b', Err(e))
    case (b', Ok(p)) =>
      var (b'', answer) := InsertReversal(b', entryId, p);
      (if answer.Ok? then b'' else b, answer)
  }

  // ----- Runs -----

  datatype Op =
    | PostOp(env: Env, request: PostRequest)
    | EditOp(env: Env, entryId: int, date: Date, description: string, lines: seq<RawLine>)
    | ReverseOp(entryId: int, reason: Option<string>, reversalDate: Option<Date>, today: Date)
    | StatusOp(key: string, status: string, actor: int, now: int)
    | EnsureOp(date: Date, allowSoft: bool)
    | CanPostOp(date: Date)

  function Apply(b: Books, op: Op): Books
  {
    match op
    case PostOp(env, r) => Post(b, env, r).0
    case EditOp(env, id, date, description, lines) => Edit(b, env, id, date, description, lines).0
    case ReverseOp(id, reason, date, today) => Reverse(b, id, reason, date, today).0
    case StatusOp(key, status, actor, now) => SetStatus(b, key, status, actor, now).0
    case EnsureOp(date, allowSoft) => EnsureOpen(b, date, allowSoft).0
    case CanPostOp(date) => CanPost(b, date).0
  }

  /** The books after carrying out operations in order; a refused one leaves what it leaves. */
  function Run(b: Books, ops: seq<Op>): Books
  {
    if ops == [] then b else Apply(Run(b, ops[..|ops| - 1]), ops[|ops| - 1])
  }
}
