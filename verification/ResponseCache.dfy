/** The response cache kept in the append-only log of AI calls, and the map that it implements. */
module ResponseCache {
  import opened Prelude
  import opened Text

  /** Times are whole numbers of one unit; an hour and a day are fixed numbers of it. */
  const HOUR := 3_600_000_000
  const DAY := 24 * HOUR

  const SUMMARY_LENGTH := 262_144

  /** A JSON object, each value as its JSON text. */
  type Payload = map<string, string>

  datatype LogRow = LogRow(
    id: int, endpoint: string, model: string, promptHash: Option<string>,
    promptTokens: Option<int>, completionTokens: Option<int>, totalTokens: Option<int>, cost: Option<int>,
    cacheHit: bool, cacheKey: Option<string>, payload: Option<Payload>, summary: Option<string>,
    user: Option<int>, duration: Option<int>, status: string, error: Option<string>, createdAt: int)

  /**
   A call to be logged: what `log_ai_usage` is given, the length limit of its summary, and the digest
   and the cost that it works out.
   */
  datatype Call = Call(
    endpoint: string, model: string, promptTokens: Option<int>, completionTokens: Option<int>,
    payload: Option<Payload>, summary: Option<string>, user: Option<int>, duration: Option<int>,
    status: string, error: Option<string>, cacheHit: bool, cacheKey: Option<string>, limit: Option<nat>,
    promptHash: Option<string>, cost: Option<int>)

  /** What a successful look-up answers. */
  datatype Cached = Cached(summary: string, createdAt: int)

  function OrZero(n: Option<int>): int { if n.Some? then n.value else 0 }

  /** The stored summary: cut to its limit, and missing when nothing is left. */
  function Stored(summary: Option<string>, limit: Option<nat>): Option<string>
  {
    var text := if summary.Some? then summary.value else "";
    var cut := if limit.Some? then Take(text, limit.value) else text;
    if cut == "" then None else Some(cut)
  }

  function RowFor(c: Call, id: int, now: int): LogRow
  {
    var total := OrZero(c.promptTokens) + OrZero(c.completionTokens);
    LogRow(id, c.endpoint, c.model, c.promptHash, c.promptTokens, c.completionTokens,
           if total > 0 then Some(total) else None, c.cost, c.cacheHit, c.cacheKey, c.payload,
           Stored(c.summary, c.limit), c.user, c.duration, c.status, c.error, now)
  }

  /** cut is what is kept of the text: its beginning, all of it within the limit; nothing empty is kept. */
  ghost predicate SummaryKept(text: Option<string>, limit: Option<nat>, cut: Option<string>)
  {
    && (cut.Some? <==> text.Some? && text.value != "" && limit != Some(0))
    && (cut.Some? ==>
          && cut.value <= text.value
          && (limit.None? || |text.value| <= limit.value ==> cut == text)
          && (limit.Some? && |text.value| > limit.value ==> |cut.value| == limit.value))
  }

  /** The tokens of a call add up to more than none, or no total is kept. */
  predicate TotalKept(prompt: Option<int>, completion: Option<int>, total: Option<int>)
  {
    var p, c := if prompt.Some? then prompt.value else 0, if completion.Some? then completion.value else 0;
    if p + c <= 0 then total.None? else total == Some(p + c)
  }

  /** Every column of the row holds what was given for it. */
  ghost predicate Records(row: LogRow, c: Call, now: int)
  {
    && row.createdAt == now && row.endpoint == c.endpoint && row.model == c.model
    && row.user == c.user && row.duration == c.duration && row.status == c.status && row.error == c.error
    && row.cacheHit == c.cacheHit && row.cacheKey == c.cacheKey && row.payload == c.payload
    && row.promptHash == c.promptHash && row.cost == c.cost
    && row.promptTokens == c.promptTokens && row.completionTokens == c.completionTokens
    && TotalKept(c.promptTokens, c.completionTokens, row.totalTokens)
    && SummaryKept(c.summary, c.limit, row.summary)
  }

  lemma {:induction false} RowRecords(c: Call, id: int, now: int)
    ensures Records(RowFor(c, id, now), c, now) && RowFor(c, id, now).id == id
  {
  }

  /** `save_cached_response`: the call it logs under the digest of the input. */
  function SaveCall(endpoint: string, model: string, key: string, summary: string, user: Option<int>,
                    promptTokens: Option<int>, completionTokens: Option<int>,
                    promptHash: Option<string>, cost: Option<int>): Call
  {
    Call(endpoint, model, promptTokens, completionTokens, Some(map["cache_key" := "\"" + key + "\""]),
         Some(summary), user, None, "success", None, true, Some(key), Some(SUMMARY_LENGTH), promptHash, cost)
  }

  /** A saved response is logged as a success and a hit under its key, with a payload that names the key. */
  lemma {:induction false} SavedRow(endpoint: string, model: string, key: string, summary: string, user: Option<int>,
                                    promptTokens: Option<int>, completionTokens: Option<int>,
                                    promptHash: Option<string>, cost: Option<int>, id: int, now: int)
    ensures var call := SaveCall(endpoint, model, key, summary, user, promptTokens, completionTokens, promptHash, cost);
            var row := RowFor(call, id, now);
            && row.createdAt == now && row.endpoint == endpoint && row.model == model && row.user == user
            && row.promptTokens == promptTokens && row.completionTokens == completionTokens
            && row.promptHash == promptHash && row.cost == cost
            && row.status == "success" && row.cacheHit && row.cacheKey == Some(key)
            && row.payload == Some(map["cache_key" := "\"" + key + "\""])
            && row.error.None? && row.duration.None?
            && SummaryKept(Some(summary), Some(262_144), row.summary)
  {
  }

  // ----- The log -----

  predicate Writes(r: LogRow, endpoint: string, key: string)
  {
    r.endpoint == endpoint && r.cacheKey == Some(key) && r.status == "success"
  }

  /** The newest matching row not older than the cut-off. */
  function Newest(rows: seq<LogRow>, endpoint: string, key: string, cutoff: int): Option<LogRow>
  {
    if rows == [] then None else
      var r := rows[|rows| - 1];
      if Writes(r, endpoint, key) && r.createdAt >= cutoff then Some(r)
      else Newest(rows[..|rows| - 1], endpoint, key, cutoff)
  }

  function Answer(r: Option<LogRow>): Option<Cached>
  {
    if r.None? || r.value.summary.None? || r.value.summary.value == "" then None
    else Some(Cached(r.value.summary.value, r.value.createdAt))
  }

  /** `get_cached_response` */
  function Get(rows: seq<LogRow>, endpoint: string, key: string, now: int, ttlHours: int): Option<Cached>
  {
    Answer(Newest(rows, endpoint, key, now - ttlHours * HOUR))
  }

  /** `cleanup_expired_cache` */
  function Clean(rows: seq<LogRow>, now: int, days: int): seq<LogRow>
  {
    if rows == [] then [] else
      var rest := Clean(rows[..|rows| - 1], now, days);
      if rows[|rows| - 1].createdAt < now - days * DAY then rest else rest + [rows[|rows| - 1]]
  }

  datatype Event = Logged(call: Call, at: int) | Cleaned(at: int, days: int)

  /** The log after some events: its rows, and the number of rows ever logged. */
  datatype Log = Log(rows: seq<LogRow>, logged: nat)

  function After(log: Log, e: Event): Log
  {
    match e
    case Logged(call, at) => Log(log.rows + [RowFor(call, log.logged + 1, at)], log.logged + 1)
    case Cleaned(at, days) => Log(Clean(log.rows, at, days), log.logged)
  }

  function LogOf(events: seq<Event>): Log
  {
    if events == [] then Log([], 0) else After(LogOf(events[..|events| - 1]), events[|events| - 1])
  }

  // ----- The map -----

  /** The last successful write under each endpoint and key: its summary and time. */
  type Cache = map<(string, string), (Option<string>, int)>

  /** A clean-up leaves the map alone, and so does a call without a key or without success. */
  function CacheOf(events: seq<Event>): Cache
  {
    if events == [] then map[] else
      var before, e := CacheOf(events[..|events| - 1]), events[|events| - 1];
      if e.Logged? && e.call.cacheKey.Some? && e.call.status == "success"
      then before[(e.call.endpoint, e.call.cacheKey.value) := (Stored(e.call.summary, e.call.limit), e.at)]
      else before
  }

  function GetFromMap(m: Cache, endpoint: string, key: string, now: int, ttlHours: int): Option<Cached>
  {
    if (endpoint, key) !in m then None else
      var (summary, at) := m[(endpoint, key)];
      if at >= now - ttlHours * HOUR && summary.Some? then Some(Cached(summary.value, at)) else None
  }

  // ----- Rows and clean-ups -----

  lemma {:induction false} NewestSplits(rows: seq<LogRow>, r: LogRow, endpoint: string, key: string, cutoff: int)
    ensures Newest(rows + [r], endpoint, key, cutoff)
            == if Writes(r, endpoint, key) && r.createdAt >= cutoff then Some(r)
               else Newest(rows, endpoint, key, cutoff)
  {
    assert (rows + [r])[..|rows|] == rows;
  }

  ghost predicate Rising(at: seq<nat>) { forall k, l :: 0 <= k < l < |at| ==> at[k] < at[l] }

  /** kept are the rows at these places, in their order. */
  ghost predicate TakenFrom(rows: seq<LogRow>, at: seq<nat>, kept: seq<LogRow>)
  {
    Rising(at) && |kept| == |at| && forall k :: 0 <= k < |at| ==> at[k] < |rows| && kept[k] == rows[at[k]]
  }

  /** These are the places of the rows not older than `since`. */
  ghost predicate PlacesSince(rows: seq<LogRow>, at: seq<nat>, since: int)
  {
    forall i :: 0 <= i < |rows| ==> (i in at <==> rows[i].createdAt >= since)
  }

  lemma {:induction false} TakenIsWithin(rows: seq<LogRow>, at: seq<nat>, kept: seq<LogRow>)
    requires TakenFrom(rows, at, kept)
    ensures |rows| !in at
  {
  }

  lemma {:induction false} CleanWithLast(rows: seq<LogRow>, now: int, days: int)
    requires rows != []
    ensures var last, before := rows[|rows| - 1], Clean(rows[..|rows| - 1], now, days);
            Clean(rows, now, days) == if last.createdAt >= now - days * 24 * HOUR then before + [last] else before
  {
  }

  lemma {:induction false} TakenWithLast(rows: seq<LogRow>, at: seq<nat>, kept: seq<LogRow>)
    requires rows != [] && TakenFrom(rows[..|rows| - 1], at, kept)
    ensures TakenFrom(rows, at, kept)
    ensures TakenFrom(rows, at + [|rows| - 1], kept + [rows[|rows| - 1]])
  {
  }

  lemma {:induction false} PlacesWithLast(rows: seq<LogRow>, at: seq<nat>, since: int)
    requires rows != [] && PlacesSince(rows[..|rows| - 1], at, since) && |rows| - 1 !in at
    ensures PlacesSince(rows, if rows[|rows| - 1].createdAt >= since then at + [|rows| - 1] else at, since)
  {
    var n := |rows| - 1;
    forall i | 0 <= i < n
      ensures i in at <==> rows[i].createdAt >= since
    {
      assert rows[..n][i] == rows[i];
    }
  }

  /** A clean-up keeps exactly the rows of the last days, in their order: `at` is where they were. */
  lemma {:induction false} CleanMeaning(rows: seq<LogRow>, now: int, days: int) returns (at: seq<nat>)
    ensures TakenFrom(rows, at, Clean(rows, now, days))
    ensures PlacesSince(rows, at, now - days * 24 * HOUR)
  {
    at := [];
    if rows != [] {
      var n := |rows| - 1;
      at := CleanMeaning(rows[..n], now, days);
      CleanWithLast(rows, now, days);
      TakenIsWithin(rows[..n], at, Clean(rows[..n], now, days));
      TakenWithLast(rows, at, Clean(rows[..n], now, days));
      PlacesWithLast(rows, at, now - days * 24 * HOUR);
      if rows[n].createdAt >= now - days * 24 * HOUR {
        at := at + [n];
      }
    }
  }

  function Later(a: int, b: int): int { if a < b then b else a }

  /** To a look-up a clean-up is nothing but a later cut-off. */
  lemma {:induction false} CleanCuts(rows: seq<LogRow>, at: int, days: int, endpoint: string, key: string, cutoff: int)
    ensures Newest(Clean(rows, at, days), endpoint, key, cutoff)
            == Newest(rows, endpoint, key, Later(cutoff, at - days * DAY))
  {
    if rows != [] {
      var n := |rows| - 1;
      CleanCuts(rows[..n], at, days, endpoint, key, cutoff);
      NewestSplits(Clean(rows[..n], at, days), rows[n], endpoint, key, cutoff);
    }
  }

  /** No clean-up has reached what is as late as the cut-off. */
  ghost predicate Sees(events: seq<Event>, cutoff: int)
  {
    forall i :: 0 <= i < |events| && events[i].Cleaned? ==> cutoff >= events[i].at - events[i].days * DAY
  }

  /** The log with nothing ever deleted. */
  function AllRows(events: seq<Event>): Log
  {
    if events == [] then Log([], 0) else
      var before, e := AllRows(events[..|events| - 1]), events[|events| - 1];
      if e.Logged? then After(before, e) else before
  }

  /** A look-up that sees past every clean-up answers as if nothing had been deleted. */
  lemma {:induction false} CleaningInvisible(events: seq<Event>, endpoint: string, key: string, cutoff: int)
    requires Sees(events, cutoff)
    ensures Newest(LogOf(events).rows, endpoint, key, cutoff) == Newest(AllRows(events).rows, endpoint, key, cutoff)
    ensures LogOf(events).logged == AllRows(events).logged
  {
    if events != [] {
      var n := |events| - 1;
      var log, all := LogOf(events[..n]), AllRows(events[..n]);
      CleaningInvisible(events[..n], endpoint, key, cutoff);
      match events[n]
      case Logged(call, at) =>
        NewestSplits(log.rows, RowFor(call, log.logged + 1, at), endpoint, key, cutoff);
        NewestSplits(all.rows, RowFor(call, log.logged + 1, at), endpoint, key, cutoff);
      case Cleaned(at, days) =>
        CleanCuts(log.rows, at, days, endpoint, key, cutoff);
    }
  }

  // ----- Refinement -----

  predicate IsWrite(e: Event, endpoint: string, key: string)
  {
    e.Logged? && e.call.endpoint == endpoint && e.call.cacheKey == Some(key) && e.call.status == "success"
  }

  function SummaryOf(e: Event): Option<string>
    requires e.Logged?
  {
    Stored(e.call.summary, e.call.limit)
  }

  /** The last write under the key that is not older than the cut-off; -1 when there is none. */
  function FreshWrite(events: seq<Event>, endpoint: string, key: string, cutoff: int): (n: int)
    ensures -1 <= n < |events|
    ensures n >= 0 ==> IsWrite(events[n], endpoint, key) && events[n].at >= cutoff
    ensures forall j :: n < j < |events| && IsWrite(events[j], endpoint, key) ==> events[j].at < cutoff
  {
    if events == [] then -1
    else if IsWrite(events[|events| - 1], endpoint, key) && events[|events| - 1].at >= cutoff then |events| - 1
    else FreshWrite(events[..|events| - 1], endpoint, key, cutoff)
  }

  /** The last write under the key; -1 when there is none. */
  function LastWrite(events: seq<Event>, endpoint: string, key: string): (n: int)
    ensures -1 <= n < |events|
    ensures n >= 0 ==> IsWrite(events[n], endpoint, key)
    ensures forall j :: n < j < |events| ==> !IsWrite(events[j], endpoint, key)
  {
    if events == [] then -1
    else if IsWrite(events[|events| - 1], endpoint, key) then |events| - 1
    else LastWrite(events[..|events| - 1], endpoint, key)
  }

  lemma {:induction false} NewestIsFreshWrite(events: seq<Event>, endpoint: string, key: string, cutoff: int)
    ensures var n, r := FreshWrite(events, endpoint, key, cutoff), Newest(AllRows(events).rows, endpoint, key, cutoff);
            if n < 0 then r.None?
            else r.Some? && r.value.summary == SummaryOf(events[n]) && r.value.createdAt == events[n].at
  {
    if events != [] {
      var n := |events| - 1;
      var e, all := events[n], AllRows(events[..n]);
      NewestIsFreshWrite(events[..n], endpoint, key, cutoff);
      if e.Logged? {
        NewestSplits(all.rows, RowFor(e.call, all.logged + 1, e.at), endpoint, key, cutoff);
      }
    }
  }

  lemma {:induction false} MapHoldsLastWrite(events: seq<Event>, endpoint: string, key: string)
    ensures var n, m := LastWrite(events, endpoint, key), CacheOf(events);
            if n < 0 then (endpoint, key) !in m
            else (endpoint, key) in m && m[(endpoint, key)] == (SummaryOf(events[n]), events[n].at)
  {
    if events != [] {
      MapHoldsLastWrite(events[..|events| - 1], endpoint, key);
    }
  }

  /**
   Write i is in the way: it holds something, no clean-up has reached it, other writes follow under its
   key, and all of them carry earlier times.
   */
  ghost predicate InTheWay(events: seq<Event>, endpoint: string, key: string, i: nat)
  {
    && i < |events| && IsWrite(events[i], endpoint, key) && SummaryOf(events[i]).Some?
    && Sees(events, events[i].at)
    && (exists j :: i < j < |events| && IsWrite(events[j], endpoint, key))
    && (forall j :: i < j < |events| && IsWrite(events[j], endpoint, key) ==> events[j].at < events[i].at)
  }

  lemma {:induction false} FreshIsLast(events: seq<Event>, endpoint: string, key: string, cutoff: int)
    requires Sees(events, cutoff)
    requires forall i: nat :: !InTheWay(events, endpoint, key, i)
    ensures var n, last := FreshWrite(events, endpoint, key, cutoff), LastWrite(events, endpoint, key);
            && (last >= 0 && events[last].at >= cutoff ==> n == last)
            && (n >= 0 && SummaryOf(events[n]).Some? ==> n == last)
  {
    var n, last := FreshWrite(events, endpoint, key, cutoff), LastWrite(events, endpoint, key);
    if n >= 0 && n != last {
      assert !InTheWay(events, endpoint, key, n);
      assert IsWrite(events[last], endpoint, key);
    }
  }

  lemma {:induction false} NewestInLog(events: seq<Event>, endpoint: string, key: string, cutoff: int)
    requires Sees(events, cutoff)
    ensures var n, r := FreshWrite(events, endpoint, key, cutoff), Newest(LogOf(events).rows, endpoint, key, cutoff);
            if n < 0 then r.None?
            else r.Some? && r.value.summary == SummaryOf(events[n]) && r.value.createdAt == events[n].at
  {
    CleaningInvisible(events, endpoint, key, cutoff);
    NewestIsFreshWrite(events, endpoint, key, cutoff);
  }

  lemma {:induction false} SummaryNeverEmpty(e: Event)
    requires e.Logged?
    ensures SummaryOf(e) != Some("")
  {
  }

  lemma {:induction false} LogAnswers(events: seq<Event>, endpoint: string, key: string, now: int, ttlHours: int)
    requires Sees(events, now - ttlHours * HOUR)
    ensures var n := FreshWrite(events, endpoint, key, now - ttlHours * HOUR);
            Get(LogOf(events).rows, endpoint, key, now, ttlHours)
            == if n < 0 || SummaryOf(events[n]).None? then None
               else Some(Cached(SummaryOf(events[n]).value, events[n].at))
  {
    var n := FreshWrite(events, endpoint, key, now - ttlHours * HOUR);
    NewestInLog(events, endpoint, key, now - ttlHours * HOUR);
    if n >= 0 {
      SummaryNeverEmpty(events[n]);
    }
  }

  lemma {:induction false} MapAnswers(events: seq<Event>, endpoint: string, key: string, now: int, ttlHours: int)
    ensures var n := LastWrite(events, endpoint, key);
            GetFromMap(CacheOf(events), endpoint, key, now, ttlHours)
            == if n < 0 || SummaryOf(events[n]).None? || events[n].at < now - ttlHours * HOUR then None
               else Some(Cached(SummaryOf(events[n]).value, events[n].at))
  {
    MapHoldsLastWrite(events, endpoint, key);
  }

  /**
   A look-up in the log, cleaned up or not, answers as the map of last successful writes does, unless a
   write is in the way.
   */
  lemma {:induction false} LogRefinesMap(events: seq<Event>, endpoint: string, key: string, now: int, ttlHours: int)
    requires Sees(events, now - ttlHours * HOUR)
    requires forall i: nat :: !InTheWay(events, endpoint, key, i)
    ensures Get(LogOf(events).rows, endpoint, key, now, ttlHours)
            == GetFromMap(CacheOf(events), endpoint, key, now, ttlHours)
  {
    FreshIsLast(events, endpoint, key, now - ttlHours * HOUR);
    LogAnswers(events, endpoint, key, now, ttlHours);
    MapAnswers(events, endpoint, key, now, ttlHours);
  }

  /** A write in the way is found at its own time, where the map holds only something older. */
  lemma {:induction false} InTheWayMisleads(events: seq<Event>, endpoint: string, key: string, i: nat)
    requires InTheWay(events, endpoint, key, i)
    ensures Get(LogOf(events).rows, endpoint, key, events[i].at, 0)
            != GetFromMap(CacheOf(events), endpoint, key, events[i].at, 0)
  {
    LogAnswers(events, endpoint, key, events[i].at, 0);
    MapAnswers(events, endpoint, key, events[i].at, 0);
    assert FreshWrite(events, endpoint, key, events[i].at) == i;
    assert LastWrite(events, endpoint, key) > i;
  }

  ghost predicate Agrees(events: seq<Event>, endpoint: string, key: string, now: int, ttlHours: int)
  {
    Sees(events, now - ttlHours * HOUR) ==>
      Get(LogOf(events).rows, endpoint, key, now, ttlHours)
      == GetFromMap(CacheOf(events), endpoint, key, now, ttlHours)
  }

  /**
   Under a key every look-up that sees past the clean-ups answers as the map does, exactly when no write
   under that key is in the way. What is logged under other keys does not matter, nor does disorder
   among writes that a later one outdates.
   */
  lemma {:induction false} LogRefinesMapIff(events: seq<Event>, endpoint: string, key: string)
    ensures (forall now: int, ttlHours: int :: Agrees(events, endpoint, key, now, ttlHours)) <==>
            (forall i: nat :: !InTheWay(events, endpoint, key, i))
  {
    if forall i: nat :: !InTheWay(events, endpoint, key, i) {
      forall now: int, ttlHours: int
        ensures Agrees(events, endpoint, key, now, ttlHours)
      {
        if Sees(events, now - ttlHours * HOUR) {
          LogRefinesMap(events, endpoint, key, now, ttlHours);
        }
      }
    }
    if forall now: int, ttlHours: int :: Agrees(events, endpoint, key, now, ttlHours) {
      forall i: nat
        ensures !InTheWay(events, endpoint, key, i)
      {
        if InTheWay(events, endpoint, key, i) {
          assert Agrees(events, endpoint, key, events[i].at, 0);
          InTheWayMisleads(events, endpoint, key, i);
        }
      }
    }
  }

  /** Events happen in the order of their times, the last one not after `now`. */
  ghost predicate InOrder(events: seq<Event>, now: int)
  {
    && (forall i, j :: 0 <= i < j < |events| ==> events[i].at <= events[j].at)
    && (forall i :: 0 <= i < |events| ==> events[i].at <= now)
  }

  /** Every clean-up keeps at least what a look-up with this lifetime can still see. */
  ghost predicate KeepsFor(events: seq<Event>, ttlHours: int)
  {
    forall i :: 0 <= i < |events| && events[i].Cleaned? ==> events[i].days * 24 >= ttlHours
  }

  /** With a clock that does not run backwards and windows no shorter than the lifetime they always agree. */
  lemma {:induction false} OrderedLogRefinesMap(events: seq<Event>, endpoint: string, key: string, now: int,
                                                ttlHours: int)
    requires InOrder(events, now) && KeepsFor(events, ttlHours)
    ensures Get(LogOf(events).rows, endpoint, key, now, ttlHours)
            == GetFromMap(CacheOf(events), endpoint, key, now, ttlHours)
  {
    forall i: nat
      ensures !InTheWay(events, endpoint, key, i)
    {
      if i < |events| && exists j :: i < j < |events| && IsWrite(events[j], endpoint, key) {
        var j :| i < j < |events| && IsWrite(events[j], endpoint, key);
        assert events[i].at <= events[j].at;
      }
    }
    LogRefinesMap(events, endpoint, key, now, ttlHours);
  }

  function CallOf(summary: string): Call
  {
    SaveCall("e", "m", "k", summary, None, None, None, None, None)
  }

  /** Two writes whose times do not follow their order, the earlier one in the way. */
  lemma {:induction false} WriteInTheWay()
    ensures var events := [Logged(CallOf("new"), 24 * HOUR), Logged(CallOf("old"), 0)];
            && InTheWay(events, "e", "k", 0)
            && Get(LogOf(events).rows, "e", "k", 24 * HOUR, 0) == Some(Cached("new", 24 * HOUR))
            && GetFromMap(CacheOf(events), "e", "k", 24 * HOUR, 0) == None
  {
    var events := [Logged(CallOf("new"), 24 * HOUR), Logged(CallOf("old"), 0)];
    assert IsWrite(events[1], "e", "k");
    LogAnswers(events, "e", "k", 24 * HOUR, 0);
    MapAnswers(events, "e", "k", 24 * HOUR, 0);
    assert FreshWrite(events, "e", "k", 24 * HOUR) == 0 && LastWrite(events, "e", "k") == 1;
  }

  // ----- Saving and looking up -----

  lemma {:induction false} LogOfMore(events: seq<Event>, e: Event)
    ensures LogOf(events + [e]) == After(LogOf(events), e)
  {
    assert (events + [e])[..|events|] == events;
  }

  /** A row that a look-up finds was written by one of the events, at its time. */
  lemma {:induction false} FoundWasWritten(events: seq<Event>, endpoint: string, key: string, cutoff: int)
    ensures Newest(LogOf(events).rows, endpoint, key, cutoff).Some? ==>
              exists i :: 0 <= i < |events| && IsWrite(events[i], endpoint, key) && events[i].at >= cutoff
  {
    if events != [] {
      var n := |events| - 1;
      var log := LogOf(events[..n]);
      match events[n]
      case Logged(call, at) =>
        FoundWasWritten(events[..n], endpoint, key, cutoff);
        NewestSplits(log.rows, RowFor(call, log.logged + 1, at), endpoint, key, cutoff);
      case Cleaned(at, days) =>
        FoundWasWritten(events[..n], endpoint, key, Later(cutoff, at - days * DAY));
        CleanCuts(log.rows, at, days, endpoint, key, cutoff);
    }
  }

  /**
   A saved response is given back for its lifetime, cut to its limit, whatever was logged and cleaned up
   before; after that nothing is, unless something was written under the key with a later time.
   */
  lemma {:induction false} SaveThenGet(events: seq<Event>, endpoint: string, model: string, key: string,
                                       summary: string, user: Option<int>, promptTokens: Option<int>,
                                       completionTokens: Option<int>, promptHash: Option<string>,
                                       cost: Option<int>, at: int, now: int, ttlHours: int)
    ensures var call := SaveCall(endpoint, model, key, summary, user, promptTokens, completionTokens, promptHash, cost);
            var answer := Get(LogOf(events + [Logged(call, at)]).rows, endpoint, key, now, ttlHours);
            && (now - at <= ttlHours * HOUR ==>
                  answer == if summary != "" then Some(Cached(Take(summary, 262_144), at)) else None)
            && (now - at > ttlHours * HOUR && answer.Some? ==>
                  exists i :: 0 <= i < |events| && IsWrite(events[i], endpoint, key) && events[i].at > at)
  {
    var call := SaveCall(endpoint, model, key, summary, user, promptTokens, completionTokens, promptHash, cost);
    var cutoff := now - ttlHours * HOUR;
    LogOfMore(events, Logged(call, at));
    NewestSplits(LogOf(events).rows, RowFor(call, LogOf(events).logged + 1, at), endpoint, key, cutoff);
    if at < cutoff {
      FoundWasWritten(events, endpoint, key, cutoff);
    }
  }

  /**
   A clean-up at one moment can be noticed by a look-up at that moment or later exactly when its
   window is shorter than the lifetime.
   */
  lemma {:induction false} CleanUpNoticedIff(days: int, ttlHours: int, at: int)
    ensures days * 24 >= ttlHours <==>
              forall rows: seq<LogRow>, endpoint: string, key: string, now: int :: now >= at ==>
                Get(Clean(rows, at, days), endpoint, key, now, ttlHours) == Get(rows, endpoint, key, now, ttlHours)
  {
    if days * 24 >= ttlHours {
      forall rows: seq<LogRow>, endpoint: string, key: string, now: int | now >= at
        ensures Get(Clean(rows, at, days), endpoint, key, now, ttlHours) == Get(rows, endpoint, key, now, ttlHours)
      {
        CleanCuts(rows, at, days, endpoint, key, now - ttlHours * HOUR);
      }
    } else {
      var r := RowFor(CallOf("s"), 1, at - ttlHours * HOUR);
      CleanCuts([r], at, days, "e", "k", at - ttlHours * HOUR);
      NewestSplits([], r, "e", "k", at - ttlHours * HOUR);
      NewestSplits([], r, "e", "k", at - days * DAY);
      assert [] + [r] == [r];
      assert Get(Clean([r], at, days), "e", "k", at, ttlHours) != Get([r], "e", "k", at, ttlHours);
    }
  }

  // ----- Calls without a key -----

  predicate Keyless(e: Event) { e.Logged? && e.call.cacheKey.None? }

  /** The events without the calls that were logged without a key. */
  function Keyed(events: seq<Event>): (r: seq<Event>)
    ensures forall e :: e in r <==> e in events && !Keyless(e)
  {
    if events == [] then [] else
      var before, e := Keyed(events[..|events| - 1]), events[|events| - 1];
      assert events == events[..|events| - 1] + [e];
      if Keyless(e) then before else before + [e]
  }

  /** The same answer: rows that differ in nothing a look-up gives. */
  ghost predicate SameAnswer(r: Option<LogRow>, s: Option<LogRow>)
  {
    || (r.None? && s.None?)
    || (r.Some? && s.Some? && r.value.summary == s.value.summary && r.value.createdAt == s.value.createdAt)
  }

  lemma {:induction false} SameAnswerGives(r: Option<LogRow>, s: Option<LogRow>)
    requires SameAnswer(r, s)
    ensures Answer(r) == Answer(s)
  {
  }

  lemma {:induction false} KeylessUnseen(log: Log, e: Event, endpoint: string, key: string, cutoff: int)
    requires Keyless(e)
    ensures Newest(After(log, e).rows, endpoint, key, cutoff) == Newest(log.rows, endpoint, key, cutoff)
  {
    NewestSplits(log.rows, RowFor(e.call, log.logged + 1, e.at), endpoint, key, cutoff);
  }

  lemma {:induction false} SameAfter(a: Log, b: Log, call: Call, at: int, endpoint: string, key: string, cutoff: int)
    requires SameAnswer(Newest(a.rows, endpoint, key, cutoff), Newest(b.rows, endpoint, key, cutoff))
    ensures SameAnswer(Newest(After(a, Logged(call, at)).rows, endpoint, key, cutoff),
                       Newest(After(b, Logged(call, at)).rows, endpoint, key, cutoff))
  {
    NewestSplits(a.rows, RowFor(call, a.logged + 1, at), endpoint, key, cutoff);
    NewestSplits(b.rows, RowFor(call, b.logged + 1, at), endpoint, key, cutoff);
  }

  lemma {:induction false} KeylessRowsUnseen(events: seq<Event>, endpoint: string, key: string, cutoff: int)
    ensures SameAnswer(Newest(LogOf(events).rows, endpoint, key, cutoff),
                       Newest(LogOf(Keyed(events)).rows, endpoint, key, cutoff))
  {
    if events != [] {
      var n := |events| - 1;
      var e, before, keyed := events[n], LogOf(events[..n]), LogOf(Keyed(events[..n]));
      if Keyless(e) {
        KeylessRowsUnseen(events[..n], endpoint, key, cutoff);
        KeylessUnseen(before, e, endpoint, key, cutoff);
      } else {
        LogOfMore(Keyed(events[..n]), e);
        match e
        case Logged(call, at) =>
          KeylessRowsUnseen(events[..n], endpoint, key, cutoff);
          SameAfter(before, keyed, call, at, endpoint, key, cutoff);
        case Cleaned(at, days) =>
          KeylessRowsUnseen(events[..n], endpoint, key, Later(cutoff, at - days * DAY));
          CleanCuts(before.rows, at, days, endpoint, key, cutoff);
          CleanCuts(keyed.rows, at, days, endpoint, key, cutoff);
      }
    }
  }

  /** Calls logged without a key change no look-up: without them the answers are the same. */
  lemma {:induction false} KeylessNeverMatter(events: seq<Event>, endpoint: string, key: string, now: int,
                                               ttlHours: int)
    ensures Get(LogOf(events).rows, endpoint, key, now, ttlHours)
            == Get(LogOf(Keyed(events)).rows, endpoint, key, now, ttlHours)
  {
    KeylessRowsUnseen(events, endpoint, key, now - ttlHours * HOUR);
    SameAnswerGives(Newest(LogOf(events).rows, endpoint, key, now - ttlHours * HOUR),
                    Newest(LogOf(Keyed(events)).rows, endpoint, key, now - ttlHours * HOUR));
  }

  /** So when nothing is logged with a key, nothing is ever found. */
  lemma {:induction false} KeylessNeverFound(events: seq<Event>, endpoint: string, key: string, now: int, ttlHours: int)
    requires forall i :: 0 <= i < |events| && events[i].Logged? ==> Keyless(events[i])
    ensures Get(LogOf(events).rows, endpoint, key, now, ttlHours) == None
  {
    FoundWasWritten(events, endpoint, key, now - ttlHours * HOUR);
  }

  // ----- Usage statistics -----

  datatype Usage = Usage(
    calls: nat, totalTokens: int, cost: int, promptTokens: int, completionTokens: int, cacheHits: nat)

  const NO_USAGE := Usage(0, 0, 0, 0, 0, 0)

  predicate Counted(r: LogRow, since: int, user: Option<int>)
  {
    r.createdAt >= since && (user.None? || r.user == user)
  }

  function WithRow(u: Usage, r: LogRow): Usage
  {
    Usage(u.calls + 1, u.totalTokens + OrZero(r.totalTokens), u.cost + OrZero(r.cost),
          u.promptTokens + OrZero(r.promptTokens), u.completionTokens + OrZero(r.completionTokens),
          u.cacheHits + if r.cacheHit then 1 else 0)
  }

  function UsageOf(rows: seq<LogRow>, since: int, user: Option<int>): Usage
  {
    if rows == [] then NO_USAGE else
      var u, r := UsageOf(rows[..|rows| - 1], since, user), rows[|rows| - 1];
      if Counted(r, since, user) then WithRow(u, r) else u
  }

  /** One column added up over the rows not older than `since`, of one user if one is named. */
  function SumOf(rows: seq<LogRow>, since: int, user: Option<int>, column: LogRow -> int): int
  {
    if rows == [] then 0 else
      var before, r := SumOf(rows[..|rows| - 1], since, user, column), rows[|rows| - 1];
      if r.createdAt >= since && (user == None || user == r.user) then before + column(r) else before
  }

  /** Each statistic is its own column added up, nothing where the row has none. */
  lemma {:induction false} UsageMeaning(rows: seq<LogRow>, since: int, user: Option<int>)
    ensures var u := UsageOf(rows, since, user);
            && u.calls == SumOf(rows, since, user, _ => 1)
            && u.cacheHits == SumOf(rows, since, user, (r: LogRow) => if r.cacheHit then 1 else 0)
            && u.cost == SumOf(rows, since, user, (r: LogRow) => if r.cost.Some? then r.cost.value else 0)
            && u.totalTokens
               == SumOf(rows, since, user, (r: LogRow) => if r.totalTokens.Some? then r.totalTokens.value else 0)
            && u.promptTokens
               == SumOf(rows, since, user, (r: LogRow) => if r.promptTokens.Some? then r.promptTokens.value else 0)
            && u.completionTokens
               == SumOf(rows, since, user,
                        (r: LogRow) => if r.completionTokens.Some? then r.completionTokens.value else 0)
  {
    if rows != [] {
      UsageMeaning(rows[..|rows| - 1], since, user);
    }
  }

  /** Hits per hundred calls. */
  function HitRate(u: Usage): real
  {
    if u.calls == 0 then 0.0 else u.cacheHits as real / u.calls as real * 100.0
  }

  lemma {:induction false} Quotient(hits: real, calls: real)
    requires calls != 0.0
    ensures hits / calls * 100.0 * calls == 100.0 * hits
  {
    assert hits / calls * calls == hits;
  }

  /** The rate is to a hundred as the hits are to the calls; without calls it is nothing. */
  lemma {:induction false} HitRateMeaning(u: Usage)
    ensures HitRate(u) * u.calls as real == 100.0 * u.cacheHits as real || u.calls == 0
    ensures u.calls == 0 ==> HitRate(u) == 0.0
  {
    if u.calls != 0 {
      Quotient(u.cacheHits as real, u.calls as real);
    }
  }

  lemma {:induction false} UsageSplits(rows: seq<LogRow>, r: LogRow, since: int, user: Option<int>)
    ensures UsageOf(rows + [r], since, user)
            == var u := UsageOf(rows, since, user); if Counted(r, since, user) then WithRow(u, r) else u
  {
    assert (rows + [r])[..|rows|] == rows;
  }

  /** Statistics over no longer a time than the clean-up kept are the same after it. */
  lemma {:induction false} CleanKeepsUsage(rows: seq<LogRow>, at: int, days: int, since: int, user: Option<int>)
    requires since >= at - days * DAY
    ensures UsageOf(Clean(rows, at, days), since, user) == UsageOf(rows, since, user)
  {
    if rows != [] {
      var n := |rows| - 1;
      CleanKeepsUsage(rows[..n], at, days, since, user);
      UsageSplits(Clean(rows[..n], at, days), rows[n], since, user);
    }
  }

  /** The tokens of the row are not less than none; the code stores the total only when it is more. */
  predicate SaneTokens(r: LogRow) { OrZero(r.promptTokens) + OrZero(r.completionTokens) >= 0 }

  ghost predicate AllSane(rows: seq<LogRow>, since: int, user: Option<int>)
  {
    forall i :: 0 <= i < |rows| && Counted(rows[i], since, user) ==> SaneTokens(rows[i])
  }

  ghost predicate AddsUp(u: Usage, sane: bool)
  {
    && u.promptTokens + u.completionTokens <= u.totalTokens
    && (u.promptTokens + u.completionTokens == u.totalTokens <==> sane)
    && u.cacheHits <= u.calls
  }

  lemma {:induction false} HitRateBounds(u: Usage)
    requires u.cacheHits <= u.calls
    ensures 0.0 <= HitRate(u) <= 100.0
  {
  }

  predicate RowTotalled(r: LogRow)
  {
    var total := OrZero(r.promptTokens) + OrZero(r.completionTokens);
    OrZero(r.totalTokens) == if total > 0 then total else 0
  }

  ghost predicate Totalled(rows: seq<LogRow>)
  {
    forall i :: 0 <= i < |rows| ==> RowTotalled(rows[i])
  }

  lemma {:induction false} CleanKeepsTotalled(rows: seq<LogRow>, at: int, days: int)
    requires Totalled(rows)
    ensures Totalled(Clean(rows, at, days))
  {
    if rows != [] {
      CleanKeepsTotalled(rows[..|rows| - 1], at, days);
    }
  }

  lemma {:induction false} LoggedTotals(events: seq<Event>)
    ensures Totalled(LogOf(events).rows)
  {
    if events != [] {
      var n := |events| - 1;
      LoggedTotals(events[..n]);
      if events[n].Cleaned? {
        CleanKeepsTotalled(LogOf(events[..n]).rows, events[n].at, events[n].days);
      }
    }
  }

  lemma {:induction false} TotalsAddUp(rows: seq<LogRow>, since: int, user: Option<int>)
    requires Totalled(rows)
    ensures AddsUp(UsageOf(rows, since, user), AllSane(rows, since, user))
  {
    if rows != [] {
      var n := |rows| - 1;
      TotalsAddUp(rows[..n], since, user);
      assert RowTotalled(rows[n]);
      assert AllSane(rows, since, user) <==>
             AllSane(rows[..n], since, user) && (Counted(rows[n], since, user) ==> SaneTokens(rows[n]));
    }
  }

  /**
   Whatever was logged, prompt and completion tokens come to no more than the total, and to the total
   exactly when no counted call reported fewer tokens than none; the hit rate is a percentage.
   */
  lemma {:induction false} UsageAddsUp(events: seq<Event>, since: int, user: Option<int>)
    ensures var rows := LogOf(events).rows;
            AddsUp(UsageOf(rows, since, user), AllSane(rows, since, user))
            && 0.0 <= HitRate(UsageOf(rows, since, user)) <= 100.0
  {
    LoggedTotals(events);
    TotalsAddUp(LogOf(events).rows, since, user);
    HitRateBounds(UsageOf(LogOf(events).rows, since, user));
  }
}
