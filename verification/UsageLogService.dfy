/** The AI usage log as the services work on it: a table of rows, appended to, searched and purged. */
module UsageLogService {
  import opened Prelude
  import opened ResponseCache

  /**
   hash stands for the digest of an object's canonical form, estimate for the price in millionths of a
   dollar of a model's prompt and completion tokens.
   */
  class UsageLog {
    const hash: Payload -> string
    const estimate: (string, int, int) -> int
    var rows: seq<LogRow>
    var logged: nat

    function Contents(): Log
      reads this
    {
      Log(rows, logged)
    }

    constructor (hash: Payload -> string, estimate: (string, int, int) -> int)
      ensures this.hash == hash && this.estimate == estimate && Contents() == LogOf([])
    {
      this.hash, this.estimate, rows, logged := hash, estimate, [], 0;
    }

    method LogAiUsage(
      endpoint: string, model: string, promptTokens: Option<int>, completionTokens: Option<int>,
      payload: Option<Payload>, response: Option<string>, user: Option<int>, duration: Option<int>,
      status: string, error: Option<string>, cacheHit: bool, cacheKey: Option<string>, limit: Option<nat>,
      now: int)
      returns (row: LogRow)
      modifies this
      ensures Contents()
              == After(old(Contents()),
                       Logged(Call(endpoint, model, promptTokens, completionTokens, payload, response, user, duration,
                                   status, error, cacheHit, cacheKey, limit,
                                   if payload == None || payload.value == map[] then None
                                   else Some(hash(payload.value)),
                                   if promptTokens == None || completionTokens == None then None
                                   else Some(estimate(model, promptTokens.value, completionTokens.value))), now))
      ensures rows == old(rows) + [row]
    {
      var total := OrZero(promptTokens) + OrZero(completionTokens);
      var cost := None;
      if promptTokens.Some? && completionTokens.Some? {
        cost := Some(estimate(model, promptTokens.value, completionTokens.value));
      }
      var summary := if response.Some? then response.value else "";
      if limit.Some? && |summary| > limit.value {
        summary := summary[..limit.value];
      }
      var kept := if summary == "" then None else Some(summary);
      assert kept == Stored(response, limit);
      var digest := if payload.Some? && payload.value != map[] then Some(hash(payload.value)) else None;
      row := LogRow(logged + 1, endpoint, model, digest, promptTokens, completionTokens,
                    if total > 0 then Some(total) else None, cost, cacheHit, cacheKey, payload, kept, user,
                    duration, status, error, now);
      assert row == RowFor(Call(endpoint, model, promptTokens, completionTokens, payload, response, user, duration,
                                status, error, cacheHit, cacheKey, limit, digest, cost), logged + 1, now);
      rows, logged := rows + [row], logged + 1;
    }

    method SaveCachedResponse(endpoint: string, model: string, input: Payload, summary: string, user: Option<int>,
                              promptTokens: Option<int>, completionTokens: Option<int>, now: int)
      modifies this
      ensures var key := hash(input);
              Contents() == After(old(Contents()), Logged(
                SaveCall(endpoint, model, key, summary, user, promptTokens, completionTokens,
                         Some(hash(map["cache_key" := "\"" + key + "\""])),
                         if promptTokens == None || completionTokens == None then None
                         else Some(estimate(model, promptTokens.value, completionTokens.value))), now))
    {
      var key := hash(input);
      var payload := map["cache_key" := "\"" + key + "\""];
      assert "cache_key" in payload;
      var _ := LogAiUsage(endpoint, model, promptTokens, completionTokens, Some(payload), Some(summary), user,
                          None, "success", None, true, Some(key), Some(SUMMARY_LENGTH), now);
    }

    /** The newest fresh successful row of the input's key, searched from the newest id down. */
    method GetCachedResponse(endpoint: string, input: Payload, now: int, ttlHours: int)
      returns (r: Option<Cached>)
      ensures r == Get(rows, endpoint, hash(input), now, ttlHours)
    {
      var key, cutoff := hash(input), now - ttlHours * HOUR;
      var i := |rows|;
      assert rows[..i] == rows;
      while i > 0
        invariant 0 <= i <= |rows|
        invariant Newest(rows, endpoint, key, cutoff) == Newest(rows[..i], endpoint, key, cutoff)
      {
        i := i - 1;
        assert rows[..i + 1][..i] == rows[..i];
        var row := rows[i];
        if row.endpoint == endpoint && row.cacheKey == Some(key) && row.createdAt >= cutoff
           && row.status == "success" {
          if row.summary.None? || row.summary.value == "" {
            return None;
          }
          return Some(Cached(row.summary.value, row.createdAt));
        }
      }
      return None;
    }

    method CleanupExpiredCache(now: int, olderThanDays: int) returns (deleted: nat)
      modifies this
      ensures Contents() == After(old(Contents()), Cleaned(now, olderThanDays))
      ensures deleted == |old(rows)| - |rows|
    {
      var cutoff := now - olderThanDays * DAY;
      var kept: seq<LogRow> := [];
      deleted := 0;
      for i := 0 to |rows|
        invariant rows == old(rows) && logged == old(logged)
        invariant kept == Clean(rows[..i], now, olderThanDays)
        invariant deleted == i - |kept|
      {
        assert rows[..i + 1][..i] == rows[..i];
        if rows[i].createdAt < cutoff {
          deleted := deleted + 1;
        } else {
          kept := kept + [rows[i]];
        }
      }
      assert rows[..|rows|] == rows;
      rows := kept;
    }

    method GetUsageStats(now: int, days: int, user: Option<int>) returns (u: Usage, hitRate: real)
      ensures u == UsageOf(rows, now - days * 24 * HOUR, user) && hitRate == HitRate(u)
    {
      var since := now - days * DAY;
      u := NO_USAGE;
      for i := 0 to |rows|
        invariant u == UsageOf(rows[..i], since, user)
      {
        assert rows[..i + 1][..i] == rows[..i];
        var row := rows[i];
        if row.createdAt >= since && (user.None? || row.user == user) {
          u := WithRow(u, row);
        }
      }
      assert rows[..|rows|] == rows;
      hitRate := if u.calls == 0 then 0.0 else u.cacheHits as real / u.calls as real * 100.0;
    }
  }
}
