/**
 * The `/officerstats` computation (bot.js:145-150): in each of the two
 * fetched tables, count the rows whose third cell equals the officer name,
 * and add the two counts.
 */
module OfficerStats {
  import opened Wrappers

  /** One `values.get` call: its `data.values` (absent when the range is empty), or a rejected request. */
  datatype Fetch = Fetched(values: Option<seq<seq<string>>>) | FetchFailed

  datatype Stats = Stats(totalCases: nat, arrestCases: nat, incidentCases: nat)

  /**
   * What the two requests yield: the statistics, or the error notice when
   * either request failed. Whether the statistics reply itself goes through
   * is not part of it.
   */
  datatype StatsReply = StatsShown(stats: Stats) | StatsError

  /** `r[2] === officerName`: a row with fewer than three cells has `undefined` there and never matches. */
  predicate ByOfficer(row: seq<string>, name: string) {
    |row| > 2 && row[2] == name
  }

  /** `rows.filter(r => r[2] === officerName).length`. */
  function CountByOfficer(rows: seq<seq<string>>, name: string): (n: nat)
    ensures n <= |rows|
    ensures n == 0 <==> forall i :: 0 <= i < |rows| ==> !ByOfficer(rows[i], name)
    ensures n == |rows| <==> forall i :: 0 <= i < |rows| ==> ByOfficer(rows[i], name)
  {
    if rows == [] then 0
    else CountByOfficer(rows[..|rows| - 1], name) + (if ByOfficer(rows[|rows| - 1], name) then 1 else 0)
  }

  /** The positions of the rows that count for `name`. */
  ghost function MatchingIndices(rows: seq<seq<string>>, name: string): set<nat> {
    set i: nat | i < |rows| && ByOfficer(rows[i], name)
  }

  /** The count is exactly the number of matching positions. */
  lemma {:induction false} CountIsMatchingRows(rows: seq<seq<string>>, name: string)
    ensures CountByOfficer(rows, name) == |MatchingIndices(rows, name)|
  {
    if rows != [] {
      var init := rows[..|rows| - 1];
      CountIsMatchingRows(init, name);
      var last := |rows| - 1;
      var before, now := MatchingIndices(init, name), MatchingIndices(rows, name);
      assert last !in before;
      assert forall i :: i in now <==> i in before || (i == last && ByOfficer(rows[last], name));
      if ByOfficer(rows[last], name) {
        assert now == before + {last};
      } else {
        assert now == before;
      }
    }
  }

  /** Appending one row adds one to the count exactly when that row is the officer's. */
  lemma CountAppendRow(rows: seq<seq<string>>, row: seq<string>, name: string)
    ensures CountByOfficer(rows + [row], name) == CountByOfficer(rows, name) + (if ByOfficer(row, name) then 1 else 0)
  {
    assert (rows + [row])[..|rows|] == rows;
  }

  /** Counting a concatenation of tables is adding their counts. */
  lemma {:induction false} CountAppend(a: seq<seq<string>>, b: seq<seq<string>>, name: string)
    ensures CountByOfficer(a + b, name) == CountByOfficer(a, name) + CountByOfficer(b, name)
    decreases |b|
  {
    if b == [] {
      assert a + b == a;
    } else {
      var init := b[..|b| - 1];
      assert (a + b)[..|a + b| - 1] == a + init;
      CountAppend(a, init, name);
    }
  }

  /** `res.data.values || []`: a missing table is an empty one. */
  function Rows(values: Option<seq<seq<string>>>): (rows: seq<seq<string>>)
    ensures values.None? ==> rows == []
    ensures values.Some? ==> rows == values.value
  {
    values.GetOr([])
  }

  /**
   * The outcome of `/officerstats` for the two fetches: both requests run
   * under one `Promise.all`, so either failing gives the error notice;
   * otherwise the counts of the two tables.
   */
  function OfficerStatsReply(arrest: Fetch, incident: Fetch, name: string): (reply: StatsReply)
    ensures reply.StatsShown? <==> arrest.Fetched? && incident.Fetched?
    ensures reply.StatsShown? ==> reply.stats.arrestCases == CountByOfficer(Rows(arrest.values), name)
    ensures reply.StatsShown? ==> reply.stats.incidentCases == CountByOfficer(Rows(incident.values), name)
    ensures reply.StatsShown? ==> reply.stats.totalCases == reply.stats.arrestCases + reply.stats.incidentCases
    ensures reply.StatsShown? ==> reply.stats.arrestCases <= |Rows(arrest.values)|
    ensures reply.StatsShown? ==> reply.stats.incidentCases <= |Rows(incident.values)|
    ensures reply.StatsShown? && arrest.values.None? ==> reply.stats.arrestCases == 0
    ensures reply.StatsShown? && incident.values.None? ==> reply.stats.incidentCases == 0
  {
    if arrest.FetchFailed? || incident.FetchFailed? then StatsError
    else
      var arrestCases := CountByOfficer(Rows(arrest.values), name);
      var incidentCases := CountByOfficer(Rows(incident.values), name);
      StatsShown(Stats(arrestCases + incidentCases, arrestCases, incidentCases))
  }

  /** The total is the count over both tables taken together. */
  lemma TotalCountsBothTables(arrest: seq<seq<string>>, incident: seq<seq<string>>, name: string)
    ensures OfficerStatsReply(Fetched(Some(arrest)), Fetched(Some(incident)), name).stats.totalCases
         == CountByOfficer(arrest + incident, name)
  {
    CountAppend(arrest, incident, name);
  }
}
