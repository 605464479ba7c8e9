/**
 * `GetDailyCreditsStats`: per-day credit totals of a user's finished phases,
 * split into successful (COMPLETED) and failed (FAILED) credits.
 *
 * The database query is a parameter (the phases it returns, each with its
 * day key already formatted), and so is the list of formatted day keys of
 * the period. A JavaScript `Map` keeps its keys in first-insertion order; the
 * model keeps that order in a sequence next to the map.
 */
module DailyCredits {
  import opened Common
  import opened AppGraph
  import opened InsertionOrder

  datatype PhaseStat = PhaseStat(status: string, dayKey: string, credits: Option<int>)

  datatype DayRow = DayRow(date: string, successful: int, failed: int)

  const Completed: string := "COMPLETED"
  const Failed: string := "FAILED"

  /** `phase.creditsConsumed || 0`. */
  function Credits(p: PhaseStat): int {
    if p.credits.Some? then p.credits.value else 0
  }

  function DayKeys(phases: seq<PhaseStat>): (r: seq<string>)
    ensures |r| == |phases| && forall i :: 0 <= i < |phases| ==> r[i] == phases[i].dayKey
  {
    seq(|phases|, i requires 0 <= i < |phases| => phases[i].dayKey)
  }

  /** The credits of the phases on day `k` with status `status`. */
  function SumFor(phases: seq<PhaseStat>, k: string, status: string): int {
    if phases == [] then 0
    else
      var p := phases[|phases| - 1];
      SumFor(phases[..|phases| - 1], k, status) + (if p.dayKey == k && p.status == status then Credits(p) else 0)
  }

  /** The credits of all phases with status `status`. */
  function Total(phases: seq<PhaseStat>, status: string): int {
    if phases == [] then 0
    else
      var p := phases[|phases| - 1];
      Total(phases[..|phases| - 1], status) + (if p.status == status then Credits(p) else 0)
  }

  /** The chart rows, one per key in map order. */
  function RowsOf(keys: seq<string>, phases: seq<PhaseStat>): (r: seq<DayRow>)
    ensures |r| == |keys|
    ensures forall i :: 0 <= i < |keys| ==> r[i] == DayRow(keys[i], SumFor(phases, keys[i], Completed), SumFor(phases, keys[i], Failed))
  {
    seq(|keys|, i requires 0 <= i < |keys| => DayRow(keys[i], SumFor(phases, keys[i], Completed), SumFor(phases, keys[i], Failed)))
  }

  /** What `GetDailyCreditsStats` returns for a signed-in user. */
  function Stats(days: seq<string>, phases: seq<PhaseStat>): seq<DayRow> {
    RowsOf(Order(days + DayKeys(phases)), phases)
  }

  lemma SumForStep(phases: seq<PhaseStat>, j: nat, k: string, status: string)
    requires j < |phases|
    ensures SumFor(phases[..j + 1], k, status)
      == SumFor(phases[..j], k, status) + (if phases[j].dayKey == k && phases[j].status == status then Credits(phases[j]) else 0)
  {
    assert phases[..j + 1][..j] == phases[..j];
  }

  /** `dayStats.successful += credits` for a COMPLETED phase, `dayStats.failed += credits` for a FAILED one. */
  function Added(day: (int, int), p: PhaseStat): (int, int) {
    if p.status == Completed then (day.0 + Credits(p), day.1)
    else if p.status == Failed then (day.0, day.1 + Credits(p))
    else day
  }

  lemma {:induction false} SumForAbsent(phases: seq<PhaseStat>, k: string, status: string)
    requires forall i :: 0 <= i < |phases| ==> phases[i].dayKey != k
    ensures SumFor(phases, k, status) == 0
  {
    if phases != [] {
      SumForAbsent(phases[..|phases| - 1], k, status);
    }
  }

  /** One step of the second `forEach` keeps every day's totals equal to the sums over the phases seen so far. */
  lemma AccumulateStep(phases: seq<PhaseStat>, j: nat, stats: map<string, (int, int)>, day: (int, int))
    requires j < |phases|
    requires forall k :: k in stats ==> stats[k] == (SumFor(phases[..j], k, Completed), SumFor(phases[..j], k, Failed))
    requires phases[j].dayKey !in stats ==> forall i :: 0 <= i < j ==> phases[i].dayKey != phases[j].dayKey
    requires day == Added(if phases[j].dayKey in stats then stats[phases[j].dayKey] else (0, 0), phases[j])
    ensures var next := stats[phases[j].dayKey := day];
      forall k :: k in next ==> next[k] == (SumFor(phases[..j + 1], k, Completed), SumFor(phases[..j + 1], k, Failed))
  {
    var key := phases[j].dayKey;
    if key !in stats {
      assert forall i :: 0 <= i < j ==> phases[..j][i] == phases[i];
      SumForAbsent(phases[..j], key, Completed);
      SumForAbsent(phases[..j], key, Failed);
    }
    var next := stats[key := day];
    forall k | k in next
      ensures next[k] == (SumFor(phases[..j + 1], k, Completed), SumFor(phases[..j + 1], k, Failed))
    {
      SumForStep(phases, j, k, Completed);
      SumForStep(phases, j, k, Failed);
    }
  }

  /** Taking one more phase appends its day to the keys set so far; a day not yet set is no earlier phase's day. */
  lemma KeysStep(days: seq<string>, phases: seq<PhaseStat>, j: nat)
    requires j < |phases|
    ensures days + DayKeys(phases[..j + 1]) == (days + DayKeys(phases[..j])) + [phases[j].dayKey]
    ensures phases[j].dayKey !in Order(days + DayKeys(phases[..j])) ==>
      forall i :: 0 <= i < j ==> phases[i].dayKey != phases[j].dayKey
  {
    assert DayKeys(phases[..j + 1]) == DayKeys(phases[..j]) + [phases[j].dayKey];
    forall i | 0 <= i < j
      ensures phases[i].dayKey in days + DayKeys(phases[..j])
    {
      assert DayKeys(phases[..j])[i] == phases[i].dayKey;
    }
  }

  /** The first `forEach`: every day key of the period set to zero, in period order. */
  method InitDays(days: seq<string>) returns (order: seq<string>, stats: map<string, (int, int)>)
    ensures order == Order(days)
    ensures forall k :: k in stats <==> k in order
    ensures forall k :: k in stats ==> stats[k] == (0, 0)
  {
    order := [];
    stats := map[];
    var i := 0;
    while i < |days|
      invariant 0 <= i <= |days|
      invariant order == Order(days[..i])
      invariant forall k :: k in stats <==> k in order
      invariant forall k :: k in stats ==> stats[k] == (0, 0)
    {
      assert days[..i + 1][..i] == days[..i];
      if days[i] !in stats {
        order := order + [days[i]];
      }
      stats := stats[days[i] := (0, 0)];
      i := i + 1;
    }
    assert days[..i] == days;
  }

  /** The second `forEach`: each phase's credits added to its day, a new day appended to the key order. */
  method Accumulate(days: seq<string>, phases: seq<PhaseStat>, order0: seq<string>, stats0: map<string, (int, int)>)
    returns (order: seq<string>, stats: map<string, (int, int)>)
    requires order0 == Order(days)
    requires forall k :: k in stats0 <==> k in order0
    requires forall k :: k in stats0 ==> stats0[k] == (0, 0)
    ensures order == Order(days + DayKeys(phases))
    ensures forall k :: k in stats <==> k in order
    ensures forall k :: k in stats ==> stats[k] == (SumFor(phases, k, Completed), SumFor(phases, k, Failed))
  {
    order, stats := order0, stats0;
    assert phases[..0] == [];
    assert days + DayKeys(phases[..0]) == days;
    var j := 0;
    while j < |phases|
      invariant 0 <= j <= |phases|
      invariant order == Order(days + DayKeys(phases[..j]))
      invariant forall k :: k in stats <==> k in order
      invariant forall k :: k in stats ==> stats[k] == (SumFor(phases[..j], k, Completed), SumFor(phases[..j], k, Failed))
    {
      var p := phases[j];
      var key := p.dayKey;
      var day := Added(if key in stats then stats[key] else (0, 0), p);
      KeysStep(days, phases, j);
      OrderAppend(days + DayKeys(phases[..j]), key);
      AccumulateStep(phases, j, stats, day);
      if key !in stats {
        order := order + [key];
      }
      stats := stats[key := day];
      j := j + 1;
    }
    assert phases[..j] == phases;
  }

  /**
   * `GetDailyCreditsStats(period)`: throws without a user; otherwise every
   * day key of the period starts at zero, then each phase adds its credits
   * to its day's successful or failed total, creating the day if needed.
   */
  method GetDailyCreditsStats(userId: Option<string>, days: seq<string>, phases: seq<PhaseStat>) returns (r: Result<seq<DayRow>>)
    ensures userId.None? || userId.value == "" ==> r == Err("User not found")
    ensures userId.Some? && userId.value != "" ==> r == Ok(Stats(days, phases))
  {
    if userId.None? || userId.value == "" {
      return Err("User not found");
    }
    var order0, stats0 := InitDays(days);
    var order, stats := Accumulate(days, phases, order0, stats0);
    var rows := seq(|order|, n requires 0 <= n < |order| => DayRow(order[n], stats[order[n]].0, stats[order[n]].1));
    assert rows == RowsOf(order, phases);
    return Ok(rows);
  }

  /** Every day of the period has a row, and so does every day a phase started on; no day has two rows. */
  lemma StatsKeys(days: seq<string>, phases: seq<PhaseStat>)
    ensures var rows := Stats(days, phases);
      && (forall k :: k in days ==> exists i :: 0 <= i < |rows| && rows[i].date == k)
      && (forall i :: 0 <= i < |phases| ==> exists n :: 0 <= n < |rows| && rows[n].date == phases[i].dayKey)
      && (forall a, b :: 0 <= a < b < |rows| ==> rows[a].date != rows[b].date)
  {
    var keys := Order(days + DayKeys(phases));
    var rows := Stats(days, phases);
    forall k | k in days
      ensures exists i :: 0 <= i < |rows| && rows[i].date == k
    {
      assert k in days + DayKeys(phases);
      var i :| 0 <= i < |keys| && keys[i] == k;
      assert rows[i].date == k;
    }
    forall i | 0 <= i < |phases|
      ensures exists n :: 0 <= n < |rows| && rows[n].date == phases[i].dayKey
    {
      assert DayKeys(phases)[i] == phases[i].dayKey;
      assert phases[i].dayKey in days + DayKeys(phases);
      var n :| 0 <= n < |keys| && keys[n] == phases[i].dayKey;
      assert rows[n].date == phases[i].dayKey;
    }
  }

  function SuccessfulSum(rows: seq<DayRow>): int {
    if rows == [] then 0 else SuccessfulSum(rows[..|rows| - 1]) + rows[|rows| - 1].successful
  }

  function FailedSum(rows: seq<DayRow>): int {
    if rows == [] then 0 else FailedSum(rows[..|rows| - 1]) + rows[|rows| - 1].failed
  }

  /** The per-key totals over a list of keys. */
  function SumOver(keys: seq<string>, phases: seq<PhaseStat>, status: string): int {
    if keys == [] then 0 else SumOver(keys[..|keys| - 1], phases, status) + SumFor(phases, keys[|keys| - 1], status)
  }

  lemma {:induction false} ColumnsAreSums(keys: seq<string>, phases: seq<PhaseStat>)
    ensures SuccessfulSum(RowsOf(keys, phases)) == SumOver(keys, phases, Completed)
    ensures FailedSum(RowsOf(keys, phases)) == SumOver(keys, phases, Failed)
  {
    if keys != [] {
      var n := |keys| - 1;
      ColumnsAreSums(keys[..n], phases);
      assert RowsOf(keys, phases)[..n] == RowsOf(keys[..n], phases);
    }
  }

  /** Adding one phase adds its credits to exactly one key of a distinct key list that holds its day. */
  lemma {:induction false} SumOverStep(keys: seq<string>, phases: seq<PhaseStat>, p: PhaseStat, status: string)
    requires Distinct(keys)
    ensures SumOver(keys, phases + [p], status)
      == SumOver(keys, phases, status) + (if p.dayKey in keys && p.status == status then Credits(p) else 0)
  {
    if keys != [] {
      var n := |keys| - 1;
      var front := keys[..n];
      assert Distinct(front);
      SumOverStep(front, phases, p, status);
      assert (phases + [p])[..|phases|] == phases;
      assert keys == front + [keys[n]];
      assert keys[n] !in front;
      assert p.dayKey in keys <==> p.dayKey in front || p.dayKey == keys[n];
    }
  }

  /** Summed over a distinct key list holding every phase's day, the per-day totals give the overall total. */
  lemma {:induction false} SumOverTotal(keys: seq<string>, phases: seq<PhaseStat>, status: string)
    requires Distinct(keys)
    requires forall i :: 0 <= i < |phases| ==> phases[i].dayKey in keys
    ensures SumOver(keys, phases, status) == Total(phases, status)
  {
    if phases == [] {
      SumOverEmpty(keys, status);
    } else {
      var n := |phases| - 1;
      var front := phases[..n];
      SumOverTotal(keys, front, status);
      assert phases == front + [phases[n]];
      SumOverStep(keys, front, phases[n], status);
    }
  }

  lemma {:induction false} SumOverEmpty(keys: seq<string>, status: string)
    ensures SumOver(keys, [], status) == 0
  {
    if keys != [] {
      SumOverEmpty(keys[..|keys| - 1], status);
    }
  }

  /** The successful column adds up to all COMPLETED credits, and the failed column to all FAILED credits. */
  lemma ColumnTotals(days: seq<string>, phases: seq<PhaseStat>)
    ensures SuccessfulSum(Stats(days, phases)) == Total(phases, Completed)
    ensures FailedSum(Stats(days, phases)) == Total(phases, Failed)
  {
    var keys := Order(days + DayKeys(phases));
    ColumnsAreSums(keys, phases);
    forall i | 0 <= i < |phases|
      ensures phases[i].dayKey in keys
    {
      assert DayKeys(phases)[i] == phases[i].dayKey;
      assert phases[i].dayKey in days + DayKeys(phases);
    }
    SumOverTotal(keys, phases, Completed);
    SumOverTotal(keys, phases, Failed);
  }
}
