/** The experience-levels page: one card per level with its members, averages,
    share of the total and the first five names. */
module ExperienceLevels {
  import opened Options
  import opened Seqs
  import opened Rounding
  import opened EmployeeTypes
  import opened EmployeeStore
  import opened Aggregates

  /** The levels the page lists, in its order. */
  const ListedLevels: seq<string> := ["junior", "mid", "senior", "lead"]

  datatype LevelStats = LevelStats(employees: seq<Employee>, count: nat, avgSalary: nat, avgExperience: nat)

  /** `getLevelStats`: the records at the level, in collection order, their count,
      and averages that are 0 for an empty level. */
  function LevelStatsFor(es: seq<Employee>, level: string): (r: LevelStats)
    ensures r.employees == OfLevel(es, level) && r.count == |r.employees|
    ensures r.count == 0 ==> r.avgSalary == 0 && r.avgExperience == 0
  {
    var members := OfLevel(es, level);
    LevelStats(members, |members|, RoundedAverage(SalaryTotal(members), |members|),
               RoundedAverage(YearsTotal(members), |members|))
  }

  /** The share of the total: 0 with no employees, otherwise
      `Math.round(count / total * 100)`, and never above 100. */
  function LevelPercentage(es: seq<Employee>, level: string): (r: nat)
    ensures es == [] ==> r == 0
    ensures es != [] ==> r == RoundDiv(100 * LevelStatsFor(es, level).count, |es|)
    ensures r <= 100
  {
    var c := LevelStatsFor(es, level).count;
    PercentageAtMost100(c, |es|);
    Percentage(c, |es|)
  }

  /** The listed names: at most five, the first ones at the level. */
  function Listed(s: LevelStats): (r: seq<Employee>)
    ensures |r| <= 5 && |r| <= |s.employees|
    ensures forall i :: 0 <= i < |r| ==> r[i] == s.employees[i]
  {
    Prefix(s.employees, 5)
  }

  /** "+k more employees": present exactly when the count exceeds five, with k = count - 5. */
  function MoreLabel(s: LevelStats): (r: Option<nat>)
    ensures r.Some? <==> s.count > 5
    ensures r.Some? ==> r.value + 5 == s.count
  {
    if s.count > 5 then Some(s.count - 5) else None
  }

  /** When "+k more" is shown, the listed five and the k hidden ones are all the level's members. */
  lemma ListedAndMoreCoverLevel(es: seq<Employee>, level: string)
    ensures var s := LevelStatsFor(es, level);
            |Listed(s)| + MoreLabel(s).GetOr(0) == s.count
  {
  }

  /** The counts over the four listed levels add up to the total. */
  lemma ListedCountsCoverAll(es: seq<Employee>)
    ensures LevelStatsFor(es, ListedLevels[0]).count + LevelStatsFor(es, ListedLevels[1]).count
            + LevelStatsFor(es, ListedLevels[2]).count + LevelStatsFor(es, ListedLevels[3]).count == |es|
  {
    assert ListedLevels == [LevelName(Junior), LevelName(Mid), LevelName(Senior), LevelName(Lead)];
    LevelsPartition(es);
  }
}
