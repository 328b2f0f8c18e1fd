/** What the two reward passes of StatService share: the level table, a user's statistics row, and the
    earnings row that rewards are added to. */
module Levels {
  import opened Sums

  /** A row of t_config_level. */
  datatype Level = Level(id: int, minAmount: real, maxAmount: real, consume: real, rate: real)

  /** A row of t_user_stat. */
  datatype StatRow = StatRow(userId: int, moneyAll: real)

  /** A row of t_user_earnings. */
  datatype Earnings = Earnings(give: real, freeze: real)

  predicate Holds(level: Level, moneyAll: real)
  {
    level.minAmount <= moneyAll < level.maxAmount
  }

  function LevelOf(levels: seq<Level>, moneyAll: real): (level: Option<Level>)
    ensures level.Some? <==> levels != []
    ensures level.Some? ==> level.value in levels
  {
    if levels == [] then None
    else if |levels| == 1 || Holds(levels[0], moneyAll) then Some(levels[0])
    else LevelOf(levels[1..], moneyAll)
  }

  /** The level of an amount is the first whose range holds it, and the last when no range does. */
  lemma {:induction false} LevelIsFirstOrLast(levels: seq<Level>, moneyAll: real) returns (i: nat)
    requires levels != []
    ensures i < |levels| && LevelOf(levels, moneyAll) == Some(levels[i])
    ensures forall j :: 0 <= j < i ==> !(levels[j].minAmount <= moneyAll < levels[j].maxAmount)
    ensures levels[i].minAmount <= moneyAll < levels[i].maxAmount || i == |levels| - 1
  {
    i := 0;
    if |levels| > 1 && !Holds(levels[0], moneyAll) {
      i := LevelIsFirstOrLast(levels[1..], moneyAll);
      i := i + 1;
    }
  }

  /** getUserLevel. */
  method GetUserLevel(levels: seq<Level>, moneyAll: real) returns (level: Option<Level>)
    ensures level == LevelOf(levels, moneyAll)
  {
    level := None;
    for i := 0 to |levels|
      invariant LevelOf(levels, moneyAll) == if i == |levels| then level else LevelOf(levels[i..], moneyAll)
    {
      if levels[i].minAmount <= moneyAll < levels[i].maxAmount {
        return Some(levels[i]);
      }
      level := Some(levels[i]);
      assert levels[i..][1..] == levels[i + 1..];
    }
  }
}
