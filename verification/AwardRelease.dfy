/** ReleaseAwardService: the daily release of award balances into available money. */
module AwardRelease {
  import opened Ledgers
  import opened Rounding
  import opened Sums

  /** The two settings: the text "0" or a percentage, and the balance that is released at once, in
      units of 1e-8 coin. */
  datatype Config = Config(rateIsZero: bool, percent: real, minimum: real)

  /** The percentage as a fraction, rounded to eight places. */
  function RateOf(percent: real): real
  {
    HalfUp(percent * 1000000.0) as real / 100000000.0
  }

  /** What one run releases from an award balance. */
  function ReleaseOf(award: int, rate: real, minimum: real): int
  {
    if award as real > minimum then HalfUp(Times(award as real, rate)) else award
  }

  /** One run on one wallet; the guarded update does nothing when a balance would become negative. */
  function Released(w: Wallet, rate: real, minimum: real): Wallet
  {
    var amount := ReleaseOf(w.award, rate, minimum);
    if w.award > 0 && w.available >= -amount && w.freeze >= 0 && w.award >= amount then
      Wallet(w.available + amount, w.freeze, w.award - amount)
    else w
  }

  ghost predicate EachReleased(before: map<Key, Wallet>, after: map<Key, Wallet>, rate: real, minimum: real)
  {
    && after.Keys == before.Keys
    && forall k :: k in before ==> after[k] == Released(before[k], rate, minimum)
  }

  ghost predicate AnyAward(wallets: map<Key, Wallet>)
  {
    exists k :: k in wallets && wallets[k].award > 0
  }

  function ReleaseAll(wallets: map<Key, Wallet>, rate: real, minimum: real): map<Key, Wallet>
  {
    map k | k in wallets :: Released(wallets[k], rate, minimum)
  }

  /** The scheduled job: its flag, the day of the last release, and the wallets. */
  datatype Job = Job(up: bool, last: int, wallets: map<Key, Wallet>)

  /** One start: nothing on a day that was done or with the flag down; otherwise the release, after which
      the flag is down if there was nothing to do. */
  ghost function Start(j: Job, config: Option<Config>, today: int): Job
  {
    if today <= j.last || !j.up || config.None? then j
    else if config.value.rateIsZero then j.(up := false)
    else Job(AnyAward(j.wallets), today, ReleaseAll(j.wallets, RateOf(config.value.percent), config.value.minimum))
  }

  class ReleaseService {
    const ledger: Ledger
    /** The static flag that says no release is running. */
    var relaseBool: bool
    var lastReleaseTime: int

    constructor (ledger: Ledger)
      ensures this.ledger == ledger && relaseBool && lastReleaseTime == 0
    {
      this.ledger, relaseBool, lastReleaseTime := ledger, true, 0;
    }

    ghost function State(): Job
      reads this, ledger
    {
      Job(relaseBool, lastReleaseTime, ledger.wallets)
    }

    /** releaseAwardBanlance: every wallet with an award releases its share once. Both early returns
        leave the flag down. */
    method ReleaseAwardBalance(config: Option<Config>, today: int)
      modifies this, ledger
      ensures config.Some? && !config.value.rateIsZero ==>
                EachReleased(old(ledger.wallets), ledger.wallets, RateOf(config.value.percent), config.value.minimum)
                && lastReleaseTime == today
      ensures config.None? || config.value.rateIsZero ==>
                ledger.wallets == old(ledger.wallets) && lastReleaseTime == old(lastReleaseTime)
      ensures relaseBool == (config.None? || (!config.value.rateIsZero && AnyAward(old(ledger.wallets))))
    {
      relaseBool := false;
      if config.None? {
        relaseBool := true;
        return;
      }
      if config.value.rateIsZero {
        return;
      }
      var pending := set k | k in ledger.wallets && ledger.wallets[k].award > 0;
      if pending == {} {
        assert forall k :: k in ledger.wallets ==> k !in pending;
        lastReleaseTime := today;
        return;
      }
      assert exists k :: k in pending;
      ReleasePending(pending, RateOf(config.value.percent), config.value.minimum);
      lastReleaseTime := today;
      relaseBool := true;
    }

    /** The loop over the wallets that the query returned. */
    method ReleasePending(wallets: set<Key>, rate: real, minimum: real)
      requires wallets == set k | k in ledger.wallets && ledger.wallets[k].award > 0
      modifies ledger
      ensures EachReleased(old(ledger.wallets), ledger.wallets, rate, minimum)
    {
      var pending := wallets;
      ghost var before := ledger.wallets;
      while pending != {}
        invariant pending <= wallets && ledger.wallets.Keys == before.Keys
        invariant forall k :: k in before ==>
                    ledger.wallets[k] == if k in pending then before[k] else Released(before[k], rate, minimum)
        decreases |pending|
      {
        var k :| k in pending;
        assert k in wallets;
        ReleaseOne(k, rate, minimum);
        pending := pending - {k};
      }
    }

    method ReleaseOne(k: Key, rate: real, minimum: real)
      requires k in ledger.wallets && ledger.wallets[k].award > 0
      modifies ledger
      ensures ledger.wallets == old(ledger.wallets)[k := Released(old(ledger.wallets)[k], rate, minimum)]
      ensures ledger.bills == old(ledger.bills)
          + [Bill(k, Award, ReleaseOf(old(ledger.wallets)[k].award, rate, minimum))]
    {
      var award := ledger.wallets[k].award;
      var amount := if award as real > minimum then HalfUp(Times(award as real, rate)) else award;
      var count := ledger.UpdateRow(k, amount, 0, -amount);
      ledger.bills := ledger.bills + [Bill(k, Award, amount)];
      assert ledger.wallets == old(ledger.wallets)[k := ledger.wallets[k]];
    }

    /** ReleaseTask.startRelease: at most one release a day, and none once the flag stays down. */
    method StartRelease(config: Option<Config>, today: int)
      modifies this, ledger
      ensures State() == Start(old(State()), config, today)
    {
      if today > lastReleaseTime {
        if relaseBool {
          ReleaseAwardBalance(config, today);
          if config.Some? && !config.value.rateIsZero {
            ghost var rate, minimum := RateOf(config.value.percent), config.value.minimum;
            assert ledger.wallets == ReleaseAll(old(ledger.wallets), rate, minimum);
          }
        }
      }
    }
  }

  // ---- how much is released

  /** The rate is the hundredth of the percentage, to eight places; exactly so for six decimals or fewer. */
  lemma RateIsHundredth(percent: real)
    ensures -0.0000005 <= RateOf(percent) * 100.0 - percent <= 0.0000005
    ensures (percent * 1000000.0).Floor as real == percent * 1000000.0 ==> RateOf(percent) * 100.0 == percent
  {
    HalfUpError(percent * 1000000.0);
    if (percent * 1000000.0).Floor as real == percent * 1000000.0 {
      HalfUpWhole((percent * 1000000.0).Floor);
    }
  }

  /** One run: an award above the minimum loses its share, rounded; any other is released whole. */
  lemma ShareReleased(w: Wallet, rate: real, minimum: real)
    requires NonNegative(w) && 0.0 < rate <= 1.0
    ensures var released := w.award - Released(w, rate, minimum).award;
            && Released(w, rate, minimum).available == w.available + released
            && (w.award as real <= minimum ==> released == w.award)
            && (minimum < w.award as real ==> w.award == 0 || -0.5 <= released as real - w.award as real * rate <= 0.5)
  {
    ReleaseConserves(w, rate, minimum);
    HalfUpError(Times(w.award as real, rate));
  }

  // ---- the job over days

  /** A start of the job, or anything else that changes the wallets. */
  datatype JobEvent = Started(config: Option<Config>, today: int) | Elsewhere(wallets: map<Key, Wallet>)

  ghost function Jobs(j: Job, events: seq<JobEvent>): Job
  {
    if events == [] then j else
      var before := Jobs(j, events[..|events| - 1]);
      match events[|events| - 1]
      case Started(config, today) => Start(before, config, today)
      case Elsewhere(wallets) => before.(wallets := wallets)
  }

  /** The wallets if the job did nothing. */
  function WithoutJob(wallets: map<Key, Wallet>, events: seq<JobEvent>): map<Key, Wallet>
  {
    if events == [] then wallets
    else if events[|events| - 1].Elsewhere? then events[|events| - 1].wallets
    else WithoutJob(wallets, events[..|events| - 1])
  }

  /** A start leaves the flag down exactly if it was down, or on a new day with a rate of zero or without
      any award. */
  lemma FlagFallsExactly(j: Job, config: Option<Config>, today: int)
    ensures !Start(j, config, today).up <==>
            !j.up || (today > j.last && config.Some? && (config.value.rateIsZero || !AnyAward(j.wallets)))
  {
  }

  /** After a release no other happens on the same day. */
  lemma OncePerDay(j: Job, config: Option<Config>, again: Option<Config>, today: int)
    ensures Start(j, config, today).wallets != j.wallets ==>
              Start(Start(j, config, today), again, today) == Start(j, config, today)
  {
  }

  /** Once the flag is down it stays down, and the job releases nothing for ever, whatever awards come. */
  lemma {:induction false} DownForEver(j: Job, events: seq<JobEvent>)
    requires !j.up
    ensures Jobs(j, events) == j.(wallets := WithoutJob(j.wallets, events))
  {
    if events != [] {
      DownForEver(j, events[..|events| - 1]);
    }
  }

  // ---- what repeated runs lead to

  lemma ShareInside(award: int, rate: real)
    requires 0 <= award && 0.0 < rate <= 1.0
    ensures 0 <= HalfUp(Times(award as real, rate)) <= award
  {
    TimesFraction(award as real, rate);
    HalfUpMonotone(Times(award as real, rate), award as real);
    HalfUpSign(Times(award as real, rate));
    HalfUpWhole(award);
  }

  /** With a rate in (0,1] a release only moves money from the award to the available balance. */
  lemma ReleaseConserves(w: Wallet, rate: real, minimum: real)
    requires NonNegative(w) && 0.0 < rate <= 1.0
    ensures var after := Released(w, rate, minimum);
            && NonNegative(after) && after.freeze == w.freeze && after.award <= w.award
            && after.available + after.award == w.available + w.award
            && after.award == w.award - (if w.award > 0 then ReleaseOf(w.award, rate, minimum) else 0)
  {
    ShareInside(w.award, rate);
  }

  /** A wallet after `n` runs. */
  function Runs(w: Wallet, rate: real, minimum: real, n: nat): Wallet
  {
    if n == 0 then w else Released(Runs(w, rate, minimum, n - 1), rate, minimum)
  }

  lemma {:induction false} RunsConserve(w: Wallet, rate: real, minimum: real, n: nat)
    requires NonNegative(w) && 0.0 < rate <= 1.0
    ensures var after := Runs(w, rate, minimum, n);
            && NonNegative(after) && after.freeze == w.freeze && after.award <= w.award
            && after.available + after.award == w.available + w.award
  {
    if n > 0 {
      RunsConserve(w, rate, minimum, n - 1);
      ReleaseConserves(Runs(w, rate, minimum, n - 1), rate, minimum);
    }
  }

  /** The smallest balance that is released by its share and not at once. */
  function Least(minimum: real): int
  {
    if minimum < 0.0 then 1 else minimum.Floor + 1
  }

  lemma LeastIsLeast(award: int, minimum: real)
    requires 0 < award
    ensures award as real > minimum <==> award >= Least(minimum)
  {
  }

  /** Whether the share of the smallest such balance rounds to anything. */
  predicate Moves(rate: real, minimum: real)
  {
    HalfUp(Times(Least(minimum) as real, rate)) >= 1
  }

  /** If it does, every run takes at least one unit, so as many runs as there are units suffice. */
  lemma MovingStep(award: int, rate: real, minimum: real)
    requires 0 < award && 0.0 < rate <= 1.0 && Moves(rate, minimum)
    ensures 1 <= ReleaseOf(award, rate, minimum)
  {
    LeastIsLeast(award, minimum);
    if award as real > minimum {
      TimesMonotone(Least(minimum) as real, award as real, rate);
      HalfUpMonotone(Times(Least(minimum) as real, rate), Times(award as real, rate));
    }
  }

  lemma {:induction false} MovingDrains(w: Wallet, rate: real, minimum: real, n: nat)
    requires NonNegative(w) && 0.0 < rate <= 1.0 && Moves(rate, minimum)
    ensures Runs(w, rate, minimum, n).award <= if n <= w.award then w.award - n else 0
  {
    if n > 0 {
      var before := Runs(w, rate, minimum, n - 1);
      MovingDrains(w, rate, minimum, n - 1);
      RunsConserve(w, rate, minimum, n - 1);
      ReleaseConserves(before, rate, minimum);
      if before.award > 0 {
        MovingStep(before.award, rate, minimum);
      }
    }
  }

  lemma StuckArithmetic(a: real, t: real, rate: real)
    requires t + 1.0 <= a && 0.0 < rate <= 1.0 && Times(t, rate) < 0.5
    ensures t - 1.0 < a - Times(a, rate) - 0.5
  {
    TimesSign(a - t - 1.0, 1.0 - rate);
    assert Times(a - t - 1.0, 1.0 - rate) == a - Times(a, rate) - t + Times(t, rate) - 1.0 + rate;
  }

  /** If it does not, a balance above the minimum never falls below the smallest one. */
  lemma StuckStep(award: int, least: int, rate: real)
    requires 0 < least <= award && 0.0 < rate <= 1.0
    requires HalfUp(Times(least as real, rate)) < 1
    ensures award - HalfUp(Times(award as real, rate)) >= least
  {
    TimesSign(least as real, rate);
    HalfUpSign(Times(least as real, rate));
    if award > least {
      StuckArithmetic(award as real, least as real, rate);
      HalfUpError(Times(award as real, rate));
    }
  }

  lemma {:induction false} StuckForever(w: Wallet, rate: real, minimum: real, n: nat)
    requires NonNegative(w) && 0.0 < rate <= 1.0 && !Moves(rate, minimum)
    requires w.award >= Least(minimum)
    ensures Runs(w, rate, minimum, n).award >= Least(minimum)
  {
    if n > 0 {
      var before := Runs(w, rate, minimum, n - 1);
      StuckForever(w, rate, minimum, n - 1);
      RunsConserve(w, rate, minimum, n - 1);
      ReleaseConserves(before, rate, minimum);
      LeastIsLeast(before.award, minimum);
      StuckStep(before.award, Least(minimum), rate);
    }
  }

  /** For instance an award of one unit, at one percent and without a minimum, is never released. */
  lemma {:induction false} OneUnitStays(n: nat)
    ensures Runs(Wallet(0, 0, 1), RateOf(1.0), 0.0, n) == Wallet(0, 0, 1)
  {
    if n > 0 {
      OneUnitStays(n - 1);
      HalfUpWhole(1000000);
      assert RateOf(1.0) == 0.01;
      assert Times(1.0, 0.01) == 0.01;
      assert HalfUp(0.01) == 0;
    }
  }

  /** Repeated runs empty an award balance if and only if it is not above the minimum or the share of
      the smallest balance above the minimum rounds to at least one unit. */
  lemma DrainsExactlyWhenMoving(w: Wallet, rate: real, minimum: real)
    requires NonNegative(w) && 0.0 < rate <= 1.0
    ensures (exists n: nat :: Runs(w, rate, minimum, n).award == 0)
            <==> (w.award < Least(minimum) || Moves(rate, minimum))
    ensures Moves(rate, minimum) ==> Runs(w, rate, minimum, w.award).award == 0
  {
    if Moves(rate, minimum) {
      MovingDrains(w, rate, minimum, w.award);
      RunsConserve(w, rate, minimum, w.award);
    } else if w.award >= Least(minimum) {
      forall n: nat ensures Runs(w, rate, minimum, n).award != 0 {
        StuckForever(w, rate, minimum, n);
      }
    } else {
      ReleaseConserves(w, rate, minimum);
      if w.award > 0 {
        LeastIsLeast(w.award, minimum);
      }
      assert Runs(w, rate, minimum, 0) == w;
      assert Runs(w, rate, minimum, 1).award == 0;
    }
  }

  // ---- how fast

  function Pow(x: real, n: nat): real
  {
    if n == 0 then 1.0 else Times(Pow(x, n - 1), x)
  }

  lemma TimesAssociates(a: real, b: real, c: real)
    ensures Times(Times(a, b), c) == Times(a, Times(b, c))
  {
  }

  lemma TimesRest(a: real, rate: real)
    ensures Times(a, 1.0 - rate) == a - Times(a, rate)
  {
  }

  /** One run leaves at most the share that is not released, up to half a unit. */
  lemma ReleaseDecays(w: Wallet, rate: real, minimum: real)
    requires NonNegative(w) && 0.0 < rate <= 1.0
    ensures Released(w, rate, minimum).award as real <= Times(w.award as real, 1.0 - rate) + 0.5
  {
    ReleaseConserves(w, rate, minimum);
    HalfUpError(Times(w.award as real, rate));
    TimesRest(w.award as real, rate);
    TimesSign(w.award as real, 1.0 - rate);
  }

  /** The award decays geometrically: after `n` runs it is at most (1 - rate)^n of what it was, and half
      a unit per rate. */
  lemma {:induction false} AwardDecays(w: Wallet, rate: real, minimum: real, n: nat, rest: real)
    requires NonNegative(w) && 0.0 < rate <= 1.0 && Times(rest, rate) == 0.5 && 0.0 <= rest
    ensures Runs(w, rate, minimum, n).award as real <= Times(w.award as real, Pow(1.0 - rate, n)) + rest
  {
    if n == 0 {
      assert Times(w.award as real, 1.0) == w.award as real;
    } else {
      var before, power := Runs(w, rate, minimum, n - 1), Pow(1.0 - rate, n - 1);
      AwardDecays(w, rate, minimum, n - 1, rest);
      RunsConserve(w, rate, minimum, n - 1);
      ReleaseDecays(before, rate, minimum);
      TimesMonotone(before.award as real, Times(w.award as real, power) + rest, 1.0 - rate);
      TimesPlus(Times(w.award as real, power), rest, 1.0 - rate);
      TimesAssociates(w.award as real, power, 1.0 - rate);
      TimesRest(rest, rate);
    }
  }

  lemma {:induction false} RunsContinue(w: Wallet, rate: real, minimum: real, n: nat, more: nat)
    ensures Runs(Runs(w, rate, minimum, n), rate, minimum, more) == Runs(w, rate, minimum, n + more)
  {
    if more > 0 {
      RunsContinue(w, rate, minimum, n, more - 1);
    }
  }

  /** So a balance whose share moves is empty after the runs that bring it down to a unit at the rate, and
      as many as half a unit per rate is worth, and one. */
  lemma DrainsFast(w: Wallet, rate: real, minimum: real, n: nat, more: nat)
    requires NonNegative(w) && 0.0 < rate <= 1.0 && Moves(rate, minimum)
    requires 1.0 <= Times((2 * more - 2) as real, rate)
    requires Times(w.award as real, Pow(1.0 - rate, n)) <= 1.0
    ensures Runs(w, rate, minimum, n + more).award == 0
  {
    var rest := HalfAUnit(rate, more);
    AwardDecays(w, rate, minimum, n, rest);
    RunsConserve(w, rate, minimum, n);
    MovingDrains(Runs(w, rate, minimum, n), rate, minimum, more);
    RunsContinue(w, rate, minimum, n, more);
    RunsConserve(w, rate, minimum, n + more);
  }

  lemma TimesStrictlyMonotone(a: real, b: real, f: real)
    requires a < b && 0.0 < f
    ensures Times(a, f) < Times(b, f)
  {
    assert (b - a) * f > 0.0;
    assert Times(b - a, f) == Times(b, f) - Times(a, f);
  }

  lemma HalfAUnit(rate: real, more: nat) returns (rest: real)
    requires 0.0 < rate <= 1.0 && 1.0 <= Times((2 * more - 2) as real, rate)
    ensures Times(rest, rate) == 0.5 && 0.0 <= rest && rest + 1.0 <= more as real
  {
    rest := 0.5 / rate;
    var enough := (2 * more - 2) as real;
    assert Times(2.0 * rest, rate) == 1.0;
    if enough < 2.0 * rest {
      TimesStrictlyMonotone(enough, 2.0 * rest, rate);
    }
  }

  // ---- how many runs that are

  function PowerOfTwo(n: nat): (r: nat)
    ensures r >= 1
  {
    if n == 0 then 1 else 2 * PowerOfTwo(n - 1)
  }

  /** The number of binary digits. */
  function Bits(a: nat): nat
  {
    if a == 0 then 0 else 1 + Bits(a / 2)
  }

  lemma {:induction false} BitsSuffice(a: nat)
    ensures a < PowerOfTwo(Bits(a))
  {
    if a > 0 {
      BitsSuffice(a / 2);
    }
  }

  /** As many runs as the rate goes into one, and one: they at least halve a balance. */
  function HalfLife(rate: real): nat
    requires 0.0 < rate
  {
    (1.0 / rate).Floor + 1
  }

  lemma HalfLifeCovers(rate: real)
    requires 0.0 < rate <= 1.0
    ensures 1.0 <= Times(HalfLife(rate) as real, rate)
  {
    var inverse := 1.0 / rate;
    assert Times(inverse, rate) == 1.0;
    TimesMonotone(inverse, HalfLife(rate) as real, rate);
  }

  lemma TimesCommutes(a: real, b: real)
    ensures Times(a, b) == Times(b, a)
  {
  }

  lemma {:induction false} PowInside(x: real, n: nat)
    requires 0.0 <= x <= 1.0
    ensures 0.0 <= Pow(x, n) <= 1.0
  {
    if n > 0 {
      PowInside(x, n - 1);
      TimesFraction(Pow(x, n - 1), x);
    }
  }

  lemma {:induction false} PowPlus(x: real, m: nat, n: nat)
    ensures Pow(x, m + n) == Times(Pow(x, m), Pow(x, n))
  {
    if n > 0 {
      PowPlus(x, m, n - 1);
      TimesAssociates(Pow(x, m), Pow(x, n - 1), x);
    }
  }

  /** Bernoulli's inequality for what is left. */
  lemma {:induction false} PowFalls(rate: real, n: nat)
    requires 0.0 < rate <= 1.0
    ensures Times(Pow(1.0 - rate, n), 1.0 + Times(n as real, rate)) <= 1.0
  {
    if n > 0 {
      var p, k := Pow(1.0 - rate, n - 1), (n - 1) as real;
      PowFalls(rate, n - 1);
      PowInside(1.0 - rate, n - 1);
      TimesAssociates(p, 1.0 - rate, 1.0 + Times(n as real, rate));
      OneFactor(rate, k);
      TimesCommutes(p, Times(1.0 - rate, 1.0 + Times(k + 1.0, rate)));
      TimesCommutes(p, 1.0 + Times(k, rate));
      TimesMonotone(Times(1.0 - rate, 1.0 + Times(k + 1.0, rate)), 1.0 + Times(k, rate), p);
    }
  }

  lemma OneFactor(rate: real, k: real)
    requires 0.0 < rate <= 1.0 && 0.0 <= k
    ensures Times(1.0 - rate, 1.0 + Times(k + 1.0, rate)) <= 1.0 + Times(k, rate)
  {
    TimesPlus(k, 1.0, rate);
    var c := 1.0 + Times(k + 1.0, rate);
    TimesSign(k + 1.0, rate);
    TimesCommutes(1.0 - rate, c);
    TimesRest(c, rate);
    TimesMonotone(1.0, c, rate);
  }

  lemma HalvedOnce(rate: real)
    requires 0.0 < rate <= 1.0
    ensures 2.0 * Pow(1.0 - rate, HalfLife(rate)) <= 1.0
  {
    var h, p := HalfLife(rate), Pow(1.0 - rate, HalfLife(rate));
    HalfLifeCovers(rate);
    PowInside(1.0 - rate, h);
    PowFalls(rate, h);
    TimesCommutes(p, 2.0);
    TimesCommutes(p, 1.0 + Times(h as real, rate));
    TimesMonotone(2.0, 1.0 + Times(h as real, rate), p);
  }

  lemma {:induction false} HalvedOften(rate: real, n: nat)
    requires 0.0 < rate <= 1.0
    ensures Times(PowerOfTwo(n) as real, Pow(1.0 - rate, n * HalfLife(rate))) <= 1.0
  {
    if n > 0 {
      var h, q := HalfLife(rate), 1.0 - rate;
      var once, before := Pow(q, h), Pow(q, (n - 1) * h);
      HalvedOften(rate, n - 1);
      HalvedOnce(rate);
      PowInside(q, (n - 1) * h);
      PowInside(q, h);
      assert n * h == (n - 1) * h + h;
      PowPlus(q, (n - 1) * h, h);
      TwiceHalved(PowerOfTwo(n - 1) as real, before, once);
    }
  }

  lemma TwiceHalved(power: real, before: real, once: real)
    requires 0.0 <= power && 0.0 <= before && 0.0 <= once && Times(power, before) <= 1.0 && 2.0 * once <= 1.0
    ensures Times(2.0 * power, Times(before, once)) <= 1.0
  {
    TimesSign(power, before);
    TimesMonotone(Times(power, before), 1.0, 2.0 * once);
    assert Times(2.0 * power, Times(before, once)) == Times(Times(power, before), 2.0 * once);
    assert Times(1.0, 2.0 * once) == 2.0 * once;
  }

  function HalvingRuns(award: nat, rate: real): nat
    requires 0.0 < rate
  {
    Bits(award) * HalfLife(rate)
  }

  lemma FallsToOne(award: nat, rate: real)
    requires 0.0 < rate <= 1.0
    ensures Times(award as real, Pow(1.0 - rate, HalvingRuns(award, rate))) <= 1.0
  {
    HalvedOften(rate, Bits(award));
    BitsSuffice(award);
    PowInside(1.0 - rate, HalvingRuns(award, rate));
    TimesMonotone(award as real, PowerOfTwo(Bits(award)) as real, Pow(1.0 - rate, HalvingRuns(award, rate)));
  }

  lemma HalfLifeIsEnough(rate: real)
    requires 0.0 < rate <= 1.0
    ensures 1.0 <= Times((2 * (HalfLife(rate) + 1) - 2) as real, rate)
  {
    HalfLifeCovers(rate);
    TimesMonotone(HalfLife(rate) as real, (2 * (HalfLife(rate) + 1) - 2) as real, rate);
  }

  /** So the runs that empty a balance whose share moves are at most the number of its binary digits, and
      one, times a number that depends on the rate alone, and one. */
  lemma DrainsInLogarithmicTime(w: Wallet, rate: real, minimum: real)
    requires NonNegative(w) && 0.0 < rate <= 1.0 && Moves(rate, minimum)
    ensures Runs(w, rate, minimum, HalvingRuns(w.award, rate) + (HalfLife(rate) + 1)).award == 0
  {
    FallsToOne(w.award, rate);
    HalfLifeIsEnough(rate);
    DrainsFast(w, rate, minimum, HalvingRuns(w.award, rate), HalfLife(rate) + 1);
  }
}
