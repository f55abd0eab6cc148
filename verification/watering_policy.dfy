/**
  The watering policy of the controller: the compiled-in breakpoint table and
  the lookup that turns a temperature into a watering interval. The lookup
  keeps the longest prefix of the table whose thresholds the temperature
  strictly exceeds and takes the interval of its last entry, or the default
  when that prefix is empty.
 */
module WateringPolicy {
  import Dht22

  /** A temperature threshold in degrees Celsius and the watering interval in seconds it selects. */
  datatype Breakpoint = Breakpoint(threshold: real, intervalS: nat)

  /** Used when the temperature exceeds no threshold. */
  const WateringIntervalDefault: Breakpoint := Breakpoint(5.0, 180 * 60)

  /** The breakpoint table, in ascending threshold order. */
  const WateringIntervals: seq<Breakpoint> := [
    Breakpoint(5.0, 180 * 60),
    Breakpoint(10.0, 120 * 60),
    Breakpoint(15.0, 90 * 60),
    Breakpoint(20.0, 60 * 60),
    Breakpoint(25.0, 30 * 60),
    Breakpoint(30.0, 15 * 60)
  ]

  /** Thresholds strictly increase along the table. */
  predicate ThresholdsIncrease(table: seq<Breakpoint>)
  {
    forall i, j :: 0 <= i < j < |table| ==> table[i].threshold < table[j].threshold
  }

  /** Intervals never grow along the table, and the default is at least every table interval. */
  predicate IntervalsShrink(table: seq<Breakpoint>, default: Breakpoint)
  {
    && (forall i, j :: 0 <= i < j < |table| ==> table[i].intervalS >= table[j].intervalS)
    && (forall i :: 0 <= i < |table| ==> default.intervalS >= table[i].intervalS)
  }

  /** The intervals a lookup in the compiled-in table can produce. */
  predicate IsTableInterval(s: nat)
  {
    s in {10800, 7200, 5400, 3600, 1800, 900}
  }

  /** `temp` strictly exceeds each of the first `n` thresholds of `table`. */
  predicate ExceedsFirst(temp: real, table: seq<Breakpoint>, n: nat)
    requires n <= |table|
  {
    forall j :: 0 <= j < n ==> temp > table[j].threshold
  }

  /** The longest prefix of `table` whose every threshold `temp` strictly exceeds. */
  function TakeWhileAbove(temp: real, table: seq<Breakpoint>): (taken: seq<Breakpoint>)
    ensures |taken| <= |table| && taken == table[..|taken|]
    ensures forall i :: 0 <= i < |taken| ==> temp > table[i].threshold
    ensures |taken| < |table| ==> temp <= table[|taken|].threshold
  {
    if |table| == 0 || !(temp > table[0].threshold) then []
    else [table[0]] + TakeWhileAbove(temp, table[1..])
  }

  /** The last entry of the kept prefix, or `default` when nothing was kept. */
  function Lookup(temp: real, table: seq<Breakpoint>, default: Breakpoint): (b: Breakpoint)
    ensures |table| == 0 || temp <= table[0].threshold ==> b == default
    ensures |table| > 0 && temp > table[0].threshold ==>
      exists i :: 0 <= i < |table| && b == table[i]
                  && ExceedsFirst(temp, table, i + 1)
                  && (i + 1 == |table| || temp <= table[i + 1].threshold)
  {
    var taken := TakeWhileAbove(temp, table);
    if |taken| == 0 then default else taken[|taken| - 1]
  }

  /**
    The watering interval in seconds for a measurement; only its temperature
    matters. It is always one of the table's intervals, and it agrees with the
    step-function statement of the policy at every temperature.
   */
  function GetWateringInterval(m: Dht22.Measurement): (r: nat)
    ensures r == StepInterval(m.temp)
    ensures IsTableInterval(r)
  {
    TableWellFormed();
    TakeWhileAboveSorted(m.temp, WateringIntervals);
    var k := |TakeWhileAbove(m.temp, WateringIntervals)|;
    assert k > 0 ==> Lookup(m.temp, WateringIntervals, WateringIntervalDefault) == WateringIntervals[k - 1];
    Lookup(m.temp, WateringIntervals, WateringIntervalDefault).intervalS
  }

  /**
    An independent statement of the policy as a step function: each tier
    applies once the temperature is strictly above its threshold.
   */
  function StepInterval(temp: real): nat
  {
    if temp > 30.0 then 900
    else if temp > 25.0 then 1800
    else if temp > 20.0 then 3600
    else if temp > 15.0 then 5400
    else if temp > 10.0 then 7200
    else 10800
  }

  /** In a table with increasing thresholds, exactly the entries whose threshold lies below `temp` are kept. */
  lemma TakeWhileAboveSorted(temp: real, table: seq<Breakpoint>)
    requires ThresholdsIncrease(table)
    ensures forall i :: 0 <= i < |table| ==> (i < |TakeWhileAbove(temp, table)| <==> temp > table[i].threshold)
  {
    var taken := TakeWhileAbove(temp, table);
    forall i | 0 <= i < |table|
      ensures i < |taken| <==> temp > table[i].threshold
    {
      if i >= |taken| {
        assert temp <= table[|taken|].threshold;
        assert table[|taken|].threshold <= table[i].threshold;
      }
    }
  }

  /** A higher temperature keeps at least as long a prefix, whatever the table's order. */
  lemma TakeWhileAboveGrows(t1: real, t2: real, table: seq<Breakpoint>)
    requires t1 <= t2
    ensures |TakeWhileAbove(t1, table)| <= |TakeWhileAbove(t2, table)|
  {
  }

  /** The lookup is monotone non-increasing in temperature for any table whose intervals shrink. */
  lemma LookupMonotone(t1: real, t2: real, table: seq<Breakpoint>, default: Breakpoint)
    requires t1 <= t2
    requires IntervalsShrink(table, default)
    ensures Lookup(t1, table, default).intervalS >= Lookup(t2, table, default).intervalS
  {
    TakeWhileAboveGrows(t1, t2, table);
    var k1 := |TakeWhileAbove(t1, table)|;
    var k2 := |TakeWhileAbove(t2, table)|;
    if k2 == 0 {
      assert Lookup(t2, table, default) == default;
      assert Lookup(t1, table, default) == default;
    } else if k1 == 0 {
      assert Lookup(t1, table, default) == default;
      assert Lookup(t2, table, default) == table[k2 - 1];
    } else {
      assert Lookup(t1, table, default) == table[k1 - 1];
      assert Lookup(t2, table, default) == table[k2 - 1];
      assert k1 - 1 <= k2 - 1;
    }
  }

  /**
    Tie rule: a temperature equal to the k-th threshold does not select that
    entry but the one before it, or the default for the first threshold.
   */
  lemma LookupAtThreshold(table: seq<Breakpoint>, default: Breakpoint, k: nat)
    requires ThresholdsIncrease(table)
    requires k < |table|
    ensures Lookup(table[k].threshold, table, default) == if k == 0 then default else table[k - 1]
  {
    var temp := table[k].threshold;
    TakeWhileAboveSorted(temp, table);
    assert |TakeWhileAbove(temp, table)| == k;
  }

  /** The compiled-in table is ordered as the lookup expects. */
  lemma TableWellFormed()
    ensures ThresholdsIncrease(WateringIntervals)
    ensures IntervalsShrink(WateringIntervals, WateringIntervalDefault)
  {
  }

  /** At or below the first threshold of 5 degrees the default of 10800 seconds applies. */
  lemma GetWateringIntervalDefault(m: Dht22.Measurement)
    requires m.temp <= WateringIntervalDefault.threshold
    ensures GetWateringInterval(m) == WateringIntervalDefault.intervalS == 10800
  {
    assert TakeWhileAbove(m.temp, WateringIntervals) == [];
  }

  /** A temperature exactly on a threshold keeps the previous tier: 20 degrees gives 5400, not 3600. */
  lemma GetWateringIntervalTies(m: Dht22.Measurement, k: nat)
    requires k < |WateringIntervals| && m.temp == WateringIntervals[k].threshold
    ensures GetWateringInterval(m) == if k == 0 then WateringIntervalDefault.intervalS else WateringIntervals[k - 1].intervalS
    ensures m.temp == 20.0 ==> GetWateringInterval(m) == 5400
  {
    TableWellFormed();
    LookupAtThreshold(WateringIntervals, WateringIntervalDefault, k);
  }

  /** Higher temperature never means a longer interval. */
  lemma GetWateringIntervalMonotone(m1: Dht22.Measurement, m2: Dht22.Measurement)
    requires m1.temp <= m2.temp
    ensures GetWateringInterval(m1) >= GetWateringInterval(m2)
  {
    TableWellFormed();
    LookupMonotone(m1.temp, m2.temp, WateringIntervals, WateringIntervalDefault);
  }

  /** The interval does not depend on the humidity part of a measurement. */
  lemma GetWateringIntervalIgnoresHumidity(m1: Dht22.Measurement, m2: Dht22.Measurement)
    requires m1.temp == m2.temp
    ensures GetWateringInterval(m1) == GetWateringInterval(m2)
  {
  }

  /** The seven reference vectors of the policy. */
  lemma GetWateringIntervalVectors()
    ensures GetWateringInterval(Dht22.Measurement(4.9, 0.0)) == 180 * 60
    ensures GetWateringInterval(Dht22.Measurement(9.9, 0.0)) == 180 * 60
    ensures GetWateringInterval(Dht22.Measurement(14.9, 0.0)) == 120 * 60
    ensures GetWateringInterval(Dht22.Measurement(19.9, 0.0)) == 90 * 60
    ensures GetWateringInterval(Dht22.Measurement(24.9, 0.0)) == 60 * 60
    ensures GetWateringInterval(Dht22.Measurement(29.9, 0.0)) == 30 * 60
    ensures GetWateringInterval(Dht22.Measurement(34.9, 0.0)) == 15 * 60
  {
  }
}
