/**
 * Running traffic statistics over the parsed entries (src/Statistics.java).
 * A `Statistics` object is fed entries one at a time; it keeps the total of
 * their response sizes, their number, and the earliest and latest entry time
 * (absent until the first entry). The ghost field `entries` records every
 * entry added so far, and `Valid()` ties each field to it.
 */
module Stats {
  import opened Text
  import opened LogEntries

  /** The entry times, in the order the entries were added. */
  function Times(es: seq<LogEntry>): (ts: seq<int>)
    ensures |ts| == |es|
    ensures forall i :: 0 <= i < |es| ==> ts[i] == es[i].time
  {
    seq(|es|, i requires 0 <= i < |es| => es[i].time)
  }

  /** The sum of the response sizes of `es`. */
  function TotalSize(es: seq<LogEntry>): nat {
    if es == [] then 0 else TotalSize(es[..|es| - 1]) + es[|es| - 1].responseSize
  }

  function Min(a: int, b: int): int { if b < a then b else a }

  function Max(a: int, b: int): int { if b > a then b else a }

  /** The least of a non-empty sequence of times, folded from the left. */
  function MinOf(ts: seq<int>): int
    requires ts != []
  {
    if |ts| == 1 then ts[0] else Min(MinOf(ts[..|ts| - 1]), ts[|ts| - 1])
  }

  /** The greatest of a non-empty sequence of times, folded from the left. */
  function MaxOf(ts: seq<int>): int
    requires ts != []
  {
    if |ts| == 1 then ts[0] else Max(MaxOf(ts[..|ts| - 1]), ts[|ts| - 1])
  }

  /** The least and the greatest time are among the times and bound all of them. */
  lemma {:induction false} MinMaxBounds(ts: seq<int>)
    requires ts != []
    ensures MinOf(ts) in ts && forall i :: 0 <= i < |ts| ==> MinOf(ts) <= ts[i]
    ensures MaxOf(ts) in ts && forall i :: 0 <= i < |ts| ==> ts[i] <= MaxOf(ts)
  {
    if |ts| > 1 {
      var init := ts[..|ts| - 1];
      MinMaxBounds(init);
      assert forall i :: 0 <= i < |init| ==> ts[i] == init[i];
      assert MinOf(init) in init && MaxOf(init) in init;
    }
  }

  /** Adding one size to the total. */
  lemma TotalSizeAppend(es: seq<LogEntry>, e: LogEntry)
    ensures TotalSize(es + [e]) == TotalSize(es) + e.responseSize
  {
    assert (es + [e])[..|es|] == es;
  }

  /** Folding in one more time. */
  lemma MinMaxAppend(ts: seq<int>, t: int)
    requires ts != []
    ensures MinOf(ts + [t]) == Min(MinOf(ts), t)
    ensures MaxOf(ts + [t]) == Max(MaxOf(ts), t)
  {
    assert (ts + [t])[..|ts|] == ts;
  }

  /** The time bounds of the entries after one more entry. */
  lemma BoundsAppend(es: seq<LogEntry>, e: LogEntry)
    ensures es == [] ==> MinOf(Times(es + [e])) == e.time && MaxOf(Times(es + [e])) == e.time
    ensures es != [] ==> MinOf(Times(es + [e])) == Min(MinOf(Times(es)), e.time)
    ensures es != [] ==> MaxOf(Times(es + [e])) == Max(MaxOf(Times(es)), e.time)
  {
    assert Times(es + [e]) == Times(es) + [e.time];
    if es != [] {
      MinMaxAppend(Times(es), e.time);
    } else {
      assert Times(es + [e]) == [e.time];
    }
  }

  /** Dividing a non-negative amount by a divisor of at least one. */
  lemma DivideByDivisor(t: real, h: real)
    requires t >= 0.0 && h >= 1.0
    ensures 0.0 <= t / h <= t
    ensures (t / h) * h == t
  {
  }

  /**
   * The earliest and latest times do not depend on the order in which the
   * entries arrive: any rearrangement of the times has the same bounds.
   */
  lemma MinMaxOrderIndependent(xs: seq<int>, ys: seq<int>)
    requires xs != [] && multiset(xs) == multiset(ys)
    ensures ys != []
    ensures MinOf(xs) == MinOf(ys) && MaxOf(xs) == MaxOf(ys)
  {
    assert xs[0] in multiset(ys);
    MinMaxBounds(xs);
    MinMaxBounds(ys);
    var mx, my := MinOf(xs), MinOf(ys);
    assert mx in multiset(ys) && my in multiset(xs);
    var Mx, My := MaxOf(xs), MaxOf(ys);
    assert Mx in multiset(ys) && My in multiset(xs);
  }

  /** The earliest time never exceeds the latest. */
  lemma MinLeMax(ts: seq<int>)
    requires ts != []
    ensures MinOf(ts) <= MaxOf(ts)
  {
    MinMaxBounds(ts);
  }

  /** Seconds in an hour: `Duration.toHours` divides the seconds between two times by this. */
  const SecondsPerHour: nat := 3600

  /**
   * The divisor `getTrafficRate` uses for times `lo <= hi`: the whole hours
   * between them, truncated, with 0 replaced by 1.
   */
  function HourDivisor(lo: int, hi: int): (h: nat)
    requires lo <= hi
    ensures hi - lo < SecondsPerHour ==> h == 1
    ensures hi - lo >= SecondsPerHour ==> h * 3600 <= hi - lo < h * 3600 + 3600
  {
    var hours := (hi - lo) / SecondsPerHour;
    if hours == 0 then 1 else hours
  }

  class Statistics {
    var totalTraffic: int
    var minTime: Option<int>
    var maxTime: Option<int>
    var entryCount: int
    /** Every entry added so far, in order. */
    ghost var entries: seq<LogEntry>

    ghost predicate Valid()
      reads this
    {
      && totalTraffic == TotalSize(entries)
      && entryCount == |entries|
      && (entries == [] ==> minTime.None? && maxTime.None?)
      && (entries != [] ==> minTime == Some(MinOf(Times(entries))) && maxTime == Some(MaxOf(Times(entries))))
    }

    /** `new Statistics()`: no traffic, no entries, no time bounds. */
    constructor()
      ensures Valid() && entries == []
      ensures totalTraffic == 0 && entryCount == 0 && minTime.None? && maxTime.None?
    {
      totalTraffic := 0;
      minTime := None;
      maxTime := None;
      entryCount := 0;
      entries := [];
    }

    /** The time bounds are present exactly when some entry was added, and then ordered. */
    lemma BoundsPresent()
      requires Valid()
      ensures minTime.Some? <==> entryCount > 0
      ensures maxTime.Some? <==> entryCount > 0
      ensures minTime.Some? && maxTime.Some? ==> minTime.value <= maxTime.value
    {
      if entries != [] {
        MinLeMax(Times(entries));
      }
    }

    /**
     * `addEntry`: one more entry, its size added to the traffic; the earliest
     * and latest times widen to take in its time (the first entry sets both).
     */
    method AddEntry(entry: LogEntry)
      requires Valid()
      modifies this
      ensures Valid() && entries == old(entries) + [entry]
      ensures entryCount == old(entryCount) + 1
      ensures totalTraffic == old(totalTraffic) + entry.responseSize >= old(totalTraffic)
      ensures old(entries) == [] ==> minTime == Some(entry.time) && maxTime == Some(entry.time)
      ensures old(entries) != [] ==>
        minTime == Some(Min(old(minTime).value, entry.time)) && maxTime == Some(Max(old(maxTime).value, entry.time))
    {
      totalTraffic := totalTraffic + entry.responseSize;
      entryCount := entryCount + 1;
      var entryTime := entry.time;
      if minTime.None? || entryTime < minTime.value {
        minTime := Some(entryTime);
      }
      if maxTime.None? || entryTime > maxTime.value {
        maxTime := Some(entryTime);
      }
      TotalSizeAppend(entries, entry);
      BoundsAppend(entries, entry);
      entries := entries + [entry];
    }

    /**
     * `getTrafficRate`: 0 with no entries or when every entry has the same
     * time; otherwise the traffic divided by the hour divisor of the time span.
     */
    function TrafficRate(): (rate: real)
      reads this
      requires Valid()
      ensures rate >= 0.0
      ensures entries == [] || minTime == maxTime ==> rate == 0.0
      ensures entries != [] && minTime != maxTime ==>
        var lo, hi := MinOf(Times(entries)), MaxOf(Times(entries));
        lo < hi && rate == totalTraffic as real / HourDivisor(lo, hi) as real
      ensures rate <= totalTraffic as real
    {
      if minTime.None? || maxTime.None? || minTime == maxTime then 0.0
      else
        MinLeMax(Times(entries));
        var hours := HourDivisor(minTime.value, maxTime.value);
        DivideByDivisor(totalTraffic as real, hours as real);
        totalTraffic as real / hours as real
    }
  }

  /**
   * Whenever the rate is not the zero fallback, it spread over the hour
   * divisor of the time span gives back the whole traffic.
   */
  lemma RateSpreadsTraffic(s: Statistics)
    requires s.Valid() && s.minTime.Some? && s.maxTime.Some? && s.minTime != s.maxTime
    ensures s.minTime.value < s.maxTime.value
    ensures s.TrafficRate() * HourDivisor(s.minTime.value, s.maxTime.value) as real == s.totalTraffic as real
  {
    s.BoundsPresent();
    DivideByDivisor(s.totalTraffic as real, HourDivisor(s.minTime.value, s.maxTime.value) as real);
  }

  /** A span shorter than an hour counts as one hour: the rate is the whole traffic. */
  lemma SubHourRate(s: Statistics)
    requires s.Valid() && s.minTime.Some? && s.maxTime.Some?
    requires s.minTime.value < s.maxTime.value < s.minTime.value + SecondsPerHour
    ensures s.TrafficRate() == s.totalTraffic as real
  {
  }
}
