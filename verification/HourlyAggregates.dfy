/** The in-memory hourly aggregate that a roll-up batch fills in place. */
module HourlyAggregates {
  import opened Schema
  import opened Aggregates

  class HourlyAggregate {
    var intervalStart: Instant
    var intervalEnd: Instant
    var sampleCount: nat
    var metrics: Scalars

    function View(): HourlyRow
      reads this
    {
      HourlyRow(intervalStart, intervalEnd, sampleCount, metrics)
    }

    constructor (s: Sample)
      ensures View() == NewRow(s)
    {
      intervalStart, intervalEnd, sampleCount := s.collected, s.collected, 0;
      metrics := seq(METRICS, _ => EMPTY);
      new;
      Record(s);
    }

    method Record(s: Sample)
      modifies this
      ensures View() == RecordRow(old(View()), s)
    {
      if s.collected < intervalStart { intervalStart := s.collected; }
      if s.collected > intervalEnd { intervalEnd := s.collected; }
      sampleCount := sampleCount + 1;
      ghost var was := metrics;
      for m := 0 to METRICS
        invariant intervalStart == RecordRow(old(View()), s).intervalStart
        invariant intervalEnd == RecordRow(old(View()), s).intervalEnd
        invariant sampleCount == old(sampleCount) + 1
        invariant forall j :: 0 <= j < m ==> metrics[j] == Aggregates.Record(was[j], s.metrics[j])
        invariant forall j :: m <= j < METRICS ==> metrics[j] == was[j]
      {
        metrics := metrics[m := Aggregates.Record(metrics[m], s.metrics[m])];
      }
      assert metrics == RecordRow(old(View()), s).metrics;
    }
  }
}
