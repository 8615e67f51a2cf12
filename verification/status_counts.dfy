/** The per-provider outcome counters kept by both the dashboard's provider summary and the
    provider table: `acc[providerId][status] = curr.value` for the statuses `success`,
    `failed` and `notfound`. */
module StatusCounts {
  import opened Wrappers
  import opened Seqs
  import opened MetricTypes

  datatype Counts = Counts(success: real, failed: real, notfound: real)

  /** `{ success: 0, failed: 0, notfound: 0 }` */
  const Zero := Counts(0.0, 0.0, 0.0)

  /** `curr.labels?.status || "unknown"` */
  function StatusOf(s: Sample): string
  {
    LabelOr(s, "status", "unknown")
  }

  /** The statuses that own a counter. */
  predicate Tracked(status: string)
  {
    status == "success" || status == "failed" || status == "notfound"
  }

  /** The counter a status names; an untracked status names none and reads as 0. */
  function Field(c: Counts, status: string): real
  {
    if status == "success" then c.success
    else if status == "failed" then c.failed
    else if status == "notfound" then c.notfound
    else 0.0
  }

  /** `c[status] = v`: the counter of a tracked status is overwritten, never added to, and
      every other counter is left as it was. */
  function Assign(c: Counts, status: string, v: real): (r: Counts)
    ensures Tracked(status) ==> Field(r, status) == v
    ensures forall other :: other != status ==> Field(r, other) == Field(c, other)
    ensures !Tracked(status) ==> r == c
  {
    if status == "success" then c.(success := v)
    else if status == "failed" then c.(failed := v)
    else if status == "notfound" then c.(notfound := v)
    else c
  }

  function StatusIs(status: string): Sample -> bool
  {
    (s: Sample) => StatusOf(s) == status
  }

  /** The value of the last sample reporting `status`, or 0 when none does. */
  function LastStatus(ms: seq<Sample>, status: string): real
  {
    MapOr(LastOf(ms, StatusIs(status)), Value, 0.0)
  }

  /** The counter a status names, as a function of the counters. */
  function Counter(status: string): Counts -> real
  {
    (c: Counts) => Field(c, status)
  }

  function FieldOf<V>(counts: V -> Counts, status: string): V -> real
  {
    (v: V) => Field(counts(v), status)
  }

  /** Whatever else an accumulator holds, if each step assigns its sample's value to the
      counter the sample's status names, then after a run each tracked counter holds the
      value of the run's last sample with that status, or 0. */
  lemma CountsLastWins<V>(ms: seq<Sample>, step: (Option<V>, Sample) -> V, counts: V -> Counts, status: string)
    requires Tracked(status)
    requires forall o, s :: counts(step(o, s)) == Assign(MapOr(o, counts, Zero), StatusOf(s), s.value)
    ensures Field(MapOr(Accumulate(ms, step), counts, Zero), status) == LastStatus(ms, status)
  {
    var field := FieldOf(counts, status);
    forall o, s
      ensures field(step(o, s)) == if StatusIs(status)(s) then Value(s) else MapOr(o, field, 0.0)
    {
      assert counts(step(o, s)) == Assign(MapOr(o, counts, Zero), StatusOf(s), s.value);
      if o.Some? {
        assert MapOr(o, field, 0.0) == Field(MapOr(o, counts, Zero), status);
      }
    }
    AccumulateLastWins(ms, step, field, StatusIs(status), Value, 0.0);
    if |ms| > 0 {
      assert MapOr(Accumulate(ms, step), field, 0.0) == Field(MapOr(Accumulate(ms, step), counts, Zero), status);
    }
  }

  /** A run with no sample of a status leaves that counter at 0. */
  lemma LastStatusNone(ms: seq<Sample>, status: string)
    requires forall i :: 0 <= i < |ms| ==> StatusOf(ms[i]) != status
    ensures LastStatus(ms, status) == 0.0
  {
  }
}
