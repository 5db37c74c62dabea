/**
 The rolling window of metric samples (src/logic/metricsWindow.js). `ok` is isValidSample;
 `origin` is bookkeeping of the model: the cluster the sample belongs to.
 */
module MetricsWindow {
  import opened Seqs

  const WINDOW_MS := 15 * 60 * 1000
  const MAX_SAMPLES := 180

  datatype Sample = Sample(t: int, v: int, ok: bool, origin: string)

  /** xs.slice(-n) for n > 0 */
  function Last<T(!new)>(xs: seq<T>, n: nat): (r: seq<T>)
    ensures |r| <= n && |r| <= |xs| && r == xs[|xs| - |r|..]
    ensures |r| < n ==> r == xs
    ensures forall x :: x in r ==> x in xs
  {
    if |xs| <= n then xs else xs[|xs| - n..]
  }

  const IS_VALID: Sample -> bool := (s: Sample) => s.ok

  function NotBefore(t: int): Sample -> bool { (s: Sample) => s.t >= t }

  function ValidOnly(samples: seq<Sample>): seq<Sample> { Filter(IS_VALID, samples) }

  function PushSample(samples: seq<Sample>, sample: Sample, now: int): seq<Sample> {
    var arr := ValidOnly(samples);
    if !sample.ok then Last(arr, MAX_SAMPLES) else Last(Filter(NotBefore(now - WINDOW_MS), arr + [sample]), MAX_SAMPLES)
  }

  function RestoreSamples(raw: seq<Sample>, now: int): seq<Sample> {
    Filter((s: Sample) => s.ok && s.t >= now - WINDOW_MS, raw)
  }

  /** Samples of one cluster only. */
  ghost predicate Of(samples: seq<Sample>, cluster: string) { forall s :: s in samples ==> s.origin == cluster }

  /**
   A push of a valid sample leaves at most 180 samples, none older than the window; it invents none,
   and a sample that is not too old is there, last. A valid sample of the window's age is dropped
   only when 180 are kept.
   */
  lemma PushSpec(samples: seq<Sample>, sample: Sample, now: int)
    requires sample.ok
    ensures var r := PushSample(samples, sample, now);
      && |r| <= MAX_SAMPLES
      && (forall s :: s in r ==> s.ok && s.t >= now - WINDOW_MS && (s in samples || s == sample))
      && (sample.t >= now - WINDOW_MS ==> |r| > 0 && r[|r| - 1] == sample)
      && (forall s :: s in samples && s.ok && s.t >= now - WINDOW_MS && s !in r ==> |r| == MAX_SAMPLES)
  {
    var arr, recent := ValidOnly(samples), NotBefore(now - WINDOW_MS);
    var all := Filter(recent, arr + [sample]);
    forall s | s in all ensures s.ok && s.t >= now - WINDOW_MS && (s in samples || s == sample) {
      assert s in arr || s == sample;
    }
    forall s | s in samples && s.ok && s.t >= now - WINDOW_MS ensures s in all {
      assert s in arr && recent(s);
    }
    FilterAppend(recent, arr, [sample]);
    if sample.t >= now - WINDOW_MS {
      FilterAll(recent, [sample]);
      assert all[|all| - 1] == sample;
    }
  }

  /** A sample that is not valid is not added: the valid ones stay, whatever their age, the last 180 of them. */
  lemma InvalidIsIgnored(samples: seq<Sample>, sample: Sample, now: int, valid: Sample -> bool)
    requires !sample.ok && forall s :: valid(s) <==> s.ok
    ensures
      var kept, r := Filter(valid, samples), PushSample(samples, sample, now);
      r == if |kept| <= 180 then kept else kept[|kept| - 180..]
  {
    FilterAlike(IS_VALID, valid, samples);
  }

  lemma PushOf(samples: seq<Sample>, sample: Sample, now: int, cluster: string)
    requires Of(samples, cluster) && sample.origin == cluster
    ensures Of(PushSample(samples, sample, now), cluster)
  {
    assert forall s :: s in ValidOnly(samples) + [sample] ==> s in samples || s == sample;
  }
}
