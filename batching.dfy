/**
  The throttled fan-out of per-entity detail requests in `loadData` (Frontend/src/pages/Index.tsx):
  the list is cut into consecutive batches, each batch is fetched, and a pause separates each batch
  from the next. The pause is an abstract step here; no time passes in the model.
*/
module Batching {
  import opened Seqs

  /** One step of a fan-out: request every entity of a batch, or wait. */
  datatype Step<T> = Fetch(batch: seq<T>) | Pause(ms: nat)

  const SensorBatchSize: nat := 10
  const SensorPauseMs: nat := 500
  const ActuatorBatchSize: nat := 3
  const ActuatorPauseMs: nat := 2000

  /** `s.slice(start, start + size)` for `start = 0, size, 2*size, …` while `start < |s|`. */
  function Batches<T>(s: seq<T>, size: nat): seq<seq<T>>
    requires size > 0
    decreases |s|
  {
    if |s| == 0 then []
    else if |s| <= size then [s]
    else [s[..size]] + Batches(s[size..], size)
  }

  /** The steps of a fan-out: every batch, with a pause after each one but the last. */
  function Schedule<T>(s: seq<T>, size: nat, ms: nat): seq<Step<T>>
    requires size > 0
    decreases |s|
  {
    if |s| == 0 then []
    else if |s| <= size then [Fetch(s)]
    else [Fetch(s[..size]), Pause(ms)] + Schedule(s[size..], size, ms)
  }

  /** The batches put back together are exactly the list. */
  lemma {:induction false} BatchesConcat<T>(s: seq<T>, size: nat)
    requires size > 0
    ensures Concat(Batches(s, size)) == s
    decreases |s|
  {
    if |s| > size {
      BatchesConcat(s[size..], size);
      assert Batches(s, size)[1..] == Batches(s[size..], size);
      assert s == s[..size] + s[size..];
    }
  }

  /** There are ceil(|s| / size) batches. */
  lemma {:induction false} BatchesCount<T>(s: seq<T>, size: nat)
    requires size > 0
    ensures |Batches(s, size)| == (|s| + size - 1) / size
    decreases |s|
  {
    if |s| > size {
      BatchesCount(s[size..], size);
      assert (|s| + size - 1) / size == (|s| - size + size - 1) / size + 1 by {
        DivShift(|s| - size + size - 1, size);
      }
    } else if |s| > 0 {
      assert (|s| + size - 1) / size == 1 by {
        assert size <= |s| + size - 1 < 2 * size;
      }
    }
  }

  lemma MulAtLeast(d: int, size: int)
    requires d >= 1 && size > 0
    ensures d * size >= size
  {
    var k := d - 1;
    assert d * size == k * size + size;
    assert k * size >= 0;
  }

  /** Euclidean division has one quotient. */
  lemma DivUnique(a: int, size: int, q: int, r: int)
    requires size > 0 && a == q * size + r && 0 <= r < size
    ensures a / size == q
  {
    var q' := a / size;
    assert a == q' * size + a % size;
    if q' > q {
      MulAtLeast(q' - q, size);
      assert false;
    } else if q' < q {
      MulAtLeast(q - q', size);
      assert false;
    }
  }

  lemma DivShift(a: int, size: int)
    requires a >= 0 && size > 0
    ensures (a + size) / size == a / size + 1
  {
    assert a + size == (a / size + 1) * size + a % size;
    DivUnique(a + size, size, a / size + 1, a % size);
  }

  lemma MulSucc(i: int, size: int)
    ensures (i + 1) * size == i * size + size
  {
  }

  /** Batch i is the slice from i*size up to (i+1)*size, cut at the end of the list. */
  lemma {:induction false} BatchAt<T>(s: seq<T>, size: nat, i: nat)
    requires size > 0 && i < |Batches(s, size)|
    ensures i * size < |s|
    ensures Batches(s, size)[i] == s[i * size..Min((i + 1) * size, |s|)]
    decreases |s|
  {
    MulSucc(i, size);
    if i > 0 {
      var j := i - 1;
      var t := s[size..];
      assert |s| > size;
      assert Batches(s, size) == [s[..size]] + Batches(t, size);
      BatchAt(t, size, j);
      MulSucc(j, size);
      assert j + 1 == i;
      var lo, hi := j * size, Min(i * size, |t|);
      assert lo + size == i * size;
      assert hi + size == Min((i + 1) * size, |s|);
      assert Batches(s, size)[i] == t[lo..hi];
      assert t[lo..hi] == s[lo + size..hi + size];
    }
  }

  /** Every batch is non-empty and no larger than the size; every batch but the last is full. */
  lemma {:induction false} BatchSizes<T>(s: seq<T>, size: nat)
    requires size > 0
    ensures forall i :: 0 <= i < |Batches(s, size)| ==> 0 < |Batches(s, size)[i]| <= size
    ensures forall i :: 0 <= i < |Batches(s, size)| - 1 ==> |Batches(s, size)[i]| == size
    decreases |s|
  {
    if |s| > size {
      BatchSizes(s[size..], size);
      assert forall i :: 1 <= i < |Batches(s, size)| ==> Batches(s, size)[i] == Batches(s[size..], size)[i - 1];
    }
  }

  /**
    The schedule alternates fetches and pauses: step 2k fetches batch k, step 2k+1 waits `ms`,
    and the last step is the last batch's fetch, so no pause follows it.
  */
  lemma {:induction false} ScheduleShape<T>(s: seq<T>, size: nat, ms: nat)
    requires size > 0
    ensures |s| == 0 ==> Schedule(s, size, ms) == []
    ensures |s| > 0 ==> |Schedule(s, size, ms)| == 2 * |Batches(s, size)| - 1
    ensures forall k :: 0 <= k < |Batches(s, size)| ==> Schedule(s, size, ms)[2 * k] == Fetch(Batches(s, size)[k])
    ensures forall k :: 0 <= k < |Batches(s, size)| - 1 ==> Schedule(s, size, ms)[2 * k + 1] == Pause(ms)
    decreases |s|
  {
    var sch, bs := Schedule(s, size, ms), Batches(s, size);
    if |s| > size {
      var t := s[size..];
      ScheduleShape(t, size, ms);
      var rest, more := Schedule(t, size, ms), Batches(t, size);
      assert sch == [Fetch(s[..size]), Pause(ms)] + rest;
      assert bs == [s[..size]] + more;
      assert |more| > 0;
      forall k | 0 <= k < |bs|
        ensures sch[2 * k] == Fetch(bs[k])
      {
        if k > 0 {
          assert sch[2 * k] == rest[2 * (k - 1)];
          assert bs[k] == more[k - 1];
        }
      }
      forall k | 0 <= k < |bs| - 1
        ensures sch[2 * k + 1] == Pause(ms)
      {
        if k > 0 {
          assert sch[2 * k + 1] == rest[2 * (k - 1) + 1];
        }
      }
    } else if |s| > 0 {
      assert sch == [Fetch(s)] && bs == [s];
    }
  }

  /** The pause that follows the batch starting at `start`, if one does. */
  function PauseAfter<T>(n: nat, size: nat, ms: nat, start: nat): seq<Step<T>> {
    if start + size < n then [Pause(ms)] else []
  }

  /** One pass of the `batchStart` loop: the schedule of the rest, once the first batch is taken off. */
  lemma ScheduleStep<T>(s: seq<T>, size: nat, ms: nat, start: nat)
    requires size > 0 && start < |s|
    ensures Schedule(s[start..], size, ms)
         == [Fetch(s[start..Min(start + size, |s|)])] + PauseAfter(|s|, size, ms, start) + Schedule(s[Min(start + size, |s|)..], size, ms)
  {
    if start + size < |s| {
      assert s[start..][..size] == s[start..start + size];
      assert s[start..][size..] == s[start + size..];
    } else {
      assert s[start..Min(start + size, |s|)] == s[start..];
      assert s[Min(start + size, |s|)..] == [];
    }
  }

  /** The loop's bookkeeping: once the steps before `start` are taken, one more iteration takes the next ones. */
  lemma ScheduleAdvance<T>(s: seq<T>, size: nat, ms: nat, start: nat, done: seq<Step<T>>)
    requires size > 0 && start < |s|
    requires done + Schedule(s[start..], size, ms) == Schedule(s, size, ms)
    ensures done + ([Fetch(s[start..Min(start + size, |s|)])] + PauseAfter(|s|, size, ms, start))
              + Schedule(s[Min(start + size, |s|)..], size, ms) == Schedule(s, size, ms)
  {
    ScheduleStep(s, size, ms, start);
  }
}
