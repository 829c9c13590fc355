/**
 * `RunningAverage`: the mean of the most recent values written into a
 * fixed-capacity circular buffer. `Add` overwrites the slot at the write index
 * and advances it; the count saturates at the capacity; `Get` averages the
 * first `count` slots, which hold exactly the values in the window.
 */
module RunningAverages {
  import opened JPLMath

  /** The values a running average over `capacity` frames covers: the last min(|history|, capacity) added. */
  function Window(history: seq<real>, capacity: nat): (w: seq<real>)
    ensures |w| == if |history| < capacity then |history| else capacity
    ensures |history| <= capacity ==> w == history
  {
    if |history| < capacity then history else history[|history| - capacity..]
  }

  /** Adding a value appends it to the window, dropping the oldest value once the window is full. */
  lemma WindowSlides(history: seq<real>, capacity: nat, v: real)
    requires capacity > 0
    ensures Window(history + [v], capacity)
            == if |history| < capacity then Window(history, capacity) + [v]
               else Window(history, capacity)[1..] + [v]
  {
    var w, w' := Window(history, capacity), Window(history + [v], capacity);
    if |history| >= capacity {
      assert |w'| == |w[1..] + [v]|;
      forall k | 0 <= k < |w'| ensures w'[k] == (w[1..] + [v])[k] {
        if k < |w'| - 1 {
          assert w'[k] == (history + [v])[|history| + 1 - capacity + k] == w[k + 1];
        }
      }
    }
  }

  /** The mean of a window, 0 for an empty one. */
  function Mean(s: seq<real>): real
  {
    if |s| == 0 then 0.0 else SeqSum(s) / (|s| as real)
  }

  /** A mean of values within [lo, hi] lies within [lo, hi], whatever the window holds. */
  lemma MeanWithinBounds(s: seq<real>, lo: real, hi: real)
    requires |s| > 0
    requires forall i :: 0 <= i < |s| ==> lo <= s[i] <= hi
    ensures lo <= Mean(s) <= hi
  {
    AverageWithinBounds(s, lo, hi);
  }

  /** The buffer slot that holds the k-th oldest value, counting circularly from slot `oldest`. */
  function Slot(oldest: int, k: int, capacity: int): int
  {
    if oldest + k < capacity then oldest + k else oldest + k - capacity
  }

  /** Slots `b` hold the window `w` circularly, its oldest value at slot `oldest`. */
  ghost predicate Holds(b: seq<real>, oldest: int, w: seq<real>)
  {
    && |w| <= |b|
    && forall k :: 0 <= k < |w| ==> 0 <= Slot(oldest, k, |b|) < |b| && b[Slot(oldest, k, |b|)] == w[k]
  }

  /** Before the buffer fills, writing at slot |w| appends to the window, which starts at slot 0. */
  lemma WriteWhileFilling(b: seq<real>, w: seq<real>, val: real)
    requires |w| < |b| && Holds(b, 0, w)
    ensures Holds(b[|w| := val], 0, w + [val])
  {
    var b', w' := b[|w| := val], w + [val];
    forall k | 0 <= k < |w'| ensures 0 <= Slot(0, k, |b'|) < |b'| && b'[Slot(0, k, |b'|)] == w'[k] {
      assert Slot(0, k, |b'|) == k;
      if k < |w| {
        assert Slot(0, k, |b|) == k;
      }
    }
  }

  /** Once full, writing over the oldest slot drops the oldest value and makes the next slot the oldest. */
  lemma WriteWhenFull(b: seq<real>, oldest: int, w: seq<real>, val: real)
    requires |w| == |b| && 0 <= oldest < |b| && Holds(b, oldest, w)
    ensures Holds(b[oldest := val], Advance(oldest, |b|), w[1..] + [val])
  {
    var n := |b|;
    var b', w', o' := b[oldest := val], w[1..] + [val], Advance(oldest, |b|);
    forall k | 0 <= k < |w'| ensures 0 <= Slot(o', k, n) < n && b'[Slot(o', k, n)] == w'[k] {
      if k < n - 1 {
        assert Slot(o', k, n) == Slot(oldest, k + 1, n);
        assert w'[k] == w[k + 1];
      } else {
        assert Slot(o', k, n) == oldest;
      }
    }
  }

  lemma MulAtLeast(a: int, c: int)
    requires a >= 1 && c > 0
    ensures a * c >= c
  {
    assert a * c == (a - 1) * c + c;
    assert (a - 1) * c >= 0;
  }

  /** The remainder is the only r in [0, c) with x == q * c + r. */
  lemma ModUnique(x: int, q: int, r: int, c: int)
    requires c > 0 && 0 <= r < c && x == q * c + r
    ensures x % c == r
  {
    var q', r' := x / c, x % c;
    assert x == q' * c + r';
    assert q * c - q' * c == (q - q') * c;
    if q > q' {
      MulAtLeast(q - q', c);
    } else if q < q' {
      MulAtLeast(q' - q, c);
    }
  }

  /** The slot after slot i in a circular buffer of n slots. */
  function Advance(i: int, n: int): int
  {
    if i + 1 == n then 0 else i + 1
  }

  /** Advancing modulo the capacity, as the write index does, is `Advance`. */
  lemma AdvanceIsModulo(i: int, n: int)
    requires 0 <= i < n
    ensures (i + 1) % n == Advance(i, n)
  {
    if i + 1 < n {
      ModUnique(i + 1, 0, i + 1, n);
    } else {
      ModUnique(i + 1, 1, 0, n);
    }
  }

  /** A buffer holding the window circularly, starting at `oldest`, has the window's total. */
  lemma RotatedBufferSum(b: seq<real>, w: seq<real>, oldest: nat)
    requires |b| == |w| && oldest < |b| && Holds(b, oldest, w)
    ensures SeqSum(b) == SeqSum(w)
  {
    var n := |b|;
    var cut := n - oldest;
    forall j | 0 <= j < n ensures b[j] == (w[cut..] + w[..cut])[j] {
      if j < oldest {
        assert Slot(oldest, j + cut, n) == j;
      } else {
        assert Slot(oldest, j - oldest, n) == j;
      }
    }
    assert b == w[cut..] + w[..cut];
    SeqSumRotate(w[cut..], w[..cut]);
    assert w[..cut] + w[cut..] == w;
  }

  /**
   * The layout of a running average's state: slots `b`, `count` of them in use,
   * write index `next`, after the values `history` were added in order.
   */
  ghost predicate Layout(b: seq<real>, count: int, next: int, history: seq<real>)
  {
    && 0 <= next < |b|
    && 0 <= count <= |b|
    && (count < |b| ==> next == count)
    && count == |Window(history, |b|)|
    && Holds(b, if count < |b| then 0 else next, Window(history, |b|))
  }

  /** Writing at the write index, saturating the count and wrapping the index keeps the layout, with one more value added. */
  lemma AddKeepsLayout(b: seq<real>, count: int, next: int, history: seq<real>, val: real)
    requires Layout(b, count, next, history)
    ensures Layout(b[next := val], if count + 1 < |b| then count + 1 else |b|, Advance(next, |b|), history + [val])
  {
    var n := |b|;
    var w := Window(history, n);
    WindowSlides(history, n, val);
    if count < n {
      WriteWhileFilling(b, w, val);
    } else {
      WriteWhenFull(b, next, w, val);
    }
  }

  class RunningAverage {
    var buffer: array<real>
    var count: int
    var next: int
    /** Every value ever added, oldest first. */
    ghost var History: seq<real>

    /** The slot holding the oldest value of the window. */
    function Oldest(): int
      reads this, buffer
    {
      if count < buffer.Length then 0 else next
    }

    ghost predicate Valid()
      reads this, buffer
    {
      Layout(buffer[..], count, next, History)
    }

    /** A buffer of `frames` zeroed slots, with nothing added yet. */
    constructor (frames: nat)
      requires frames > 0
      ensures Valid() && fresh(buffer)
      ensures buffer.Length == frames && forall i :: 0 <= i < frames ==> buffer[i] == 0.0
      ensures count == 0 && next == 0 && History == []
    {
      buffer := new real[frames](_ => 0.0);
      count := 0;
      next := 0;
      History := [];
    }

    /**
     * Writes `val` at the write index and leaves every other slot alone; the
     * count grows up to the capacity and the write index wraps around.
     */
    method Add(val: real)
      requires Valid()
      modifies this, buffer
      ensures Valid()
      ensures buffer == old(buffer) && History == old(History) + [val]
      ensures buffer[old(next)] == val
      ensures forall i :: 0 <= i < buffer.Length && i != old(next) ==> buffer[i] == old(buffer[i])
      ensures count == if old(count) + 1 < buffer.Length then old(count) + 1 else buffer.Length
      ensures next == (old(next) + 1) % buffer.Length
    {
      ghost var b, n := buffer[..], buffer.Length;
      ghost var count', next', history' := (if count + 1 < n then count + 1 else n), Advance(next, n), History + [val];
      AddKeepsLayout(b, count, next, History, val);
      AdvanceIsModulo(next, n);
      buffer[next] := val;
      count := if count + 1 < buffer.Length then count + 1 else buffer.Length;
      next := (next + 1) % buffer.Length;
      History := History + [val];
      assert count == count' && next == next' && History == history';
      assert Layout(b[old(next) := val], count', next', history');
      assert buffer[..] == b[old(next) := val];
    }

    /** The mean of the window: 0 before anything is added, then the mean of the last values added. */
    method Get() returns (avg: real)
      requires Valid()
      ensures avg == Mean(Window(History, buffer.Length))
    {
      if count == 0 {
        return 0.0;
      }
      var sum := 0.0;
      for i := 0 to count
        invariant sum == SeqSum(buffer[..i])
      {
        assert buffer[..i + 1][..i] == buffer[..i];
        sum := sum + buffer[i];
      }
      avg := sum / (count as real);
      var w := Window(History, buffer.Length);
      if count < buffer.Length {
        assert buffer[..count] == w;
      } else {
        assert buffer[..count] == buffer[..];
        RotatedBufferSum(buffer[..], w, Oldest());
      }
    }
  }
}
