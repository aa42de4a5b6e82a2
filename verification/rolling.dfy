/** The causal rolling mean behind every historical feature:
    `groupby(key)[col].transform(lambda x: x.shift(1).rolling(W, min_periods=1).mean())`
    followed by `fillna(default)`. For row k it averages the non-missing
    values among the W rows of the same group that come before row k; with
    no such value it yields the default. Grouping drops missing keys, as
    pandas does by default: a row whose key is NaN belongs to no group, is
    in no window, and its own feature is the default. */
module Rolling {
  import opened Optional

  /** One row of a grouped column: its group key and its value, `None` for NaN. */
  datatype Obs<K> = Obs(key: Option<K>, val: Option<real>)

  /** The values of group `key` among the first `n` rows, in row order. */
  function History<K(==)>(obs: seq<Obs<K>>, n: nat, key: K): seq<Option<real>>
    requires n <= |obs|
    decreases n
  {
    if n == 0 then []
    else History(obs, n - 1, key) + (if obs[n - 1].key == Some(key) then [obs[n - 1].val] else [])
  }

  /** The last `n` elements of `s` (all of them when there are fewer). */
  function LastN<T>(s: seq<T>, n: nat): (r: seq<T>)
    ensures |r| == (if |s| < n then |s| else n)
  {
    if |s| <= n then s else s[|s| - n..]
  }

  /** The non-missing values of a window, in order. */
  function Present(w: seq<Option<real>>): (r: seq<real>)
    ensures |r| <= |w|
    decreases |w|
  {
    if |w| == 0 then []
    else Present(w[..|w| - 1]) + (if w[|w| - 1].Some? then [w[|w| - 1].value] else [])
  }

  function Sum(xs: seq<real>): real
    decreases |xs|
  {
    if |xs| == 0 then 0.0 else Sum(xs[..|xs| - 1]) + xs[|xs| - 1]
  }

  /** pandas' `mean()` over a window, NaN values skipped, then `fillna(default)`. */
  function MeanOr(w: seq<Option<real>>, default: real): real {
    var p := Present(w);
    if |p| == 0 then default else Sum(p) / (|p| as real)
  }

  /** The feature value of row `k`: the mean over the window of its group's
      previous `width` rows. Row `k` itself and every later row are outside it.
      A row without a group gets the default. */
  function RollingAt<K(==)>(obs: seq<Obs<K>>, k: nat, width: nat, default: real): real
    requires k < |obs|
  {
    match obs[k].key
    case None => default
    case Some(key) => MeanOr(LastN(History(obs, k, key), width), default)
  }

  // ---------------------------------------------------------------------
  // The incremental computation: one buffer per group

  /** The buffer of a group, empty for a group not met yet. */
  function Buffer<K>(buffers: map<K, seq<Option<real>>>, key: K): seq<Option<real>> {
    if key in buffers then buffers[key] else []
  }

  lemma {:induction false} LastNSnoc<T>(s: seq<T>, x: T, n: nat)
    ensures LastN(LastN(s, n) + [x], n) == LastN(s + [x], n)
  {
  }

  /** The buffers after row `i`: the row's group gets the row's value
      appended and is cut back to `width` values; a row without a group
      changes nothing. */
  function Advance<K>(buffers: map<K, seq<Option<real>>>, row: Obs<K>, width: nat): map<K, seq<Option<real>>> {
    match row.key
    case None => buffers
    case Some(key) => buffers[key := LastN(Buffer(buffers, key) + [row.val], width)]
  }

  /** The feature value read off the buffers for a row. */
  function Read<K>(buffers: map<K, seq<Option<real>>>, row: Obs<K>, default: real): real {
    match row.key
    case None => default
    case Some(key) => MeanOr(Buffer(buffers, key), default)
  }

  /** Every group's buffer holds its last `width` values among the first `i` rows. */
  ghost predicate WindowsAt<K(!new)>(buffers: map<K, seq<Option<real>>>, obs: seq<Obs<K>>, i: nat, width: nat)
    requires i <= |obs|
  {
    forall key :: Buffer(buffers, key) == LastN(History(obs, i, key), width)
  }

  /** `out` holds the feature values of the first `|out|` rows. */
  predicate MeansSoFar<K(==)>(out: seq<real>, obs: seq<Obs<K>>, width: nat, default: real) {
    |out| <= |obs| && forall k :: 0 <= k < |out| ==> out[k] == RollingAt(obs, k, width, default)
  }

  /** Advancing buffers that hold the last `width` values of every group
      before row `i` gives buffers that hold them up to row `i` included. */
  lemma {:induction false} AdvanceKeepsWindows<K(!new)>(obs: seq<Obs<K>>, i: nat, width: nat, buffers: map<K, seq<Option<real>>>)
    requires i < |obs| && WindowsAt(buffers, obs, i, width)
    ensures WindowsAt(Advance(buffers, obs[i], width), obs, i + 1, width)
  {
    forall key
      ensures Buffer(Advance(buffers, obs[i], width), key) == LastN(History(obs, i + 1, key), width)
    {
      AdvanceKeepsWindow(obs, i, width, buffers, key);
    }
  }

  /** The same, for one group. */
  lemma {:induction false} AdvanceKeepsWindow<K>(obs: seq<Obs<K>>, i: nat, width: nat, buffers: map<K, seq<Option<real>>>, key: K)
    requires i < |obs| && Buffer(buffers, key) == LastN(History(obs, i, key), width)
    ensures Buffer(Advance(buffers, obs[i], width), key) == LastN(History(obs, i + 1, key), width)
  {
    var h := History(obs, i, key);
    if obs[i].key == Some(key) {
      assert History(obs, i + 1, key) == h + [obs[i].val];
      assert Buffer(Advance(buffers, obs[i], width), key) == LastN(LastN(h, width) + [obs[i].val], width);
      LastNSnoc(h, obs[i].val, width);
    } else {
      assert History(obs, i + 1, key) == h + [];
      assert h + [] == h;
    }
  }

  /** The mean of row `i`'s group buffer is row `i`'s feature value. */
  lemma {:induction false} BufferGivesMean<K(!new)>(obs: seq<Obs<K>>, out: seq<real>, width: nat, default: real, buffers: map<K, seq<Option<real>>>)
    requires |out| < |obs| && MeansSoFar(out, obs, width, default) && WindowsAt(buffers, obs, |out|, width)
    ensures MeansSoFar(out + [Read(buffers, obs[|out|], default)], obs, width, default)
  {
    var i := |out|;
    var mean := Read(buffers, obs[i], default);
    assert mean == RollingAt(obs, i, width, default) by {
      if obs[i].key.Some? {
        var key := obs[i].key.value;
        assert Buffer(buffers, key) == LastN(History(obs, i, key), width);
      }
    }
    var out' := out + [mean];
    forall k | 0 <= k < |out'|
      ensures out'[k] == RollingAt(obs, k, width, default)
    {
      if k < i {
        assert out'[k] == out[k];
      }
    }
  }

  /** One pass over the rows, keeping for each group only its last `width`
      values: the read-then-append state a streaming aggregator would keep.
      It produces exactly the windowed means of `RollingAt`. */
  method RollingMeans<K(==,!new)>(obs: seq<Obs<K>>, width: nat, default: real) returns (out: seq<real>)
    ensures |out| == |obs|
    ensures forall k :: 0 <= k < |obs| ==> out[k] == RollingAt(obs, k, width, default)
  {
    var buffers: map<K, seq<Option<real>>> := map[];
    out := [];
    for i := 0 to |obs|
      invariant |out| == i
      invariant MeansSoFar(out, obs, width, default)
      invariant WindowsAt(buffers, obs, i, width)
    {
      var mean := Read(buffers, obs[i], default);
      BufferGivesMean(obs, out, width, default, buffers);
      AdvanceKeepsWindows(obs, i, width, buffers);
      out := out + [mean];
      buffers := Advance(buffers, obs[i], width);
    }
  }

  // ---------------------------------------------------------------------
  // Causality

  /** A group's history over the first `n` rows depends on those rows only. */
  lemma {:induction false} HistoryOfSamePrefix<K>(obs: seq<Obs<K>>, obs': seq<Obs<K>>, n: nat, key: K)
    requires n <= |obs| && n <= |obs'|
    requires forall j :: 0 <= j < n ==> obs[j] == obs'[j]
    ensures History(obs, n, key) == History(obs', n, key)
    decreases n
  {
    if n > 0 {
      HistoryOfSamePrefix(obs, obs', n - 1, key);
    }
  }

  /** Cutting the history after row `n` leaves every earlier feature value
      unchanged: replaying a prefix reproduces the prefix of the features. */
  lemma {:induction false} TruncationInvariant<K>(obs: seq<Obs<K>>, n: nat, k: nat, width: nat, default: real)
    requires k < n <= |obs|
    ensures RollingAt(obs[..n], k, width, default) == RollingAt(obs, k, width, default)
  {
    if obs[k].key.Some? {
      HistoryOfSamePrefix(obs[..n], obs, k, obs[k].key.value);
    }
  }

  /** A row's own value never enters its own feature. */
  lemma {:induction false} OwnValueIgnored<K>(obs: seq<Obs<K>>, k: nat, v: Option<real>, width: nat, default: real)
    requires k < |obs|
    ensures RollingAt(obs[k := Obs(obs[k].key, v)], k, width, default) == RollingAt(obs, k, width, default)
  {
    if obs[k].key.Some? {
      HistoryOfSamePrefix(obs[k := Obs(obs[k].key, v)], obs, k, obs[k].key.value);
    }
  }

  /** Rows of other groups, and rows without a group, never enter a group's
      history. */
  lemma {:induction false} OtherGroupsIgnored<K>(obs: seq<Obs<K>>, obs': seq<Obs<K>>, n: nat, key: K)
    requires n <= |obs| && n <= |obs'|
    requires forall j :: 0 <= j < n && (obs[j].key == Some(key) || obs'[j].key == Some(key)) ==> obs[j] == obs'[j]
    ensures History(obs, n, key) == History(obs', n, key)
    decreases n
  {
    if n > 0 {
      OtherGroupsIgnored(obs, obs', n - 1, key);
    }
  }

  /** A group with no row among the first `n` has an empty history. */
  lemma {:induction false} EmptyHistory<K>(obs: seq<Obs<K>>, n: nat, key: K)
    requires n <= |obs|
    requires forall j :: 0 <= j < n ==> obs[j].key != Some(key)
    ensures History(obs, n, key) == []
    decreases n
  {
    if n > 0 {
      EmptyHistory(obs, n - 1, key);
    }
  }

  /** The first row of a group gets the default. */
  lemma {:induction false} FirstOfGroupGetsDefault<K>(obs: seq<Obs<K>>, k: nat, width: nat, default: real)
    requires k < |obs| && obs[k].key.Some?
    requires forall j :: 0 <= j < k ==> obs[j].key != obs[k].key
    ensures RollingAt(obs, k, width, default) == default
  {
    EmptyHistory(obs, k, obs[k].key.value);
  }

  // ---------------------------------------------------------------------
  // Bounds

  predicate Within(w: seq<Option<real>>, lo: real, hi: real) {
    forall i :: 0 <= i < |w| && w[i].Some? ==> lo <= w[i].value <= hi
  }

  lemma {:induction false} PresentWithin(w: seq<Option<real>>, lo: real, hi: real)
    requires Within(w, lo, hi)
    ensures forall i :: 0 <= i < |Present(w)| ==> lo <= Present(w)[i] <= hi
    decreases |w|
  {
    if |w| > 0 {
      PresentWithin(w[..|w| - 1], lo, hi);
    }
  }

  lemma {:induction false} SumBounds(xs: seq<real>, lo: real, hi: real)
    requires forall i :: 0 <= i < |xs| ==> lo <= xs[i] <= hi
    ensures lo * (|xs| as real) <= Sum(xs) <= hi * (|xs| as real)
    decreases |xs|
  {
    if |xs| > 0 {
      SumBounds(xs[..|xs| - 1], lo, hi);
    }
  }

  /** A mean of values in [lo, hi], or a default in [lo, hi], lies in [lo, hi]. */
  lemma MeanWithin(w: seq<Option<real>>, default: real, lo: real, hi: real)
    requires Within(w, lo, hi) && lo <= default <= hi
    ensures lo <= MeanOr(w, default) <= hi
  {
    var p := Present(w);
    if |p| > 0 {
      PresentWithin(w, lo, hi);
      SumBounds(p, lo, hi);
      DivideBounds(Sum(p), |p| as real, lo, hi);
    }
  }

  lemma DivideBounds(a: real, n: real, lo: real, hi: real)
    requires n > 0.0 && lo * n <= a <= hi * n
    ensures lo <= a / n <= hi
  {
    assert a / n - lo == (a - lo * n) / n;
    assert hi - a / n == (hi * n - a) / n;
  }

  /** Every feature value stays within the range of its column and default. */
  lemma {:induction false} RollingWithin<K>(obs: seq<Obs<K>>, k: nat, width: nat, default: real, lo: real, hi: real)
    requires k < |obs|
    requires forall j :: 0 <= j < |obs| && obs[j].val.Some? ==> lo <= obs[j].val.value <= hi
    requires lo <= default <= hi
    ensures lo <= RollingAt(obs, k, width, default) <= hi
  {
    if obs[k].key.Some? {
      WindowWithin(obs, k, width, default, lo, hi);
    }
  }

  lemma {:induction false} WindowWithin<K>(obs: seq<Obs<K>>, k: nat, width: nat, default: real, lo: real, hi: real)
    requires k < |obs| && obs[k].key.Some?
    requires forall j :: 0 <= j < |obs| && obs[j].val.Some? ==> lo <= obs[j].val.value <= hi
    requires lo <= default <= hi
    ensures lo <= MeanOr(LastN(History(obs, k, obs[k].key.value), width), default) <= hi
  {
    var h := History(obs, k, obs[k].key.value);
    HistoryWithin(obs, k, obs[k].key.value, lo, hi);
    var w := LastN(h, width);
    assert Within(w, lo, hi) by {
      forall i | 0 <= i < |w| && w[i].Some?
        ensures lo <= w[i].value <= hi
      {
        assert w == h[|h| - |w|..];
        assert w[i] == h[|h| - |w| + i];
      }
    }
    MeanWithin(w, default, lo, hi);
  }

  lemma {:induction false} HistoryWithin<K>(obs: seq<Obs<K>>, n: nat, key: K, lo: real, hi: real)
    requires n <= |obs|
    requires forall j :: 0 <= j < |obs| && obs[j].val.Some? ==> lo <= obs[j].val.value <= hi
    ensures Within(History(obs, n, key), lo, hi)
    decreases n
  {
    if n > 0 {
      HistoryWithin(obs, n - 1, key, lo, hi);
    }
  }
}
