/** Checking that expected events occur in a log in the given order. */
module EventOrder {

  /** `at` places the expected events at increasing positions of the log. */
  predicate Places(log: seq<string>, expected: seq<string>, at: seq<nat>) {
    && |at| == |expected|
    && (forall i :: 0 <= i < |at| ==> at[i] < |log| && log[at[i]] == expected[i])
    && (forall i, j :: 0 <= i < j < |at| ==> at[i] < at[j])
  }

  /** The expected events are a subsequence of the log. */
  ghost predicate InOrder(log: seq<string>, expected: seq<string>) {
    exists at :: Places(log, expected, at)
  }

  /** The first `n` expected events are a subsequence of the first `m` of the log. */
  ghost predicate Fits(log: seq<string>, m: nat, expected: seq<string>, n: nat) {
    m <= |log| && n <= |expected| && InOrder(log[..m], expected[..n])
  }

  /** A placement in a log that is one event longer either leaves that event alone or ends with it. */
  lemma FitsNext(log: seq<string>, m: nat, expected: seq<string>, n: nat)
    requires m < |log| && n <= |expected|
    ensures Fits(log, m + 1, expected, n)
            <==> Fits(log, m, expected, n) || (n > 0 && log[m] == expected[n - 1] && Fits(log, m, expected, n - 1))
  {
    if Fits(log, m + 1, expected, n) {
      var at :| Places(log[..m + 1], expected[..n], at);
      if n > 0 && at[n - 1] == m {
        assert Places(log[..m], expected[..n - 1], at[..n - 1]);
      } else {
        assert Places(log[..m], expected[..n], at);
      }
    }
    if Fits(log, m, expected, n) {
      var at :| Places(log[..m], expected[..n], at);
      assert Places(log[..m + 1], expected[..n], at);
    }
    if n > 0 && log[m] == expected[n - 1] && Fits(log, m, expected, n - 1) {
      var at :| Places(log[..m], expected[..n - 1], at);
      assert Places(log[..m + 1], expected[..n], at + [m]);
    }
  }

  /** The first `n` expected events fit, and no more of them do. */
  ghost predicate Furthest(log: seq<string>, m: nat, expected: seq<string>, n: nat) {
    Fits(log, m, expected, n) && forall k: nat :: n < k <= |expected| ==> !Fits(log, m, expected, k)
  }

  lemma NothingFits(log: seq<string>, expected: seq<string>)
    ensures Furthest(log, 0, expected, 0)
  {
    assert Places(log[..0], expected[..0], []);
    forall k: nat | 0 < k <= |expected| ensures !Fits(log, 0, expected, k) {
      forall at | |at| == k ensures !Places(log[..0], expected[..k], at) {
        assert at[0] >= |log[..0]|;
      }
    }
  }

  lemma FurthestNext(log: seq<string>, m: nat, expected: seq<string>, n: nat)
    requires m < |log| && n <= |expected| && Furthest(log, m, expected, n)
    ensures Furthest(log, m + 1, expected, if n < |expected| && log[m] == expected[n] then n + 1 else n)
  {
    hide Fits;
    var m' := m + 1;
    var n' := if n < |expected| && log[m] == expected[n] then n + 1 else n;
    FitsNext(log, m, expected, n');
    forall k: nat | n' < k <= |expected| ensures !Fits(log, m', expected, k) {
      FitsNext(log, m, expected, k);
    }
  }

  /**
   The check passes exactly when the expected events are a subsequence of the log: taking each event
   at its first chance never misses a placement that exists.
   */
  method AssertInOrder(events: seq<string>, expected: seq<string>) returns (ok: bool)
    ensures ok <==> InOrder(events, expected)
  {
    hide Fits, InOrder;
    var cursor := 0;
    NothingFits(events, expected);
    for i := 0 to |events|
      invariant cursor <= |expected|
      invariant Furthest(events, i, expected, cursor)
    {
      FurthestNext(events, i, expected, cursor);
      if cursor < |expected| && events[i] == expected[cursor] {
        cursor := cursor + 1;
      }
    }
    WholeFits(events, expected);
    ok := cursor == |expected|;
  }

  lemma WholeFits(log: seq<string>, expected: seq<string>)
    ensures Fits(log, |log|, expected, |expected|) <==> InOrder(log, expected)
  {
    assert log[..|log|] == log && expected[..|expected|] == expected;
  }
}
