/** Cache keys: codes and dates joined by '|'. When two queries share a key. */
module Keys {
  import opened Text
  import opened Dates

  const BAR: string := "|"

  /** The key of a latest-rate query. */
  function RateKey(source: string, target: string): string {
    source + BAR + target
  }

  /** The key of a history query. */
  function HistoryKey(source: string, target: string, range: Range): string {
    source + BAR + target + BAR + range.startDate + BAR + range.endDate
  }

  /** The second pair cuts the same text at a later bar: its source swallows the first bar. */
  predicate Straddles(s: string, t: string, s': string, t': string) {
    && |s| < |s'|
    && s' == s + BAR + s'[|s| + 1..]
    && t == s'[|s| + 1..] + BAR + t'
  }

  lemma RateKeyLonger(s: string, t: string, s': string, t': string)
    requires RateKey(s, t) == RateKey(s', t') && |s| < |s'|
    ensures Straddles(s, t, s', t')
  {
    var key, n := RateKey(s, t), |s'|;
    assert key[..n] == s' && key[n..] == BAR + t';
    assert key[..|s|] == s && key[|s|] == '|' && key[|s| + 1..] == t;
    assert s' == key[..|s|] + [key[|s|]] + key[|s| + 1..n];
    assert s'[|s| + 1..] == key[|s| + 1..n];
    assert t == key[|s| + 1..n] + key[n..];
  }

  /** Exactly when two rate queries share a key: they are the same, or one straddles the other's bar. */
  lemma RateKeyShared(s: string, t: string, s': string, t': string)
    ensures RateKey(s, t) == RateKey(s', t')
      <==> (s == s' && t == t') || Straddles(s, t, s', t') || Straddles(s', t', s, t)
  {
    if RateKey(s, t) == RateKey(s', t') {
      if |s| < |s'| {
        RateKeyLonger(s, t, s', t');
      } else if |s'| < |s| {
        RateKeyLonger(s', t', s, t);
      } else {
        assert s == RateKey(s, t)[..|s|] && t == RateKey(s, t)[|s| + 1..];
        assert s' == RateKey(s', t')[..|s|] && t' == RateKey(s', t')[|s| + 1..];
      }
    }
    if Straddles(s, t, s', t') {
      assert s + BAR + (s'[|s| + 1..] + BAR + t') == (s + BAR + s'[|s| + 1..]) + BAR + t';
    }
    if Straddles(s', t', s, t) {
      assert s' + BAR + (s[|s'| + 1..] + BAR + t) == (s' + BAR + s[|s'| + 1..]) + BAR + t;
    }
  }

  /** The dates have a fixed length, so a history key always gives back its range and its rate key. */
  lemma HistoryKeyShared(s: string, t: string, r: DateRange, s': string, t': string, r': DateRange)
    ensures HistoryKey(s, t, r) == HistoryKey(s', t', r') <==> RateKey(s, t) == RateKey(s', t') && r == r'
  {
    HistoryKeyParts(s, t, r);
    HistoryKeyParts(s', t', r');
  }

  lemma HistoryKeyParts(s: string, t: string, r: DateRange)
    ensures var (key, n) := (HistoryKey(s, t, r), |RateKey(s, t)|);
      && |key| == n + 22 && key == RateKey(s, t) + BAR + r.startDate + BAR + r.endDate
      && key[..n] == RateKey(s, t) && key[n + 1..n + 11] == r.startDate && key[n + 12..] == r.endDate
  {
  }

  lemma StraddlingNeedsBar(s: string, t: string, s': string, t': string)
    ensures Straddles(s, t, s', t') ==> '|' in s'
  {
    if Straddles(s, t, s', t') { assert s'[|s|] == '|'; }
  }

  /** Without a bar in the sources, a key stands for one pair of codes only. */
  lemma NoBarNoClash(s: string, t: string, s': string, t': string)
    requires '|' !in s && '|' !in s'
    ensures RateKey(s, t) == RateKey(s', t') <==> s == s' && t == t'
  {
    RateKeyShared(s, t, s', t');
    StraddlingNeedsBar(s, t, s', t');
    StraddlingNeedsBar(s', t', s, t);
  }

  /**
   Key faithfulness: for requests whose source codes hold no bar, two history requests get the
   same key exactly when their codes agree up to case and their ranges are the same.
   */
  lemma RequestKeys(a: string, b: string, r: DateRange, a': string, b': string, r': DateRange)
    requires '|' !in a && '|' !in a'
    ensures HistoryKey(Upper(a), Upper(b), r) == HistoryKey(Upper(a'), Upper(b'), r')
      <==> Upper(a) == Upper(a') && Upper(b) == Upper(b') && r == r'
    ensures RateKey(Upper(a), Upper(b)) == RateKey(Upper(a'), Upper(b'))
      <==> Upper(a) == Upper(a') && Upper(b) == Upper(b')
  {
    UpperIdempotent(a, '|');
    UpperIdempotent(a', '|');
    HistoryKeyShared(Upper(a), Upper(b), r, Upper(a'), Upper(b'), r');
    NoBarNoClash(Upper(a), Upper(b), Upper(a'), Upper(b'));
  }

  /** With a bar they can clash: two different pairs of codes under one key. */
  lemma BarClash()
    ensures RateKey("A|B", "C") == RateKey("A", "B|C")
  {
    RateKeyShared("A", "B|C", "A|B", "C");
  }
}
