/**
 The per-token rating: the probability, in the classifier's estimate, that a
 message holding the token is spam. Ratings are modelled as exact reals.
 */
module Rating {
  import opened FrequencyModel
  import opened Reals

  /** `INIT_RATING`: the rating of a token the model has never seen. */
  const InitRating: real := 0.4

  /** The rating of a token seen only in spam. */
  const SpamOnlyRating: real := 0.99

  /** The rating of a token seen only in ham, and the floor of every computed rating. */
  const MinRating: real := 0.01

  /** `f32::max` on numbers. */
  function Max(a: real, b: real): (r: real)
    ensures r >= a && r >= b && (r == a || r == b)
  {
    if a >= b then a else b
  }

  /** `spam_prob / (ham_prob + spam_prob)` with `ham_prob = ham / ham_total`, `spam_prob = spam / spam_total`. */
  function SpamShare(c: Counter, hamTotal: nat, spamTotal: nat): (r: real)
    requires hamTotal > 0 && spamTotal > 0 && (c.ham > 0 || c.spam > 0)
    ensures 0.0 <= r <= 1.0
    ensures c.ham > 0 ==> r < 1.0
    ensures c.spam > 0 ==> r > 0.0
  {
    var hamProb := c.ham as real / hamTotal as real;
    var spamProb := c.spam as real / spamTotal as real;
    ProbBounds(c.ham, hamTotal);
    ProbBounds(c.spam, spamTotal);
    ShareBounds(spamProb, hamProb);
    spamProb / (hamProb + spamProb)
  }

  /** `count as f32 / total as f32` is non-negative, and positive for a positive count. */
  lemma ProbBounds(count: nat, total: nat)
    requires total > 0
    ensures count as real / total as real >= 0.0
    ensures count > 0 ==> count as real / total as real > 0.0
  {
  }

  /**
   The rating of a token given its table entry and the two totals: the
   closure mapped over the words in `score`.

   A counter with both fields zero cannot come from training; were one stored
   in the table, the f32 quotient in `score` is 0/0, not a number, and
   `max(NaN, 0.01)` is 0.01, which is what this function gives for it.
   */
  function Rate(entry: Option<Counter>, hamTotal: nat, spamTotal: nat): (r: real)
    ensures MinRating <= r < 1.0
  {
    match entry
    case None => InitRating
    case Some(c) =>
      if c.spam > 0 && c.ham == 0 then SpamOnlyRating
      else if c.spam == 0 && c.ham > 0 then MinRating
      else if spamTotal > 0 && hamTotal > 0 then
        if c.spam == 0 && c.ham == 0 then MinRating
        else Max(SpamShare(c, hamTotal, spamTotal), MinRating)
      else InitRating
  }

  // ---------------------------------------------------------------------------
  // Lemmas
  // ---------------------------------------------------------------------------

  /**
   In a table whose totals are the sums of its counters, a token seen in both
   classes never reaches the `INIT_RATING` fallback: its rating is the floored share.
   */
  lemma RateSeenInBoth(table: TokenTable, w: string)
    requires w in table && table[w].ham > 0 && table[w].spam > 0
    ensures HamTotal(table) > 0 && SpamTotal(table) > 0
    ensures Rate(Get(table, w), HamTotal(table), SpamTotal(table))
         == Max(SpamShare(table[w], HamTotal(table), SpamTotal(table)), MinRating)
  {
    CountAtMostTotal(table, w, Ham);
    CountAtMostTotal(table, w, Spam);
  }

  /** For a token seen in both classes, the rating leans to spam exactly when the token is relatively more frequent in spam. */
  lemma RateLeansToSpamIff(c: Counter, hamTotal: nat, spamTotal: nat)
    requires c.ham > 0 && c.spam > 0 && hamTotal > 0 && spamTotal > 0
    ensures Rate(Some(c), hamTotal, spamTotal) > 0.5
        <==> c.spam as real / spamTotal as real > c.ham as real / hamTotal as real
  {
    var hamProb := c.ham as real / hamTotal as real;
    var spamProb := c.spam as real / spamTotal as real;
    assert Rate(Some(c), hamTotal, spamTotal) == Max(SpamShare(c, hamTotal, spamTotal), MinRating);
    ShareAboveHalfIff(spamProb, hamProb);
  }

  /**
   For a token seen in both classes, the rating exceeds the 0.99 of a spam-only
   token exactly when `0.01 * spam_prob > 0.99 * ham_prob`: nothing caps the share.
   */
  lemma RateAboveSpamOnlyIff(c: Counter, hamTotal: nat, spamTotal: nat)
    requires c.ham > 0 && c.spam > 0 && hamTotal > 0 && spamTotal > 0
    ensures Rate(Some(c), hamTotal, spamTotal) > SpamOnlyRating
        <==> 0.01 * (c.spam as real / spamTotal as real) > 0.99 * (c.ham as real / hamTotal as real)
  {
    var hamProb := c.ham as real / hamTotal as real;
    var spamProb := c.spam as real / spamTotal as real;
    assert Rate(Some(c), hamTotal, spamTotal) == Max(SpamShare(c, hamTotal, spamTotal), MinRating);
    ShareAboveIff(spamProb, hamProb, SpamOnlyRating);
  }

  /** One spam-heavy token seen once in ham rates above a token seen only in spam. */
  lemma SharedTokenCanOutrateSpamOnly()
    ensures Rate(Some(Counter(1, 100)), 1000, 100) > SpamOnlyRating
  {
    RateAboveSpamOnlyIff(Counter(1, 100), 1000, 100);
  }

  /** A token that training has only ever met in spam rates 0.99, whatever the counts. */
  lemma RateSpamOnly(table: TokenTable, ws: seq<string>, w: string)
    requires w in ws && Lookup(table, w).ham == 0
    ensures Rate(Get(Train(table, ws, Spam), w), HamTotal(Train(table, ws, Spam)), SpamTotal(Train(table, ws, Spam)))
         == SpamOnlyRating
  {
    TrainKeys(table, ws, Spam);
    TrainLookup(table, ws, Spam, w);
  }

  /** A token that training has only ever met in ham rates 0.01, whatever the counts. */
  lemma RateHamOnly(table: TokenTable, ws: seq<string>, w: string)
    requires w in ws && Lookup(table, w).spam == 0
    ensures Rate(Get(Train(table, ws, Ham), w), HamTotal(Train(table, ws, Ham)), SpamTotal(Train(table, ws, Ham)))
         == MinRating
  {
    TrainKeys(table, ws, Ham);
    TrainLookup(table, ws, Ham, w);
  }
}
