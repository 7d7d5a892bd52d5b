/**
 The unit test of the classifier (`test_is_spam`): after training on one spam
 and one ham message, a typical spam message is classified as spam and a
 typical ham message is not.

 The messages enter through the tokens that `load_word_list` yields for them:

   "Don't forget our special promotion: -30% on men shoes, only today!"
   "Hi Bob, don't forget our meeting today at 4pm."
   "Lose up to 19% weight. Special promotion on our new weightloss."
   "Hi Bob, can you send me your machine learning homework?"

 The colon of "promotion:" survives cleaning, so the trained token is
 "promotion:" and the "promotion" of the third message is an unseen token.
 */
module ClassifierTest {
  import opened Tokenizer
  import opened FrequencyModel
  import opened Rating
  import opened Classifier
  import Aggregation

  const SpamTokens: seq<string> := ["dont", "forget", "our", "special", "promotion:", "men", "shoes", "only", "today"]
  const HamTokens: seq<string> := ["bob", "dont", "forget", "our", "meeting", "today"]
  const SpamTestTokens: seq<string> := ["lose", "weight", "special", "promotion", "our", "new", "weightloss"]
  const HamTestTokens: seq<string> := ["bob", "can", "you", "send", "your", "machine", "learning", "homework"]

  /** The table after `train_spam` on the tokens `spamWs` and then `train_ham` on the tokens `hamWs`. */
  ghost function TrainedOn(spamWs: seq<string>, hamWs: seq<string>): TokenTable {
    Train(Train(map[], spamWs, Spam), hamWs, Ham)
  }

  /** Each counter of that table holds the occurrences of its token in each message. */
  lemma TrainedOnCounter(spamWs: seq<string>, hamWs: seq<string>, w: string)
    ensures w in TrainedOn(spamWs, hamWs) <==> w in spamWs || w in hamWs
    ensures Lookup(TrainedOn(spamWs, hamWs), w) == Counter(multiset(hamWs)[w], multiset(spamWs)[w])
  {
    TrainKeys(map[], spamWs, Spam);
    TrainKeys(Train(map[], spamWs, Spam), hamWs, Ham);
    TrainLookup(map[], spamWs, Spam, w);
    TrainLookup(Train(map[], spamWs, Spam), hamWs, Ham, w);
  }

  /** The totals of that table are the numbers of tokens of each message. */
  lemma TrainedOnTotals(spamWs: seq<string>, hamWs: seq<string>)
    ensures HamTotal(TrainedOn(spamWs, hamWs)) == |hamWs|
    ensures SpamTotal(TrainedOn(spamWs, hamWs)) == |spamWs|
  {
    TrainTotals(map[], spamWs, Spam, Ham);
    TrainTotals(map[], spamWs, Spam, Spam);
    TrainTotals(Train(map[], spamWs, Spam), hamWs, Ham, Ham);
    TrainTotals(Train(map[], spamWs, Spam), hamWs, Ham, Spam);
  }

  /** A token met in neither message rates `INIT_RATING`. */
  lemma UnseenRating(spamWs: seq<string>, hamWs: seq<string>, w: string)
    requires w !in spamWs && w !in hamWs
    ensures RateIn(TrainedOn(spamWs, hamWs), w) == InitRating
  {
    TrainedOnCounter(spamWs, hamWs, w);
  }

  /** Every token of `ws` met in neither message rates `INIT_RATING`. */
  lemma UnseenRatings(spamWs: seq<string>, hamWs: seq<string>, ws: seq<string>)
    requires forall w :: w in ws ==> w !in spamWs && w !in hamWs
    ensures forall w :: w in ws ==> RateIn(TrainedOn(spamWs, hamWs), w) == InitRating
  {
    forall w | w in ws ensures RateIn(TrainedOn(spamWs, hamWs), w) == InitRating {
      UnseenRating(spamWs, hamWs, w);
    }
  }

  /** "our" was seen once in each class and rates 0.4: (1/9) / (1/6 + 1/9). */
  lemma OurRating(s: seq<string>, h: seq<string>)
    requires s == SpamTokens && h == HamTokens
    ensures RateIn(TrainedOn(s, h), "our") == 0.4
  {
    OurCounts(s, h);
    TrainedOnCounter(s, h, "our");
    TrainedOnTotals(s, h);
    OurShare();
  }

  lemma OurCounts(s: seq<string>, h: seq<string>)
    requires s == SpamTokens && h == HamTokens
    ensures multiset(s)["our"] == 1 && multiset(h)["our"] == 1 && |h| == 6 && |s| == 9
  {
  }

  lemma OurShare()
    ensures Rate(Some(Counter(1, 1)), 6, 9) == 0.4
  {
    assert SpamShare(Counter(1, 1), 6, 9) == (1.0 / 9.0) / (1.0 / 6.0 + 1.0 / 9.0);
    assert (1.0 / 9.0) / (1.0 / 6.0 + 1.0 / 9.0) == 0.4;
  }

  /** "special" was seen only in spam. */
  lemma SpecialRating(s: seq<string>, h: seq<string>)
    requires s == SpamTokens && h == HamTokens
    ensures RateIn(TrainedOn(s, h), "special") == SpamOnlyRating
  {
    SpecialOnlyInSpam(s, h);
    TrainedOnCounter(s, h, "special");
  }

  lemma SpecialOnlyInSpam(s: seq<string>, h: seq<string>)
    requires s == SpamTokens && h == HamTokens
    ensures "special" in s && "special" !in h
  {
    assert s[3] == "special";
    assert h[4][0] == 'm';
  }

  /** "bob" was seen only in ham. */
  lemma BobRating(s: seq<string>, h: seq<string>)
    requires s == SpamTokens && h == HamTokens
    ensures RateIn(TrainedOn(s, h), "bob") == MinRating
  {
    BobOnlyInHam(s, h);
    TrainedOnCounter(s, h, "bob");
  }

  lemma BobOnlyInHam(s: seq<string>, h: seq<string>)
    requires s == SpamTokens && h == HamTokens
    ensures "bob" !in s && "bob" in h
  {
    assert h[0] == "bob";
  }

  /** The ratings of the tokens of the typical spam message. */
  lemma SpamTestTokenRatings(s: seq<string>, h: seq<string>)
    requires s == SpamTokens && h == HamTokens
    ensures RateIn(TrainedOn(s, h), "special") == 0.99
    ensures RateIn(TrainedOn(s, h), "our") == 0.4
    ensures RateIn(TrainedOn(s, h), "lose") == RateIn(TrainedOn(s, h), "weight") == 0.4
    ensures RateIn(TrainedOn(s, h), "promotion") == RateIn(TrainedOn(s, h), "new") == 0.4
    ensures RateIn(TrainedOn(s, h), "weightloss") == 0.4
  {
    SpamTestNewWords(s, h);
    UnseenRatings(s, h, SpamTestUnseen);
    OurRating(s, h);
    SpecialRating(s, h);
  }

  /** The tokens of the typical spam message that neither training message holds. */
  const SpamTestUnseen: seq<string> := ["lose", "weight", "promotion", "new", "weightloss"]

  lemma SpamTestNewWords(s: seq<string>, h: seq<string>)
    requires s == SpamTokens && h == HamTokens
    ensures forall w :: w in SpamTestUnseen ==> w !in s && w !in h
  {
  }

  /** The ratings of the tokens of the typical ham message. */
  lemma HamTestTokenRatings(s: seq<string>, h: seq<string>)
    requires s == SpamTokens && h == HamTokens
    ensures RateIn(TrainedOn(s, h), "bob") == 0.01
    ensures RateIn(TrainedOn(s, h), "can") == RateIn(TrainedOn(s, h), "you") == 0.4
    ensures RateIn(TrainedOn(s, h), "send") == RateIn(TrainedOn(s, h), "your") == 0.4
    ensures RateIn(TrainedOn(s, h), "machine") == RateIn(TrainedOn(s, h), "learning") == 0.4
    ensures RateIn(TrainedOn(s, h), "homework") == 0.4
  {
    BobRating(s, h);
    HamTestNewWords(s, h);
    UnseenRatings(s, h, HamTestUnseen);
  }

  /** The tokens of the typical ham message that neither training message holds. */
  const HamTestUnseen: seq<string> := ["can", "you", "send", "your", "machine", "learning", "homework"]

  lemma HamTestNewWords(s: seq<string>, h: seq<string>)
    requires s == SpamTokens && h == HamTokens
    ensures forall w :: w in HamTestUnseen ==> w !in s && w !in h
  {
  }

  /** The ratings of the tokens of the typical spam message, in order. */
  const SpamTestRatings: seq<real> := [0.4, 0.4, 0.99, 0.4, 0.4, 0.4, 0.4]

  /** The ratings of the tokens of the typical ham message, in order. */
  const HamTestRatings: seq<real> := [0.01, 0.4, 0.4, 0.4, 0.4, 0.4, 0.4, 0.4]

  /** The trained classifier scores the typical spam message at about 0.897. */
  lemma SpamTestScore(s: seq<string>, h: seq<string>)
    requires s == SpamTokens && h == HamTokens
    ensures ScoreOf(TrainedOn(s, h), SpamTestTokens) > SpamProbThreshold
  {
    SpamTestTokenRatings(s, h);
    RatingsPointwise(TrainedOn(s, h), SpamTestTokens, SpamTestRatings);
    SpamTestCombine();
  }

  lemma SpamTestOpenUnit()
    ensures Aggregation.AllOpenUnit(SpamTestRatings)
  {
  }

  lemma SpamTestProducts()
    ensures Aggregation.Product(SpamTestRatings) == 0.00405504
    ensures Aggregation.AltProduct(SpamTestRatings) == 0.00046656
  {
  }

  lemma SpamTestCombine()
    ensures Aggregation.AllOpenUnit(SpamTestRatings)
    ensures Aggregation.Score(SpamTestRatings) > SpamProbThreshold
  {
    SpamTestOpenUnit();
    Aggregation.ScoreOfShortList(SpamTestRatings);
    SpamTestProducts();
  }

  /** The trained classifier scores the typical ham message below one half. */
  lemma HamTestScore(s: seq<string>, h: seq<string>)
    requires s == SpamTokens && h == HamTokens
    ensures ScoreOf(TrainedOn(s, h), HamTestTokens) < 0.5
  {
    HamTestTokenRatings(s, h);
    RatingsPointwise(TrainedOn(s, h), HamTestTokens, HamTestRatings);
    HamTestBelowHalf();
  }

  lemma HamTestBelowHalf()
    ensures Aggregation.AllOpenUnit(HamTestRatings)
    ensures Aggregation.Score(HamTestRatings) < 0.5
  {
    assert Aggregation.AllOpenUnit(HamTestRatings);
    Aggregation.ScoreBelowHalf(HamTestRatings);
  }

  /** `test_is_spam`, on a classifier object: train, then classify both test messages. */
  method TestIsSpam(spam: string, ham: string, spamTest: string, hamTest: string) returns (c: Classifier)
    requires LoadWordList(spam) == SpamTokens && LoadWordList(ham) == HamTokens
    requires LoadWordList(spamTest) == SpamTestTokens && LoadWordList(hamTest) == HamTestTokens
    ensures c.IsSpam(spamTest)
    ensures !c.IsSpam(hamTest)
  {
    c := new Classifier();
    c.TrainSpam(spam);
    c.TrainHam(ham);
    var s, h := LoadWordList(spam), LoadWordList(ham);
    assert c.tokenTable == TrainedOn(s, h);
    SpamTestScore(s, h);
    HamTestScore(s, h);
  }
}
