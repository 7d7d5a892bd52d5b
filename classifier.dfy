/**
 The classifier: a token table that training updates in place, the spam score
 of a message computed from the table, and the spam decision.
 */
module Classifier {
  import opened Tokenizer
  import opened FrequencyModel
  import opened Rating
  import Aggregation

  /** `SPAM_PROB_THRESHOLD`: a message is spam when its score is strictly above it. */
  const SpamProbThreshold: real := 0.8

  /** The rating of one word against a table and the totals of that table. */
  ghost function RateIn(table: TokenTable, w: string): (r: real)
    ensures MinRating <= r < 1.0
    ensures w !in table ==> r == InitRating
  {
    Rate(Get(table, w), HamTotal(table), SpamTotal(table))
  }

  /** The ratings of the words, in the order of the words. */
  ghost function Ratings(table: TokenTable, ws: seq<string>): (rs: seq<real>)
    ensures |rs| == |ws|
    ensures Aggregation.AllOpenUnit(rs)
  {
    if ws == [] then [] else [RateIn(table, ws[0])] + Ratings(table, ws[1..])
  }

  /** The score of a list of tokens against a table. */
  ghost function ScoreOf(table: TokenTable, ws: seq<string>): (r: real)
    ensures ws == [] ==> r == 0.0
    ensures ws != [] ==> 0.0 < r < 1.0
  {
    Aggregation.Score(Ratings(table, ws))
  }

  class Classifier {
    /** The token table of the classifier's model. */
    var tokenTable: TokenTable

    /** `Classifier::new`: an empty model. */
    constructor ()
      ensures tokenTable == map[]
    {
      tokenTable := map[];
    }

    /** `spam_total_count`. */
    ghost function SpamTotalCount(): nat
      reads this
    {
      SpamTotal(tokenTable)
    }

    /** `ham_total_count`. */
    ghost function HamTotalCount(): nat
      reads this
    {
      HamTotal(tokenTable)
    }

    /** The loop shared by `train_spam` and `train_ham`: one increment per token occurrence, in order. */
    method Learn(words: seq<string>, kind: Label)
      modifies this
      ensures tokenTable == Train(old(tokenTable), words, kind)
    {
      ghost var start := tokenTable;
      var i := 0;
      while i < |words|
        invariant 0 <= i <= |words|
        invariant tokenTable == Train(start, words[..i], kind)
      {
        var word := words[i];
        var counter := Lookup(tokenTable, word);
        tokenTable := tokenTable[word := counter.Add(kind, 1)];
        TrainStep(start, words, i, kind);
        i := i + 1;
      }
      assert words[..|words|] == words;
    }

    /**
     `train_spam`: the spam count of every token rises by its number of
     occurrences in the message, the new tokens join the table, and nothing
     else changes.
     */
    method TrainSpam(msg: string)
      modifies this
      ensures tokenTable == Train(old(tokenTable), LoadWordList(msg), Spam)
      ensures tokenTable.Keys == old(tokenTable).Keys + set w | w in LoadWordList(msg)
      ensures forall w :: Lookup(tokenTable, w) == Lookup(old(tokenTable), w).Add(Spam, multiset(LoadWordList(msg))[w])
      ensures SpamTotalCount() == old(SpamTotalCount()) + |LoadWordList(msg)|
      ensures HamTotalCount() == old(HamTotalCount())
    {
      Learn(LoadWordList(msg), Spam);
      TrainEffect(old(tokenTable), LoadWordList(msg), Spam);
    }

    /**
     `train_ham`: the ham count of every token rises by its number of
     occurrences in the message, the new tokens join the table, and nothing
     else changes.
     */
    method TrainHam(msg: string)
      modifies this
      ensures tokenTable == Train(old(tokenTable), LoadWordList(msg), Ham)
      ensures tokenTable.Keys == old(tokenTable).Keys + set w | w in LoadWordList(msg)
      ensures forall w :: Lookup(tokenTable, w) == Lookup(old(tokenTable), w).Add(Ham, multiset(LoadWordList(msg))[w])
      ensures HamTotalCount() == old(HamTotalCount()) + |LoadWordList(msg)|
      ensures SpamTotalCount() == old(SpamTotalCount())
    {
      Learn(LoadWordList(msg), Ham);
      TrainEffect(old(tokenTable), LoadWordList(msg), Ham);
    }

    /** `score`: 0.0 for a message without tokens, otherwise strictly between 0 and 1. */
    ghost function Score(msg: string): (r: real)
      reads this
      ensures LoadWordList(msg) == [] ==> r == 0.0
      ensures LoadWordList(msg) != [] ==> 0.0 < r < 1.0
    {
      ScoreOf(tokenTable, LoadWordList(msg))
    }

    /** `is_spam`: the score strictly exceeds `SPAM_PROB_THRESHOLD`; a message without tokens never is. */
    ghost predicate IsSpam(msg: string)
      reads this
      ensures IsSpam(msg) ==> LoadWordList(msg) != []
    {
      Score(msg) > SpamProbThreshold
    }
  }

  // ---------------------------------------------------------------------------
  // Lemmas
  // ---------------------------------------------------------------------------

  /** What one training pass does to the keys, the counters and the totals. */
  lemma TrainEffect(table: TokenTable, ws: seq<string>, l: Label)
    ensures Train(table, ws, l).Keys == table.Keys + set w | w in ws
    ensures forall w :: Lookup(Train(table, ws, l), w) == Lookup(table, w).Add(l, multiset(ws)[w])
    ensures Total(Train(table, ws, l), l) == Total(table, l) + |ws|
    ensures forall o :: o != l ==> Total(Train(table, ws, l), o) == Total(table, o)
  {
    TrainKeys(table, ws, l);
    forall w ensures Lookup(Train(table, ws, l), w) == Lookup(table, w).Add(l, multiset(ws)[w]) {
      TrainLookup(table, ws, l, w);
    }
    forall o ensures o != l ==> Total(Train(table, ws, l), o) == Total(table, o) {
      TrainTotals(table, ws, l, o);
    }
    TrainTotals(table, ws, l, l);
  }

  lemma {:induction false} RatingsAppend(table: TokenTable, a: seq<string>, b: seq<string>)
    ensures Ratings(table, a + b) == Ratings(table, a) + Ratings(table, b)
  {
    if a != [] {
      assert (a + b)[0] == a[0] && (a + b)[1..] == a[1..] + b;
      RatingsAppend(table, a[1..], b);
      assert Ratings(table, a + b) == [RateIn(table, a[0])] + (Ratings(table, a[1..]) + Ratings(table, b));
    } else {
      assert a + b == b;
    }
  }

  /** Two lists with the same tokens, in any order, have the same ratings, in some order. */
  lemma {:induction false} RatingsPermutation(table: TokenTable, a: seq<string>, b: seq<string>)
    requires multiset(a) == multiset(b)
    ensures multiset(Ratings(table, a)) == multiset(Ratings(table, b))
  {
    if a == [] {
      assert |b| == |multiset(b)| == 0;
    } else {
      assert a[0] in multiset(b);
      var i :| 0 <= i < |b| && b[i] == a[0];
      Aggregation.MultisetRemove(b, i);
      assert a == [a[0]] + a[1..];
      RatingsPermutation(table, a[1..], b[..i] + b[i + 1..]);
      RatingsRemove(table, b, i);
    }
  }

  /** Taking out the token at index `i` takes its rating out of the multiset of ratings. */
  lemma RatingsRemove(table: TokenTable, b: seq<string>, i: nat)
    requires i < |b|
    ensures multiset(Ratings(table, b)) == multiset{RateIn(table, b[i])} + multiset(Ratings(table, b[..i] + b[i + 1..]))
  {
    var tail := [b[i]] + b[i + 1..];
    assert b == b[..i] + tail;
    RatingsAppend(table, b[..i], tail);
    RatingsAppend(table, b[..i], b[i + 1..]);
    assert tail[1..] == b[i + 1..];
    assert Ratings(table, tail) == [RateIn(table, b[i])] + Ratings(table, b[i + 1..]);
  }

  /** The score does not depend on the order of the tokens. */
  lemma ScoreWordOrder(table: TokenTable, a: seq<string>, b: seq<string>)
    requires multiset(a) == multiset(b)
    ensures ScoreOf(table, a) == ScoreOf(table, b)
  {
    RatingsPermutation(table, a, b);
    Aggregation.ScorePermutation(Ratings(table, a), Ratings(table, b));
  }

  /** A message without letters and colons scores 0.0 and is never spam. */
  lemma NoTokensScoreZero(c: Classifier, msg: string)
    requires forall i :: 0 <= i < |msg| ==> !IsLowercase(msg[i]) && !IsUppercase(msg[i]) && msg[i] != ':'
    ensures c.Score(msg) == 0.0 && !c.IsSpam(msg)
  {
    NoLettersNoTokens(msg);
  }

  /** A non-empty list of tokens that are all unseen scores below one half. */
  lemma UnseenTokensScoreBelowHalf(table: TokenTable, ws: seq<string>)
    requires ws != [] && forall i :: 0 <= i < |ws| ==> ws[i] !in table
    ensures ScoreOf(table, ws) < 0.5
  {
    var rs := Ratings(table, ws);
    forall i | 0 <= i < |rs| ensures rs[i] < 0.5 {
      RatingOfToken(table, ws, i);
    }
    Aggregation.ScoreBelowHalf(rs);
  }

  /** The `i`-th rating is the rating of the `i`-th token. */
  lemma {:induction false} RatingOfToken(table: TokenTable, ws: seq<string>, i: nat)
    requires i < |ws|
    ensures Ratings(table, ws)[i] == RateIn(table, ws[i])
  {
    if i > 0 {
      RatingOfToken(table, ws[1..], i - 1);
    }
  }

  /** Ratings that agree with the rating of every token are the ratings of the tokens. */
  lemma RatingsPointwise(table: TokenTable, ws: seq<string>, rs: seq<real>)
    requires |rs| == |ws| && forall i :: 0 <= i < |ws| ==> rs[i] == RateIn(table, ws[i])
    ensures Ratings(table, ws) == rs
  {
    forall i | 0 <= i < |ws| ensures Ratings(table, ws)[i] == rs[i] {
      RatingOfToken(table, ws, i);
    }
  }

  /** An untrained classifier classifies no message as spam. */
  lemma UntrainedNeverSpam(c: Classifier, msg: string)
    requires c.tokenTable == map[]
    ensures !c.IsSpam(msg)
  {
    var ws := LoadWordList(msg);
    if ws != [] {
      UnseenTokensScoreBelowHalf(c.tokenTable, ws);
    }
  }

  /** A non-empty list of tokens each seen only in spam scores above one half. */
  lemma SpamOnlyTokensScoreAboveHalf(table: TokenTable, ws: seq<string>)
    requires ws != []
    requires forall i :: 0 <= i < |ws| ==> ws[i] in table && table[ws[i]].spam > 0 && table[ws[i]].ham == 0
    ensures ScoreOf(table, ws) > 0.5
  {
    var rs := Ratings(table, ws);
    forall i | 0 <= i < |rs| ensures rs[i] > 0.5 {
      RatingOfToken(table, ws, i);
    }
    Aggregation.ScoreAboveHalf(rs);
  }
}
