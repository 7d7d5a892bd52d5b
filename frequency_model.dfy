/**
 The frequency model: the token table that maps every trained token to its
 ham and spam occurrence counts, the training step that raises one count per
 token occurrence, and the two derived totals.
 */
module FrequencyModel {

  /** The two labels a training message can carry. */
  datatype Label = Ham | Spam

  /** The per-token tally `Counter { ham, spam }`; counts are unbounded. */
  datatype Counter = Counter(ham: nat, spam: nat)
  {
    function Count(l: Label): nat {
      match l
      case Ham => ham
      case Spam => spam
    }

    /** The counter with the field of label `l` raised by `n`. */
    function Add(l: Label, n: nat): (c: Counter)
      ensures c.Count(l) == Count(l) + n
      ensures forall o :: o != l ==> c.Count(o) == Count(o)
    {
      match l
      case Ham => Counter(ham + n, spam)
      case Spam => Counter(ham, spam + n)
    }
  }

  datatype Option<T> = None | Some(value: T)

  type TokenTable = map<string, Counter>

  /** `token_table.get(word)`. */
  function Get(table: TokenTable, w: string): Option<Counter>
  {
    if w in table then Some(table[w]) else None
  }

  /** `entry(word).or_default()`: a token that is not in the table reads as `Counter { ham: 0, spam: 0 }`. */
  function Lookup(table: TokenTable, w: string): Counter
  {
    if w in table then table[w] else Counter(0, 0)
  }

  /** One loop step of `train_spam`/`train_ham`: `entry(word).or_default()` followed by `+= 1`. */
  function Increment(table: TokenTable, w: string, l: Label): (t: TokenTable)
    ensures t.Keys == table.Keys + {w}
  {
    table[w := Lookup(table, w).Add(l, 1)]
  }

  /** The table after the loop has processed the words `ws`, in order. */
  function Train(table: TokenTable, ws: seq<string>, l: Label): TokenTable
  {
    if ws == [] then table
    else Increment(Train(table, ws[..|ws| - 1], l), ws[|ws| - 1], l)
  }

  /** The sum of the `l` field over all counters (`values().map(..).sum()`), in no particular order. */
  ghost function Total(table: TokenTable, l: Label): nat
    decreases |table|
  {
    if table == map[] then 0
    else
      var w :| w in table;
      assert |table - {w}| < |table| by {
        assert (table - {w}).Keys == table.Keys - {w};
      }
      table[w].Count(l) + Total(table - {w}, l)
  }

  /** `ham_total_count`. */
  ghost function HamTotal(table: TokenTable): nat { Total(table, Ham) }

  /** `spam_total_count`. */
  ghost function SpamTotal(table: TokenTable): nat { Total(table, Spam) }

  // ---------------------------------------------------------------------------
  // Lemmas
  // ---------------------------------------------------------------------------

  /** The total does not depend on which counter is summed first. */
  lemma {:induction false} TotalRemove(table: TokenTable, w: string, l: Label)
    requires w in table
    ensures Total(table, l) == table[w].Count(l) + Total(table - {w}, l)
    decreases |table|
  {
    var v :| v in table && Total(table, l) == table[v].Count(l) + Total(table - {v}, l);
    if v != w {
      var rest := table - {v};
      assert (rest - {w}).Keys == rest.Keys - {w};
      TotalRemove(rest, w, l);
      var other := table - {w};
      assert (other - {v}).Keys == other.Keys - {v};
      TotalRemove(other, v, l);
      assert rest - {w} == other - {v};
    }
  }

  /** The total is at least any single counter's field. */
  lemma CountAtMostTotal(table: TokenTable, w: string, l: Label)
    requires w in table
    ensures table[w].Count(l) <= Total(table, l)
  {
    TotalRemove(table, w, l);
  }

  /** Replacing one counter changes the total by the difference of that counter's field. */
  lemma TotalUpdate(table: TokenTable, w: string, c: Counter, l: Label)
    ensures Total(table[w := c], l) + Lookup(table, w).Count(l) == Total(table, l) + c.Count(l)
  {
    var t := table[w := c];
    TotalRemove(t, w, l);
    assert t - {w} == table - {w};
    if w in table {
      TotalRemove(table, w, l);
    } else {
      assert table - {w} == table;
    }
  }

  /** Training on one more word of the message is one more increment. */
  lemma TrainStep(table: TokenTable, ws: seq<string>, i: nat, l: Label)
    requires i < |ws|
    ensures Train(table, ws[..i + 1], l) == Increment(Train(table, ws[..i], l), ws[i], l)
  {
    assert ws[..i + 1][..i] == ws[..i];
  }

  /** The keys after training are the old keys and the words of the message. */
  lemma {:induction false} TrainKeys(table: TokenTable, ws: seq<string>, l: Label)
    ensures Train(table, ws, l).Keys == table.Keys + set w | w in ws
  {
    if ws != [] {
      var init := ws[..|ws| - 1];
      TrainKeys(table, init, l);
      assert (set w | w in ws) == (set w | w in init) + {ws[|ws| - 1]} by {
        assert ws == init + [ws[|ws| - 1]];
      }
    }
  }

  /**
   Training raises the `l` field of every token by the number of its
   occurrences in the message and leaves the other field of every token alone.
   */
  lemma {:induction false} TrainLookup(table: TokenTable, ws: seq<string>, l: Label, w: string)
    ensures Lookup(Train(table, ws, l), w) == Lookup(table, w).Add(l, multiset(ws)[w])
  {
    if ws != [] {
      var init, last := ws[..|ws| - 1], ws[|ws| - 1];
      assert ws == init + [last];
      TrainLookup(table, init, l, w);
    }
  }

  /** A token missing from the message keeps its entry, or its absence. */
  lemma TrainOtherTokens(table: TokenTable, ws: seq<string>, l: Label, w: string)
    requires w !in ws
    ensures w in Train(table, ws, l) <==> w in table
    ensures w in table ==> Train(table, ws, l)[w] == table[w]
  {
    TrainKeys(table, ws, l);
    TrainLookup(table, ws, l, w);
  }

  /** A token met for the first time starts from `Counter { ham: 0, spam: 0 }`. */
  lemma TrainNewToken(table: TokenTable, ws: seq<string>, l: Label, w: string)
    requires w in ws && w !in table
    ensures w in Train(table, ws, l)
    ensures Train(table, ws, l)[w] == Counter(0, 0).Add(l, multiset(ws)[w])
  {
    TrainKeys(table, ws, l);
    TrainLookup(table, ws, l, w);
  }

  /** Training raises the total of its label by the number of tokens and leaves the other total alone. */
  lemma {:induction false} TrainTotals(table: TokenTable, ws: seq<string>, l: Label, o: Label)
    ensures Total(Train(table, ws, l), l) == Total(table, l) + |ws|
    ensures o != l ==> Total(Train(table, ws, l), o) == Total(table, o)
  {
    if ws != [] {
      var init, last := ws[..|ws| - 1], ws[|ws| - 1];
      var before := Train(table, init, l);
      TrainTotals(table, init, l, o);
      TotalUpdate(before, last, Lookup(before, last).Add(l, 1), l);
      TotalUpdate(before, last, Lookup(before, last).Add(l, 1), o);
    }
  }

  /** Counts never decrease under training. */
  lemma TrainMonotone(table: TokenTable, ws: seq<string>, l: Label, w: string, o: Label)
    requires w in table
    ensures w in Train(table, ws, l)
    ensures table[w].Count(o) <= Train(table, ws, l)[w].Count(o)
  {
    TrainKeys(table, ws, l);
    TrainLookup(table, ws, l, w);
  }
}
