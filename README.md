# bayespam classifier, modelled in Dafny

This project models the Bayesian spam classifier of `bayespam` (`src/classifier.rs`) and proves properties of that model. The classifier has four parts:

- **Tokenizer** (`load_word_list`). It removes every character that is not a letter, whitespace or a colon. It then trims the text, splits it on whitespace, lowercases each piece and keeps the pieces longer than two characters.
- **Frequency model.** This is the token table, a map from each token to a `Counter { ham, spam }`. `train_spam` and `train_ham` update it in place, one increment per token occurrence. `spam_total_count` and `ham_total_count` are sums over the table.
- **Per-token rating.** An absent token rates `INIT_RATING` (0.4). A token seen only in spam rates 0.99 and one seen only in ham rates 0.01. A token seen in both rates `max(spam_prob / (ham_prob + spam_prob), 0.01)`.
- **Score and decision.** A message without tokens scores 0.0. A message with more than 20 ratings is scored on the 10 lowest and the 10 highest of its sorted ratings. The score is `product / (product + alt_product)`, and `is_spam` means the score is strictly above 0.8.

Layout, one module per file:

| file | module | contents |
|---|---|---|
| `reals.dfy` | `Reals` | real-arithmetic facts used by the rating and score proofs |
| `tokenizer.dfy` | `Tokenizer` | `load_word_list` as a pipeline of functions, with its lemmas |
| `frequency_model.dfy` | `FrequencyModel` | `Counter`, the token table, one training step, training over a token list, the totals |
| `rating.dfy` | `Rating` | the rating case split |
| `aggregation.dfy` | `Aggregation` | sort, the 10/10 selection, the products, the score of a rating list |
| `classifier.dfy` | `Classifier` | the `Classifier` class: its table field, the training methods, `score`, `is_spam` |
| `classifier_test.dfy` | `ClassifierTest` | the unit test `test_is_spam`, as a method with a proved contract |

Training works by changing state step by step, so the model uses imperative Dafny for it. `Classifier.Classifier` has a `tokenTable: map<string, Counter>` field. `Learn` runs the loop with entry-or-default followed by `+= 1`. Its loop invariant ties the table to the pure fold `FrequencyModel.Train`, and the facts about training are then proved of that fold. Tokenizing, rating and scoring are pure, so they are functions. The sort inside `score` works on a local copy, so it is modelled as a function on `seq<real>`.

Points where the code decides the behaviour:

- A token seen in both classes can rate above 0.99. Nothing caps the share from above, so such ratings lie in [0.01, 1), not in [0.01, 0.99]. `Classifier.RateIn` states the range the code gives. `Rating.RateAboveSpamOnlyIff` says exactly when a shared token outrates a spam-only one, and `Rating.SharedTokenCanOutrateSpamOnly` gives an example: one ham occurrence among 1000 against 100 spam occurrences among 100.
- The colon of `promotion:` survives cleaning. So in `test_is_spam` the trained token is `promotion:`, and the `promotion` of the third message is a token the model has never seen, rated 0.4. Only `special` is a spam-only token in that message. The score is still about 0.897.
- A string of colons such as `:::` is a token. Only a message with no letters and no colons is sure to have no tokens (`Tokenizer.NoLettersNoTokens`).

## Model

| member | source | states |
|---|---|---|
| Tokenizer.ToLower | src/classifier.rs:72 | letters map to lowercase letters, and every other character is unchanged |
| Tokenizer.Clean | src/classifier.rs:66-69 | the cleaned text holds exactly the letters, whitespace and colons that occur in the message, and is no longer than it |
| Tokenizer.Trim | src/classifier.rs:70 | the trimmed text starts and ends with a character that is not whitespace, and holds only characters of the input |
| Tokenizer.TrimKeepsMiddle | src/classifier.rs:70 | the trimmed text is a contiguous part of the input, and every character outside that part is whitespace |
| Tokenizer.SplitWhitespace | src/classifier.rs:71 | every piece is non-empty, contains no whitespace, and holds only characters of the text |
| Tokenizer.SplitKeepsCharacters | src/classifier.rs:71 | the pieces written out one after the other are the text with its whitespace removed, so no other character is lost, duplicated or reordered |
| Tokenizer.Lowercase | src/classifier.rs:72 | same length and no uppercase letter; position by position, letters stay letters, and colons and whitespace stay as they are |
| Tokenizer.LowercaseCleanPieces | src/classifier.rs:72 | lowercasing pieces made of letters and colons leaves only lowercase letters and colons in every piece |
| Tokenizer.LowercaseAllKeepsTokens | src/classifier.rs:72 | lowercasing pieces that are already tokens changes nothing |
| Tokenizer.LongerThanTwo | src/classifier.rs:73 | keeps exactly the pieces longer than two characters |
| Tokenizer.LoadWordListTokens | src/classifier.rs:65-75 | every token is longer than two characters and made only of lowercase letters and colons, so it has no whitespace |
| Tokenizer.SplitIgnoresTrim | src/classifier.rs:70-71 | trimming before the split never changes the pieces |
| Tokenizer.SplitJoinSpaces | src/classifier.rs:71 | splitting words joined by single spaces gives back the words |
| Tokenizer.LoadWordListOfJoinedTokens | src/classifier.rs:65-75 | tokenizing tokens joined by spaces gives back those tokens |
| Tokenizer.LoadWordListIdempotent | src/classifier.rs:65-75 | tokenizing the space-joined tokens of a message gives the same tokens again |
| Tokenizer.NoLettersNoTokens | src/classifier.rs:65-75 | a message with no letters and no colons has no tokens |
| Tokenizer.CleanAppend | src/classifier.rs:66-69 | cleaning works character by character: cleaning a concatenation concatenates the cleaned parts |
| Tokenizer.SplitAtWhitespace | src/classifier.rs:71 | the pieces of a text with any whitespace character (space, tab, line feed, vertical tab, form feed, carriage return) inserted are the pieces of the left part followed by those of the right part |
| Tokenizer.LoadWordListAppend | src/classifier.rs:65-75 | the tokens of two texts joined by any whitespace character are the tokens of the first followed by the tokens of the second |
| Tokenizer.CleansToWord | src/classifier.rs:65-75 | a text that cleans to one plain word yields that word lowercased when it is longer than two characters, and nothing otherwise |
| Tokenizer.WordWithJunk | src/classifier.rs:66-73 | a plain word followed by removed characters (digits, punctuation) yields the lowercased word when it is longer than two characters |
| FrequencyModel.Counter.Add | src/classifier.rs:91 | raises the count of one label by `n` and leaves the other count alone |
| FrequencyModel.Increment | src/classifier.rs:89-92 | after one loop step the keys are the old keys plus the word |
| FrequencyModel.TrainKeys | src/classifier.rs:88-103 | after training, the keys are the old keys plus the tokens of the message |
| FrequencyModel.TrainLookup | src/classifier.rs:88-103 | training raises the trained label's count of every token by its number of occurrences in the message, and leaves the other label's count of every token unchanged |
| FrequencyModel.TrainOtherTokens | src/classifier.rs:88-103 | a token not in the message keeps its entry, or stays absent |
| FrequencyModel.TrainNewToken | src/classifier.rs:90 | a token met for the first time starts from `Counter { ham: 0, spam: 0 }` |
| FrequencyModel.TrainTotals | src/classifier.rs:88-111 | training raises the total of its label by the number of tokens, and leaves the other total unchanged |
| FrequencyModel.TrainMonotone | src/classifier.rs:88-103 | counts never decrease under training |
| FrequencyModel.TotalRemove | src/classifier.rs:105-111 | the sum over the table does not depend on which counter is taken first |
| FrequencyModel.CountAtMostTotal | src/classifier.rs:105-111 | every counter's count is at most the total of its label |
| FrequencyModel.TotalUpdate | src/classifier.rs:105-111 | replacing one counter changes the total by the difference of that counter's count |
| Rating.Max | src/classifier.rs:129 | `f32::max`: the larger of the two values |
| Rating.SpamShare | src/classifier.rs:127-129 | `spam_prob / (ham_prob + spam_prob)` lies in [0, 1]; it is below 1 when the token was seen in ham and above 0 when it was seen in spam |
| Rating.Rate | src/classifier.rs:120-133 | every rating lies in [0.01, 1) |
| Rating.RateSeenInBoth | src/classifier.rs:126-129 | in a table whose totals are sums of its counters, a token seen in both classes always gets the floored share, never the 0.4 fallback |
| Rating.RateLeansToSpamIff | src/classifier.rs:127-129 | a token seen in both classes rates above 0.5 exactly when its relative frequency in spam exceeds its relative frequency in ham |
| Rating.RateAboveSpamOnlyIff | src/classifier.rs:127-129 | a token seen in both classes rates above the 0.99 of a spam-only token exactly when 0.01 times its spam frequency exceeds 0.99 times its ham frequency |
| Rating.SharedTokenCanOutrateSpamOnly | src/classifier.rs:122-129 | a counter of 1 ham and 100 spam against totals 1000 and 100 rates above 0.99 |
| Rating.RateSpamOnly | src/classifier.rs:122-123 | a token trained only as spam rates 0.99, whatever its counts |
| Rating.RateHamOnly | src/classifier.rs:124-125 | a token trained only as ham rates 0.01, whatever its counts |
| Aggregation.InsertMultiset | src/classifier.rs:141 | insertion adds exactly the one element and nothing else |
| Aggregation.InsertSorted | src/classifier.rs:141 | inserting into a sorted list keeps it sorted, and the new head is the smaller of the element and the old head |
| Aggregation.Sort | src/classifier.rs:141 | the result is sorted ascending and is a permutation of the ratings |
| Aggregation.SortedUnique | src/classifier.rs:141 | two sorted permutations of the same ratings are equal, so an unstable sort gives the same list as any other sort |
| Aggregation.SelectExtremes | src/classifier.rs:136-145 | at most 20 ratings are kept unchanged; from more than 20, exactly 20 sorted ratings are kept, forming a sub-multiset, and every dropped rating lies between the 10th and the 11th kept one |
| Aggregation.ExtremesOfSorted | src/classifier.rs:142 | the 10 lowest and 10 highest of a sorted list are sorted, a sub-multiset of it, and enclose everything left out |
| Aggregation.ProductPositive | src/classifier.rs:147-148 | for ratings in (0, 1), both products are positive, so the quotient is defined |
| Aggregation.Combine | src/classifier.rs:147-150 | the combined-odds formula gives a value strictly between 0 and 1 |
| Aggregation.Score | src/classifier.rs:136-150 | no ratings score exactly 0.0; otherwise the score is strictly between 0 and 1 |
| Aggregation.ProductPermutation | src/classifier.rs:147-148 | both products do not depend on the order of the ratings |
| Aggregation.CombinePermutation | src/classifier.rs:147-150 | the formula does not depend on the order of the ratings |
| Aggregation.SelectExtremesPermutation | src/classifier.rs:136-145 | permuting the ratings keeps the same kept ratings, up to order |
| Aggregation.ScorePermutation | src/classifier.rs:136-150 | the score does not depend on the order of the ratings |
| Aggregation.ScoreOfShortList | src/classifier.rs:144-150 | at most 20 ratings are all used, and the score is `product / (product + alt_product)` over them |
| Aggregation.ScoreOfLongList | src/classifier.rs:138-150 | more than 20 ratings score exactly as the formula over the 10 lowest and 10 highest of them, taken in any order |
| Aggregation.CombineAboveHalfIff | src/classifier.rs:147-150 | the formula exceeds one half exactly when the product exceeds the alternative product |
| Aggregation.ProductsOrdered | src/classifier.rs:147-148 | when every factor is below its complement, so is the whole product |
| Aggregation.KeptRatings | src/classifier.rs:136-150 | the kept ratings are non-empty, in (0, 1), drawn from the given ones, and the score is the formula over them |
| Aggregation.CombineBelowHalf | src/classifier.rs:147-150 | ratings all below one half combine to below one half |
| Aggregation.ScoreBelowHalf | src/classifier.rs:136-150 | a non-empty list of ratings all below one half scores below one half |
| Aggregation.ScoreAboveHalf | src/classifier.rs:136-150 | a non-empty list of ratings all above one half scores above one half |
| Classifier.RateIn | src/classifier.rs:120-133 | the rating of a token against a table lies in [0.01, 1), and is 0.4 for an absent token |
| Classifier.Ratings | src/classifier.rs:118-134 | one rating per token, each in (0, 1) |
| Classifier.ScoreOf | src/classifier.rs:117-151 | no tokens score exactly 0.0; otherwise the score is strictly between 0 and 1 |
| Classifier.Classifier.constructor | src/classifier.rs:50-52 | the new classifier has an empty token table |
| Classifier.Classifier.Learn | src/classifier.rs:89-92 | the loop leaves the table equal to the fold of one increment per token occurrence, in order |
| Classifier.Classifier.TrainSpam | src/classifier.rs:88-93 | the new table is the fold over the message's tokens; its keys are the old keys plus the tokens; every spam count rises by the token's number of occurrences and every ham count is unchanged; the spam total rises by the number of tokens and the ham total is unchanged |
| Classifier.Classifier.TrainHam | src/classifier.rs:98-103 | the symmetric case: ham counts and the ham total rise by occurrence counts, and spam counts and the spam total are unchanged |
| Classifier.Classifier.Score | src/classifier.rs:117-151 | a message without tokens scores exactly 0.0; otherwise the score is strictly between 0 and 1 |
| Classifier.Classifier.IsSpam | src/classifier.rs:156-158 | spam means a score strictly above 0.8, which needs at least one token |
| Classifier.TrainEffect | src/classifier.rs:88-111 | one training pass sets the keys, every counter and both totals as above |
| Classifier.RatingsAppend | src/classifier.rs:118-134 | the ratings of concatenated token lists are the concatenated ratings |
| Classifier.RatingsPermutation | src/classifier.rs:118-134 | permuted tokens give permuted ratings |
| Classifier.ScoreWordOrder | src/classifier.rs:117-151 | the score does not depend on the order of the tokens |
| Classifier.RatingOfToken | src/classifier.rs:118-134 | the i-th rating is the rating of the i-th token |
| Classifier.RatingsPointwise | src/classifier.rs:118-134 | ratings that agree with every token's rating are the ratings of the tokens |
| Classifier.NoTokensScoreZero | src/classifier.rs:136-137 | a message with no letters and no colons scores exactly 0.0 and is not spam |
| Classifier.UnseenTokensScoreBelowHalf | src/classifier.rs:117-151 | a non-empty list of tokens all unseen scores below one half |
| Classifier.UntrainedNeverSpam | src/classifier.rs:117-158 | a classifier with an empty table classifies no message as spam |
| Classifier.SpamOnlyTokensScoreAboveHalf | src/classifier.rs:117-151 | a non-empty list of tokens each seen only in spam scores above one half |
| ClassifierTest.TrainedOnCounter | src/classifier.rs:186-194 | after the two trainings, every token's counter holds its occurrences in the ham and in the spam message |
| ClassifierTest.TrainedOnTotals | src/classifier.rs:186-194 | after the two trainings, the totals are the numbers of tokens of the two messages |
| ClassifierTest.UnseenRating | src/classifier.rs:132 | a token in neither training message rates 0.4 |
| ClassifierTest.UnseenRatings | src/classifier.rs:132 | every token of a list that neither training message holds rates 0.4 |
| ClassifierTest.OurRating | src/classifier.rs:126-129 | "our", seen once in each class with totals 6 and 9, rates exactly 0.4 |
| ClassifierTest.SpecialRating | src/classifier.rs:122-123 | "special" rates 0.99 |
| ClassifierTest.BobRating | src/classifier.rs:124-125 | "bob" rates 0.01 |
| ClassifierTest.SpamTestTokenRatings | src/classifier.rs:197-198 | the ratings of the tokens of the typical spam message |
| ClassifierTest.HamTestTokenRatings | src/classifier.rs:202-203 | the ratings of the tokens of the typical ham message |
| ClassifierTest.SpamTestCombine | src/classifier.rs:147-150 | the ratings of the typical spam message combine to above 0.8 |
| ClassifierTest.SpamTestScore | src/classifier.rs:196-199 | the trained model scores the typical spam message above 0.8 |
| ClassifierTest.HamTestScore | src/classifier.rs:201-204 | the trained model scores the typical ham message below one half |
| ClassifierTest.TestIsSpam | src/classifier.rs:183-205 | a new classifier trained on the spam and the ham message classifies the typical spam message as spam and the typical ham message as not spam |

## Left out

- File I/O and JSON persistence (`Model::new_from_file`, `Model::save`, `Classifier::new_from_file`, `Classifier::save`, src/classifier.rs:31-45, 55-59, 81-83) are not modelled. They are wrappers around `serde_json` and `File`.
- The module-level `score` and `is_spam` and `DEFAULT_FILE_PATH` (src/classifier.rs:7, 165-177) are not modelled. They only load a model from a fixed file and delegate to the methods that are modelled.
- Ratings and scores are `real`. f32 rounding, underflow of the products to 0 (0/0 gives NaN), and the panic of `partial_cmp(..).unwrap()` on NaN (src/classifier.rs:141, 147-150) are not modelled. Over the reals, the products of ratings in [0.01, 1) never reach 0, and no rating is NaN.
- Tokenizer.Clean: characters are classified as in ASCII. Rust's `is_lowercase`, `is_uppercase` and `is_whitespace` also accept non-ASCII letters and spaces, which the model removes. Multi-character lowercase expansion is not modelled. The byte length that `s.len()` compares with 2 is the character count only on ASCII text.
- FrequencyModel.Counter: counts are `nat`, so the `u32` overflow of a counter or of a total is not modelled.
- FrequencyModel.Total: the totals are sums taken in no particular order, which stands for `HashMap` iteration order. As a result `Total`, `RateIn`, `Ratings`, `ScoreOf`, `Classifier.Score` and `Classifier.IsSpam` are ghost.
- The `Model` struct is flattened: its one field, the token table, is the `tokenTable` field of the `Classifier` class.
- Classifier.Classifier.SpamTotalCount and Classifier.Classifier.HamTotalCount are stated only through `TrainTotals` and the ensures of `TrainSpam`/`TrainHam`; they carry no contract of their own.
- ClassifierTest.TestIsSpam: the four test messages enter through the token lists that `load_word_list` gives for them; the tokenization of those literal strings is not proved. The requires of `TestIsSpam` states those lists. `Tokenizer.WordWithJunk`, `Tokenizer.CleansToWord` and `Tokenizer.LoadWordListAppend` prove the general rules that produce them.
- `src/lib.rs` (crate documentation and module declarations) and `src/main.rs` (a command-line demo that prints) are not part of this model.
