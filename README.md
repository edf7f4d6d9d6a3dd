# Yatzy scoring engine

A Dafny model of the scoring engine of `yatzy.py`, a console Yatzy game with
Swedish combination names. The model has three parts.

- **The rules.** These are the rule builders `calculate_n`, `calculate_n_of_a_kind`,
  `calculate_straight_to_n`, `calculate_two_pair` and `calculate_full_house`,
  plus `sum` for Chans. They become the `Rule` datatype and the pure function
  `Rules.Score` (module `Rules`, file `rules.dfy`).
  - The loop of `calculate_two_pair` is also modelled as a method,
    `Rules.CalculateTwoPair`. It is proved equal to the function.
  - Each rule function's own contract says when it scores. Ettor .. Sexor
    score exactly when the face is in the hand. Chans always scores between
    one and six points per die.
  - The lemmas in `RuleFacts` (file `rule_facts.dfy`) state, for the
    n-of-a-kind rules, two pair, Kåk and the two straights, exactly when the
    rule scores and what it then scores.
- **`Combination` and `Bonus`** (module `Combinations`, file `combinations.dfy`).
  - A `Combination` is a class with a one-shot lock. `SetScore` either locks
    the rule's score or reports `AlreadyScored`.
  - `Bonus` is a set of functions of the six upper scores. It never locks, and
    its `set_score` does nothing.
- **`Scoreboard`**, in two layers.
  - `Board` (file `board.dfy`) is the pure layer. It works on the lock state of
    the 16 entries: the total, `unscored`, and the bonus.
  - `Scoreboards` (file `scoreboard.dfy`) is the class layer. It holds the
    `Combination` objects in the order `__init__` appends them, and it ties its
    `Score`/`Unscored` to the pure layer.

The model follows the code as written wherever it departs from the usual Yatzy
rules:

- Yatzy is `calculate_n_of_a_kind(5)`, so it scores five times the face, not 50.
- Stor stege accepts any five different faces whose highest is 6, so
  [1, 2, 3, 5, 6] scores 17.
- The bonus is recomputed on every call and never locks.
- There is no commit-by-index, reroll or game-loop operation in the source, and
  none is modelled.

## Model

| member | source | states |
|---|---|---|
| Rules.Highest | yatzy.py:63-67 | the descending search over the counter's keys: the result is 0 or a face occurring at least k times, and no higher face within the search range occurs k times |
| Rules.MaxFace | yatzy.py:75 | `max(counts.keys())` is a face of the hand and no face of the hand exceeds it |
| Rules.Sum | yatzy.py:119 | `sum(dice)` for Chans: between one and six points per die |
| Rules.NumberScore | yatzy.py:54-58 | `calculate_n(n)` is never negative, and is 0 exactly when no die shows n |
| Rules.OfAKindScore | yatzy.py:61-67 | for k ≥ 1, `calculate_n_of_a_kind(k)` is non-zero exactly when some face occurs at least k times, and is then at least k times every such face |
| Rules.StraightScore | yatzy.py:72-77 | `calculate_straight_to_n(top)` is non-zero exactly when the hand has five different faces, top among them and none above it, and then is the sum of the dice |
| Rules.TwoPairScore | yatzy.py:82-91 | two pair is never negative; it is non-zero exactly when two different faces each occur at least twice, and then it is 2·hi + 2·lo for two such faces lo < hi |
| Rules.FullHouseScore | yatzy.py:94-98 | `calculate_full_house` is non-zero exactly when the hand has two different faces and one of them occurs exactly twice, and then is the sum of the dice; what this means for five dice (two of one face, three of another) is proved in `RuleFacts.FullHouseExactly` |
| Rules.Score | yatzy.py:105-120 | the rule attached to an entry scores a hand with a value that is never negative, and Chans with between one and six points per die |
| Rules.CalculateTwoPair | yatzy.py:82-91 | the loop over the keys, highest first, returns twice the highest face occurring at least twice plus twice the next such face, and 0 when there are fewer than two such faces |
| RuleFacts.NumberRange | yatzy.py:54-58 | for five dice, `calculate_n(n)` lies in 0..5n and is q·n for some count q ≤ 5 |
| RuleFacts.OfAKindExactly | yatzy.py:61-67 | `calculate_n_of_a_kind(k)` is 0 exactly when no face occurs k times; otherwise it is f·k for the highest face f occurring at least k times; it is always a multiple of k in 0..6k |
| RuleFacts.FiveEqualOfAKind | yatzy.py:61-67 | five equal dice of face f score f·k for every k in 1..5, so Yatzy gives 5·f |
| RuleFacts.TwoPairExactly | yatzy.py:82-91 | two pair scores exactly when two different faces each occur at least twice, and then gives 2·(highest such face) + 2·(the next highest) |
| RuleFacts.FourOfAKindIsNoTwoPair | yatzy.py:82-91 | four of a kind and an odd die scores 0 as two pair |
| RuleFacts.FullHouseShape | yatzy.py:94-98 | two dice of a and three of b (a ≠ b) have exactly the faces {a, b} and score 2a + 3b, the sum of the dice |
| RuleFacts.FullHouseExactly | yatzy.py:94-98 | for five dice, Kåk scores exactly when one face occurs twice and another three times, and then scores the sum of the dice |
| RuleFacts.FiveOfAKindIsNoFullHouse | yatzy.py:94-98 | five equal dice score 0 as Kåk |
| RuleFacts.StraightExactly | yatzy.py:72-77 | for five dice, `calculate_straight_to_n(top)` scores exactly when the dice are five different faces, top among them and none above it, and then scores their sum, 21 minus the one face of 1..6 that is missing |
| RuleFacts.SmallStraightExactly | yatzy.py:72-77 | Liten stege scores exactly when the hand is a permutation of 1..5, and then scores 15 |
| RuleFacts.LargeStraightExactly | yatzy.py:72-77 | Stor stege scores exactly for five different faces that include 6, whichever face of 1..5 is missing, and scores 21 minus that face |
| RuleFacts.LargeStraightWithGap | yatzy.py:75 | [1, 2, 3, 5, 6] scores 17 as Stor stege |
| RuleFacts.LargeStraightTwoToSix | yatzy.py:116 | [2, 3, 4, 5, 6] scores 20 as Stor stege |
| RuleFacts.ScoreRange | yatzy.py:54-98 | every rule on the scoreboard gives a five-die hand a score in 0..30 |
| RuleFacts.FiveOnes | yatzy.py:112-120 | [1, 1, 1, 1, 1] scores Ettor 5, Par 2, Triss 3, Fyrtal 4, Yatzy 5 and Chans 5, and 0 as two pair, Liten stege and Kåk |
| RuleFacts.OneToFive | yatzy.py:115-119 | [1, 2, 3, 4, 5] scores Liten stege 15, Stor stege 0, Chans 15 and Par 0 |
| Combinations.Points | yatzy.py:18 | `locked_score or 0`: 0 for no lock, otherwise the locked value |
| Combinations.Calculate | yatzy.py:23-26 | `calculate_score` on a lock state: the locked points when there is a lock, the rule's score for the dice otherwise |
| Combinations.Combination.constructor | yatzy.py:12-15 | a new combination keeps its name and rule and has no lock |
| Combinations.Combination.Score | yatzy.py:17-18 | `score()` is 0 while unlocked and the locked value once locked |
| Combinations.Combination.ScoreOrNone | yatzy.py:20-21 | `score_or_none()` is None exactly while nothing is locked, and otherwise agrees with `score()` |
| Combinations.Combination.CalculateScore | yatzy.py:23-26 | `calculate_score(dice)` is the locked value when there is one, and the rule's score for the dice otherwise |
| Combinations.Combination.SetScore | yatzy.py:28-31 | a second call reports `AlreadyScored` and keeps the lock; a first call locks the rule's score for the dice, after which `calculate_score` returns it for every hand |
| Combinations.BonusScore | yatzy.py:45-48 | the bonus is 50 exactly when the six upper scores sum to at least 63, and 0 exactly when they do not |
| Combinations.BonusScoreOrNone | yatzy.py:42-43 | the bonus's `score_or_none()` is never None and equals its score |
| Combinations.BonusSetScore | yatzy.py:50-51 | the bonus's `set_score` always returns normally |
| Board.EntryScore | yatzy.py:17-18 | `score()` of an entry: its locked points, and for the bonus 50 exactly when Ettor .. Sexor sum to at least 63, else 0 |
| Board.EntryScoreOrNone | yatzy.py:42-43 | `score_or_none()` of an entry is None exactly for an unlocked entry other than the bonus, and otherwise agrees with `score()` |
| Board.TotalScore | yatzy.py:122-123 | the sum of `score()` over all 16 entries is the sum of the locked scores plus the bonus computed from Ettor .. Sexor |
| Board.Unscored | yatzy.py:125-126 | `unscored()` is the strictly increasing list of exactly the positions other than the bonus that have no lock; the bonus is never in it |
| Board.AllScoredIffNoneUnscored | yatzy.py:125-126 | `unscored()` is empty exactly when every entry but the bonus is locked |
| Board.LockShrinksUnscored | yatzy.py:28-31 | locking an unscored entry removes exactly that entry from `unscored()`, keeps the rest in order, and shortens it by one |
| Board.BonusNeverLost | yatzy.py:45-48 | locking an entry with a score that is not negative never lowers the bonus |
| Board.ThreeOfEachEarnsBonus | yatzy.py:45-48 | three of each face in Ettor .. Sexor (sum 63) earns the bonus, and two sixes instead of three lose it |
| Board.FreshBoard | yatzy.py:104-120 | with nothing locked, the total is 0 and 15 entries are unscored |
| Scoreboards.Layout | yatzy.py:105-120 | the 16 entries, in order, with their names and rules |
| Scoreboards.PickWithout | yatzy.py:126 | taking one position out of a list of positions takes its entry out of the entries picked, in order |
| Scoreboards.UnscoredAfterLock | yatzy.py:125-126 | locking position i of a board removes exactly entry i from the picked unscored entries |
| Scoreboards.Scoreboard.constructor | yatzy.py:104-120 | the new scoreboard holds the 16 entries in `Layout` order as distinct, newly created, unlocked objects; it scores 0 and has 15 unscored entries |
| Scoreboards.Scoreboard.AppendOnesToFours | yatzy.py:105-108 | the appends of Ettor .. Fyror to an empty list: four new unlocked objects in `Layout` order |
| Scoreboards.Scoreboard.AppendFivesToBonus | yatzy.py:109-111 | the appends of Femmor, Sexor and the bonus: the earlier entries stay, and the combinations added are new and unlocked |
| Scoreboards.Scoreboard.AppendPairToSmallStraight | yatzy.py:112-115 | the appends of Par .. Liten stege: the earlier entries stay, and the combinations added are new and unlocked |
| Scoreboards.Scoreboard.AppendLargeStraightToYatzy | yatzy.py:116-120 | the appends of Stor stege .. Yatzy: the earlier entries stay, and the combinations added are new and unlocked |
| Scoreboards.Scoreboard.AppendCombination | yatzy.py:105 | one `append`: the list is the old list plus one entry holding a new, unlocked `Combination` with the name and rule `Layout` expects at that position |
| Scoreboards.Scoreboard.AppendBonus | yatzy.py:111 | the `append` of the bonus: the list is the old list plus the bonus entry at position 6 |
| Scoreboards.Scoreboard.View | yatzy.py:20-21 | the lock state of every `Combination` on the board, in order, with none at the bonus |
| Scoreboards.Scoreboard.NewBoardIsOpen | yatzy.py:104-120 | a complete board with no lock scores 0 and has every entry but the bonus unscored |
| Scoreboards.Scoreboard.EntryScoreOrNone | yatzy.py:20-21 | `score_or_none()` of an entry is its lock, and for the bonus its score |
| Scoreboards.Scoreboard.EntryScore | yatzy.py:39-40 | `score()` of an entry is its points, and for the bonus the bonus computed from the board's own upper six entries |
| Scoreboards.Scoreboard.Score | yatzy.py:122-123 | the board's total equals the pure total of its lock state: the sum of the locked scores plus 50 exactly when Ettor .. Sexor reach 63 |
| Scoreboards.Scoreboard.Unscored | yatzy.py:125-126 | the entries of `unscored()` are, in board order, exactly the combinations other than the bonus with no lock |
| Scoreboards.ScoreUnscoredEntry | yatzy.py:28-31 | calling `set_score` on an entry listed by `unscored()` succeeds, changes only that entry's lock, and removes exactly that entry from `unscored()` |

## Left out

- `input_number`, `input_string`, `input_number_of_players` and `input_player_name`: console prompts, left out as I/O.
- `roll_dice`: random dice. The hand is a parameter of type `seq<Die>` (faces 1..6). Lemmas that need five dice require `|d| == 5`.
- The top-level script and `Player`: player setup and printing, left out as I/O.
- `Scoreboard.combinations` is a class attribute in the source, so every scoreboard appends to one shared list. `Player.scoreboard` is also shared between players. The model has one scoreboard that owns its 16 entries.
- The `Bonus` object's reference to its scoreboard becomes an argument: the bonus functions take the `score()` of the first six entries.
- `Counter` key order: the model visits the faces from 6 down and skips those absent from the hand. This is the order `sorted(keys, reverse=True)` gives.
- `unscored()` returns a lazy `filter` object in the source. The model returns a sequence computed at call time, so it does not follow locks set while the iterator is being consumed.
- The `AlreadyScored` exception becomes the `Outcome` value `Raised(AlreadyScored)`.
- Scoreboards.ScoreUnscoredEntry: `yatzy.py` never calls `set_score` itself. This method states what a caller gets from calling `set_score` on an entry taken from `unscored()`.
- A `Bonus` entry has no `locked_score` attribute in the source, because its `__init__` does not call the parent's. The model's view holds None at that position and never reads it.
