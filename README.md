# IdeaConnect builder readiness engine, in Dafny

IdeaConnect is a small service. Idea owners post project ideas, and builders
register interest in them. This project models its deterministic core:

- the **tech-stack normalizer**, which turns comma-separated text or a list
  into ordered, stripped, non-empty tokens;
- the **skill match** between an idea's stack and a builder's stack;
- the **answer-quality** scorer for the builder's free-text screening answers;
- the **readiness combiner** with its two guardrail caps;
- the **evaluation record** assembled from these scores;
- the **in-memory store**: ideas with sequential ids, screening questions
  per idea, and interests appended to one idea with ids sequential within
  that idea.

Numbers are exact integers:

- a per-answer score is in tenths (0, 2, 5, 9 for 0.0, 0.2, 0.5, 0.9);
- answer quality is in hundredths;
- the skill match is a ratio `Ratio(num, den)` with `den > 0`;
- readiness is in tenths.

Rounding is round-half-away-from-zero on the exact rational value
(`Numeric.Round`).

Modules, in dependency order:

- `Text` (text.dfy): `strip`, ASCII `lower`, `split` on one character, substring test.
- `Numeric` (numeric.dfy): ratios, comparison, rounding.
- `TechStack` (techstack.dfy): `normalize_tech_stack`.
- `Skill` (skill.dfy): `compute_skill_match`.
- `Answers` (answers.dfy): `compute_answer_quality`, as a function and as the scoring loop.
- `Readiness` (readiness.dfy): `compute_final_readiness`.
- `Evaluation` (evaluation.dfy): `evaluate_builder`.
- `Store` (store.dfy): the `IDEAS` list as the class `IdeaStore`, and the store effects of `find_idea_index`, `post_idea`, `gen_q` and `submit_interest`.
- `Examples` (examples.dfy): concrete inputs with their outputs, and a client session against the store.

The readiness ceiling: with skill at most 1 and answer quality at most 0.9,
the unrounded score 10 · (0.55 · 1 + 0.45 · 0.9) is at most 9.55 (95.5
tenths), reached by a full match with quality 0.9, so readiness is at most
9.6 (`Readiness.ReadinessCeiling`, `Readiness.ReadinessCeilingReached`).

## Model

| member | source | states |
|---|---|---|
| Text.SpaceCharacters | app.py:25 | the whitespace `strip()` removes includes space, tab, line feed, vertical tab, form feed, carriage return and no-break space, and never an ASCII letter, digit or comma |
| Text.Strip | app.py:25 | `strip()` gives a string with no whitespace at either end and no longer than its input |
| Text.StripSlice | app.py:25 | the strip is a slice of the input with only whitespace before and after it |
| Text.StripUnique | app.py:25 | conversely, any non-empty trimmed slice with only whitespace around it is the strip |
| Text.StripTrimmed | app.py:25 | a string with no whitespace at its ends is its own strip |
| Text.StripIdempotent | app.py:25 | stripping twice is stripping once |
| Text.Lower | app.py:42-43 | lower-casing keeps the length |
| Text.LowerIdempotent | app.py:42-43 | lower-casing twice is lower-casing once |
| Text.LowerStripCommute | app.py:66 | lower-casing then stripping equals stripping then lower-casing |
| Text.Split | app.py:27 | `split(",")` gives at least one piece, no piece contains the separator, and rejoining the pieces gives the text back |
| Text.SplitJoin | app.py:27 | splitting a join of separator-free pieces gives the pieces back (the other half of the round trip) |
| Text.Contains | app.py:68 | `tok in txt`: the empty string is in every text, and a string is only in a text at least as long |
| Text.ContainsIff | app.py:68 | the substring test `tok in txt` holds exactly when `tok` occurs at some index of `txt` |
| TechStack.StripAll | app.py:25 | stripping a list keeps only non-empty stripped items and never lengthens it |
| TechStack.Normalize | app.py:23-28 | every token is non-empty and its own strip; a list never grows; any other shape gives `[]` |
| TechStack.NormalizeText | app.py:26-27 | text is normalized as the list of its comma-separated pieces, and no token contains a comma |
| TechStack.StripAllAppend | app.py:25 | order is kept: normalizing a concatenation concatenates the normalized parts |
| TechStack.StripAllSingle | app.py:25 | one item contributes its strip, or nothing when the strip is empty |
| TechStack.StripAllMembers | app.py:25 | a token is in the output exactly when it is the non-empty strip of some input item |
| TechStack.StripAllTokens | app.py:25 | a list of tokens normalizes to itself |
| TechStack.NormalizeIdempotent | app.py:23-28 | normalizing an already normalized stack again changes nothing |
| Skill.TokenSetTokens | app.py:42-43 | every element of `{t.lower() for t in normalize_tech_stack(v)}` (`TokenSet`) is a non-empty stripped token already in lower case |
| Skill.SkillMatch | app.py:41-52 | the ratio lies in [0, 1]; it is 0 exactly when the idea set is empty or disjoint from the builder set; otherwise it is the size of the intersection over the size of the idea set |
| Skill.FullMatch | app.py:41-52 | the ratio is 1 exactly when the idea set is non-empty and contained in the builder set |
| Skill.MoreSkillsNoLower | app.py:48-52 | a builder whose token set contains another builder's scores at least as high |
| Skill.TokenSetOfList | app.py:42-43 | a list's token set is the set of non-empty strips of its lower-cased items |
| Skill.SkillMatchSetInvariant | app.py:42-43 | lists with the same lower-cased items give the same score, so re-casing, reordering and repeating items change nothing |
| Skill.SkillMatchSameElements | app.py:42-43 | lists with the same elements, in any order and with any repetition, give the same score |
| Answers.HasBadPhraseIff | app.py:59-62 | `any(tok in txt for tok in bad_tokens)` (`HasBadPhrase` over the nine phrases of `BAD_PHRASES`) holds exactly when one of the phrases occurs at some index of the text |
| Answers.Cleaned | app.py:66 | the text an answer is judged by has no whitespace at either end |
| Answers.AnswerScore | app.py:65-77 | the score is 0, 0.2, 0.5 or 0.9; it is 0 exactly when a low-effort phrase occurs, and otherwise 0.2 below 20 characters, 0.5 below 50 and 0.9 from 50 on |
| Answers.PhraseOccurrenceZeroes | app.py:59-70 | a low-effort phrase at any index of the cleaned answer zeroes it, whatever its length, "na" inside a longer word included |
| Answers.CleanScoreByLength | app.py:72-77 | a phrase-free answer scores above 0, and a longer one never scores lower |
| Answers.ScoreIgnoresPaddingAndCase | app.py:66 | surrounding whitespace and letter case do not change an answer's score |
| Answers.Scores | app.py:64-77 | the `scores` list has one score per answer, each at most 0.9 |
| Answers.SumAtMost | app.py:79 | a sum of scores each at most c is at most c times their number |
| Answers.SumMonotone | app.py:79 | termwise smaller scores have a smaller sum |
| Answers.SumConstant | app.py:79 | equal scores sum to the score times their number |
| Answers.Mean | app.py:79 | the mean before rounding lies in [0, 0.9] |
| Answers.Quality | app.py:55-79 | quality is 0 for no answers and never above 0.9 |
| Answers.QualityZero | app.py:79 | quality rounds to 0 exactly when the scores sum to less than a twentieth of the number of answers, so one 0.2 among 41 or more answers still gives 0 |
| Answers.QualityUniform | app.py:79 | when all answers have the same score, quality is that score |
| Answers.QualityMonotone | app.py:65-79 | answers with termwise higher scores give at least the same quality |
| Answers.QualityOfFive | app.py:79 | with five answers quality is the exact mean, so rounding never changes it |
| Answers.AnswerQuality | app.py:55-79 | the scoring loop, with its `continue` on a low-effort phrase, computes `Quality` |
| Numeric.Round | app.py:79 | rounding picks the nearest integer, halves away from zero |
| Numeric.RoundExact | app.py:79 | rounding an exact value leaves it unchanged |
| Numeric.RoundAtMost | app.py:87 | rounding a value at most c gives at most c |
| Numeric.RoundMonotone | app.py:87-92 | rounding is monotone |
| Readiness.Unrounded | app.py:83-84 | the score 10 · (0.55 s + 0.45 a) is 4.5 a with no skill overlap and 5.5 + 4.5 a with a full match (in tenths: 45 a and 55 + 45 a) |
| Readiness.Cap | app.py:87 | `min(x, c)` is at most x and at most c; it is x when x is at most c, and c otherwise |
| Readiness.CapRounds | app.py:87-90 | rounding a capped score equals capping the rounded score: `round(min(x, c)) == min(round(x), c)` |
| Readiness.FinalReadiness | app.py:82-92 | zero skill gives exactly the smaller of 2.5 and the rounded score, even with poor answers; otherwise quality below 0.25 gives exactly the smaller of 3.0 and the rounded score; otherwise the result is the rounded 10 · (0.55 s + 0.45 a); a cap never raises the score and leaves alone a score below it |
| Readiness.ReadinessCeiling | app.py:83-84 | for s in [0, 1] and a in [0, 0.9] the unrounded score is at most 9.55 and the readiness at most 9.6 |
| Readiness.ReadinessCeilingReached | app.py:83-92 | a full skill match with the best answers reaches 9.6 |
| Readiness.CapMonotone | app.py:87-90 | capping is monotone in the score and in the cap |
| Readiness.UnroundedMonotone | app.py:83-84 | the unrounded score grows with skill and with quality |
| Readiness.ReadinessMonotone | app.py:82-92 | more skill overlap or better answers never lower readiness |
| Evaluation.Lookup | app.py:156-158 | `get(key, default)` gives the stored value, or the default when the key is absent |
| Evaluation.EvaluationOf | app.py:146-159 | the record's skill ratio is in [0, 1], quality at most 0.9, readiness at most 9.6, and at most 2.5 with zero skill |
| Evaluation.EvaluationFields | app.py:146-159 | the record carries the skill match and quality computed from the inputs and the readiness combined from those two; personality fields are copied, defaulting to "unknown", "" and "" |
| Evaluation.EvaluateBuilder | app.py:146-159 | the method computes `EvaluationOf` of its inputs |
| Store.TeamTotal | app.py:179 | the team total is 0 when every count is missing |
| Store.TeamTotalSingle | app.py:179 | one requirement contributes its count, or 0 when the count is missing; with `TeamTotalAppend` this fixes the total of every list |
| Store.TeamTotalAppend | app.py:179 | team totals add up over concatenated requirement lists |
| Store.NewIdea | app.py:183-195 | a new idea has the given id, a normalized stack, consistent team counts, no questions and no interests |
| Store.NewInterest | app.py:232-248 | the recorded interest has the given id, the answers as submitted, a normalized stack, and "" for a missing comment |
| Store.NewInterestValid | app.py:232-248 | a new interest has the given id, a normalized stack and the evaluation computed from the two stacks and its answers |
| Store.ReplaceIdea | app.py:250 | replacing one idea by a valid idea with the same id keeps ids 1..n and every idea valid |
| Store.AppendInterest | app.py:244-250 | appending an interest with id old length + 1 keeps the idea's interest ids 1..m |
| Store.IdeaStore.ValidIds | app.py:184-244 | the store invariant `Valid` (`ValidIdeas`, `IdeaValid`, `InterestValid`) gives idea ids 1..n in order, interest ids 1..m within each idea, team counts that add up and normalized stacks |
| Store.IdeaStore.constructor | app.py:17 | the store starts empty |
| Store.IdeaStore.FindIdeaIndex | app.py:31-35 | the result is the first index whose idea has the id, or none when no idea has it; in a valid store that is id - 1 for ids 1..n |
| Store.IdeaStore.PostIdea | app.py:178-197 | a team-count mismatch is refused with the store unchanged; otherwise exactly one idea with id old length + 1 is appended and the others are unchanged |
| Store.IdeaStore.GenerateQuestions | app.py:202-209 | an unknown id is refused with the store unchanged; otherwise only that idea's questions change, replaced by the new list |
| Store.IdeaStore.SubmitInterest | app.py:213-250 | an unknown id and an answer-count mismatch are refused with the store unchanged; otherwise only the target idea changes: one interest with id old length + 1 and its evaluation is appended |
| Examples.TextSample | app.py:26-27 | `"a, b ,,c"` normalizes to `["a", "b", "c"]` |
| Examples.ListSample | app.py:23-28 | `["x ", " ", "y"]` normalizes to `["x", "y"]`, and another shape to `[]` |
| Examples.SharedOne | app.py:48-52 | two two-element sets sharing one element meet in a one-element set |
| Examples.SkillSample | app.py:41-52 | `["Go", "SQL"]` against `["go"]` matches 1/2, case-insensitively |
| Examples.AnswerSample | app.py:79 | a zero-scored answer and a 0.9 answer give quality 0.45 |
| Examples.LowEffortSample | app.py:68-70 | `"idk"` scores 0 |
| Examples.ReadinessSamples | app.py:82-92 | skill 1/2 with quality 0.9 gives 6.8; skill 0.8 with quality 0.1 is capped at 3.0; zero skill with quality 0.9 gives exactly 2.5 |
| Examples.ReadinessTie | app.py:82-92 | no skill overlap with quality 0.5 gives the unrounded score 2.25 exactly, which the model rounds to 2.3 |
| Examples.ThresholdTie | app.py:79-92 | a mean of exactly 0.245 rounds to 0.25 and escapes the low-quality cap: readiness 6.6 with a full match, against 3.0 at quality 0.24 |
| Examples.PostSampleIdeas | app.py:178-209 | posting twice, with a refused mismatch between, gives ideas 1 and 2; questions go to idea 1 only and an unknown id is refused |
| Examples.StoreSession | app.py:213-250 | two interests on idea 1 get ids 1 and 2; an interest on idea 2, which has no questions, and one on an unknown idea are refused |

## Left out

- HTTP: the Flask app, routes, JSON bodies, responses, status codes and CORS. Only the store effect and the kind of refusal (`StoreError`) are modelled.
- Missing-field checks on request bodies are left out. Submissions are records whose fields are all present, with optional `notes` and `comments`, and an optional `count` per team requirement.
- The OpenAI calls `get_ai_personality` and `generate_questions` are foreign network calls. They are not modelled.
- The personality reply is an input map to `EvaluateBuilder`/`SubmitInterest`.
- The question list is an input to `GenerateQuestions`.
- A failing personality or question call is not modelled. In the source such a call raises before anything is stored: app.py:241 runs before the append at app.py:250, and app.py:207 before the overwrite at app.py:208. The model assumes both calls succeed, so `SubmitInterest` and `GenerateQuestions` succeed exactly when the id is known and, for an interest, the answer count matches.
- `evaluate_builder`'s `questions` argument only feeds the personality call, so the model drops it.
- Numeric.Round: Python's `round` works on binary floats and rounds half to even. The model rounds exact rationals half away from zero, so on ties and near-ties answer quality can differ by one hundredth.
- That hundredth matters at the `answer_quality < 0.25` test. For example, 20 answers whose scores sum to 4.9 have a mean of exactly 0.245. The model rounds this to 0.25, so no cap applies and a full match gives 6.6 (`Examples.ThresholdTie`); quality 0.24 would cap readiness at 3.0.
- With five answers, the number the question generator asks for, answer quality cannot tie: it is then always an exact hundredth (`Answers.QualityOfFive`).
- Readiness's own one-decimal rounding can tie too, so readiness can differ from Python's by one tenth. For example, no skill overlap and five phrase-free answers of 20 to 49 characters give quality exactly 0.5 and an unrounded score of exactly 2.25 (0.45 · 0.5 · 10, also exact in binary floats). The model rounds it to 2.3 (`Examples.ReadinessTie`); Python's `round(2.25, 1)` rounds half to even, giving 2.2.
- Float products and divisions are exact rationals here, with no IEEE-754 error.
- Readiness.FinalReadiness: the float test `skill_match == 0` is modelled as a ratio whose numerator is 0.
- Text.Lower: lower-cases ASCII letters only. Python lower-cases all of Unicode.
- Text.IsSpace: lists the characters Python 3's `str.isspace()` accepts, the ones `strip()` removes by default. It is not derived from a Unicode database.
- `str(v)` coercion of non-string list items and `int(...)` conversions of numbers sent as text are left out. Items are strings and counts are integers.
- Team requirements are stored as given. Their other keys are not modelled.
- Concurrent requests against the shared `IDEAS` list are left out.
- The PDF, `io`, `send_file` and `load_dotenv` imports are unused by the core, as is `app.run`.
