# Argument clinic reply generator, in Dafny

The program is a small "argument clinic" chat bot. It answers every user utterance
with a contrarian reply. The whole behaviour lives in `parse_input` and its
`handle_*` functions:

- `parse_input` tests 22 compiled regular expressions against the utterance, in a
  fixed if/elif order. The first one that matches picks the handler. When none
  matches, `handle_default_case` answers.
- A handler answers in one of three ways:
  - it draws from a literal list with `random.choice`;
  - it tests literal keywords in `user_input.strip().lower()` in a fixed order.
    The first keyword present decides the reply: the handler draws from that
    keyword's list, or returns that keyword's fixed sentence. It returns `None`
    when no keyword occurs;
  - it splices a regex capture, or the first word of the utterance, into a fixed
    template.

The model is pure, like the program: datatypes, functions and lemmas.

- `text.dfy` (module `Text`) holds the Python string operations the handlers use.
  - `str.isspace`, with Python's full whitespace set.
  - ASCII `str.lower`.
  - `str.strip` and `str.split` with no argument.
  - The substring test `w in s`.
- `selection.dfy` (module `Selection`) holds the two ways a reply is chosen.
  - `FirstMatch` is what an if/elif chain evaluates to.
  - `Choose` is `random.choice`, with the random source passed in as
    `randBelow: nat -> nat`. `ValidSource` says the source answers below its
    bound. `FixedIndex(i)` is the source that draws index `i` from every pool longer than `i`.
- `handlers.dfy` (module `Handlers`) has every `handle_*` function.
  - The response lists, copied literally. `Pool` names each list (one per
    handler, and one per arm of a keyword handler) and `Responses(pool)` is
    its literal.
  - `HandleFlat(pool, randBelow)` is `random.choice(responses)`. It is the whole
    body of `handle_default_case` and of the 14 handlers that only draw from a
    list.
  - The keyword handlers, as ordered tables of `Branch(keyword, answer)` arms.
    An `Answer` either draws from a list or returns one fixed sentence.
  - The emotion handler.
  - The three template handlers.
- `classifier.dfy` (module `Classifier`) has `parse_input`.
  - `Intent` has one constructor per pattern, plus `Default`.
  - The decision list is in source order.
  - `Classify` picks the earliest matching pattern, and `ParseInput` dispatches
    the winner to its handler. `FlatPool` gives the list of each intent whose
    handler only draws from a list, `Default` included.
  - The regular expressions are not modelled. What `re.search` returns for each
    compiled pattern on the utterance is a parameter, `Search : Intent -> Found`,
    where `Found` is `Miss` or `Hit(groups)`.
  - `Sound(input, search)` collects what the patterns guarantee about a match:
    - the group counts are right;
    - a literal piece of one alternative of the pattern occurs in the lower-cased
      utterance;
    - the too/it-will and you-are matches capture a non-empty word.

  `ParseInputAlwaysReplies`, `ParseInputRepliesNonEmpty` and
  `EmptyUtteranceGetsDefault` assume only these facts about the regex engine.

Three behaviours of the code are easy to misread; the model follows the code as written:

- The don't-understand list has three entries, not four. A missing comma
  (`my_python_clinic_project1.py:383-384`) joins its first two literals into one
  string.
- For "you're X", the you-are handler replies with the apostrophe run captured by
  group 2 (`'`), not with the adjective. Group 1 is empty, and group 2 is non-empty
  and is tested before the adjective in group 3.
- The annoyance and positive tests of `handle_emotions` are case-sensitive on the
  raw utterance. Only the "sad" and "confused" tests lower-case it.

## Model

| member | source | states |
|---|---|---|
| Text.StripBounds | my_python_clinic_project1.py:176 | `strip()` keeps a slice. Everything cut off on either side is whitespace. The kept part starts and ends with a visible character, or is empty when the utterance is all whitespace. |
| Text.NormalizeKeepsPhrase | my_python_clinic_project1.py:176 | A keyword that does not start or end with whitespace occurs in `user_input.strip().lower()` exactly when it occurs in the lower-cased utterance. |
| Text.PhraseWithinStrip | my_python_clinic_project1.py:176 | An occurrence of a keyword that starts and ends with a visible character lies inside the part that `strip()` keeps. |
| Text.Strip | my_python_clinic_project1.py:176 | `strip()` returns a substring of the utterance. It is empty exactly when the utterance is all whitespace, and otherwise starts and ends with a visible character. |
| Text.Normalize | my_python_clinic_project1.py:176 | `strip().lower()` is empty exactly when the utterance is all whitespace. It holds no upper-case ASCII letter. A keyword test on it agrees with the same test on the lower-cased utterance (`Text.NormalizeKeepsPhrase`). |
| Text.Split | my_python_clinic_project1.py:291 | Every token of `split()` is non-empty and holds no whitespace. The token list is empty exactly when the utterance has no visible character. |
| Text.FirstWord | my_python_clinic_project1.py:291 | `split()[0]` exists when the utterance has a visible character. It is the first maximal run of visible characters: only whitespace precedes it, and whitespace or the end of the utterance follows it. |
| Selection.FirstMatch | my_python_clinic_project1.py:243-258 | An if/elif chain picks the first arm whose test fires. Every earlier arm's test fails. The result is past the end only when no test fires. |
| Selection.Choose | my_python_clinic_project1.py:111 | `random.choice(responses)` returns an entry of the list. |
| Selection.ChooseFixedIndex | my_python_clinic_project1.py:111 | With index `i` injected, `random.choice` returns exactly the `i`-th entry. |
| Selection.ChooseReachesEveryEntry | my_python_clinic_project1.py:111 | Every entry of a list is a possible reply of `random.choice`. |
| Handlers.Responses | my_python_clinic_project1.py:106-547 | The `responses` literal of each handler and each keyword arm, entry for entry. No contract of its own: `Handlers.Stocked` and `Handlers.DontUnderstandPoolSize` state what is proved about the lists. |
| Handlers.Stocked | my_python_clinic_project1.py:102-547 | Every `responses` list the handlers draw from has at least one entry, so `random.choice` never meets an empty list. |
| Handlers.DontUnderstandPoolSize | my_python_clinic_project1.py:382-388 | The don't-understand list has three entries. The missing comma joins two of its four literals. |
| Handlers.EntriesNonEmpty | my_python_clinic_project1.py:106-547 | No `responses` list holds the empty string. |
| Handlers.HandleFlat | my_python_clinic_project1.py:102-111 | `random.choice(responses)` on a handler's list returns one of that list's entries. |
| Handlers.Give | my_python_clinic_project1.py:309-319 | A keyword arm returns an entry of its list when it draws, or exactly its fixed sentence. |
| Handlers.ReplyFromTable | my_python_clinic_project1.py:243-258 | A keyword handler returns `None` exactly when none of its keywords occurs. Otherwise the first keyword that occurs gives the reply: an entry of its list, or its fixed sentence. |
| Handlers.TableRepliesNonEmpty | my_python_clinic_project1.py:243-258 | A keyword handler whose fixed sentences are non-empty never returns the empty string. |
| Handlers.ArmWins | my_python_clinic_project1.py:243-258 | A keyword arm wins exactly when its keyword occurs and no earlier keyword does. |
| Handlers.HandleRepetitions | my_python_clinic_project1.py:168-189 | `None` is returned exactly when none of "yes it is", "no it is not" and "no it isn't" occurs in `strip().lower()`. The contract for the reply's list is in `Handlers.RepetitionsOrder`. |
| Handlers.HandleNeverAlways | my_python_clinic_project1.py:234-258 | `None` is returned exactly when neither "never" nor "always" occurs in `strip().lower()`. The contract for the reply's list is in `Handlers.NeverAlwaysOrder`. |
| Handlers.HandleAbsoluteKeyword | my_python_clinic_project1.py:299-319 | `None` is returned exactly when none of "impossible", "everyone knows" and "absolutely" occurs in `strip().lower()`. The contract for the reply is in `Handlers.AbsoluteKeywordOrder`. |
| Handlers.HandleFutility | my_python_clinic_project1.py:322-350 | `None` is returned exactly when none of "pointless", "sense" and "silly" occurs in `strip().lower()`. The contract for the reply's list is in `Handlers.FutilityOrder`. |
| Handlers.HandleRightWrong | my_python_clinic_project1.py:391-414 | `None` is returned exactly when neither "right" nor "wrong" occurs in `strip().lower()`. The contract for the reply's list is in `Handlers.RightWrongOrder`. |
| Handlers.FixedSentencesNonEmpty | my_python_clinic_project1.py:315-318 | The two fixed sentences of `handle_absolute_keyword` are non-empty. |
| Handlers.RepetitionsReplyNonEmpty | my_python_clinic_project1.py:168-189 | A reply of `handle_repetitions` is never the empty string. |
| Handlers.NeverAlwaysReplyNonEmpty | my_python_clinic_project1.py:234-258 | A reply of `handle_never_always` is never the empty string. |
| Handlers.AbsoluteKeywordReplyNonEmpty | my_python_clinic_project1.py:299-319 | A reply of `handle_absolute_keyword` is never the empty string. |
| Handlers.FutilityReplyNonEmpty | my_python_clinic_project1.py:322-350 | A reply of `handle_futility` is never the empty string. |
| Handlers.RightWrongReplyNonEmpty | my_python_clinic_project1.py:391-414 | A reply of `handle_right_wrong` is never the empty string. |
| Handlers.RepetitionsOrder | my_python_clinic_project1.py:176-189 | "yes it is" wins and answers from the 3-entry list. Otherwise "no it is not" or "no it isn't" answers from the 2-entry list. `None` is returned exactly when none of the three occurs. |
| Handlers.NeverAlwaysOrder | my_python_clinic_project1.py:243-258 | "never" beats "always", and each answers from its own list. `None` is returned exactly when neither occurs. |
| Handlers.AbsoluteKeywordOrder | my_python_clinic_project1.py:309-319 | "impossible" comes first and answers from its list. Then "everyone knows" and "absolutely" each give their fixed sentence. `None` is returned exactly when none occurs. |
| Handlers.FutilityOrder | my_python_clinic_project1.py:332-350 | "pointless" beats "sense", which beats "silly", and each answers from its own list. `None` is returned exactly when none occurs. |
| Handlers.RightWrongOrder | my_python_clinic_project1.py:400-414 | "right" beats "wrong", and each answers from its own list. `None` is returned exactly when neither occurs. |
| Handlers.AnnoyanceMakesFirstWord | my_python_clinic_project1.py:290-291 | When an annoyance word occurs in the raw utterance, `split()[0]` exists. |
| Handlers.HandleEmotions | my_python_clinic_project1.py:290-292 | With no "sad" or "confused", an annoyance word in the raw utterance gives the first token followed by the fixed retort tail. |
| Handlers.EmotionsOrder | my_python_clinic_project1.py:286-296 | The emotion tests run in this order: "sad", "confused" (on the lower-cased text), an annoyance word, a positive word (on the raw utterance), then the generic reply. The handler always returns a string. |
| Handlers.EmotionReplyNonEmpty | my_python_clinic_project1.py:276-296 | `handle_emotions` always answers with a non-empty string. |
| Handlers.AnnoyedRetortUsesFirstWord | my_python_clinic_project1.py:290-292 | The annoyance retort splices in the first whitespace-separated word of the raw utterance, verbatim. |
| Handlers.ShoutedEmotionIsGeneric | my_python_clinic_project1.py:290-296 | An utterance with no lower-case ASCII letter never gets the annoyance or positive reply, since those tests are case-sensitive. Without "sad" or "confused", it gets the generic reply. |
| Handlers.HandleTooItWill | my_python_clinic_project1.py:269-273 | A non-empty group 1 gives the "Too ..." template on group 1. Otherwise a non-empty group 2 gives the "Will it ..." template on group 2. `None` is returned exactly when both groups are empty. |
| Handlers.HandleYouArePattern | my_python_clinic_project1.py:361-369 | `None` is returned exactly when groups 1 to 4 are all empty. Otherwise the reply is the "Am I, or is it you who is ...?" template on the first non-empty group. |
| Handlers.TemplateKeepsCapture | my_python_clinic_project1.py:270-272 | A template reply determines its capture: a fixed prefix and suffix around two captures give equal strings only when the captures are equal. |
| Handlers.TooItWillReplies | my_python_clinic_project1.py:269-273 | The too-reply and the will-reply never coincide, and each template, the you-are one included, gives back its capture. |
| Handlers.YoureRepliesWithApostrophe | my_python_clinic_project1.py:361-364 | For "you're X", group 2 is the apostrophe run and is tested before the adjective, so the reply is "Am I, or is it you who is '?". |
| Classifier.DecisionListRanking | my_python_clinic_project1.py:51-96 | The decision list holds each of the 22 patterns exactly once, at its evaluation position. Default is not in it. |
| Classifier.FirstHitFrom | my_python_clinic_project1.py:51-98 | Evaluating the chain from position `r`, the winner is a matching pattern at `r` or later. Every pattern between `r` and the winner misses. |
| Classifier.Classify | my_python_clinic_project1.py:51-98 | The winner is the earliest matching pattern. Every pattern before it misses. The winner is Default exactly when no pattern matches. |
| Classifier.ParseInput | my_python_clinic_project1.py:7-98 | `parse_input` returns `None` only when the winner is a keyword or template handler. Flat-list handlers and the emotion handler always reply. |
| Classifier.EarlierPatternWins | my_python_clinic_project1.py:51-96 | A matching pattern that comes earlier in the list always beats a later one. |
| Classifier.RepetitionComesFirst | my_python_clinic_project1.py:51-52 | When the repetition pattern matches, the repetition handler answers, whatever else matches. |
| Classifier.YouAreBeatsNegation | my_python_clinic_project1.py:53-57 | When both the you-are and the negation patterns match (and repetition does not), the you-are handler answers. |
| Classifier.FlatWinnerDraws | my_python_clinic_project1.py:56-98 | When the winner is a handler that only draws from a list, `parse_input` returns `random.choice` over that handler's own list. |
| Classifier.DefaultOnlyWhenNothingMatches | my_python_clinic_project1.py:96-98 | When no pattern matches, Default wins and the reply is `random.choice` over the default list. |
| Classifier.SomeMatchWins | my_python_clinic_project1.py:51-96 | When some pattern matches, the default handler does not run. The winner is a matching pattern no later in the chain than that one. |
| Classifier.FlatReplyIsDrawnEntry | my_python_clinic_project1.py:56-98 | With index `i` injected, a flat-list winner replies with exactly the `i`-th entry of its list. |
| Classifier.RepetitionHandlerReplies | my_python_clinic_project1.py:20 | An utterance whose ASCII-lower-cased text contains one of the line-20 phrases gets a reply from its handler, which never returns `None` on it. |
| Classifier.NeverAlwaysHandlerReplies | my_python_clinic_project1.py:27 | An utterance whose ASCII-lower-cased text contains one of the line-27 literals gets a reply from its handler. |
| Classifier.AbsoluteKeywordHandlerReplies | my_python_clinic_project1.py:32 | An utterance whose ASCII-lower-cased text contains one of the line-32 literals gets a reply from its handler. |
| Classifier.FutilityHandlerReplies | my_python_clinic_project1.py:33 | An utterance whose ASCII-lower-cased text contains one of the line-33 literals gets a reply from its handler. |
| Classifier.RightWrongHandlerReplies | my_python_clinic_project1.py:38 | An utterance whose ASCII-lower-cased text contains one of the line-38 literals gets a reply from its handler. |
| Classifier.ParseInputAlwaysReplies | my_python_clinic_project1.py:51-98 | For regex results that satisfy `Sound`, which reads the patterns' case-insensitivity as ASCII lower-casing, `parse_input` never returns `None`. |
| Classifier.FlatWinnerNonEmpty | my_python_clinic_project1.py:56-98 | When a flat-list handler wins, `parse_input` replies, and the reply is non-empty. |
| Classifier.ReplyNeverEmpty | my_python_clinic_project1.py:51-98 | Whatever reply `parse_input` gives is a non-empty string, for any well-formed regex results. |
| Classifier.ParseInputRepliesNonEmpty | my_python_clinic_project1.py:51-98 | For regex results that satisfy `Sound`, `parse_input` always replies, and the reply is a non-empty string. |
| Classifier.EmptyUtteranceGetsDefault | my_python_clinic_project1.py:17-48 | No pattern can match the empty utterance, so it gets the default reply. |

## Left out

- `main` (Streamlit input and output, the time budget, the "exit" sentinel, and the lower-casing and stripping it applies before calling `parse_input`) is not part of this model.
- Python's `re` engine is not modelled. Word boundaries, alternation order, `$` before a trailing newline and the case-insensitive flag are all outside the model. Each compiled pattern is an abstract search result, and `Sound` states only the facts about a match that the lemmas need.
- `Sound` reads "ignoring case" as ASCII lower-casing. With `re.IGNORECASE`, Python also matches some non-ASCII case variants: U+017F (long s) matches "s", and U+0131 (dotless i) matches "i". `str.lower()` keeps both, so the program itself returns `None` on utterances such as "yes it iſ" or "rıght": the pattern matches, but the keyword handler finds no keyword. `ParseInputAlwaysReplies`, `ParseInputRepliesNonEmpty` and the five `*HandlerReplies` lemmas do not cover those utterances.
- Text.LowerChar: lower-cases ASCII letters only, whereas Python's `str.lower` also maps non-ASCII letters. So the model's keyword handlers can return `None` where the program replies. For example, Python maps the Kelvin sign U+212A to "k", so `handle_absolute_keyword` replies to "everyone Knows" (written with the Kelvin sign), while the model's handler finds no keyword.
- `random.choice` is reduced to an injected index below the list length. Its distribution is not modelled.
- `handle_default_case` and the flat-list handlers (negation, affirmation, question, personal statement, dismissal, don't-understand, agreement with doubt, agreement, preferences, comparison, complexity, unexplored areas, future implications, seeking advice) share one definition, `HandleFlat` over their list. They are not written as 15 separate functions. Their `user_input` argument is unused in the source and is not modelled.
