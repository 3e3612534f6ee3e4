/** parse_input: the ordered decision list of pattern tests and the dispatch of
    the winning intent to its handler. The compiled regular expressions are not
    modelled; what the regex engine reports for each of them on the utterance is
    a parameter (`Search`), and the facts a match of each pattern guarantees are
    collected in `Sound`. */
module Classifier {
  import opened Text
  import opened Selection
  import opened Handlers

  /** One intent per pattern test of parse_input, plus the fall-through. */
  datatype Intent =
    | Repetition | YouAre | Negation | Affirmation | Question | PersonalStatement
    | Dismissal | NeverAlways | TooOrItWill | Emotion | AbsoluteKeyword | Futility
    | DontUnderstand | RightWrong | AgreementWithDoubt | Agreement | Preference
    | Comparison | Complexity | UnexploredAreas | FutureImplications | SeekingAdvice
    | Default

  /** What re.search(pattern, user_input) returns: None, or a match whose
      groups[k - 1] is match.group(k) ("" for a group that took no part). */
  datatype Found = Miss | Hit(groups: seq<string>)

  /** The regex engine applied to one utterance: the result of searching it with
      the compiled pattern of each intent (Default has no pattern). */
  type Search = Intent -> Found

  /** The if/elif chain of parse_input, in evaluation order. */
  const DecisionList: seq<Intent> := [
    Repetition, YouAre, Negation, Affirmation, Question, PersonalStatement,
    Dismissal, NeverAlways, TooOrItWill, Emotion, AbsoluteKeyword, Futility,
    DontUnderstand, RightWrong, AgreementWithDoubt, Agreement, Preference,
    Comparison, Complexity, UnexploredAreas, FutureImplications, SeekingAdvice
  ]

  /** The evaluation position of each intent; Default comes after every pattern. */
  function Rank(intent: Intent): (r: nat)
    ensures r <= 22 && (r == 22 <==> intent == Default)
  {
    match intent
    case Repetition => 0
    case YouAre => 1
    case Negation => 2
    case Affirmation => 3
    case Question => 4
    case PersonalStatement => 5
    case Dismissal => 6
    case NeverAlways => 7
    case TooOrItWill => 8
    case Emotion => 9
    case AbsoluteKeyword => 10
    case Futility => 11
    case DontUnderstand => 12
    case RightWrong => 13
    case AgreementWithDoubt => 14
    case Agreement => 15
    case Preference => 16
    case Comparison => 17
    case Complexity => 18
    case UnexploredAreas => 19
    case FutureImplications => 20
    case SeekingAdvice => 21
    case Default => 22
  }

  /** The decision list holds every pattern intent exactly once, at its rank,
      and Default is not in it. */
  lemma DecisionListRanking()
    ensures |DecisionList| == 22 && Default !in DecisionList
    ensures forall k :: 0 <= k < |DecisionList| ==> Rank(DecisionList[k]) == k
    ensures forall p :: p != Default ==> Rank(p) < |DecisionList| && DecisionList[Rank(p)] == p
  {
  }

  /** The number of capture groups of each compiled pattern. */
  function GroupCount(intent: Intent): (count: nat)
  {
    match intent
    case Repetition => 4
    case YouAre => 6
    case Dismissal => 3
    case TooOrItWill => 2
    case DontUnderstand => 5
    case UnexploredAreas => 2
    case Affirmation => 0
    case Question => 0
    case Default => 0
    case _ => 1
  }

  /** Lower-case text of which at least one piece occurs in every utterance the
      intent's pattern matches: the pattern's literal alternatives, cut short
      before an optional apostrophe run. */
  function Anchors(intent: Intent): (anchors: seq<string>)
  {
    match intent
    case Repetition => ["yes it is", "no it is not", "no it isn't"]
    case YouAre => ["you"]
    case Negation => ["no", "not"]
    case Affirmation => ["yes", "sure", "indeed", "certainly"]
    case Question => ["?"]
    case PersonalStatement => ["i think", "in my idea", "my opinion is", "i believe", "in my view", "my experience with"]
    // `\not convinced` in the source is a newline followed by "ot convinced"
    case Dismissal => ["i don", "\n" + "ot convinced", "disagreed", "i find it hard to accept"]
    case NeverAlways => ["never", "always"]
    case TooOrItWill => ["too", "it will"]
    case Emotion => ["i feel", "feeling", "annoying", "infuriating", "irritating", "frustrating", "amazing",
                     "exciting", "joyful", "happy", "positive", "uplifting", "sad", "angry", "confused"]
    case AbsoluteKeyword => ["impossible", "absolutely", "everyone knows"]
    case Futility => ["pointless", "silly", "sense"]
    case DontUnderstand => ["understand"]
    case RightWrong => ["right", "wrong"]
    case AgreementWithDoubt => ["agree, but", "agree, although"]
    case Agreement => ["i agree", "i see", "agreed"]
    case Preference => ["i prefer", "i like", "i dislike"]
    case Comparison => ["better than", "worse than", "similar to"]
    case Complexity => ["but what if", "considering the complexities"]
    case UnexploredAreas => ["i haven", "what about"]
    case FutureImplications => ["in the future", "will lead to", "consequences will be"]
    case SeekingAdvice => ["what should i do", "any suggestions", "what do you think"]
    case Default => []
  }

  /** Every match has as many groups as its pattern declares. */
  ghost predicate WellFormed(search: Search)
  {
    forall p :: search(p).Hit? ==> |search(p).groups| == GroupCount(p)
  }

  /** What the compiled patterns guarantee about a match on `input`:
      - it is well formed, and Default never matches;
      - an anchor of the pattern occurs in the utterance, ignoring case;
      - the too/it-will match captured a non-empty word in group 1 or group 2
        (both alternatives end in `[A-Za-z]+`);
      - the you-are match has a non-empty group among groups 1 to 4: the first
        three alternatives capture `[A-Za-z]+` into group 1, 3 or 4, and the
        fourth never wins, since wherever it matches the second one matches
        at the same position first. */
  ghost predicate Sound(input: string, search: Search)
  {
    && WellFormed(search)
    && search(Default).Miss?
    && (forall p :: search(p).Hit? ==> ContainsAny(Lower(input), Anchors(p)))
    && (search(TooOrItWill).Hit? ==> search(TooOrItWill).groups[0] != "" || search(TooOrItWill).groups[1] != "")
    && (search(YouAre).Hit? ==> exists k :: 0 <= k < 4 && search(YouAre).groups[k] != "")
  }

  /** The pattern intent tested at position r of the decision list. */
  function IntentAt(r: nat): (p: Intent)
    requires r < |DecisionList|
    ensures p != Default && Rank(p) == r
    ensures forall q :: Rank(q) == r ==> q == p
  {
    DecisionListRanking();
    DecisionList[r]
  }

  /** The if/elif chain evaluated from position r on: the first intent at a
      position r or later whose pattern matches, Default when none does. */
  function FirstHitFrom(search: Search, r: nat): (winner: Intent)
    requires r <= |DecisionList|
    ensures winner != Default ==> r <= Rank(winner) && search(winner).Hit?
    ensures forall p :: r <= Rank(p) < Rank(winner) ==> search(p).Miss?
    decreases |DecisionList| - r
  {
    if r == |DecisionList| then Default
    else if search(IntentAt(r)).Hit? then IntentAt(r)
    else FirstHitFrom(search, r + 1)
  }

  /** The intent parse_input answers with: the earliest pattern in the
      decision list that matches, Default when none does. */
  function Classify(search: Search): (winner: Intent)
    ensures winner != Default ==> search(winner).Hit?
    ensures forall p :: Rank(p) < Rank(winner) ==> search(p).Miss?
    ensures winner == Default <==> forall p :: p != Default ==> search(p).Miss?
  {
    FirstHitFrom(search, 0)
  }

  /** The intents whose handler returns random.choice of one literal list,
      handle_default_case included. */
  predicate IsFlat(intent: Intent)
  {
    intent !in {Repetition, YouAre, NeverAlways, TooOrItWill, Emotion, AbsoluteKeyword, Futility, RightWrong}
  }

  /** The list of each flat handler. */
  function FlatPool(intent: Intent): (pool: Pool)
    requires IsFlat(intent)
  {
    match intent
    case Negation => NegationPool
    case Affirmation => AffirmationPool
    case Question => QuestionPool
    case PersonalStatement => PersonalStatementPool
    case Dismissal => DismissalPool
    case DontUnderstand => DontUnderstandPool
    case AgreementWithDoubt => AgreementWithDoubtPool
    case Agreement => AgreementPool
    case Preference => PreferencePool
    case Comparison => ComparisonPool
    case Complexity => ComplexityPool
    case UnexploredAreas => UnexploredAreasPool
    case FutureImplications => FutureImplicationsPool
    case SeekingAdvice => SeekingAdvicePool
    case Default => DefaultPool
  }

  /** parse_input(user_input), with the regex results and the random source
      given. None is the handler's `return None`. */
  function ParseInput(input: string, search: Search, randBelow: RandBelow): (reply: Option<string>)
    requires WellFormed(search) && ValidSource(randBelow)
    ensures reply.None? ==> !IsFlat(Classify(search)) && Classify(search) != Emotion
  {
    var winner := Classify(search);
    match winner
    case Repetition => HandleRepetitions(input, randBelow)
    case YouAre => HandleYouArePattern(search(YouAre).groups)
    case NeverAlways => HandleNeverAlways(input, randBelow)
    case TooOrItWill => HandleTooItWill(search(TooOrItWill).groups)
    case Emotion => Some(HandleEmotions(input))
    case AbsoluteKeyword => HandleAbsoluteKeyword(input, randBelow)
    case Futility => HandleFutility(input, randBelow)
    case RightWrong => HandleRightWrong(input, randBelow)
    case _ => Some(HandleFlat(FlatPool(winner), randBelow))
  }

  /** A matching pattern earlier in the list always beats a later one. */
  lemma EarlierPatternWins(search: Search, p: Intent, q: Intent)
    requires p != Default && search(p).Hit? && Rank(p) < Rank(q)
    ensures Classify(search) != q
  {
  }

  /** "yes it is" goes to the repetition handler whatever else the utterance
      contains: the repetition pattern is tested before every other one. */
  lemma RepetitionComesFirst(input: string, search: Search, randBelow: RandBelow)
    requires WellFormed(search) && ValidSource(randBelow)
    requires search(Repetition).Hit?
    ensures ParseInput(input, search, randBelow) == HandleRepetitions(input, randBelow)
  {
  }

  /** "you're not happy" matches both the you-are and the negation pattern; the
      you-are handler answers. */
  lemma YouAreBeatsNegation(input: string, search: Search, randBelow: RandBelow)
    requires WellFormed(search) && ValidSource(randBelow)
    requires search(Repetition).Miss? && search(YouAre).Hit? && search(Negation).Hit?
    ensures ParseInput(input, search, randBelow) == HandleYouArePattern(search(YouAre).groups)
  {
  }

  /** A flat winner answers with random.choice of its own list. */
  lemma FlatWinnerDraws(input: string, search: Search, randBelow: RandBelow)
    requires WellFormed(search) && ValidSource(randBelow)
    requires IsFlat(Classify(search))
    ensures ParseInput(input, search, randBelow) == Some(HandleFlat(FlatPool(Classify(search)), randBelow))
  {
  }

  /** The default handler runs when no pattern matches: parse_input then
      answers from the default list. */
  lemma DefaultOnlyWhenNothingMatches(input: string, search: Search, randBelow: RandBelow)
    requires WellFormed(search) && ValidSource(randBelow)
    requires forall p :: p != Default ==> search(p).Miss?
    ensures Classify(search) == Default
    ensures ParseInput(input, search, randBelow) == Some(HandleFlat(FlatPool(Default), randBelow))
  {
    assert Classify(search) == Default;
    FlatWinnerDraws(input, search, randBelow);
  }

  /** When some pattern matches, a matching pattern no later than it wins, and
      the default handler does not run. */
  lemma SomeMatchWins(search: Search, p: Intent)
    requires p != Default && search(p).Hit?
    ensures Classify(search) != Default && search(Classify(search)).Hit?
    ensures Rank(Classify(search)) <= Rank(p)
  {
  }

  /** With index i injected, a flat winner replies with exactly the i-th entry
      of its list. */
  lemma FlatReplyIsDrawnEntry(input: string, search: Search, i: nat)
    requires WellFormed(search) && IsFlat(Classify(search))
    requires i < |Responses(FlatPool(Classify(search)))|
    ensures ParseInput(input, search, FixedIndex(i)) == Some(Responses(FlatPool(Classify(search)))[i])
  {
    FlatWinnerDraws(input, search, FixedIndex(i));
    ChooseFixedIndex(Responses(FlatPool(Classify(search))), i);
  }

  /** A sound search with a keyword-branch winner has one of that branch's
      keywords in the normalized utterance. */
  lemma AnchoredTableReplies(input: string, anchors: seq<string>, table: seq<Branch>, randBelow: RandBelow)
    requires ValidSource(randBelow)
    requires ContainsAny(Lower(input), anchors)
    requires forall k :: 0 <= k < |anchors| ==>
      Phrase(anchors[k]) && exists j :: 0 <= j < |table| && table[j].keyword == anchors[k]
    ensures ReplyFromTable(Normalize(input), table, randBelow).Some?
  {
    var k :| 0 <= k < |anchors| && Contains(Lower(input), anchors[k]);
    var j :| 0 <= j < |table| && table[j].keyword == anchors[k];
    NormalizeKeepsPhrase(input, anchors[k]);
  }

  /** The repetition handler answers every utterance its pattern lets through. */
  lemma RepetitionHandlerReplies(input: string, randBelow: RandBelow)
    requires ValidSource(randBelow) && ContainsAny(Lower(input), Anchors(Repetition))
    ensures HandleRepetitions(input, randBelow).Some?
  {
    assert RepetitionTable[0].keyword == Anchors(Repetition)[0];
    assert RepetitionTable[1].keyword == Anchors(Repetition)[1];
    assert RepetitionTable[2].keyword == Anchors(Repetition)[2];
    AnchoredTableReplies(input, Anchors(Repetition), RepetitionTable, randBelow);
  }

  /** The never/always handler answers every utterance its pattern lets through. */
  lemma NeverAlwaysHandlerReplies(input: string, randBelow: RandBelow)
    requires ValidSource(randBelow) && ContainsAny(Lower(input), Anchors(NeverAlways))
    ensures HandleNeverAlways(input, randBelow).Some?
  {
    assert NeverAlwaysTable[0].keyword == Anchors(NeverAlways)[0];
    assert NeverAlwaysTable[1].keyword == Anchors(NeverAlways)[1];
    AnchoredTableReplies(input, Anchors(NeverAlways), NeverAlwaysTable, randBelow);
  }

  /** The absolute-keyword handler answers every utterance its pattern lets through. */
  lemma AbsoluteKeywordHandlerReplies(input: string, randBelow: RandBelow)
    requires ValidSource(randBelow) && ContainsAny(Lower(input), Anchors(AbsoluteKeyword))
    ensures HandleAbsoluteKeyword(input, randBelow).Some?
  {
    assert AbsoluteTable[0].keyword == Anchors(AbsoluteKeyword)[0];
    assert AbsoluteTable[2].keyword == Anchors(AbsoluteKeyword)[1];
    assert AbsoluteTable[1].keyword == Anchors(AbsoluteKeyword)[2];
    AnchoredTableReplies(input, Anchors(AbsoluteKeyword), AbsoluteTable, randBelow);
  }

  /** The futility handler answers every utterance its pattern lets through. */
  lemma FutilityHandlerReplies(input: string, randBelow: RandBelow)
    requires ValidSource(randBelow) && ContainsAny(Lower(input), Anchors(Futility))
    ensures HandleFutility(input, randBelow).Some?
  {
    assert FutilityTable[0].keyword == Anchors(Futility)[0];
    assert FutilityTable[2].keyword == Anchors(Futility)[1];
    assert FutilityTable[1].keyword == Anchors(Futility)[2];
    AnchoredTableReplies(input, Anchors(Futility), FutilityTable, randBelow);
  }

  /** The right/wrong handler answers every utterance its pattern lets through. */
  lemma RightWrongHandlerReplies(input: string, randBelow: RandBelow)
    requires ValidSource(randBelow) && ContainsAny(Lower(input), Anchors(RightWrong))
    ensures HandleRightWrong(input, randBelow).Some?
  {
    assert RightWrongTable[0].keyword == Anchors(RightWrong)[0];
    assert RightWrongTable[1].keyword == Anchors(RightWrong)[1];
    AnchoredTableReplies(input, Anchors(RightWrong), RightWrongTable, randBelow);
  }

  /** Whenever the search results are ones the compiled patterns can produce,
      parse_input never returns None: each keyword handler's keywords are the
      alternatives of the pattern that sent the utterance to it, and the
      template handlers always find a non-empty group. */
  lemma ParseInputAlwaysReplies(input: string, search: Search, randBelow: RandBelow)
    requires Sound(input, search) && ValidSource(randBelow)
    ensures ParseInput(input, search, randBelow).Some?
  {
    match Classify(search)
    case Repetition => RepetitionHandlerReplies(input, randBelow);
    case NeverAlways => NeverAlwaysHandlerReplies(input, randBelow);
    case AbsoluteKeyword => AbsoluteKeywordHandlerReplies(input, randBelow);
    case Futility => FutilityHandlerReplies(input, randBelow);
    case RightWrong => RightWrongHandlerReplies(input, randBelow);
    case _ =>
  }

  /** A flat winner's reply, drawn from its list, is non-empty. */
  lemma FlatWinnerNonEmpty(input: string, search: Search, randBelow: RandBelow)
    requires WellFormed(search) && ValidSource(randBelow)
    requires IsFlat(Classify(search))
    ensures ParseInput(input, search, randBelow).Some? && ParseInput(input, search, randBelow).value != ""
  {
    FlatWinnerDraws(input, search, randBelow);
    EntriesNonEmpty(FlatPool(Classify(search)));
  }

  /** Whatever reply parse_input gives is a non-empty string. */
  lemma ReplyNeverEmpty(input: string, search: Search, randBelow: RandBelow)
    requires WellFormed(search) && ValidSource(randBelow)
    ensures ParseInput(input, search, randBelow).Some? ==> ParseInput(input, search, randBelow).value != ""
  {
    match Classify(search)
    case Repetition => RepetitionsReplyNonEmpty(input, randBelow);
    case NeverAlways => NeverAlwaysReplyNonEmpty(input, randBelow);
    case AbsoluteKeyword => AbsoluteKeywordReplyNonEmpty(input, randBelow);
    case Futility => FutilityReplyNonEmpty(input, randBelow);
    case RightWrong => RightWrongReplyNonEmpty(input, randBelow);
    case YouAre =>
    case TooOrItWill =>
    case Emotion => EmotionReplyNonEmpty(input);
    case _ => FlatWinnerNonEmpty(input, search, randBelow);
  }

  /** Whenever the search results are ones the compiled patterns can produce,
      parse_input answers with a non-empty string. */
  lemma ParseInputRepliesNonEmpty(input: string, search: Search, randBelow: RandBelow)
    requires Sound(input, search) && ValidSource(randBelow)
    ensures ParseInput(input, search, randBelow).Some?
    ensures ParseInput(input, search, randBelow).value != ""
  {
    ParseInputAlwaysReplies(input, search, randBelow);
    ReplyNeverEmpty(input, search, randBelow);
  }

  /** No anchor is the empty string. */
  lemma AnchorsNonEmpty(p: Intent, k: nat)
    requires k < |Anchors(p)|
    ensures 0 < |Anchors(p)[k]|
  {
  }

  /** No anchor occurs in the empty utterance. */
  lemma NoAnchorInEmpty(p: Intent)
    ensures !ContainsAny(Lower(""), Anchors(p))
  {
    assert Lower("") == "";
    forall k | 0 <= k < |Anchors(p)|
      ensures !Contains("", Anchors(p)[k])
    {
      AnchorsNonEmpty(p, k);
      EmptyContainsNothing(Anchors(p)[k]);
    }
  }

  /** An empty utterance matches no pattern, so it gets the default reply. */
  lemma EmptyUtteranceGetsDefault(search: Search, randBelow: RandBelow)
    requires Sound("", search) && ValidSource(randBelow)
    ensures Classify(search) == Default
    ensures ParseInput("", search, randBelow) == Some(HandleFlat(FlatPool(Default), randBelow))
  {
    forall p | p != Default
      ensures search(p).Miss?
    {
      NoAnchorInEmpty(p);
    }
    DefaultOnlyWhenNothingMatches("", search, randBelow);
  }
}
