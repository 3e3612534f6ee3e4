/** The reply side of the argument clinic: the literal response lists of every
    handle_* function, the keyword-branch handlers, the emotion handler, and the
    templates that splice a captured word into a fixed sentence. */
module Handlers {
  import opened Text
  import opened Selection

  /** A handler's reply, None being its `return None`. */
  datatype Option<T> = None | Some(value: T)

  // ---------------------------------------------------------------------------
  // The literal response lists, named by the handler (and, for the keyword
  // handlers, the arm) that draws from them.

  datatype Pool =
    | DefaultPool | NegationPool | AffirmationPool | QuestionPool | PersonalStatementPool
    | DismissalPool | DontUnderstandPool | AgreementWithDoubtPool | AgreementPool | PreferencePool
    | ComparisonPool | ComplexityPool | UnexploredAreasPool | FutureImplicationsPool | SeekingAdvicePool
    | YesItIsPool | NoItIsNotPool | NeverPool | AlwaysPool | ImpossiblePool
    | PointlessPool | SensePool | SillyPool | RightPool | WrongPool

  /** The `responses = [...]` literal of each list. */
  function Responses(pool: Pool): (responses: seq<string>)
  {
    match pool
    case DefaultPool => [
      "Could you provide more context for that statement?",
      "I'm curious to hear more. What led you to this perspective?",
      "Can you elaborate more?"
    ]
    case NegationPool => [
      "I hear you, but have you considered the alternative?",
      "Sometimes a 'no' is just a 'yes' waiting to be discovered. What do you think?",
      "What if your 'not' is the key to unlocking a hidden truth?"
    ]
    case AffirmationPool => [
      "That's an interesting standpoint. What led you to that conclusion?",
      "Indeed, but what if there's an alternative perspective?",
      "Yes, but have you considered the beauty of uncertainty?",
      "Interesting perspective! Can you convince me more?",
      "Is it really, or are we just agreeing to disagree?",
      "How can you be so sure? Have you considered the opposite option?"
    ]
    case QuestionPool => [
      "What if the answer is hidden in the question itself?",
      "How often do you find yourself pondering such questions?",
      "Why do you think that is?",
      "Good question! What's your take on it?",
      "Let's figure it out together, what do you think?"
    ]
    case PersonalStatementPool => [
      "I appreciate your viewpoint! Let's explore it further.",
      "Interesting, can you elaborate more?",
      "Have you considered the opposite opinion?",
      "Interesting perspective. Can you provide more details or examples to support your view?",
      "Your opinion matters! What led you to form that particular viewpoint?",
      "Personal experiences add richness to the conversation. How has this shaped your perspective?",
      "Your viewpoint is unique. Can you share more about your personal experiences in this context?"
    ]
    case DismissalPool => [
      "What would it take to convince you, I wonder?",
      "What if it's just a different way of thinking?",
      "To agree or not to agree, that is the question.",
      "Not convinced? Well, I'll put on my most convincing argument hat!",
      "A touch of disagreement adds flavor to the conversation. Tell me more about your position",
      "I sense skepticism in the air. Shall we agree to disagree?",
      "Interesting. Let's explore the differences in our perspectives."
    ]
    // The first two sentences have no comma between them in the source, so
    // Python joins them into one entry: this list has three entries, not four.
    case DontUnderstandPool => [
      "Is understanding the same as agreeing?" + "Ah, the classic 'you don't understand.' Enlighten me, what am I missing?",
      "I hear you. Help me understand better.",
      "Understanding is subjective. Help me see it from your angle. What am I not getting?"
    ]
    case AgreementWithDoubtPool => [
      "Agreeing with a hint of skepticism. What aspects make you hesitant?",
      "Interesting perspective. What reservations do you have despite the agreement?"
    ]
    case AgreementPool => [
      "Glad we found common ground! What other points do you think we align on?",
      "Acknowledging the point! How do you think this agreement influences our overall discussion?",
      "Great to find common ground. What other aspects of our conversation resonate with you?"
    ]
    case PreferencePool => [
      "Preferences play a role. What influences your preferences in this context?",
      "Interesting preferences! How do they shape your overall stance on this matter?"
    ]
    case ComparisonPool => [
      "Comparisons bring depth. What factors do you see contributing to this comparison?",
      "Interesting choice of comparison. How does it impact your overall viewpoint?"
    ]
    case ComplexityPool => [
      "Adding layers to the discussion. How do these complexities shape your overall viewpoint?",
      "Complex scenarios indeed. Let's delve deeper into the intricacies of your argument."
    ]
    case UnexploredAreasPool => [
      "Unexplored territories! What prompted you to think about this aspect we haven't discussed?",
      "Interesting point. Let's venture into the areas we haven't covered. What else comes to mind?"
    ]
    case FutureImplicationsPool => [
      "Looking ahead! How do you envision these future implications unfolding?",
      "Future consequences are crucial. What considerations should we keep in mind?"
    ]
    case SeekingAdvicePool => [
      "Seeking advice? Let's explore different perspectives together. What options are you considering?",
      "I'm here to help. What specific advice or insights are you looking for in this situation?"
    ]
    case YesItIsPool => [
      "No it isn't!",
      "This feels like déjà vu. Or is it just a spirited agreement?",
      "Yes it is, no it isn't, the dance of contradictions!"
    ]
    case NoItIsNotPool => [
      "Yes it is!",
      "Yes it is, no it isn't, the dance of contradictions!"
    ]
    case NeverPool => [
      "Never? Isn't it a bit harsh to use such a final word?",
      "Never say never, unless you're saying never say never.",
      "Never is a strong word. Are there no circumstances where this might not hold true?",
      "Life is full of surprises. Can we consider scenarios where 'never' might not be accurate?"
    ]
    case AlwaysPool => [
      "Always? Isn't life full of exceptions?",
      "Always? Isn't that a bit too definitive?",
      "Always is a strong word. Are there no gray areas?"
    ]
    case ImpossiblePool => [
      "Impossible? Isn't life full of unexpected possibilities and surprises?",
      "Impossible is just a challenge for the imagination."
    ]
    case PointlessPool => [
      "Pointless, or just challenging in an unexpected way?",
      "On the contrary, it's full of points. Can you see them?"
    ]
    case SensePool => [
      "But what if it makes sense and the world is confused?",
      "Well, sometimes making sense is overrated"
    ]
    case SillyPool => [
      "Have you considered the opposite?",
      "Is 'silly' not a matter of perspective?"
    ]
    case RightPool => [
      "Have you considered the opposite opinion?",
      "Rightness in the air! What factors contribute to this assertion of correctness?",
      "Right, you say? Let's dive into the details of why you think so."
    ]
    case WrongPool => [
      "Or perhaps it's just an unconventional right?",
      "Why do you believe it's wrong?",
      "Convince me with your 'wrong'!"
    ]
  }

  lemma DefaultPoolSize()
    ensures |Responses(DefaultPool)| == 3
  {
  }

  lemma NegationPoolSize()
    ensures |Responses(NegationPool)| == 3
  {
  }

  lemma AffirmationPoolSize()
    ensures |Responses(AffirmationPool)| == 6
  {
  }

  lemma QuestionPoolSize()
    ensures |Responses(QuestionPool)| == 5
  {
  }

  lemma PersonalStatementPoolSize()
    ensures |Responses(PersonalStatementPool)| == 7
  {
  }

  lemma DismissalPoolSize()
    ensures |Responses(DismissalPool)| == 7
  {
  }

  /** The missing comma leaves the don't-understand list with three entries. */
  lemma DontUnderstandPoolSize()
    ensures |Responses(DontUnderstandPool)| == 3
  {
  }

  lemma AgreementWithDoubtPoolSize()
    ensures |Responses(AgreementWithDoubtPool)| == 2
  {
  }

  lemma AgreementPoolSize()
    ensures |Responses(AgreementPool)| == 3
  {
  }

  lemma PreferencePoolSize()
    ensures |Responses(PreferencePool)| == 2
  {
  }

  lemma ComparisonPoolSize()
    ensures |Responses(ComparisonPool)| == 2
  {
  }

  lemma ComplexityPoolSize()
    ensures |Responses(ComplexityPool)| == 2
  {
  }

  lemma UnexploredAreasPoolSize()
    ensures |Responses(UnexploredAreasPool)| == 2
  {
  }

  lemma FutureImplicationsPoolSize()
    ensures |Responses(FutureImplicationsPool)| == 2
  {
  }

  lemma SeekingAdvicePoolSize()
    ensures |Responses(SeekingAdvicePool)| == 2
  {
  }

  lemma YesItIsPoolSize()
    ensures |Responses(YesItIsPool)| == 3
  {
  }

  lemma NoItIsNotPoolSize()
    ensures |Responses(NoItIsNotPool)| == 2
  {
  }

  lemma NeverPoolSize()
    ensures |Responses(NeverPool)| == 4
  {
  }

  lemma AlwaysPoolSize()
    ensures |Responses(AlwaysPool)| == 3
  {
  }

  lemma ImpossiblePoolSize()
    ensures |Responses(ImpossiblePool)| == 2
  {
  }

  lemma PointlessPoolSize()
    ensures |Responses(PointlessPool)| == 2
  {
  }

  lemma SensePoolSize()
    ensures |Responses(SensePool)| == 2
  {
  }

  lemma SillyPoolSize()
    ensures |Responses(SillyPool)| == 2
  {
  }

  lemma RightPoolSize()
    ensures |Responses(RightPool)| == 3
  {
  }

  lemma WrongPoolSize()
    ensures |Responses(WrongPool)| == 3
  {
  }

  /** Every list has an entry to draw: random.choice never meets an empty list. */
  lemma Stocked(pool: Pool)
    ensures 0 < |Responses(pool)|
  {
    match pool
    case DefaultPool => DefaultPoolSize();
    case NegationPool => NegationPoolSize();
    case AffirmationPool => AffirmationPoolSize();
    case QuestionPool => QuestionPoolSize();
    case PersonalStatementPool => PersonalStatementPoolSize();
    case DismissalPool => DismissalPoolSize();
    case DontUnderstandPool => DontUnderstandPoolSize();
    case AgreementWithDoubtPool => AgreementWithDoubtPoolSize();
    case AgreementPool => AgreementPoolSize();
    case PreferencePool => PreferencePoolSize();
    case ComparisonPool => ComparisonPoolSize();
    case ComplexityPool => ComplexityPoolSize();
    case UnexploredAreasPool => UnexploredAreasPoolSize();
    case FutureImplicationsPool => FutureImplicationsPoolSize();
    case SeekingAdvicePool => SeekingAdvicePoolSize();
    case YesItIsPool => YesItIsPoolSize();
    case NoItIsNotPool => NoItIsNotPoolSize();
    case NeverPool => NeverPoolSize();
    case AlwaysPool => AlwaysPoolSize();
    case ImpossiblePool => ImpossiblePoolSize();
    case PointlessPool => PointlessPoolSize();
    case SensePool => SensePoolSize();
    case SillyPool => SillyPoolSize();
    case RightPool => RightPoolSize();
    case WrongPool => WrongPoolSize();
  }

  // No entry of any list is the empty string; one lemma per list keeps each
  // literal in a proof of its own.

  lemma DefaultPoolEntries()
    ensures "" !in Responses(DefaultPool)
  {
  }

  lemma NegationPoolEntries()
    ensures "" !in Responses(NegationPool)
  {
  }

  lemma AffirmationPoolEntries()
    ensures "" !in Responses(AffirmationPool)
  {
  }

  lemma QuestionPoolEntries()
    ensures "" !in Responses(QuestionPool)
  {
  }

  lemma PersonalStatementPoolEntries()
    ensures "" !in Responses(PersonalStatementPool)
  {
  }

  lemma DismissalPoolEntries()
    ensures "" !in Responses(DismissalPool)
  {
  }

  lemma DontUnderstandPoolEntries()
    ensures "" !in Responses(DontUnderstandPool)
  {
  }

  lemma AgreementWithDoubtPoolEntries()
    ensures "" !in Responses(AgreementWithDoubtPool)
  {
  }

  lemma AgreementPoolEntries()
    ensures "" !in Responses(AgreementPool)
  {
  }

  lemma PreferencePoolEntries()
    ensures "" !in Responses(PreferencePool)
  {
  }

  lemma ComparisonPoolEntries()
    ensures "" !in Responses(ComparisonPool)
  {
  }

  lemma ComplexityPoolEntries()
    ensures "" !in Responses(ComplexityPool)
  {
  }

  lemma UnexploredAreasPoolEntries()
    ensures "" !in Responses(UnexploredAreasPool)
  {
  }

  lemma FutureImplicationsPoolEntries()
    ensures "" !in Responses(FutureImplicationsPool)
  {
  }

  lemma SeekingAdvicePoolEntries()
    ensures "" !in Responses(SeekingAdvicePool)
  {
  }

  lemma YesItIsPoolEntries()
    ensures "" !in Responses(YesItIsPool)
  {
  }

  lemma NoItIsNotPoolEntries()
    ensures "" !in Responses(NoItIsNotPool)
  {
  }

  lemma NeverPoolEntries()
    ensures "" !in Responses(NeverPool)
  {
  }

  lemma AlwaysPoolEntries()
    ensures "" !in Responses(AlwaysPool)
  {
  }

  lemma ImpossiblePoolEntries()
    ensures "" !in Responses(ImpossiblePool)
  {
  }

  lemma PointlessPoolEntries()
    ensures "" !in Responses(PointlessPool)
  {
  }

  lemma SensePoolEntries()
    ensures "" !in Responses(SensePool)
  {
  }

  lemma SillyPoolEntries()
    ensures "" !in Responses(SillyPool)
  {
  }

  lemma RightPoolEntries()
    ensures "" !in Responses(RightPool)
  {
  }

  lemma WrongPoolEntries()
    ensures "" !in Responses(WrongPool)
  {
  }

  /** No list holds the empty string: whatever random.choice draws is a
      non-empty reply. */
  lemma EntriesNonEmpty(pool: Pool)
    ensures "" !in Responses(pool)
  {
    match pool
    case DefaultPool => DefaultPoolEntries();
    case NegationPool => NegationPoolEntries();
    case AffirmationPool => AffirmationPoolEntries();
    case QuestionPool => QuestionPoolEntries();
    case PersonalStatementPool => PersonalStatementPoolEntries();
    case DismissalPool => DismissalPoolEntries();
    case DontUnderstandPool => DontUnderstandPoolEntries();
    case AgreementWithDoubtPool => AgreementWithDoubtPoolEntries();
    case AgreementPool => AgreementPoolEntries();
    case PreferencePool => PreferencePoolEntries();
    case ComparisonPool => ComparisonPoolEntries();
    case ComplexityPool => ComplexityPoolEntries();
    case UnexploredAreasPool => UnexploredAreasPoolEntries();
    case FutureImplicationsPool => FutureImplicationsPoolEntries();
    case SeekingAdvicePool => SeekingAdvicePoolEntries();
    case YesItIsPool => YesItIsPoolEntries();
    case NoItIsNotPool => NoItIsNotPoolEntries();
    case NeverPool => NeverPoolEntries();
    case AlwaysPool => AlwaysPoolEntries();
    case ImpossiblePool => ImpossiblePoolEntries();
    case PointlessPool => PointlessPoolEntries();
    case SensePool => SensePoolEntries();
    case SillyPool => SillyPoolEntries();
    case RightPool => RightPoolEntries();
    case WrongPool => WrongPoolEntries();
  }

  /** random.choice(responses) for the list of a handler or an arm: the whole
      body of handle_default_case and of the 14 handlers that only draw from a
      list (handle_negation, handle_affirmation, ...). */
  function HandleFlat(pool: Pool, randBelow: RandBelow): (reply: string)
    requires ValidSource(randBelow)
    ensures reply in Responses(pool)
  {
    Stocked(pool);
    Choose(Responses(pool), randBelow)
  }

  // ---------------------------------------------------------------------------
  // Keyword-branch handlers: the lower-cased, stripped utterance is tested for
  // literal keywords in a fixed order; the first keyword present picks the reply.

  /** What an arm returns: random.choice of a list, or one literal sentence. */
  datatype Answer = Draw(pool: Pool) | Say(sentence: string)

  /** One `if "keyword" in text:` arm and what it returns. */
  datatype Branch = Branch(keyword: string, answer: Answer)

  /** reply is a possible return value of an arm's answer. */
  ghost predicate Gives(answer: Answer, reply: string)
  {
    match answer
    case Draw(pool) => reply in Responses(pool)
    case Say(sentence) => reply == sentence
  }

  function Give(answer: Answer, randBelow: RandBelow): (reply: string)
    requires ValidSource(randBelow)
    ensures Gives(answer, reply)
  {
    match answer
    case Draw(pool) => HandleFlat(pool, randBelow)
    case Say(sentence) => sentence
  }

  /** The arm that wins: the first whose keyword occurs in text, |table| if none. */
  function FirstBranch(text: string, table: seq<Branch>): (k: nat)
    ensures k <= |table|
    ensures k < |table| ==> Contains(text, table[k].keyword)
    ensures forall j :: 0 <= j < k ==> !Contains(text, table[j].keyword)
  {
    FirstMatch(table, (b: Branch) => Contains(text, b.keyword))
  }

  /** An if/elif chain of keyword arms ending in `return None`. */
  function ReplyFromTable(text: string, table: seq<Branch>, randBelow: RandBelow): (reply: Option<string>)
    requires ValidSource(randBelow)
    ensures reply.None? <==> forall k :: 0 <= k < |table| ==> !Contains(text, table[k].keyword)
    ensures reply.Some? ==> Gives(table[FirstBranch(text, table)].answer, reply.value)
  {
    var k := FirstBranch(text, table);
    if k < |table| then Some(Give(table[k].answer, randBelow)) else None
  }

  /** A keyword handler whose fixed sentences are non-empty never answers with
      the empty string. */
  lemma TableRepliesNonEmpty(text: string, table: seq<Branch>, randBelow: RandBelow)
    requires ValidSource(randBelow)
    requires forall k :: 0 <= k < |table| ==> table[k].answer != Say("")
    ensures ReplyFromTable(text, table, randBelow).Some? ==> ReplyFromTable(text, table, randBelow).value != ""
  {
    var reply := ReplyFromTable(text, table, randBelow);
    if reply.Some? {
      match table[FirstBranch(text, table)].answer
      case Draw(pool) => EntriesNonEmpty(pool);
      case Say(sentence) =>
    }
  }

  /** An arm wins exactly when its keyword occurs and no earlier one does. */
  lemma ArmWins(text: string, table: seq<Branch>, j: nat)
    requires j < |table| && Contains(text, table[j].keyword)
    requires forall i :: 0 <= i < j ==> !Contains(text, table[i].keyword)
    ensures FirstBranch(text, table) == j
  {
  }

  /** "no it is not" and "no it isn't" share one arm in the source (an `or`);
      two rows with the same list behave identically. */
  const RepetitionTable: seq<Branch> := [
    Branch("yes it is", Draw(YesItIsPool)),
    Branch("no it is not", Draw(NoItIsNotPool)),
    Branch("no it isn't", Draw(NoItIsNotPool))
  ]

  const NeverAlwaysTable: seq<Branch> := [
    Branch("never", Draw(NeverPool)),
    Branch("always", Draw(AlwaysPool))
  ]

  const EveryoneKnowsReply: string := "If everyone knows it, how come we're still discussing about that?"

  const AbsolutelyReply: string := "Absolutely, or just slightly off from another angle?"

  const AbsoluteTable: seq<Branch> := [
    Branch("impossible", Draw(ImpossiblePool)),
    Branch("everyone knows", Say(EveryoneKnowsReply)),
    Branch("absolutely", Say(AbsolutelyReply))
  ]

  const FutilityTable: seq<Branch> := [
    Branch("pointless", Draw(PointlessPool)),
    Branch("sense", Draw(SensePool)),
    Branch("silly", Draw(SillyPool))
  ]

  const RightWrongTable: seq<Branch> := [
    Branch("right", Draw(RightPool)),
    Branch("wrong", Draw(WrongPool))
  ]

  /** handle_repetitions(user_input) */
  function HandleRepetitions(input: string, randBelow: RandBelow): (reply: Option<string>)
    requires ValidSource(randBelow)
    ensures reply.None? <==> !Contains(Normalize(input), "yes it is") && !Contains(Normalize(input), "no it is not") && !Contains(Normalize(input), "no it isn't")
  {
    ReplyFromTable(Normalize(input), RepetitionTable, randBelow)
  }

  /** handle_never_always(user_input) */
  function HandleNeverAlways(input: string, randBelow: RandBelow): (reply: Option<string>)
    requires ValidSource(randBelow)
    ensures reply.None? <==> !Contains(Normalize(input), "never") && !Contains(Normalize(input), "always")
  {
    ReplyFromTable(Normalize(input), NeverAlwaysTable, randBelow)
  }

  /** handle_absolute_keyword(user_input) */
  function HandleAbsoluteKeyword(input: string, randBelow: RandBelow): (reply: Option<string>)
    requires ValidSource(randBelow)
    ensures reply.None? <==> !Contains(Normalize(input), "impossible") && !Contains(Normalize(input), "everyone knows") && !Contains(Normalize(input), "absolutely")
  {
    assert AbsoluteTable[1].keyword == "everyone knows" && AbsoluteTable[2].keyword == "absolutely";
    ReplyFromTable(Normalize(input), AbsoluteTable, randBelow)
  }

  /** handle_futility(user_input) */
  function HandleFutility(input: string, randBelow: RandBelow): (reply: Option<string>)
    requires ValidSource(randBelow)
    ensures reply.None? <==> !Contains(Normalize(input), "pointless") && !Contains(Normalize(input), "sense") && !Contains(Normalize(input), "silly")
  {
    ReplyFromTable(Normalize(input), FutilityTable, randBelow)
  }

  /** handle_right_wrong(user_input) */
  function HandleRightWrong(input: string, randBelow: RandBelow): (reply: Option<string>)
    requires ValidSource(randBelow)
    ensures reply.None? <==> !Contains(Normalize(input), "right") && !Contains(Normalize(input), "wrong")
  {
    ReplyFromTable(Normalize(input), RightWrongTable, randBelow)
  }

  /** The two fixed sentences of handle_absolute_keyword are non-empty. */
  lemma FixedSentencesNonEmpty()
    ensures EveryoneKnowsReply != "" && AbsolutelyReply != ""
  {
  }

  /** A reply of handle_repetitions is never the empty string. */
  lemma RepetitionsReplyNonEmpty(input: string, randBelow: RandBelow)
    requires ValidSource(randBelow)
    ensures HandleRepetitions(input, randBelow).Some? ==> HandleRepetitions(input, randBelow).value != ""
  {
    TableRepliesNonEmpty(Normalize(input), RepetitionTable, randBelow);
  }

  /** A reply of handle_never_always is never the empty string. */
  lemma NeverAlwaysReplyNonEmpty(input: string, randBelow: RandBelow)
    requires ValidSource(randBelow)
    ensures HandleNeverAlways(input, randBelow).Some? ==> HandleNeverAlways(input, randBelow).value != ""
  {
    TableRepliesNonEmpty(Normalize(input), NeverAlwaysTable, randBelow);
  }

  /** A reply of handle_absolute_keyword is never the empty string. */
  lemma AbsoluteKeywordReplyNonEmpty(input: string, randBelow: RandBelow)
    requires ValidSource(randBelow)
    ensures HandleAbsoluteKeyword(input, randBelow).Some? ==> HandleAbsoluteKeyword(input, randBelow).value != ""
  {
    FixedSentencesNonEmpty();
    TableRepliesNonEmpty(Normalize(input), AbsoluteTable, randBelow);
  }

  /** A reply of handle_futility is never the empty string. */
  lemma FutilityReplyNonEmpty(input: string, randBelow: RandBelow)
    requires ValidSource(randBelow)
    ensures HandleFutility(input, randBelow).Some? ==> HandleFutility(input, randBelow).value != ""
  {
    TableRepliesNonEmpty(Normalize(input), FutilityTable, randBelow);
  }

  /** A reply of handle_right_wrong is never the empty string. */
  lemma RightWrongReplyNonEmpty(input: string, randBelow: RandBelow)
    requires ValidSource(randBelow)
    ensures HandleRightWrong(input, randBelow).Some? ==> HandleRightWrong(input, randBelow).value != ""
  {
    TableRepliesNonEmpty(Normalize(input), RightWrongTable, randBelow);
  }

  /** "yes it is" is tested before the two "no it is..." phrases; the handler
      gives up only when none of the three occurs. */
  lemma RepetitionsOrder(input: string, randBelow: RandBelow)
    requires ValidSource(randBelow)
    ensures var text, reply := Normalize(input), HandleRepetitions(input, randBelow);
      && (Contains(text, "yes it is") ==> reply.Some? && reply.value in Responses(YesItIsPool))
      && (!Contains(text, "yes it is") && (Contains(text, "no it is not") || Contains(text, "no it isn't"))
          ==> reply.Some? && reply.value in Responses(NoItIsNotPool))
      && (reply.None? <==> !Contains(text, "yes it is") && !Contains(text, "no it is not") && !Contains(text, "no it isn't"))
  {
    var text := Normalize(input);
    if Contains(text, "yes it is") {
      ArmWins(text, RepetitionTable, 0);
    } else if Contains(text, "no it is not") {
      ArmWins(text, RepetitionTable, 1);
    } else if Contains(text, "no it isn't") {
      ArmWins(text, RepetitionTable, 2);
    }
  }


  /** "never" outranks "always"; None only when neither occurs. */
  lemma NeverAlwaysOrder(input: string, randBelow: RandBelow)
    requires ValidSource(randBelow)
    ensures var text, reply := Normalize(input), HandleNeverAlways(input, randBelow);
      && (Contains(text, "never") ==> reply.Some? && reply.value in Responses(NeverPool))
      && (!Contains(text, "never") && Contains(text, "always") ==> reply.Some? && reply.value in Responses(AlwaysPool))
      && (reply.None? <==> !Contains(text, "never") && !Contains(text, "always"))
  {
    var text := Normalize(input);
    if Contains(text, "never") {
      ArmWins(text, NeverAlwaysTable, 0);
    } else if Contains(text, "always") {
      ArmWins(text, NeverAlwaysTable, 1);
    }
  }


  /** "impossible" outranks "everyone knows", which outranks "absolutely";
      None only when none occurs. */
  lemma AbsoluteKeywordOrder(input: string, randBelow: RandBelow)
    requires ValidSource(randBelow)
    ensures var text, reply := Normalize(input), HandleAbsoluteKeyword(input, randBelow);
      && (Contains(text, "impossible") ==> reply.Some? && reply.value in Responses(ImpossiblePool))
      && (!Contains(text, "impossible") && Contains(text, "everyone knows") ==> reply == Some(EveryoneKnowsReply))
      && (!Contains(text, "impossible") && !Contains(text, "everyone knows") && Contains(text, "absolutely")
          ==> reply == Some(AbsolutelyReply))
      && (reply.None? <==> !Contains(text, "impossible") && !Contains(text, "everyone knows") && !Contains(text, "absolutely"))
  {
    var text := Normalize(input);
    if Contains(text, "impossible") {
      ArmWins(text, AbsoluteTable, 0);
    } else if Contains(text, "everyone knows") {
      ArmWins(text, AbsoluteTable, 1);
    } else if Contains(text, "absolutely") {
      ArmWins(text, AbsoluteTable, 2);
    }
  }


  /** "pointless" outranks "sense", which outranks "silly"; None only when
      none occurs. */
  lemma FutilityOrder(input: string, randBelow: RandBelow)
    requires ValidSource(randBelow)
    ensures var text, reply := Normalize(input), HandleFutility(input, randBelow);
      && (Contains(text, "pointless") ==> reply.Some? && reply.value in Responses(PointlessPool))
      && (!Contains(text, "pointless") && Contains(text, "sense") ==> reply.Some? && reply.value in Responses(SensePool))
      && (!Contains(text, "pointless") && !Contains(text, "sense") && Contains(text, "silly")
          ==> reply.Some? && reply.value in Responses(SillyPool))
      && (reply.None? <==> !Contains(text, "pointless") && !Contains(text, "sense") && !Contains(text, "silly"))
  {
    var text := Normalize(input);
    if Contains(text, "pointless") {
      ArmWins(text, FutilityTable, 0);
    } else if Contains(text, "sense") {
      ArmWins(text, FutilityTable, 1);
    } else if Contains(text, "silly") {
      ArmWins(text, FutilityTable, 2);
    }
  }


  /** "right" outranks "wrong"; None only when neither occurs. */
  lemma RightWrongOrder(input: string, randBelow: RandBelow)
    requires ValidSource(randBelow)
    ensures var text, reply := Normalize(input), HandleRightWrong(input, randBelow);
      && (Contains(text, "right") ==> reply.Some? && reply.value in Responses(RightPool))
      && (!Contains(text, "right") && Contains(text, "wrong") ==> reply.Some? && reply.value in Responses(WrongPool))
      && (reply.None? <==> !Contains(text, "right") && !Contains(text, "wrong"))
  {
    var text := Normalize(input);
    if Contains(text, "right") {
      ArmWins(text, RightWrongTable, 0);
    } else if Contains(text, "wrong") {
      ArmWins(text, RightWrongTable, 1);
    }
  }


  // ---------------------------------------------------------------------------
  // Emotions: two tests on the lower-cased text, then two case-sensitive tests
  // on the raw utterance, then a generic reply. Never None.

  const Annoying: seq<string> := ["infuriating", "irritating", "frustrating", "angry", "annoying"]

  const Positives: seq<string> := ["amazing", "exciting", "joyful", "happy", "positive", "uplifting"]

  const SadReply: string := "I sense a touch of sadness. What's on your mind?"

  const ConfusedReply: string := "Confusion can be intriguing. Let's untangle the thoughts together."

  const PositiveReply: string := "Positive vibes! What's bringing joy to your argumentative world?"

  const GenericEmotionReply: string := "Interesting emotions you're expressing. Care to share more?"

  /** The annoyance retort: the utterance's first word, then a fixed tail. */
  function AnnoyedReply(word: string): (reply: string)
  {
    word + ", or just mildly irritating in a delightful way?"
  }

  /** An annoyance keyword in the utterance guarantees that `split()[0]` exists. */
  lemma AnnoyanceMakesFirstWord(input: string)
    requires ContainsAny(input, Annoying)
    ensures 0 < |Split(input)|
  {
    var k :| 0 <= k < |Annoying| && Contains(input, Annoying[k]);
    assert Phrase(Annoying[k]);
    PhraseMakesVisible(input, Annoying[k]);
    FirstWord(input);
  }

  /** handle_emotions(user_input) */
  function HandleEmotions(input: string): (reply: string)
    ensures var text := Normalize(input);
      !Contains(text, "sad") && !Contains(text, "confused") && ContainsAny(input, Annoying) ==>
        0 < |Split(input)| && reply == AnnoyedReply(Split(input)[0])
  {
    var text := Normalize(input);
    if Contains(text, "sad") then SadReply
    else if Contains(text, "confused") then ConfusedReply
    else if ContainsAny(input, Annoying) then
      AnnoyanceMakesFirstWord(input);
      AnnoyedReply(Split(input)[0])
    else if ContainsAny(input, Positives) then PositiveReply
    else GenericEmotionReply
  }

  /** The order of the emotion tests: "sad", then "confused" (both on the
      lower-cased text), then an annoyance word, then a positive word (both on
      the raw utterance), then the generic reply. */
  lemma EmotionsOrder(input: string)
    ensures var text, reply := Normalize(input), HandleEmotions(input);
      var calm := !Contains(text, "sad") && !Contains(text, "confused") && !ContainsAny(input, Annoying);
      && (Contains(text, "sad") ==> reply == SadReply)
      && (!Contains(text, "sad") && Contains(text, "confused") ==> reply == ConfusedReply)
      && (calm && ContainsAny(input, Positives) ==> reply == PositiveReply)
      && (calm && !ContainsAny(input, Positives) ==> reply == GenericEmotionReply)
  {
  }

  /** handle_emotions always answers with a non-empty string. */
  lemma EmotionReplyNonEmpty(input: string)
    ensures HandleEmotions(input) != ""
  {
  }

  /** The annoyance retort is built from the first whitespace-separated word of
      the raw utterance, verbatim: a non-empty run of visible characters that
      only whitespace precedes. */
  lemma AnnoyedRetortUsesFirstWord(input: string)
    requires ContainsAny(input, Annoying)
    requires !Contains(Normalize(input), "sad") && !Contains(Normalize(input), "confused")
    ensures 0 < |Split(input)|
    ensures var a, word := LeadingSpaces(input), Split(input)[0];
      && HandleEmotions(input) == AnnoyedReply(word)
      && Word(word)
      && a + |word| <= |input|
      && input[a..a + |word|] == word
      && (a + |word| == |input| || IsSpace(input[a + |word|]))
  {
    AnnoyanceMakesFirstWord(input);
    FirstWord(input);
  }

  /** The annoyance and positive tests are case-sensitive: an utterance with no
      lower-case ASCII letter never gets the annoyance retort or the positive
      reply, whatever emotion words it shouts. */
  lemma ShoutedEmotionIsGeneric(input: string)
    requires forall i :: 0 <= i < |input| ==> !('a' <= input[i] <= 'z')
    requires !Contains(Normalize(input), "sad") && !Contains(Normalize(input), "confused")
    ensures HandleEmotions(input) == GenericEmotionReply
  {
    forall k | 0 <= k < |Annoying| ensures !Contains(input, Annoying[k]) {
      NoLowerNoMatch(input, Annoying[k]);
    }
    forall k | 0 <= k < |Positives| ensures !Contains(input, Positives[k]) {
      NoLowerNoMatch(input, Positives[k]);
    }
  }

  lemma NoLowerNoMatch(s: string, w: string)
    requires forall i :: 0 <= i < |s| ==> !('a' <= s[i] <= 'z')
    requires 0 < |w| && 'a' <= w[0] <= 'z'
    ensures !Contains(s, w)
  {
    forall i | 0 <= i <= |s| - |w|
      ensures !OccursAt(s, w, i)
    {
      assert s[i] != w[0];
    }
  }

  // ---------------------------------------------------------------------------
  // Handlers that splice a regex capture into a template. The match object is
  // given by its groups: groups[k - 1] is match.group(k), "" for a group that
  // took no part in the match (Python's None; both are falsy).

  function TooReply(word: string): (reply: string)
  {
    "Too " + word + ", or just a bit more than what you prefer?"
  }

  function WillReply(word: string): (reply: string)
  {
    "Will it " + word + ", or is that just a possibility you're considering?"
  }

  function YouAreReply(word: string): (reply: string)
  {
    "Am I, or is it you who is " + word + "?"
  }

  /** handle_too_it_will(match), for the two groups of `too\s+([A-Za-z]+)|it will\s+([A-Za-z]+)`. */
  function HandleTooItWill(groups: seq<string>): (reply: Option<string>)
    requires |groups| == 2
    ensures reply.None? <==> groups[0] == "" && groups[1] == ""
    ensures groups[0] != "" ==> reply == Some(TooReply(groups[0]))
    ensures groups[0] == "" && groups[1] != "" ==> reply == Some(WillReply(groups[1]))
  {
    if groups[0] != "" then Some(TooReply(groups[0]))
    else if groups[1] != "" then Some(WillReply(groups[1]))
    else None
  }

  /** handle_you_are_pattern(match), for the six groups of the you-are pattern;
      only groups 1 to 4 are consulted, the first non-empty one is spliced in. */
  function HandleYouArePattern(groups: seq<string>): (reply: Option<string>)
    requires |groups| == 6
    ensures reply.None? <==> forall k :: 0 <= k < 4 ==> groups[k] == ""
    ensures reply.Some? ==> exists k :: 0 <= k < 4 && groups[k] != "" && reply.value == YouAreReply(groups[k])
                                        && (forall j :: 0 <= j < k ==> groups[j] == "")
  {
    if groups[0] != "" then Some(YouAreReply(groups[0]))
    else if groups[1] != "" then Some(YouAreReply(groups[1]))
    else if groups[2] != "" then Some(YouAreReply(groups[2]))
    else if groups[3] != "" then Some(YouAreReply(groups[3]))
    else None
  }

  /** A template keeps its capture verbatim: the word can be read back from the
      reply, so two different captures never give the same reply. */
  lemma TemplateKeepsCapture(prefix: string, suffix: string, a: string, b: string)
    requires prefix + a + suffix == prefix + b + suffix
    ensures a == b
  {
    var r := prefix + a + suffix;
    assert |a| == |b|;
    assert r[|prefix|..|prefix| + |a|] == a;
    assert (prefix + b + suffix)[|prefix|..|prefix| + |b|] == b;
  }

  /** The too-reply and the will-reply are told apart by their first letter,
      and each gives back its capture. */
  lemma TooItWillReplies(a: string, b: string)
    ensures TooReply(a) != WillReply(b)
    ensures TooReply(a) == TooReply(b) ==> a == b
    ensures WillReply(a) == WillReply(b) ==> a == b
    ensures YouAreReply(a) == YouAreReply(b) ==> a == b
  {
    assert TooReply(a)[0] == 'T' && WillReply(b)[0] == 'W';
    if TooReply(a) == TooReply(b) {
      TemplateKeepsCapture("Too ", ", or just a bit more than what you prefer?", a, b);
    }
    if WillReply(a) == WillReply(b) {
      TemplateKeepsCapture("Will it ", ", or is that just a possibility you're considering?", a, b);
    }
    if YouAreReply(a) == YouAreReply(b) {
      TemplateKeepsCapture("Am I, or is it you who is ", "?", a, b);
    }
  }

  /** For "you're X" the second alternative of the pattern matches, and its
      group 2 is the apostrophe run `(\'*)`, which is non-empty and is tested
      before the adjective in group 3: the reply splices in "'". */
  lemma YoureRepliesWithApostrophe(adjective: string)
    requires adjective != ""
    ensures HandleYouArePattern(["", "'", adjective, "", "", ""]) == Some(YouAreReply("'"))
  {
  }
}
