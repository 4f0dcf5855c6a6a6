/** One question of an exam (src/components/exam/QuestionCard.tsx): the local
    text state and the two answer handlers, the hint chosen from the question
    text, the length feedback under a free-text answer, the selected option and
    the points label. */
module QuestionCard {
  import opened Types
  import opened Text

  // ---------------------------------------------------------------------
  // Answer state

  /** The initial `textAnswer`: the current answer when it is a string, else empty. */
  function InitialText(currentAnswer: Option<AnswerValue>): (r: string)
    ensures (currentAnswer.Some? && currentAnswer.value.Text?) ==> r == currentAnswer.value.text
    ensures (currentAnswer.None? || currentAnswer.value.Choice?) ==> r == ""
  {
    match currentAnswer
    case Some(Text(t)) => t
    case _ => ""
  }

  /** The card's own state and the values it has handed to `onAnswerChange`, in order. */
  class QuestionCardState {
    var textAnswer: string
    var showHint: bool
    var forwarded: seq<AnswerValue>

    constructor (currentAnswer: Option<AnswerValue>)
      ensures textAnswer == InitialText(currentAnswer) && !showHint && forwarded == []
    {
      textAnswer := InitialText(currentAnswer);
      showHint := false;
      forwarded := [];
    }

    /** `handleTextChange`: the text is kept and the same text is forwarded. */
    method HandleTextChange(value: string)
      modifies this`textAnswer, this`forwarded
      ensures textAnswer == value
      ensures forwarded == old(forwarded) + [Text(value)]
    {
      textAnswer := value;
      forwarded := forwarded + [Text(value)];
    }

    /** `handleOptionSelect`: the index is forwarded as it is; the text stays. */
    method HandleOptionSelect(index: int)
      modifies this`forwarded
      ensures forwarded == old(forwarded) + [Choice(index)]
    {
      forwarded := forwarded + [Choice(index)];
    }

    /** The hint button flips the hint panel. */
    method ToggleHint()
      modifies this`showHint
      ensures showHint == !old(showHint)
    {
      showHint := !showHint;
    }
  }

  // ---------------------------------------------------------------------
  // Hints

  const TransformationalHint: string := "Pensez aux caractéristiques qui distinguent un leader transformationnel : vision, inspiration, développement des autres."
  const ConflictHint: string := "Un bon leader facilite la résolution de conflits plutôt que de les éviter ou de prendre parti."
  const CommunicationHint: string := "La communication est essentielle pour créer la confiance et aligner les équipes sur les objectifs."
  const TeamHint: string := "Décrivez une approche structurée : évaluation, formation, mentorat, délégation progressive, feedback."
  const DefaultHint: string := "Réfléchissez aux meilleures pratiques en leadership et donnez des exemples concrets de votre expérience."

  /** `getQuestionHint`: the keyword tests on the lower-cased text, tried in order. */
  function GetQuestionHint(questionText: string): (r: string)
    ensures r in {TransformationalHint, ConflictHint, CommunicationHint, TeamHint, DefaultHint}
  {
    if Contains(Lower(questionText), "leader transformationnel") then TransformationalHint
    else if Contains(Lower(questionText), "conflit") then ConflictHint
    else if Contains(Lower(questionText), "communication") then CommunicationHint
    else if Contains(Lower(questionText), "développer") && Contains(Lower(questionText), "équipe") then TeamHint
    else DefaultHint
  }

  /** Case folding reaches the accented capitals: a question writing both
      team keywords in capitals gets the team hint once the earlier tests fail. */
  lemma CapitalKeywordsGetTeamHint(a: string, b: string, c: string)
    requires var t := Lower(a + "DÉVELOPPER" + b + "ÉQUIPE" + c);
      !Contains(t, "leader transformationnel") && !Contains(t, "conflit") && !Contains(t, "communication")
    ensures GetQuestionHint(a + "DÉVELOPPER" + b + "ÉQUIPE" + c) == TeamHint
  {
    assert Lower("DÉVELOPPER") == "développer";
    assert Lower("ÉQUIPE") == "équipe";
    FoldedKeywordAnywhere(a, "DÉVELOPPER", "développer", b + "ÉQUIPE" + c);
    assert a + "DÉVELOPPER" + (b + "ÉQUIPE" + c) == a + "DÉVELOPPER" + b + "ÉQUIPE" + c;
    FoldedKeywordAnywhere(a + "DÉVELOPPER" + b, "ÉQUIPE", "équipe", c);
  }

  /** A hint rule: every keyword must occur for the hint to apply. */
  datatype HintRule = HintRule(keywords: seq<string>, hint: string)

  /** The hint rules as a table, in the order the card tries them. */
  const HintRules: seq<HintRule> := [
    HintRule(["leader transformationnel"], TransformationalHint),
    HintRule(["conflit"], ConflictHint),
    HintRule(["communication"], CommunicationHint),
    HintRule(["développer", "équipe"], TeamHint)]

  predicate RuleApplies(rule: HintRule, text: string) {
    forall k :: 0 <= k < |rule.keywords| ==> Contains(text, rule.keywords[k])
  }

  /** Reference definition: the hint of the first applicable rule, or the default. */
  function FirstApplicable(rules: seq<HintRule>, text: string): (r: string)
    ensures (forall i :: 0 <= i < |rules| ==> !RuleApplies(rules[i], text)) ==> r == DefaultHint
    ensures forall i :: 0 <= i < |rules| && RuleApplies(rules[i], text) && (forall j :: 0 <= j < i ==> !RuleApplies(rules[j], text))
                ==> r == rules[i].hint
  {
    if rules == [] then DefaultHint
    else if RuleApplies(rules[0], text) then rules[0].hint
    else FirstApplicable(rules[1..], text)
  }

  /** The if-chain of the card is the first-match rule over the table. */
  lemma HintIsFirstApplicableRule(questionText: string)
    ensures GetQuestionHint(questionText) == FirstApplicable(HintRules, Lower(questionText))
  {
    var t := Lower(questionText);
    KeywordRule(HintRules[0], t);
    KeywordRule(HintRules[1], t);
    KeywordRule(HintRules[2], t);
    KeywordRule(HintRules[3], t);
    assert HintRules[1..][1..][1..][1..] == [];
  }

  /** A rule of one or two keywords applies when each of them occurs. */
  lemma KeywordRule(rule: HintRule, text: string)
    requires |rule.keywords| == 1 || |rule.keywords| == 2
    ensures |rule.keywords| == 1 ==> (RuleApplies(rule, text) <==> Contains(text, rule.keywords[0]))
    ensures |rule.keywords| == 2 ==>
      (RuleApplies(rule, text) <==> Contains(text, rule.keywords[0]) && Contains(text, rule.keywords[1]))
  {
  }

  /** The default hint is shown exactly when no keyword test succeeds. */
  lemma DefaultHintIff(questionText: string)
    ensures GetQuestionHint(questionText) == DefaultHint <==>
      (&& !Contains(Lower(questionText), "leader transformationnel")
       && !Contains(Lower(questionText), "conflit")
       && !Contains(Lower(questionText), "communication")
       && !(Contains(Lower(questionText), "développer") && Contains(Lower(questionText), "équipe")))
  {
    HintIsFirstApplicableRule(questionText);
  }

  /** A text naming a conflict and communication, and no transformational
      leader, gets the conflict hint, whatever surrounds the keywords. */
  lemma ConflictBeforeCommunication(a: string, b: string, c: string)
    requires !Contains(Lower(a + "conflit" + b + "communication" + c), "leader transformationnel")
    ensures GetQuestionHint(a + "conflit" + b + "communication" + c) == ConflictHint
  {
    KeywordAnywhere(a, "conflit", b + "communication" + c);
    assert a + "conflit" + b + "communication" + c == a + "conflit" + (b + "communication" + c);
  }

  // ---------------------------------------------------------------------
  // Length feedback, option selection, points label

  const ShortAnswerLength: int := 50
  const DetailedAnswerLength: int := 200

  datatype LengthFeedback = TooShort | Plain | Detailed

  /** The feedback under a free-text answer: "Réponse trop courte" below fifty
      characters, the "Réponse détaillée" badge from two hundred. */
  function FeedbackFor(textAnswer: string): (r: LengthFeedback)
    ensures r == TooShort <==> |textAnswer| < ShortAnswerLength
    ensures r == Detailed <==> |textAnswer| >= DetailedAnswerLength
    ensures r == Plain <==> ShortAnswerLength <= |textAnswer| < DetailedAnswerLength
  {
    if |textAnswer| < ShortAnswerLength then TooShort
    else if |textAnswer| >= DetailedAnswerLength then Detailed
    else Plain
  }

  /** Option `index` is marked: `currentAnswer === index`. */
  predicate IsOptionSelected(currentAnswer: Option<AnswerValue>, index: int) {
    currentAnswer == Some(Choice(index))
  }

  /** At most one option is marked, and a text answer marks none. */
  lemma AtMostOneSelected(currentAnswer: Option<AnswerValue>, i: int, j: int)
    ensures IsOptionSelected(currentAnswer, i) && IsOptionSelected(currentAnswer, j) ==> i == j
    ensures (currentAnswer.None? || currentAnswer.value.Text?) ==> !IsOptionSelected(currentAnswer, i)
  {
  }

  /** Selecting an option and handing the forwarded value back marks exactly that option. */
  lemma SelectionMarksOption(index: int, i: int)
    ensures IsOptionSelected(Some(Choice(index)), i) <==> i == index
  {
  }

  /** `{points} point{points > 1 ? 's' : ''}`: the label starts with the
      number, which `parseInt` reads back, and is plural exactly above one. */
  function PointsLabel(points: int): (r: string)
    ensures |r| > 0
    ensures r[|r| - 1] == 's' <==> points > 1
    ensures ParseInt(r) == Some(points)
  {
    var suffix := " point" + (if points > 1 then "s" else "");
    ParseIntOfPrefix(points, suffix);
    IntToString(points) + suffix
  }
}
