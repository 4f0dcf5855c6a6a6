/** The exam session state holder (src/contexts/ExamContext.tsx): the module
    being taken, the answers collected so far, the countdown in seconds and the
    active flag, with the operations that start a module, record an answer and
    submit the module. */
module ExamContext {
  import opened Types
  import opened Text
  import opened Collections

  datatype Category = Leadership | Competences | Entrepreneuriat

  /** At most this many questions are attached to a started module. */
  const MaxModuleQuestions: nat := 20

  /** Duration of a module is given in minutes; the countdown runs in seconds. */
  const SecondsPerMinute: nat := 60

  /** The placeholders the context writes into every submission. */
  const MockCandidateId: string := "3"
  const MockCertificationType: string := "mock-cert"

  function MC(id: string, text: string, options: seq<string>, correct: int, points: int): Question {
    Question(id, text, MultipleChoice, Some(options), Some(Choice(correct)), points)
  }

  function Open(id: string, text: string, points: int): Question {
    Question(id, text, FreeText, None, None, points)
  }

  const Lead1: Question := MC("lead-1", "Qu'est-ce qui caractérise le mieux un leader transformationnel ?",
    ["Il se concentre uniquement sur les résultats financiers",
     "Il inspire et motive ses équipes vers une vision commune",
     "Il évite de prendre des risques",
     "Il délègue toutes ses responsabilités"], 1, 5)
  const Lead2: Question := MC("lead-2", "Comment un leader doit-il réagir face à un conflit dans son équipe ?",
    ["Ignorer le conflit en espérant qu'il se résolve seul",
     "Prendre parti pour l'un des membres",
     "Faciliter la communication entre les parties pour trouver une solution",
     "Licencier tous les membres impliqués"], 2, 5)
  const Lead3: Question := Open("lead-3", "Décrivez votre approche pour développer les compétences de leadership de votre équipe.", 10)
  const Comp1: Question := MC("comp-1", "Quelle est l'importance de la communication dans le management ?",
    ["Elle n'est pas importante si les résultats sont bons",
     "Elle permet d'établir la confiance et l'alignement",
     "Elle ralentit les processus de décision",
     "Elle crée de la confusion"], 1, 5)
  const Comp2: Question := Open("comp-2", "Comment gérez-vous les priorités multiples dans votre travail ?", 10)
  const Entr1: Question := MC("entr-1", "Quel est le principal défi de l'entrepreneuriat en Afrique ?",
    ["Le manque de financement",
     "L'absence de marché",
     "Le manque d'infrastructure et d'écosystème",
     "La concurrence internationale"], 2, 5)
  const Entr2: Question := Open("entr-2", "Décrivez une stratégie pour développer un business en contexte africain.", 10)

  /** The built-in question bank of each category, in declaration order. */
  function QuestionBank(category: Category): seq<Question> {
    match category
    case Leadership => [Lead1, Lead2, Lead3]
    case Competences => [Comp1, Comp2]
    case Entrepreneuriat => [Entr1, Entr2]
  }

  function Min(a: int, b: int): int {
    if a <= b then a else b
  }

  /** `generateModuleQuestions`: the first questions of the category's bank. */
  function GenerateModuleQuestions(category: Category): seq<Question> {
    var bank := QuestionBank(category);
    bank[..Min(MaxModuleQuestions, |bank|)]
  }

  /** The generated list is the first `min(20, n)` questions of the bank, in bank order. */
  lemma GeneratedIsBankPrefix(category: Category)
    ensures |GenerateModuleQuestions(category)| == Min(MaxModuleQuestions, |QuestionBank(category)|)
    ensures forall i :: 0 <= i < |GenerateModuleQuestions(category)| ==>
      GenerateModuleQuestions(category)[i] == QuestionBank(category)[i]
  {
  }

  /** Every bank is smaller than the limit, so a started module gets its whole bank. */
  lemma GeneratedIsWholeBank(category: Category)
    ensures GenerateModuleQuestions(category) == QuestionBank(category)
  {
  }

  /** The question category a module name selects. */
  function CategoryOf(moduleName: string): Category {
    var name := Lower(moduleName);
    if Contains(name, "compétences") then Competences
    else if Contains(name, "entrepreneuriat") then Entrepreneuriat
    else Leadership
  }

  /** The substring tests are tried in order: "compétences" wins over
      "entrepreneuriat", and leadership is the fallback. */
  lemma CategorySelectionOrder(moduleName: string)
    ensures CategoryOf(moduleName) == Competences <==> Contains(Lower(moduleName), "compétences")
    ensures CategoryOf(moduleName) == Entrepreneuriat <==>
      !Contains(Lower(moduleName), "compétences") && Contains(Lower(moduleName), "entrepreneuriat")
    ensures CategoryOf(moduleName) == Leadership <==>
      !Contains(Lower(moduleName), "compétences") && !Contains(Lower(moduleName), "entrepreneuriat")
  {
  }

  /** A name holding the two keywords selects the competences bank, wherever they stand. */
  lemma BothKeywordsSelectCompetences(prefix: string, middle: string, suffix: string)
    ensures CategoryOf(prefix + "compétences" + middle + "entrepreneuriat" + suffix) == Competences
    ensures CategoryOf(prefix + "entrepreneuriat" + middle + "compétences" + suffix) == Competences
  {
    KeywordAnywhere(prefix, "compétences", middle + "entrepreneuriat" + suffix);
    assert prefix + "compétences" + middle + "entrepreneuriat" + suffix
        == prefix + "compétences" + (middle + "entrepreneuriat" + suffix);
    KeywordAnywhere(prefix + "entrepreneuriat" + middle, "compétences", suffix);
  }

  /** Case folding reaches the accented capital: a module name writing the
      keyword in capitals selects the competences bank, wherever it stands. */
  lemma CapitalKeywordSelectsCompetences(prefix: string, suffix: string)
    ensures CategoryOf(prefix + "COMPÉTENCES" + suffix) == Competences
  {
    assert Lower("COMPÉTENCES") == "compétences";
    FoldedKeywordAnywhere(prefix, "COMPÉTENCES", "compétences", suffix);
  }

  /** `certification.modules.find(m => m.id === moduleId)`. */
  function HasId(moduleId: string): CertificationModule -> bool {
    (m: CertificationModule) => m.id == moduleId
  }

  /** The module `startModule` would load, looking up the certification first. */
  function LookupModule(certifications: map<string, CertificationType>, certificationType: string, moduleId: string): (r: Option<CertificationModule>)
    ensures r.Some? ==> (certificationType in certifications && r.value.id == moduleId
      && r.value in certifications[certificationType].modules)
    ensures r.None? <==> (certificationType !in certifications
      || forall i :: 0 <= i < |certifications[certificationType].modules| ==> certifications[certificationType].modules[i].id != moduleId)
  {
    if certificationType !in certifications then None
    else Find(certifications[certificationType].modules, HasId(moduleId))
  }

  /** The module as it is loaded into the session: the looked-up module with its
      questions replaced by the generated ones. */
  function LoadedModule(m: CertificationModule): CertificationModule {
    m.(questions := GenerateModuleQuestions(CategoryOf(m.name)))
  }

  // ---------------------------------------------------------------------
  // The answer list

  /** `a => a.questionId === questionId`. */
  function AnswersTo(questionId: string): Answer -> bool {
    (a: Answer) => a.questionId == questionId
  }

  /** The answer list after `submitAnswer(questionId, value)`: the first entry
      for that question is overwritten in place, otherwise one entry is appended. */
  function Upsert(answers: seq<Answer>, questionId: string, value: AnswerValue): seq<Answer> {
    var k := FirstIndex(answers, AnswersTo(questionId));
    if k >= 0 then answers[k := Answer(questionId, value)] else answers + [Answer(questionId, value)]
  }

  /** The value the list records for a question: that of the first entry for it. */
  function AnswerFor(answers: seq<Answer>, questionId: string): Option<AnswerValue> {
    var k := FirstIndex(answers, AnswersTo(questionId));
    if k >= 0 then Some(answers[k].value) else None
  }

  predicate UniqueQuestionIds(answers: seq<Answer>) {
    forall i, j :: 0 <= i < j < |answers| ==> answers[i].questionId != answers[j].questionId
  }

  /** Answering an answered question replaces that entry's value at its index;
      length, order and every other entry stay as they were. */
  lemma UpsertExisting(answers: seq<Answer>, questionId: string, value: AnswerValue, k: nat)
    requires k < |answers| && answers[k].questionId == questionId
    requires forall j :: 0 <= j < k ==> answers[j].questionId != questionId
    ensures |Upsert(answers, questionId, value)| == |answers|
    ensures Upsert(answers, questionId, value)[k] == Answer(questionId, value)
    ensures forall i :: 0 <= i < |answers| && i != k ==> Upsert(answers, questionId, value)[i] == answers[i]
  {
    FirstIndexIs(answers, AnswersTo(questionId), k);
  }

  /** Answering a new question appends exactly one entry at the end. */
  lemma UpsertNew(answers: seq<Answer>, questionId: string, value: AnswerValue)
    requires forall i :: 0 <= i < |answers| ==> answers[i].questionId != questionId
    ensures Upsert(answers, questionId, value) == answers + [Answer(questionId, value)]
  {
    FirstIndexIs(answers, AnswersTo(questionId), -1);
  }

  /** Upserting keeps question ids unique. */
  lemma UpsertKeepsIdsUnique(answers: seq<Answer>, questionId: string, value: AnswerValue)
    requires UniqueQuestionIds(answers)
    ensures UniqueQuestionIds(Upsert(answers, questionId, value))
  {
    var k := FirstIndex(answers, AnswersTo(questionId));
    var r := Upsert(answers, questionId, value);
    if k < 0 {
      forall i | 0 <= i < |answers| ensures answers[i].questionId != questionId {
        assert !AnswersTo(questionId)(answers[i]);
      }
    } else {
      assert AnswersTo(questionId)(answers[k]);
    }
  }

  /** The list behaves as a dictionary: the last write for a question wins and
      the other questions keep their values. */
  lemma UpsertLookup(answers: seq<Answer>, questionId: string, value: AnswerValue, other: string)
    requires other != questionId
    ensures AnswerFor(Upsert(answers, questionId, value), questionId) == Some(value)
    ensures AnswerFor(Upsert(answers, questionId, value), other) == AnswerFor(answers, other)
  {
    var p, po := AnswersTo(questionId), AnswersTo(other);
    var k := FirstIndex(answers, p);
    var ko := FirstIndex(answers, po);
    var r := Upsert(answers, questionId, value);
    if k >= 0 {
      FirstIndexIs(r, p, k);
    } else {
      FirstIndexIs(r, p, |answers|);
    }
    FirstIndexIs(r, po, ko);
  }

  /** Worked examples of the upsert: two answers to q1 leave one entry with
      the later value; answers to q1 and q2 leave two entries. */
  lemma UpsertExamples()
    ensures Upsert(Upsert([], "q1", Text("a")), "q1", Text("b")) == [Answer("q1", Text("b"))]
    ensures Upsert(Upsert([], "q1", Text("a")), "q2", Choice(3)) == [Answer("q1", Text("a")), Answer("q2", Choice(3))]
  {
    var one := Upsert([], "q1", Text("a"));
    assert one == [Answer("q1", Text("a"))];
    UpsertExisting(one, "q1", Text("b"), 0);
    UpsertNew(one, "q2", Choice(3));
  }

  /** The submission record `submitModule` builds for a module and its answers. */
  function PendingSubmission(m: CertificationModule, answers: seq<Answer>, submissionId: string, submittedAt: string): ExamSubmission {
    ExamSubmission(submissionId, MockCandidateId, m.id, MockCertificationType, m.id, answers,
      submittedAt, None, None, None, None, Pending)
  }

  // ---------------------------------------------------------------------
  // The state holder

  class ExamSession {
    var currentModule: Option<CertificationModule>
    var currentAnswers: seq<Answer>
    var timeRemaining: int
    var isExamActive: bool

    /** The session is active exactly while a module is loaded. */
    ghost predicate Valid()
      reads this
    {
      isExamActive == currentModule.Some?
    }

    /** No module, no answers, countdown at zero, inactive. */
    ghost predicate Idle()
      reads this
    {
      currentModule == None && currentAnswers == [] && timeRemaining == 0 && !isExamActive
    }

    constructor ()
      ensures Valid() && Idle()
    {
      currentModule := None;
      currentAnswers := [];
      timeRemaining := 0;
      isExamActive := false;
    }

    /** `startModule`: an unknown certification or module id leaves the session
        as it was; otherwise the module is loaded with its generated questions,
        the answers are reset and the countdown is set to the duration. */
    method StartModule(certifications: map<string, CertificationType>, certificationType: string, moduleId: string)
      requires Valid()
      modifies this
      ensures Valid()
      ensures LookupModule(certifications, certificationType, moduleId).None? ==> unchanged(this)
      ensures LookupModule(certifications, certificationType, moduleId).Some? ==>
        var m := LookupModule(certifications, certificationType, moduleId).value;
        && currentModule == Some(LoadedModule(m))
        && currentAnswers == []
        && timeRemaining == m.duration * SecondsPerMinute
        && isExamActive
    {
      if certificationType !in certifications {
        return;
      }
      var certification := certifications[certificationType];
      var found := Find(certification.modules, HasId(moduleId));
      if found.None? {
        return;
      }
      var loaded := found.value;
      var category := Leadership;
      if Contains(Lower(loaded.name), "compétences") {
        category := Competences;
      } else if Contains(Lower(loaded.name), "entrepreneuriat") {
        category := Entrepreneuriat;
      }
      currentModule := Some(loaded.(questions := GenerateModuleQuestions(category)));
      currentAnswers := [];
      timeRemaining := loaded.duration * SecondsPerMinute;
      isExamActive := true;
    }

    /** `submitAnswer`: copies the list and overwrites the first entry for the
        question, or appends a new entry. */
    method SubmitAnswer(questionId: string, answer: AnswerValue)
      modifies this`currentAnswers
      ensures currentAnswers == Upsert(old(currentAnswers), questionId, answer)
    {
      var prev := currentAnswers;
      var existing := FirstIndex(prev, AnswersTo(questionId));
      if existing >= 0 {
        var updated := new Answer[|prev|](i requires 0 <= i < |prev| => prev[i]);
        updated[existing] := Answer(questionId, answer);
        assert updated[..] == prev[existing := Answer(questionId, answer)];
        currentAnswers := updated[..];
      } else {
        currentAnswers := prev + [Answer(questionId, answer)];
      }
    }

    /** `submitModule`: fails without a module and changes nothing; otherwise
        builds a pending submission of the module's answers and clears the session. */
    method SubmitModule(submissionId: string, submittedAt: string) returns (ok: bool, submission: Option<ExamSubmission>)
      requires Valid()
      modifies this
      ensures Valid()
      ensures ok == old(currentModule).Some?
      ensures !ok ==> unchanged(this) && submission == None
      ensures ok ==> submission == Some(PendingSubmission(old(currentModule).value, old(currentAnswers), submissionId, submittedAt))
      ensures ok ==> Idle()
    {
      if currentModule.None? {
        return false, None;
      }
      var m := currentModule.value;
      submission := Some(ExamSubmission(submissionId, MockCandidateId, m.id, MockCertificationType, m.id,
        currentAnswers, submittedAt, None, None, None, None, Pending));
      isExamActive := false;
      currentModule := None;
      currentAnswers := [];
      timeRemaining := 0;
      ok := true;
    }

    /** `setTimeRemaining`. */
    method SetTimeRemaining(time: int)
      modifies this`timeRemaining
      ensures timeRemaining == time
    {
      timeRemaining := time;
    }
  }

  /** A pending submission carries the module id and the answers it was built from. */
  lemma PendingSubmissionFields(m: CertificationModule, answers: seq<Answer>, submissionId: string, submittedAt: string)
    ensures PendingSubmission(m, answers, submissionId, submittedAt).status == Pending
    ensures PendingSubmission(m, answers, submissionId, submittedAt).moduleId == m.id
    ensures PendingSubmission(m, answers, submissionId, submittedAt).answers == answers
    ensures PendingSubmission(m, answers, submissionId, submittedAt).score == None
  {
  }

  /** Submitting twice: the second call finds the session cleared, fails and
      yields no submission, so only the first one is produced. */
  method SubmitTwice(session: ExamSession, id1: string, id2: string, at: string)
      returns (first: bool, second: bool, firstSubmission: Option<ExamSubmission>, secondSubmission: Option<ExamSubmission>)
    requires session.Valid() && session.currentModule.Some?
    modifies session
    ensures first && firstSubmission.Some?
    ensures firstSubmission.value.status == Pending && firstSubmission.value.moduleId == old(session.currentModule).value.id
    ensures !second && secondSubmission == None
    ensures session.Idle()
  {
    first, firstSubmission := session.SubmitModule(id1, at);
    second, secondSubmission := session.SubmitModule(id2, at);
  }
}
