/** The examiner's grading console (src/pages/ExaminerDashboard.tsx): a list of
    submissions, the one selected for grading, a score and a comment per
    question id, the search and status filters and the support form. */
module ExaminerDashboard {
  import opened Types
  import opened Text
  import opened Collections

  datatype ReviewStatus = Pending | Corrected

  /** One answer as the examiner sees it, with the points it is worth. */
  datatype GradedAnswer = GradedAnswer(questionId: string, question: string, answer: string, points: int)

  datatype Submission = Submission(
    id: string,
    candidateName: string,
    candidateEmail: string,
    submittedAt: string,
    status: ReviewStatus,
    score: Option<int>,
    answers: seq<GradedAnswer>)

  // ---------------------------------------------------------------------
  // The total score

  /** `Object.values(scores).reduce((sum, score) => sum + score, 0)`: the sum of
      every value in the map, whatever order the keys are visited in. */
  ghost function SumValues(m: map<string, int>): int
    decreases |m|
  {
    if m == map[] then 0
    else
      var k :| k in m;
      m[k] + SumValues(m - {k})
  }

  /** Any key can be taken out first. */
  lemma {:induction false} SumValuesRemove(m: map<string, int>, k: string)
    requires k in m
    ensures SumValues(m) == m[k] + SumValues(m - {k})
    decreases |m|
  {
    var j :| j in m && SumValues(m) == m[j] + SumValues(m - {j});
    if j != k {
      SumValuesRemove(m - {j}, k);
      SumValuesRemove(m - {k}, j);
      assert m - {j} - {k} == m - {k} - {j};
    }
  }

  /** A score for a new key adds to the total; overwriting a key replaces its share. */
  lemma SumValuesUpdate(m: map<string, int>, k: string, v: int)
    ensures SumValues(m[k := v]) == v + SumValues(m - {k})
    ensures k in m ==> SumValues(m[k := v]) == SumValues(m) - m[k] + v
  {
    SumValuesRemove(m[k := v], k);
    assert m[k := v] - {k} == m - {k};
    if k in m {
      SumValuesRemove(m, k);
    }
  }

  /** The total shown under the grading form, summed key by key. */
  method SumScores(scores: map<string, int>) returns (total: int)
    ensures total == SumValues(scores)
  {
    var rest := scores;
    total := 0;
    while rest != map[]
      invariant total + SumValues(rest) == SumValues(scores)
      decreases |rest|
    {
      var k :| k in rest;
      SumValuesRemove(rest, k);
      total := total + rest[k];
      rest := rest - {k};
    }
  }

  /** Worked example: scores 10, 10, 15, 5 and 20 entered for the five answers of the first
      mock submission (worth 10, 10, 20, 10 and 25 points) total 60. */
  lemma SumValuesExample()
    ensures SumValues(map["1" := 10, "2" := 10, "3" := 15, "4" := 5, "5" := 20]) == 60
  {
    var m := map["1" := 10, "2" := 10, "3" := 15, "4" := 5, "5" := 20];
    SumValuesRemove(m, "1");
    assert m - {"1"} == map["2" := 10, "3" := 15, "4" := 5, "5" := 20];
    SumOfLastFour();
  }

  /** Worked example, second step: the last four scores of the example above. */
  lemma SumOfLastFour()
    ensures SumValues(map["2" := 10, "3" := 15, "4" := 5, "5" := 20]) == 50
  {
    var m := map["2" := 10, "3" := 15, "4" := 5, "5" := 20];
    SumValuesRemove(m, "2");
    assert m - {"2"} == map["3" := 15, "4" := 5, "5" := 20];
    SumOfLastThree();
  }

  /** Worked example, third step: the last three scores. */
  lemma SumOfLastThree()
    ensures SumValues(map["3" := 15, "4" := 5, "5" := 20]) == 40
  {
    var m := map["3" := 15, "4" := 5, "5" := 20];
    SumValuesRemove(m, "3");
    assert m - {"3"} == map["4" := 5, "5" := 20];
    var m3 := map["4" := 5, "5" := 20];
    SumValuesRemove(m3, "4");
    assert m3 - {"4"} == map["5" := 20];
    SumValuesRemove(map["5" := 20], "5");
    assert map["5" := 20] - {"5"} == map[];
  }

  // ---------------------------------------------------------------------
  // Score input

  /** `parseInt(e.target.value) || 0`: a number that does not parse counts as 0;
      the value is not clamped to the answer's points. */
  function ScoreInput(text: string): (score: int)
    ensures ParseInt(text).None? ==> score == 0
  {
    match ParseInt(text)
    case None => 0
    case Some(v) => v
  }

  /** A typed number is recorded as itself, even above the answer's points. */
  lemma ScoreInputOfNumber(n: int)
    ensures ScoreInput(IntToString(n)) == n
  {
    ParseIntToString(n);
  }

  /** Clearing the field records a zero. */
  lemma ScoreInputEmpty()
    ensures ScoreInput("") == 0
  {
  }

  // ---------------------------------------------------------------------
  // Correction of one submission

  /** `s => s.id === id`. */
  function HasSubmissionId(id: string): Submission -> bool {
    (s: Submission) => s.id == id
  }

  /** `s => ({...s, status: 'corrected', score: total})`. */
  function CorrectWith(total: int): Submission -> Submission {
    (s: Submission) => s.(status := ReviewStatus.Corrected, score := Some(total))
  }

  /** The submission list after correcting `id`: only the submissions with that
      id change, and they change in status and score alone. */
  function MarkCorrected(submissions: seq<Submission>, id: string, total: int): (r: seq<Submission>)
    ensures |r| == |submissions|
    ensures forall i :: 0 <= i < |submissions| && submissions[i].id != id ==> r[i] == submissions[i]
    ensures forall i :: 0 <= i < |submissions| && submissions[i].id == id ==>
      r[i] == submissions[i].(status := ReviewStatus.Corrected, score := Some(total))
  {
    UpdateWhere(submissions, HasSubmissionId(id), CorrectWith(total))
  }

  function IsPending(s: Submission): bool { s.status == ReviewStatus.Pending }
  function IsCorrected(s: Submission): bool { s.status == ReviewStatus.Corrected }

  /** `s => s.id === id && s.status === 'pending'`. */
  function PendingWithId(id: string): Submission -> bool {
    (s: Submission) => s.id == id && s.status == ReviewStatus.Pending
  }

  /** Correcting takes exactly the pending submissions with that id out of the pending list. */
  lemma {:induction false} CorrectionLowersPending(submissions: seq<Submission>, id: string, total: int)
    ensures Count(MarkCorrected(submissions, id, total), IsPending) + Count(submissions, PendingWithId(id))
      == Count(submissions, IsPending)
  {
    if submissions != [] {
      var r := MarkCorrected(submissions, id, total);
      assert r[1..] == MarkCorrected(submissions[1..], id, total);
      CorrectionLowersPending(submissions[1..], id, total);
    }
  }

  /** Every submission is pending or corrected, so the two lists split the whole. */
  lemma PendingCorrectedPartition(submissions: seq<Submission>)
    ensures Count(submissions, IsPending) + Count(submissions, IsCorrected) == |submissions|
  {
    FilterComplement(submissions, IsPending, IsCorrected);
  }

  /** Correcting the same submission twice with the same total changes nothing more. */
  lemma CorrectionIdempotent(submissions: seq<Submission>, id: string, total: int)
    ensures MarkCorrected(MarkCorrected(submissions, id, total), id, total) == MarkCorrected(submissions, id, total)
  {
    var once := MarkCorrected(submissions, id, total);
    var twice := MarkCorrected(once, id, total);
    forall i | 0 <= i < |submissions| ensures twice[i] == once[i] {
      assert once[i].id == submissions[i].id;
    }
  }

  // ---------------------------------------------------------------------
  // Enabling the validate button

  /** `a => scores[a.questionId] === undefined`. */
  function Unscored(scores: map<string, int>): GradedAnswer -> bool {
    (a: GradedAnswer) => a.questionId !in scores
  }

  /** The validate button is disabled while some answer of the selected submission has no score. */
  predicate SubmitDisabled(selected: Submission, scores: map<string, int>) {
    exists i :: 0 <= i < |selected.answers| && selected.answers[i].questionId !in scores
  }

  /** Disabled exactly while the count of unscored answers is positive. */
  lemma SubmitDisabledIff(selected: Submission, scores: map<string, int>)
    ensures SubmitDisabled(selected, scores) <==> Count(selected.answers, Unscored(scores)) > 0
  {
    var missing := Filter(selected.answers, Unscored(scores));
    if SubmitDisabled(selected, scores) {
      var i :| 0 <= i < |selected.answers| && selected.answers[i].questionId !in scores;
      assert Unscored(scores)(selected.answers[i]);
      assert selected.answers[i] in missing;
    }
    if |missing| > 0 {
      assert missing[0] in selected.answers;
      var i :| 0 <= i < |selected.answers| && selected.answers[i] == missing[0];
      assert Unscored(scores)(missing[0]);
    }
  }

  /** Scoring a question never adds to the unscored answers, and scoring an
      unscored one takes at least that answer away. */
  lemma {:induction false} ScoringLowersUnscored(answers: seq<GradedAnswer>, scores: map<string, int>, questionId: string, v: int)
    ensures Count(answers, Unscored(scores[questionId := v])) <= Count(answers, Unscored(scores))
    ensures (exists i :: 0 <= i < |answers| && answers[i].questionId == questionId && questionId !in scores) ==>
      Count(answers, Unscored(scores[questionId := v])) < Count(answers, Unscored(scores))
  {
    if answers != [] {
      ScoringLowersUnscored(answers[1..], scores, questionId, v);
      if questionId !in scores && exists i :: 0 <= i < |answers| && answers[i].questionId == questionId {
        var i :| 0 <= i < |answers| && answers[i].questionId == questionId;
        if i > 0 {
          assert answers[1..][i - 1].questionId == questionId;
        }
      }
    }
  }

  // ---------------------------------------------------------------------
  // Search and status filter

  function StatusName(s: ReviewStatus): string {
    match s
    case Pending => "pending"
    case Corrected => "corrected"
  }

  /** The filter callback: the lower-cased term occurs in the lower-cased name or
      e-mail, and the status filter is "all" or names the submission's status. */
  function MatchesFilters(searchTerm: string, statusFilter: string): Submission -> bool {
    (s: Submission) =>
      (Contains(Lower(s.candidateName), Lower(searchTerm)) || Contains(Lower(s.candidateEmail), Lower(searchTerm)))
      && (statusFilter == "all" || StatusName(s.status) == statusFilter)
  }

  /** `filteredSubmissions`: the submissions the filters keep, in list order. */
  function FilteredSubmissions(submissions: seq<Submission>, searchTerm: string, statusFilter: string): (r: seq<Submission>)
    ensures IsSubsequence(r, submissions)
    ensures forall s :: s in r <==> s in submissions && MatchesFilters(searchTerm, statusFilter)(s)
  {
    Filter(submissions, MatchesFilters(searchTerm, statusFilter))
  }

  /** An empty search with the "all" filter keeps every submission. */
  lemma EmptySearchKeepsAll(submissions: seq<Submission>)
    ensures FilteredSubmissions(submissions, "", "all") == submissions
  {
    forall i | 0 <= i < |submissions| ensures MatchesFilters("", "all")(submissions[i]) {
      assert StartsWith(Lower(submissions[i].candidateName), "");
    }
    FilterAll(submissions, MatchesFilters("", "all"));
  }

  /** A status filter naming a status keeps only submissions with that status. */
  lemma StatusFilterSelects(submissions: seq<Submission>, searchTerm: string, status: ReviewStatus)
    ensures forall s :: s in FilteredSubmissions(submissions, searchTerm, StatusName(status)) ==> s.status == status
  {
    forall s | s in FilteredSubmissions(submissions, searchTerm, StatusName(status)) ensures s.status == status {
      assert StatusName(s.status) == StatusName(status);
    }
  }

  // ---------------------------------------------------------------------
  // The console

  class GradingConsole {
    var submissions: seq<Submission>
    var selectedSubmission: Option<Submission>
    var scores: map<string, int>
    var feedback: map<string, string>
    var supportSubject: string
    var supportMessage: string

    constructor (initial: seq<Submission>)
      ensures submissions == initial && selectedSubmission == None
      ensures scores == map[] && feedback == map[]
      ensures supportSubject == "" && supportMessage == ""
    {
      submissions := initial;
      selectedSubmission := None;
      scores := map[];
      feedback := map[];
      supportSubject := "";
      supportMessage := "";
    }

    /** `handleScoreChange`: the last score written for a question wins; other questions keep theirs. */
    method HandleScoreChange(questionId: string, score: int)
      modifies this`scores
      ensures scores == old(scores)[questionId := score]
    {
      scores := scores[questionId := score];
    }

    /** The score field's `onChange`: the typed text read as a score. */
    method HandleScoreInput(questionId: string, text: string)
      modifies this`scores
      ensures scores == old(scores)[questionId := ScoreInput(text)]
    {
      HandleScoreChange(questionId, ScoreInput(text));
    }

    /** `handleFeedbackChange`. */
    method HandleFeedbackChange(questionId: string, text: string)
      modifies this`feedback
      ensures feedback == old(feedback)[questionId := text]
    {
      feedback := feedback[questionId := text];
    }

    /** Clicking a pending submission selects it; scores already entered stay. */
    method SelectSubmission(s: Submission)
      modifies this`selectedSubmission
      ensures selectedSubmission == Some(s)
    {
      selectedSubmission := Some(s);
    }

    /** "Annuler": drops the selection and keeps the scores. */
    method CancelSelection()
      modifies this`selectedSubmission
      ensures selectedSubmission == None
    {
      selectedSubmission := None;
    }

    /** `handleSubmitCorrection`: without a selection nothing happens; otherwise
        the selected submission becomes corrected with the sum of every score in
        the map, the others are untouched, and the form is cleared. */
    method HandleSubmitCorrection()
      modifies this`submissions, this`selectedSubmission, this`scores, this`feedback
      ensures old(selectedSubmission).None? ==> unchanged(this)
      ensures old(selectedSubmission).Some? ==>
        && submissions == MarkCorrected(old(submissions), old(selectedSubmission).value.id, SumValues(old(scores)))
        && selectedSubmission == None && scores == map[] && feedback == map[]
    {
      if selectedSubmission.None? {
        return;
      }
      var total := SumScores(scores);
      submissions := MarkCorrected(submissions, selectedSubmission.value.id, total);
      selectedSubmission := None;
      scores := map[];
      feedback := map[];
    }

    /** The subject selector's `onChange`: the message is kept. */
    method SetSupportSubject(subject: string)
      modifies this`supportSubject
      ensures supportSubject == subject
    {
      supportSubject := subject;
    }

    /** The message field's `onChange`: the subject is kept. */
    method SetSupportMessage(message: string)
      modifies this`supportMessage
      ensures supportMessage == message
    {
      supportMessage := message;
    }

    /** `sendSupportMessage`: refused while the subject or the message is empty;
        otherwise both fields are reset. */
    method SendSupportMessage() returns (sent: bool)
      modifies this`supportSubject, this`supportMessage
      ensures sent <==> old(supportSubject) != "" && old(supportMessage) != ""
      ensures !sent ==> unchanged(this)
      ensures sent ==> supportSubject == "" && supportMessage == ""
    {
      if supportSubject == "" || supportMessage == "" {
        return false;
      }
      supportSubject, supportMessage := "", "";
      sent := true;
    }
  }

  /** Filling in both support fields through the form lets the message go out,
      and the form is empty afterwards. */
  method SupportRoundTrip(console: GradingConsole, subject: string, message: string) returns (sent: bool)
    requires subject != "" && message != ""
    modifies console
    ensures sent && console.supportSubject == "" && console.supportMessage == ""
  {
    console.SetSupportSubject(subject);
    console.SetSupportMessage(message);
    sent := console.SendSupportMessage();
  }

  /** Scores entered for one submission are still in the map when another is
      selected, so they are added to the other submission's total. */
  method StaleScoresCount(console: GradingConsole, first: Submission, second: Submission, questionId: string, score: int)
    requires console.scores == map[]
    modifies console
    ensures console.submissions == MarkCorrected(old(console.submissions), second.id, score)
  {
    console.SelectSubmission(first);
    console.HandleScoreChange(questionId, score);
    console.CancelSelection();
    console.SelectSubmission(second);
    SumValuesUpdate(map[], questionId, score);
    assert map[][questionId := score] - {questionId} == map[];
    console.HandleSubmitCorrection();
  }
}
