/** The candidate's home page (src/pages/CandidateDashboard.tsx): the four
    progress steps, the status label, the pass threshold, the payment
    callback that marks the user as paid and the guarded exam start. */
module CandidateDashboard {
  import opened Types

  // ---------------------------------------------------------------------
  // Progress steps

  datatype StepId = PaymentStep | ExamStep | CorrectionStep | CertificateStep

  datatype Step = Step(id: StepId, title: string, completed: bool, current: bool)

  /** `user.examTaken || false` and `user.examTaken === true`. */
  predicate ExamTaken(user: User) {
    user.examTaken == Some(true)
  }

  /** The `steps` array: payment, exam, correction, certificate. */
  function Steps(paymentCompleted: bool, user: User, examStarted: bool): (r: seq<Step>)
    ensures |r| == 4
    ensures r[0].id == PaymentStep && r[1].id == ExamStep && r[2].id == CorrectionStep && r[3].id == CertificateStep
    ensures r[0].completed == paymentCompleted && r[0].current == !paymentCompleted
    ensures r[1].completed == ExamTaken(user)
    ensures r[1].current <==> paymentCompleted && !ExamTaken(user) && !examStarted
    ensures r[2].completed <==> user.score.Some?
    ensures r[2].current <==> ExamTaken(user) && user.score.None?
    ensures r[3].completed <==> user.certificate.Some?
    ensures r[3].current <==> user.score.Some? && user.certificate.None?
  {
    [Step(PaymentStep, "Paiement", paymentCompleted, !paymentCompleted),
     Step(ExamStep, "Examen", ExamTaken(user), paymentCompleted && !ExamTaken(user) && !examStarted),
     Step(CorrectionStep, "Correction", user.score.Some?, ExamTaken(user) && user.score.None?),
     Step(CertificateStep, "Certification", user.certificate.Some?, user.score.Some? && user.certificate.None?)]
  }

  /** No step is ever shown both completed and current. */
  lemma NoStepCompletedAndCurrent(paymentCompleted: bool, user: User, examStarted: bool)
    ensures forall i :: 0 <= i < 4 ==>
      !(Steps(paymentCompleted, user, examStarted)[i].completed && Steps(paymentCompleted, user, examStarted)[i].current)
  {
  }

  /** The flags of a candidate who goes through the steps in order: a
      certificate only after a score, a score only after the exam, the exam
      only after payment. */
  predicate InOrder(paymentCompleted: bool, user: User) {
    && (user.certificate.Some? ==> user.score.Some?)
    && (user.score.Some? ==> ExamTaken(user))
    && (ExamTaken(user) ==> paymentCompleted)
  }

  /** How many steps are behind the candidate. */
  function StepsDone(paymentCompleted: bool, user: User): nat {
    if user.certificate.Some? then 4
    else if user.score.Some? then 3
    else if ExamTaken(user) then 2
    else if paymentCompleted then 1
    else 0
  }

  /** For a candidate going through the steps in order, before the exam is
      opened, the completed steps are exactly the first ones and the step
      right after them is the only current one. */
  lemma StepsInOrder(paymentCompleted: bool, user: User)
    requires InOrder(paymentCompleted, user)
    ensures var r, k := Steps(paymentCompleted, user, false), StepsDone(paymentCompleted, user);
      && (forall i :: 0 <= i < 4 ==> (r[i].completed <==> i < k))
      && (forall i :: 0 <= i < 4 ==> (r[i].current <==> i == k))
  {
  }

  /** Out of order, two steps can be current at once: an unpaid candidate
      marked as having taken the exam sees payment and correction as current. */
  lemma TwoCurrentSteps(user: User)
    requires user.examTaken == Some(true) && user.score.None?
    ensures Steps(false, user, false)[0].current && Steps(false, user, false)[2].current
  {
  }

  // ---------------------------------------------------------------------
  // Status label and result

  const CertifiedLabel: string := "Certifié"
  const InCorrectionLabel: string := "En correction"
  const ReadyForExamLabel: string := "Prêt pour examen"
  const AwaitingPaymentLabel: string := "En attente de paiement"

  /** The status shown in the profile card: score first, then exam taken, then payment. */
  function StatusLabel(paymentCompleted: bool, user: User): (r: string)
    ensures r == CertifiedLabel <==> user.score.Some?
    ensures r == InCorrectionLabel <==> user.score.None? && ExamTaken(user)
    ensures r == ReadyForExamLabel <==> user.score.None? && !ExamTaken(user) && paymentCompleted
    ensures r == AwaitingPaymentLabel <==> user.score.None? && !ExamTaken(user) && !paymentCompleted
  {
    if user.score.Some? then CertifiedLabel
    else if ExamTaken(user) then InCorrectionLabel
    else if paymentCompleted then ReadyForExamLabel
    else AwaitingPaymentLabel
  }

  const PassingScore: int := 70

  /** `user.score >= 70`: the pass message and the download button. */
  predicate Passes(score: int) {
    score >= PassingScore
  }

  /** The certificate can be downloaded exactly when a score of 70 or more is recorded. */
  predicate ShowsDownload(user: User) {
    user.score.Some? && Passes(user.score.value)
  }

  /** "Certifié" does not look at the threshold: any recorded score, even a
      failing one, gives that label while the download stays hidden. */
  lemma CertifiedIgnoresThreshold(paymentCompleted: bool, user: User)
    requires user.score.Some? && !Passes(user.score.value)
    ensures StatusLabel(paymentCompleted, user) == CertifiedLabel && !ShowsDownload(user)
  {
  }

  /** A score changes the label in the same way whether it passes or not. */
  lemma LabelSameForPassAndFail(paymentCompleted: bool, user: User, pass: int, fail: int)
    requires Passes(pass) && !Passes(fail)
    ensures StatusLabel(paymentCompleted, user.(score := Some(pass))) == StatusLabel(paymentCompleted, user.(score := Some(fail)))
    ensures ShowsDownload(user.(score := Some(pass))) && !ShowsDownload(user.(score := Some(fail)))
  {
  }

  /** The "en cours de correction" panel: `user.examTaken && !user.score`. */
  predicate ShowsCorrectionPanel(user: User) {
    ExamTaken(user) && (user.score.None? || user.score == Some(0))
  }

  /** The result panel: `user.score !== undefined`. */
  predicate ShowsResultPanel(user: User) {
    user.score.Some?
  }

  /** The two panels test the score differently: a score of 0 is falsy, so a
      candidate scored 0 sees the waiting panel and the result panel together. */
  lemma ZeroScoreShowsBothPanels(user: User)
    requires ExamTaken(user) && user.score == Some(0)
    ensures ShowsCorrectionPanel(user) && ShowsResultPanel(user)
  {
  }

  /** Any other score shows one of the two panels at most. */
  lemma PanelsExclusiveOtherwise(user: User)
    requires user.score != Some(0)
    ensures !(ShowsCorrectionPanel(user) && ShowsResultPanel(user))
  {
  }

  // ---------------------------------------------------------------------
  // The page

  /** The signed-in user object: the page writes `hasPaid` into it in place. */
  class UserRef {
    var record: User

    constructor (u: User)
      ensures record == u
    {
      record := u;
    }
  }

  class CandidatePage {
    const user: UserRef
    var paymentCompleted: bool
    var showPayment: bool
    var examStarted: bool
    /** The levels handed to the exam context's `startExam`, in order. */
    var startedExams: seq<Level>

    /** `useState(user?.hasPaid || false)` and the other initial states. */
    constructor (u: UserRef)
      ensures user == u
      ensures paymentCompleted <==> u.record.hasPaid == Some(true)
      ensures !showPayment && !examStarted && startedExams == []
    {
      user := u;
      paymentCompleted := u.record.hasPaid == Some(true);
      showPayment := false;
      examStarted := false;
      startedExams := [];
    }

    /** `handlePaymentSuccess`: paid on the page and on the user object, payment form closed. */
    method HandlePaymentSuccess()
      modifies this`paymentCompleted, this`showPayment, user
      ensures paymentCompleted && !showPayment
      ensures user.record == old(user.record).(hasPaid := Some(true))
      ensures examStarted == old(examStarted) && startedExams == old(startedExams)
      ensures Steps(paymentCompleted, user.record, examStarted)[0].completed
      ensures StatusLabel(paymentCompleted, user.record) != AwaitingPaymentLabel
    {
      paymentCompleted := true;
      showPayment := false;
      user.record := user.record.(hasPaid := Some(true));
    }

    /** `handleStartExam` as written: `startExam` is read from the exam
        context, whose value has no such member, so with a level the call
        throws a TypeError before `setExamStarted(true)` and nothing changes;
        without a level the page only alerts. */
    method HandleStartExamAsWritten() returns (typeError: bool)
      ensures typeError <==> user.record.level.Some?
    {
      typeError := user.record.level.Some?;
    }

    /** `handleStartExam` with the `startExam` the page expects from the
        context: without a level nothing happens (the page only alerts); with
        one, the exam of that level is started. */
    method HandleStartExam()
      modifies this`examStarted, this`startedExams
      ensures old(user.record.level).None? ==> examStarted == old(examStarted) && startedExams == old(startedExams)
      ensures old(user.record.level).Some? ==> examStarted && startedExams == old(startedExams) + [old(user.record.level).value]
    {
      if user.record.level.None? {
        return;
      }
      startedExams := startedExams + [user.record.level.value];
      examStarted := true;
    }
  }
}
