/** The records shared by the exam flow (src/types/index.ts), plus the
    certification records the exam context and the module list read. */
module Types {

  datatype Option<T> = None | Some(value: T)

  datatype Role = Admin | ExaminerRole | CandidateRole

  datatype Level = Debutant | Intermediaire | Expert

  /** A principal of the portal with its progress flags. */
  datatype User = User(
    id: string,
    email: string,
    firstName: string,
    lastName: string,
    phone: string,
    address: string,
    birthDate: string,
    birthPlace: string,
    city: string,
    country: string,
    profession: string,
    role: Role,
    isActive: bool,
    createdAt: string,
    hasPaid: Option<bool>,
    examTaken: Option<bool>,
    score: Option<int>,
    certificate: Option<string>,
    level: Option<Level>)

  datatype QuestionType = MultipleChoice | FreeText

  /** The `string | number` value of an answer: free text or a selected option index. */
  datatype AnswerValue = Text(text: string) | Choice(index: int)

  datatype Question = Question(
    id: string,
    text: string,
    kind: QuestionType,
    options: Option<seq<string>>,
    correctAnswer: Option<AnswerValue>,
    points: int)

  datatype Answer = Answer(questionId: string, value: AnswerValue)

  datatype SubmissionStatus = Pending | Corrected | Rejected

  /** A completed module: its answers and grading state. The exam context also
      fills `certificationType` and `moduleId`. */
  datatype ExamSubmission = ExamSubmission(
    id: string,
    candidateId: string,
    examId: string,
    certificationType: string,
    moduleId: string,
    answers: seq<Answer>,
    submittedAt: string,
    score: Option<int>,
    feedback: Option<string>,
    correctedBy: Option<string>,
    correctedAt: Option<string>,
    status: SubmissionStatus)

  /** A module of a certification; `duration` is in minutes. */
  datatype CertificationModule = CertificationModule(
    id: string,
    name: string,
    duration: nat,
    questions: seq<Question>)

  datatype CertificationType = CertificationType(
    id: string,
    name: string,
    modules: seq<CertificationModule>)
}
