/** The administrator's console (src/pages/AdminDashboard.tsx): in-memory lists
    of users, examiners, exam submissions, payments and certificates, the
    dashboard counters, the user search, and the create / edit / delete /
    toggle / assign operations on those lists. */
module AdminDashboard {
  import opened Types
  import opened Text
  import opened Collections

  datatype AdminUser = AdminUser(
    id: string,
    firstName: string,
    lastName: string,
    email: string,
    phone: string,
    role: Role,
    isActive: bool,
    createdAt: string,
    profession: Option<string>,
    specialization: Option<string>,
    experience: Option<string>)

  datatype Examiner = Examiner(
    id: string,
    firstName: string,
    lastName: string,
    email: string,
    phone: string,
    specialization: string,
    experience: string,
    isActive: bool,
    assignedExams: int)

  datatype ExamStatus = Pending | Assigned | Corrected

  datatype AdminSubmission = AdminSubmission(
    id: string,
    candidateName: string,
    candidateEmail: string,
    submittedAt: string,
    status: ExamStatus,
    assignedTo: Option<string>,
    score: Option<int>)

  datatype PaymentStatus = PaymentCompleted | PaymentPending | PaymentFailed

  datatype Payment = Payment(id: string, candidateName: string, amount: int, paymentMethod: string, status: PaymentStatus, date: string)

  datatype Certificate = Certificate(id: string, candidateName: string, score: int, issuedAt: string, downloadUrl: string)

  /** The fields of the user modal. */
  datatype UserForm = UserForm(
    firstName: string,
    lastName: string,
    email: string,
    phone: string,
    role: Role,
    profession: string,
    specialization: string,
    experience: string)

  /** The fields of the examiner modal. */
  datatype ExaminerForm = ExaminerForm(
    firstName: string,
    lastName: string,
    email: string,
    phone: string,
    specialization: string,
    experience: string)

  /** One mode shared by the user and the examiner modals. */
  datatype ModalMode = Create | Edit | View

  const EmptyUserForm: UserForm := UserForm("", "", "", "", CandidateRole, "", "", "")
  const EmptyExaminerForm: ExaminerForm := ExaminerForm("", "", "", "", "", "")

  // ---------------------------------------------------------------------
  // Dashboard counters

  datatype Stats = Stats(
    totalUsers: nat,
    activeUsers: nat,
    totalExaminers: nat,
    activeExaminers: nat,
    pendingExams: nat,
    completedExams: nat,
    totalPayments: int,
    completedPayments: nat,
    totalCertificates: nat)

  function IsActiveUser(u: AdminUser): bool { u.isActive }
  function IsInactiveUser(u: AdminUser): bool { !u.isActive }
  function IsActiveExaminer(e: Examiner): bool { e.isActive }
  function IsPendingExam(s: AdminSubmission): bool { s.status == ExamStatus.Pending }
  function IsCorrectedExam(s: AdminSubmission): bool { s.status == ExamStatus.Corrected }
  function IsCompletedPayment(p: Payment): bool { p.status == PaymentCompleted }
  function IsOpenPayment(p: Payment): bool { p.status != PaymentCompleted }
  function Amount(p: Payment): int { p.amount }

  /** `stats`: list lengths, filtered counts and the sum of all payment amounts. */
  function ComputeStats(users: seq<AdminUser>, examiners: seq<Examiner>, submissions: seq<AdminSubmission>,
                        payments: seq<Payment>, certificates: seq<Certificate>): (r: Stats)
    ensures r.activeUsers <= r.totalUsers == |users|
    ensures r.activeExaminers <= r.totalExaminers == |examiners|
    ensures r.pendingExams + r.completedExams <= |submissions|
    ensures r.completedPayments <= |payments| && r.totalCertificates == |certificates|
    ensures r.activeUsers == |set i | 0 <= i < |users| && users[i].isActive|
    ensures r.activeExaminers == |set i | 0 <= i < |examiners| && examiners[i].isActive|
    ensures r.pendingExams == |set i | 0 <= i < |submissions| && submissions[i].status == ExamStatus.Pending|
    ensures r.completedExams == |set i | 0 <= i < |submissions| && submissions[i].status == ExamStatus.Corrected|
    ensures r.completedPayments == |set i | 0 <= i < |payments| && payments[i].status == PaymentCompleted|
    ensures r.totalPayments == SumOf(payments, Amount)
  {
    PendingAndCorrectedAreDisjoint(submissions);
    StatsPositions(users, examiners, submissions, payments);
    Stats(|users|, Count(users, IsActiveUser), |examiners|, Count(examiners, IsActiveExaminer),
      Count(submissions, IsPendingExam), Count(submissions, IsCorrectedExam),
      SumOf(payments, Amount), Count(payments, IsCompletedPayment), |certificates|)
  }

  /** The positions each dashboard counter counts, field by field. */
  lemma StatsPositions(users: seq<AdminUser>, examiners: seq<Examiner>, submissions: seq<AdminSubmission>,
                       payments: seq<Payment>)
    ensures IndicesWhere(users, IsActiveUser) == set i | 0 <= i < |users| && users[i].isActive
    ensures IndicesWhere(examiners, IsActiveExaminer) == set i | 0 <= i < |examiners| && examiners[i].isActive
    ensures IndicesWhere(submissions, IsPendingExam)
      == set i | 0 <= i < |submissions| && submissions[i].status == ExamStatus.Pending
    ensures IndicesWhere(submissions, IsCorrectedExam)
      == set i | 0 <= i < |submissions| && submissions[i].status == ExamStatus.Corrected
    ensures IndicesWhere(payments, IsCompletedPayment) == set i | 0 <= i < |payments| && payments[i].status == PaymentCompleted
  {
  }

  /** Pending and corrected exams never overlap, so their counts fit in the list. */
  lemma {:induction false} PendingAndCorrectedAreDisjoint(submissions: seq<AdminSubmission>)
    ensures Count(submissions, IsPendingExam) + Count(submissions, IsCorrectedExam) <= |submissions|
  {
    if submissions != [] {
      PendingAndCorrectedAreDisjoint(submissions[1..]);
    }
  }

  /** The dashboard's payment total counts completed and open payments alike. */
  lemma TotalPaymentsIgnoresStatus(users: seq<AdminUser>, examiners: seq<Examiner>, submissions: seq<AdminSubmission>,
                                   payments: seq<Payment>, certificates: seq<Certificate>)
    ensures ComputeStats(users, examiners, submissions, payments, certificates).totalPayments
      == SumOf(Filter(payments, IsCompletedPayment), Amount) + SumOf(Filter(payments, IsOpenPayment), Amount)
  {
    SumOfSplit(payments, Amount, IsCompletedPayment, IsOpenPayment);
  }

  /** Every user is active or inactive. */
  lemma ActivePartition(users: seq<AdminUser>)
    ensures Count(users, IsActiveUser) + Count(users, IsInactiveUser) == |users|
  {
    FilterComplement(users, IsActiveUser, IsInactiveUser);
  }

  // ---------------------------------------------------------------------
  // User search

  /** `${firstName} ${lastName} ${email}`. */
  function SearchText(u: AdminUser): string {
    u.firstName + " " + u.lastName + " " + u.email
  }

  predicate MatchesStatus(statusFilter: string, u: AdminUser) {
    statusFilter == "all" || (statusFilter == "active" && u.isActive) || (statusFilter == "inactive" && !u.isActive)
  }

  /** The filter callback of `filteredUsers`. */
  function UserMatches(searchTerm: string, statusFilter: string): AdminUser -> bool {
    (u: AdminUser) => Contains(Lower(SearchText(u)), Lower(searchTerm)) && MatchesStatus(statusFilter, u)
  }

  /** `filteredUsers`: the users whose text contains the term and whose status
      passes the filter, in list order. */
  function FilteredUsers(users: seq<AdminUser>, searchTerm: string, statusFilter: string): (r: seq<AdminUser>)
    ensures IsSubsequence(r, users)
    ensures forall u :: u in r <==> u in users && UserMatches(searchTerm, statusFilter)(u)
  {
    Filter(users, UserMatches(searchTerm, statusFilter))
  }

  /** A term found in the lower-cased e-mail finds the user under every status
      filter that admits them. */
  lemma EmailSearchFinds(users: seq<AdminUser>, u: AdminUser, searchTerm: string, statusFilter: string)
    requires u in users && MatchesStatus(statusFilter, u)
    requires Contains(Lower(u.email), Lower(searchTerm))
    ensures u in FilteredUsers(users, searchTerm, statusFilter)
  {
    LowerConcat(u.firstName + " " + u.lastName + " ", u.email);
    ContainsSuffix(Lower(u.firstName + " " + u.lastName + " "), Lower(u.email), Lower(searchTerm));
  }

  /** The "active" filter keeps only active users and "inactive" only inactive ones. */
  lemma StatusFilterSeparates(users: seq<AdminUser>, searchTerm: string)
    ensures forall u :: u in FilteredUsers(users, searchTerm, "active") ==> u.isActive
    ensures forall u :: u in FilteredUsers(users, searchTerm, "inactive") ==> !u.isActive
  {
  }

  // ---------------------------------------------------------------------
  // User records

  /** The user modal filled from an existing user; missing optional fields become empty. */
  function FormOf(u: AdminUser): UserForm {
    UserForm(u.firstName, u.lastName, u.email, u.phone, u.role,
      OrEmpty(u.profession), OrEmpty(u.specialization), OrEmpty(u.experience))
  }

  function OrEmpty(s: Option<string>): string {
    if s.Some? then s.value else ""
  }

  /** `{...u, ...userForm}`: the form's fields overwrite the user's. */
  function ApplyUserForm(form: UserForm): AdminUser -> AdminUser {
    (u: AdminUser) => u.(firstName := form.firstName, lastName := form.lastName, email := form.email,
      phone := form.phone, role := form.role, profession := Some(form.profession),
      specialization := Some(form.specialization), experience := Some(form.experience))
  }

  /** The user a create-mode save appends. */
  function NewUser(id: string, form: UserForm, today: string): (u: AdminUser)
    ensures u.id == id && u.isActive && u.createdAt == today
    ensures FormOf(u) == form
    ensures u.profession == Some(form.profession) && u.specialization == Some(form.specialization)
      && u.experience == Some(form.experience)
  {
    ApplyUserForm(form)(AdminUser(id, "", "", "", "", CandidateRole, true, today, None, None, None))
  }

  function UserHasId(id: string): AdminUser -> bool {
    (u: AdminUser) => u.id == id
  }

  function UserLacksId(id: string): AdminUser -> bool {
    (u: AdminUser) => u.id != id
  }

  /** `u => ({...u, isActive: !u.isActive})`. */
  function FlipUser(u: AdminUser): AdminUser {
    u.(isActive := !u.isActive)
  }

  /** An edit-mode save: only users with the id take the form's fields, and they keep id, status and creation date. */
  function EditUsers(users: seq<AdminUser>, id: string, form: UserForm): (r: seq<AdminUser>)
    ensures |r| == |users|
    ensures forall i :: 0 <= i < |users| && users[i].id != id ==> r[i] == users[i]
    ensures forall i :: 0 <= i < |users| && users[i].id == id ==>
      && r[i].id == id && r[i].isActive == users[i].isActive && r[i].createdAt == users[i].createdAt
      && FormOf(r[i]) == form
      && r[i].profession == Some(form.profession) && r[i].specialization == Some(form.specialization)
      && r[i].experience == Some(form.experience)
  {
    UpdateWhere(users, UserHasId(id), ApplyUserForm(form))
  }

  /** `toggleUserStatus`: only users with the id flip their status. */
  function ToggleUsers(users: seq<AdminUser>, id: string): (r: seq<AdminUser>)
    ensures |r| == |users|
    ensures forall i :: 0 <= i < |users| && users[i].id != id ==> r[i] == users[i]
    ensures forall i :: 0 <= i < |users| && users[i].id == id ==> r[i] == users[i].(isActive := !users[i].isActive)
  {
    UpdateWhere(users, UserHasId(id), FlipUser)
  }

  /** Toggling the same user twice restores the list. */
  lemma ToggleUsersTwice(users: seq<AdminUser>, id: string)
    ensures ToggleUsers(ToggleUsers(users, id), id) == users
  {
    UpdateWhereTwice(users, UserHasId(id), FlipUser);
  }

  function ActiveWithId(id: string): AdminUser -> bool {
    (u: AdminUser) => u.id == id && u.isActive
  }

  function InactiveWithId(id: string): AdminUser -> bool {
    (u: AdminUser) => u.id == id && !u.isActive
  }

  /** A toggle moves the matching users between the active and inactive counts. */
  lemma {:induction false} ToggleActiveCount(users: seq<AdminUser>, id: string)
    ensures Count(ToggleUsers(users, id), IsActiveUser) + Count(users, ActiveWithId(id))
      == Count(users, IsActiveUser) + Count(users, InactiveWithId(id))
  {
    if users != [] {
      assert ToggleUsers(users, id)[1..] == ToggleUsers(users[1..], id);
      ToggleActiveCount(users[1..], id);
    }
  }

  /** With one user holding the id, toggling changes the active count by exactly one. */
  lemma ToggleOneUser(users: seq<AdminUser>, k: nat)
    requires k < |users| && forall i :: 0 <= i < |users| && i != k ==> users[i].id != users[k].id
    ensures Count(ToggleUsers(users, users[k].id), IsActiveUser)
      == Count(users, IsActiveUser) + (if users[k].isActive then -1 else 1)
  {
    var id := users[k].id;
    ToggleActiveCount(users, id);
    CountOnlyAt(users, ActiveWithId(id), k);
    CountOnlyAt(users, InactiveWithId(id), k);
  }

  /** A test that at most index `k` passes is counted once or not at all. */
  lemma {:induction false} CountOnlyAt<T>(s: seq<T>, p: T -> bool, k: nat)
    requires k < |s| && forall i :: 0 <= i < |s| && i != k ==> !p(s[i])
    ensures Count(s, p) == if p(s[k]) then 1 else 0
  {
    if k == 0 {
      FilterNone(s[1..], p);
    } else {
      CountOnlyAt(s[1..], p, k - 1);
    }
  }

  /** Nothing passes the test, so the filter is empty. */
  lemma {:induction false} FilterNone<T>(s: seq<T>, p: T -> bool)
    requires forall i :: 0 <= i < |s| ==> !p(s[i])
    ensures Filter(s, p) == []
  {
    if s != [] {
      FilterNone(s[1..], p);
    }
  }

  // ---------------------------------------------------------------------
  // Examiner records and assignment

  function ExaminerFormOf(e: Examiner): ExaminerForm {
    ExaminerForm(e.firstName, e.lastName, e.email, e.phone, e.specialization, e.experience)
  }

  /** `{...e, ...examinerForm}`. */
  function ApplyExaminerForm(form: ExaminerForm): Examiner -> Examiner {
    (e: Examiner) => e.(firstName := form.firstName, lastName := form.lastName, email := form.email,
      phone := form.phone, specialization := form.specialization, experience := form.experience)
  }

  /** The examiner a create-mode save appends: active, with no assigned exams. */
  function NewExaminer(id: string, form: ExaminerForm): (e: Examiner)
    ensures e.id == id && e.isActive && e.assignedExams == 0 && ExaminerFormOf(e) == form
  {
    Examiner(id, form.firstName, form.lastName, form.email, form.phone, form.specialization, form.experience, true, 0)
  }

  function ExaminerHasId(id: string): Examiner -> bool {
    (e: Examiner) => e.id == id
  }

  function FlipExaminer(e: Examiner): Examiner {
    e.(isActive := !e.isActive)
  }

  /** `toggleExaminerStatus`: only examiners with the id flip their status. */
  function ToggleExaminers(examiners: seq<Examiner>, id: string): (r: seq<Examiner>)
    ensures |r| == |examiners|
    ensures forall i :: 0 <= i < |examiners| && examiners[i].id != id ==> r[i] == examiners[i]
    ensures forall i :: 0 <= i < |examiners| && examiners[i].id == id ==> r[i] == examiners[i].(isActive := !examiners[i].isActive)
  {
    UpdateWhere(examiners, ExaminerHasId(id), FlipExaminer)
  }

  /** Toggling the same examiner twice restores the list. */
  lemma ToggleExaminersTwice(examiners: seq<Examiner>, id: string)
    ensures ToggleExaminers(ToggleExaminers(examiners, id), id) == examiners
  {
    UpdateWhereTwice(examiners, ExaminerHasId(id), FlipExaminer);
  }

  /** The `assignedTo` text of an examiner looked up by id: `"first last"`, or undefined. */
  function AssigneeName(examiners: seq<Examiner>, examinerId: string): (r: Option<string>)
    ensures r.None? <==> forall i :: 0 <= i < |examiners| ==> examiners[i].id != examinerId
    ensures r.Some? ==>
      exists k :: 0 <= k < |examiners| && examiners[k].id == examinerId
        && (forall j :: 0 <= j < k ==> examiners[j].id != examinerId)
        && r.value == examiners[k].firstName + " " + examiners[k].lastName
  {
    match Find(examiners, ExaminerHasId(examinerId))
    case None => None
    case Some(e) => Some(e.firstName + " " + e.lastName)
  }

  function SubmissionHasId(id: string): AdminSubmission -> bool {
    (s: AdminSubmission) => s.id == id
  }

  function AssignTo(assignee: Option<string>): AdminSubmission -> AdminSubmission {
    (s: AdminSubmission) => s.(status := Assigned, assignedTo := assignee)
  }

  /** `assignExaminer`: only submissions with the id become assigned to the examiner's name. */
  function AssignSubmissions(submissions: seq<AdminSubmission>, submissionId: string, assignee: Option<string>): (r: seq<AdminSubmission>)
    ensures |r| == |submissions|
    ensures forall i :: 0 <= i < |submissions| && submissions[i].id != submissionId ==> r[i] == submissions[i]
    ensures forall i :: 0 <= i < |submissions| && submissions[i].id == submissionId ==>
      r[i] == submissions[i].(status := Assigned, assignedTo := assignee)
  {
    UpdateWhere(submissions, SubmissionHasId(submissionId), AssignTo(assignee))
  }

  // ---------------------------------------------------------------------
  // The console

  class AdminConsole {
    var users: seq<AdminUser>
    var examiners: seq<Examiner>
    var examSubmissions: seq<AdminSubmission>
    var modalMode: ModalMode
    var selectedUser: Option<AdminUser>
    var selectedExaminer: Option<Examiner>
    var userForm: UserForm
    var examinerForm: ExaminerForm

    constructor (initialUsers: seq<AdminUser>, initialExaminers: seq<Examiner>, initialSubmissions: seq<AdminSubmission>)
      ensures users == initialUsers && examiners == initialExaminers && examSubmissions == initialSubmissions
      ensures modalMode == Create && selectedUser == None && selectedExaminer == None
      ensures userForm == EmptyUserForm && examinerForm == EmptyExaminerForm
    {
      users, examiners, examSubmissions := initialUsers, initialExaminers, initialSubmissions;
      modalMode, selectedUser, selectedExaminer := Create, None, None;
      userForm, examinerForm := EmptyUserForm, EmptyExaminerForm;
    }

    /** `openUserModal`: remembers the mode and the user, and fills the form from
        the user or empties it. */
    method OpenUserModal(mode: ModalMode, user: Option<AdminUser>)
      modifies this`modalMode, this`selectedUser, this`userForm
      ensures modalMode == mode && selectedUser == user
      ensures userForm == if user.Some? then FormOf(user.value) else EmptyUserForm
    {
      modalMode := mode;
      selectedUser := user;
      if user.Some? {
        userForm := FormOf(user.value);
      } else {
        userForm := EmptyUserForm;
      }
    }

    /** The modal's inputs writing the form. */
    method SetUserForm(form: UserForm)
      modifies this`userForm
      ensures userForm == form
    {
      userForm := form;
    }

    method CloseUserModal()
      modifies this`selectedUser
      ensures selectedUser == None
    {
      selectedUser := None;
    }

    /** `saveUser`: create mode appends one new active user; edit mode with a
        selected user rewrites the users with its id; the modal is then closed. */
    method SaveUser(newId: string, today: string)
      modifies this`users, this`selectedUser
      ensures selectedUser == None
      ensures modalMode == Create ==> users == old(users) + [NewUser(newId, userForm, today)]
      ensures modalMode == Edit && old(selectedUser).Some? ==> users == EditUsers(old(users), old(selectedUser).value.id, userForm)
      ensures modalMode == View || (modalMode == Edit && old(selectedUser).None?) ==> users == old(users)
    {
      if modalMode == Create {
        users := users + [NewUser(newId, userForm, today)];
      } else if modalMode == Edit && selectedUser.Some? {
        users := EditUsers(users, selectedUser.value.id, userForm);
      }
      CloseUserModal();
    }

    /** `deleteUser`: once confirmed, every user with the id is removed and the
        rest keep their order; unconfirmed, nothing changes. */
    method DeleteUser(userId: string, confirmed: bool)
      modifies this`users
      ensures !confirmed ==> users == old(users)
      ensures confirmed ==> users == Filter(old(users), UserLacksId(userId))
    {
      if confirmed {
        users := Filter(users, UserLacksId(userId));
      }
    }

    method ToggleUserStatus(userId: string)
      modifies this`users
      ensures users == ToggleUsers(old(users), userId)
    {
      users := ToggleUsers(users, userId);
    }

    /** `openExaminerModal`. */
    method OpenExaminerModal(mode: ModalMode, examiner: Option<Examiner>)
      requires mode != View
      modifies this`modalMode, this`selectedExaminer, this`examinerForm
      ensures modalMode == mode && selectedExaminer == examiner
      ensures examinerForm == if examiner.Some? then ExaminerFormOf(examiner.value) else EmptyExaminerForm
    {
      modalMode := mode;
      selectedExaminer := examiner;
      if examiner.Some? {
        examinerForm := ExaminerFormOf(examiner.value);
      } else {
        examinerForm := EmptyExaminerForm;
      }
    }

    method SetExaminerForm(form: ExaminerForm)
      modifies this`examinerForm
      ensures examinerForm == form
    {
      examinerForm := form;
    }

    method CloseExaminerModal()
      modifies this`selectedExaminer
      ensures selectedExaminer == None
    {
      selectedExaminer := None;
    }

    /** `saveExaminer`: create mode appends one active examiner with no assigned
        exams; edit mode rewrites the examiners with the selected id. */
    method SaveExaminer(newId: string)
      modifies this`examiners, this`selectedExaminer
      ensures selectedExaminer == None
      ensures modalMode == Create ==> examiners == old(examiners) + [NewExaminer(newId, examinerForm)]
      ensures modalMode == Edit && old(selectedExaminer).Some? ==>
        examiners == UpdateWhere(old(examiners), ExaminerHasId(old(selectedExaminer).value.id), ApplyExaminerForm(examinerForm))
      ensures modalMode == View || (modalMode == Edit && old(selectedExaminer).None?) ==> examiners == old(examiners)
    {
      if modalMode == Create {
        examiners := examiners + [NewExaminer(newId, examinerForm)];
      } else if modalMode == Edit && selectedExaminer.Some? {
        examiners := UpdateWhere(examiners, ExaminerHasId(selectedExaminer.value.id), ApplyExaminerForm(examinerForm));
      }
      CloseExaminerModal();
    }

    method ToggleExaminerStatus(examinerId: string)
      modifies this`examiners
      ensures examiners == ToggleExaminers(old(examiners), examinerId)
    {
      examiners := ToggleExaminers(examiners, examinerId);
    }

    /** `assignExaminer`: the submission with the id becomes assigned; the
        examiners' own counters are not touched. */
    method AssignExaminer(submissionId: string, examinerId: string)
      modifies this`examSubmissions
      ensures examSubmissions == AssignSubmissions(old(examSubmissions), submissionId, AssigneeName(examiners, examinerId))
    {
      var assignee := AssigneeName(examiners, examinerId);
      examSubmissions := AssignSubmissions(examSubmissions, submissionId, assignee);
    }
  }

  /** A deletion keeps exactly the users without that id, every copy of them,
      in their order, and drops one entry per user carrying the id. */
  lemma DeleteKeepsOthers(users: seq<AdminUser>, userId: string)
    ensures IsSubsequence(Filter(users, UserLacksId(userId)), users)
    ensures forall u :: u in Filter(users, UserLacksId(userId)) <==> u in users && u.id != userId
    ensures multiset(Filter(users, UserLacksId(userId))) <= multiset(users)
    ensures forall i :: 0 <= i < |users| ==>
      multiset(Filter(users, UserLacksId(userId)))[users[i]] == if users[i].id != userId then multiset(users)[users[i]] else 0
    ensures |Filter(users, UserLacksId(userId))| == |users| - |set i | 0 <= i < |users| && users[i].id == userId|
  {
    FilterMultiplicity(users, UserLacksId(userId));
    FilterComplement(users, UserHasId(userId), UserLacksId(userId));
    assert IndicesWhere(users, UserHasId(userId)) == set i | 0 <= i < |users| && users[i].id == userId;
  }
}
