/** The candidate sign-up form (src/components/auth/RegisterForm.tsx): its
    thirteen fields, the error messages keyed by field, validation, editing a
    field and the submit guard in front of the registration call. */
module RegisterForm {
  import opened Types
  import opened Text

  datatype Field = FirstName | LastName | Email | Phone | Address | BirthDate | BirthPlace
                 | City | Country | Profession | LevelField | Password | ConfirmPassword

  const AllFields: set<Field> := {FirstName, LastName, Email, Phone, Address, BirthDate, BirthPlace,
                                  City, Country, Profession, LevelField, Password, ConfirmPassword}

  /** The fields nobody validates. */
  const UncheckedFields: set<Field> := {Address, BirthDate, BirthPlace, City, Country, Profession, LevelField}

  datatype FormData = FormData(
    firstName: string,
    lastName: string,
    email: string,
    phone: string,
    address: string,
    birthDate: string,
    birthPlace: string,
    city: string,
    country: string,
    profession: string,
    level: string,
    password: string,
    confirmPassword: string)

  const InitialFormData: FormData := FormData("", "", "", "", "", "", "", "", "", "", "debutant", "", "")

  const FirstNameRequired: string := "Le prénom est requis"
  const LastNameRequired: string := "Le nom est requis"
  const EmailRequired: string := "L'email est requis"
  const PhoneRequired: string := "Le téléphone est requis"
  const PasswordRequired: string := "Le mot de passe est requis"
  const PasswordTooShort: string := "Le mot de passe doit contenir au moins 6 caractères"
  const PasswordMismatch: string := "Les mots de passe ne correspondent pas"
  const RegisterFailed: string := "Erreur lors de l'inscription"

  const MinPasswordLength: nat := 6

  function GetField(fd: FormData, f: Field): string {
    match f
    case FirstName => fd.firstName
    case LastName => fd.lastName
    case Email => fd.email
    case Phone => fd.phone
    case Address => fd.address
    case BirthDate => fd.birthDate
    case BirthPlace => fd.birthPlace
    case City => fd.city
    case Country => fd.country
    case Profession => fd.profession
    case LevelField => fd.level
    case Password => fd.password
    case ConfirmPassword => fd.confirmPassword
  }

  /** `{...prev, [field]: value}`. */
  function SetField(fd: FormData, f: Field, v: string): FormData {
    match f
    case FirstName => fd.(firstName := v)
    case LastName => fd.(lastName := v)
    case Email => fd.(email := v)
    case Phone => fd.(phone := v)
    case Address => fd.(address := v)
    case BirthDate => fd.(birthDate := v)
    case BirthPlace => fd.(birthPlace := v)
    case City => fd.(city := v)
    case Country => fd.(country := v)
    case Profession => fd.(profession := v)
    case LevelField => fd.(level := v)
    case Password => fd.(password := v)
    case ConfirmPassword => fd.(confirmPassword := v)
  }

  /** Setting a field changes that field to the value and no other field. */
  lemma SetFieldOnlyThat(fd: FormData, f: Field, v: string)
    ensures forall g :: GetField(SetField(fd, f, v), g) == if g == f then v else GetField(fd, g)
  {
  }

  // ---------------------------------------------------------------------
  // Validation

  /** The message left under each field once every check has run: the four
      contact fields are required, the password must have six characters or
      more, and the confirmation must equal the password. */
  function FinalError(fd: FormData, f: Field): Option<string> {
    match f
    case FirstName => if Trim(fd.firstName) == "" then Some(FirstNameRequired) else None
    case LastName => if Trim(fd.lastName) == "" then Some(LastNameRequired) else None
    case Email => if Trim(fd.email) == "" then Some(EmailRequired) else None
    case Phone => if Trim(fd.phone) == "" then Some(PhoneRequired) else None
    case Password => if |fd.password| < MinPasswordLength then Some(PasswordTooShort) else None
    case ConfirmPassword => if fd.password != fd.confirmPassword then Some(PasswordMismatch) else None
    case _ => None
  }

  /** The error dictionary of a form, field by field. */
  function FormErrors(fd: FormData): map<Field, string> {
    map f | f in AllFields && FinalError(fd, f).Some? :: FinalError(fd, f).value
  }

  predicate FormIsValid(fd: FormData) {
    && Trim(fd.firstName) != "" && Trim(fd.lastName) != "" && Trim(fd.email) != "" && Trim(fd.phone) != ""
    && |fd.password| >= MinPasswordLength && fd.password == fd.confirmPassword
  }

  /** The form has no errors exactly when the four contact fields hold more than
      whitespace, the password is long enough and the confirmation matches. */
  lemma NoErrorsIff(fd: FormData)
    ensures FormErrors(fd) == map[] <==> FormIsValid(fd)
  {
    if FormIsValid(fd) {
      forall f | f in AllFields ensures FinalError(fd, f).None? {
      }
    } else {
      if Trim(fd.firstName) == "" {
        assert FirstName in FormErrors(fd);
      } else if Trim(fd.lastName) == "" {
        assert LastName in FormErrors(fd);
      } else if Trim(fd.email) == "" {
        assert Email in FormErrors(fd);
      } else if Trim(fd.phone) == "" {
        assert Phone in FormErrors(fd);
      } else if |fd.password| < MinPasswordLength {
        assert Password in FormErrors(fd);
      } else {
        assert ConfirmPassword in FormErrors(fd);
      }
    }
  }

  /** Address, dates, place, city, country, profession and level never carry an error. */
  lemma UncheckedFieldsNeverError(fd: FormData)
    ensures forall f :: f in UncheckedFields ==> f !in FormErrors(fd)
  {
  }

  /** The "required" password message is always overwritten: an empty password
      gets the length message, and no field ever shows the "required" one. */
  lemma EmptyPasswordGetsLengthMessage(fd: FormData)
    ensures fd.password == "" ==> Password in FormErrors(fd) && FormErrors(fd)[Password] == PasswordTooShort
    ensures forall f :: f in FormErrors(fd) ==> FormErrors(fd)[f] != PasswordRequired
  {
  }

  /** A mismatch is reported under the confirmation field and under no other. */
  lemma MismatchOnlyUnderConfirmation(fd: FormData)
    ensures ConfirmPassword in FormErrors(fd) <==> fd.password != fd.confirmPassword
    ensures forall f :: f in FormErrors(fd) && FormErrors(fd)[f] == PasswordMismatch ==> f == ConfirmPassword
  {
  }

  /** Whitespace alone does not fill a required field. */
  lemma BlankNameIsRequired(fd: FormData)
    requires AllSpace(fd.firstName)
    ensures FirstName in FormErrors(fd) && FormErrors(fd)[FirstName] == FirstNameRequired
  {
    TrimEmptyIff(fd.firstName);
  }

  /** One check of `validateForm` applied to the dictionary built so far: the
      field's final error, when it has one, is written under it. */
  function Check(m: map<Field, string>, fd: FormData, f: Field): map<Field, string> {
    if FinalError(fd, f).Some? then m[f := FinalError(fd, f).value] else m
  }

  /** The six checks in source order. */
  function AllChecks(fd: FormData): map<Field, string> {
    var m1 := Check(map[], fd, FirstName);
    var m2 := Check(m1, fd, LastName);
    var m3 := Check(m2, fd, Email);
    var m4 := Check(m3, fd, Phone);
    var m5 := Check(m4, fd, Password);
    Check(m5, fd, ConfirmPassword)
  }

  /** Running the checks in order yields the error dictionary. */
  lemma AllChecksIsFormErrors(fd: FormData)
    ensures AllChecks(fd) == FormErrors(fd)
  {
    var a, e := AllChecks(fd), FormErrors(fd);
    forall f ensures f in a <==> f in e {
      AllChecksAt(fd, f);
    }
    forall f | f in a ensures a[f] == e[f] {
      AllChecksAt(fd, f);
    }
  }

  /** After the checks a field holds its final error, and only a field with one is present. */
  lemma AllChecksAt(fd: FormData, f: Field)
    ensures f in AllChecks(fd) <==> FinalError(fd, f).Some?
    ensures f in AllChecks(fd) ==> AllChecks(fd)[f] == FinalError(fd, f).value
  {
  }

  /** The writes of `validateForm`, one per check in source order, leave the
      error dictionary. */
  lemma ValidationSteps(fd: FormData, m1: map<Field, string>, m2: map<Field, string>, m3: map<Field, string>,
                        m4: map<Field, string>, m5: map<Field, string>, m6: map<Field, string>, m7: map<Field, string>)
    requires m1 == if Trim(fd.firstName) == "" then map[FirstName := FirstNameRequired] else map[]
    requires m2 == if Trim(fd.lastName) == "" then m1[LastName := LastNameRequired] else m1
    requires m3 == if Trim(fd.email) == "" then m2[Email := EmailRequired] else m2
    requires m4 == if Trim(fd.phone) == "" then m3[Phone := PhoneRequired] else m3
    requires m5 == if fd.password == "" then m4[Password := PasswordRequired] else m4
    requires m6 == if |fd.password| < MinPasswordLength then m5[Password := PasswordTooShort] else m5
    requires m7 == if fd.password != fd.confirmPassword then m6[ConfirmPassword := PasswordMismatch] else m6
    ensures m7 == FormErrors(fd)
  {
    assert m1 == Check(map[], fd, FirstName);
    assert m2 == Check(m1, fd, LastName);
    assert m3 == Check(m2, fd, Email);
    assert m4 == Check(m3, fd, Phone);
    PasswordWrites(fd, m4, m5, m6);
    assert m7 == Check(m6, fd, ConfirmPassword);
    assert m7 == AllChecks(fd);
    AllChecksIsFormErrors(fd);
  }

  /** The two password writes leave only the length message, when it applies. */
  lemma PasswordWrites(fd: FormData, m4: map<Field, string>, m5: map<Field, string>, m6: map<Field, string>)
    requires m5 == if fd.password == "" then m4[Password := PasswordRequired] else m4
    requires m6 == if |fd.password| < MinPasswordLength then m5[Password := PasswordTooShort] else m5
    ensures m6 == Check(m4, fd, Password)
  {
    if fd.password == "" {
      assert m6 == m4[Password := PasswordTooShort];
    }
  }

  // ---------------------------------------------------------------------
  // The form component

  class RegistrationForm {
    var formData: FormData
    var errors: map<Field, string>

    constructor ()
      ensures formData == InitialFormData && errors == map[]
    {
      formData := InitialFormData;
      errors := map[];
    }

    /** `validateForm`: one conditional write per check, in source order, a
        later write to the same key replacing an earlier one. */
    method ValidateForm() returns (valid: bool)
      modifies this`errors
      ensures errors == FormErrors(formData)
      ensures valid <==> errors == map[]
    {
      var fd := formData;
      var newErrors: map<Field, string> := map[];
      if Trim(fd.firstName) == "" { newErrors := newErrors[FirstName := FirstNameRequired]; }
      ghost var m1 := newErrors;
      if Trim(fd.lastName) == "" { newErrors := newErrors[LastName := LastNameRequired]; }
      ghost var m2 := newErrors;
      if Trim(fd.email) == "" { newErrors := newErrors[Email := EmailRequired]; }
      ghost var m3 := newErrors;
      if Trim(fd.phone) == "" { newErrors := newErrors[Phone := PhoneRequired]; }
      ghost var m4 := newErrors;
      if fd.password == "" { newErrors := newErrors[Password := PasswordRequired]; }
      ghost var m5 := newErrors;
      if |fd.password| < MinPasswordLength { newErrors := newErrors[Password := PasswordTooShort]; }
      ghost var m6 := newErrors;
      if fd.password != fd.confirmPassword { newErrors := newErrors[ConfirmPassword := PasswordMismatch]; }
      ValidationSteps(fd, m1, m2, m3, m4, m5, m6, newErrors);
      errors := newErrors;
      valid := |newErrors| == 0;
    }

    /** `handleChange`: the field takes the value; an error already shown under
        that field is blanked, other errors stay. */
    method HandleChange(field: Field, value: string)
      modifies this`formData, this`errors
      ensures formData == SetField(old(formData), field, value)
      ensures errors == if field in old(errors) && old(errors)[field] != "" then old(errors)[field := ""] else old(errors)
    {
      formData := SetField(formData, field, value);
      if field in errors && errors[field] != "" {
        errors := errors[field := ""];
      }
    }

    /** `handleSubmit`: an invalid form never reaches `register`; a failed
        registration replaces every error with a single e-mail error. */
    method HandleSubmit(registerSucceeds: bool) returns (registerCalled: bool)
      modifies this`errors
      ensures registerCalled <==> FormIsValid(formData)
      ensures !registerCalled ==> errors == FormErrors(formData)
      ensures registerCalled && registerSucceeds ==> errors == map[]
      ensures registerCalled && !registerSucceeds ==> errors == map[Email := RegisterFailed]
    {
      var valid := ValidateForm();
      NoErrorsIff(formData);
      if !valid {
        return false;
      }
      registerCalled := true;
      if !registerSucceeds {
        errors := map[Email := RegisterFailed];
      }
    }
  }
}
