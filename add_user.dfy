/** The add-user page of `AddUser.tsx`: the three field validators, the error map
    that form validation builds, the user built from the form, and the page's
    form state with its change and submit handlers. */
module AddUser {
  import opened Wrappers
  import opened Text
  import opened Domain
  import opened UserStore

  // ----- Character classes and fixed-shape patterns -----

  /** A regular-expression character class. */
  datatype CharClass =
    | Digit                                  // \d
    | Upper                                  // [A-Z]
    | Space                                  // \s
    | OneOf(chars: set<char>)                // a bracketed list of literal characters
    | Either(left: CharClass, right: CharClass)

  predicate InClass(c: char, k: CharClass) {
    match k
    case Digit => IsDigit(c)
    case Upper => IsUpper(c)
    case Space => IsJsWhitespace(c)
    case OneOf(cs) => c in cs
    case Either(l, r) => InClass(c, l) || InClass(c, r)
  }

  /** `s` matches the anchored pattern made of the classes in `shape`, one character each. */
  predicate MatchesShape(s: string, shape: seq<CharClass>) {
    if shape == [] then s == []
    else s != [] && InClass(s[0], shape[0]) && MatchesShape(s[1..], shape[1..])
  }

  /** `s` matches `[k]*`, anchored. */
  predicate AllIn(s: string, k: CharClass) {
    s == [] || (InClass(s[0], k) && AllIn(s[1..], k))
  }

  lemma {:induction false} MatchesShapeIff(s: string, shape: seq<CharClass>)
    ensures MatchesShape(s, shape) <==>
      |s| == |shape| && forall i | 0 <= i < |s| :: InClass(s[i], shape[i])
  {
    if shape != [] && s != [] {
      MatchesShapeIff(s[1..], shape[1..]);
      if |s| == |shape| && forall i | 0 <= i < |s| :: InClass(s[i], shape[i]) {
        assert InClass(s[0], shape[0]);
        assert forall i | 0 <= i < |s| - 1 :: s[1..][i] == s[i + 1] && shape[1..][i] == shape[i + 1];
      }
    }
  }

  lemma {:induction false} AllInIff(s: string, k: CharClass)
    ensures AllIn(s, k) <==> forall i | 0 <= i < |s| :: InClass(s[i], k)
  {
    if s != [] {
      AllInIff(s[1..], k);
      assert forall i | 0 <= i < |s| - 1 :: s[1..][i] == s[i + 1];
    }
  }

  // ----- validateZipcode -----

  /** `\d{2}-\d{3}` */
  const DashedShape: seq<CharClass> := [Digit, Digit, OneOf({'-'}), Digit, Digit, Digit]
  /** `\d{5}` */
  const FiveDigitShape: seq<CharClass> := [Digit, Digit, Digit, Digit, Digit]
  /** `\d{4}` */
  const FourDigitShape: seq<CharClass> := [Digit, Digit, Digit, Digit]
  /** `[A-Z]\d[A-Z]\s\d[A-Z]{2}` */
  const LetterShape: seq<CharClass> := [Upper, Digit, Upper, Space, Digit, Upper, Upper]

  /** `validateZipcode`: the four anchored alternatives of the pattern. */
  predicate ValidateZipcode(zipcode: string) {
    || MatchesShape(zipcode, DashedShape)
    || MatchesShape(zipcode, FiveDigitShape)
    || MatchesShape(zipcode, FourDigitShape)
    || MatchesShape(zipcode, LetterShape)
  }

  /** The zipcodes accepted are exactly `DD-DDD`, `DDDDD`, `DDDD` and `LDL DLL`
      (D a digit, L an upper-case letter, the gap any whitespace character). */
  lemma ZipcodeAcceptsIff(z: string)
    ensures ValidateZipcode(z) <==>
      || (|z| == 6 && IsDigit(z[0]) && IsDigit(z[1]) && z[2] == '-'
            && IsDigit(z[3]) && IsDigit(z[4]) && IsDigit(z[5]))
      || (|z| == 5 && IsDigit(z[0]) && IsDigit(z[1]) && IsDigit(z[2]) && IsDigit(z[3]) && IsDigit(z[4]))
      || (|z| == 4 && IsDigit(z[0]) && IsDigit(z[1]) && IsDigit(z[2]) && IsDigit(z[3]))
      || (|z| == 7 && IsUpper(z[0]) && IsDigit(z[1]) && IsUpper(z[2]) && IsJsWhitespace(z[3])
            && IsDigit(z[4]) && IsUpper(z[5]) && IsUpper(z[6]))
  {
    MatchesShapeIff(z, DashedShape);
    MatchesShapeIff(z, FiveDigitShape);
    MatchesShapeIff(z, FourDigitShape);
    MatchesShapeIff(z, LetterShape);
  }

  // ----- validatePhone -----

  /** `[\d\s\-\+\(\)]` */
  const PhoneClass: CharClass := Either(Digit, Either(Space, OneOf({'-', '+', '(', ')'})))

  /** `validatePhone`: the pattern `[\d\s\-\+\(\)]{7,}`, anchored. */
  predicate ValidatePhone(phone: string) {
    |phone| >= 7 && AllIn(phone, PhoneClass)
  }

  /** The phones accepted are exactly the strings of at least seven characters, each
      a digit, whitespace, `-`, `+`, `(` or `)`. */
  lemma PhoneAcceptsIff(p: string)
    ensures ValidatePhone(p) <==>
      |p| >= 7 && forall i | 0 <= i < |p| ::
        IsDigit(p[i]) || IsJsWhitespace(p[i]) || p[i] == '-' || p[i] == '+' || p[i] == '(' || p[i] == ')'
  {
    AllInIff(p, PhoneClass);
    forall i | 0 <= i < |p|
      ensures InClass(p[i], PhoneClass) <==>
        IsDigit(p[i]) || IsJsWhitespace(p[i]) || p[i] == '-' || p[i] == '+' || p[i] == '(' || p[i] == ')'
    {
      InPhoneClass(p[i]);
    }
  }

  lemma InPhoneClass(c: char)
    ensures InClass(c, PhoneClass) <==> IsDigit(c) || IsJsWhitespace(c) || c == '-' || c == '+' || c == '(' || c == ')'
  {
    var rest := Either(Space, OneOf({'-', '+', '(', ')'}));
    assert InClass(c, PhoneClass) <==> IsDigit(c) || InClass(c, rest);
    assert InClass(c, rest) <==> IsJsWhitespace(c) || c in {'-', '+', '(', ')'};
  }

  // ----- validateEmail -----

  /** The index of the first `c` in `s`, or `|s|` when there is none. */
  function IndexOf(s: string, c: char): (r: nat)
    ensures r <= |s|
    ensures r < |s| ==> s[r] == c
    ensures forall k | 0 <= k < r :: s[k] != c
  {
    if s == [] then 0
    else if s[0] == c then 0
    else 1 + IndexOf(s[1..], c)
  }

  /** `[^\s@]+`: a non-empty run free of whitespace and `@`. */
  predicate PlainRun(t: string) {
    |t| > 0 && forall k | 0 <= k < |t| :: !IsJsWhitespace(t[k]) && t[k] != '@'
  }

  /** `s` splits as `[^\s@]+ @ [^\s@]+ \. [^\s@]+` with the `@` at `i` and the dot at `j`. */
  predicate EmailSplit(s: string, i: int, j: int) {
    && 0 <= i < j < |s|
    && PlainRun(s[..i]) && s[i] == '@'
    && PlainRun(s[i + 1..j]) && s[j] == '.'
    && PlainRun(s[j + 1..])
  }

  /** What the pattern `^[^\s@]+@[^\s@]+\.[^\s@]+$` matches. */
  ghost predicate EmailPattern(s: string) {
    exists i, j :: EmailSplit(s, i, j)
  }

  /** `validateEmail`: no whitespace, exactly one `@` with something before it, and
      after it a domain with a dot that is neither its first nor its last character. */
  predicate ValidateEmail(email: string) {
    var at := IndexOf(email, '@');
    && 0 < at < |email|
    && (forall k | 0 <= k < |email| :: !IsJsWhitespace(email[k]))
    && '@' !in email[at + 1..]
    && at + 2 <= |email| - 1
    && '.' in email[at + 2..|email| - 1]
  }

  /** The validator accepts exactly the strings the pattern matches. */
  lemma EmailAcceptsIff(s: string)
    ensures ValidateEmail(s) <==> EmailPattern(s)
  {
    if ValidateEmail(s) {
      AcceptedEmailMatches(s);
    }
    if EmailPattern(s) {
      var i, j :| EmailSplit(s, i, j);
      MatchingEmailAccepted(s, i, j);
    }
  }

  /** An accepted email splits as the pattern requires, at its first `@`. */
  lemma AcceptedEmailMatches(s: string)
    requires ValidateEmail(s)
    ensures EmailPattern(s)
  {
    var at := IndexOf(s, '@');
    var d :| 0 <= d < |s[at + 2..|s| - 1]| && s[at + 2..|s| - 1][d] == '.';
    var j := at + 2 + d;
    assert s[j] == '.';
    assert forall k | at + 1 <= k < |s| :: s[k] == s[at + 1..][k - at - 1];
    assert PlainRun(s[..at]);
    assert PlainRun(s[at + 1..j]);
    assert PlainRun(s[j + 1..]);
    assert EmailSplit(s, at, j);
  }

  /** A string split as the pattern requires is accepted. */
  lemma MatchingEmailAccepted(s: string, i: int, j: int)
    requires EmailSplit(s, i, j)
    ensures ValidateEmail(s)
  {
    var at := IndexOf(s, '@');
    assert forall k | 0 <= k < i :: s[k] == s[..i][k];
    assert at == i;
    forall k | 0 <= k < |s| ensures !IsJsWhitespace(s[k]) {
      if k < i {
        assert s[k] == s[..i][k];
      } else if i < k < j {
        assert s[k] == s[i + 1..j][k - i - 1];
      } else if j < k {
        assert s[k] == s[j + 1..][k - j - 1];
      }
    }
    forall k | i + 1 <= k < |s| ensures s[k] != '@' {
      if k < j {
        assert s[k] == s[i + 1..j][k - i - 1];
      } else if j < k {
        assert s[k] == s[j + 1..][k - j - 1];
      }
    }
    assert '@' !in s[at + 1..];
    assert s[at + 2..|s| - 1][j - at - 2] == '.';
  }

  // ----- The form -----

  datatype Field = Name | Username | Email | Phone | Street | Suite | City | Zipcode | CompanyName

  const AllFields: set<Field> := {Name, Username, Email, Phone, Street, Suite, City, Zipcode, CompanyName}

  /** The controlled inputs of the form. */
  datatype FormData = FormData(
    name: string, username: string, email: string, phone: string,
    street: string, suite: string, city: string, zipcode: string,
    companyName: string)
  {
    /** The value of the input named `f`. */
    function Get(f: Field): string {
      match f
      case Name => name
      case Username => username
      case Email => email
      case Phone => phone
      case Street => street
      case Suite => suite
      case City => city
      case Zipcode => zipcode
      case CompanyName => companyName
    }

    /** `{...prev, [f]: v}`: input `f` set to `v`, every other input kept. */
    function With(f: Field, v: string): (r: FormData)
      ensures r.Get(f) == v
      ensures forall g | g != f :: r.Get(g) == Get(g)
    {
      match f
      case Name => this.(name := v)
      case Username => this.(username := v)
      case Email => this.(email := v)
      case Phone => this.(phone := v)
      case Street => this.(street := v)
      case Suite => this.(suite := v)
      case City => this.(city := v)
      case Zipcode => this.(zipcode := v)
      case CompanyName => this.(companyName := v)
    }
  }

  /** The form as the page first renders it: every input empty. */
  const EmptyForm: FormData := FormData("", "", "", "", "", "", "", "", "")

  const NameRequired: string := "Imię i nazwisko jest wymagane"
  const UsernameRequired: string := "Nazwa użytkownika jest wymagana"
  const EmailRequired: string := "Email jest wymagany"
  const EmailInvalid: string := "Email jest niepoprawny"
  const PhoneRequired: string := "Telefon jest wymagany"
  const PhoneInvalid: string := "Telefon jest niepoprawny"
  const StreetRequired: string := "Ulica jest wymagana"
  const CityRequired: string := "Miasto jest wymagane"
  const ZipcodeRequired: string := "Kod pocztowy jest wymagany"
  const ZipcodeInvalid: string := "Kod pocztowy jest niepoprawny (np. 12-345 lub 12345)"

  /** What `validateForm` finds out about each input before it records messages:
      which inputs are blank, and which checked inputs their validator accepts. */
  datatype Checks = Checks(
    nameBlank: bool, usernameBlank: bool,
    emailBlank: bool, emailValid: bool,
    phoneBlank: bool, phoneValid: bool,
    streetBlank: bool, cityBlank: bool,
    zipcodeBlank: bool, zipcodeValid: bool)

  function ChecksOf(form: FormData): Checks {
    Checks(IsBlank(form.name), IsBlank(form.username),
           IsBlank(form.email), ValidateEmail(form.email),
           IsBlank(form.phone), ValidatePhone(form.phone),
           IsBlank(form.street), IsBlank(form.city),
           IsBlank(form.zipcode), ValidateZipcode(form.zipcode))
  }

  /** The rule for a required field. */
  function RequiredRule(blank: bool, required: string): Option<string> {
    if blank then Some(required) else None
  }

  /** The rule for a required field that a validator also checks. */
  function CheckedRule(blank: bool, valid: bool, required: string, invalid: string): Option<string> {
    if blank then Some(required) else if !valid then Some(invalid) else None
  }

  /** The message recorded for field `f`, if any. */
  function FieldError(c: Checks, f: Field): Option<string> {
    match f
    case Name => RequiredRule(c.nameBlank, NameRequired)
    case Username => RequiredRule(c.usernameBlank, UsernameRequired)
    case Email => CheckedRule(c.emailBlank, c.emailValid, EmailRequired, EmailInvalid)
    case Phone => CheckedRule(c.phoneBlank, c.phoneValid, PhoneRequired, PhoneInvalid)
    case Street => RequiredRule(c.streetBlank, StreetRequired)
    case City => RequiredRule(c.cityBlank, CityRequired)
    case Zipcode => CheckedRule(c.zipcodeBlank, c.zipcodeValid, ZipcodeRequired, ZipcodeInvalid)
    case Suite => None
    case CompanyName => None
  }

  /** The error map for the findings `c`: an entry for each field with a message. */
  function ErrorsOf(c: Checks): map<Field, string> {
    map f | f in AllFields && FieldError(c, f).Some? :: FieldError(c, f).value
  }

  /** The error map field by field. A name, user name, street or city gets its
      "required" message exactly when blank; an email, phone or zip code gets one
      message at most, "required" when blank and otherwise "invalid" when its
      validator rejects it; the suite and the company name never get one. */
  lemma ErrorsOfFields(c: Checks)
    ensures Name in ErrorsOf(c) <==> c.nameBlank
    ensures Name in ErrorsOf(c) ==> ErrorsOf(c)[Name] == NameRequired
    ensures Username in ErrorsOf(c) <==> c.usernameBlank
    ensures Username in ErrorsOf(c) ==> ErrorsOf(c)[Username] == UsernameRequired
    ensures Street in ErrorsOf(c) <==> c.streetBlank
    ensures Street in ErrorsOf(c) ==> ErrorsOf(c)[Street] == StreetRequired
    ensures City in ErrorsOf(c) <==> c.cityBlank
    ensures City in ErrorsOf(c) ==> ErrorsOf(c)[City] == CityRequired
    ensures Email in ErrorsOf(c) <==> c.emailBlank || !c.emailValid
    ensures Email in ErrorsOf(c) ==> ErrorsOf(c)[Email] == if c.emailBlank then EmailRequired else EmailInvalid
    ensures Phone in ErrorsOf(c) <==> c.phoneBlank || !c.phoneValid
    ensures Phone in ErrorsOf(c) ==> ErrorsOf(c)[Phone] == if c.phoneBlank then PhoneRequired else PhoneInvalid
    ensures Zipcode in ErrorsOf(c) <==> c.zipcodeBlank || !c.zipcodeValid
    ensures Zipcode in ErrorsOf(c) ==> ErrorsOf(c)[Zipcode] == if c.zipcodeBlank then ZipcodeRequired else ZipcodeInvalid
    ensures Suite !in ErrorsOf(c) && CompanyName !in ErrorsOf(c)
  {
  }

  /** A map that agrees with the findings on every field, one field at a time, is their error map. */
  lemma AgreesFieldwise(m: map<Field, string>, c: Checks)
    requires Name in m <==> c.nameBlank
    requires Name in m ==> m[Name] == NameRequired
    requires Username in m <==> c.usernameBlank
    requires Username in m ==> m[Username] == UsernameRequired
    requires Email in m <==> c.emailBlank || !c.emailValid
    requires Email in m ==> m[Email] == if c.emailBlank then EmailRequired else EmailInvalid
    requires Phone in m <==> c.phoneBlank || !c.phoneValid
    requires Phone in m ==> m[Phone] == if c.phoneBlank then PhoneRequired else PhoneInvalid
    requires Street in m <==> c.streetBlank
    requires Street in m ==> m[Street] == StreetRequired
    requires City in m <==> c.cityBlank
    requires City in m ==> m[City] == CityRequired
    requires Zipcode in m <==> c.zipcodeBlank || !c.zipcodeValid
    requires Zipcode in m ==> m[Zipcode] == if c.zipcodeBlank then ZipcodeRequired else ZipcodeInvalid
    requires Suite !in m && CompanyName !in m
    ensures m == ErrorsOf(c)
  {
    var e := ErrorsOf(c);
    ErrorsOfFields(c);
    forall f ensures (f in m <==> f in e) && (f in m ==> m[f] == e[f]) {
      match f
      case Name =>
      case Username =>
      case Email =>
      case Phone =>
      case Street =>
      case Suite =>
      case City =>
      case Zipcode =>
      case CompanyName =>
    }
  }

  /** The first half of `validateForm`: starting from no errors, the required and
      format checks of name, username, email and phone. */
  method ContactErrors(c: Checks) returns (errors: map<Field, string>)
    ensures Name in errors <==> c.nameBlank
    ensures Name in errors ==> errors[Name] == NameRequired
    ensures Username in errors <==> c.usernameBlank
    ensures Username in errors ==> errors[Username] == UsernameRequired
    ensures Email in errors <==> c.emailBlank || !c.emailValid
    ensures Email in errors ==> errors[Email] == if c.emailBlank then EmailRequired else EmailInvalid
    ensures Phone in errors <==> c.phoneBlank || !c.phoneValid
    ensures Phone in errors ==> errors[Phone] == if c.phoneBlank then PhoneRequired else PhoneInvalid
    ensures Street !in errors && City !in errors && Zipcode !in errors
    ensures Suite !in errors && CompanyName !in errors
  {
    errors := map[];
    if c.nameBlank {
      errors := errors[Name := NameRequired];
    }
    if c.usernameBlank {
      errors := errors[Username := UsernameRequired];
    }
    if c.emailBlank {
      errors := errors[Email := EmailRequired];
    } else if !c.emailValid {
      errors := errors[Email := EmailInvalid];
    }
    if c.phoneBlank {
      errors := errors[Phone := PhoneRequired];
    } else if !c.phoneValid {
      errors := errors[Phone := PhoneInvalid];
    }
  }

  /** The second half of `validateForm`: the required and format checks of street,
      city and zip code, added to `errors`; the other fields' entries are kept. */
  method AddressErrors(c: Checks, errors: map<Field, string>) returns (r: map<Field, string>)
    ensures Street in r <==> c.streetBlank || Street in errors
    ensures Street in r ==> r[Street] == if c.streetBlank then StreetRequired else errors[Street]
    ensures City in r <==> c.cityBlank || City in errors
    ensures City in r ==> r[City] == if c.cityBlank then CityRequired else errors[City]
    ensures Zipcode in r <==> c.zipcodeBlank || !c.zipcodeValid || Zipcode in errors
    ensures Zipcode in r ==>
      r[Zipcode] == if c.zipcodeBlank then ZipcodeRequired else if !c.zipcodeValid then ZipcodeInvalid else errors[Zipcode]
    ensures (Name in r <==> Name in errors) && (Name in r ==> r[Name] == errors[Name])
    ensures (Username in r <==> Username in errors) && (Username in r ==> r[Username] == errors[Username])
    ensures (Email in r <==> Email in errors) && (Email in r ==> r[Email] == errors[Email])
    ensures (Phone in r <==> Phone in errors) && (Phone in r ==> r[Phone] == errors[Phone])
    ensures (Suite in r <==> Suite in errors) && (Suite in r ==> r[Suite] == errors[Suite])
    ensures (CompanyName in r <==> CompanyName in errors) && (CompanyName in r ==> r[CompanyName] == errors[CompanyName])
  {
    r := errors;
    if c.streetBlank {
      r := r[Street := StreetRequired];
    }
    if c.cityBlank {
      r := r[City := CityRequired];
    }
    if c.zipcodeBlank {
      r := r[Zipcode := ZipcodeRequired];
    } else if !c.zipcodeValid {
      r := r[Zipcode := ZipcodeInvalid];
    }
  }

  /** The error map `validateForm` builds for `form`. A name, user name, street or
      city is rejected as required exactly when blank; an email, phone or zipcode
      gets one message at most, "required" when blank and otherwise "invalid" when
      its validator rejects it; the suite and the company name are never rejected. */
  function FormErrors(form: FormData): (errors: map<Field, string>)
    ensures Name in errors <==> IsBlank(form.name)
    ensures Name in errors ==> errors[Name] == NameRequired
    ensures Username in errors <==> IsBlank(form.username)
    ensures Username in errors ==> errors[Username] == UsernameRequired
    ensures Street in errors <==> IsBlank(form.street)
    ensures Street in errors ==> errors[Street] == StreetRequired
    ensures City in errors <==> IsBlank(form.city)
    ensures City in errors ==> errors[City] == CityRequired
    ensures Email in errors <==> IsBlank(form.email) || !ValidateEmail(form.email)
    ensures Email in errors ==>
      errors[Email] == if IsBlank(form.email) then EmailRequired else EmailInvalid
    ensures Phone in errors <==> IsBlank(form.phone) || !ValidatePhone(form.phone)
    ensures Phone in errors ==>
      errors[Phone] == if IsBlank(form.phone) then PhoneRequired else PhoneInvalid
    ensures Zipcode in errors <==> IsBlank(form.zipcode) || !ValidateZipcode(form.zipcode)
    ensures Zipcode in errors ==>
      errors[Zipcode] == if IsBlank(form.zipcode) then ZipcodeRequired else ZipcodeInvalid
    ensures Suite !in errors && CompanyName !in errors
  {
    ErrorsOfFields(ChecksOf(form));
    ErrorsOf(ChecksOf(form))
  }

  /** Every required input is non-blank and every checked input passes its validator. */
  predicate Acceptable(form: FormData) {
    && !IsBlank(form.name) && !IsBlank(form.username)
    && !IsBlank(form.email) && ValidateEmail(form.email)
    && !IsBlank(form.phone) && ValidatePhone(form.phone)
    && !IsBlank(form.street) && !IsBlank(form.city)
    && !IsBlank(form.zipcode) && ValidateZipcode(form.zipcode)
  }

  /** The findings record no error exactly when every required input is present
      and every checked input is valid. */
  lemma NoErrorsIff(c: Checks)
    ensures |ErrorsOf(c)| == 0 <==>
      && !c.nameBlank && !c.usernameBlank
      && !c.emailBlank && c.emailValid
      && !c.phoneBlank && c.phoneValid
      && !c.streetBlank && !c.cityBlank
      && !c.zipcodeBlank && c.zipcodeValid
  {
    var errors := ErrorsOf(c);
    ErrorsOfFields(c);
    if errors != map[] {
      var f :| f in errors.Keys;
      assert f in errors;
    }
  }

  /** Validation finds no error exactly when the form is acceptable. */
  lemma FormValidIff(form: FormData)
    ensures |FormErrors(form)| == 0 <==> Acceptable(form)
  {
    NoErrorsIff(ChecksOf(form));
  }

  /** The user `handleSubmit` builds from the form: every input copied untrimmed, no
      website, and a company (with no catch-phrase) only when its name is non-empty. */
  function NewUser(form: FormData, id: int): (u: User)
    ensures u.id == id
    ensures FormOf(u) == form
    ensures u.company.None? <==> form.companyName == ""
    ensures u.website == None
    ensures u.company.Some? ==> u.company.value.catchPhrase == None
  {
    User(id, form.name, form.username, form.email, form.phone, None,
         Address(form.street, form.suite, form.city, form.zipcode),
         if form.companyName != "" then Some(Company(form.companyName, None)) else None)
  }

  /** The form inputs a user's fields correspond to; the inverse of `NewUser`. */
  function FormOf(u: User): FormData {
    FormData(u.name, u.username, u.email, u.phone,
             u.address.street, u.address.suite, u.address.city, u.address.zipcode,
             match u.company case Some(c) => c.name case None => "")
  }

  /** The state of a mounted add-user page, over the store `useUsers` gives it. */
  class AddUserForm {
    const store: Store
    var formData: FormData
    var errors: map<Field, string>

    constructor (store: Store)
      ensures this.store == store && formData == EmptyForm && errors == map[]
    {
      this.store := store;
      formData := EmptyForm;
      errors := map[];
    }

    /** `validateForm`: records the error map of the current inputs and reports
        whether it is empty. */
    method ValidateForm() returns (valid: bool)
      modifies this`errors
      ensures errors == FormErrors(formData)
      ensures valid <==> |errors| == 0
    {
      var checks := ChecksOf(formData);
      var newErrors := ContactErrors(checks);
      newErrors := AddressErrors(checks, newErrors);
      AgreesFieldwise(newErrors, checks);
      errors := newErrors;
      valid := |newErrors| == 0;
    }

    /** `handleChange`: sets input `field` to `value`, and blanks that field's error
        message only when it was non-empty; every other input and message is kept. */
    method HandleChange(field: Field, value: string)
      modifies this`formData, this`errors
      ensures formData == old(formData).With(field, value)
      ensures field in old(errors) && old(errors)[field] != "" ==> errors == old(errors)[field := ""]
      ensures !(field in old(errors) && old(errors)[field] != "") ==> errors == old(errors)
    {
      formData := formData.With(field, value);
      if field in errors && errors[field] != "" {
        errors := errors[field := ""];
      }
    }

    /** `handleSubmit`: validates, and only when no error was found adds the user built
        from the inputs (with the caller-supplied `id`) to the store. */
    method HandleSubmit(id: int)
      modifies this`errors, store, store.storage
      ensures errors == FormErrors(formData)
      ensures |errors| == 0 ==>
        && store.users == [NewUser(formData, id)] + old(store.users)
        && store.storage.added == Some([NewUser(formData, id)] + old(store.storage.added).GetOr([]))
      ensures |errors| != 0 ==>
        && store.users == old(store.users)
        && store.storage.added == old(store.storage.added)
      ensures store.storage.apiUsers == old(store.storage.apiUsers)
      ensures store.loading == old(store.loading) && store.error == old(store.error)
    {
      var valid := ValidateForm();
      if !valid {
        return;
      }
      var newUser := NewUser(formData, id);
      store.AddUser(newUser);
    }
  }
}
