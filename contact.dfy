/** The contact form: field validation, the input-name mapping with error
    clearing, and the submit status machine around the e-mail relay. */
module Contact {
  import opened Wrappers

  // ------------------------------------------------------------- whitespace

  /** ECMAScript WhiteSpace and LineTerminator code points: the set that both
      `String.prototype.trim` and the regular-expression class `\s` use. */
  predicate IsJsWhitespace(c: char)
  {
    c == ' ' || c == '\t' || c == '\n' || c == '\r' || c == '\U{000B}' || c == '\U{000C}' ||
    c == '\U{00A0}' || c == '\U{1680}' || ('\U{2000}' <= c <= '\U{200A}') ||
    c == '\U{2028}' || c == '\U{2029}' || c == '\U{202F}' || c == '\U{205F}' ||
    c == '\U{3000}' || c == '\U{FEFF}'
  }

  predicate Blank(s: string)
  {
    forall k | 0 <= k < |s| :: IsJsWhitespace(s[k])
  }

  /** Drops leading whitespace: the rest of `s` from its first non-space. */
  function TrimStart(s: string): string
    decreases |s|
  {
    if |s| > 0 && IsJsWhitespace(s[0]) then TrimStart(s[1..]) else s
  }

  /** Drops trailing whitespace: `s` up to its last non-space. */
  function TrimEnd(s: string): string
    decreases |s|
  {
    if |s| > 0 && IsJsWhitespace(s[|s| - 1]) then TrimEnd(s[..|s| - 1]) else s
  }

  /** TrimStart keeps a suffix, drops only whitespace, and stops at the
      first non-space. */
  lemma {:induction false} TrimStartSpec(s: string)
    ensures var r := TrimStart(s);
      && |r| <= |s| && r == s[|s| - |r|..]
      && Blank(s[..|s| - |r|])
      && (r == [] || !IsJsWhitespace(r[0]))
    decreases |s|
  {
    if |s| > 0 && IsJsWhitespace(s[0]) {
      var r := TrimStart(s[1..]);
      TrimStartSpec(s[1..]);
      assert s[1..][..|s| - 1 - |r|] == s[1..|s| - |r|];
    }
  }

  lemma BlankExtend(s: string, c: char)
    requires Blank(s) && IsJsWhitespace(c)
    ensures Blank(s + [c])
  {
  }

  /** TrimEnd keeps a prefix, drops only whitespace, and stops at the last
      non-space. */
  lemma {:induction false} TrimEndSpec(s: string)
    ensures var r := TrimEnd(s);
      && |r| <= |s| && r == s[..|r|]
      && Blank(s[|r|..])
      && (r == [] || !IsJsWhitespace(r[|r| - 1]))
    decreases |s|
  {
    if |s| > 0 && IsJsWhitespace(s[|s| - 1]) {
      var init := s[..|s| - 1];
      var r := TrimEnd(init);
      TrimEndSpec(init);
      assert init[|r|..] == s[|r|..|s| - 1];
      BlankExtend(s[|r|..|s| - 1], s[|s| - 1]);
      assert s[|r|..] == s[|r|..|s| - 1] + [s[|s| - 1]];
      assert init[..|r|] == s[..|r|];
    }
  }

  /** `s.trim()`. */
  function Trim(s: string): string
  {
    TrimEnd(TrimStart(s))
  }

  lemma {:induction false} TrimStartEmptyIffBlank(s: string)
    ensures TrimStart(s) == "" <==> Blank(s)
    decreases |s|
  {
    if |s| > 0 {
      if IsJsWhitespace(s[0]) {
        TrimStartEmptyIffBlank(s[1..]);
        assert Blank(s) <==> Blank(s[1..]) by {
          assert forall k | 0 <= k < |s| - 1 :: s[1..][k] == s[k + 1];
        }
      } else {
        assert !Blank(s);
      }
    }
  }

  lemma {:induction false} TrimEndEmptyIffBlank(s: string)
    ensures TrimEnd(s) == "" <==> Blank(s)
    decreases |s|
  {
    if |s| > 0 {
      if IsJsWhitespace(s[|s| - 1]) {
        TrimEndEmptyIffBlank(s[..|s| - 1]);
        assert Blank(s) <==> Blank(s[..|s| - 1]) by {
          assert forall k | 0 <= k < |s| - 1 :: s[..|s| - 1][k] == s[k];
        }
      } else {
        assert !Blank(s);
      }
    }
  }

  /** `!s.trim()` holds exactly for the strings made only of whitespace. */
  lemma TrimEmptyIffBlank(s: string)
    ensures Trim(s) == "" <==> Blank(s)
  {
    var t := TrimStart(s);
    TrimStartSpec(s);
    TrimStartEmptyIffBlank(s);
    TrimEndEmptyIffBlank(t);
    if t != [] {
      assert !IsJsWhitespace(t[0]);
      assert !Blank(t);
    }
  }

  // ---------------------------------------------------------- email pattern

  /** A character the class `[^\s@]` admits. */
  predicate Plain(c: char)
  {
    !IsJsWhitespace(c) && c != '@'
  }

  predicate AllPlain(s: string)
  {
    forall k | 0 <= k < |s| :: Plain(s[k])
  }

  /** `^[^\s@]+@[^\s@]+\.[^\s@]+$` matches `s` with its `@` at `i` and its
      literal dot at `j`. */
  predicate EmailSplit(s: string, i: int, j: int)
  {
    0 < i && i + 1 < j && j + 1 < |s| && s[i] == '@' && s[j] == '.' &&
    AllPlain(s[..i]) && AllPlain(s[i + 1..j]) && AllPlain(s[j + 1..])
  }

  /** The pattern test `/^[^\s@]+@[^\s@]+\.[^\s@]+$/.test(s)`, as written:
      some placement of the `@` and the dot makes every part match. */
  predicate MatchesEmailPattern(s: string)
  {
    exists i, j | 0 <= i < |s| && 0 <= j < |s| :: EmailSplit(s, i, j)
  }

  predicate OnlyAtSignAt(s: string, a: int)
  {
    forall k | 0 <= k < |s| && k != a :: s[k] != '@'
  }

  /** The shape the pattern admits, in words: no whitespace, exactly one `@`
      with something before it, and a dot after the `@` with at least one
      character on each side. */
  ghost predicate EmailShape(s: string)
  {
    (forall k | 0 <= k < |s| :: !IsJsWhitespace(s[k])) &&
    exists a | 0 < a < |s| ::
      s[a] == '@' && OnlyAtSignAt(s, a) && exists d | a + 1 < d < |s| - 1 :: s[d] == '.'
  }

  lemma EmailPatternIff(s: string)
    ensures MatchesEmailPattern(s) <==> EmailShape(s)
  {
    if MatchesEmailPattern(s) {
      var i, j :| 0 <= i < |s| && 0 <= j < |s| && EmailSplit(s, i, j);
      forall k | 0 <= k < |s| ensures !IsJsWhitespace(s[k]) && (k != i ==> s[k] != '@') {
        if k < i {
          assert s[k] == s[..i][k];
        } else if i < k < j {
          assert s[k] == s[i + 1..j][k - i - 1];
        } else if j < k {
          assert s[k] == s[j + 1..][k - j - 1];
        }
      }
      assert OnlyAtSignAt(s, i);
      assert EmailShape(s);
    }
    if EmailShape(s) {
      var a :| 0 < a < |s| && s[a] == '@' && OnlyAtSignAt(s, a) &&
               exists d | a + 1 < d < |s| - 1 :: s[d] == '.';
      var d :| a + 1 < d < |s| - 1 && s[d] == '.';
      forall k | 0 <= k < |s| && k != a ensures Plain(s[k]) {
      }
      assert AllPlain(s[..a]);
      assert AllPlain(s[a + 1..d]);
      assert AllPlain(s[d + 1..]);
      assert EmailSplit(s, a, d);
    }
  }

  // ------------------------------------------------------------- validation

  const NameRequired := "Name is required"
  const EmailRequired := "Email is required"
  const EmailInvalid := "Please enter a valid email address"
  const MessageRequired := "Message is required"
  const MessageTooShort := "Message must be at least 10 characters long"
  const MessageMinLength := 10

  /** The name rule: required. */
  function NameError(name: string): (r: Option<string>)
    ensures r == None || r == Some(NameRequired)
    ensures |name| == 0 ==> r == Some(NameRequired)
  {
    if Trim(name) == "" then Some(NameRequired) else None
  }

  /** The e-mail rule: required, then the pattern on the untrimmed value. */
  function EmailError(email: string): (r: Option<string>)
    ensures r == None || r == Some(EmailRequired) || r == Some(EmailInvalid)
    ensures |email| == 0 ==> r == Some(EmailRequired)
  {
    if Trim(email) == "" then Some(EmailRequired)
    else if !MatchesEmailPattern(email) then Some(EmailInvalid)
    else None
  }

  /** The message rule: required, then the length of the untrimmed value. */
  function MessageError(message: string): (r: Option<string>)
    ensures r == None || r == Some(MessageRequired) || r == Some(MessageTooShort)
    ensures |message| == 0 ==> r == Some(MessageRequired)
    ensures r == None ==> |message| >= MessageMinLength
  {
    if Trim(message) == "" then Some(MessageRequired)
    else if |message| < MessageMinLength then Some(MessageTooShort)
    else None
  }

  /** Records an error under `field` when there is one. */
  function Record(errs: map<string, string>, field: string, e: Option<string>): map<string, string>
  {
    match e
    case Some(msg) => errs[field := msg]
    case None => errs
  }

  // The three steps of `validateForm`, one field each.
  method CheckName(errs: map<string, string>, name: string) returns (r: map<string, string>)
    ensures r == Record(errs, "name", NameError(name))
  {
    r := errs;
    if Trim(name) == "" {
      r := r["name" := NameRequired];
    }
  }

  method CheckEmail(errs: map<string, string>, email: string) returns (r: map<string, string>)
    ensures r == Record(errs, "email", EmailError(email))
  {
    r := errs;
    if Trim(email) == "" {
      assert EmailError(email) == Some(EmailRequired);
      r := r["email" := EmailRequired];
    } else if !MatchesEmailPattern(email) {
      assert EmailError(email) == Some(EmailInvalid);
      r := r["email" := EmailInvalid];
    } else {
      assert EmailError(email) == None;
    }
  }

  method CheckMessage(errs: map<string, string>, message: string) returns (r: map<string, string>)
    ensures r == Record(errs, "message", MessageError(message))
  {
    r := errs;
    if Trim(message) == "" {
      assert MessageError(message) == Some(MessageRequired);
      r := r["message" := MessageRequired];
    } else if |message| < MessageMinLength {
      assert MessageError(message) == Some(MessageTooShort);
      r := r["message" := MessageTooShort];
    } else {
      assert MessageError(message) == None;
    }
  }

  /** The error record `validateForm` builds from the three field values,
      starting from an empty record. */
  function ValidationErrors(name: string, email: string, message: string): (r: map<string, string>)
    ensures r.Keys <= {"name", "email", "message"}
    ensures forall f | f in r ::
              r[f] in {NameRequired, EmailRequired, EmailInvalid, MessageRequired, MessageTooShort}
  {
    Record(Record(Record(map[], "name", NameError(name)), "email", EmailError(email)),
           "message", MessageError(message))
  }

  /** A name error exactly for a blank name. */
  lemma NameErrorMeaning(name: string)
    ensures NameError(name).Some? <==> Blank(name)
  {
    TrimEmptyIffBlank(name);
  }

  /** At most one e-mail error: "required" exactly for a blank value,
      "invalid" exactly for a non-blank value of the wrong shape. */
  lemma EmailErrorMeaning(email: string)
    ensures EmailError(email) == Some(EmailRequired) <==> Blank(email)
    ensures EmailError(email) == Some(EmailInvalid) <==> !Blank(email) && !EmailShape(email)
    ensures EmailError(email) == None <==> EmailShape(email)
  {
    TrimEmptyIffBlank(email);
    EmailPatternIff(email);
    if EmailShape(email) {
      assert |email| > 0 && !IsJsWhitespace(email[0]);
    }
  }

  /** At most one message error: "required" for a blank message, "too short"
      for a non-blank one under ten characters. */
  lemma MessageErrorMeaning(message: string)
    ensures MessageError(message) == Some(MessageRequired) <==> Blank(message)
    ensures MessageError(message) == Some(MessageTooShort) <==>
              !Blank(message) && |message| < MessageMinLength
    ensures MessageError(message) == None <==> !Blank(message) && |message| >= MessageMinLength
  {
    TrimEmptyIffBlank(message);
  }

  /** The record holds exactly the three rules' errors, each under its own
      field, and nothing else. */
  lemma ValidationErrorsFields(name: string, email: string, message: string)
    ensures var errs := ValidationErrors(name, email, message);
      && errs.Keys <= {"name", "email", "message"}
      && ("name" in errs <==> NameError(name).Some?)
      && ("name" in errs ==> errs["name"] == NameError(name).value)
      && ("email" in errs <==> EmailError(email).Some?)
      && ("email" in errs ==> errs["email"] == EmailError(email).value)
      && ("message" in errs <==> MessageError(message).Some?)
      && ("message" in errs ==> errs["message"] == MessageError(message).value)
  {
    var e1 := Record(map[], "name", NameError(name));
    var e2 := Record(e1, "email", EmailError(email));
    RecordEntries(map[], "name", NameError(name));
    RecordEntries(e1, "email", EmailError(email));
    RecordEntries(e2, "message", MessageError(message));
  }

  /** Recording sets `field` when there is an error and keeps every other entry. */
  lemma RecordEntries(errs: map<string, string>, field: string, e: Option<string>)
    ensures var r := Record(errs, field, e);
      && r.Keys == (if e.Some? then errs.Keys + {field} else errs.Keys)
      && (e.Some? ==> r[field] == e.value)
      && (forall k | k in errs && k != field :: r[k] == errs[k])
  {
  }

  /** `validateForm` reports success exactly when every rule passes. */
  lemma ValidIffRulesPass(name: string, email: string, message: string)
    ensures ValidationErrors(name, email, message) == map[] <==>
              !Blank(name) && EmailShape(email) && !Blank(message) && |message| >= MessageMinLength
  {
    NameErrorMeaning(name);
    EmailErrorMeaning(email);
    MessageErrorMeaning(message);
    ValidationErrorsFields(name, email, message);
    var errs := ValidationErrors(name, email, message);
    assert "name" in errs || "email" in errs || "message" in errs ==> errs != map[];
  }

  lemma EmptyIffNoKeys(m: map<string, string>)
    ensures |m| == 0 <==> m == map[]
  {
    if m != map[] {
      var k :| k in m;
      assert k in m.Keys;
    }
  }

  // -------------------------------------------------------------- the form

  /** Input names mapped to form fields; any other name is used as it is. */
  const FieldMap: map<string, string> :=
    map["user_name" := "name", "user_email" := "email", "message" := "message"]

  /** The form field an input named `inputName` writes: `fieldMap[name] || name`. */
  function FieldKey(inputName: string): (k: string)
    ensures inputName == "user_name" ==> k == "name"
    ensures inputName == "user_email" ==> k == "email"
    ensures inputName == "message" ==> k == "message"
    ensures inputName !in FieldMap ==> k == inputName
  {
    if inputName in FieldMap then FieldMap[inputName] else inputName
  }

  /** The error record after an edit of input `inputName`: the mapped field's
      error is cleared when one is set; nothing else changes. Names outside
      the map clear nothing. */
  function ClearedErrors(errors: map<string, string>, inputName: string): (r: map<string, string>)
    ensures r.Keys <= errors.Keys
    ensures forall f | f in r :: r[f] == errors[f]
    ensures inputName in FieldMap && FieldMap[inputName] in errors && errors[FieldMap[inputName]] != "" ==>
              FieldMap[inputName] !in r
    ensures forall f | f in errors && (inputName !in FieldMap || f != FieldMap[inputName]) :: f in r
    ensures inputName !in FieldMap ==> r == errors
    ensures inputName in FieldMap && FieldMap[inputName] in errors && errors[FieldMap[inputName]] == "" ==>
              r == errors
  {
    if inputName in FieldMap && FieldMap[inputName] in errors && errors[FieldMap[inputName]] != "" then
      errors - {FieldMap[inputName]}
    else errors
  }

  datatype Status = Idle | Success | Error

  /** What the relay's `sendForm` does: resolve with a reply text, or throw. */
  datatype SendOutcome = Replied(text: string) | Threw

  /** The three relay settings read from the environment; unset is None. */
  datatype EmailConfig = EmailConfig(serviceId: Option<string>, templateId: Option<string>, publicKey: Option<string>)
  {
    /** `serviceId && templateId && publicKey`: all set and non-empty. */
    predicate Complete()
    {
      serviceId.GetOr("") != "" && templateId.GetOr("") != "" && publicKey.GetOr("") != ""
    }
  }

  const EmptyForm: map<string, string> := map["name" := "", "email" := "", "message" := ""]

  class ContactForm {
    var formData: map<string, string>
    var errors: map<string, string>
    var isSubmitting: bool
    var status: Status

    ghost predicate Valid()
      reads this
    {
      "name" in formData && "email" in formData && "message" in formData &&
      errors.Keys <= {"name", "email", "message"}
    }

    constructor ()
      ensures Valid()
      ensures formData == EmptyForm && errors == map[] && !isSubmitting && status == Idle
    {
      formData := EmptyForm;
      errors := map[];
      isSubmitting := false;
      status := Idle;
    }

    /** `validateForm`: replace the whole error record and report whether
        it is empty. */
    method ValidateForm() returns (ok: bool)
      requires Valid()
      modifies this`errors
      ensures Valid()
      ensures errors == ValidationErrors(formData["name"], formData["email"], formData["message"])
      ensures ok <==> errors == map[]
    {
      var name, email, message := formData["name"], formData["email"], formData["message"];
      var newErrors := CheckName(map[], name);
      newErrors := CheckEmail(newErrors, email);
      newErrors := CheckMessage(newErrors, message);
      errors := newErrors;
      ok := |newErrors| == 0;
      EmptyIffNoKeys(newErrors);
    }

    /** `handleChange`: store the value under the mapped field name, then
        clear that field's error if one is shown. */
    method HandleChange(inputName: string, value: string)
      requires Valid()
      modifies this`formData, this`errors
      ensures Valid()
      ensures formData == old(formData)[FieldKey(inputName) := value]
      ensures errors == ClearedErrors(old(errors), inputName)
    {
      var key := if inputName in FieldMap then FieldMap[inputName] else inputName;
      formData := formData[key := value];
      if inputName in FieldMap && FieldMap[inputName] in errors && errors[FieldMap[inputName]] != "" {
        errors := errors - {FieldMap[inputName]};
      }
    }

    /** The send begins: the button is disabled and the status reset. */
    method BeginSend()
      modifies this`isSubmitting, this`status
      ensures isSubmitting && status == Idle
    {
      isSubmitting := true;
      status := Idle;
    }

    /** The relay answered (or threw) while `isSubmitting` held: only the
        reply text "OK" counts as success, which also empties the form. */
    method CompleteSend(outcome: SendOutcome)
      requires Valid() && isSubmitting
      modifies this`isSubmitting, this`status, this`formData
      ensures Valid() && !isSubmitting
      ensures outcome == Replied("OK") ==> status == Success && formData == EmptyForm
      ensures outcome != Replied("OK") ==> status == Error && formData == old(formData)
    {
      if outcome.Replied? && outcome.text == "OK" {
        status := Success;
        formData := EmptyForm;
      } else {
        status := Error;
      }
      isSubmitting := false;
    }

    /** The part of `handleSubmit` after validation passed: without the
        relay settings the status becomes Error and nothing is sent. */
    method SendIfConfigured(config: EmailConfig, outcome: SendOutcome) returns (sent: bool)
      requires Valid()
      modifies this`isSubmitting, this`status, this`formData
      ensures Valid()
      ensures sent <==> config.Complete()
      ensures !sent ==> status == Error && isSubmitting == old(isSubmitting) && formData == old(formData)
      ensures sent ==> !isSubmitting
      ensures sent && outcome == Replied("OK") ==> status == Success && formData == EmptyForm
      ensures sent && outcome != Replied("OK") ==> status == Error && formData == old(formData)
    {
      if !config.Complete() {
        status := Error;
        return false;
      }
      BeginSend();
      CompleteSend(outcome);
      sent := true;
    }

    /** `handleSubmit`: validate; an invalid form stops before any status
        change; otherwise send when the relay is configured. */
    method HandleSubmit(config: EmailConfig, outcome: SendOutcome) returns (sent: bool, ghost passed: bool)
      requires Valid()
      modifies this
      ensures Valid()
      ensures errors == ValidationErrors(old(formData)["name"], old(formData)["email"], old(formData)["message"])
      ensures passed <==> errors == map[]
      ensures !passed ==>
                !sent && status == old(status) && isSubmitting == old(isSubmitting) && formData == old(formData)
      ensures passed && !config.Complete() ==>
                !sent && status == Error && isSubmitting == old(isSubmitting) && formData == old(formData)
      ensures passed && config.Complete() ==> sent && !isSubmitting
      ensures sent && outcome == Replied("OK") ==> status == Success && formData == EmptyForm
      ensures sent && outcome != Replied("OK") ==> status == Error && formData == old(formData)
    {
      var ok := ValidateForm();
      passed := ok;
      sent := false;
      if ok {
        sent := SendIfConfigured(config, outcome);
      }
    }
  }

  /** Only inputs whose name is in the map can clear an error. */
  lemma UnmappedEditKeepsErrors(errors: map<string, string>, inputName: string)
    requires inputName !in FieldMap
    ensures ClearedErrors(errors, inputName) == errors
  {
  }

  /** A form that passes validation holds a name, an e-mail address with a
      single `@`, and a message of at least ten characters. */
  lemma ValidFormShape(name: string, email: string, message: string)
    requires ValidationErrors(name, email, message) == map[]
    ensures |name| > 0 && |message| >= 10
    ensures exists a | 0 < a < |email| :: email[a] == '@' && OnlyAtSignAt(email, a)
  {
    ValidIffRulesPass(name, email, message);
  }
}
