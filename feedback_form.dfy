/**
 * The submission form: the draft it edits, the validator that maps a draft to
 * per-field error messages, and the submit handler that turns a valid draft
 * into a new feedback record.
 */
module Form {
  import opened Options
  import opened FeedbackTypes
  import opened Text

  /** The form's `formData`: what the user has typed so far. A rating of 0 means "unset". */
  datatype Draft = Draft(
    name: string,
    email: string,
    category: Category,
    subject: string,
    message: string,
    rating: int)

  /** The draft the form starts from and returns to after a submission. */
  const EmptyDraft := Draft("", "", General, "", "", 0)

  /** The keys of the error map. The category has none: it cannot be wrong. */
  datatype FormField = NameField | EmailField | SubjectField | MessageField | RatingField

  /**
   * The texts the error map holds. `Cleared` is the empty text the rating
   * handler writes over a pending rating message: the key stays, but an empty
   * text is falsy and nothing is shown.
   */
  datatype ErrorMessage =
    | NameRequired | EmailRequired | EmailInvalid | SubjectRequired
    | MessageRequired | MessageTooShort | RatingRequired | Cleared
  {
    function Text(): string {
      match this
      case NameRequired => "Name is required"
      case EmailRequired => "Email is required"
      case EmailInvalid => "Please enter a valid email address"
      case SubjectRequired => "Subject is required"
      case MessageRequired => "Message is required"
      case MessageTooShort => "Message must be at least 10 characters long"
      case RatingRequired => "Please provide a rating"
      case Cleared => ""
    }
  }

  /** The shortest message the form accepts, counted in UTF-16 code units on the untrimmed text. */
  const MinMessageLength := 10

  // ----- The email pattern ^[^\s@]+@[^\s@]+\.[^\s@]+$ -----

  /** The character class `[^\s@]`. */
  predicate PatternChar(c: char) {
    !IsWhitespace(c) && c != '@'
  }

  /** The repetition `[^\s@]+`. */
  predicate IsSegment(s: string) {
    |s| > 0 && forall i :: 0 <= i < |s| ==> PatternChar(s[i])
  }

  /**
   * What the regular expression accepts, read off its shape: three non-empty
   * runs of `[^\s@]`, the first two separated by `@`, the last two by `.`.
   */
  ghost predicate MatchesEmailPattern(s: string) {
    exists i, k :: 0 <= i < k < |s| && s[i] == '@' && s[k] == '.'
      && IsSegment(s[..i]) && IsSegment(s[i + 1..k]) && IsSegment(s[k + 1..])
  }

  /** The position of the first `c` in `s`, or `|s|` when there is none. */
  function IndexOf(s: string, c: char): (i: nat)
    ensures i <= |s|
    ensures i < |s| ==> s[i] == c
    ensures forall j :: 0 <= j < i ==> s[j] != c
  {
    if s == [] then 0 else if s[0] == c then 0 else 1 + IndexOf(s[1..], c)
  }

  /**
   * The email test: the first `@` has at least one character before it, every
   * other character is neither white space nor `@`, and a `.` lies strictly
   * inside the part after the `@` (neither its first nor its last character).
   */
  predicate IsValidEmail(s: string) {
    var at := IndexOf(s, '@');
    && 0 < at < |s|
    && (forall j :: 0 <= j < |s| && j != at ==> PatternChar(s[j]))
    && exists k :: at + 1 < k < |s| - 1 && s[k] == '.'
  }

  /** A slice is a run of `[^\s@]` exactly when it is non-empty and every character in its range qualifies. */
  lemma SegmentRange(s: string, lo: int, hi: int)
    requires 0 <= lo <= hi <= |s|
    ensures IsSegment(s[lo..hi]) <==> lo < hi && forall j :: lo <= j < hi ==> PatternChar(s[j])
  {
    if forall j :: lo <= j < hi ==> PatternChar(s[j]) {
      forall m | 0 <= m < hi - lo ensures PatternChar(s[lo..hi][m]) {
        assert s[lo..hi][m] == s[lo + m];
      }
    }
    if IsSegment(s[lo..hi]) {
      forall j | lo <= j < hi ensures PatternChar(s[j]) {
        assert s[j] == s[lo..hi][j - lo];
      }
    }
  }

  lemma CheckImpliesPattern(s: string)
    requires IsValidEmail(s)
    ensures MatchesEmailPattern(s)
  {
    var at := IndexOf(s, '@');
    var k :| at + 1 < k < |s| - 1 && s[k] == '.';
    SegmentRange(s, 0, at);
    SegmentRange(s, at + 1, k);
    SegmentRange(s, k + 1, |s|);
    assert s[..at] == s[0..at];
    assert s[k + 1..] == s[k + 1..|s|];
    assert 0 <= at < k < |s| && s[at] == '@' && s[k] == '.'
      && IsSegment(s[..at]) && IsSegment(s[at + 1..k]) && IsSegment(s[k + 1..]);
  }

  lemma PatternImpliesCheck(s: string)
    requires MatchesEmailPattern(s)
    ensures IsValidEmail(s)
  {
    var i, k :| 0 <= i < k < |s| && s[i] == '@' && s[k] == '.'
      && IsSegment(s[..i]) && IsSegment(s[i + 1..k]) && IsSegment(s[k + 1..]);
    assert s[..i] == s[0..i];
    assert s[k + 1..] == s[k + 1..|s|];
    SegmentRange(s, 0, i);
    SegmentRange(s, i + 1, k);
    SegmentRange(s, k + 1, |s|);
    assert IndexOf(s, '@') == i;
    forall j | 0 <= j < |s| && j != i ensures PatternChar(s[j]) {
      if j == k {
        assert s[j] == '.';
      }
    }
  }

  /** The split test accepts exactly the strings the regular expression matches. */
  lemma EmailCheckMatchesPattern(s: string)
    ensures IsValidEmail(s) <==> MatchesEmailPattern(s)
  {
    if IsValidEmail(s) {
      CheckImpliesPattern(s);
    }
    if MatchesEmailPattern(s) {
      PatternImpliesCheck(s);
    }
  }

  /** "a@b.com" is accepted. */
  lemma ShortAddressAccepted()
    ensures IsValidEmail("a@b.com")
  {
    assert IndexOf("a@b.com", '@') == 1;
    assert "a@b.com"[3] == '.';
  }

  /** "abc" (no `@`) and "a@b" (no dot in the domain) are rejected. */
  lemma MalformedAddressesRejected()
    ensures !IsValidEmail("abc")
    ensures !IsValidEmail("a@b")
  {
    assert IndexOf("abc", '@') == 3;
    assert IndexOf("a@b", '@') == 1;
  }

  /** The pattern is tested on the untrimmed text, so a leading space is rejected. */
  lemma PaddedAddressRejected()
    ensures !IsValidEmail(" a@b.com")
  {
    assert IndexOf(" a@b.com", '@') == 2;
    assert !PatternChar(" a@b.com"[0]);
  }

  // ----- validateForm -----

  /** The message, if any, that the validator records for one field. */
  function FieldError(d: Draft, f: FormField): Option<ErrorMessage> {
    match f
    case NameField => if IsBlank(d.name) then Some(NameRequired) else None
    case EmailField =>
      if IsBlank(d.email) then Some(EmailRequired)
      else if !IsValidEmail(d.email) then Some(EmailInvalid)
      else None
    case SubjectField => if IsBlank(d.subject) then Some(SubjectRequired) else None
    case MessageField =>
      if IsBlank(d.message) then Some(MessageRequired)
      else if Utf16Length(d.message) < MinMessageLength then Some(MessageTooShort)
      else None
    case RatingField => if d.rating == 0 then Some(RatingRequired) else None
  }

  const AllFields: set<FormField> := {NameField, EmailField, SubjectField, MessageField, RatingField}

  /** Records one check's outcome in an error map. */
  function Record(errors: map<FormField, ErrorMessage>, f: FormField, outcome: Option<ErrorMessage>): map<FormField, ErrorMessage> {
    if outcome.Some? then errors[f := outcome.value] else errors
  }

  /** The error map: the outcome of every check, recorded in turn. */
  function FormErrors(d: Draft): map<FormField, ErrorMessage> {
    var afterName := Record(map[], NameField, FieldError(d, NameField));
    var afterEmail := Record(afterName, EmailField, FieldError(d, EmailField));
    var afterSubject := Record(afterEmail, SubjectField, FieldError(d, SubjectField));
    var afterMessage := Record(afterSubject, MessageField, FieldError(d, MessageField));
    Record(afterMessage, RatingField, FieldError(d, RatingField))
  }

  /** A draft every check accepts, stated field by field without the error map. */
  ghost predicate ValidDraft(d: Draft) {
    && !AllWhitespace(d.name)
    && MatchesEmailPattern(d.email)
    && !AllWhitespace(d.subject)
    && !AllWhitespace(d.message) && Utf16Length(d.message) >= MinMessageLength
    && d.rating != 0
  }

  /** A field is a key of the error map exactly when its check yields a message, and maps to it. */
  lemma FormErrorsAt(d: Draft, f: FormField)
    ensures f in FormErrors(d) <==> FieldError(d, f).Some?
    ensures f in FormErrors(d) ==> FormErrors(d)[f] == FieldError(d, f).value
  {
    match f {
      case NameField =>
      case EmailField =>
      case SubjectField =>
      case MessageField =>
      case RatingField =>
    }
  }

  /**
   * The rule each field is held to, in terms of its characters: a name or
   * subject fails exactly when it is all white space; a blank email or message
   * is "required"; an email passes exactly when the pattern matches, and a
   * non-blank one that does not match is "invalid"; a non-blank message is
   * "too short" exactly when its untrimmed length in UTF-16 code
   * units is under ten; the rating
   * fails exactly when it is 0.
   */
  lemma {:induction false} FieldRules(d: Draft)
    ensures NameField in FormErrors(d) <==> AllWhitespace(d.name)
    ensures SubjectField in FormErrors(d) <==> AllWhitespace(d.subject)
    ensures EmailField !in FormErrors(d) <==> MatchesEmailPattern(d.email)
    ensures AllWhitespace(d.email) ==>
      EmailField in FormErrors(d) && FormErrors(d)[EmailField] == EmailRequired
    ensures !AllWhitespace(d.email) && EmailField in FormErrors(d) ==>
      FormErrors(d)[EmailField] == EmailInvalid
    ensures AllWhitespace(d.message) ==>
      MessageField in FormErrors(d) && FormErrors(d)[MessageField] == MessageRequired
    ensures !AllWhitespace(d.message) ==>
      (MessageField in FormErrors(d) <==> Utf16Length(d.message) < MinMessageLength)
    ensures !AllWhitespace(d.message) && MessageField in FormErrors(d) ==>
      FormErrors(d)[MessageField] == MessageTooShort
    ensures RatingField in FormErrors(d) <==> d.rating == 0
  {
    FormErrorsAt(d, NameField);
    FormErrorsAt(d, EmailField);
    FormErrorsAt(d, SubjectField);
    FormErrorsAt(d, MessageField);
    FormErrorsAt(d, RatingField);
    BlankIffAllWhitespace(d.name);
    BlankIffAllWhitespace(d.email);
    BlankIffAllWhitespace(d.subject);
    BlankIffAllWhitespace(d.message);
    EmailCheckMatchesPattern(d.email);
    if IsValidEmail(d.email) {
      assert !IsWhitespace(d.email[IndexOf(d.email, '@')]);
    }
  }

  /** The validator accepts a draft (its error map has no keys) exactly when every field is acceptable. */
  lemma {:induction false} NoErrorsIffValid(d: Draft)
    ensures FormErrors(d) == map[] <==> ValidDraft(d)
  {
    FieldRules(d);
    if FormErrors(d) != map[] {
      var f :| f in FormErrors(d);
      match f {
        case NameField =>
        case EmailField =>
        case SubjectField =>
        case MessageField =>
        case RatingField =>
      }
    }
  }

  /** The checks do not short-circuit: the starting draft fails all five at once. */
  lemma EmptyDraftFailsEveryCheck()
    ensures FormErrors(EmptyDraft).Keys == AllFields
  {
    assert IsBlank("");
  }

  /** The padded message of `PaddedMessagePasses` trims to a five-letter word. */
  lemma PaddedMessageTrimsToWord()
    ensures Trim("  short   ") == "short"
  {
    assert "  short   "[1..] == " short   ";
    assert " short   "[1..] == "short   ";
    assert TrimStart("  short   ") == "short   ";
    assert TrimEnd("short") == "short";
    assert "short "[..5] == "short";
    assert TrimEnd("short ") == "short";
    assert "short  "[..6] == "short ";
    assert TrimEnd("short  ") == "short";
    assert "short   "[..7] == "short  ";
    assert TrimEnd("short   ") == "short";
  }

  /** Padding counts toward the ten characters: a five-letter word padded to ten passes. */
  lemma PaddedMessagePasses()
    ensures FieldError(Draft("n", "a@b.co", General, "s", "  short   ", 1), MessageField) == None
  {
    var m := "  short   ";
    assert Utf16Length(m) == 10 by { Utf16LengthOfBmp(m); }
    assert !IsBlank(m) by {
      BlankIffAllWhitespace(m);
      assert !IsWhitespace(m[2]);
    }
  }


  /** Length counts UTF-16 code units: five emoji are ten units and pass, although they are five characters. */
  lemma EmojiMessagePasses()
    ensures |"\U{1F44D}\U{1F44D}\U{1F44D}\U{1F44D}\U{1F44D}"| == 5
    ensures FieldError(Draft("n", "a@b.co", General, "s", "\U{1F44D}\U{1F44D}\U{1F44D}\U{1F44D}\U{1F44D}", 1), MessageField) == None
  {
    var m := "\U{1F44D}\U{1F44D}\U{1F44D}\U{1F44D}\U{1F44D}";
    assert Utf16Length(m) == 10 by { Utf16LengthOfAstral(m); }
    assert !IsBlank(m) by {
      BlankIffAllWhitespace(m);
      assert !IsWhitespace(m[0]);
    }
  }

  /** The record built from a submitted draft, with status `new`. */
  function NewRecord(d: Draft, id: string, now: int): Feedback {
    Feedback(id, d.name, d.email, d.category, d.subject, d.message, d.rating, now, New)
  }

  /** The form component's state: the draft, the error map and the success banner. */
  class FeedbackForm {
    var formData: Draft
    var errors: map<FormField, ErrorMessage>
    var showSuccess: bool

    /** The star buttons only ever set one to five stars; 0 is the unset rating. */
    ghost predicate Valid()
      reads this
    {
      0 <= formData.rating <= 5
    }

    constructor ()
      ensures Valid()
      ensures formData == EmptyDraft && errors == map[] && !showSuccess
    {
      formData := EmptyDraft;
      errors := map[];
      showSuccess := false;
    }

    /** `validateForm`: fills the error map check by check, stores it, and reports whether it is empty. */
    method ValidateForm() returns (ok: bool)
      modifies this`errors
      ensures errors == FormErrors(formData)
      ensures ok <==> errors == map[]
    {
      var d := formData;
      var newErrors: map<FormField, ErrorMessage> := map[];
      ghost var before := newErrors;
      if IsBlank(d.name) {
        newErrors := newErrors[NameField := NameRequired];
      }
      assert newErrors == Record(before, NameField, FieldError(d, NameField));
      before := newErrors;
      if IsBlank(d.email) {
        newErrors := newErrors[EmailField := EmailRequired];
      } else if !IsValidEmail(d.email) {
        newErrors := newErrors[EmailField := EmailInvalid];
      }
      assert newErrors == Record(before, EmailField, FieldError(d, EmailField));
      before := newErrors;
      if IsBlank(d.subject) {
        newErrors := newErrors[SubjectField := SubjectRequired];
      }
      assert newErrors == Record(before, SubjectField, FieldError(d, SubjectField));
      before := newErrors;
      if IsBlank(d.message) {
        newErrors := newErrors[MessageField := MessageRequired];
      } else if Utf16Length(d.message) < MinMessageLength {
        newErrors := newErrors[MessageField := MessageTooShort];
      }
      assert newErrors == Record(before, MessageField, FieldError(d, MessageField));
      before := newErrors;
      if d.rating == 0 {
        newErrors := newErrors[RatingField := RatingRequired];
      }
      assert newErrors == Record(before, RatingField, FieldError(d, RatingField));
      errors := newErrors;
      ok := newErrors == map[];
    }

    /**
     * `handleSubmit`: an invalid draft only updates the error map; a valid one
     * yields the new record (handed to `onSubmit`), resets the draft, clears the
     * errors and raises the success banner.
     */
    method HandleSubmit(id: string, now: int) returns (submitted: Option<Feedback>)
      requires Valid()
      modifies this
      ensures Valid()
      ensures submitted.Some? <==> ValidDraft(old(formData))
      ensures submitted.None? ==>
        formData == old(formData) && errors == FormErrors(old(formData)) && showSuccess == old(showSuccess)
      ensures submitted.Some? ==>
        && submitted.value.id == id
        && submitted.value.name == old(formData).name
        && submitted.value.email == old(formData).email
        && submitted.value.category == old(formData).category
        && submitted.value.subject == old(formData).subject
        && submitted.value.message == old(formData).message
        && submitted.value.rating == old(formData).rating
        && submitted.value.timestamp == now
        && submitted.value.status == New
      ensures submitted.Some? ==> 1 <= submitted.value.rating <= 5
      ensures submitted.Some? ==> formData == EmptyDraft && errors == map[] && showSuccess
    {
      var ok := ValidateForm();
      NoErrorsIffValid(formData);
      if !ok {
        return None;
      }
      var record := NewRecord(formData, id, now);
      submitted := Some(record);
      formData := EmptyDraft;
      errors := map[];
      showSuccess := true;
    }

    /**
     * `handleRatingClick`: sets the rating and nothing else in the draft, and
     * blanks a pending rating message (the key stays, with an empty text).
     */
    method HandleRatingClick(rating: int)
      requires Valid() && 1 <= rating <= 5
      modifies this`formData, this`errors
      ensures Valid()
      ensures formData == old(formData).(rating := rating)
      ensures errors == if RatingField in old(errors) && old(errors)[RatingField].Text() != ""
                        then old(errors)[RatingField := Cleared]
                        else old(errors)
    {
      formData := formData.(rating := rating);
      if RatingField in errors && errors[RatingField].Text() != "" {
        errors := errors[RatingField := Cleared];
      }
    }

    /** The name input's change handler. */
    method HandleNameChange(value: string)
      modifies this`formData
      ensures formData == old(formData).(name := value)
    {
      formData := formData.(name := value);
    }

    /** The email input's change handler. */
    method HandleEmailChange(value: string)
      modifies this`formData
      ensures formData == old(formData).(email := value)
    {
      formData := formData.(email := value);
    }

    /** The category select's change handler; the select offers only the four categories. */
    method HandleCategoryChange(value: Category)
      modifies this`formData
      ensures formData == old(formData).(category := value)
    {
      formData := formData.(category := value);
    }

    /** The subject input's change handler. */
    method HandleSubjectChange(value: string)
      modifies this`formData
      ensures formData == old(formData).(subject := value)
    {
      formData := formData.(subject := value);
    }

    /** The message textarea's change handler. */
    method HandleMessageChange(value: string)
      modifies this`formData
      ensures formData == old(formData).(message := value)
    {
      formData := formData.(message := value);
    }
  }
}
