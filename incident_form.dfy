/** The new-incident form (src/components/new-incident-form.tsx): its field
    state, the presence check `validate` and the submit handler. */
module IncidentForm {
  import opened Types

  /** The code points `String.prototype.trim` strips: ECMAScript's WhiteSpace
      (tab, vertical tab, form feed, space, no-break space, zero width no-break
      space and the Unicode space separators) and LineTerminator (line feed,
      carriage return, line and paragraph separators). */
  predicate IsWhitespace(c: char)
  {
    || c == '\t' || c == '\n' || c == '\U{000B}' || c == '\U{000C}' || c == '\r'
    || c == ' ' || c == '\U{00A0}' || c == '\U{1680}'
    || ('\U{2000}' <= c <= '\U{200A}')
    || c == '\U{2028}' || c == '\U{2029}' || c == '\U{202F}' || c == '\U{205F}'
    || c == '\U{3000}' || c == '\U{FEFF}'
  }

  /** Every character of `s` is whitespace (so the empty string is blank). */
  ghost predicate Blank(s: string)
  {
    forall i :: 0 <= i < |s| ==> IsWhitespace(s[i])
  }

  /** `s` with its leading whitespace removed. */
  function TrimStart(s: string): string
  {
    if s != [] && IsWhitespace(s[0]) then TrimStart(s[1..]) else s
  }

  /** `s` with its trailing whitespace removed. */
  function TrimEnd(s: string): string
  {
    if s != [] && IsWhitespace(s[|s| - 1]) then TrimEnd(s[..|s| - 1]) else s
  }

  /** `TrimStart` keeps a suffix of `s` that is empty or starts with a
      non-whitespace character, and what it drops is whitespace. */
  lemma {:induction false} TrimStartSpec(s: string)
    ensures |TrimStart(s)| <= |s| && TrimStart(s) == s[|s| - |TrimStart(s)|..]
    ensures TrimStart(s) == [] || !IsWhitespace(TrimStart(s)[0])
    ensures forall i :: 0 <= i < |s| - |TrimStart(s)| ==> IsWhitespace(s[i])
  {
    if s != [] && IsWhitespace(s[0]) {
      TrimStartSpec(s[1..]);
      forall i | 0 < i < |s| - |TrimStart(s)|
        ensures IsWhitespace(s[i])
      {
        assert s[i] == s[1..][i - 1];
      }
    }
  }

  /** `TrimEnd` keeps a prefix of `s` that is empty or ends with a
      non-whitespace character, and what it drops is whitespace. */
  lemma {:induction false} TrimEndSpec(s: string)
    ensures |TrimEnd(s)| <= |s| && TrimEnd(s) == s[..|TrimEnd(s)|]
    ensures TrimEnd(s) == [] || !IsWhitespace(TrimEnd(s)[|TrimEnd(s)| - 1])
    ensures forall i :: |TrimEnd(s)| <= i < |s| ==> IsWhitespace(s[i])
  {
    if s != [] && IsWhitespace(s[|s| - 1]) {
      TrimEndSpec(s[..|s| - 1]);
      forall i | |TrimEnd(s)| <= i < |s| - 1
        ensures IsWhitespace(s[i])
      {
        assert s[i] == s[..|s| - 1][i];
      }
    }
  }

  /** `s.trim()`. */
  function Trim(s: string): string
  {
    TrimEnd(TrimStart(s))
  }

  /** `!s.trim()` holds exactly for the blank strings. */
  lemma TrimEmptyIffBlank(s: string)
    ensures Trim(s) == [] <==> Blank(s)
  {
    var t := TrimStart(s);
    TrimStartSpec(s);
    TrimEndSpec(t);
    if t != [] {
      assert t[0] == s[|s| - |t|];
    }
  }

  /** Trimming keeps the non-blank middle: a non-blank string trims to a
      non-empty slice of it that starts and ends with non-whitespace. */
  lemma TrimKeepsContent(s: string)
    requires !Blank(s)
    ensures exists a, b :: 0 <= a < b <= |s| && Trim(s) == s[a..b]
    ensures !IsWhitespace(Trim(s)[0]) && !IsWhitespace(Trim(s)[|Trim(s)| - 1])
  {
    TrimEmptyIffBlank(s);
    var t := TrimStart(s);
    TrimStartSpec(s);
    TrimEndSpec(t);
    var a := |s| - |t|;
    var b := a + |Trim(s)|;
    assert Trim(s) == t[..|Trim(s)|];
    assert Trim(s) == s[a..b];
  }

  const TitleRequired := "Title is required"
  const DescriptionRequired := "Description is required"
  const SeverityRequired := "Severity is required"

  /** The `errors` record: a key is present only for a field that failed. */
  datatype FormErrors = FormErrors(
    title: Option<string>,
    description: Option<string>,
    severity: Option<string>)

  /** `Object.keys(newErrors).length`. */
  function KeyCount(e: FormErrors): (n: nat)
    ensures n <= 3
    ensures n == 0 <==> e.title == None && e.description == None && e.severity == None
  {
    (if e.title.Some? then 1 else 0)
    + (if e.description.Some? then 1 else 0)
    + (if e.severity.Some? then 1 else 0)
  }

  /** JavaScript truthiness of a severity value: a string is truthy when non-empty. */
  predicate SeveritySet(s: Severity)
  {
    |SeverityName(s)| > 0
  }

  /** The `newErrors` record that `validate` builds (new-incident-form.tsx:37-55). */
  function Validate(title: string, description: string, severity: Severity): FormErrors
  {
    FormErrors(
      if Trim(title) == [] then Some(TitleRequired) else None,
      if Trim(description) == [] then Some(DescriptionRequired) else None,
      if !SeveritySet(severity) then Some(SeverityRequired) else None)
  }

  /** `validate()`'s verdict (new-incident-form.tsx:57). */
  predicate Passes(e: FormErrors)
  {
    KeyCount(e) == 0
  }

  /** Validation passes exactly when title and description each hold a
      non-whitespace character. */
  lemma ValidateAcceptsIff(title: string, description: string, severity: Severity)
    ensures Passes(Validate(title, description, severity)) <==> !Blank(title) && !Blank(description)
  {
    TrimEmptyIffBlank(title);
    TrimEmptyIffBlank(description);
  }

  /** Each field's error is exactly its message when the field is blank and is
      absent otherwise; the severity error never fires. */
  lemma ValidateErrors(title: string, description: string, severity: Severity)
    ensures Validate(title, description, severity).title
         == if Blank(title) then Some(TitleRequired) else None
    ensures Validate(title, description, severity).description
         == if Blank(description) then Some(DescriptionRequired) else None
    ensures Validate(title, description, severity).severity == None
  {
    TrimEmptyIffBlank(title);
    TrimEmptyIffBlank(description);
  }

  /** What `onSubmit` receives: the fields as typed, untrimmed. */
  datatype Draft = Draft(title: string, description: string, severity: Severity)

  class NewIncidentForm {
    var title: string
    var description: string
    var severity: Severity
    var isSubmitting: bool
    var errors: FormErrors

    /** Between submits nothing is in flight: `handleSubmit` clears
        `isSubmitting` in its `finally` before it settles. */
    predicate Valid()
      reads this
    {
      !isSubmitting
    }

    /** The default field state (new-incident-form.tsx:27-35). */
    constructor ()
      ensures Valid()
      ensures title == "" && description == "" && severity == Medium
      ensures !isSubmitting && errors == FormErrors(None, None, None)
    {
      title := "";
      description := "";
      severity := Medium;
      isSubmitting := false;
      errors := FormErrors(None, None, None);
    }

    /** The title input's `onChange` (new-incident-form.tsx:106). */
    method SetTitle(value: string)
      modifies this`title
      ensures title == value
    {
      title := value;
    }

    /** The description textarea's `onChange` (new-incident-form.tsx:126). */
    method SetDescription(value: string)
      modifies this`description
      ensures description == value
    {
      description := value;
    }

    /** The severity select's `onValueChange` (new-incident-form.tsx:145). */
    method SetSeverity(value: Severity)
      modifies this`severity
      ensures severity == value
    {
      severity := value;
    }

    /** `handleSubmit` (new-incident-form.tsx:60-78). `onSubmitThrows` says how the
        awaited `onSubmit` settles; `sent` is what it was called with, if it was
        called, and `rethrown` says whether `handleSubmit` itself rejects. */
    method HandleSubmit(onSubmitThrows: bool) returns (sent: Option<Draft>, rethrown: bool)
      requires Valid()
      modifies this`isSubmitting, this`errors
      ensures Valid()
      ensures errors == Validate(title, description, severity)
      ensures sent.Some? <==> Passes(errors)
      ensures sent.Some? ==> sent.value == Draft(title, description, severity)
      ensures rethrown <==> sent.Some? && onSubmitThrows
      ensures !isSubmitting
    {
      errors := Validate(title, description, severity);
      if !Passes(errors) {
        return None, false;
      }
      isSubmitting := true;
      sent := Some(Draft(title, description, severity));
      rethrown := onSubmitThrows;
      isSubmitting := false;
    }
  }
}
