/** The form-submission schema: the field rules `insertFormSubmissionSchema`
    checks, and what its `safeParse` returns, the parsed submission or the list
    of issues, one per failed check, in the order the schema runs them.

    The rules are stated twice: as acceptance predicates (what a valid value
    is) and as the issue lists a parse produces; `SafeParse` proves the two
    agree, which makes validation all-or-nothing with a per-field error for
    every violated rule. */
module Schema {
  import opened Wrappers
  import opened Json
  import opened JsString

  const FullNameMin := 2
  const FullNameMax := 50
  const EmailMax := 100
  const PhoneMax := 20
  const MessageMin := 10
  const MessageMax := 500

  /** The allowed security-preference tags, `z.enum([...])`. */
  predicate IsPreference(s: string) {
    s == "newsletter" || s == "alerts" || s == "2fa"
  }

  /** The five keys the schema picks, in the order it checks them. */
  datatype Field = FullName | Email | Phone | Message | SecurityPreferences

  datatype IssueCode =
    | InvalidType          // not a string (or not an array), including a missing required key
    | TooSmall(minimum: nat)
    | TooBig(maximum: nat)
    | InvalidRegex         // the field's regular expression does not match
    | InvalidEmail         // the email-syntax check failed
    | InvalidEnumValue     // an array element that is a string but not an allowed tag
    | InvalidUnion         // no branch of the phone union accepted a non-string value

  /** One failed check. `index` is the array position for an element of
      `securityPreferences`, and `None` for a whole field. */
  datatype Issue = Issue(field: Field, index: Option<nat>, code: IssueCode)

  /** The request body restricted to the keys the schema picks; other keys
      are stripped by the parse and play no part. */
  datatype Input = Input(
    fullName: Value,
    email: Value,
    phone: Value,
    message: Value,
    securityPreferences: Value)

  /** `InsertFormSubmission`: what a successful parse returns. An absent
      optional key stays absent (`None`). */
  datatype InsertFormSubmission = InsertFormSubmission(
    fullName: string,
    email: string,
    phone: Option<string>,
    message: string,
    securityPreferences: Option<seq<string>>)

  // ---------------------------------------------------------------------
  // The rules, as acceptance predicates
  // ---------------------------------------------------------------------

  /** `/^[a-zA-Z\s]+$/`: one or more ASCII letters or white space. */
  predicate NamePattern(s: string) {
    |s| > 0 && forall i :: 0 <= i < |s| ==> IsAsciiLetter(s[i]) || IsWhiteSpace(s[i])
  }

  /** `/^[\+]?[1-9][\d]{0,15}$/`: an optional `+`, a digit 1-9, then at most
      fifteen digits. */
  predicate PhonePattern(s: string) {
    var d := if |s| > 0 && s[0] == '+' then s[1..] else s;
    1 <= |d| <= 16 && '1' <= d[0] <= '9' && forall i :: 1 <= i < |d| ==> IsDigit(d[i])
  }

  predicate FullNameValid(v: Value) {
    v.Str? && FullNameMin <= |v.s| <= FullNameMax && NamePattern(v.s)
  }

  predicate EmailValid(v: Value, isEmail: string -> bool) {
    v.Str? && isEmail(v.s) && |v.s| <= EmailMax
  }

  /** Phone is optional: absent, the empty string, or a pattern match of at
      most twenty characters. */
  predicate PhoneValid(v: Value) {
    v.Undefined? || (v.Str? && (v.s == "" || (PhonePattern(v.s) && |v.s| <= PhoneMax)))
  }

  predicate MessageValid(v: Value) {
    v.Str? && MessageMin <= |v.s| <= MessageMax
  }

  /** Preferences are optional; when given, an array whose every element is
      an allowed tag. Repeated tags are allowed. */
  predicate PreferencesValid(v: Value) {
    v.Undefined?
    || (v.Arr? && forall i :: 0 <= i < |v.items| ==> v.items[i].Str? && IsPreference(v.items[i].s))
  }

  function FieldValue(input: Input, f: Field): Value {
    match f
    case FullName => input.fullName
    case Email => input.email
    case Phone => input.phone
    case Message => input.message
    case SecurityPreferences => input.securityPreferences
  }

  predicate FieldValid(input: Input, f: Field, isEmail: string -> bool) {
    var v := FieldValue(input, f);
    match f
    case FullName => FullNameValid(v)
    case Email => EmailValid(v, isEmail)
    case Phone => PhoneValid(v)
    case Message => MessageValid(v)
    case SecurityPreferences => PreferencesValid(v)
  }

  predicate Accepts(input: Input, isEmail: string -> bool) {
    && FullNameValid(input.fullName)
    && EmailValid(input.email, isEmail)
    && PhoneValid(input.phone)
    && MessageValid(input.message)
    && PreferencesValid(input.securityPreferences)
  }

  // ---------------------------------------------------------------------
  // The parse, as the issues each field's checks report
  // ---------------------------------------------------------------------

  function Check(ok: bool, f: Field, code: IssueCode): seq<Issue> {
    if ok then [] else [Issue(f, None, code)]
  }

  /** `z.string().min(2).max(50).regex(...)`: every failing check is reported. */
  function FullNameIssues(v: Value): (r: seq<Issue>)
    ensures r == [] <==> FullNameValid(v)
    ensures forall k :: 0 <= k < |r| ==> r[k].field == FullName
  {
    match v
    case Str(s) =>
      Check(|s| >= FullNameMin, FullName, TooSmall(FullNameMin))
      + Check(|s| <= FullNameMax, FullName, TooBig(FullNameMax))
      + Check(NamePattern(s), FullName, InvalidRegex)
    case _ => [Issue(FullName, None, InvalidType)]
  }

  /** `z.string().email().max(100)`. */
  function EmailIssues(v: Value, isEmail: string -> bool): (r: seq<Issue>)
    ensures r == [] <==> EmailValid(v, isEmail)
    ensures forall k :: 0 <= k < |r| ==> r[k].field == Email
  {
    match v
    case Str(s) =>
      Check(isEmail(s), Email, InvalidEmail) + Check(|s| <= EmailMax, Email, TooBig(EmailMax))
    case _ => [Issue(Email, None, InvalidType)]
  }

  /** `z.string().regex(...).max(20).optional().or(z.literal(""))`. The
      union reports the first branch's issues when that branch parsed a
      string but failed a check, and a single union issue when neither branch
      got past its type check. */
  function PhoneIssues(v: Value): (r: seq<Issue>)
    ensures r == [] <==> PhoneValid(v)
    ensures forall k :: 0 <= k < |r| ==> r[k].field == Phone
  {
    match v
    case Undefined => []
    case Str(s) =>
      if s == "" then []
      else Check(PhonePattern(s), Phone, InvalidRegex) + Check(|s| <= PhoneMax, Phone, TooBig(PhoneMax))
    case _ => [Issue(Phone, None, InvalidUnion)]
  }

  /** `z.string().min(10).max(500)`. */
  function MessageIssues(v: Value): (r: seq<Issue>)
    ensures r == [] <==> MessageValid(v)
    ensures forall k :: 0 <= k < |r| ==> r[k].field == Message
  {
    match v
    case Str(s) =>
      Check(|s| >= MessageMin, Message, TooSmall(MessageMin))
      + Check(|s| <= MessageMax, Message, TooBig(MessageMax))
    case _ => [Issue(Message, None, InvalidType)]
  }

  /** The enum check on each element of the array from position `from` on:
      one issue per bad element, carrying that element's index. */
  function ElementIssues(items: seq<Value>, from: nat): (r: seq<Issue>)
    requires from <= |items|
    ensures r == [] <==> forall i :: from <= i < |items| ==> items[i].Str? && IsPreference(items[i].s)
    ensures forall k :: 0 <= k < |r| ==>
      r[k].field == SecurityPreferences && r[k].index.Some? && from <= r[k].index.value < |items|
    decreases |items| - from
  {
    if from == |items| then []
    else
      var here :=
        match items[from]
        case Str(s) => if IsPreference(s) then [] else [Issue(SecurityPreferences, Some(from), InvalidEnumValue)]
        case _ => [Issue(SecurityPreferences, Some(from), InvalidType)];
      here + ElementIssues(items, from + 1)
  }

  /** `z.array(z.enum([...])).optional()`. */
  function PreferencesIssues(v: Value): (r: seq<Issue>)
    ensures r == [] <==> PreferencesValid(v)
    ensures forall k :: 0 <= k < |r| ==> r[k].field == SecurityPreferences
  {
    match v
    case Undefined => []
    case Arr(items) => ElementIssues(items, 0)
    case _ => [Issue(SecurityPreferences, None, InvalidType)]
  }

  function FieldIssues(input: Input, f: Field, isEmail: string -> bool): (r: seq<Issue>)
    ensures r == [] <==> FieldValid(input, f, isEmail)
    ensures forall k :: 0 <= k < |r| ==> r[k].field == f
  {
    var v := FieldValue(input, f);
    match f
    case FullName => FullNameIssues(v)
    case Email => EmailIssues(v, isEmail)
    case Phone => PhoneIssues(v)
    case Message => MessageIssues(v)
    case SecurityPreferences => PreferencesIssues(v)
  }

  /** All issues of a parse, field by field in schema order. */
  function AllIssues(input: Input, isEmail: string -> bool): seq<Issue> {
    FieldIssues(input, FullName, isEmail)
    + FieldIssues(input, Email, isEmail)
    + FieldIssues(input, Phone, isEmail)
    + FieldIssues(input, Message, isEmail)
    + FieldIssues(input, SecurityPreferences, isEmail)
  }

  predicate Reports(issues: seq<Issue>, f: Field) {
    exists k :: 0 <= k < |issues| && issues[k].field == f
  }

  lemma ReportsConcat(a: seq<Issue>, b: seq<Issue>, f: Field)
    ensures Reports(a + b, f) <==> Reports(a, f) || Reports(b, f)
  {
    if Reports(a + b, f) {
      var k :| 0 <= k < |a + b| && (a + b)[k].field == f;
      if k >= |a| { assert b[k - |a|] == (a + b)[k]; }
    }
    if Reports(a, f) {
      var k :| 0 <= k < |a| && a[k].field == f;
      assert (a + b)[k] == a[k];
    }
    if Reports(b, f) {
      var k :| 0 <= k < |b| && b[k].field == f;
      assert (a + b)[|a| + k] == b[k];
    }
  }

  /** The issues of one field name that field, and only it, when there are any. */
  lemma ReportsOwnField(input: Input, g: Field, isEmail: string -> bool, f: Field)
    ensures Reports(FieldIssues(input, g, isEmail), f) <==> f == g && !FieldValid(input, g, isEmail)
  {
    var own := FieldIssues(input, g, isEmail);
    if own != [] { assert own[0].field == g; }
  }

  /** A field is named by some issue of the parse exactly when its rule fails. */
  lemma AllIssuesNameFailedFields(input: Input, isEmail: string -> bool, f: Field)
    ensures Reports(AllIssues(input, isEmail), f) <==> !FieldValid(input, f, isEmail)
  {
    var a := FieldIssues(input, FullName, isEmail);
    var b := FieldIssues(input, Email, isEmail);
    var c := FieldIssues(input, Phone, isEmail);
    var d := FieldIssues(input, Message, isEmail);
    var e := FieldIssues(input, SecurityPreferences, isEmail);
    ReportsConcat(a, b, f);
    ReportsConcat(a + b, c, f);
    ReportsConcat(a + b + c, d, f);
    ReportsConcat(a + b + c + d, e, f);
    ReportsOwnField(input, FullName, isEmail, f);
    ReportsOwnField(input, Email, isEmail, f);
    ReportsOwnField(input, Phone, isEmail, f);
    ReportsOwnField(input, Message, isEmail, f);
    ReportsOwnField(input, SecurityPreferences, isEmail, f);
  }

  /** The parsed submission: each field as given, an absent optional key
      left absent. Only called on an accepted input. */
  function Parsed(input: Input): InsertFormSubmission
    requires input.fullName.Str? && input.email.Str? && input.message.Str?
    requires input.phone.Undefined? || input.phone.Str?
    requires input.securityPreferences.Undefined? || input.securityPreferences.Arr?
    requires input.securityPreferences.Arr? ==>
      forall i :: 0 <= i < |input.securityPreferences.items| ==> input.securityPreferences.items[i].Str?
  {
    InsertFormSubmission(
      input.fullName.s,
      input.email.s,
      if input.phone.Str? then Some(input.phone.s) else None,
      input.message.s,
      if input.securityPreferences.Arr? then
        var items := input.securityPreferences.items;
        Some(seq(|items|, i requires 0 <= i < |items| && items[i].Str? => items[i].s))
      else None)
  }

  /** `insertFormSubmissionSchema.safeParse`: all-or-nothing. It succeeds
      exactly when every field rule holds, returning the fields unchanged;
      otherwise it fails with a non-empty issue list that names exactly the
      fields whose rules failed. */
  function SafeParse(input: Input, isEmail: string -> bool): (r: Result<InsertFormSubmission, seq<Issue>>)
    ensures r.Success? <==> Accepts(input, isEmail)
    ensures r.Success? ==>
      && r.value.fullName == input.fullName.s
      && r.value.email == input.email.s
      && r.value.message == input.message.s
      && (r.value.phone.Some? <==> input.phone.Str?)
      && (r.value.phone.Some? ==> r.value.phone.value == input.phone.s)
      && (r.value.securityPreferences.Some? <==> input.securityPreferences.Arr?)
      && (r.value.securityPreferences.Some? ==>
            var prefs := r.value.securityPreferences.value;
            |prefs| == |input.securityPreferences.items|
            && forall i :: 0 <= i < |prefs| ==>
                 IsPreference(prefs[i]) && input.securityPreferences.items[i] == Str(prefs[i]))
    ensures r.Failure? ==>
      r.error != [] && forall f :: Reports(r.error, f) <==> !FieldValid(input, f, isEmail)
  {
    var issues := AllIssues(input, isEmail);
    forall f ensures Reports(issues, f) <==> !FieldValid(input, f, isEmail) {
      AllIssuesNameFailedFields(input, isEmail, f);
    }
    if issues == [] then
      assert FieldValid(input, FullName, isEmail) && FieldValid(input, Email, isEmail)
        && FieldValid(input, Phone, isEmail) && FieldValid(input, Message, isEmail)
        && FieldValid(input, SecurityPreferences, isEmail);
      Success(Parsed(input))
    else
      Failure(issues)
  }

  // ---------------------------------------------------------------------
  // Consequences of the rules
  // ---------------------------------------------------------------------

  /** A pattern-matching phone number is at most 17 characters, so the
      20-character bound never bites, and it holds only digits and possibly
      a leading `+`: no spaces, dashes or parentheses. */
  lemma PhonePatternShape(s: string)
    requires PhonePattern(s)
    ensures 1 <= |s| <= 17 && |s| <= PhoneMax
    ensures forall i :: 0 <= i < |s| ==> IsDigit(s[i]) || (i == 0 && s[i] == '+')
    ensures forall i :: 0 <= i < |s| ==> !IsWhiteSpace(s[i]) && s[i] != '-' && s[i] != '(' && s[i] != ')'
  {
    var d := if |s| > 0 && s[0] == '+' then s[1..] else s;
    forall i | 0 <= i < |s| ensures IsDigit(s[i]) || (i == 0 && s[i] == '+') {
      if s[0] == '+' {
        if i > 0 { assert s[i] == d[i - 1]; }
      } else {
        assert s[i] == d[i];
      }
    }
  }

  /** A full name of one character is rejected, one of two letters accepted. */
  lemma FullNameLengthBoundary()
    ensures !FullNameValid(Str("A"))
    ensures FullNameValid(Str("Al"))
  {
    assert IsAsciiLetter('A') && IsAsciiLetter('l');
  }

  /** Repeated preference tags are accepted. */
  lemma DuplicatePreferencesAccepted()
    ensures PreferencesValid(Arr([Str("2fa"), Str("2fa")]))
  {
  }
}
