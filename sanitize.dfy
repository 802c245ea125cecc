/** `validateAndSanitizeSubmission`: overwrites the string fields of the
    request body in place. Each truthy field is trimmed, the email is also
    lowercased and the phone filtered to phone characters, and the result is
    passed through the HTML sanitizer. Falsy fields are left alone, and
    `securityPreferences` is never touched.

    The HTML sanitizer (`DOMPurify.sanitize` with no tags or attributes
    allowed) is foreign code: it is the parameter `purify`, assumed total
    (it never throws), with nothing assumed about its output. A truthy field
    that is not a string has no `trim` method, so the call throws a
    TypeError; the fields before it have already been rewritten and the
    ones after it are not. */
module Sanitize {
  import opened Wrappers
  import opened Json
  import opened JsString
  import opened Schema

  /** How each string field is normalised before sanitizing. */
  datatype Normaliser = TrimOnly | TrimLower | TrimPhone

  function Normalise(n: Normaliser, s: string): string {
    match n
    case TrimOnly => Trim(s)
    case TrimLower => ToLowerCase(Trim(s))
    case TrimPhone => KeepPhoneChars(Trim(s))
  }

  /** The email is lowercased and the phone filtered; the name and the
      message are only trimmed. */
  function NormaliserOf(f: Field): Normaliser {
    match f
    case Email => TrimLower
    case Phone => TrimPhone
    case _ => TrimOnly
  }

  /** A truthy value without a `trim` method: rewriting it throws. */
  predicate Throws(v: Value) {
    Truthy(v) && !v.Str?
  }

  /** What `if (data.f) data.f = sanitizeInput(normalise(data.f))` leaves in
      a field that does not throw. */
  function Rewritten(v: Value, n: Normaliser, purify: string -> string): Value
    requires !Throws(v)
  {
    if Truthy(v) then Str(purify(Normalise(n, v.s))) else v
  }

  function WithField(b: Input, f: Field, v: Value): (r: Input)
    ensures FieldValue(r, f) == v
    ensures forall g :: g != f ==> FieldValue(r, g) == FieldValue(b, g)
  {
    match f
    case FullName => b.(fullName := v)
    case Email => b.(email := v)
    case Phone => b.(phone := v)
    case Message => b.(message := v)
    case SecurityPreferences => b.(securityPreferences := v)
  }

  /** The body after some of the lines have run, and whether one threw. */
  datatype Sanitized = Sanitized(body: Input, threw: bool)

  /** One line of the normaliser, run unless an earlier one threw. A line
      that throws leaves the body as it was; otherwise only its own field
      changes: a truthy string becomes the sanitized form of its normalised
      value, a falsy value stays. */
  function SanitizeStep(s: Sanitized, f: Field, purify: string -> string): (r: Sanitized)
    ensures r.threw <==> s.threw || (Truthy(FieldValue(s.body, f)) && !FieldValue(s.body, f).Str?)
    ensures r.threw ==> r.body == s.body
    ensures !r.threw ==>
      var v := FieldValue(s.body, f);
      && FieldValue(r.body, f) == (if Truthy(v) then Str(purify(Normalise(NormaliserOf(f), v.s))) else v)
      && forall g :: g != f ==> FieldValue(r.body, g) == FieldValue(s.body, g)
  {
    if s.threw || Throws(FieldValue(s.body, f)) then Sanitized(s.body, true)
    else Sanitized(WithField(s.body, f, Rewritten(FieldValue(s.body, f), NormaliserOf(f), purify)), false)
  }

  /** The four lines in source order: full name, email, phone, message. */
  function SanitizeSubmission(b: Input, purify: string -> string): (r: Sanitized)
    ensures r.threw <==> Throws(b.fullName) || Throws(b.email) || Throws(b.phone) || Throws(b.message)
    ensures r.body.securityPreferences == b.securityPreferences
  {
    var s1 := SanitizeStep(Sanitized(b, false), FullName, purify);
    var s2 := SanitizeStep(s1, Email, purify);
    var s3 := SanitizeStep(s2, Phone, purify);
    var s4 := SanitizeStep(s3, Message, purify);
    assert FieldValue(s1.body, Email) == b.email;
    assert FieldValue(s2.body, Phone) == b.phone;
    assert FieldValue(s3.body, Message) == b.message;
    assert FieldValue(s4.body, SecurityPreferences) == b.securityPreferences;
    s4
  }

  // ---------------------------------------------------------------------
  // Properties of the normalisation
  // ---------------------------------------------------------------------

  /** Falsy fields (missing, `null`, `false`, `0`, `""`) are never changed,
      and when nothing throws every truthy field is replaced by the sanitized
      form of its normalised value: trimmed; for the email also lowercased;
      for the phone also filtered to phone characters. */
  lemma FieldsRewritten(b: Input, purify: string -> string)
    ensures var r := SanitizeSubmission(b, purify).body;
      && (!Truthy(b.fullName) ==> r.fullName == b.fullName)
      && (!Truthy(b.email) ==> r.email == b.email)
      && (!Truthy(b.phone) ==> r.phone == b.phone)
      && (!Truthy(b.message) ==> r.message == b.message)
    ensures var r := SanitizeSubmission(b, purify);
      !r.threw ==>
        && r.body.fullName == (if Truthy(b.fullName) then Str(purify(Trim(b.fullName.s))) else b.fullName)
        && r.body.email == (if Truthy(b.email) then Str(purify(ToLowerCase(Trim(b.email.s)))) else b.email)
        && r.body.phone == (if Truthy(b.phone) then Str(purify(KeepPhoneChars(Trim(b.phone.s)))) else b.phone)
        && r.body.message == (if Truthy(b.message) then Str(purify(Trim(b.message.s))) else b.message)
  {
    var s1 := SanitizeStep(Sanitized(b, false), FullName, purify);
    var s2 := SanitizeStep(s1, Email, purify);
    var s3 := SanitizeStep(s2, Phone, purify);
    var s4 := SanitizeStep(s3, Message, purify);
    assert FieldValue(s1.body, Email) == b.email;
    assert FieldValue(s2.body, Phone) == b.phone;
    assert FieldValue(s3.body, Message) == b.message;
    assert s4.body.fullName == FieldValue(s4.body, FullName) == FieldValue(s3.body, FullName)
      == FieldValue(s2.body, FullName) == FieldValue(s1.body, FullName);
    assert s4.body.email == FieldValue(s4.body, Email) == FieldValue(s3.body, Email) == FieldValue(s2.body, Email);
    assert s4.body.phone == FieldValue(s4.body, Phone) == FieldValue(s3.body, Phone);
  }

  /** Without a throw the body is the four rewritten fields and the
      preferences as they were. */
  lemma NoThrowBody(b: Input, purify: string -> string)
    requires !SanitizeSubmission(b, purify).threw
    ensures SanitizeSubmission(b, purify).body == Input(
      Rewritten(b.fullName, TrimOnly, purify), Rewritten(b.email, TrimLower, purify),
      Rewritten(b.phone, TrimPhone, purify), Rewritten(b.message, TrimOnly, purify),
      b.securityPreferences)
  {
    var s1 := SanitizeStep(Sanitized(b, false), FullName, purify);
    var s2 := SanitizeStep(s1, Email, purify);
    var s3 := SanitizeStep(s2, Phone, purify);
    assert FieldValue(s1.body, Email) == b.email;
    assert FieldValue(s2.body, Phone) == b.phone;
    assert FieldValue(s3.body, Message) == b.message;
  }

  /** What the sanitizer receives for the email is trimmed and holds no
      capital letter, and normalising it again changes nothing. */
  lemma EmailNormalForm(s: string)
    ensures var e := Normalise(TrimLower, s);
      && (e == [] || (!IsWhiteSpace(e[0]) && !IsWhiteSpace(e[|e| - 1])))
      && (forall i :: 0 <= i < |e| ==> !IsAsciiUpper(e[i]))
      && Normalise(TrimLower, e) == e
  {
    TrimIsInfix(s);
    var t := Trim(s);
    var i :| TrimmedAt(s, t, i);
    LowerCaseKeepsTrimmed(t);
    var e := ToLowerCase(t);
    TrimOfTrimmed(e);
    LowerCaseIdempotent(t);
  }

  /** What the sanitizer receives for the phone holds only digits, `+`,
      `-`, `(`, `)` and white space. */
  lemma PhoneNormalForm(s: string)
    ensures forall i :: 0 <= i < |Normalise(TrimPhone, s)| ==> IsPhoneChar(Normalise(TrimPhone, s)[i])
  {
  }

  /** The normaliser keeps separators the validator refuses: a phone whose
      sanitized value still holds a space, dash or parenthesis is rejected,
      so a number typed as `+1 (555) 123-4567` never passes with a
      sanitizer that leaves such plain text unchanged. */
  lemma FormattedPhoneRejected(s: string)
    requires exists i :: 0 <= i < |s| && (IsWhiteSpace(s[i]) || s[i] == '-' || s[i] == '(' || s[i] == ')')
    ensures !PhoneValid(Str(s))
  {
    if PhoneValid(Str(s)) {
      PhonePatternShape(s);
    }
  }

  // ---------------------------------------------------------------------
  // The body, rewritten in place
  // ---------------------------------------------------------------------

  /** `req.body`, restricted to the fields the normaliser and the schema read. */
  class RequestBody {
    var fullName: Value
    var email: Value
    var phone: Value
    var message: Value
    var securityPreferences: Value

    constructor (b: Input)
      ensures Fields() == b
    {
      fullName := b.fullName;
      email := b.email;
      phone := b.phone;
      message := b.message;
      securityPreferences := b.securityPreferences;
    }

    function Fields(): Input
      reads this
    {
      Input(fullName, email, phone, message, securityPreferences)
    }
  }

  /** Rewrites the body's fields one after another, stopping at the first
      that throws; the new body and the throw are those of
      `SanitizeSubmission`. */
  method ValidateAndSanitizeSubmission(data: RequestBody, purify: string -> string) returns (threw: bool)
    modifies data
    ensures Sanitized(data.Fields(), threw) == SanitizeSubmission(old(data.Fields()), purify)
  {
    ghost var s0 := Sanitized(data.Fields(), false);
    threw := false;
    if Throws(data.fullName) {
      threw := true;
    } else {
      data.fullName := Rewritten(data.fullName, TrimOnly, purify);
    }
    ghost var s1 := SanitizeStep(s0, FullName, purify);
    assert Sanitized(data.Fields(), threw) == s1;
    if !threw {
      if Throws(data.email) {
        threw := true;
      } else {
        data.email := Rewritten(data.email, TrimLower, purify);
      }
    }
    ghost var s2 := SanitizeStep(s1, Email, purify);
    assert Sanitized(data.Fields(), threw) == s2;
    if !threw {
      if Throws(data.phone) {
        threw := true;
      } else {
        data.phone := Rewritten(data.phone, TrimPhone, purify);
      }
    }
    ghost var s3 := SanitizeStep(s2, Phone, purify);
    assert Sanitized(data.Fields(), threw) == s3;
    if !threw {
      if Throws(data.message) {
        threw := true;
      } else {
        data.message := Rewritten(data.message, TrimOnly, purify);
      }
    }
  }
}
