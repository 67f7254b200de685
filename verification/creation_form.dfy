/** The back-office comment creation form: which fields it declares and which
    validation constraints each field carries. */
module CommentCreationForm {
  import opened PhpValues

  /** The fields of the form, one constructor per declared field. */
  datatype Field =
    | CustomerIdField | UsernameField | EmailField | LocaleField | TitleField | ContentField
    | RefField | RefIdField | RatingField | StatusField | VerifiedField | AbuseField

  /** The fields in the order the form declares them. */
  const Fields: seq<Field> := [
    CustomerIdField, UsernameField, EmailField, LocaleField, TitleField, ContentField,
    RefField, RefIdField, RatingField, StatusField, VerifiedField, AbuseField]

  /** Submitted values after type conversion: an integer field yields an int, a text or
      email field a string, and an empty submission yields null (`None`). */
  datatype FormData = FormData(
    customerId: Option<int>, username: Option<string>, email: Option<string>,
    locale: Option<string>, title: Option<string>, content: Option<string>,
    ref: Option<string>, refId: Option<int>, rating: Option<int>,
    status: Option<int>, verified: Option<int>, abuse: Option<int>)

  /** NotBlank: null and the empty string are blank. */
  predicate NotBlank(v: Option<string>) {
    v.Some? && v.value != ""
  }

  /** Length with a minimum: null is not checked. */
  predicate MinLength(v: Option<string>, min: nat) {
    v.None? || |v.value| >= min
  }

  /** Email: null and the empty string are not checked; anything else must be an
      address in the sense of `isEmail`, the validator's own format test. */
  predicate EmailFormat(v: Option<string>, isEmail: string -> bool) {
    v.None? || v.value == "" || isEmail(v.value)
  }

  /** GreaterThanOrEqual: null is not checked. */
  predicate AtLeast(v: Option<int>, bound: int) {
    v.None? || v.value >= bound
  }

  /** LessThanOrEqual: null is not checked. */
  predicate AtMost(v: Option<int>, bound: int) {
    v.None? || v.value <= bound
  }

  /** Whether one field satisfies every constraint declared on it. */
  predicate FieldValid(d: FormData, f: Field, isEmail: string -> bool) {
    match f
    case UsernameField => MinLength(d.username, 2)
    case EmailField => EmailFormat(d.email, isEmail)
    case TitleField => NotBlank(d.title)
    case ContentField => NotBlank(d.content)
    case RefField => NotBlank(d.ref)
    case RefIdField => AtLeast(d.refId, 0)
    case RatingField => AtLeast(d.rating, 0) && AtMost(d.rating, 5)
    case CustomerIdField | LocaleField | StatusField | VerifiedField | AbuseField => true
  }

  /** The position of a field in the form's declaration order. */
  function FieldIndex(f: Field): (i: nat)
    ensures i < |Fields| && Fields[i] == f
  {
    match f
    case CustomerIdField => 0
    case UsernameField => 1
    case EmailField => 2
    case LocaleField => 3
    case TitleField => 4
    case ContentField => 5
    case RefField => 6
    case RefIdField => 7
    case RatingField => 8
    case StatusField => 9
    case VerifiedField => 10
    case AbuseField => 11
  }

  /** Declaration order has no repeats: the i-th declared field sits at position i. */
  lemma IndexOfField(i: nat)
    requires i < |Fields|
    ensures FieldIndex(Fields[i]) == i
  {
    if i < 6 {
      assert i == 0 || i == 1 || i == 2 || i == 3 || i == 4 || i == 5;
    } else {
      assert i == 6 || i == 7 || i == 8 || i == 9 || i == 10 || i == 11;
    }
  }

  /** Runs the constraints field by field, in declaration order, and lists the fields
      that fail: exactly the invalid ones, each once, in the order they are declared. */
  method Validate(d: FormData, isEmail: string -> bool) returns (violations: seq<Field>)
    ensures forall f :: f in violations <==> !FieldValid(d, f, isEmail)
    ensures forall a, b :: 0 <= a < b < |violations| ==> FieldIndex(violations[a]) < FieldIndex(violations[b])
  {
    violations := [];
    var i := 0;
    while i < |Fields|
      invariant 0 <= i <= |Fields|
      invariant forall f :: f in violations <==> FieldIndex(f) < i && !FieldValid(d, f, isEmail)
      invariant forall a :: 0 <= a < |violations| ==> FieldIndex(violations[a]) < i
      invariant forall a, b :: 0 <= a < b < |violations| ==> FieldIndex(violations[a]) < FieldIndex(violations[b])
    {
      var f := Fields[i];
      IndexOfField(i);
      if !FieldValid(d, f, isEmail) {
        violations := violations + [f];
      }
      i := i + 1;
    }
  }

  /** The form accepts the submission when no field fails. */
  predicate Accepts(d: FormData, isEmail: string -> bool) {
    forall f :: FieldValid(d, f, isEmail)
  }

  /** The form's rules in the words of its declaration: title, content and ref are
      non-blank, ref_id is at least 0 and rating within [0, 5] when given, a given
      username has at least two characters, and a given non-empty email is well-formed;
      nothing else is required. */
  lemma AcceptsIff(d: FormData, isEmail: string -> bool)
    ensures Accepts(d, isEmail) <==>
      && d.title.Some? && d.title.value != ""
      && d.content.Some? && d.content.value != ""
      && d.ref.Some? && d.ref.value != ""
      && (d.refId.Some? ==> d.refId.value >= 0)
      && (d.rating.Some? ==> 0 <= d.rating.value <= 5)
      && (d.username.Some? ==> |d.username.value| >= 2)
      && (d.email.Some? && d.email.value != "" ==> isEmail(d.email.value))
  {
    if !Accepts(d, isEmail) {
      var f :| !FieldValid(d, f, isEmail);
    } else {
      assert FieldValid(d, TitleField, isEmail) && FieldValid(d, ContentField, isEmail);
      assert FieldValid(d, RefField, isEmail) && FieldValid(d, RefIdField, isEmail);
      assert FieldValid(d, RatingField, isEmail) && FieldValid(d, UsernameField, isEmail);
      assert FieldValid(d, EmailField, isEmail);
    }
  }

  /** customer_id, locale, status, verified and abuse carry no constraint: changing
      them never changes the verdict. */
  lemma UnconstrainedFieldsAreFree(d: FormData, customerId: Option<int>, locale: Option<string>, status: Option<int>, verified: Option<int>, abuse: Option<int>, isEmail: string -> bool)
    ensures Accepts(d, isEmail) <==>
      Accepts(d.(customerId := customerId, locale := locale, status := status, verified := verified, abuse := abuse), isEmail)
  {
    var d' := d.(customerId := customerId, locale := locale, status := status, verified := verified, abuse := abuse);
    assert forall f :: FieldValid(d, f, isEmail) == FieldValid(d', f, isEmail);
  }

  /** A rating outside [0, 5] is refused whatever the other fields hold, and an absent
      rating is never what the form refuses. */
  lemma RatingBounds(d: FormData, isEmail: string -> bool)
    ensures d.rating.Some? && (d.rating.value < 0 || d.rating.value > 5) ==> !Accepts(d, isEmail)
    ensures d.rating.None? ==> FieldValid(d, RatingField, isEmail)
  {
    if d.rating.Some? && (d.rating.value < 0 || d.rating.value > 5) {
      assert !FieldValid(d, RatingField, isEmail);
    }
  }
}
