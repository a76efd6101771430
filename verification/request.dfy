/**
 * The request body of the classification endpoint: a system name and a
 * free-text purpose, each with the Bean Validation constraints declared on
 * its field (@NotBlank and @Size).
 */
module Request {
  import opened JavaLang

  const SystemNameField: string := "systemName"
  const SystemPurposeField: string := "systemPurpose"

  const NameMinLength: nat := 3
  const NameMaxLength: nat := 100
  const PurposeMinLength: nat := 10
  const PurposeMaxLength: nat := 1000

  const NameRequiredMessage: string := "System name is required"
  const NameSizeMessage: string := "System name must be between 3 and 100 characters"
  const PurposeRequiredMessage: string := "System purpose is required"
  const PurposeSizeMessage: string := "System purpose must be between 10 and 1000 characters"

  /** One failed constraint, reported against the field that carries it. */
  datatype FieldError = FieldError(field: string, message: string)

  class ClassificationRequest {
    var systemName: Nullable<string>
    var systemPurpose: Nullable<string>

    /** The default constructor Jackson uses: both fields start out null. */
    constructor ()
      ensures systemName == Null && systemPurpose == Null
    {
      systemName := Null;
      systemPurpose := Null;
    }

    function GetSystemName(): Nullable<string>
      reads this
    {
      systemName
    }

    method SetSystemName(name: Nullable<string>)
      modifies this`systemName
      ensures GetSystemName() == name
      ensures GetSystemPurpose() == old(GetSystemPurpose())
    {
      systemName := name;
    }

    function GetSystemPurpose(): Nullable<string>
      reads this
    {
      systemPurpose
    }

    method SetSystemPurpose(purpose: Nullable<string>)
      modifies this`systemPurpose
      ensures GetSystemPurpose() == purpose
      ensures GetSystemName() == old(GetSystemName())
    {
      systemPurpose := purpose;
    }
  }

  /** @NotBlank: not null, and something is left after trimming. */
  function NotBlank(s: Nullable<string>): (r: bool)
    ensures r <==> s.NonNull? && exists i :: 0 <= i < |s.value| && !IsTrimmed(s.value[i])
  {
    if s.Null? then false
    else
      TrimEmptyIffBlank(s.value);
      Trim(s.value) != []
  }

  /**
   * @Size: a null value is accepted; otherwise String.length, which counts
   * UTF-16 code units, must lie in [min, max].
   */
  predicate SizeWithin(s: Nullable<string>, min: nat, max: nat) {
    s.Null? || min <= JavaLength(s.value) <= max
  }

  /** Every constraint on systemName holds. */
  predicate NameAccepted(name: Nullable<string>) {
    name.NonNull? && NameMinLength <= JavaLength(name.value) <= NameMaxLength
    && exists i :: 0 <= i < |name.value| && !IsTrimmed(name.value[i])
  }

  /** Every constraint on systemPurpose holds. */
  predicate PurposeAccepted(purpose: Nullable<string>) {
    purpose.NonNull? && PurposeMinLength <= JavaLength(purpose.value) <= PurposeMaxLength
    && exists i :: 0 <= i < |purpose.value| && !IsTrimmed(purpose.value[i])
  }

  /** The violations of the constraints declared on one field, in declaration order. */
  function FieldViolations(field: string, value: Nullable<string>, min: nat, max: nat,
                           requiredMessage: string, sizeMessage: string): (errors: seq<FieldError>)
    ensures forall k :: 0 <= k < |errors| ==> errors[k].field == field
    ensures errors == [] <==> NotBlank(value) && SizeWithin(value, min, max)
    ensures requiredMessage != sizeMessage ==>
      (FieldError(field, requiredMessage) in errors <==> !NotBlank(value))
      && (FieldError(field, sizeMessage) in errors <==> !SizeWithin(value, min, max))
    ensures forall k :: 0 <= k < |errors| ==> errors[k].message in {requiredMessage, sizeMessage}
    ensures |errors| <= 2
  {
    (if NotBlank(value) then [] else [FieldError(field, requiredMessage)])
    + (if SizeWithin(value, min, max) then [] else [FieldError(field, sizeMessage)])
  }

  /** The two field names differ, and so do the two messages of each field. */
  lemma FieldsAndMessagesDistinct()
    ensures SystemNameField != SystemPurposeField
    ensures NameRequiredMessage != NameSizeMessage
    ensures PurposeRequiredMessage != PurposeSizeMessage
  {
    assert SystemNameField[6] != SystemPurposeField[6];
    assert NameRequiredMessage[12] != NameSizeMessage[12];
    assert PurposeRequiredMessage[15] != PurposeSizeMessage[15];
  }

  /** A field is accepted exactly when both of its constraints hold. */
  lemma AcceptedIffConstraintsHold(name: Nullable<string>, purpose: Nullable<string>)
    ensures NameAccepted(name) <==> NotBlank(name) && SizeWithin(name, NameMinLength, NameMaxLength)
    ensures PurposeAccepted(purpose) <==> NotBlank(purpose) && SizeWithin(purpose, PurposeMinLength, PurposeMaxLength)
  {
  }

  /** Errors of two different fields, put together, stay apart by field. */
  lemma TwoFieldsErrors(a: seq<FieldError>, b: seq<FieldError>, fa: string, fb: string)
    requires fa != fb
    requires forall k :: 0 <= k < |a| ==> a[k].field == fa
    requires forall k :: 0 <= k < |b| ==> b[k].field == fb
    ensures forall e :: e in a + b ==> e.field == fa || e.field == fb
    ensures forall e: FieldError :: e.field == fa ==> (e in a + b <==> e in a)
    ensures forall e: FieldError :: e.field == fb ==> (e in a + b <==> e in b)
    ensures (exists e :: e in a + b && e.field == fa) <==> a != []
    ensures (exists e :: e in a + b && e.field == fb) <==> b != []
  {
    assert a != [] ==> a[0] in a + b;
    assert b != [] ==> b[0] in a + b;
  }

  /**
   * The field errors Bean Validation reports for a request, systemName's
   * constraints before systemPurpose's.
   */
  function ConstraintViolations(name: Nullable<string>, purpose: Nullable<string>): (errors: seq<FieldError>)
    ensures forall e :: e in errors ==> e.field == SystemNameField || e.field == SystemPurposeField
    ensures (exists e :: e in errors && e.field == SystemNameField) <==> !NameAccepted(name)
    ensures (exists e :: e in errors && e.field == SystemPurposeField) <==> !PurposeAccepted(purpose)
    ensures errors == [] <==> NameAccepted(name) && PurposeAccepted(purpose)
    ensures FieldError(SystemNameField, NameRequiredMessage) in errors <==> !NotBlank(name)
    ensures FieldError(SystemNameField, NameSizeMessage) in errors
      <==> !SizeWithin(name, NameMinLength, NameMaxLength)
    ensures FieldError(SystemPurposeField, PurposeRequiredMessage) in errors <==> !NotBlank(purpose)
    ensures FieldError(SystemPurposeField, PurposeSizeMessage) in errors
      <==> !SizeWithin(purpose, PurposeMinLength, PurposeMaxLength)
    ensures |errors| <= 4
  {
    var nameErrors :=
      FieldViolations(SystemNameField, name, NameMinLength, NameMaxLength, NameRequiredMessage, NameSizeMessage);
    var purposeErrors :=
      FieldViolations(SystemPurposeField, purpose, PurposeMinLength, PurposeMaxLength,
                      PurposeRequiredMessage, PurposeSizeMessage);
    FieldsAndMessagesDistinct();
    AcceptedIffConstraintsHold(name, purpose);
    TwoFieldsErrors(nameErrors, purposeErrors, SystemNameField, SystemPurposeField);
    nameErrors + purposeErrors
  }

  /** A null name fails @NotBlank only: @Size accepts null. */
  lemma NullNameReportedOnce(purpose: Nullable<string>)
    ensures var errors := ConstraintViolations(Null, purpose);
      FieldError(SystemNameField, NameRequiredMessage) in errors
      && forall e :: e in errors && e.field == SystemNameField ==> e == FieldError(SystemNameField, NameRequiredMessage)
  {
  }

  /** An empty name fails both of its constraints. */
  lemma EmptyNameReportedTwice(purpose: Nullable<string>)
    ensures var errors := ConstraintViolations(NonNull(""), purpose);
      FieldError(SystemNameField, NameRequiredMessage) in errors
      && FieldError(SystemNameField, NameSizeMessage) in errors
  {
  }

  /**
   * The length bounds count UTF-16 code units: a single emoji is a surrogate
   * pair, two units, too short for a name; two of them make four, enough.
   */
  lemma NameLengthCountsCodeUnits()
    ensures !NameAccepted(NonNull("\U{1F600}"))
    ensures NameAccepted(NonNull("\U{1F600}\U{1F600}"))
  {
    assert !IsTrimmed("\U{1F600}\U{1F600}"[0]);
  }
}
