/** The validation rules: the data annotations on `Product`, the `ValidDateTime` attribute, and the
    checks the services run before touching the store. */
module Validation {
  import opened Wrappers
  import opened Text
  import opened Domain

  // ---------------------------------------------------------------------------------------------
  // String rules

  /** `string.IsNullOrWhiteSpace`. */
  predicate IsNullOrWhiteSpace(s: Option<string>) {
    s == None || forall i :: 0 <= i < |s.value| ==> IsDotNetWhiteSpace(s.value[i])
  }

  /** `[Required]` on a string: null, empty and white-space-only strings fail (the attribute trims
      the value with `char.IsWhiteSpace` before testing its length). */
  predicate RequiredHolds(s: Option<string>) {
    !IsNullOrWhiteSpace(s)
  }

  /** A full match of `^[a-zA-Z\s]+$`: one or more characters, each an ASCII letter or white space. */
  predicate MatchesLettersAndSpaces(s: string) {
    |s| >= 1 && forall i :: 0 <= i < |s| ==> IsAsciiLetter(s[i]) || IsDotNetWhiteSpace(s[i])
  }

  /** `[RegularExpression(@"^[a-zA-Z\s]+$")]`: null and the empty string pass, any other string must match. */
  predicate PatternHolds(s: Option<string>) {
    s == None || s.value == "" || MatchesLettersAndSpaces(s.value)
  }

  /** The errors `Validator.TryValidateObject` reports for a `Name` property annotated with
      `[Required]` and the letters-and-spaces pattern: `[Required]` is checked first, and the pattern
      only when `[Required]` passed. */
  function NameErrors(name: Option<string>): (errors: seq<string>)
    ensures errors == [] <==> RequiredHolds(name) && MatchesLettersAndSpaces(name.value)
    ensures |errors| <= 1
  {
    if !RequiredHolds(name) then ["Name is required."]
    else if !PatternHolds(name) then ["Name cannot contain numbers."]
    else []
  }

  // ---------------------------------------------------------------------------------------------
  // Product's data annotations

  /** The errors `Validator.TryValidateObject(product, …, validateAllProperties: true)` collects,
      one per failing property, in declaration order: Id, Name, PortionCount, Unit, PortionSize. */
  function ProductAnnotationErrors(p: Product): seq<string> {
    (if 1 <= p.id <= IntMaxValue then [] else ["Id must be greater than 0."])
    + NameErrors(p.name)
    + (if p.portionCount >= 0.1 then [] else ["Portion count must be greater than 0."])
    + (if RequiredHolds(p.unit) then [] else ["Unit is required."])
    + (if p.portionSize >= 0.1 then [] else ["Portion size must be greater than 0."])
  }

  /** A product that meets every annotation on `Product`. */
  predicate ValidProduct(p: Product) {
    ProductAnnotationErrors(p) == []
  }

  /** The annotations spelled out: a product is valid exactly when its id is at least 1, its name is
      present, not blank and made of ASCII letters and white space only, its unit is present and not
      blank, and both its portion count and its portion size are at least 0.1. */
  lemma {:induction false} ValidProductRules(p: Product)
    ensures ValidProduct(p) <==>
      && 1 <= p.id <= IntMaxValue
      && RequiredHolds(p.name) && MatchesLettersAndSpaces(p.name.value)
      && p.portionCount >= 0.1
      && RequiredHolds(p.unit)
      && p.portionSize >= 0.1
  {
    var e := ProductAnnotationErrors(p);
    if ValidProduct(p) {
      assert |e| == 0;
    }
  }

  // ---------------------------------------------------------------------------------------------
  // ValidDateTimeAttribute

  /** The boxed value a validation attribute receives. */
  datatype BoxedValue = DateTimeValue(ticks: int) | OtherValue | NullValue

  const DefaultDateTimeMessage: string := "DateTime must be a valid date and cannot be DateTime.MinValue."

  /** `ValidDateTimeAttribute.IsValid`: `None` is `ValidationResult.Success`, `Some(m)` a failure with
      message `m`, where `errorMessage` is the attribute's `ErrorMessage` property. */
  function ValidDateTime(value: BoxedValue, errorMessage: Option<string>): (r: Option<string>)
    ensures r.Some? <==> value == DateTimeValue(MinValueTicks)
    ensures r.Some? && errorMessage.Some? ==> r.value == errorMessage.value
    ensures r.Some? && errorMessage.None? ==> r.value == DefaultDateTimeMessage
  {
    match value
    case DateTimeValue(ticks) =>
      if ticks == MinValueTicks then Some(if errorMessage.Some? then errorMessage.value else DefaultDateTimeMessage)
      else None
    case _ => None
  }

  // ---------------------------------------------------------------------------------------------
  // The services' own checks

  /** The fields `ProductService.ValidateProduct` checks, in the order it checks them. */
  const ProductFields: seq<string> := ["Id", "Name", "PortionCount", "PortionSize", "Unit"]

  /** Whether `ProductService.ValidateProduct`'s `k`-th guard lets `p` through. */
  predicate ProductCheckPasses(p: Product, k: nat)
    requires k < |ProductFields|
  {
    if k == 0 then p.id > 0
    else if k == 1 then !IsNullOrWhiteSpace(p.name) && MatchesLettersAndSpaces(p.name.value)
    else if k == 2 then p.portionCount > 0.0
    else if k == 3 then p.portionSize > 0.0
    else !IsNullOrWhiteSpace(p.unit)
  }

  /** `ProductService.ValidateProduct`: a chain of guards, each throwing an `ArgumentException` that
      names its field; the first guard that fails decides the exception. */
  function ValidateProduct(p: Product): (r: Outcome<Error>)
    ensures r == Pass <==> forall k :: 0 <= k < |ProductFields| ==> ProductCheckPasses(p, k)
    ensures r.Fail? ==>
      exists k :: 0 <= k < |ProductFields| && r.error.InvalidArgument? && r.error.paramName == Some(ProductFields[k])
        && !ProductCheckPasses(p, k)
        && forall j :: 0 <= j < k ==> ProductCheckPasses(p, j)
  {
    if p.id <= 0 then
      assert ProductFields[0] == "Id" && !ProductCheckPasses(p, 0);
      Fail(InvalidArgument("Product ID must be greater than 0.", Some("Id")))
    else if IsNullOrWhiteSpace(p.name) || !MatchesLettersAndSpaces(p.name.value) then
      assert ProductFields[1] == "Name" && !ProductCheckPasses(p, 1) && ProductCheckPasses(p, 0);
      Fail(InvalidArgument("Product name is invalid. It must not contain numbers.", Some("Name")))
    else if p.portionCount <= 0.0 then
      assert ProductFields[2] == "PortionCount" && !ProductCheckPasses(p, 2);
      assert forall j :: 0 <= j < 2 ==> ProductCheckPasses(p, j);
      Fail(InvalidArgument("Portion count must be greater than 0.", Some("PortionCount")))
    else if p.portionSize <= 0.0 then
      assert ProductFields[3] == "PortionSize" && !ProductCheckPasses(p, 3);
      assert forall j :: 0 <= j < 3 ==> ProductCheckPasses(p, j);
      Fail(InvalidArgument("Portion size must be greater than 0.", Some("PortionSize")))
    else if IsNullOrWhiteSpace(p.unit) then
      assert ProductFields[4] == "Unit" && !ProductCheckPasses(p, 4);
      assert forall j :: 0 <= j < 4 ==> ProductCheckPasses(p, j);
      Fail(InvalidArgument("Unit is required.", Some("Unit")))
    else
      assert forall j :: 0 <= j < 5 ==> ProductCheckPasses(p, j);
      Pass
  }

  /** Every product the annotations accept, the service accepts too. */
  lemma {:induction false} ValidProductPassesService(p: Product)
    requires ValidProduct(p)
    ensures ValidateProduct(p) == Pass
  {
    ValidProductRules(p);
  }

  /** The converse fails: the service only asks for positive counts and sizes, the annotations for
      at least 0.1, so a portion count of 0.05 passes the service and fails the annotations. */
  lemma {:induction false} ServiceAcceptsWhatAnnotationsReject()
    ensures var p := Product(1, Some("Salt"), 0.05, Some("kg"), 1.0);
      ValidateProduct(p) == Pass && !ValidProduct(p)
  {
    var p := Product(1, Some("Salt"), 0.05, Some("kg"), 1.0);
    assert MatchesLettersAndSpaces("Salt");
    assert !IsNullOrWhiteSpace(Some("Salt")) by { assert !IsDotNetWhiteSpace("Salt"[0]); }
    assert !IsNullOrWhiteSpace(Some("kg")) by { assert !IsDotNetWhiteSpace("kg"[0]); }
    ValidProductRules(p);
  }

  /** `ValidateMenuItem`: `Validator.TryValidateObject` over the menu item's name annotations (the
      same as `Product.Name`'s), throwing an `ArgumentException` whose message joins the errors
      with ", ". */
  function ValidateMenuItem(m: MenuItem): (r: Outcome<Error>)
    ensures r == Pass <==> RequiredHolds(m.name) && MatchesLettersAndSpaces(m.name.value)
    ensures r.Fail? ==> r.error == InvalidArgument(Join(NameErrors(m.name), ", "), None)
  {
    var errors := NameErrors(m.name);
    if errors == [] then Pass else Fail(InvalidArgument(Join(errors, ", "), None))
  }

  /** `ValidateOrder`: `Validator.TryValidateObject` over the order's annotations, of which the model
      keeps the `ValidDateTime` rule on its date. The message is the attribute's default, standing in
      for the one `Order` configures, which is not part of this model. */
  function ValidateOrder(o: Order): (r: Outcome<Error>)
    ensures r == Pass <==> o.dateTime != MinValueTicks
    ensures r.Fail? ==> r.error.InvalidArgument?
  {
    match ValidDateTime(DateTimeValue(o.dateTime), None)
    case None => Pass
    case Some(message) => Fail(InvalidArgument(message, None))
  }
}
