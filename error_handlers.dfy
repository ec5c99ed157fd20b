/** The HTTP error classes, the database-error wrapper and the required-field
    validator of the error-handling utilities. */
module ErrorHandlers {
  import opened Wrappers
  import opened Strings

  /** The four `HTTPException` subclasses. */
  datatype ErrorClass = DatabaseError | AuthenticationError | AuthorizationError | ValidationError

  /** An `HTTPException` as raised: its status code and its detail text. */
  datatype HttpError = HttpError(status: nat, detail: string)

  /** The status code each class passes to `HTTPException`. */
  function StatusOf(c: ErrorClass): nat
  {
    match c
    case DatabaseError => 500
    case AuthenticationError => 401
    case AuthorizationError => 403
    case ValidationError => 400
  }

  /** The text each class puts before the caller's detail. */
  function PrefixOf(c: ErrorClass): string
  {
    match c
    case DatabaseError => "Database error: "
    case AuthenticationError => "Authentication error: "
    case AuthorizationError => "Authorization error: "
    case ValidationError => "Validation error: "
  }

  /** The class whose status code is `status`, if any. */
  function ClassOfStatus(status: nat): Option<ErrorClass>
  {
    if status == 500 then Some(DatabaseError)
    else if status == 401 then Some(AuthenticationError)
    else if status == 403 then Some(AuthorizationError)
    else if status == 400 then Some(ValidationError)
    else None
  }

  /** Reads back the class and the caller's detail from a raised error, when the
      error has the shape one of the four classes produces. */
  function Classify(e: HttpError): Option<(ErrorClass, string)>
  {
    match ClassOfStatus(e.status)
    case None => None
    case Some(c) =>
      var p := PrefixOf(c);
      if |p| <= |e.detail| && e.detail[..|p|] == p then Some((c, e.detail[|p|..])) else None
  }

  /** `DatabaseError(detail)` and its siblings: the error carries the class's status,
      and its class and the caller's detail can be read back from it. */
  function Raise(c: ErrorClass, detail: string): (e: HttpError)
    ensures Classify(e) == Some((c, detail))
    ensures |e.detail| >= |detail| && e.detail[|e.detail| - |detail|..] == detail
  {
    var p := PrefixOf(c);
    var e := HttpError(StatusOf(c), p + detail);
    assert e.detail[..|p|] == p && e.detail[|p|..] == detail;
    e
  }

  /** Conversely, every error that classifies is the one its class would raise. */
  lemma ClassifyInvertsRaise(e: HttpError, c: ErrorClass, detail: string)
    requires Classify(e) == Some((c, detail))
    ensures e == Raise(c, detail)
  {
    var p := PrefixOf(c);
    assert e.detail == e.detail[..|p|] + e.detail[|p|..];
  }

  /** The exceptions an endpoint body can raise, as far as the wrapper tells them apart. */
  datatype Exception =
    | SQLAlchemyError(message: string)
    | HTTPException(error: HttpError)
    | OtherException(name: string, message: string)

  /** How a call ends: with a value or with an exception. */
  datatype Completion<T> = Returned(value: T) | Raised(exc: Exception)

  /** `handle_database_operation`: a call that raised a database exception raises a
      `DatabaseError` carrying that exception's text instead; everything else,
      results and other exceptions alike, passes through. */
  function HandleDatabaseOperation<T>(c: Completion<T>): (r: Completion<T>)
    ensures r.Returned? <==> c.Returned?
    ensures c.Returned? ==> r == c
    ensures !(r.Raised? && r.exc.SQLAlchemyError?)
    ensures c.Raised? && c.exc.SQLAlchemyError? ==>
      r.exc.HTTPException? && r.exc.error.status == 500 &&
      Classify(r.exc.error) == Some((DatabaseError, c.exc.message))
    ensures c.Raised? && !c.exc.SQLAlchemyError? ==> r == c
  {
    match c
    case Raised(SQLAlchemyError(m)) => Raised(HTTPException(Raise(DatabaseError, m)))
    case _ => c
  }

  /** Wrapping an already wrapped call changes nothing more. */
  lemma HandleDatabaseOperationIdempotent<T>(c: Completion<T>)
    ensures HandleDatabaseOperation(HandleDatabaseOperation(c)) == HandleDatabaseOperation(c)
  {
  }

  /** The request data the validator inspects: a dict (only its keys matter), a list
      of further data, or anything else. */
  datatype Input = Dict(keys: set<string>) | List(items: seq<Input>) | Scalar

  /** `a` can be obtained from `b` by deleting elements. */
  ghost predicate IsSubsequence<T>(a: seq<T>, b: seq<T>)
  {
    a == [] || (b != [] && ((a[0] == b[0] && IsSubsequence(a[1..], b[1..])) || IsSubsequence(a, b[1..])))
  }

  /** The required fields that are not keys of the dict, in their listed order. */
  function MissingFields(keys: set<string>, required: seq<string>): (missing: seq<string>)
    ensures |missing| <= |required|
    ensures forall f :: f in missing <==> f in required && f !in keys
    ensures forall f :: multiset(missing)[f] == if f in keys then 0 else multiset(required)[f]
  {
    if required == [] then []
    else
      assert required == [required[0]] + required[1..];
      (if required[0] in keys then [] else [required[0]]) + MissingFields(keys, required[1..])
  }

  /** The missing fields keep the order of `required`. */
  lemma {:induction false} MissingFieldsInOrder(keys: set<string>, required: seq<string>)
    ensures IsSubsequence(MissingFields(keys, required), required)
  {
    if required != [] {
      var rest := MissingFields(keys, required[1..]);
      MissingFieldsInOrder(keys, required[1..]);
      if required[0] in keys {
        assert MissingFields(keys, required) == rest;
      } else {
        var missing := [required[0]] + rest;
        assert MissingFields(keys, required) == missing;
        assert missing[1..] == rest;
      }
    }
  }

  /** Every dict nested in `data` through lists has every required field. */
  ghost predicate Satisfies(data: Input, required: seq<string>)
  {
    match data
    case Dict(keys) => forall f :: f in required ==> f in keys
    case List(items) => forall i :: 0 <= i < |items| ==> Satisfies(items[i], required)
    case Scalar => true
  }

  /** The text in front of the list of missing fields. */
  const MissingPrefix: string := "Missing required fields: "

  /** The detail message for a dict that lacks `missing`: the prefix, then the
      missing fields separated by `", "`. */
  function MissingMessage(missing: seq<string>): (detail: string)
    ensures |detail| >= |MissingPrefix| && detail[..|MissingPrefix|] == MissingPrefix
    ensures missing == [] ==> detail == MissingPrefix
    ensures missing != [] ==>
      |detail| == |MissingPrefix| + TotalLength(missing) + 2 * (|missing| - 1)
      && detail[|MissingPrefix|..|MissingPrefix| + |missing[0]|] == missing[0]
  {
    MissingPrefix + Join(missing, ", ")
  }

  /** `validate_user_input`: passes exactly when every dict reachable through lists
      has all required fields; a dict that lacks some raises a `ValidationError`
      listing them; a list stops at its first failing item. */
  function ValidateUserInput(data: Input, required: seq<string>): (r: Outcome<HttpError>)
    ensures r.Pass? <==> Satisfies(data, required)
    ensures r.Fail? ==> r.error.status == 400 && Classify(r.error).Some? && Classify(r.error).value.0 == ValidationError
    ensures data.Dict? && r.Fail? ==>
      r.error == Raise(ValidationError, MissingMessage(MissingFields(data.keys, required)))
    decreases data, 1
  {
    match data
    case Dict(keys) =>
      var missing := MissingFields(keys, required);
      if missing != [] then
        assert missing[0] in missing;
        Fail(Raise(ValidationError, MissingMessage(missing)))
      else Pass
    case List(items) => ValidateItems(items, required)
    case Scalar => Pass
  }

  /** The `for item in data` loop of the list case. */
  function ValidateItems(items: seq<Input>, required: seq<string>): (r: Outcome<HttpError>)
    ensures r.Pass? <==> forall i :: 0 <= i < |items| ==> Satisfies(items[i], required)
    ensures r.Fail? ==> r.error.status == 400 && Classify(r.error).Some? && Classify(r.error).value.0 == ValidationError
    decreases items, 0
  {
    if items == [] then Pass
    else
      match ValidateUserInput(items[0], required)
      case Fail(e) => Fail(e)
      case Pass => ValidateItems(items[1..], required)
  }

  /** A list reports the error of its first failing item. */
  lemma {:induction false} FirstFailureReported(items: seq<Input>, required: seq<string>, k: nat)
    requires k < |items| && ValidateUserInput(items[k], required).Fail?
    requires forall j :: 0 <= j < k ==> Satisfies(items[j], required)
    ensures ValidateUserInput(List(items), required) == ValidateUserInput(items[k], required)
  {
    if k > 0 {
      assert items[1..][k - 1] == items[k];
      assert ValidateUserInput(items[0], required).Pass?;
      FirstFailureReported(items[1..], required, k - 1);
      assert ValidateUserInput(List(items[1..]), required) == ValidateItems(items[1..], required);
    }
  }
}
