/**
 * What the create and update handlers do with a request body before they
 * touch the collection: the required-field check, the `rate` check and the
 * field-by-field merge into an existing record.
 */
module Requests {
  import opened Wrappers
  import opened Text
  import opened Numeric
  import opened Books

  /** A decoded JSON value as Python's `json` module hands it over. */
  datatype Json =
    | JNull
    | JBool(b: bool)
    | JNum(n: real)
    | JStr(s: string)
    | JArray(items: seq<Json>)
    | JObject(fields: map<Key, Json>)

  /**
   * A key of a JSON object such as the request body: `"title"`, `"author"`,
   * `"rate"`, `"status"`, or `Other(name)` for any name other than those four.
   */
  datatype Key = Title | Author | Rate | Status | Other(name: string)

  /** A request body: `None` when the request carries no JSON object. */
  type Body = Option<map<Key, Json>>

  /** Why a request was refused. */
  datatype Error =
    | NoJson                       // body missing or empty
    | MissingField(field: Key)     // a required field is absent
    | RateNotNumber                // `float(rate)` raised ValueError
    | RateOutOfRange               // rate below 1 or above 5
    | NotFound(id: int)            // no book carries the id
    | Fault                        // any other exception, caught by the handler
  {
    /** The HTTP status the handler answers with. */
    function HttpStatus(): (code: int)
      ensures code == 404 <==> NotFound?
      ensures code == 500 <==> Fault?
      ensures code == 400 <==> (NoJson? || MissingField? || RateNotNumber? || RateOutOfRange?)
    {
      match this
      case NotFound(_) => 404
      case Fault => 500
      case _ => 400
    }
  }

  /** `if not data`: a missing body and an empty object are both refused. */
  predicate HasData(body: Body): (truthy: bool)
    ensures truthy <==> body.Some? && |body.value.Keys| > 0
  {
    body.Some? && body.value != map[]
  }

  /** The outcome of Python's `float(v)`. */
  datatype FloatResult = Parsed(x: real) | ValueError | TypeError

  function Float(v: Json): (r: FloatResult)
    ensures r.TypeError? <==> v.JNull? || v.JArray? || v.JObject?
    ensures r.ValueError? <==> v.JStr? && ParseDecimal(v.s).None?
    ensures v.JBool? ==> r == Parsed(if v.b then 1.0 else 0.0)
    ensures v.JNum? ==> r == Parsed(v.n)
    ensures v.JStr? && ParseDecimal(v.s).Some? ==> r == Parsed(ParseDecimal(v.s).value)
  {
    match v
    case JBool(b) => Parsed(if b then 1.0 else 0.0)
    case JNum(n) => Parsed(n)
    case JStr(s) =>
      (match ParseDecimal(s)
       case Some(x) => Parsed(x)
       case None => ValueError)
    case _ => TypeError
  }

  /**
   * The `rate` check shared by create and update: accepted exactly when it
   * converts to a number in [1, 5], both bounds included.
   */
  function CheckRate(v: Json): (r: Result<real, Error>)
    ensures r.Ok? <==> Float(v).Parsed? && 1.0 <= Float(v).x <= 5.0
    ensures r.Ok? ==> r.value == Float(v).x
    ensures r == Err(RateNotNumber) <==> Float(v).ValueError?
    ensures r == Err(Fault) <==> Float(v).TypeError?
    ensures r == Err(RateOutOfRange) <==> Float(v).Parsed? && !(1.0 <= Float(v).x <= 5.0)
  {
    match Float(v)
    case Parsed(x) => if x < 1.0 || x > 5.0 then Err(RateOutOfRange) else Ok(x)
    case ValueError => Err(RateNotNumber)
    case TypeError => Err(Fault)
  }

  /** `v.strip()`: only a string has a `strip` method. */
  function StripField(v: Json): (r: Result<string, Error>)
    ensures r.Ok? <==> v.JStr?
    ensures r.Ok? ==> r.value == Strip(v.s) && Trimmed(r.value)
    ensures r.Err? ==> r.error == Fault
  {
    match v
    case JStr(s) => Ok(Strip(s))
    case _ => Err(Fault)
  }

  const RequiredFields: seq<Key> := [Title, Author, Rate, Status]

  /** The first of `fields` that `data` lacks. */
  function FirstMissing(fields: seq<Key>, data: map<Key, Json>): (r: Option<Key>)
    ensures r.None? <==> forall i :: 0 <= i < |fields| ==> fields[i] in data
    ensures r.Some? ==> r.value !in data
    ensures r.Some? ==> exists i :: 0 <= i < |fields| && fields[i] == r.value && forall j :: 0 <= j < i ==> fields[j] in data
  {
    if fields == [] then None
    else if fields[0] !in data then Some(fields[0])
    else
      var r := FirstMissing(fields[1..], data);
      assert r.Some? ==> exists i :: 0 <= i < |fields[1..]| && fields[1..][i] == r.value && forall j :: 0 <= j < i ==> fields[1..][j] in data;
      r
  }

  /** The required-field scan of `add_book` written out for its four fields. */
  lemma FirstMissingRequired(data: map<Key, Json>)
    ensures FirstMissing(RequiredFields, data) ==
      if Title !in data then Some(Title)
      else if Author !in data then Some(Author)
      else if Rate !in data then Some(Rate)
      else if Status !in data then Some(Status)
      else None
  {
    var fs := RequiredFields;
    assert fs[1..] == [Author, Rate, Status];
    assert fs[1..][1..] == [Rate, Status];
    assert fs[1..][1..][1..] == [Status];
    assert fs[1..][1..][1..][1..] == [];
    var last := FirstMissing([Status], data);
    assert last == if Status !in data then Some(Status) else None;
    var two := FirstMissing([Rate, Status], data);
    assert two == if Rate !in data then Some(Rate) else last;
    var three := FirstMissing([Author, Rate, Status], data);
    assert three == if Author !in data then Some(Author) else two;
  }

  /** The caller-supplied part of a new record. */
  datatype Draft = Draft(title: string, author: string, rate: real, status: string)

  /** All four required fields are present. */
  predicate HasRequired(data: map<Key, Json>)
  {
    Title in data && Author in data && Rate in data && Status in data
  }

  /** All four required fields are present and usable. */
  predicate Acceptable(data: map<Key, Json>)
  {
    && HasRequired(data)
    && CheckRate(data[Rate]).Ok?
    && data[Title].JStr? && data[Author].JStr? && data[Status].JStr?
  }

  /**
   * The conversions `add_book` makes once the four fields are present: the
   * rate first, then the stripping of the three text fields. The first
   * failure decides the error.
   */
  function DraftOf(data: map<Key, Json>): (r: Result<Draft, Error>)
    requires HasRequired(data)
    ensures r.Ok? <==> Acceptable(data)
    ensures r.Ok? ==> r.value == Draft(Strip(data[Title].s), Strip(data[Author].s), CheckRate(data[Rate]).value, Strip(data[Status].s))
    ensures r.Err? ==> r.error == if CheckRate(data[Rate]).Err? then CheckRate(data[Rate]).error else Fault
  {
    var rate :- CheckRate(data[Rate]);
    var title :- StripField(data[Title]);
    var author :- StripField(data[Author]);
    var status :- StripField(data[Status]);
    Ok(Draft(title, author, rate, status))
  }

  /**
   * The checks `add_book` makes before it builds the record, in the order it
   * makes them: the body, the four required fields, then the conversions.
   */
  function ValidateCreate(body: Body): (r: Result<Draft, Error>)
    ensures !HasData(body) ==> r == Err(NoJson)
    ensures r.Ok? ==> 1.0 <= r.value.rate <= 5.0
    ensures r.Ok? ==> Trimmed(r.value.title) && Trimmed(r.value.author) && Trimmed(r.value.status)
    ensures r.Err? ==> !r.error.NotFound?
  {
    if !HasData(body) then Err(NoJson)
    else
      var data := body.value;
      match FirstMissing(RequiredFields, data)
      case Some(f) => Err(MissingField(f))
      case None =>
        assert HasRequired(data) by {
          assert RequiredFields[0] in data && RequiredFields[1] in data;
          assert RequiredFields[2] in data && RequiredFields[3] in data;
        }
        DraftOf(data)
  }

  /**
   * A create request is accepted exactly when it has a body whose required
   * fields are all present and usable, and the draft carries the stripped
   * text fields and the converted rate.
   */
  lemma CreateAccepted(body: Body)
    ensures ValidateCreate(body).Ok? <==> HasData(body) && Acceptable(body.value)
    ensures ValidateCreate(body).Ok? ==>
      var data := body.value;
      ValidateCreate(body).value ==
        Draft(Strip(data[Title].s), Strip(data[Author].s), CheckRate(data[Rate]).value, Strip(data[Status].s))
  {
    if HasData(body) {
      FirstMissingRequired(body.value);
    }
  }

  /**
   * A missing field is reported by name, and it is the first one absent in
   * the order title, author, rate, status.
   */
  lemma CreateMissing(body: Body, field: Key)
    requires ValidateCreate(body) == Err(MissingField(field))
    ensures HasData(body) && field !in body.value
    ensures exists i :: 0 <= i < |RequiredFields| && RequiredFields[i] == field && (forall j :: 0 <= j < i ==> RequiredFields[j] in body.value)
  {
    assert HasData(body);
    assert FirstMissing(RequiredFields, body.value) == Some(field);
  }

  /** A body missing a required field is refused with 400, naming the first field absent. */
  lemma MissingRefused(body: Body, field: Key)
    requires HasData(body) && FirstMissing(RequiredFields, body.value) == Some(field)
    ensures ValidateCreate(body) == Err(MissingField(field)) && ValidateCreate(body).error.HttpStatus() == 400
  {
  }

  /**
   * A body with all four fields whose rate fails the check is refused with the
   * check's verdict: 400 for a non-numeric or out-of-range rate.
   */
  lemma BadRateRefused(body: Body)
    requires HasData(body) && HasRequired(body.value) && CheckRate(body.value[Rate]).Err?
    ensures ValidateCreate(body) == Err(CheckRate(body.value[Rate]).error)
  {
    FirstMissingRequired(body.value);
  }

  /** A rate refusal comes only once all four fields are present, and names the rate check's verdict. */
  lemma CreateRateRefused(body: Body)
    requires ValidateCreate(body).Err?
    requires ValidateCreate(body).error.RateNotNumber? || ValidateCreate(body).error.RateOutOfRange?
    ensures HasData(body) && HasRequired(body.value)
    ensures CheckRate(body.value[Rate]) == Err(ValidateCreate(body).error)
  {
    assert HasData(body);
    var data := body.value;
    FirstMissingRequired(data);
    assert HasRequired(data);
    if CheckRate(data[Rate]).Err? {
      BadRateRefused(body);
    }
  }

  /**
   * The changes `update_book` makes to its copy of a record: each supplied
   * text field stripped, a supplied rate checked, the update time set; the
   * id and the creation time kept.
   */
  function Merge(book: Book, data: map<Key, Json>, now: string): (r: Result<Book, Error>)
    ensures r.Ok? <==>
      (Title in data ==> data[Title].JStr?) && (Author in data ==> data[Author].JStr?) &&
      (Rate in data ==> CheckRate(data[Rate]).Ok?) && (Status in data ==> data[Status].JStr?)
    ensures r.Ok? ==> r.value.id == book.id && r.value.createdAt == book.createdAt && r.value.updatedAt == Some(now)
    ensures r.Ok? ==> r.value.title == if Title in data then Strip(data[Title].s) else book.title
    ensures r.Ok? ==> r.value.author == if Author in data then Strip(data[Author].s) else book.author
    ensures r.Ok? ==> r.value.rate == if Rate in data then CheckRate(data[Rate]).value else book.rate
    ensures r.Ok? ==> r.value.status == if Status in data then Strip(data[Status].s) else book.status
    ensures r.Err? && r.error != Fault ==> Rate in data && CheckRate(data[Rate]) == Err(r.error)
    ensures (Rate in data && CheckRate(data[Rate]).Err? &&
             (Title in data ==> data[Title].JStr?) && (Author in data ==> data[Author].JStr?))
            ==> r == Err(CheckRate(data[Rate]).error)
    ensures r == Err(Fault) <==>
      (Title in data && !data[Title].JStr?) || (Author in data && !data[Author].JStr?) ||
      (Rate in data && CheckRate(data[Rate]) == Err(Fault)) ||
      (Status in data && !data[Status].JStr? && (Rate in data ==> CheckRate(data[Rate]).Ok?))
  {
    var title :- if Title in data then StripField(data[Title]) else Ok(book.title);
    var author :- if Author in data then StripField(data[Author]) else Ok(book.author);
    var rate :- if Rate in data then CheckRate(data[Rate]) else Ok(book.rate);
    var status :- if Status in data then StripField(data[Status]) else Ok(book.status);
    Ok(book.(title := title, author := author, rate := rate, status := status, updatedAt := Some(now)))
  }

  /** A body naming none of the four fields only refreshes the update time. */
  lemma MergeNoFields(book: Book, data: map<Key, Json>, now: string)
    requires forall f :: f in RequiredFields ==> f !in data
    ensures Merge(book, data, now) == Ok(book.(updatedAt := Some(now)))
  {
  }
}
