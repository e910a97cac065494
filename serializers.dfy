/** The public feedback serializer: which fields are shown, which a client may
    write, and how a request body is validated into a new row's fields. */
module Serializers {
  import opened Wrappers
  import opened Text
  import opened Records

  /** JSON values of request and response bodies. `JTime` stands for the
      ISO 8601 text that is written for a timestamp; `JCompound` is an array
      or an object, whose contents nothing here looks at. */
  datatype Json = JNull | JBool(b: bool) | JInt(i: int) | JString(s: string) | JTime(t: Timestamp) | JCompound

  /** A JSON object in key order. */
  type Object = seq<(string, Json)>

  /** The serializer's `fields`, in order, and its `read_only_fields`. */
  const Fields: seq<string> := ["id", "title", "content", "created_at"]
  const ReadOnlyFields: seq<string> := ["id", "created_at"]

  predicate Writable(field: string) {
    field in Fields && field !in ReadOnlyFields
  }

  /** Only the title and the content can be written by a client. */
  lemma WritableFields(field: string)
    ensures Writable(field) <==> field == "title" || field == "content"
  {
  }

  function Keys(obj: Object): seq<string> {
    seq(|obj|, k requires 0 <= k < |obj| => obj[k].0)
  }

  /** The public representation of a row: exactly id, title, content and
      created_at, in that order. */
  function Represent(r: Feedback): (out: Object)
    ensures Keys(out) == Fields
    ensures "is_reviewed" !in Keys(out) && "reviewed_at" !in Keys(out)
    ensures out[0].1 == JInt(r.id) && out[1].1 == JString(r.title)
    ensures out[2].1 == JString(r.content) && out[3].1 == JTime(r.createdAt)
  {
    [("id", JInt(r.id)), ("title", JString(r.title)), ("content", JString(r.content)),
     ("created_at", JTime(r.createdAt))]
  }

  /** The review state never shows: two rows that differ only in it look the same. */
  lemma RepresentHidesReview(r: Feedback, flag: bool, at: Option<Timestamp>)
    ensures Represent(r.(isReviewed := flag, reviewedAt := at)) == Represent(r)
  {
  }

  /** The fields of a new row taken from a valid request body. */
  datatype Draft = Draft(title: string, content: string)

  /** Field name and messages, in field order: the body of a 400 response. */
  type FieldErrors = seq<(string, seq<string>)>

  const BlankMessage := "This field may not be blank."
  const NullCharacterMessage := "Null characters are not allowed."

  /** The text of a string or whole-number value as the character field
      takes it: refused when blank once stripped, stored stripped, and
      refused when the stripped text holds a NUL character. */
  function TextValue(s: string): (r: Result<string, string>)
    ensures r == Failure(BlankMessage) <==> AllSpace(Python, s)
    ensures r == Failure(NullCharacterMessage) <==> !AllSpace(Python, s) && '\0' in s
    ensures r.Success? <==> !AllSpace(Python, s) && '\0' !in s
    ensures r.Success? ==> r.value == Trim(Python, s) && r.value != "" && Trim(Python, r.value) == r.value
  {
    var v := Trim(Python, s);
    TrimKeeps(Python, s, '\0');
    TrimIdempotent(Python, s);
    if v == "" then Failure(BlankMessage)
    else if '\0' in v then Failure(NullCharacterMessage)
    else Success(v)
  }

  const RequiredMessage := "This field is required."
  const NullMessage := "This field may not be null."
  const InvalidMessage := "Not a valid string."

  /** A required character field read from a request body: absent, null or
      non-text values are refused with the framework's messages; a string is
      taken as its text and a whole number as its decimal text. */
  function CharField(body: map<string, Json>, name: string): (r: Result<string, string>)
    ensures name !in body ==> r == Failure(RequiredMessage)
    ensures name in body && body[name] == JNull ==> r == Failure(NullMessage)
    ensures name in body && body[name].JString? ==> r == TextValue(body[name].s)
    ensures name in body && body[name].JInt? ==> r == TextValue(IntToDecimal(body[name].i))
    ensures name in body && (body[name].JBool? || body[name].JTime? || body[name].JCompound?) ==>
      r == Failure(InvalidMessage)
  {
    if name !in body then Failure(RequiredMessage)
    else
      match body[name]
      case JNull => Failure(NullMessage)
      case JString(s) => TextValue(s)
      case JInt(i) => TextValue(IntToDecimal(i))
      case _ => Failure(InvalidMessage)
  }

  /** A whole number is always accepted, as its decimal text: that text is
      never blank, never padded and holds no NUL. */
  lemma WholeNumberAccepted(body: map<string, Json>, name: string)
    requires name in body && body[name].JInt?
    ensures CharField(body, name) == Success(IntToDecimal(body[name].i))
  {
    var d := IntToDecimal(body[name].i);
    assert forall k :: 0 <= k < |d| ==> d[k] == '-' || '0' <= d[k] <= '9';
    assert !IsSpace(Python, d[0]) && !IsSpace(Python, d[|d| - 1]);
    TrimOfTrimmed(Python, d);
    assert d[0] in d;
    assert '\0' !in d;
  }

  function ErrorEntry(name: string, r: Result<string, string>): FieldErrors {
    if r.Failure? then [(name, [r.error])] else []
  }

  /** `serializer.is_valid()` and `validated_data` for a create request. A
      failure lists exactly the failing fields, title before content, each
      with its one message. */
  function Validate(body: map<string, Json>): (r: Result<Draft, FieldErrors>)
    ensures r.Success? <==> CharField(body, "title").Success? && CharField(body, "content").Success?
    ensures r.Success? ==> r.value == Draft(CharField(body, "title").value, CharField(body, "content").value)
    ensures r.Failure? ==>
      |r.error| == (if CharField(body, "title").Failure? then 1 else 0) + (if CharField(body, "content").Failure? then 1 else 0)
    ensures r.Failure? && CharField(body, "title").Failure? ==>
      r.error[0] == ("title", [CharField(body, "title").error])
    ensures r.Failure? && CharField(body, "content").Failure? ==>
      r.error[|r.error| - 1] == ("content", [CharField(body, "content").error])
    ensures r.Failure? ==> forall e :: e in r.error ==> Writable(e.0)
  {
    var title, content := CharField(body, "title"), CharField(body, "content");
    if title.Success? && content.Success? then Success(Draft(title.value, content.value))
    else Failure(ErrorEntry("title", title) + ErrorEntry("content", content))
  }

  /** Keys that are not writable (id, created_at, is_reviewed, anything else)
      have no effect on validation, whatever their value. */
  lemma ValidateIgnoresReadOnly(body: map<string, Json>, key: string, value: Json)
    requires !Writable(key)
    ensures Validate(body[key := value]) == Validate(body)
    ensures Validate(body - {key}) == Validate(body)
  {
    WritableFields(key);
    assert CharField(body[key := value], "title") == CharField(body, "title");
    assert CharField(body[key := value], "content") == CharField(body, "content");
    assert CharField(body - {key}, "title") == CharField(body, "title");
    assert CharField(body - {key}, "content") == CharField(body, "content");
  }
}
