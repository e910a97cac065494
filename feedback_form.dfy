/** The feedback form component: local validation, the mapping of server
    field errors to displayed errors, and the submit handler's state changes. */
module FeedbackForm {
  import opened Wrappers
  import opened Text

  /** A value of the `apiErrors` prop: a list of messages or one message. */
  datatype ErrorValue = Messages(items: seq<string>) | Message(text: string)

  /** The `apiErrors` object, its entries in the order its keys enumerate. */
  type ApiErrors = seq<(string, ErrorValue)>

  /** The displayed errors; a missing entry is `undefined`. */
  datatype Errors = Errors(title: Option<string>, content: Option<string>, general: Option<string>)

  const NoErrors := Errors(None, None, None)

  /** JavaScript truthiness: every array is truthy, a string unless it is empty. */
  predicate Truthy(v: ErrorValue) {
    v.Messages? || v.text != ""
  }

  /** `Array.isArray(v) ? v.join(", ") : String(v)`: a message as it is, a
      list of one message as that message, an empty list as "", and a longer
      list as its first message, ", " and the rest displayed the same way. */
  function Display(v: ErrorValue): (d: string)
    ensures v.Message? ==> d == v.text
    ensures v.Messages? && v.items == [] ==> d == ""
    ensures v.Messages? && |v.items| == 1 ==> d == v.items[0]
    ensures v.Messages? && |v.items| >= 2 ==> d == v.items[0] + ", " + Display(Messages(v.items[1..]))    decreases if v.Messages? then |v.items| else 0
  {
    match v
    case Messages(items) => Join(items, ", ")
    case Message(text) => text
  }

  /** `String(v)`: an array is joined with "," and no space. */
  function Stringify(v: ErrorValue): (d: string)
    ensures v.Message? ==> d == v.text
    ensures v.Messages? && v.items == [] ==> d == ""
    ensures v.Messages? && |v.items| == 1 ==> d == v.items[0]
    ensures v.Messages? && |v.items| >= 2 ==> d == v.items[0] + "," + Stringify(Messages(v.items[1..]))    decreases if v.Messages? then |v.items| else 0
  {
    match v
    case Messages(items) => Join(items, ",")
    case Message(text) => text
  }

  lemma DisplayAndStringifyDiffer()
    ensures Display(Messages(["Too long.", "Bad."])) == "Too long., Bad."
    ensures Stringify(Messages(["Too long.", "Bad."])) == "Too long.,Bad."
  {
  }

  /** The two renderings of a list differ by one space per separator. */
  lemma {:induction false} DisplayAddsSpaces(items: seq<string>)
    requires items != []
    ensures |Display(Messages(items))| == |Stringify(Messages(items))| + |items| - 1
  {
    if |items| > 1 {
      DisplayAddsSpaces(items[1..]);
    }
  }

  /** A list of comma-free messages is recovered from `String(v)` by
      splitting at the commas. */
  lemma StringifySplits(items: seq<string>)
    requires items != [] && forall m :: m in items ==> ',' !in m
    ensures Split(Stringify(Messages(items)), ',') == items
  {
    SplitJoin(items, ',');
  }

  /** `apiErrors[key]`: the value of the first entry under `key` (keys are
      distinct, so it is the only one), or none. */
  function Get(errs: ApiErrors, key: string): (r: Option<ErrorValue>)
    ensures r.Some? <==> exists k :: 0 <= k < |errs| && errs[k].0 == key
    ensures r.Some? ==> exists k :: 0 <= k < |errs| && errs[k] == (key, r.value)
                                    && forall j :: 0 <= j < k ==> errs[j].0 != key
  {
    if errs == [] then None
    else if errs[0].0 == key then Some(errs[0].1)
    else Get(errs[1..], key)
  }

  /** `if (apiErrors[key]) ... = Display(apiErrors[key])`: a message exactly
      when the entry is present and truthy, and then its display form. */
  function FieldMessage(errs: ApiErrors, key: string): (m: Option<string>)
    ensures m.Some? <==> Get(errs, key).Some? && Truthy(Get(errs, key).value)
    ensures m.Some? ==> m.value == Display(Get(errs, key).value)
  {
    match Get(errs, key)
    case Some(v) => if Truthy(v) then Some(Display(v)) else None
    case None => None
  }

  predicate Reserved(key: string) {
    key == "title" || key == "content" || key == "non_field_errors"
  }

  /** Position of the first key other than title, content and
      non_field_errors: `otherKeys[0]`. */
  function FirstOtherKey(errs: ApiErrors): (r: Option<nat>)
    ensures r.Some? ==> r.value < |errs| && !Reserved(errs[r.value].0)
    ensures r.Some? ==> forall j :: 0 <= j < r.value ==> Reserved(errs[j].0)
    ensures r.None? ==> forall j :: 0 <= j < |errs| ==> Reserved(errs[j].0)
  {
    if errs == [] then None
    else if !Reserved(errs[0].0) then Some(0)
    else
      match FirstOtherKey(errs[1..])
      case Some(i) => Some(i + 1)
      case None => None
  }

  /** A general message is missing for the form when it is `undefined` or "". */
  predicate Blank(m: Option<string>) {
    m == None || m == Some("")
  }

  /** The effect run whenever `apiErrors` changes: the errors shown afterwards. */
  function MapApiErrors(apiErrors: Option<ApiErrors>): (e: Errors)
    ensures apiErrors == None || apiErrors == Some([]) ==> e == NoErrors
    ensures apiErrors.Some? ==>
      e.title == FieldMessage(apiErrors.value, "title") && e.content == FieldMessage(apiErrors.value, "content")
    ensures apiErrors.Some? && !Blank(FieldMessage(apiErrors.value, "non_field_errors")) ==>
      e.general == FieldMessage(apiErrors.value, "non_field_errors")
    ensures apiErrors.Some? && Blank(FieldMessage(apiErrors.value, "non_field_errors")) ==>
      match FirstOtherKey(apiErrors.value)
      case Some(i) => e.general == Some(Stringify(apiErrors.value[i].1))
      case None => e.general == FieldMessage(apiErrors.value, "non_field_errors")
  {
    match apiErrors
    case None => NoErrors
    case Some(errs) =>
      var general := FieldMessage(errs, "non_field_errors");
      var other := FirstOtherKey(errs);
      Errors(
        FieldMessage(errs, "title"),
        FieldMessage(errs, "content"),
        if other.Some? && Blank(general) then Some(Stringify(errs[other.value].1)) else general)
  }

  /** A title error is shown exactly when the server sent a truthy title entry,
      and it reads that entry, arrays joined with ", ". */
  lemma TitleErrorFromServer(errs: ApiErrors, v: ErrorValue)
    requires Get(errs, "title") == Some(v)
    ensures MapApiErrors(Some(errs)).title == (if Truthy(v) then Some(Display(v)) else None)
  {
  }

  /** The general message is missing exactly when non_field_errors is missing
      or falsy and every key is title, content or non_field_errors. */
  lemma GeneralMissing(errs: ApiErrors)
    ensures MapApiErrors(Some(errs)).general == None <==>
      FieldMessage(errs, "non_field_errors") == None && forall j :: 0 <= j < |errs| ==> Reserved(errs[j].0)
  {
  }

  const TitleRequired := "Title is required."
  const ContentRequired := "Content is required."
  const SubmitFailed := "Failed to submit feedback. Please try again."

  /** The errors of the local check in `handleSubmit`. */
  function LocalErrors(title: string, content: string): (e: Errors)
    ensures e.title == Some(TitleRequired) <==> AllSpace(JavaScript, title)
    ensures e.title == None <==> !AllSpace(JavaScript, title)
    ensures e.content == Some(ContentRequired) <==> AllSpace(JavaScript, content)
    ensures e.content == None <==> !AllSpace(JavaScript, content)
    ensures e.general == None
    ensures e == NoErrors <==> Trim(JavaScript, title) != "" && Trim(JavaScript, content) != ""
  {
    Errors(
      if Trim(JavaScript, title) == "" then Some(TitleRequired) else None,
      if Trim(JavaScript, content) == "" then Some(ContentRequired) else None,
      None)
  }

  /** The argument given to `onSubmit`. */
  datatype Submission = Submission(title: string, content: string)

  /** The component's state: its inputs, its displayed errors, and the
      `apiErrors` prop it was last rendered with. */
  class Form {
    var title: string
    var content: string
    var errors: Errors
    var apiErrors: Option<ApiErrors>

    /** Mounting: empty fields, and the effect has run once. */
    constructor (apiErrors: Option<ApiErrors>)
      ensures title == "" && content == "" && this.apiErrors == apiErrors
      ensures errors == MapApiErrors(apiErrors)
    {
      title := "";
      content := "";
      this.apiErrors := apiErrors;
      errors := MapApiErrors(apiErrors);
    }

    /** Typing into the inputs. */
    method Edit(newTitle: string, newContent: string)
      modifies this`title, this`content
      ensures title == newTitle && content == newContent
    {
      title := newTitle;
      content := newContent;
    }

    /** A render with a changed `apiErrors` prop: the errors are replaced
      wholesale by the mapped server errors. */
    method ReceiveApiErrors(newApiErrors: Option<ApiErrors>)
      modifies this`apiErrors, this`errors
      ensures apiErrors == newApiErrors && errors == MapApiErrors(newApiErrors)
    {
      apiErrors := newApiErrors;
      errors := MapApiErrors(newApiErrors);
    }

    /** `handleSubmit` up to the `await`: with a blank field only the local
      errors are shown and nothing is sent; otherwise the errors are cleared
      and the trimmed fields are sent. */
    method BeginSubmit() returns (sent: Option<Submission>)
      modifies this`errors
      ensures sent.Some? <==> Trim(JavaScript, title) != "" && Trim(JavaScript, content) != ""
      ensures sent.Some? ==> sent.value == Submission(Trim(JavaScript, title), Trim(JavaScript, content))
      ensures errors == if sent.Some? then NoErrors else LocalErrors(title, content)
    {
      var local := LocalErrors(title, content);
      if local != NoErrors {
        errors := local;
        return None;
      }
      errors := NoErrors;
      sent := Some(Submission(Trim(JavaScript, title), Trim(JavaScript, content)));
    }

    /** `handleSubmit` after `onSubmit` settles: success empties both fields;
      failure keeps them and shows the general failure message only when no
      `apiErrors` prop is set. */
    method SettleSubmit(resolved: bool)
      modifies this`title, this`content, this`errors
      ensures resolved ==> title == "" && content == "" && errors == old(errors)
      ensures !resolved ==> title == old(title) && content == old(content)
      ensures !resolved ==> errors == if apiErrors.None? then Errors(None, None, Some(SubmitFailed)) else old(errors)
    {
      if resolved {
        title := "";
        content := "";
      } else if apiErrors.None? {
        errors := Errors(None, None, Some(SubmitFailed));
      }
    }

    /** The whole handler, for an `onSubmit` that resolves or rejects. */
    method HandleSubmit(resolves: bool) returns (sent: Option<Submission>)
      modifies this`title, this`content, this`errors
      ensures sent.Some? <==> Trim(JavaScript, old(title)) != "" && Trim(JavaScript, old(content)) != ""
      ensures sent.Some? ==> sent.value == Submission(Trim(JavaScript, old(title)), Trim(JavaScript, old(content)))
      ensures sent.None? ==> title == old(title) && content == old(content) && errors == LocalErrors(title, content)
      ensures sent.Some? && resolves ==> title == "" && content == "" && errors == NoErrors
      ensures sent.Some? && !resolves ==>
        title == old(title) && content == old(content)
        && errors == if apiErrors.None? then Errors(None, None, Some(SubmitFailed)) else NoErrors
    {
      sent := BeginSubmit();
      if sent.Some? {
        SettleSubmit(resolves);
      }
    }
  }
}
