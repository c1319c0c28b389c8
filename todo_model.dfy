/** The todo record of the todo service (backend/todo-app/backend/src/models/Todo.js):
    the schema's field rules (trimming, required, maximum lengths, the
    priority enumeration), its defaults, and the derived `status`. */
module TodoModel {
  import opened Wrappers
  import opened Text

  const MaxTitle: nat := 100
  const MaxDescription: nat := 500
  const Priorities: seq<string> := ["low", "medium", "high"]
  const DefaultPriority: string := "medium"

  /** The stored fields of a todo. `dueDate` is a time in milliseconds, or
      `null`. */
  datatype Fields = Fields(title: string, description: string, completed: bool,
                           priority: string, dueDate: Option<int>)

  /** A request body as the schema sees it: each field absent or given
      (a given `dueDate` may be `null`). */
  datatype Body = Body(title: Field<string>, description: Field<string>, completed: Field<bool>,
                       priority: Field<string>, dueDate: Field<Option<int>>)

  /** A failed schema validator; `PriorityInvalid` carries the rejected value. */
  datatype FieldError = TitleRequired | TitleTooLong | DescriptionTooLong | PriorityInvalid(value: string)

  function Message(e: FieldError): string {
    match e
    case TitleRequired => "Title is required"
    case TitleTooLong => "Title cannot exceed 100 characters"
    case DescriptionTooLong => "Description cannot exceed 500 characters"
    case PriorityInvalid(v) => "`" + v + "` is not a valid enum value for path `priority`."
  }

  /** Each failure has its own message: the text sent back tells which
      validator failed and, for the priority, which value it rejected. */
  lemma MessageIdentifiesError(a: FieldError, b: FieldError)
    ensures Message(a) == Message(b) ==> a == b
  {
    if Message(a) == Message(b) {
      var m := Message(a);
      if a.PriorityInvalid? && b.PriorityInvalid? {
        assert |a.value| == |b.value|;
        assert m[1..1 + |a.value|] == a.value;
        assert Message(b)[1..1 + |b.value|] == b.value;
      }
    }
  }

  /** A stored record satisfies every rule of the schema; the text fields
      hold what the `trim` setter leaves. */
  predicate WellFormed(f: Fields) {
    && f.title != "" && Trimmed(f.title) && JsLength(f.title) <= MaxTitle
    && Trimmed(f.description) && JsLength(f.description) <= MaxDescription
    && f.priority in Priorities
  }

  // ---------------------------------------------------------------------------
  // Validation of one given field (after the `trim` setter)
  // ---------------------------------------------------------------------------

  /** `required` rejects exactly the titles made of whitespace only. */
  lemma TitleRequiredIffBlank(title: string)
    ensures TitleRequired in TitleErrors(title) <==>
      forall k :: 0 <= k < |title| ==> IsJsWhitespace(title[k])
  {
    TrimEmptyIffBlank(title);
  }

  /** The errors of a given title: `required` fails on an empty string, then
      `maxlength`. */
  function TitleErrors(title: string): (r: seq<FieldError>)
    ensures TitleRequired in r <==> Trim(title) == ""
    ensures TitleTooLong in r <==> JsLength(Trim(title)) > MaxTitle
    ensures r == [] <==> Trim(title) != "" && JsLength(Trim(title)) <= MaxTitle
  {
    var t := Trim(title);
    if t == "" then [TitleRequired]
    else if JsLength(t) > MaxTitle then [TitleTooLong]
    else []
  }

  /** `maxlength` counts UTF-16 code units: a title of 99 letters and one
      emoji is 101 units long and is rejected. */
  lemma EmojiTitleTooLong()
    ensures TitleErrors(seq(99, _ => 'a') + ['\U{1F600}']) == [TitleTooLong]
  {
    var t := seq(99, _ => 'a') + ['\U{1F600}'];
    TrimOfTrimmed(t);
    assert IsAstral(t[99]);
  }

  function DescriptionErrors(description: string): (r: seq<FieldError>)
    ensures r == [] <==> JsLength(Trim(description)) <= MaxDescription
  {
    if JsLength(Trim(description)) > MaxDescription then [DescriptionTooLong] else []
  }

  function PriorityErrors(priority: string): (r: seq<FieldError>)
    ensures r == [] <==> priority in Priorities
  {
    if priority in Priorities then [] else [PriorityInvalid(priority)]
  }

  /** The given fields' errors in schema order; absent fields are not checked. */
  function GivenErrors(b: Body): seq<FieldError> {
    (match b.title case Present(t) => TitleErrors(t) case Absent => []) +
    (match b.description case Present(d) => DescriptionErrors(d) case Absent => []) +
    (match b.priority case Present(p) => PriorityErrors(p) case Absent => [])
  }

  // ---------------------------------------------------------------------------
  // Creation: `Todo.create(body)`
  // ---------------------------------------------------------------------------

  /** All validator failures of a new document: a missing title fails
      `required`; a missing description or priority takes its valid default. */
  function CreateErrors(b: Body): (r: seq<FieldError>)
    ensures r == [] <==>
      && b.title.Present? && Trim(b.title.value) != "" && JsLength(Trim(b.title.value)) <= MaxTitle
      && (b.description.Present? ==> JsLength(Trim(b.description.value)) <= MaxDescription)
      && (b.priority.Present? ==> b.priority.value in Priorities)
    ensures b.title.Absent? ==> TitleRequired in r
  {
    (if b.title.Absent? then [TitleRequired] else []) + GivenErrors(b)
  }

  /** The document `create` stores: trimmed text, and the defaults
      `''`, `false`, `'medium'` and `null` for absent fields. */
  function Defaulted(b: Body): (f: Fields)
    requires CreateErrors(b) == []
    ensures WellFormed(f)
    ensures f.title == Trim(b.title.value)
    ensures f.description == (if b.description.Present? then Trim(b.description.value) else "")
    ensures f.completed == (b.completed.Present? && b.completed.value)
    ensures f.priority == (if b.priority.Present? then b.priority.value else DefaultPriority)
    ensures f.dueDate == (if b.dueDate.Present? then b.dueDate.value else None)
  {
    PatchOfDefaultsFits(b);
    Patch(Defaults, b)
  }

  /** The schema defaults, before any given field is set; the empty title is
      a placeholder that `required` never lets through. */
  const Defaults := Fields("", "", false, DefaultPriority, None)

  lemma PatchOfDefaultsFits(b: Body)
    requires CreateErrors(b) == []
    ensures UpdateErrors(b) == []
    ensures var f := Patch(Defaults, b);
      && WellFormed(f)
      && f.title == Trim(b.title.value)
      && f.description == (if b.description.Present? then Trim(b.description.value) else "")
      && f.completed == (b.completed.Present? && b.completed.value)
      && f.priority == (if b.priority.Present? then b.priority.value else DefaultPriority)
      && f.dueDate == (if b.dueDate.Present? then b.dueDate.value else None)
  {
    var f := Patch(Defaults, b);
    assert f.title != "" && JsLength(f.title) <= MaxTitle;
    assert Trimmed(f.title);
    if b.description.Present? {
      assert JsLength(f.description) <= MaxDescription && Trimmed(f.description);
    } else {
      assert JsLength(f.description) <= MaxDescription && Trimmed(f.description);
    }
    assert f.priority in Priorities;
  }

  /** Validate, then default: the new document or every failed validator. */
  function Create(b: Body): (r: Result<Fields, seq<FieldError>>)
    ensures r.Success? <==> CreateErrors(b) == []
    ensures r.Failure? ==> r.error == CreateErrors(b) && r.error != []
    ensures r.Success? ==> WellFormed(r.value) && r.value == Defaulted(b)
  {
    var errors := CreateErrors(b);
    if errors == [] then Success(Defaulted(b)) else Failure(errors)
  }

  /** Every field of a body, given. */
  function AsBody(f: Fields): Body {
    Body(Present(f.title), Present(f.description), Present(f.completed), Present(f.priority), Present(f.dueDate))
  }

  /** Creating from a stored record's own fields stores that record again:
      validation accepts it and the setters and defaults change nothing. */
  lemma CreateRoundTrip(f: Fields)
    requires WellFormed(f)
    ensures Create(AsBody(f)) == Success(f)
  {
    TrimOfTrimmed(f.title);
    TrimOfTrimmed(f.description);
  }

  /** A body whose text is already trimmed is stored as sent: it is accepted
      exactly when its title is non-empty and short enough, its description
      short enough and its priority (if given) allowed. */
  lemma CreateOfTrimmedText(b: Body)
    requires b.title.Present? && Trimmed(b.title.value)
    requires b.description.Present? && Trimmed(b.description.value)
    ensures Create(b).Success? <==>
      && b.title.value != "" && JsLength(b.title.value) <= MaxTitle
      && JsLength(b.description.value) <= MaxDescription
      && (b.priority.Present? ==> b.priority.value in Priorities)
    ensures Create(b).Success? ==>
      Create(b).value.title == b.title.value && Create(b).value.description == b.description.value
  {
    TrimOfTrimmed(b.title.value);
    TrimOfTrimmed(b.description.value);
  }

  /** An absent title is never accepted. */
  lemma CreateNeedsTitle(b: Body)
    requires b.title.Absent?
    ensures Create(b).Failure? && TitleRequired in Create(b).error
  {
  }

  // ---------------------------------------------------------------------------
  // Update: `findByIdAndUpdate(id, body, { runValidators: true })`
  // ---------------------------------------------------------------------------

  /** The update validators run on the given paths only. */
  function UpdateErrors(b: Body): (r: seq<FieldError>)
    ensures r == [] <==>
      && (b.title.Present? ==> Trim(b.title.value) != "" && JsLength(Trim(b.title.value)) <= MaxTitle)
      && (b.description.Present? ==> JsLength(Trim(b.description.value)) <= MaxDescription)
      && (b.priority.Present? ==> b.priority.value in Priorities)
  {
    GivenErrors(b)
  }

  /** The stored record after `$set` of the given fields (text trimmed by the
      setters); the other fields keep their values. */
  function Patch(f: Fields, b: Body): (r: Fields)
    requires UpdateErrors(b) == []
    ensures WellFormed(f) ==> WellFormed(r)
    ensures r.title == (if b.title.Present? then Trim(b.title.value) else f.title)
    ensures r.description == (if b.description.Present? then Trim(b.description.value) else f.description)
    ensures r.completed == (if b.completed.Present? then b.completed.value else f.completed)
    ensures r.priority == (if b.priority.Present? then b.priority.value else f.priority)
    ensures r.dueDate == (if b.dueDate.Present? then b.dueDate.value else f.dueDate)
  {
    Fields(if b.title.Present? then Trim(b.title.value) else f.title,
           if b.description.Present? then Trim(b.description.value) else f.description,
           if b.completed.Present? then b.completed.value else f.completed,
           if b.priority.Present? then b.priority.value else f.priority,
           if b.dueDate.Present? then b.dueDate.value else f.dueDate)
  }

  /** The empty body updates nothing. */
  lemma PatchEmpty(f: Fields)
    ensures UpdateErrors(Body(Absent, Absent, Absent, Absent, Absent)) == []
    ensures Patch(f, Body(Absent, Absent, Absent, Absent, Absent)) == f
  {
  }

  /** Patching with every field of a record yields that record, whatever was
      stored before. */
  lemma PatchWithAllFields(g: Fields, f: Fields)
    requires WellFormed(f)
    ensures UpdateErrors(AsBody(f)) == []
    ensures Patch(g, AsBody(f)) == f
  {
    TrimOfTrimmed(f.title);
    TrimOfTrimmed(f.description);
  }

  /** Patching twice with the same body is patching once. */
  lemma PatchIdempotent(f: Fields, b: Body)
    requires UpdateErrors(b) == []
    ensures Patch(Patch(f, b), b) == Patch(f, b)
  {
    var once := Patch(f, b);
    var twice := Patch(once, b);
    if b.title.Present? {
      TrimIdempotent(b.title.value);
    }
    if b.description.Present? {
      TrimIdempotent(b.description.value);
    }
    assert twice.title == once.title && twice.description == once.description;
  }

  // ---------------------------------------------------------------------------
  // The `status` virtual
  // ---------------------------------------------------------------------------

  datatype Status = Completed | Overdue | Active

  /** `status` at time `now` (milliseconds): completion wins, then a due date
      strictly before now makes the todo overdue, else it is active. */
  function StatusAt(f: Fields, now: int): (r: Status)
    ensures r == Completed <==> f.completed
    ensures r == Overdue <==> !f.completed && f.dueDate.Some? && f.dueDate.value < now
    ensures r == Active <==> !f.completed && (f.dueDate.None? || now <= f.dueDate.value)
  {
    if f.completed then Completed
    else if f.dueDate.Some? && f.dueDate.value < now then Overdue
    else Active
  }

  /** As time passes an overdue todo stays overdue and an active one can only
      become overdue; completion is unaffected by time. */
  lemma StatusMonotone(f: Fields, now: int, later: int)
    requires now <= later
    ensures StatusAt(f, now) == Overdue ==> StatusAt(f, later) == Overdue
    ensures StatusAt(f, later) == Active ==> StatusAt(f, now) == Active
    ensures StatusAt(f, now) == Completed <==> StatusAt(f, later) == Completed
  {
  }
}
