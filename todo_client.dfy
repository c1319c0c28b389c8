/** The browser client of the todo service (backend/todo-app/frontend/js/app.js):
    its module state, the list URL it fetches, the request the task form
    submits, and the create / edit mode switched by `editingTodoId`. */
module TodoClient {
  import opened Wrappers
  import opened Text
  import TodoModel

  const Endpoint: string := "http://localhost:5000/api/todos"

  /** A todo as the list response delivers it (`_id` and the date as text);
      `description` and `dueDate` may be missing or null. */
  datatype ClientTodo = ClientTodo(id: string, title: string, description: Option<string>,
                                   priority: string, dueDate: Option<string>, completed: bool)

  /** The values of the task form's inputs. */
  datatype Form = Form(title: string, description: string, priority: string, dueDate: string)

  /** A JSON request body: each property sent or not. */
  datatype RequestBody = RequestBody(title: Field<string>, description: Field<string>,
                                     priority: Field<string>, completed: Field<bool>,
                                     dueDate: Field<string>)

  /** What a form submission or a checkbox click sends. */
  datatype Request =
    | CreateRequest(body: RequestBody)              // POST /todos
    | UpdateRequest(id: string, body: RequestBody)  // PUT /todos/:id

  // ---------------------------------------------------------------------------
  // The list URL built by `fetchTodos`
  // ---------------------------------------------------------------------------

  /** The `URLSearchParams` the current filter and sort produce, in append
      order. */
  function Params(filter: string, sort: string): seq<(string, string)> {
    (if filter == "completed" then [("completed", "true")]
     else if filter == "active" then [("completed", "false")]
     else []) +
    (if sort != "newest" then [("sort", sort)] else [])
  }

  /** The value of the first parameter named `key`, if any. */
  function Param(ps: seq<(string, string)>, key: string): (r: Option<string>)
    ensures r.None? <==> forall i :: 0 <= i < |ps| ==> ps[i].0 != key
    ensures r.Some? ==> exists i :: FirstWithKey(ps, key, i) && ps[i].1 == r.value
  {
    if ps == [] then None
    else if ps[0].0 == key then
      assert FirstWithKey(ps, key, 0);
      Some(ps[0].1)
    else
      var r := Param(ps[1..], key);
      if r.Some? then
        var i :| FirstWithKey(ps[1..], key, i) && ps[1..][i].1 == r.value;
        assert FirstWithKey(ps, key, i + 1);
        r
      else r
  }

  /** Position `i` holds the first parameter named `key`. */
  predicate FirstWithKey(ps: seq<(string, string)>, key: string, i: int) {
    0 <= i < |ps| && ps[i].0 == key && forall j :: 0 <= j < i ==> ps[j].0 != key
  }

  /** `params.toString()`, without percent-encoding: `k=v` pairs joined by `&`. */
  function QueryString(ps: seq<(string, string)>): (r: string)
    ensures r == "" <==> ps == []
  {
    if ps == [] then ""
    else ps[0].0 + "=" + ps[0].1 + (if |ps| == 1 then "" else "&" + QueryString(ps[1..]))
  }

  /** The URL `fetchTodos` requests: the endpoint, then `?` and the query when
      any parameter was added. */
  function RequestUrl(filter: string, sort: string): string {
    var qs := QueryString(Params(filter, sort));
    Endpoint + (if qs != "" then "?" + qs else "")
  }

  /** The filter `completed` asks for `completed=true`, `active` for
      `completed=false`, any other filter for nothing; `sort` is sent unless
      it is `newest`. */
  lemma ParamsRules(filter: string, sort: string)
    ensures Param(Params(filter, sort), "completed") ==
      if filter == "completed" then Some("true")
      else if filter == "active" then Some("false")
      else None
    ensures Param(Params(filter, sort), "sort") == if sort != "newest" then Some(sort) else None
    ensures |Params(filter, sort)| <= 2
  {
    var ps := Params(filter, sort);
    if filter == "completed" || filter == "active" {
      assert ps[0].0 == "completed";
      if sort != "newest" {
        assert ps[1..] == [("sort", sort)];
      }
    }
  }

  /** The URL is the bare endpoint exactly when no parameter was added, and
      otherwise continues with `?`. */
  lemma UrlHasQueryIffParams(filter: string, sort: string)
    ensures StartsWith(RequestUrl(filter, sort), Endpoint)
    ensures RequestUrl(filter, sort) == Endpoint <==> Params(filter, sort) == []
    ensures Params(filter, sort) != [] ==> RequestUrl(filter, sort)[|Endpoint|] == '?'
  {
    var url := RequestUrl(filter, sort);
    assert url[..|Endpoint|] == Endpoint;
    if Params(filter, sort) != [] {
      assert |url| > |Endpoint|;
    }
  }

  // ---------------------------------------------------------------------------
  // Request bodies
  // ---------------------------------------------------------------------------

  /** `todoData` of `handleFormSubmit`: trimmed title and description, the
      priority, `completed: false`, and a due date only when one is entered. */
  function SubmitBody(f: Form): (b: RequestBody)
    ensures b.title == Present(Trim(f.title)) && b.description == Present(Trim(f.description))
    ensures b.priority == Present(f.priority) && b.completed == Present(false)
    ensures b.dueDate.Present? <==> f.dueDate != ""
    ensures b.dueDate.Present? ==> b.dueDate.value == f.dueDate
  {
    RequestBody(Present(Trim(f.title)), Present(Trim(f.description)), Present(f.priority),
                Present(false), if f.dueDate != "" then Present(f.dueDate) else Absent)
  }

  /** `toggleTodo`: a body carrying `completed` and nothing else. */
  function ToggleRequest(id: string, completed: bool): (r: Request)
    ensures r.UpdateRequest? && r.id == id
    ensures r.body.completed == Present(completed)
    ensures r.body.title.Absent? && r.body.description.Absent? && r.body.priority.Absent? && r.body.dueDate.Absent?
  {
    UpdateRequest(id, RequestBody(Absent, Absent, Absent, Present(completed), Absent))
  }

  /** The body as the server's schema receives it; `due` is the date the
      server parses from the `dueDate` text (date parsing is not modelled). */
  function ServerBody(b: RequestBody, due: Option<int>): TodoModel.Body {
    TodoModel.Body(b.title, b.description, b.completed, b.priority,
                   if b.dueDate.Present? then Present(due) else Absent)
  }

  /** The server accepts a submitted form exactly when the trimmed title is
      non-empty and at most 100 characters, the trimmed description at most
      500, and the priority one of the three; it then stores the text as
      sent, since trimming again changes nothing. */
  lemma SubmittedFormOnServer(f: Form, due: Option<int>)
    ensures var body := ServerBody(SubmitBody(f), due);
      && (TodoModel.Create(body).Success? <==>
            Trim(f.title) != "" && JsLength(Trim(f.title)) <= TodoModel.MaxTitle &&
            JsLength(Trim(f.description)) <= TodoModel.MaxDescription &&
            f.priority in TodoModel.Priorities)
      && (TodoModel.Create(body).Success? ==>
            TodoModel.Create(body).value.title == Trim(f.title) &&
            TodoModel.Create(body).value.description == Trim(f.description) &&
            !TodoModel.Create(body).value.completed)
  {
    var body := ServerBody(SubmitBody(f), due);
    TodoModel.CreateOfTrimmedText(body);
  }

  /** A toggle request passes the server's update validators and changes
      `completed` only. */
  lemma ToggleOnServer(id: string, completed: bool, stored: TodoModel.Fields)
    ensures var body := ServerBody(ToggleRequest(id, completed).body, None);
      && TodoModel.UpdateErrors(body) == []
      && TodoModel.Patch(stored, body) == stored.(completed := completed)
  {
  }

  // ---------------------------------------------------------------------------
  // Editing
  // ---------------------------------------------------------------------------

  /** `todos.find(t => t._id === id)`: the first todo with that id. */
  function FindById(todos: seq<ClientTodo>, id: string): (r: Option<ClientTodo>)
    ensures r.None? <==> forall i :: 0 <= i < |todos| ==> todos[i].id != id
    ensures r.Some? ==> exists i :: 0 <= i < |todos| && todos[i] == r.value && FirstWithId(todos, id, i)
  {
    if todos == [] then None
    else if todos[0].id == id then
      assert FirstWithId(todos, id, 0);
      Some(todos[0])
    else
      var r := FindById(todos[1..], id);
      if r.Some? then
        var i :| 0 <= i < |todos[1..]| && todos[1..][i] == r.value && FirstWithId(todos[1..], id, i);
        assert FirstWithId(todos, id, i + 1);
        r
      else r
  }

  /** Position `i` holds the first todo with that id. */
  predicate FirstWithId(todos: seq<ClientTodo>, id: string, i: int) {
    0 <= i < |todos| && todos[i].id == id && forall j :: 0 <= j < i ==> todos[j].id != id
  }

  /** A string is truthy when non-empty. */
  predicate Truthy(s: Option<string>) {
    s.Some? && s.value != ""
  }

  /** The inputs `editTodo` fills from a todo: the date input gets the part of
      the ISO date before `T`, or nothing. */
  function EditForm(t: ClientTodo): (f: Form)
    ensures f.title == t.title && f.priority == t.priority
    ensures f.description == t.description.GetOr("")
    ensures !Truthy(t.dueDate) ==> f.dueDate == ""
    ensures Truthy(t.dueDate) ==> StartsWith(t.dueDate.value, f.dueDate) && 'T' !in f.dueDate
    ensures Truthy(t.dueDate) && |f.dueDate| < |t.dueDate.value| ==> t.dueDate.value[|f.dueDate|] == 'T'
  {
    Form(t.title, t.description.GetOr(""), t.priority,
         if Truthy(t.dueDate) then BeforeFirst(t.dueDate.value, 'T') else "")
  }

  /** Submitting a form just filled by `editTodo` resends the todo's trimmed
      text and its priority, and a due date exactly when the stored one has
      a date part. */
  lemma EditThenSubmit(t: ClientTodo)
    ensures SubmitBody(EditForm(t)).title == Present(Trim(t.title))
    ensures SubmitBody(EditForm(t)).description == Present(Trim(t.description.GetOr("")))
    ensures SubmitBody(EditForm(t)).priority == Present(t.priority)
    ensures SubmitBody(EditForm(t)).dueDate.Present? <==> Truthy(t.dueDate) && t.dueDate.value[0] != 'T'
  {
    if Truthy(t.dueDate) {
      var d := t.dueDate.value;
      assert BeforeFirst(d, 'T') == "" <==> d[0] == 'T';
    }
  }

  // ---------------------------------------------------------------------------
  // Module state
  // ---------------------------------------------------------------------------

  /** The module-level state of app.js, and the form inputs it writes.
      `blank` is what `todoForm.reset()` restores (the markup's initial
      values). */
  class TodoApp {
    var todos: seq<ClientTodo>
    var currentFilter: string
    var currentSort: string
    var editingTodoId: Option<string>
    var form: Form
    const blank: Form

    /** Editing mode: `editingTodoId` is truthy. */
    predicate Editing()
      reads this
    {
      Truthy(editingTodoId)
    }

    constructor(blank: Form)
      ensures todos == [] && currentFilter == "all" && currentSort == "newest"
      ensures editingTodoId == None && form == blank && this.blank == blank
    {
      todos := [];
      currentFilter := "all";
      currentSort := "newest";
      editingTodoId := None;
      form := blank;
      this.blank := blank;
    }

    /** The URL `fetchTodos` requests, appending the parameters one by one. */
    method FetchUrl() returns (url: string)
      ensures url == RequestUrl(currentFilter, currentSort)
    {
      var params: seq<(string, string)> := [];
      if currentFilter == "completed" {
        params := params + [("completed", "true")];
      } else if currentFilter == "active" {
        params := params + [("completed", "false")];
      }
      if currentSort != "newest" {
        params := params + [("sort", currentSort)];
      }
      assert params == Params(currentFilter, currentSort);
      var query := QueryString(params);
      url := Endpoint + (if query != "" then "?" + query else "");
    }

    /** The answer to `fetchTodos`: on `success` the list is replaced by the
        data, otherwise it is kept. */
    method ReceiveTodos(success: bool, data: seq<ClientTodo>)
      modifies this`todos
      ensures todos == (if success then data else old(todos))
    {
      if success {
        todos := data;
      }
    }

    /** A filter button: new filter, then a fetch of the URL returned. */
    method SelectFilter(filter: string) returns (url: string)
      modifies this`currentFilter
      ensures currentFilter == filter
      ensures url == RequestUrl(filter, currentSort)
    {
      currentFilter := filter;
      url := FetchUrl();
    }

    /** The sort select: new sort, then a fetch of the URL returned. */
    method SelectSort(sort: string) returns (url: string)
      modifies this`currentSort
      ensures currentSort == sort
      ensures url == RequestUrl(currentFilter, sort)
    {
      currentSort := sort;
      url := FetchUrl();
    }

    /** `handleFormSubmit`: an update of the todo being edited, or a create. */
    method Submit() returns (request: Request)
      ensures Editing() ==> request == UpdateRequest(editingTodoId.value, SubmitBody(form))
      ensures !Editing() ==> request == CreateRequest(SubmitBody(form))
    {
      var body := RequestBody(Present(Trim(form.title)), Present(Trim(form.description)),
                              Present(form.priority), Present(false), Absent);
      if form.dueDate != "" {
        body := body.(dueDate := Present(form.dueDate));
      }
      if Truthy(editingTodoId) {
        request := UpdateRequest(editingTodoId.value, body);
      } else {
        request := CreateRequest(body);
      }
    }

    /** `resetForm`: blank inputs, back to create mode. */
    method ResetForm()
      modifies this`form, this`editingTodoId
      ensures form == blank && editingTodoId == None && !Editing()
    {
      form := blank;
      editingTodoId := None;
    }

    /** `editTodo`: an id not in the list changes nothing; otherwise the form
        shows that todo and the app switches to editing it. */
    method EditTodo(id: string)
      modifies this`form, this`editingTodoId
      ensures FindById(todos, id).None? ==> form == old(form) && editingTodoId == old(editingTodoId)
      ensures FindById(todos, id).Some? ==>
        form == EditForm(FindById(todos, id).value) && editingTodoId == Some(id)
    {
      var found := FindById(todos, id);
      if found.None? {
        return;
      }
      var t := found.value;
      form := Form(t.title, t.description.GetOr(""), t.priority,
                   if Truthy(t.dueDate) then BeforeFirst(t.dueDate.value, 'T') else "");
      editingTodoId := Some(id);
    }

    /** A successful create: the list is fetched again, then the form is reset. */
    method CreateSucceeded(success: bool, data: seq<ClientTodo>)
      modifies this`todos, this`form, this`editingTodoId
      ensures todos == (if success then data else old(todos))
      ensures form == blank && editingTodoId == None
    {
      ReceiveTodos(success, data);
      ResetForm();
    }

    /** A successful update (an edit or a checkbox toggle): the list is
        fetched again, and the form is reset only while editing — so toggling
        a todo during an edit also ends the edit. */
    method UpdateSucceeded(success: bool, data: seq<ClientTodo>)
      modifies this`todos, this`form, this`editingTodoId
      ensures todos == (if success then data else old(todos))
      ensures old(Editing()) ==> form == blank && editingTodoId == None
      ensures !old(Editing()) ==> form == old(form) && editingTodoId == old(editingTodoId)
    {
      ReceiveTodos(success, data);
      if Truthy(editingTodoId) {
        ResetForm();
      }
    }
  }
}
