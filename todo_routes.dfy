/** The REST routes of the todo service (backend/todo-app/backend/src/routes/todos.js),
    run against an in-memory store: a map from id to record stands in for
    the todo collection. */
module TodoRoutes {
  import opened Wrappers
  import opened Text
  import opened Sequences
  import opened TodoModel

  /** A stored todo: its id, its fields and the `timestamps` the schema adds. */
  datatype Todo = Todo(id: nat, fields: Fields, createdAt: int, updatedAt: int)

  // ---------------------------------------------------------------------------
  // GET / : query and sort construction
  // ---------------------------------------------------------------------------

  /** The Mongo filter built from the query string. */
  datatype ListQuery = ListQuery(completed: Option<bool>, priority: Option<string>)

  /** `completed` is filtered on whenever the parameter is sent, and only the
      exact text `true` selects completed todos; `priority` only when it is
      a non-empty string. */
  function BuildQuery(completed: Option<string>, priority: Option<string>): (q: ListQuery)
    ensures q.completed.Some? <==> completed.Some?
    ensures q.completed.Some? ==> (q.completed.value <==> completed.value == "true")
    ensures q.priority.Some? <==> priority.Some? && priority.value != ""
    ensures q.priority.Some? ==> q.priority == priority
  {
    ListQuery(
      match completed case Some(c) => Some(c == "true") case None => None,
      match priority case Some(p) => (if p != "" then Some(p) else None) case None => None)
  }

  /** A record matches when it agrees with every constraint in the filter. */
  predicate Matches(t: Todo, q: ListQuery) {
    && (q.completed.Some? ==> t.fields.completed == q.completed.value)
    && (q.priority.Some? ==> t.fields.priority == q.priority.value)
  }

  /** The three sort specifications the route can build. */
  datatype SortOption =
    | Oldest            // { createdAt: 1 }
    | ByPriority        // { priority: -1, createdAt: -1 }
    | Newest            // { createdAt: -1 }

  /** `sort=oldest` and `sort=priority` select their orders; anything else,
      or no parameter, sorts newest first. */
  function BuildSort(sort: Option<string>): (r: SortOption)
    ensures r == Oldest <==> sort == Some("oldest")
    ensures r == ByPriority <==> sort == Some("priority")
  {
    if sort == Some("oldest") then Oldest
    else if sort == Some("priority") then ByPriority
    else Newest
  }

  /** `{ priority: -1, createdAt: -1 }`: a larger priority string first, and
      among equal priorities the newer record first. */
  predicate PriorityFirst(a: Todo, b: Todo) {
    || StrLess(b.fields.priority, a.fields.priority)
    || (a.fields.priority == b.fields.priority && a.createdAt >= b.createdAt)
  }

  /** `a` may be listed before `b` under the sort. Priority is compared as a
      string, descending, so "medium" > "low" > "high". */
  function Before(opt: SortOption): (Todo, Todo) -> bool {
    match opt
    case Oldest => (a: Todo, b: Todo) => a.createdAt <= b.createdAt
    case Newest => (a: Todo, b: Todo) => a.createdAt >= b.createdAt
    case ByPriority => (a: Todo, b: Todo) => PriorityFirst(a, b)
  }

  lemma BeforeIsTotalPreorder(opt: SortOption)
    ensures TotalPreorder(Before(opt))
  {
    if opt == ByPriority {
      var le := Before(opt);
      forall a: Todo, b: Todo ensures le(a, b) || le(b, a) {
        StrLessTotal(a.fields.priority, b.fields.priority);
      }
      forall a: Todo, b: Todo, c: Todo | le(a, b) && le(b, c) ensures le(a, c) {
        var pa, pb, pc := a.fields.priority, b.fields.priority, c.fields.priority;
        if StrLess(pb, pa) && StrLess(pc, pb) {
          StrLessTransitive(pc, pb, pa);
        }
      }
    }
  }

  // ---------------------------------------------------------------------------
  // Records of a store
  // ---------------------------------------------------------------------------

  /** The records with ids below `n`, in id order. */
  function RecordsBelow(todos: map<nat, Todo>, n: nat): seq<Todo> {
    if n == 0 then []
    else RecordsBelow(todos, n - 1) + (if n - 1 in todos then [todos[n - 1]] else [])
  }

  /** Ids below `n` that are stored. */
  function KeysBelow(todos: map<nat, Todo>, n: nat): set<nat> {
    set k | k in todos && k < n
  }

  /** `t` is the record stored under its own id. */
  predicate StoredIn(todos: map<nat, Todo>, t: Todo) {
    t.id in todos && todos[t.id] == t
  }

  /** How often `t` appears among the records with ids below `n`. */
  function CountBelow(todos: map<nat, Todo>, n: nat, t: Todo): nat {
    if t.id < n && StoredIn(todos, t) then 1 else 0
  }

  /** Each stored record with an id below `n` is listed exactly once, and
      nothing else is. */
  lemma {:induction false} RecordsBelowCounts(todos: map<nat, Todo>, n: nat)
    requires forall k :: k in todos ==> todos[k].id == k
    ensures forall t :: multiset(RecordsBelow(todos, n))[t] == CountBelow(todos, n, t)
  {
    if n > 0 {
      RecordsBelowCounts(todos, n - 1);
      var prev := RecordsBelow(todos, n - 1);
      var add := if n - 1 in todos then [todos[n - 1]] else [];
      assert multiset(RecordsBelow(todos, n)) == multiset(prev) + multiset(add);
      forall t ensures multiset(RecordsBelow(todos, n))[t] == CountBelow(todos, n, t) {
        if n - 1 in todos && t == todos[n - 1] {
          assert t.id == n - 1;
          assert multiset(add)[t] == 1;
        } else {
          assert multiset(add)[t] == 0;
        }
      }
    }
  }

  /** The listing of ids below `n` is as long as the set of those ids. */
  lemma {:induction false} RecordsBelowLength(todos: map<nat, Todo>, n: nat)
    ensures |RecordsBelow(todos, n)| == |KeysBelow(todos, n)|
  {
    if n > 0 {
      RecordsBelowLength(todos, n - 1);
      if n - 1 in todos {
        assert KeysBelow(todos, n) == KeysBelow(todos, n - 1) + {n - 1};
        assert n - 1 !in KeysBelow(todos, n - 1);
      } else {
        assert KeysBelow(todos, n) == KeysBelow(todos, n - 1);
      }
    }
  }

  /** Filtering the listing one id further adds the record under that id
      when it is stored and kept. */
  lemma FilterStep(todos: map<nat, Todo>, i: nat, p: Todo -> bool)
    ensures Filter(RecordsBelow(todos, i + 1), p) ==
      Filter(RecordsBelow(todos, i), p) + (if i in todos && p(todos[i]) then [todos[i]] else [])
  {
    var add := if i in todos then [todos[i]] else [];
    assert RecordsBelow(todos, i + 1) == RecordsBelow(todos, i) + add;
    FilterAppend(RecordsBelow(todos, i), add, p);
    if i in todos {
      assert add[1..] == [];
    }
  }

  /** Counting the matches up to `n` adds one to the count up to `n - 1`
      exactly when the record under `n - 1` is stored and kept. */
  lemma CountStep(todos: map<nat, Todo>, n: nat, p: Todo -> bool)
    requires n > 0
    ensures |Filter(RecordsBelow(todos, n), p)| ==
      |Filter(RecordsBelow(todos, n - 1), p)| + (if n - 1 in todos && p(todos[n - 1]) then 1 else 0)
  {
    var add := if n - 1 in todos then [todos[n - 1]] else [];
    assert RecordsBelow(todos, n) == RecordsBelow(todos, n - 1) + add;
    FilterAppend(RecordsBelow(todos, n - 1), add, p);
    if n - 1 in todos {
      assert add[1..] == [];
    }
  }

  /** The collection scan behind `find(query)`: the records with ids below
      `n` that `keep` accepts, in id order. */
  method Scan(todos: map<nat, Todo>, n: nat, keep: Todo -> bool) returns (found: seq<Todo>)
    ensures found == Filter(RecordsBelow(todos, n), keep)
  {
    found := [];
    var i := 0;
    while i < n
      invariant 0 <= i <= n
      invariant found == Filter(RecordsBelow(todos, i), keep)
    {
      FilterStep(todos, i, keep);
      if i in todos && keep(todos[i]) {
        found := found + [todos[i]];
      }
      i := i + 1;
    }
  }

  /** `countDocuments({ completed: true })`: the completed records with
      ids below `n`, counted one scan step at a time. */
  method CountCompleted(todos: map<nat, Todo>, n: nat) returns (done: nat)
    ensures done == |Filter(RecordsBelow(todos, n), IsCompleted)|
  {
    done := 0;
    var i := 0;
    while i < n
      invariant 0 <= i <= n
      invariant done == |Filter(RecordsBelow(todos, i), IsCompleted)|
    {
      CountStep(todos, i + 1, IsCompleted);
      if i in todos && IsCompleted(todos[i]) {
        done := done + 1;
      }
      i := i + 1;
    }
  }

  /** `countDocuments({ completed: false })`: the active records with ids
      below `n`. */
  method CountActive(todos: map<nat, Todo>, n: nat) returns (open: nat)
    ensures open == |Filter(RecordsBelow(todos, n), IsActive)|
  {
    open := 0;
    var i := 0;
    while i < n
      invariant 0 <= i <= n
      invariant open == |Filter(RecordsBelow(todos, i), IsActive)|
    {
      CountStep(todos, i + 1, IsActive);
      if i in todos && IsActive(todos[i]) {
        open := open + 1;
      }
      i := i + 1;
    }
  }

  /** The status the service answers with, and its JSON body. */
  datatype Payload =
    | NoData
    | One(todo: Todo)
    | Many(count: nat, todos: seq<Todo>)
    | Summary(total: nat, completed: nat, active: nat, completionRate: real)
    | EmptyObject

  /** A response sent by the route, or an error passed to `next` (the schema
      validators' failures). */
  datatype Reply =
    | Reply(status: int, success: bool, message: Option<string>, payload: Payload)
    | Forwarded(errors: seq<FieldError>)

  const NotFound := Reply(404, false, Some("Todo not found"), NoData)

  function IsCompleted(t: Todo): bool { t.fields.completed }
  function IsActive(t: Todo): bool { !t.fields.completed }

  /** `completionRate` before `toFixed(2)`: a percentage, 0 for an empty store. */
  function CompletionRate(completed: nat, total: nat): (r: real)
    ensures total == 0 ==> r == 0.0
    ensures total > 0 ==> r * total as real == completed as real * 100.0
  {
    if total > 0 then (completed as real / total as real) * 100.0 else 0.0
  }

  /** The rate is a percentage when completed todos are a part of all todos. */
  lemma CompletionRateBounds(completed: nat, total: nat)
    requires completed <= total
    ensures 0.0 <= CompletionRate(completed, total) <= 100.0
    ensures total > 0 && completed == total ==> CompletionRate(completed, total) == 100.0
  {
  }

  /** The todo collection. Ids are handed out in increasing order and never
      reused; every stored record carries its own id and satisfies the
      schema. */
  class TodoStore {
    var todos: map<nat, Todo>
    var nextId: nat

    ghost predicate Valid()
      reads this
    {
      forall k :: k in todos ==> k < nextId && todos[k].id == k && WellFormed(todos[k].fields)
    }

    /** All stored records, in id order. */
    function Records(): seq<Todo>
      reads this
    {
      RecordsBelow(todos, nextId)
    }

    /** `t` is one of the stored records. */
    predicate Stored(t: Todo)
      reads this
    {
      StoredIn(todos, t)
    }

    constructor()
      ensures Valid() && todos == map[] && nextId == 0
    {
      todos := map[];
      nextId := 0;
    }

    /** The listing holds every stored record once and nothing else, and is
        exactly as long as the store. */
    lemma RecordsAreStore()
      requires Valid()
      ensures forall t :: multiset(Records())[t] == if Stored(t) then 1 else 0
      ensures |Records()| == |todos|
    {
      RecordsBelowCounts(todos, nextId);
      RecordsBelowLength(todos, nextId);
      assert KeysBelow(todos, nextId) == todos.Keys;
    }

    /** How often `t` should appear in the listing: once if it is stored and
        matches the query built from the parameters. */
    function Selected(t: Todo, completed: Option<string>, priority: Option<string>): nat
      reads this
    {
      if Stored(t) && Matches(t, BuildQuery(completed, priority)) then 1 else 0
    }

    /** Scanning the store with the query's filter yields each selected
        record once and nothing else. */
    lemma ScanIsSelection(found: seq<Todo>, keep: Todo -> bool, completed: Option<string>, priority: Option<string>)
      requires Valid()
      requires forall t :: keep(t) == Matches(t, BuildQuery(completed, priority))
      requires found == Filter(Records(), keep)
      ensures forall t :: multiset(found)[t] == Selected(t, completed, priority)
    {
      RecordsAreStore();
      forall t ensures multiset(found)[t] == Selected(t, completed, priority) {
        assert multiset(found)[t] == if keep(t) then multiset(Records())[t] else 0;
      }
    }

    /** GET /: the stored records matching the query, in the sort's order. */
    method List(completed: Option<string>, priority: Option<string>, sort: Option<string>)
      returns (reply: Reply)
      requires Valid()
      ensures reply.Reply? && reply.status == 200 && reply.success && reply.payload.Many?
      ensures reply.payload.count == |reply.payload.todos|
      ensures forall t :: multiset(reply.payload.todos)[t] == Selected(t, completed, priority)
      ensures SortedBy(reply.payload.todos, Before(BuildSort(sort)))
    {
      var query := BuildQuery(completed, priority);
      var keep := (t: Todo) => Matches(t, query);
      var found := Scan(todos, nextId, keep);
      ScanIsSelection(found, keep, completed, priority);
      var option := BuildSort(sort);
      BeforeIsTotalPreorder(option);
      var data := Sort(found, Before(option));
      assert multiset(data) == multiset(found);
      reply := Reply(200, true, None, Many(|data|, data));
    }

    /** GET /stats/summary */
    method Stats() returns (reply: Reply)
      requires Valid()
      ensures reply.Reply? && reply.status == 200 && reply.success && reply.payload.Summary?
      ensures reply.payload.total == |todos|
      ensures reply.payload.completed == |Filter(Records(), IsCompleted)|
      ensures reply.payload.active == |Filter(Records(), IsActive)|
      ensures reply.payload.completed + reply.payload.active == reply.payload.total
      ensures reply.payload.completionRate == CompletionRate(reply.payload.completed, reply.payload.total)
    {
      var done := CountCompleted(todos, nextId);
      var open := CountActive(todos, nextId);
      RecordsAreStore();
      FilterSplitsCount(Records(), IsCompleted, IsActive);
      var total := |todos|;
      reply := Reply(200, true, None, Summary(total, done, open, CompletionRate(done, total)));
    }

    /** GET /:id */
    method Get(id: nat) returns (reply: Reply)
      requires Valid()
      ensures id !in todos ==> reply == NotFound
      ensures id in todos ==> reply == Reply(200, true, None, One(todos[id]))
    {
      if id !in todos {
        return NotFound;
      }
      reply := Reply(200, true, None, One(todos[id]));
    }

    /** POST /: validate, default, stamp and store under a fresh id; a body
        the schema rejects is passed on with every failed validator. */
    method Create(body: Body, now: int) returns (reply: Reply)
      requires Valid()
      modifies this
      ensures Valid()
      ensures TodoModel.Create(body).Failure? ==>
        reply == Forwarded(TodoModel.Create(body).error) && todos == old(todos) && nextId == old(nextId)
      ensures TodoModel.Create(body).Success? ==>
        var t := Todo(old(nextId), TodoModel.Create(body).value, now, now);
        && old(nextId) !in old(todos)
        && todos == old(todos)[old(nextId) := t]
        && nextId == old(nextId) + 1
        && reply == Reply(201, true, Some("Todo created successfully"), One(t))
    {
      match TodoModel.Create(body)
      case Failure(errors) =>
        reply := Forwarded(errors);
      case Success(fields) =>
        var t := Todo(nextId, fields, now, now);
        todos := todos[nextId := t];
        nextId := nextId + 1;
        reply := Reply(201, true, Some("Todo created successfully"), One(t));
    }

    /** PUT /:id: the update validators run first, then the lookup; a found
        record gets the given fields and a new `updatedAt`. */
    method Update(id: nat, body: Body, now: int) returns (reply: Reply)
      requires Valid()
      modifies this
      ensures Valid() && nextId == old(nextId)
      ensures UpdateErrors(body) != [] ==> reply == Forwarded(UpdateErrors(body)) && todos == old(todos)
      ensures UpdateErrors(body) == [] && id !in old(todos) ==> reply == NotFound && todos == old(todos)
      ensures UpdateErrors(body) == [] && id in old(todos) ==>
        var t := old(todos)[id];
        var u := Todo(id, Patch(t.fields, body), t.createdAt, now);
        && todos == old(todos)[id := u]
        && reply == Reply(200, true, Some("Todo updated successfully"), One(u))
    {
      var errors := UpdateErrors(body);
      if errors != [] {
        return Forwarded(errors);
      }
      if id !in todos {
        return NotFound;
      }
      var t := todos[id];
      var u := Todo(id, Patch(t.fields, body), t.createdAt, now);
      todos := todos[id := u];
      reply := Reply(200, true, Some("Todo updated successfully"), One(u));
    }

    /** DELETE /:id */
    method Delete(id: nat) returns (reply: Reply)
      requires Valid()
      modifies this
      ensures Valid() && nextId == old(nextId)
      ensures id !in old(todos) ==> reply == NotFound && todos == old(todos)
      ensures id in old(todos) ==>
        todos == old(todos) - {id} &&
        reply == Reply(200, true, Some("Todo deleted successfully"), EmptyObject)
    {
      if id !in todos {
        return NotFound;
      }
      todos := todos - {id};
      reply := Reply(200, true, Some("Todo deleted successfully"), EmptyObject);
    }
  }

  /** A deleted todo is gone: reading it back answers 404, while another
      record reads back as it was. */
  method DeleteThenGet(store: TodoStore, id: nat, other: nat) returns (gone: Reply, kept: Reply)
    requires store.Valid() && id in store.todos && other in store.todos && other != id
    modifies store
    ensures store.Valid()
    ensures gone == NotFound
    ensures kept == Reply(200, true, None, One(old(store.todos[other])))
  {
    var deleted := store.Delete(id);
    gone := store.Get(id);
    kept := store.Get(other);
  }
}
