/** The user data source of the directory front end (frontend/src/api.js):
    fetch page 1 of the remote user list, then pages 2..total_pages, and
    concatenate them; on any failure serve a fixed sample of twelve users. */
module UserSource {
  import opened Wrappers

  /** A user record as the remote API delivers it. */
  datatype User = User(id: int, email: string, firstName: string, lastName: string, avatar: string)

  /** `MOCK_USERS`: the built-in sample, served whenever the remote API fails. */
  function MockUsers(): (r: seq<User>)
    ensures |r| == 12
    ensures forall i :: 0 <= i < |r| ==> r[i].id == i + 1 && r[i].firstName != ""
  {
    [ User(1, "george.bluth@reqres.in", "George", "Bluth", "https://reqres.in/img/faces/1-image.jpg"),
      User(2, "janet.weaver@reqres.in", "Janet", "Weaver", "https://reqres.in/img/faces/2-image.jpg"),
      User(3, "emma.wong@reqres.in", "Emma", "Wong", "https://reqres.in/img/faces/3-image.jpg"),
      User(4, "eve.holt@reqres.in", "Eve", "Holt", "https://reqres.in/img/faces/4-image.jpg"),
      User(5, "charles.morris@reqres.in", "Charles", "Morris", "https://reqres.in/img/faces/5-image.jpg"),
      User(6, "tracey.ramos@reqres.in", "Tracey", "Ramos", "https://reqres.in/img/faces/6-image.jpg"),
      User(7, "michael.lawson@reqres.in", "Michael", "Lawson", "https://reqres.in/img/faces/7-image.jpg"),
      User(8, "lindsay.ferguson@reqres.in", "Lindsay", "Ferguson", "https://reqres.in/img/faces/8-image.jpg"),
      User(9, "tobias.funke@reqres.in", "Tobias", "Funke", "https://reqres.in/img/faces/9-image.jpg"),
      User(10, "byron.fields@reqres.in", "Byron", "Fields", "https://reqres.in/img/faces/10-image.jpg"),
      User(11, "george.edwards@reqres.in", "George", "Edwards", "https://reqres.in/img/faces/11-image.jpg"),
      User(12, "rachel.howell@reqres.in", "Rachel", "Howell", "https://reqres.in/img/faces/12-image.jpg") ]
  }

  /** The decoded JSON body of one page: `total_pages` and `data`, either of
      which may be missing (`null`/`undefined`). */
  datatype PageBody = PageBody(totalPages: Option<int>, data: Option<seq<User>>)

  /** What `fetch(BASE + '?page=' + p)` settles to: a rejection (network or
      CORS failure), or an HTTP response whose body decodes as JSON (`Some`)
      or makes `json()` reject (`None`). */
  datatype Response = NetworkFailure | Http(status: int, body: Option<PageBody>)

  /** `Response.ok`: a status in 200..299. */
  predicate IsOk(r: Response) {
    r.Http? && 200 <= r.status <= 299
  }

  /** A page 2..N response that the `.then` callback turns into page data
      rather than a rejection. */
  predicate Usable(r: Response) {
    IsOk(r) && r.body.Some?
  }

  /** `data1.total_pages || 1`: a missing or zero count means one page. */
  function PageCount(b: PageBody): int {
    match b.totalPages
    case None => 1
    case Some(n) => if n == 0 then 1 else n
  }

  /** `p.data || []` */
  function PageData(b: PageBody): seq<User> {
    b.data.GetOr([])
  }

  /** Page numbers `lo..hi` in order (empty when `lo > hi`). */
  function PageRange(lo: int, hi: int): (r: seq<int>)
    decreases hi - lo
    ensures |r| == (if lo <= hi then hi - lo + 1 else 0)
    ensures forall k :: 0 <= k < |r| ==> r[k] == lo + k
  {
    if lo > hi then [] else [lo] + PageRange(lo + 1, hi)
  }

  /** Every page `lo..hi` of `server` is usable. */
  ghost predicate AllUsable(server: int -> Response, lo: int, hi: int) {
    forall p :: lo <= p <= hi ==> Usable(server(p))
  }

  /** The users of pages `lo..hi`, concatenated in page order. */
  function PagesData(server: int -> Response, lo: int, hi: int): seq<User>
    requires AllUsable(server, lo, hi)
    decreases hi - lo
  {
    if lo > hi then [] else PageData(server(lo).body.value) + PagesData(server, lo + 1, hi)
  }

  /** Page 1 can be read: an ok status and a JSON body. */
  predicate FirstPageReadable(server: int -> Response) {
    Usable(server(1))
  }

  /** `fetchAllUsers()`. `server(p)` is the response the remote API gives for
      page `p`; `requested` lists the pages fetched, in the order the fetches
      were issued. */
  method FetchAllUsers(server: int -> Response) returns (users: seq<User>, requested: seq<int>)
    // a 401 on page 1 serves the sample and fetches nothing more
    ensures server(1).Http? && server(1).status == 401 ==> users == MockUsers() && requested == [1]
    // any other unreadable page 1 is thrown, caught, and also serves the sample
    ensures !FirstPageReadable(server) ==> users == MockUsers() && requested == [1]
    // otherwise pages 2..total_pages are requested, and nothing else
    ensures FirstPageReadable(server) ==>
      requested == [1] + PageRange(2, PageCount(server(1).body.value))
    // all pages usable: their users, in page order
    ensures FirstPageReadable(server) && AllUsable(server, 2, PageCount(server(1).body.value)) ==>
      users == PageData(server(1).body.value) + PagesData(server, 2, PageCount(server(1).body.value))
    // one bad page among 2..N: never a partial list, always the sample
    ensures FirstPageReadable(server) && !AllUsable(server, 2, PageCount(server(1).body.value)) ==>
      users == MockUsers()
  {
    requested := [1];
    var res1 := server(1);
    if res1.Http? && res1.status == 401 {
      return MockUsers(), requested;
    }
    if !IsOk(res1) || res1.body.None? {
      return MockUsers(), requested;
    }
    var data1 := res1.body.value;
    var totalPages := PageCount(data1);
    var fetches;
    fetches, requested := RequestPages(server, totalPages);
    var settled := AllSettled(server, fetches, totalPages);
    if !settled {
      return MockUsers(), requested;
    }
    users := ConcatPages(server, fetches, totalPages, PageData(data1));
  }

  /** The `for` loop issuing `fetch` for pages 2..`totalPages`: the
      responses in page order, and the pages requested, page 1 included. */
  method RequestPages(server: int -> Response, totalPages: int) returns (fetches: seq<Response>, requested: seq<int>)
    ensures |fetches| == (if totalPages < 2 then 0 else totalPages - 1)
    ensures forall k :: 0 <= k < |fetches| ==> fetches[k] == server(k + 2)
    ensures requested == [1] + PageRange(2, totalPages)
  {
    requested := [1];
    fetches := [];
    var p := 2;
    while p <= totalPages
      invariant 2 <= p <= (if totalPages < 2 then 2 else totalPages + 1)
      invariant |fetches| == p - 2
      invariant forall k :: 0 <= k < |fetches| ==> fetches[k] == server(k + 2)
      invariant requested == [1] + PageRange(2, p - 1)
      decreases totalPages - p
    {
      fetches := fetches + [server(p)];
      requested := requested + [p];
      assert PageRange(2, p) == PageRange(2, p - 1) + [p] by { PageRangeSnoc(2, p); }
      p := p + 1;
    }
    assert requested == [1] + PageRange(2, totalPages) by {
      if totalPages < 2 {
        assert p == 2;
      }
    }
  }

  /** `Promise.all`: it resolves exactly when every page 2..`totalPages`
      is usable; one bad page rejects the whole batch. */
  method AllSettled(server: int -> Response, fetches: seq<Response>, totalPages: int) returns (ok: bool)
    requires |fetches| == (if totalPages < 2 then 0 else totalPages - 1)
    requires forall k :: 0 <= k < |fetches| ==> fetches[k] == server(k + 2)
    ensures ok <==> AllUsable(server, 2, totalPages)
  {
    var i := 0;
    while i < |fetches|
      invariant 0 <= i <= |fetches|
      invariant AllUsable(server, 2, i + 1)
    {
      if !Usable(fetches[i]) {
        assert !Usable(server(i + 2));
        return false;
      }
      i := i + 1;
    }
    return true;
  }

  /** `concat(...pages.map(p => p.data || []))` after page 1's users. */
  method ConcatPages(server: int -> Response, fetches: seq<Response>, totalPages: int, first: seq<User>)
    returns (users: seq<User>)
    requires |fetches| == (if totalPages < 2 then 0 else totalPages - 1)
    requires forall k :: 0 <= k < |fetches| ==> fetches[k] == server(k + 2)
    requires AllUsable(server, 2, totalPages)
    ensures users == first + PagesData(server, 2, totalPages)
  {
    users := first;
    var j := 0;
    while j < |fetches|
      invariant 0 <= j <= |fetches|
      invariant users + PagesData(server, j + 2, totalPages) == first + PagesData(server, 2, totalPages)
    {
      users := users + PageData(fetches[j].body.value);
      j := j + 1;
    }
  }

  lemma {:induction false} PageRangeSnoc(lo: int, hi: int)
    requires lo <= hi
    ensures PageRange(lo, hi) == PageRange(lo, hi - 1) + [hi]
    decreases hi - lo
  {
    if lo < hi {
      PageRangeSnoc(lo + 1, hi);
    }
  }

  /** The result depends on page 1 alone when page 1 reports at most one page:
      two servers that agree on page 1 yield the same users. */
  lemma SinglePageIgnoresRest(server: int -> Response, other: int -> Response)
    requires server(1) == other(1) && FirstPageReadable(server)
    requires PageCount(server(1).body.value) <= 1
    ensures PageData(server(1).body.value) + PagesData(server, 2, PageCount(server(1).body.value)) ==
            PageData(other(1).body.value) + PagesData(other, 2, PageCount(other(1).body.value))
  {
  }
}
