/** The user directory table (frontend/src/components/UserTable.jsx): a
    search / domain / first-letter filter and a keyed sort over the fetched
    users, cut into pages of six, plus the view state the table's controls
    change. */
module UserTable {
  import opened Text
  import opened Sequences
  import opened UserSource

  const PageSize: nat := 6

  /** The `sortKey` options: `first_name`, `last_name`, `email`. */
  datatype SortKey = FirstName | LastName | Email

  datatype SortDir = Asc | Desc

  /** The inputs of the `filtered` derivation besides the users. */
  datatype Criteria = Criteria(search: string, sortKey: SortKey, sortDir: SortDir,
                               filterDomain: string, filterLetter: string)

  // ---------------------------------------------------------------------------
  // Filters
  // ---------------------------------------------------------------------------

  /** A filter is applied when its text is truthy after `trim()`, that is
      when it holds a character `trim` keeps (ActiveIffTrimmed). */
  predicate Active(f: string) {
    exists k :: 0 <= k < |f| && !IsJsWhitespace(f[k])
  }

  lemma ActiveIffTrimmed(f: string)
    ensures Active(f) <==> Trim(f) != ""
  {
    TrimEmptyIffBlank(f);
  }

  /** The search matches "first last" or the email, case-insensitively, using
      the lower-cased but UNtrimmed search text. */
  predicate MatchesSearch(u: User, search: string) {
    var q := Lower(search);
    Contains(Lower(u.firstName + " " + u.lastName), q) || Contains(Lower(u.email), q)
  }

  predicate MatchesDomain(u: User, domain: string) {
    EndsWith(Lower(u.email), Lower(domain))
  }

  predicate MatchesLetter(u: User, letter: string) {
    StartsWith(Lower(u.firstName), Lower(letter))
  }

  /** The three filters ignore the case of what the user typed. */
  lemma FiltersIgnoreCase(u: User, text: string)
    ensures MatchesSearch(u, text) <==> MatchesSearch(u, Lower(text))
    ensures MatchesDomain(u, text) <==> MatchesDomain(u, Lower(text))
    ensures MatchesLetter(u, text) <==> MatchesLetter(u, Lower(text))
  {
    LowerIdempotent(text);
  }

  /** A user survives the filters when it matches every active one. */
  predicate Passes(u: User, search: string, domain: string, letter: string) {
    && (Active(search) ==> MatchesSearch(u, search))
    && (Active(domain) ==> MatchesDomain(u, domain))
    && (Active(letter) ==> MatchesLetter(u, letter))
  }

  /** The three filter passes, in source order, before the sort. */
  function Selected(users: seq<User>, search: string, domain: string, letter: string): (r: seq<User>)
    ensures forall u :: multiset(r)[u] == if Passes(u, search, domain, letter) then multiset(users)[u] else 0
  {
    var l1 := if Active(search) then Filter(users, u => MatchesSearch(u, search)) else users;
    var l2 := if Active(domain) then Filter(l1, u => MatchesDomain(u, domain)) else l1;
    if Active(letter) then Filter(l2, u => MatchesLetter(u, letter)) else l2
  }

  // ---------------------------------------------------------------------------
  // Sort
  // ---------------------------------------------------------------------------

  /** `(u[sortKey] || '').toString()`; every key names a string field. */
  function KeyValue(u: User, key: SortKey): string {
    match key
    case FirstName => u.firstName
    case LastName => u.lastName
    case Email => u.email
  }

  function SortText(u: User, key: SortKey): string {
    Lower(KeyValue(u, key))
  }

  /** The comparator passed to `list.sort`: 0 exactly for equal lower-cased
      keys, otherwise negative when `a`'s key comes first in the direction. */
  function Compare(a: User, b: User, key: SortKey, dir: SortDir): (r: int)
    ensures r == 0 <==> SortText(a, key) == SortText(b, key)
    ensures r < 0 <==>
      if dir == Asc then StrLess(SortText(a, key), SortText(b, key))
      else StrLess(SortText(b, key), SortText(a, key))
  {
    var av := SortText(a, key);
    var bv := SortText(b, key);
    StrLessTotal(av, bv);
    StrLessIrreflexive(av);
    if StrLess(av, bv) then
      StrLessAsymmetric(av, bv);
      if dir == Asc then -1 else 1
    else if StrLess(bv, av) then (if dir == Asc then 1 else -1)
    else 0
  }

  /** Swapping the arguments negates the comparator. */
  lemma CompareAntisymmetric(a: User, b: User, key: SortKey, dir: SortDir)
    ensures Compare(a, b, key, dir) == -Compare(b, a, key, dir)
  {
    var av, bv := SortText(a, key), SortText(b, key);
    if StrLess(av, bv) {
      StrLessAsymmetric(av, bv);
    }
  }

  /** `a` may come before `b`: the comparator does not put `b` first. */
  function Precedes(key: SortKey, dir: SortDir): (User, User) -> bool {
    (a: User, b: User) => Compare(a, b, key, dir) <= 0
  }

  /** In key order: non-decreasing lower-cased key for `Asc`, non-increasing for `Desc`. */
  lemma PrecedesMeansKeyOrder(a: User, b: User, key: SortKey, dir: SortDir)
    ensures Precedes(key, dir)(a, b) <==>
      if dir == Asc then !StrLess(SortText(b, key), SortText(a, key))
      else !StrLess(SortText(a, key), SortText(b, key))
  {
    var av, bv := SortText(a, key), SortText(b, key);
    if StrLess(av, bv) {
      StrLessAsymmetric(av, bv);
    }
  }

  /** The comparator is consistent, so `sort` is well defined on it. */
  lemma PrecedesIsTotalPreorder(key: SortKey, dir: SortDir)
    ensures TotalPreorder(Precedes(key, dir))
  {
    var le := Precedes(key, dir);
    forall a, b ensures le(a, b) || le(b, a) {
      PrecedesMeansKeyOrder(a, b, key, dir);
      PrecedesMeansKeyOrder(b, a, key, dir);
      StrLessTotal(SortText(a, key), SortText(b, key));
      if StrLess(SortText(a, key), SortText(b, key)) {
        StrLessAsymmetric(SortText(a, key), SortText(b, key));
      }
    }
    forall a, b, c | le(a, b) && le(b, c) ensures le(a, c) {
      PrecedesMeansKeyOrder(a, b, key, dir);
      PrecedesMeansKeyOrder(b, c, key, dir);
      PrecedesMeansKeyOrder(a, c, key, dir);
      var av, bv, cv := SortText(a, key), SortText(b, key), SortText(c, key);
      if dir == Asc {
        if StrLess(cv, av) {
          StrLessTotal(bv, av);
          StrLessTotal(cv, bv);
          if StrLess(av, bv) { StrLessTransitive(cv, av, bv); }
          if StrLess(bv, cv) { StrLessTransitive(bv, cv, av); }
        }
      } else {
        if StrLess(av, cv) {
          StrLessTotal(av, bv);
          StrLessTotal(bv, cv);
          if StrLess(bv, av) { StrLessTransitive(bv, av, cv); }
          if StrLess(cv, bv) { StrLessTransitive(av, cv, bv); }
        }
      }
    }
  }

  /** How often `u` appears once the filters of `c` are applied. */
  function Kept(users: seq<User>, u: User, c: Criteria): nat {
    if Passes(u, c.search, c.filterDomain, c.filterLetter) then multiset(users)[u] else 0
  }

  /** `a` may be listed before `b`: in ascending order `b`'s lower-cased key is
      not smaller than `a`'s, in descending order not larger. */
  predicate InDirection(a: User, b: User, c: Criteria) {
    if c.sortDir == Asc then !StrLess(SortText(b, c.sortKey), SortText(a, c.sortKey))
    else !StrLess(SortText(a, c.sortKey), SortText(b, c.sortKey))
  }

  /** The users whose lower-cased sort key equals `u`'s. */
  function SameKey(u: User, key: SortKey): User -> bool {
    v => SortText(v, key) == SortText(u, key)
  }

  /** The comparator returns 0 exactly for users with the same lower-cased
      key: its ties are the users with equal keys. */
  lemma TiesAreSameKey(u: User, key: SortKey, dir: SortDir)
    ensures forall v :: Tied(Precedes(key, dir), u)(v) == SameKey(u, key)(v)
  {
    forall v ensures Tied(Precedes(key, dir), u)(v) == SameKey(u, key)(v) {
      CompareAntisymmetric(u, v, key, dir);
    }
  }

  /** `list.sort` is stable: users with equal keys keep their relative order. */
  lemma SortKeepsKeyOrder(selected: seq<User>, key: SortKey, dir: SortDir)
    ensures TotalPreorder(Precedes(key, dir))
    ensures forall u ::
              Filter(Sort(selected, Precedes(key, dir)), SameKey(u, key)) == Filter(selected, SameKey(u, key))
  {
    PrecedesIsTotalPreorder(key, dir);
    var le := Precedes(key, dir);
    var r := Sort(selected, le);
    SortStable(selected, le);
    forall u ensures Filter(r, SameKey(u, key)) == Filter(selected, SameKey(u, key)) {
      TiesAreSameKey(u, key, dir);
      FilterSameTest(r, Tied(le, u), SameKey(u, key));
      FilterSameTest(selected, Tied(le, u), SameKey(u, key));
    }
  }

  /** The `filtered` memo: the users passing every active filter (each as
      often as in `users`), ordered by the lower-cased sort key in the chosen
      direction; users with equal keys stay in the order of `users`. */
  function Filtered(users: seq<User>, c: Criteria): (r: seq<User>)
    ensures forall u :: multiset(r)[u] == Kept(users, u, c)
    ensures forall i, j :: 0 <= i < j < |r| ==> InDirection(r[i], r[j], c)
    ensures forall u ::
              Filter(r, SameKey(u, c.sortKey)) ==
              Filter(Selected(users, c.search, c.filterDomain, c.filterLetter), SameKey(u, c.sortKey))
  {
    PrecedesIsTotalPreorder(c.sortKey, c.sortDir);
    var selected := Selected(users, c.search, c.filterDomain, c.filterLetter);
    var r := Sort(selected, Precedes(c.sortKey, c.sortDir));
    forall i, j | 0 <= i < j < |r|
      ensures InDirection(r[i], r[j], c)
    {
      PrecedesMeansKeyOrder(r[i], r[j], c.sortKey, c.sortDir);
    }
    SortKeepsKeyOrder(selected, c.sortKey, c.sortDir);
    r
  }

  /** Blank (empty or whitespace-only) search, domain and letter filters keep
      every user. */
  lemma BlankFiltersKeepEveryone(users: seq<User>, c: Criteria)
    requires !Active(c.search) && !Active(c.filterDomain) && !Active(c.filterLetter)
    ensures multiset(Filtered(users, c)) == multiset(users)
  {
    assert forall u :: multiset(Filtered(users, c))[u] == multiset(users)[u];
  }

  /** Sorting neither adds nor drops users: the filtered list is as long as
      the selection, whatever the sort key and direction. */
  lemma FilteredCountIgnoresSort(users: seq<User>, c: Criteria)
    ensures |Filtered(users, c)| == |Selected(users, c.search, c.filterDomain, c.filterLetter)|
  {
    var r := Filtered(users, c);
    var sel := Selected(users, c.search, c.filterDomain, c.filterLetter);
    assert multiset(r) == multiset(sel) by {
      forall u ensures multiset(r)[u] == multiset(sel)[u] { }
    }
    assert |r| == |multiset(r)| == |multiset(sel)| == |sel|;
  }

  // ---------------------------------------------------------------------------
  // Paging
  // ---------------------------------------------------------------------------

  /** `Math.max(1, Math.ceil(n / pageSize))`: the least page count that holds
      `n` items, and at least one. */
  function TotalPages(n: nat): (r: nat)
    ensures r >= 1
    ensures n == 0 ==> r == 1
    ensures n <= r * PageSize
    ensures n == 0 || (r - 1) * PageSize < n
  {
    if n == 0 then 1 else (n + PageSize - 1) / PageSize
  }

  /** An index argument of `Array.prototype.slice`: negative counts from the
      end, then clamped into `0..len`. */
  function SliceIndex(i: int, len: nat): (r: nat)
    ensures r <= len
    ensures 0 <= i <= len ==> r == i
    ensures i > len ==> r == len
    ensures i < 0 && 0 <= len + i ==> r == len + i
    ensures len + i < 0 ==> r == 0
  {
    if i < 0 then (if len + i < 0 then 0 else len + i)
    else if i > len then len
    else i
  }

  /** `s.slice(start, end)` */
  function Slice<T>(s: seq<T>, start: int, end: int): seq<T> {
    var a := SliceIndex(start, |s|);
    var b := SliceIndex(end, |s|);
    if a < b then s[a..b] else []
  }

  /** `filtered.slice(start, start + pageSize)` with `start = (page - 1) * pageSize`:
      for a page from 1 on, the at most six items from position `start`. */
  function PageItems(list: seq<User>, page: int): (r: seq<User>)
    ensures |r| <= PageSize
    ensures page >= 1 ==>
      |r| == (if |list| <= (page - 1) * PageSize then 0
              else Min(PageSize, |list| - (page - 1) * PageSize))
    ensures page >= 1 ==> forall k :: 0 <= k < |r| ==> r[k] == list[(page - 1) * PageSize + k]
  {
    var start := (page - 1) * PageSize;
    Slice(list, start, start + PageSize)
  }

  function Min(a: int, b: int): int {
    if a <= b then a else b
  }

  /** Pages `1..k` laid end to end. */
  function FirstPages(list: seq<User>, k: nat): seq<User> {
    if k == 0 then [] else FirstPages(list, k - 1) + PageItems(list, k)
  }

  lemma {:induction false} FirstPagesArePrefix(list: seq<User>, k: nat)
    ensures FirstPages(list, k) == list[..Min(k * PageSize, |list|)]
  {
    if k > 0 {
      FirstPagesArePrefix(list, k - 1);
      var lo := Min((k - 1) * PageSize, |list|);
      var hi := Min(k * PageSize, |list|);
      var page := PageItems(list, k);
      assert |page| == hi - lo;
      assert page == list[lo..hi];
      assert list[..hi] == list[..lo] + list[lo..hi];
    }
  }

  /** The pages 1..totalPages together show every filtered user exactly once,
      in order. */
  lemma PagesCoverList(list: seq<User>)
    ensures FirstPages(list, TotalPages(|list|)) == list
  {
    FirstPagesArePrefix(list, TotalPages(|list|));
  }

  /** The "Showing a–b of n" figures. */
  function ShowingRange(n: nat, page: int): (int, int) {
    (Min(n, (page - 1) * PageSize + 1), Min(n, page * PageSize))
  }

  /** On a page within range the figures name exactly the items shown: `a` is
      the 1-based position of the first and `b - a + 1` their count; with no
      users both read 0. */
  lemma ShowingMatchesPage(list: seq<User>, page: int)
    requires 1 <= page <= TotalPages(|list|)
    ensures |list| == 0 ==> ShowingRange(|list|, page) == (0, 0)
    ensures |list| > 0 ==>
      ShowingRange(|list|, page).0 == (page - 1) * PageSize + 1 &&
      ShowingRange(|list|, page).1 - ShowingRange(|list|, page).0 + 1 == |PageItems(list, page)|
  {
  }

  // ---------------------------------------------------------------------------
  // Filter choices
  // ---------------------------------------------------------------------------

  /** `email.split('@')[1] || ''`: the text between the first `@` and the
      next one (or the end), and `''` when there is no `@`. */
  function DomainOf(email: string): (r: string)
    ensures '@' !in email ==> r == ""
    ensures '@' in email ==> '@' !in r && exists i :: SegmentAfter(email, '@', i, r)
  {
    match SecondSegment(email, '@')
    case None => ""
    case Some(d) => d
  }

  /** `uniqueDomains`: the distinct non-empty domains of all users (not just
      the filtered ones), each once. */
  function UniqueDomains(users: seq<User>): (r: seq<string>)
    ensures NoDuplicates(r)
    ensures forall d :: d in r <==> d != "" && exists u :: u in users && DomainOf(u.email) == d
  {
    var all := seq(|users|, i requires 0 <= i < |users| => DomainOf(users[i].email));
    var r := Filter(Distinct(all), d => d != "");
    forall d | d != "" && exists u :: u in users && DomainOf(u.email) == d
      ensures d in r
    {
      var u :| u in users && DomainOf(u.email) == d;
      var i :| 0 <= i < |users| && users[i] == u;
      assert all[i] == d;
      assert multiset(r)[d] == 1;
    }
    forall d | d in r ensures exists u :: u in users && DomainOf(u.email) == d {
      assert d in all;
      var i :| 0 <= i < |all| && all[i] == d;
      assert users[i] in users;
    }
    r
  }

  function Initial(u: User): char
    requires u.firstName != ""
  {
    UpperChar(u.firstName[0])
  }

  function CharLe(): (char, char) -> bool {
    (a: char, b: char) => a <= b
  }

  lemma CharLeIsTotalPreorder()
    ensures TotalPreorder(CharLe())
  {
  }

  /** `letters`: the distinct upper-cased initials of all users, in ascending
      order. Every first name must be non-empty: the source reads
      `first_name[0]` unguarded. */
  function Letters(users: seq<User>): (r: seq<char>)
    requires forall u :: u in users ==> u.firstName != ""
    ensures forall i, j :: 0 <= i < j < |r| ==> r[i] < r[j]
    ensures forall c :: c in r <==> exists u :: u in users && Initial(u) == c
  {
    var all := seq(|users|, i requires 0 <= i < |users| => Initial(users[i]));
    CharLeIsTotalPreorder();
    var r := Sort(Distinct(all), CharLe());
    LettersFacts(users, all, r);
    r
  }

  /** The sorted distinct initials are strictly ascending and are exactly the
      initials of the users. */
  lemma LettersFacts(users: seq<User>, all: seq<char>, r: seq<char>)
    requires forall u :: u in users ==> u.firstName != ""
    requires |all| == |users| && forall i :: 0 <= i < |users| ==> all[i] == Initial(users[i])
    requires SortedBy(r, CharLe()) && multiset(r) == multiset(Distinct(all))
    ensures forall i, j :: 0 <= i < j < |r| ==> r[i] < r[j]
    ensures forall c :: c in r <==> exists u :: u in users && Initial(u) == c
  {
    forall i, j | 0 <= i < j < |r| ensures r[i] < r[j] {
      DistinctAt(r, i, j);
    }
    forall c | exists u :: u in users && Initial(u) == c ensures c in r {
      var u :| u in users && Initial(u) == c;
      var i :| 0 <= i < |users| && users[i] == u;
      assert all[i] == c;
      assert multiset(r)[c] == 1;
    }
    forall c | c in r ensures exists u :: u in users && Initial(u) == c {
      assert multiset(r)[c] > 0;
      assert c in all;
      var i :| 0 <= i < |all| && all[i] == c;
      assert users[i] in users;
    }
  }

  // ---------------------------------------------------------------------------
  // View state
  // ---------------------------------------------------------------------------

  /** The table's state hooks. `users` is the prop the table receives; the
      invariant is that the current page lies in `1..totalPages`. */
  class UserTableView {
    var users: seq<User>
    var search: string
    var sortKey: SortKey
    var sortDir: SortDir
    var filterDomain: string
    var filterLetter: string
    var page: int

    function Current(): Criteria
      reads this
    {
      Criteria(search, sortKey, sortDir, filterDomain, filterLetter)
    }

    function FilteredUsers(): seq<User>
      reads this
    {
      Filtered(users, Current())
    }

    /** `totalPages`, from the length of the filtered list (which the sort
        does not change, see FilteredCountIgnoresSort). */
    function PageCount(): nat
      reads this
    {
      TotalPages(|Selected(users, search, filterDomain, filterLetter)|)
    }

    ghost predicate Valid()
      reads this
    {
      1 <= page <= PageCount()
    }

    /** The initial state of every hook. */
    constructor(users: seq<User>)
      ensures Valid() && this.users == users
      ensures search == "" && sortKey == FirstName && sortDir == Asc
      ensures filterDomain == "" && filterLetter == "" && page == 1
    {
      this.users := users;
      search, sortKey, sortDir := "", FirstName, Asc;
      filterDomain, filterLetter, page := "", "", 1;
    }

    /** Typing in the search box: new text, back to page 1. */
    method SetSearch(value: string)
      requires Valid()
      modifies this
      ensures Valid() && search == value && page == 1
      ensures users == old(users) && sortKey == old(sortKey) && sortDir == old(sortDir)
      ensures filterDomain == old(filterDomain) && filterLetter == old(filterLetter)
    {
      search := value;
      page := 1;
    }

    /** Choosing a sort key; the page is kept. */
    method SetSortKey(key: SortKey)
      requires Valid()
      modifies this
      ensures Valid() && sortKey == key && page == old(page)
      ensures users == old(users) && search == old(search) && sortDir == old(sortDir)
      ensures filterDomain == old(filterDomain) && filterLetter == old(filterLetter)
    {
      sortKey := key;
    }

    /** The direction button flips `asc` and `desc`; the page is kept. */
    method ToggleSortDir()
      requires Valid()
      modifies this
      ensures Valid() && sortDir == (if old(sortDir) == Asc then Desc else Asc) && page == old(page)
      ensures users == old(users) && search == old(search) && sortKey == old(sortKey)
      ensures filterDomain == old(filterDomain) && filterLetter == old(filterLetter)
    {
      sortDir := if sortDir == Asc then Desc else Asc;
    }

    /** Choosing a domain: new filter, back to page 1. */
    method SetFilterDomain(value: string)
      requires Valid()
      modifies this
      ensures Valid() && filterDomain == value && page == 1
      ensures users == old(users) && search == old(search) && sortKey == old(sortKey)
      ensures sortDir == old(sortDir) && filterLetter == old(filterLetter)
    {
      filterDomain := value;
      page := 1;
    }

    /** Choosing a letter: new filter, back to page 1. */
    method SetFilterLetter(value: string)
      requires Valid()
      modifies this
      ensures Valid() && filterLetter == value && page == 1
      ensures users == old(users) && search == old(search) && sortKey == old(sortKey)
      ensures sortDir == old(sortDir) && filterDomain == old(filterDomain)
    {
      filterLetter := value;
      page := 1;
    }

    /** "Reset Filters": every hook back to its initial value. */
    method Reset()
      requires Valid()
      modifies this
      ensures Valid() && users == old(users)
      ensures search == "" && sortKey == FirstName && sortDir == Asc
      ensures filterDomain == "" && filterLetter == "" && page == 1
    {
      search, sortKey, sortDir := "", FirstName, Asc;
      filterDomain, filterLetter, page := "", "", 1;
    }

    /** "Previous": one page back, never below 1. */
    method PrevPage()
      requires Valid()
      modifies this`page
      ensures Valid()
      ensures page == (if old(page) > 1 then old(page) - 1 else 1)
    {
      page := if page - 1 > 1 then page - 1 else 1;
    }

    /** "Next": one page on, never past the last. */
    method NextPage()
      requires Valid()
      modifies this`page
      ensures Valid()
      ensures page == (if old(page) < PageCount() then old(page) + 1 else PageCount())
    {
      var total := PageCount();
      page := if total < page + 1 then total else page + 1;
    }

    /** New users arrive as the prop; the effect on `totalPages` then pulls a
        page beyond the new last page back onto it. */
    method ReceiveUsers(newUsers: seq<User>)
      requires Valid()
      modifies this
      ensures Valid() && users == newUsers
      ensures search == old(search) && sortKey == old(sortKey) && sortDir == old(sortDir)
      ensures filterDomain == old(filterDomain) && filterLetter == old(filterLetter)
      ensures page == (if old(page) > PageCount() then PageCount() else old(page))
    {
      users := newUsers;
      var total := PageCount();
      if page > total {
        page := total;
      }
    }

    /** `pageItems`: the users shown on the current page. */
    method CurrentPageItems() returns (items: seq<User>)
      requires Valid()
      ensures items == PageItems(FilteredUsers(), page)
      ensures 0 < |items| <= PageSize || |FilteredUsers()| == 0
    {
      FilteredCountIgnoresSort(users, Current());
      items := PageItems(FilteredUsers(), page);
    }
  }
}
