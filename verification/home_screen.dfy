/** The task list shown on the home screen: a search filter, a status
    filter and a sort, applied to the current tasks in that order, and the
    button that cycles through the sort options. */
module HomeScreen {
  import opened Common
  import opened Firestore
  import opened Helpers

  // ---------------------------------------------------------------------
  // Filtering

  /** The search: the lower-cased query occurs in the lower-cased title or
      in the lower-cased description, when there is one. The query itself
      is not trimmed here. */
  predicate MatchesQuery(t: Task, query: string) {
    var q := ToLower(query);
    Includes(ToLower(t.title), q) || (t.description.Some? && Includes(ToLower(t.description.value), q))
  }

  function SearchFiltered(tasks: seq<Task>, query: string): (r: seq<Task>)
    ensures IsBlank(query) ==> r == tasks
    ensures !IsBlank(query) ==> r == Filter(tasks, t => MatchesQuery(t, query))
  {
    if IsBlank(query) then tasks else Filter(tasks, t => MatchesQuery(t, query))
  }

  /** The status filter: `active` keeps the incomplete tasks, `completed`
      the complete ones, `overdue` the incomplete ones due before today,
      and any other value keeps everything. */
  predicate KeptByStatus(t: Task, filter: string, now: Time) {
    match filter
    case "active" => !t.completed
    case "completed" => t.completed
    case "overdue" => !t.completed && Overdue(t.dueDate, now)
    case _ => true
  }

  function StatusFiltered(tasks: seq<Task>, filter: string, now: Time): (r: seq<Task>)
    ensures forall t :: t in r <==> t in tasks && KeptByStatus(t, filter, now)
    ensures filter != "active" && filter != "completed" && filter != "overdue" ==> r == tasks
  {
    FilterSubset(tasks, t => KeptByStatus(t, filter, now));
    if filter == "active" || filter == "completed" || filter == "overdue" then
      Filter(tasks, t => KeptByStatus(t, filter, now))
    else
      tasks
  }

  /** Both filters together. */
  function Filtered(tasks: seq<Task>, query: string, filter: string, now: Time): seq<Task> {
    StatusFiltered(SearchFiltered(tasks, query), filter, now)
  }

  /** A task is listed exactly when it is one of the tasks, matches a
      non-blank query (a blank one matches everything) and passes the
      status filter; none is duplicated. */
  lemma FilteredMembers(tasks: seq<Task>, query: string, filter: string, now: Time)
    ensures multiset(Filtered(tasks, query, filter, now)) <= multiset(tasks)
    ensures forall t :: t in Filtered(tasks, query, filter, now) <==>
      t in tasks && (IsBlank(query) || MatchesQuery(t, query)) && KeptByStatus(t, filter, now)
  {
    var searched := SearchFiltered(tasks, query);
    if !IsBlank(query) {
      FilterSubset(tasks, t => MatchesQuery(t, query));
    }
    FilterSubset(searched, t => KeptByStatus(t, filter, now));
  }

  // ---------------------------------------------------------------------
  // Sorting

  /** `localeCompare(a, b) <= 0`, taken as the lexicographic order on
      character codes. */
  predicate TitleLe(a: string, b: string) {
    a == [] || (b != [] && (a[0] < b[0] || (a[0] == b[0] && TitleLe(a[1..], b[1..]))))
  }

  lemma {:induction false} TitleLeTotal(a: string, b: string)
    ensures TitleLe(a, b) || TitleLe(b, a)
  {
    if a != [] && b != [] && a[0] == b[0] {
      TitleLeTotal(a[1..], b[1..]);
    }
  }

  lemma {:induction false} TitleLeTrans(a: string, b: string, c: string)
    requires TitleLe(a, b) && TitleLe(b, c)
    ensures TitleLe(a, c)
  {
    if a != [] && b != [] && c != [] && a[0] == b[0] == c[0] {
      TitleLeTrans(a[1..], b[1..], c[1..]);
    }
  }

  /** The comparator `switch (sortBy)` picks: `createdAt` is also the
      fallback for any other value. */
  datatype SortKey = ByDueDate | ByPriority | ByTitle | ByCreatedAt

  function KeyOf(sortBy: string): (key: SortKey)
    ensures key == ByDueDate <==> sortBy == "dueDate"
    ensures key == ByPriority <==> sortBy == "priority"
    ensures key == ByTitle <==> sortBy == "alphabetical"
  {
    match sortBy
    case "dueDate" => ByDueDate
    case "priority" => ByPriority
    case "alphabetical" => ByTitle
    case _ => ByCreatedAt
  }

  /** `compare(a, b) <= 0` for each comparator: due date ascending with
      undated tasks after all dated ones, priority by descending rank,
      title, and creation time newest first. */
  predicate SortLe(key: SortKey, a: Task, b: Task) {
    match key
    case ByDueDate => b.dueDate.None? || (a.dueDate.Some? && a.dueDate.value <= b.dueDate.value)
    case ByPriority => PriorityOrder(a.priority) >= PriorityOrder(b.priority)
    case ByTitle => TitleLe(a.title, b.title)
    case ByCreatedAt => a.createdAt >= b.createdAt
  }

  lemma SortLeTotal(key: SortKey, a: Task, b: Task)
    ensures SortLe(key, a, b) || SortLe(key, b, a)
  {
    if key == ByTitle {
      TitleLeTotal(a.title, b.title);
    }
  }

  lemma SortLeTrans(key: SortKey, a: Task, b: Task, c: Task)
    requires SortLe(key, a, b) && SortLe(key, b, c)
    ensures SortLe(key, a, c)
  {
    if key == ByTitle {
      TitleLeTrans(a.title, b.title, c.title);
    }
  }

  predicate Sorted(key: SortKey, s: seq<Task>) {
    forall i, j :: 0 <= i < j < |s| ==> SortLe(key, s[i], s[j])
  }

  /** `filtered.sort(compare)`: rearranges the array in place so that it is
      ordered by the comparator. */
  method SortTasks(a: array<Task>, key: SortKey)
    modifies a
    ensures Sorted(key, a[..])
    ensures multiset(a[..]) == multiset(old(a[..]))
  {
    var i := 0;
    while i < a.Length
      invariant 0 <= i <= a.Length
      invariant Sorted(key, a[..i])
      invariant multiset(a[..]) == multiset(old(a[..]))
    {
      InsertLast(a, i, key);
      i := i + 1;
    }
    assert a[..i] == a[..];
  }

  /** One insertion step: `a[i]` moves left past every greater element, so
      that the first `i + 1` elements are ordered. */
  method InsertLast(a: array<Task>, i: int, key: SortKey)
    requires 0 <= i < a.Length
    requires Sorted(key, a[..i])
    modifies a
    ensures Sorted(key, a[..i + 1])
    ensures multiset(a[..]) == multiset(old(a[..]))
  {
    var j := i;
    InsertingStart(key, a[..], i);
    while j > 0 && !SortLe(key, a[j - 1], a[j])
      invariant 0 <= j <= i
      invariant Inserting(key, a[..], j, i)
      invariant multiset(a[..]) == multiset(old(a[..]))
    {
      ghost var before := a[..];
      InsertingStep(key, before, j, i);
      a[j - 1], a[j] := a[j], a[j - 1];
      assert a[..] == before[j - 1 := before[j]][j := before[j - 1]];
      SwapPermutes(before, j - 1, j, a[..]);
      j := j - 1;
    }
    InsertingDone(key, a[..], j, i);
  }

  /** Midway through an insertion: the first `i + 1` elements are ordered
      except around position `j`, and the element at `j` precedes all
      after it. */
  ghost predicate Inserting(key: SortKey, s: seq<Task>, j: int, i: int) {
    && 0 <= j <= i < |s|
    && (forall k, m :: 0 <= k < m <= i && k != j && m != j ==> SortLe(key, s[k], s[m]))
    && (forall m :: j < m <= i ==> SortLe(key, s[j], s[m]))
  }

  lemma InsertingStart(key: SortKey, s: seq<Task>, i: int)
    requires 0 <= i < |s| && Sorted(key, s[..i])
    ensures Inserting(key, s, i, i)
  {
    forall k, m | 0 <= k < m <= i && k != i && m != i
      ensures SortLe(key, s[k], s[m])
    {
      assert s[..i][k] == s[k] && s[..i][m] == s[m];
    }
  }

  lemma InsertingStep(key: SortKey, s: seq<Task>, j: int, i: int)
    requires Inserting(key, s, j, i) && j > 0 && !SortLe(key, s[j - 1], s[j])
    ensures Inserting(key, s[j - 1 := s[j]][j := s[j - 1]], j - 1, i)
  {
    SortLeTotal(key, s[j - 1], s[j]);
  }

  lemma InsertingDone(key: SortKey, s: seq<Task>, j: int, i: int)
    requires Inserting(key, s, j, i) && (j == 0 || SortLe(key, s[j - 1], s[j]))
    ensures Sorted(key, s[..i + 1])
  {
    forall k, m | 0 <= k < m <= i
      ensures SortLe(key, s[k], s[m])
    {
      if m == j && k < j - 1 {
        SortLeTrans(key, s[k], s[j - 1], s[j]);
      }
    }
  }

  /** Exchanging two elements keeps the same elements. */
  lemma SwapPermutes(s: seq<Task>, i: int, j: int, r: seq<Task>)
    requires 0 <= i < j < |s|
    requires r == s[i := s[j]][j := s[i]]
    ensures multiset(r) == multiset(s)
  {
    var t := s[i := s[j]];
    assert multiset(t) == multiset(s) - multiset{s[i]} + multiset{s[j]};
  }

  /** The `filteredAndSortedTasks` memo: copy the tasks, filter them by the
      query and the status, and sort what remains by the chosen option. */
  method FilteredAndSorted(tasks: seq<Task>, query: string, filter: string, sortBy: string, now: Time)
    returns (r: seq<Task>)
    ensures multiset(r) == multiset(Filtered(tasks, query, filter, now))
    ensures Sorted(KeyOf(sortBy), r)
  {
    var filtered := Filtered(tasks, query, filter, now);
    var a := new Task[|filtered|](i requires 0 <= i < |filtered| => filtered[i]);
    assert a[..] == filtered;
    SortTasks(a, KeyOf(sortBy));
    r := a[..];
  }

  /** The list shown is a reordering of some of the tasks: nothing is added
      or changed, and a task appears exactly when the filters keep it. */
  lemma ShownAreKept(tasks: seq<Task>, query: string, filter: string, now: Time, r: seq<Task>)
    requires multiset(r) == multiset(Filtered(tasks, query, filter, now))
    ensures |r| <= |tasks|
    ensures forall t :: t in r <==>
      t in tasks && (IsBlank(query) || MatchesQuery(t, query)) && KeptByStatus(t, filter, now)
  {
    FilteredMembers(tasks, query, filter, now);
    assert |r| == |multiset(r)|;
    assert |multiset(tasks)| == |tasks|;
    forall t
      ensures t in r <==> t in Filtered(tasks, query, filter, now)
    {
      assert t in r <==> t in multiset(r);
    }
  }

  /** With the due-date sort, every dated task comes before every undated
      one, and dated tasks ascend. */
  lemma DueDateOrder(r: seq<Task>, i: int, j: int)
    requires Sorted(ByDueDate, r)
    requires 0 <= i < j < |r|
    ensures r[j].dueDate.Some? ==> r[i].dueDate.Some? && r[i].dueDate.value <= r[j].dueDate.value
  {
    assert SortLe(ByDueDate, r[i], r[j]);
  }

  // ---------------------------------------------------------------------
  // The sort button

  /** `Object.values(SORT_OPTIONS)`, in declaration order. */
  const SortOptions: seq<string> := ["dueDate", "priority", "createdAt", "alphabetical"]

  /** The option shown first. */
  const InitialSort: string := "createdAt"

  /** `options.indexOf(sortBy)`: the first position, or -1. */
  function IndexOf(options: seq<string>, s: string): (r: int)
    ensures -1 <= r < |options|
    ensures r == -1 <==> s !in options
    ensures r >= 0 ==> options[r] == s && s !in options[..r]
  {
    if options == [] then -1
    else if options[0] == s then 0
    else
      var k := IndexOf(options[1..], s);
      if k == -1 then -1
      else
        assert options[..k + 1] == [options[0]] + options[1..][..k];
        k + 1
  }

  /** One press: the option after the current one, wrapping around; an
      unknown option moves to the first. */
  function NextSort(sortBy: string): (r: string)
    ensures r in SortOptions
  {
    SortOptions[(IndexOf(SortOptions, sortBy) + 1) % |SortOptions|]
  }

  function Presses(sortBy: string, n: nat): string {
    if n == 0 then sortBy else NextSort(Presses(sortBy, n - 1))
  }

  /** The successor of each option, and of an unknown value. */
  lemma NextSortTable(other: string)
    requires other !in SortOptions
    ensures NextSort("dueDate") == "priority"
    ensures NextSort("priority") == "createdAt"
    ensures NextSort("createdAt") == "alphabetical"
    ensures NextSort("alphabetical") == "dueDate"
    ensures NextSort(other) == "dueDate"
  {
    assert IndexOf(SortOptions, "dueDate") == 0;
    assert IndexOf(SortOptions, "priority") == 1 by {
      assert SortOptions[1..] == ["priority", "createdAt", "alphabetical"];
    }
    assert IndexOf(SortOptions, "createdAt") == 2 by {
      assert SortOptions[1..][1..] == ["createdAt", "alphabetical"];
    }
    assert IndexOf(SortOptions, "alphabetical") == 3 by {
      assert SortOptions[1..][1..][1..] == ["alphabetical"];
    }
  }

  /** Each press moves to a different option, four presses return to where
      they started, and from the initial option every option is reached
      within three presses. */
  lemma SortCycle(sortBy: string)
    requires sortBy in SortOptions
    ensures NextSort(sortBy) != sortBy
    ensures Presses(sortBy, 4) == sortBy
    ensures Presses(InitialSort, 1) == "alphabetical"
    ensures Presses(InitialSort, 2) == "dueDate"
    ensures Presses(InitialSort, 3) == "priority"
  {
    NextSortTable("");
  }
}
