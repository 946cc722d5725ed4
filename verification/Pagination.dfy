// The task list: filter, sort, cut and resume by key, over a store that may change
// between pages.
module Pagination {
  import opened Wrappers
  import opened Text
  import opened TaskHistory

  datatype Query = Query(
    lifecycle: Option<Lifecycle>, runner: string, repository: string, from: Option<Time>, to: Option<Time>, limit: nat)

  datatype Cursor = Cursor(lastActivityAt: Time, taskId: Id)

  datatype Page = Page(items: seq<Task>, next: Option<Cursor>)

  // parseTaskLimit on a trimmed-blank or numeric query value
  function ParseLimit(raw: string): (r: Option<nat>)
    ensures r.Some? ==> 1 <= r.value <= 100
  {
    if Blank(raw) then Some(20)
    else
      var value := Atoi(raw);
      if value.None? || value.value < 1 || value.value > 100 then None else Some(value.value)
  }

  // No limit is 20, and a number is taken exactly from 1 to 100.
  lemma LimitIsExact(raw: string, n: nat)
    ensures Blank(raw) ==> ParseLimit(raw) == Some(20)
    ensures ParseLimit(Numeral(n)) == if 1 <= n <= 100 then Some(n) else None
    ensures ParseLimit("-" + Numeral(n)) == None
  {
    NumeralHasNoSpace(n);
    AtoiReads(n);
    hide Numeral, Atoi, Blank, IsSpace;
  }

  // ---------------------------------------------------------------- order and selection

  // Most recent activity first, then by id.
  predicate Before(a: Cursor, b: Cursor) {
    a.lastActivityAt > b.lastActivityAt || (a.lastActivityAt == b.lastActivityAt && Less(a.taskId, b.taskId))
  }

  function KeyOf(t: Task): Cursor {
    Cursor(t.lastActivityAt, t.id)
  }

  // afterTaskCursor
  predicate AfterCursor(t: Task, c: Cursor) {
    if t.lastActivityAt == c.lastActivityAt then Less(c.taskId, t.id) else t.lastActivityAt < c.lastActivityAt
  }

  predicate HasRepository(t: Task, repository: string) {
    exists i :: 0 <= i < |t.intent.scope| && t.intent.scope[i].name == repository
  }

  predicate Matches(t: Task, q: Query) {
    && (q.lifecycle.Some? ==> t.lifecycle == q.lifecycle.value)
    && (q.runner != "" ==> t.intent.runner.preset == q.runner || t.intent.runner.provider == q.runner)
    && (q.repository != "" ==> HasRepository(t, q.repository))
    && (q.from.Some? ==> q.from.value <= t.lastActivityAt)
    && (q.to.Some? ==> t.lastActivityAt <= q.to.value)
  }

  predicate Selected(t: Task, q: Query, c: Option<Cursor>) {
    Matches(t, q) && (c.Some? ==> AfterCursor(t, c.value))
  }

  function Filtered(ts: seq<Task>, q: Query, c: Option<Cursor>): seq<Task> {
    if ts == [] then []
    else Filtered(ts[..|ts| - 1], q, c) + if Selected(ts[|ts| - 1], q, c) then [ts[|ts| - 1]] else []
  }

  // The place of t behind everything it is not to precede.
  function Insert(t: Task, sorted: seq<Task>): seq<Task> {
    if sorted == [] then [t]
    else if Before(KeyOf(t), KeyOf(sorted[0])) then [t] + sorted
    else [sorted[0]] + Insert(t, sorted[1..])
  }

  // sort.SliceStable
  function Sorted(ts: seq<Task>): seq<Task> {
    if ts == [] then [] else Insert(ts[|ts| - 1], Sorted(ts[..|ts| - 1]))
  }

  function Listing(ts: seq<Task>, q: Query, c: Option<Cursor>): seq<Task> {
    Sorted(Filtered(ts, q, c))
  }

  function PageOf(ts: seq<Task>, q: Query, c: Option<Cursor>): Page
    requires q.limit >= 1
  {
    var all := Listing(ts, q, c);
    if |all| <= q.limit then Page(all, None) else Page(all[..q.limit], Some(KeyOf(all[q.limit - 1])))
  }

  // handleTaskList, on the registry's snapshot
  method ListTasks(ts: seq<Task>, q: Query, cursor: Option<Cursor>) returns (page: Page)
    requires q.limit >= 1
    ensures page == PageOf(ts, q, cursor)
  {
    hide Less, Before;
    var filtered: seq<Task> := [];
    for i := 0 to |ts|
      invariant filtered == Filtered(ts[..i], q, cursor)
    {
      var task := ts[i];
      assert ts[..i + 1][..i] == ts[..i];
      if q.lifecycle.Some? && task.lifecycle != q.lifecycle.value {
        continue;
      }
      if q.runner != "" && task.intent.runner.preset != q.runner && task.intent.runner.provider != q.runner {
        continue;
      }
      if q.repository != "" && !HasRepository(task, q.repository) {
        continue;
      }
      if q.from.Some? && task.lastActivityAt < q.from.value {
        continue;
      }
      if q.to.Some? && task.lastActivityAt > q.to.value {
        continue;
      }
      if cursor.Some? && !AfterCursor(task, cursor.value) {
        continue;
      }
      filtered := filtered + [task];
    }
    assert ts[..|ts|] == ts;
    filtered := Sorted(filtered);
    var hasMore := |filtered| > q.limit;
    if hasMore {
      filtered := filtered[..q.limit];
    }
    if hasMore && |filtered| > 0 {
      return Page(filtered, Some(KeyOf(filtered[|filtered| - 1])));
    }
    return Page(filtered, None);
  }

  // ---------------------------------------------------------------- the order is strict and total

  lemma BeforeIsTransitive(a: Cursor, b: Cursor, c: Cursor)
    requires Before(a, b) && Before(b, c)
    ensures Before(a, c)
  {
    if a.lastActivityAt == b.lastActivityAt == c.lastActivityAt {
      LessIsTransitive(a.taskId, b.taskId, c.taskId);
    }
    hide Less;
  }

  lemma BeforeIsTotal(a: Cursor, b: Cursor)
    ensures a == b || Before(a, b) || Before(b, a)
  {
    LessIsTotal(a.taskId, b.taskId);
    hide Less;
  }

  lemma BeforeIsAsymmetric(a: Cursor, b: Cursor)
    requires Before(a, b)
    ensures !Before(b, a) && a != b
  {
    if a.lastActivityAt == b.lastActivityAt {
      LessIsAsymmetric(a.taskId, b.taskId);
    }
    hide Less;
  }

  lemma AfterIsBefore(t: Task, c: Cursor)
    ensures AfterCursor(t, c) <==> Before(c, KeyOf(t))
  {
    hide Less;
  }

  // ---------------------------------------------------------------- what the listing is

  predicate UniqueIds(ts: seq<Task>) {
    forall i, j :: 0 <= i < j < |ts| ==> ts[i].id != ts[j].id
  }

  predicate InOrder(ts: seq<Task>) {
    forall i, j :: 0 <= i < j < |ts| ==> Before(KeyOf(ts[i]), KeyOf(ts[j]))
  }

  lemma {:induction false} FilteredHas(ts: seq<Task>, q: Query, c: Option<Cursor>, x: Task)
    ensures x in Filtered(ts, q, c) <==> x in ts && Selected(x, q, c)
  {
    hide Selected;
    if ts != [] {
      FilteredHas(ts[..|ts| - 1], q, c, x);
      assert ts == ts[..|ts| - 1] + [ts[|ts| - 1]];
    }
  }

  lemma {:induction false} FilteredUnique(ts: seq<Task>, q: Query, c: Option<Cursor>)
    requires UniqueIds(ts)
    ensures UniqueIds(Filtered(ts, q, c))
  {
    hide Selected;
    if ts != [] {
      var init, last := ts[..|ts| - 1], ts[|ts| - 1];
      FilteredUnique(init, q, c);
      forall i | 0 <= i < |Filtered(init, q, c)|
        ensures Filtered(init, q, c)[i].id != last.id
      {
        FilteredHas(init, q, c, Filtered(init, q, c)[i]);
      }
    }
  }

  lemma {:induction false} InsertHas(t: Task, ts: seq<Task>, x: Task)
    ensures x in Insert(t, ts) <==> x == t || x in ts
  {
    hide Before;
    if ts != [] && !Before(KeyOf(t), KeyOf(ts[0])) {
      InsertHas(t, ts[1..], x);
      assert ts == [ts[0]] + ts[1..];
    }
  }

  lemma {:induction false} SortedHas(ts: seq<Task>, x: Task)
    ensures x in Sorted(ts) <==> x in ts
  {
    if ts != [] {
      InsertHas(ts[|ts| - 1], Sorted(ts[..|ts| - 1]), x);
      SortedHas(ts[..|ts| - 1], x);
      assert ts == ts[..|ts| - 1] + [ts[|ts| - 1]];
    }
  }

  lemma {:induction false} InsertKeepsOrder(t: Task, ts: seq<Task>)
    requires InOrder(ts) && forall i :: 0 <= i < |ts| ==> ts[i].id != t.id
    ensures InOrder(Insert(t, ts))
  {
    hide Before;
    if ts == [] {
    } else if Before(KeyOf(t), KeyOf(ts[0])) {
      forall j | 0 <= j < |ts|
        ensures Before(KeyOf(t), KeyOf(ts[j]))
      {
        if j > 0 {
          BeforeIsTransitive(KeyOf(t), KeyOf(ts[0]), KeyOf(ts[j]));
        }
      }
    } else {
      var rest := Insert(t, ts[1..]);
      InsertKeepsOrder(t, ts[1..]);
      BeforeIsTotal(KeyOf(t), KeyOf(ts[0]));
      forall j | 0 <= j < |rest|
        ensures Before(KeyOf(ts[0]), KeyOf(rest[j]))
      {
        InsertHas(t, ts[1..], rest[j]);
        if rest[j] != t {
          var m :| 0 <= m < |ts[1..]| && ts[1..][m] == rest[j];
          assert ts[m + 1] == rest[j];
        }
      }
    }
  }

  lemma {:induction false} SortedInOrder(ts: seq<Task>)
    requires UniqueIds(ts)
    ensures InOrder(Sorted(ts))
  {
    hide Before;
    if ts != [] {
      var init, last := ts[..|ts| - 1], ts[|ts| - 1];
      SortedInOrder(init);
      forall i | 0 <= i < |Sorted(init)|
        ensures Sorted(init)[i].id != last.id
      {
        SortedHas(init, Sorted(init)[i]);
        var m :| 0 <= m < |init| && init[m] == Sorted(init)[i];
        assert ts[m].id != ts[|ts| - 1].id;
      }
      InsertKeepsOrder(last, Sorted(init));
    }
  }

  // The listing holds exactly the selected tasks, each once, in order.
  lemma ListingIsExact(ts: seq<Task>, q: Query, c: Option<Cursor>)
    requires UniqueIds(ts)
    ensures InOrder(Listing(ts, q, c))
    ensures forall x {:trigger x in Listing(ts, q, c)} :: x in Listing(ts, q, c) <==> x in ts && Selected(x, q, c)
  {
    hide Before, Selected;
    FilteredUnique(ts, q, c);
    SortedInOrder(Filtered(ts, q, c));
    forall x: Task
      ensures x in Listing(ts, q, c) <==> x in ts && Selected(x, q, c)
    {
      FilteredHas(ts, q, c, x);
      SortedHas(Filtered(ts, q, c), x);
    }
  }

  // Which tasks are listed, filter by filter: those of the lifecycle asked for, with the
  // preset or the provider, the repository, the activity between the two times and after the
  // cursor's in the listing's order, the latest activity first and then the lesser id.
  lemma ListingReads(ts: seq<Task>, q: Query, c: Option<Cursor>)
    requires UniqueIds(ts)
    ensures forall i, j :: 0 <= i < j < |Listing(ts, q, c)| ==>
              var x, y := Listing(ts, q, c)[i], Listing(ts, q, c)[j];
              y.lastActivityAt < x.lastActivityAt || (x.lastActivityAt == y.lastActivityAt && Less(x.id, y.id))
    ensures forall x {:trigger x in Listing(ts, q, c)} :: x in Listing(ts, q, c) <==>
              && x in ts
              && q.lifecycle in {None, Some(x.lifecycle)}
              && q.runner in {"", x.intent.runner.preset, x.intent.runner.provider}
              && (q.repository == "" || exists i :: 0 <= i < |x.intent.scope| && x.intent.scope[i].name == q.repository)
              && (q.from.None? || q.from.value <= x.lastActivityAt) && (q.to.None? || x.lastActivityAt <= q.to.value)
              && (c.None? || x.lastActivityAt < c.value.lastActivityAt
                  || (x.lastActivityAt == c.value.lastActivityAt && Less(c.value.taskId, x.id)))
  {
    ListingIsExact(ts, q, c);
    hide Listing, Less;
  }

  lemma FirstMember(a: seq<Task>)
    ensures a == [] || a[0] in a
  {
  }

  // A strict order leaves one way to write a set of tasks down.
  lemma {:induction false} OrderIsUnique(a: seq<Task>, b: seq<Task>)
    requires InOrder(a) && InOrder(b) && forall x :: x in a <==> x in b
    ensures a == b
  {
    hide Before;
    if a == [] {
      FirstMember(b);
    } else {
      assert a[0] in b && (b == [] || b[0] in a);
      FirstsAgree(a, b);
      assert forall x :: x in a[1..] <==> x in b[1..] by {
        RestHas(a);
        RestHas(b);
      }
      OrderIsUnique(a[1..], b[1..]);
    }
  }

  lemma RestHas(a: seq<Task>)
    requires InOrder(a) && a != []
    ensures forall x :: x in a[1..] <==> x in a && x != a[0]
  {
    hide Before;
    forall i | 0 < i < |a|
      ensures a[i] != a[0]
    {
      BeforeIsAsymmetric(KeyOf(a[0]), KeyOf(a[i]));
    }
    forall x: Task
      ensures x in a[1..] <==> x in a && x != a[0]
    {
      assert a == [a[0]] + a[1..];
      if x in a[1..] {
        var m :| 0 <= m < |a[1..]| && a[1..][m] == x;
        assert a[m + 1] == x;
      }
    }
  }

  lemma FirstsAgree(a: seq<Task>, b: seq<Task>)
    requires InOrder(a) && InOrder(b) && a != [] && b != [] && a[0] in b && b[0] in a
    ensures a[0] == b[0]
  {
    hide Before;
    var i :| 0 <= i < |b| && b[i] == a[0];
    var j :| 0 <= j < |a| && a[j] == b[0];
    if i > 0 && j > 0 {
      BeforeIsAsymmetric(KeyOf(b[0]), KeyOf(b[i]));
    }
  }

  // ---------------------------------------------------------------- an unchanged store

  // Resuming after the k-th item lists exactly what was left.
  lemma ResumesAfter(ts: seq<Task>, q: Query, c: Option<Cursor>, k: nat)
    requires UniqueIds(ts) && 0 < k <= |Listing(ts, q, c)|
    ensures Listing(ts, q, Some(KeyOf(Listing(ts, q, c)[k - 1]))) == Listing(ts, q, c)[k..]
  {
    hide Before, Matches, Listing, AfterCursor;
    var all := Listing(ts, q, c);
    var last := all[k - 1];
    var next := Some(KeyOf(last));
    ListingIsExact(ts, q, c);
    ListingIsExact(ts, q, next);
    var rest, resumed := all[k..], Listing(ts, q, next);
    assert last in all;
    forall x: Task
      ensures x in rest <==> x in resumed
    {
      AfterIsBefore(x, KeyOf(last));
      if x in all {
        var m :| 0 <= m < |all| && all[m] == x;
        TailHas(all, k, m);
      }
      if x in resumed {
        AfterIsAfter(x, last, c);
        assert x in all;
      }
      if x in rest {
        var m :| 0 <= m < |rest| && rest[m] == x;
        assert all[k + m] == x;
      }
    }
    OrderIsUnique(rest, resumed);
  }

  lemma TailHas(all: seq<Task>, k: nat, m: nat)
    requires InOrder(all) && 0 < k <= |all| && m < |all|
    ensures all[m] in all[k..] <==> m >= k
    ensures m >= k <==> Before(KeyOf(all[k - 1]), KeyOf(all[m]))
  {
    hide Before;
    if m >= k {
      assert all[k..][m - k] == all[m];
    } else {
      if m < k - 1 {
        BeforeIsAsymmetric(KeyOf(all[m]), KeyOf(all[k - 1]));
      } else {
        NotBeforeItself(KeyOf(all[m]));
      }
      forall n | k <= n < |all|
        ensures all[n] != all[m]
      {
        BeforeIsAsymmetric(KeyOf(all[m]), KeyOf(all[n]));
      }
    }
  }

  lemma NotBeforeItself(a: Cursor)
    ensures !Before(a, a)
  {
    if Less(a.taskId, a.taskId) {
      LessIsAsymmetric(a.taskId, a.taskId);
    }
  }

  // A task past a listed one is past the cursor that listing started from.
  lemma AfterIsAfter(x: Task, last: Task, c: Option<Cursor>)
    requires AfterCursor(x, KeyOf(last)) && (c.Some? ==> AfterCursor(last, c.value))
    ensures c.Some? ==> AfterCursor(x, c.value)
  {
    if c.Some? && x.lastActivityAt == last.lastActivityAt == c.value.lastActivityAt {
      LessIsTransitive(c.value.taskId, last.id, x.id);
    }
    hide Less;
  }

  // The pages a client gets by following next_cursor on one store; it runs out of them.
  function Follow(ts: seq<Task>, q: Query, c: Option<Cursor>): (r: seq<Page>)
    requires q.limit >= 1 && UniqueIds(ts)
    ensures r != []
    decreases |Listing(ts, q, c)|
  {
    var page := PageOf(ts, q, c);
    if page.next.None? then [page]
    else
      ResumesAfter(ts, q, c, q.limit);
      [page] + Follow(ts, q, page.next)
  }

  function AllItems(pages: seq<Page>): seq<Task> {
    if pages == [] then [] else pages[0].items + AllItems(pages[1..])
  }

  lemma OnePage(ts: seq<Task>, q: Query, c: Option<Cursor>)
    requires q.limit >= 1 && UniqueIds(ts)
    ensures var page, all := PageOf(ts, q, c), Listing(ts, q, c);
            && |page.items| <= q.limit
            && (page.next.None? ==> Follow(ts, q, c) == [page] && page.items == all)
            && (page.next.Some? ==>
                  && Follow(ts, q, c) == [page] + Follow(ts, q, page.next) && |page.items| == q.limit
                  && all == page.items + Listing(ts, q, page.next) && |Listing(ts, q, page.next)| < |all|)
  {
    hide Listing, Before, UniqueIds;
    var page, all := PageOf(ts, q, c), Listing(ts, q, c);
    if page.next.Some? {
      ResumesAfter(ts, q, c, q.limit);
      assert all[..q.limit] + all[q.limit..] == all;
    }
  }

  lemma PageFirst(page: Page, rest: seq<Page>)
    ensures AllItems([page] + rest) == page.items + AllItems(rest) && AllItems([page]) == page.items
  {
    assert ([page] + rest)[1..] == rest && [page][1..] == [] && page.items + [] == page.items;
  }

  // Following the cursors lists the whole selection once, in order, in full pages.
  lemma {:induction false} PagesAreTheListing(ts: seq<Task>, q: Query, c: Option<Cursor>)
    requires q.limit >= 1 && UniqueIds(ts)
    ensures AllItems(Follow(ts, q, c)) == Listing(ts, q, c)
    ensures forall i :: 0 <= i < |Follow(ts, q, c)| - 1 ==> |Follow(ts, q, c)[i].items| == q.limit
    ensures |Follow(ts, q, c)[|Follow(ts, q, c)| - 1].items| <= q.limit
    decreases |Listing(ts, q, c)|
  {
    hide *;
    OnePage(ts, q, c);
    var page := PageOf(ts, q, c);
    if page.next.None? {
      PageFirst(page, []);
    } else {
      PagesAreTheListing(ts, q, page.next);
      PageFirst(page, Follow(ts, q, page.next));
    }
  }

  // ---------------------------------------------------------------- a changing store

  // One request: the store it finds and the filters it sends.
  datatype Visit = Visit(tasks: seq<Task>, query: Query)

  // Tasks are added or touched, never removed, and their activity only grows.
  predicate Grows(ts: seq<Task>, us: seq<Task>) {
    forall i :: 0 <= i < |ts| ==> exists j :: 0 <= j < |us| && Touched(ts[i], us[j])
  }

  predicate Touched(t: Task, u: Task) {
    u.id == t.id && t.lastActivityAt <= u.lastActivityAt
  }

  // A client's requests, each resuming where the last one ended.
  predicate Browsed(visits: seq<Visit>, pages: seq<Page>) {
    && |pages| == |visits|
    && (forall i :: 0 <= i < |visits| ==> visits[i].query.limit >= 1 && UniqueIds(visits[i].tasks))
    && (forall i :: 0 <= i < |visits| - 1 ==> Grows(visits[i].tasks, visits[i + 1].tasks))
    && (forall i {:trigger pages[i]} :: 0 <= i < |visits| ==>
          (i > 0 ==> pages[i - 1].next.Some?)
          && pages[i] == PageOf(visits[i].tasks, visits[i].query, if i == 0 then None else pages[i - 1].next))
  }

  // The key is at or before the cursor: nothing with it is listed from there on.
  predicate Passed(key: Cursor, c: Cursor) {
    key == c || Before(key, c)
  }

  lemma PassedStays(key: Cursor, later: Cursor, c: Cursor)
    requires Passed(key, c) && later.taskId == key.taskId && key.lastActivityAt <= later.lastActivityAt
    ensures Passed(later, c)
  {
    hide Less;
  }

  lemma PassedIsNotAfter(t: Task, c: Cursor)
    requires Passed(KeyOf(t), c)
    ensures !AfterCursor(t, c)
  {
    if KeyOf(t) == c {
      NotBeforeItself(c);
    } else {
      BeforeIsAsymmetric(KeyOf(t), c);
    }
    hide Less;
  }

  // The end of a page has passed everything on it and the cursor it resumed from.
  lemma PageEnd(ts: seq<Task>, q: Query, c: Option<Cursor>, x: Task)
    requires UniqueIds(ts) && q.limit >= 1 && PageOf(ts, q, c).next.Some? && x in PageOf(ts, q, c).items
    ensures Passed(KeyOf(x), PageOf(ts, q, c).next.value)
    ensures x in ts && Selected(x, q, c)
  {
    hide Before, Listing, Selected;
    var all := Listing(ts, q, c);
    ListingIsExact(ts, q, c);
    var m :| 0 <= m < q.limit && all[m] == x;
    assert all[m] in all;
  }

  lemma PageMovesOn(ts: seq<Task>, q: Query, c: Option<Cursor>, key: Cursor)
    requires UniqueIds(ts) && q.limit >= 1 && PageOf(ts, q, c).next.Some?
    requires c.Some? && Passed(key, c.value)
    ensures Passed(key, PageOf(ts, q, c).next.value)
  {
    var all := Listing(ts, q, c);
    ListingIsExact(ts, q, c);
    var last := all[q.limit - 1];
    assert last in all;
    assert AfterCursor(last, c.value);
    assert Before(c.value, KeyOf(last));
    if key != c.value {
      BeforeIsTransitive(key, c.value, KeyOf(last));
    }
    hide Less, Listing;
  }

  lemma CarriedOver(ts: seq<Task>, us: seq<Task>, t: Task, c: Cursor) returns (m: nat)
    requires Grows(ts, us) && t in ts && Passed(KeyOf(t), c)
    ensures m < |us| && Touched(t, us[m]) && Passed(KeyOf(us[m]), c)
  {
    hide Passed;
    var k :| 0 <= k < |ts| && ts[k] == t;
    m :| 0 <= m < |us| && Touched(ts[k], us[m]);
    PassedStays(KeyOf(t), KeyOf(us[m]), c);
  }

  function ResumedFrom(pages: seq<Page>, i: nat): Option<Cursor>
    requires i <= |pages|
  {
    if i == 0 then None else pages[i - 1].next
  }

  lemma BrowsedAt(visits: seq<Visit>, pages: seq<Page>, i: nat)
    requires Browsed(visits, pages) && i < |visits|
    ensures |pages| == |visits|
    ensures visits[i].query.limit >= 1 && UniqueIds(visits[i].tasks)
    ensures pages[i] == PageOf(visits[i].tasks, visits[i].query, ResumedFrom(pages, i))
    ensures i + 1 < |visits| ==> pages[i].next.Some? && Grows(visits[i].tasks, visits[i + 1].tasks)
  {
    hide PageOf, UniqueIds, Grows;
    assert pages[i].items == pages[i].items;
    if i + 1 < |visits| {
      assert pages[i + 1].items == pages[i + 1].items;
    }
  }

  // Where a listed task stands in a later store.
  lemma {:induction false} StillPassed(visits: seq<Visit>, pages: seq<Page>, i: nat, j: nat, x: Task) returns (m: nat)
    requires Browsed(visits, pages) && i < j < |visits| && x in pages[i].items
    ensures m < |visits[j].tasks| && Touched(x, visits[j].tasks[m])
    ensures pages[j - 1].next.Some? && Passed(KeyOf(visits[j].tasks[m]), pages[j - 1].next.value)
    decreases j
  {
    hide Browsed, PageOf, Passed, UniqueIds, Selected, Grows;
    BrowsedAt(visits, pages, j - 1);
    var ts, q := visits[j - 1].tasks, visits[j - 1].query;
    if i + 1 == j {
      PageEnd(ts, q, ResumedFrom(pages, i), x);
      m := CarriedOver(ts, visits[j].tasks, x, pages[j - 1].next.value);
    } else {
      var n := StillPassed(visits, pages, i, j - 1, x);
      PageMovesOn(ts, q, ResumedFrom(pages, j - 1), KeyOf(ts[n]));
      m := CarriedOver(ts, visits[j].tasks, ts[n], pages[j - 1].next.value);
    }
  }

  lemma PageHolds(ts: seq<Task>, q: Query, c: Option<Cursor>, y: Task)
    requires UniqueIds(ts) && q.limit >= 1 && y in PageOf(ts, q, c).items
    ensures y in ts && Selected(y, q, c)
  {
    hide Selected, Listing, Before;
    var all := Listing(ts, q, c);
    ListingIsExact(ts, q, c);
    var m :| 0 <= m < |all| && all[m] == y;
    assert all[m] in all;
  }

  // While activity only grows, no task is listed on two pages, whatever else changes.
  lemma NothingListedTwice(visits: seq<Visit>, pages: seq<Page>, i: nat, j: nat, x: Task, y: Task)
    requires Browsed(visits, pages) && i < j < |visits|
    requires x in pages[i].items && y in pages[j].items
    ensures x.id != y.id
  {
    hide Browsed, PageOf, Passed, Matches, AfterCursor, Grows;
    BrowsedAt(visits, pages, j);
    var m := StillPassed(visits, pages, i, j, x);
    var u, c := visits[j].tasks[m], pages[j - 1].next;
    PageHolds(visits[j].tasks, visits[j].query, c, y);
    PassedIsNotAfter(u, c.value);
    var n :| 0 <= n < |visits[j].tasks| && visits[j].tasks[n] == y;
    assert n != m;
  }

  // Activity that is set back, as an aborted admission does, lists a task again: after a
  // page, the rest of the listing holds a task exactly when it matches and its activity
  // now falls past the cursor.
  lemma ListedAgainExactly(us: seq<Task>, q: Query, c: Cursor, k: nat)
    requires UniqueIds(us) && q.limit >= 1 && k < |us|
    ensures us[k] in AllItems(Follow(us, q, Some(c))) <==> Matches(us[k], q) && AfterCursor(us[k], c)
  {
    hide Before, Matches, AfterCursor, Listing;
    PagesAreTheListing(us, q, Some(c));
    ListingIsExact(us, q, Some(c));
    assert us[k] in Listing(us, q, Some(c)) <==> us[k] in us && Selected(us[k], q, Some(c));
  }
}
