/** `applyFilters`: the list of tickets the dashboard shows, recomputed from
    the collection, the logged-in user, the search box and the two drop-down
    filters. */
module Visibility {
  import opened Tickets
  import opened Text

  /** The status drop-down: `'all'` or one status. */
  datatype StatusFilter = AllStatuses | StatusIs(status: Status)

  /** The priority drop-down: `'all'` or one priority. */
  datatype PriorityFilter = AllPriorities | PriorityIs(priority: Priority)

  /** `s.filter(p)`: the elements that satisfy `p`, each as often as in `s`. */
  function Filter<T(!new)>(s: seq<T>, p: T -> bool): (r: seq<T>)
    ensures |r| <= |s|
  {
    if s == [] then []
    else (if p(s[0]) then [s[0]] else []) + Filter(s[1..], p)
  }

  /** Filtering keeps every element that satisfies `p` as often as it
      occurs, and drops every other one. */
  lemma {:induction false} FilterMultiplicity<T(!new)>(s: seq<T>, p: T -> bool, x: T)
    ensures multiset(Filter(s, p))[x] == if p(x) then multiset(s)[x] else 0
  {
    if s != [] {
      FilterMultiplicity(s[1..], p, x);
      assert s == [s[0]] + s[1..];
    }
  }

  /** `x => p(x) && q(x)` */
  function Both<T>(p: T -> bool, q: T -> bool): T -> bool {
    (x: T) => p(x) && q(x)
  }

  /** Filtering by `p` and then by `q` is filtering once by both: the
      survivors keep the order they had in `s`. */
  lemma {:induction false} FilterFilter<T(!new)>(s: seq<T>, p: T -> bool, q: T -> bool)
    ensures Filter(Filter(s, p), q) == Filter(s, Both(p, q))
  {
    if s != [] {
      FilterFilter(s[1..], p, q);
      assert Filter(s, p) == (if p(s[0]) then [s[0]] else []) + Filter(s[1..], p);
      assert Filter(s, Both(p, q)) == (if p(s[0]) && q(s[0]) then [s[0]] else []) + Filter(s[1..], Both(p, q));
      if p(s[0]) {
        FilterCons(s[0], Filter(s[1..], p), q);
      } else {
        assert Filter(s, p) == Filter(s[1..], p);
      }
    }
  }

  /** Filtering depends only on which elements the predicate accepts. */
  lemma {:induction false} FilterExt<T(!new)>(s: seq<T>, p: T -> bool, q: T -> bool)
    requires forall x :: p(x) == q(x)
    ensures Filter(s, p) == Filter(s, q)
  {
    if s != [] {
      FilterExt(s[1..], p, q);
    }
  }

  /** A predicate that accepts everything keeps the whole sequence. */
  lemma {:induction false} FilterKeepsAll<T(!new)>(s: seq<T>, p: T -> bool)
    requires forall x :: p(x)
    ensures Filter(s, p) == s
  {
    if s != [] {
      FilterKeepsAll(s[1..], p);
      assert s == [s[0]] + s[1..];
    }
  }

  /** Two filters can be applied in either order. */
  lemma FilterCommutes<T(!new)>(s: seq<T>, p: T -> bool, q: T -> bool)
    ensures Filter(Filter(s, p), q) == Filter(Filter(s, q), p)
  {
    FilterFilter(s, p, q);
    FilterFilter(s, q, p);
    FilterExt(s, Both(p, q), Both(q, p));
  }

  /** `t => t.submittedBy === username` */
  function SubmittedBy(username: string): Ticket -> bool {
    (t: Ticket) => t.submittedBy == username
  }

  /** The lower-cased search term occurs in the lower-cased title,
      description or ticket id. */
  predicate MatchesSearch(t: Ticket, term: string) {
    var needle := ToLower(term);
    Includes(ToLower(t.title), needle) ||
    Includes(ToLower(t.description), needle) ||
    Includes(ToLower(t.ticketId), needle)
  }

  /** A ticket matches exactly when the lower-cased term is a contiguous
      slice of its lower-cased title, description or ticket id. */
  lemma MatchesSearchIffSubstring(t: Ticket, term: string)
    ensures MatchesSearch(t, term) <==>
              (exists i :: OccursAt(ToLower(t.title), ToLower(term), i)) ||
              (exists i :: OccursAt(ToLower(t.description), ToLower(term), i)) ||
              (exists i :: OccursAt(ToLower(t.ticketId), ToLower(term), i))
  {
    IncludesIffOccurs(ToLower(t.title), ToLower(term));
    IncludesIffOccurs(ToLower(t.description), ToLower(term));
    IncludesIffOccurs(ToLower(t.ticketId), ToLower(term));
  }

  /** The search ignores the case of ASCII letters in the term. */
  lemma SearchIgnoresCase(t: Ticket, a: string, b: string)
    requires SameUpToCase(a, b)
    ensures MatchesSearch(t, a) == MatchesSearch(t, b)
  {
    ToLowerIgnoresCase(a, b);
  }

  function Matching(term: string): Ticket -> bool {
    (t: Ticket) => MatchesSearch(t, term)
  }

  function HasStatus(status: Status): Ticket -> bool {
    (t: Ticket) => t.status == status
  }

  function HasPriority(priority: Priority): Ticket -> bool {
    (t: Ticket) => t.priority == priority
  }

  /** Selects the tickets created at instant `c`. */
  function CreatedAt(c: int): Ticket -> bool {
    (t: Ticket) => t.createdAt == c
  }

  /** The four filtering steps of `applyFilters`, in the source's order:
      role scope, text search, status, priority. */
  function Filtered(tickets: seq<Ticket>, user: Option<User>, term: string,
                    statusFilter: StatusFilter, priorityFilter: PriorityFilter): seq<Ticket>
  {
    var scoped := if user.Some? && user.value.role == Worker
                  then Filter(tickets, SubmittedBy(user.value.username)) else tickets;
    var searched := if term != "" then Filter(scoped, Matching(term)) else scoped;
    var byStatus := if statusFilter.StatusIs?
                    then Filter(searched, HasStatus(statusFilter.status)) else searched;
    if priorityFilter.PriorityIs?
    then Filter(byStatus, HasPriority(priorityFilter.priority)) else byStatus
  }

  /** What `applyFilters` stores in `filteredTickets`. */
  function Visible(tickets: seq<Ticket>, user: Option<User>, term: string,
                   statusFilter: StatusFilter, priorityFilter: PriorityFilter): seq<Ticket>
  {
    SortNewestFirst(Filtered(tickets, user, term, statusFilter, priorityFilter))
  }

  /** Whether one ticket passes all four steps, stated on its own: a worker
      sees only what they submitted, a non-empty term must match, and each
      drop-down other than `'all'` must agree. */
  predicate Shown(user: Option<User>, term: string, statusFilter: StatusFilter,
                  priorityFilter: PriorityFilter, t: Ticket)
  {
    && (user.Some? && user.value.role == Worker ==> t.submittedBy == user.value.username)
    && (term != "" ==> MatchesSearch(t, term))
    && (statusFilter.StatusIs? ==> t.status == statusFilter.status)
    && (priorityFilter.PriorityIs? ==> t.priority == priorityFilter.priority)
  }

  /** `Shown` as a filter predicate. */
  function ShownBy(user: Option<User>, term: string, statusFilter: StatusFilter,
                   priorityFilter: PriorityFilter): Ticket -> bool
  {
    (t: Ticket) => Shown(user, term, statusFilter, priorityFilter, t)
  }

  /** The four steps as predicates that let every ticket through when the
      step is switched off. */
  function ScopeStep(user: Option<User>): Ticket -> bool {
    (t: Ticket) => !(user.Some? && user.value.role == Worker) || t.submittedBy == user.value.username
  }

  function SearchStep(term: string): Ticket -> bool {
    (t: Ticket) => term == "" || MatchesSearch(t, term)
  }

  function StatusStep(statusFilter: StatusFilter): Ticket -> bool {
    (t: Ticket) => !statusFilter.StatusIs? || t.status == statusFilter.status
  }

  function PriorityStep(priorityFilter: PriorityFilter): Ticket -> bool {
    (t: Ticket) => !priorityFilter.PriorityIs? || t.priority == priorityFilter.priority
  }

  /** A step that is either the filter `p` or, switched off, lets every
      element through. */
  lemma StepOrSkip<T(!new)>(s: seq<T>, on: bool, p: T -> bool, step: T -> bool)
    requires forall x :: step(x) == (!on || p(x))
    ensures Filter(s, step) == if on then Filter(s, p) else s
  {
    if on {
      FilterExt(s, p, step);
    } else {
      FilterKeepsAll(s, step);
    }
  }

  lemma ScopeIsStep(tickets: seq<Ticket>, user: Option<User>)
    ensures Filter(tickets, ScopeStep(user)) ==
            if user.Some? && user.value.role == Worker
            then Filter(tickets, SubmittedBy(user.value.username)) else tickets
  {
    if user.Some? && user.value.role == Worker {
      FilterExt(tickets, SubmittedBy(user.value.username), ScopeStep(user));
    } else {
      FilterKeepsAll(tickets, ScopeStep(user));
    }
  }

  lemma StatusIsStep(s: seq<Ticket>, statusFilter: StatusFilter)
    ensures Filter(s, StatusStep(statusFilter)) ==
            if statusFilter.StatusIs? then Filter(s, HasStatus(statusFilter.status)) else s
  {
    if statusFilter.StatusIs? {
      FilterExt(s, HasStatus(statusFilter.status), StatusStep(statusFilter));
    } else {
      FilterKeepsAll(s, StatusStep(statusFilter));
    }
  }

  lemma PriorityIsStep(s: seq<Ticket>, priorityFilter: PriorityFilter)
    ensures Filter(s, PriorityStep(priorityFilter)) ==
            if priorityFilter.PriorityIs? then Filter(s, HasPriority(priorityFilter.priority)) else s
  {
    if priorityFilter.PriorityIs? {
      FilterExt(s, HasPriority(priorityFilter.priority), PriorityStep(priorityFilter));
    } else {
      FilterKeepsAll(s, PriorityStep(priorityFilter));
    }
  }

  /** The four steps together keep exactly the tickets that pass `Shown`,
      in the collection's order. */
  lemma FilteredIsShown(tickets: seq<Ticket>, user: Option<User>, term: string,
                        statusFilter: StatusFilter, priorityFilter: PriorityFilter)
    ensures Filtered(tickets, user, term, statusFilter, priorityFilter) ==
            Filter(tickets, ShownBy(user, term, statusFilter, priorityFilter))
  {
    var sc, se := ScopeStep(user), SearchStep(term);
    var st, pr := StatusStep(statusFilter), PriorityStep(priorityFilter);
    var scoped := Filter(tickets, sc);
    ScopeIsStep(tickets, user);
    var searched := Filter(scoped, se);
    StepOrSkip(scoped, term != "", Matching(term), se);
    var byStatus := Filter(searched, st);
    StatusIsStep(searched, statusFilter);
    PriorityIsStep(byStatus, priorityFilter);
    FilterFilter(tickets, sc, se);
    FilterFilter(tickets, Both(sc, se), st);
    FilterFilter(tickets, Both(Both(sc, se), st), pr);
    StepsAreShown(user, term, statusFilter, priorityFilter);
    FilterExt(tickets, Both(Both(Both(sc, se), st), pr), ShownBy(user, term, statusFilter, priorityFilter));
  }

  lemma StepsAreShown(user: Option<User>, term: string,
                      statusFilter: StatusFilter, priorityFilter: PriorityFilter)
    ensures forall t :: Both(Both(Both(ScopeStep(user), SearchStep(term)), StatusStep(statusFilter)),
                             PriorityStep(priorityFilter))(t) ==
                        ShownBy(user, term, statusFilter, priorityFilter)(t)
  {
  }

  // ---------------------------------------------------------------------
  // The sort: `(a, b) => new Date(b.createdAt) - new Date(a.createdAt)`,
  // which `Array.prototype.sort` applies stably.

  predicate NewestFirst(s: seq<Ticket>) {
    forall i, j :: 0 <= i < j < |s| ==> s[i].createdAt >= s[j].createdAt
  }

  /** Places `x` before the first ticket of `s` that is not newer than it. */
  function InsertNewest(x: Ticket, s: seq<Ticket>): (r: seq<Ticket>)
    requires NewestFirst(s)
    ensures |r| == |s| + 1
    ensures r[0] == x || (s != [] && r[0] == s[0])
    ensures NewestFirst(r)
    ensures multiset(r) == multiset(s) + multiset{x}
  {
    if s == [] || s[0].createdAt <= x.createdAt then [x] + s
    else
      assert s == [s[0]] + s[1..];
      [s[0]] + InsertNewest(x, s[1..])
  }

  /** A stable insertion sort, newest first. */
  function SortNewestFirst(s: seq<Ticket>): (r: seq<Ticket>)
    ensures NewestFirst(r)
    ensures multiset(r) == multiset(s)
  {
    if s == [] then []
    else
      assert s == [s[0]] + s[1..];
      InsertNewest(s[0], SortNewestFirst(s[1..]))
  }

  lemma FilterCons<T(!new)>(x: T, s: seq<T>, p: T -> bool)
    ensures Filter([x] + s, p) == (if p(x) then [x] else []) + Filter(s, p)
  {
    assert ([x] + s)[1..] == s;
  }

  /** Inserting `x` puts it ahead of every ticket created at the same instant. */
  lemma {:induction false} InsertNewestStable(x: Ticket, s: seq<Ticket>, c: int)
    requires NewestFirst(s)
    ensures Filter(InsertNewest(x, s), CreatedAt(c)) ==
            (if x.createdAt == c then [x] else []) + Filter(s, CreatedAt(c))
  {
    if s == [] || s[0].createdAt <= x.createdAt {
      assert InsertNewest(x, s) == [x] + s;
      FilterCons(x, s, CreatedAt(c));
    } else {
      InsertNewestStable(x, s[1..], c);
      PassNewer(x, s[0], s[1..], InsertNewest(x, s[1..]), c);
      assert [s[0]] + s[1..] == s;
    }
  }

  /** One step of the insertion: moving `x` past a strictly newer ticket `y`
      keeps `x` first among the tickets created at its instant. */
  lemma PassNewer(x: Ticket, y: Ticket, s: seq<Ticket>, rest: seq<Ticket>, c: int)
    requires y.createdAt > x.createdAt
    requires Filter(rest, CreatedAt(c)) == (if x.createdAt == c then [x] else []) + Filter(s, CreatedAt(c))
    ensures Filter([y] + rest, CreatedAt(c)) ==
            (if x.createdAt == c then [x] else []) + Filter([y] + s, CreatedAt(c))
  {
    var p := CreatedAt(c);
    FilterCons(y, rest, p);
    FilterCons(y, s, p);
    var tail := Filter(s, p);
    if x.createdAt == c {
      assert !p(y);
      assert Filter([y] + rest, p) == [x] + tail;
    } else if p(y) {
      assert Filter(rest, p) == tail;
    } else {
      assert Filter(rest, p) == tail;
    }
  }

  /** The sort is stable: tickets created at the same instant keep their
      relative order. */
  lemma {:induction false} SortNewestFirstStable(s: seq<Ticket>, c: int)
    ensures Filter(SortNewestFirst(s), CreatedAt(c)) == Filter(s, CreatedAt(c))
  {
    if s != [] {
      SortNewestFirstStable(s[1..], c);
      InsertNewestStable(s[0], SortNewestFirst(s[1..]), c);
      FilterCons(s[0], s[1..], CreatedAt(c));
      assert [s[0]] + s[1..] == s;
    }
  }

  lemma FilterMember<T(!new)>(s: seq<T>, p: T -> bool, x: T)
    ensures x in Filter(s, p) <==> x in s && p(x)
  {
    var r := Filter(s, p);
    FilterMultiplicity(s, p, x);
    assert x in r <==> x in multiset(r);
    assert x in s <==> x in multiset(s);
  }

  /** A ticket of `s` appears in the selection of its own instant. */
  lemma InOwnInstant(s: seq<Ticket>, k: int)
    requires 0 <= k < |s|
    ensures s[k] in Filter(s, CreatedAt(s[k].createdAt))
  {
    FilterMember(s, CreatedAt(s[k].createdAt), s[k]);
  }

  /** The newest ticket of a newest-first sequence is created no earlier
      than any ticket selected from it. */
  lemma NewestBounds(s: seq<Ticket>, c: int, t: Ticket)
    requires NewestFirst(s) && s != []
    requires t in Filter(s, CreatedAt(c))
    ensures c <= s[0].createdAt
  {
    FilterMember(s, CreatedAt(c), t);
  }

  /** Two newest-first sequences that select the same tickets, in the same
      order, at every instant start with the same ticket. */
  lemma SameFirst(a: seq<Ticket>, b: seq<Ticket>)
    requires NewestFirst(a) && NewestFirst(b) && a != [] && b != []
    requires forall c :: Filter(a, CreatedAt(c)) == Filter(b, CreatedAt(c))
    ensures a[0] == b[0]
    ensures forall c :: Filter(a[1..], CreatedAt(c)) == Filter(b[1..], CreatedAt(c))
  {
    var ma, mb := a[0].createdAt, b[0].createdAt;
    InOwnInstant(b, 0);
    NewestBounds(a, mb, b[0]);
    InOwnInstant(a, 0);
    NewestBounds(b, ma, a[0]);
    assert a == [a[0]] + a[1..] && b == [b[0]] + b[1..];
    FilterCons(a[0], a[1..], CreatedAt(ma));
    FilterCons(b[0], b[1..], CreatedAt(ma));
    forall c ensures Filter(a[1..], CreatedAt(c)) == Filter(b[1..], CreatedAt(c)) {
      var head := if a[0].createdAt == c then [a[0]] else [];
      FilterCons(a[0], a[1..], CreatedAt(c));
      FilterCons(b[0], b[1..], CreatedAt(c));
      assert Filter(a, CreatedAt(c)) == head + Filter(a[1..], CreatedAt(c));
      assert Filter(b, CreatedAt(c)) == head + Filter(b[1..], CreatedAt(c));
      assert (head + Filter(a[1..], CreatedAt(c)))[|head|..] == Filter(a[1..], CreatedAt(c));
      assert (head + Filter(b[1..], CreatedAt(c)))[|head|..] == Filter(b[1..], CreatedAt(c));
    }
  }

  /** Two newest-first sequences that select the same tickets, in the same
      order, at every instant are the same sequence: a stable newest-first
      sort has exactly one possible result. */
  lemma {:induction false} StableNewestFirstUnique(a: seq<Ticket>, b: seq<Ticket>)
    requires NewestFirst(a) && NewestFirst(b)
    requires forall c :: Filter(a, CreatedAt(c)) == Filter(b, CreatedAt(c))
    ensures a == b
    decreases |a|
  {
    BothEmptyOrNot(a, b);
    if a != [] {
      SameFirst(a, b);
      StableNewestFirstUnique(a[1..], b[1..]);
      assert a == [a[0]] + a[1..] && b == [b[0]] + b[1..];
    }
  }

  /** Sequences that select the same tickets at every instant are both
      empty or both not. */
  lemma BothEmptyOrNot(a: seq<Ticket>, b: seq<Ticket>)
    requires forall c :: Filter(a, CreatedAt(c)) == Filter(b, CreatedAt(c))
    ensures a == [] <==> b == []
  {
    if a != [] {
      InOwnInstant(a, 0);
      assert Filter(b, CreatedAt(a[0].createdAt)) != [];
    }
    if b != [] {
      InOwnInstant(b, 0);
      assert Filter(a, CreatedAt(b[0].createdAt)) != [];
    }
  }

  // ---------------------------------------------------------------------
  // What the visible list is.

  /** A ticket appears in the visible list exactly as often as in the
      collection when it passes every step, and not at all otherwise. */
  lemma VisibleMultiplicity(tickets: seq<Ticket>, user: Option<User>, term: string,
                            statusFilter: StatusFilter, priorityFilter: PriorityFilter)
    ensures forall t :: multiset(Visible(tickets, user, term, statusFilter, priorityFilter))[t] ==
                        if Shown(user, term, statusFilter, priorityFilter, t)
                        then multiset(tickets)[t] else 0
  {
    var scoped := if user.Some? && user.value.role == Worker
                  then Filter(tickets, SubmittedBy(user.value.username)) else tickets;
    var searched := if term != "" then Filter(scoped, Matching(term)) else scoped;
    var byStatus := if statusFilter.StatusIs?
                    then Filter(searched, HasStatus(statusFilter.status)) else searched;
    forall t ensures multiset(Visible(tickets, user, term, statusFilter, priorityFilter))[t] ==
                     if Shown(user, term, statusFilter, priorityFilter, t)
                     then multiset(tickets)[t] else 0
    {
      if user.Some? && user.value.role == Worker {
        FilterMultiplicity(tickets, SubmittedBy(user.value.username), t);
      }
      if term != "" {
        FilterMultiplicity(scoped, Matching(term), t);
      }
      if statusFilter.StatusIs? {
        FilterMultiplicity(searched, HasStatus(statusFilter.status), t);
      }
      if priorityFilter.PriorityIs? {
        FilterMultiplicity(byStatus, HasPriority(priorityFilter.priority), t);
      }
    }
  }

  /** The visible list is drawn from the collection: a sub-multiset of it. */
  lemma VisibleWithinTickets(tickets: seq<Ticket>, user: Option<User>, term: string,
                             statusFilter: StatusFilter, priorityFilter: PriorityFilter)
    ensures multiset(Visible(tickets, user, term, statusFilter, priorityFilter)) <= multiset(tickets)
  {
    VisibleMultiplicity(tickets, user, term, statusFilter, priorityFilter);
  }

  /** A worker sees only the tickets they submitted, whatever the filters. */
  lemma WorkerSeesOnlyOwn(tickets: seq<Ticket>, worker: User, term: string,
                          statusFilter: StatusFilter, priorityFilter: PriorityFilter)
    requires worker.role == Worker
    ensures forall t :: t in Visible(tickets, Some(worker), term, statusFilter, priorityFilter) ==>
                        t.submittedBy == worker.username
  {
    var v := Visible(tickets, Some(worker), term, statusFilter, priorityFilter);
    VisibleMultiplicity(tickets, Some(worker), term, statusFilter, priorityFilter);
    forall t | t in v ensures t.submittedBy == worker.username {
      assert t in multiset(v);
    }
  }

  /** IT staff with an empty search and both drop-downs on `'all'` see every
      ticket of the collection. */
  lemma StaffSeesAll(tickets: seq<Ticket>, staff: User)
    requires staff.role == It
    ensures multiset(Visible(tickets, Some(staff), "", AllStatuses, AllPriorities)) == multiset(tickets)
  {
    VisibleMultiplicity(tickets, Some(staff), "", AllStatuses, AllPriorities);
  }

  /** The visible list is newest first and, among tickets created at the same
      instant, keeps the order the filters left them in. */
  lemma VisibleOrder(tickets: seq<Ticket>, user: Option<User>, term: string,
                     statusFilter: StatusFilter, priorityFilter: PriorityFilter)
    ensures NewestFirst(Visible(tickets, user, term, statusFilter, priorityFilter))
    ensures forall c :: Filter(Visible(tickets, user, term, statusFilter, priorityFilter), CreatedAt(c)) ==
                        Filter(Filtered(tickets, user, term, statusFilter, priorityFilter), CreatedAt(c))
  {
    forall c {
      SortNewestFirstStable(Filtered(tickets, user, term, statusFilter, priorityFilter), c);
    }
  }

  /** Within each instant the visible list holds the collection's tickets
      of that instant that pass every step, in the collection's order. */
  lemma VisibleInstantInCollectionOrder(tickets: seq<Ticket>, user: Option<User>, term: string,
                                        statusFilter: StatusFilter, priorityFilter: PriorityFilter, c: int)
    ensures Filter(Visible(tickets, user, term, statusFilter, priorityFilter), CreatedAt(c)) ==
            Filter(Filter(tickets, CreatedAt(c)), ShownBy(user, term, statusFilter, priorityFilter))
  {
    SortNewestFirstStable(Filtered(tickets, user, term, statusFilter, priorityFilter), c);
    FilteredIsShown(tickets, user, term, statusFilter, priorityFilter);
    FilterCommutes(tickets, ShownBy(user, term, statusFilter, priorityFilter), CreatedAt(c));
  }

  /** Any newest-first, stable ordering of the filtered tickets is the
      visible list: recomputing it, by whatever stable sort, gives the same
      sequence. */
  lemma VisibleDetermined(tickets: seq<Ticket>, user: Option<User>, term: string,
                          statusFilter: StatusFilter, priorityFilter: PriorityFilter, r: seq<Ticket>)
    requires NewestFirst(r)
    requires forall c :: Filter(r, CreatedAt(c)) ==
                         Filter(Filtered(tickets, user, term, statusFilter, priorityFilter), CreatedAt(c))
    ensures r == Visible(tickets, user, term, statusFilter, priorityFilter)
  {
    VisibleOrder(tickets, user, term, statusFilter, priorityFilter);
    StableNewestFirstUnique(r, Visible(tickets, user, term, statusFilter, priorityFilter));
  }
}
