/**
 * The role list query: optional filters combined by conjunction, newest
 * first, skip and limit, one summary per role, and a total taken over the
 * filtered roles. The query is modelled in two steps, as the controller
 * writes it: a list of clauses is built from the truthy parameters, then the
 * store evaluates every clause against each role.
 */
module RoleList {
  import opened Wrappers
  import opened Js
  import opened Roles

  /** The query parameters; dates are already parsed, `None` stands for an absent or empty parameter. */
  datatype RoleQuery = RoleQuery(
    createDateFrom: Option<int>,
    createDateTo: Option<int>,
    createBy: Option<string>,
    authorizeDateFrom: Option<int>,
    authorizeDateTo: Option<int>,
    authorizeBy: Option<string>,
    updateDateFrom: Option<int>,
    updateDateTo: Option<int>,
    updateBy: Option<string>,
    authorized: Option<string>,
    status: Option<string>)

  datatype DateField = CreatedAt | AuthorizedAt | UpdatedAt
  datatype TextField = CreatedBy | AuthorizedBy | UpdatedBy | AuthorizedState | StatusState

  /** One condition of the filter document: an inclusive range (`$gte`/`$lte`) or an equality. */
  datatype Clause =
    | Between(date: DateField, from: Option<int>, to: Option<int>)
    | Equals(text: TextField, value: string)

  function DateOf(r: Role, f: DateField): Option<int> {
    match f
    case CreatedAt => Some(r.createdAt)
    case AuthorizedAt => r.authorizedAt
    case UpdatedAt => Some(r.updatedAt)
  }

  /** The stored value of a text field; the two states are stored as their enum names. */
  function TextOf(r: Role, f: TextField): Option<string> {
    match f
    case CreatedBy => r.createdBy
    case AuthorizedBy => r.authorizedBy
    case UpdatedBy => r.updatedBy
    case AuthorizedState => Some(AuthorizationName(r.authorized))
    case StatusState => Some(ActivationName(r.status))
  }

  /** How the store evaluates one clause; a missing field satisfies no condition. */
  predicate Holds(c: Clause, r: Role) {
    match c
    case Between(f, from, to) =>
      DateOf(r, f).Some?
      && (from.None? || from.value <= DateOf(r, f).value)
      && (to.None? || DateOf(r, f).value <= to.value)
    case Equals(f, v) => TextOf(r, f) == Some(v)
  }

  predicate Satisfies(clauses: seq<Clause>, r: Role) {
    forall k :: 0 <= k < |clauses| ==> Holds(clauses[k], r)
  }

  function RangeClause(f: DateField, from: Option<int>, to: Option<int>): seq<Clause> {
    if from.Some? || to.Some? then [Between(f, from, to)] else []
  }

  function EqualsClause(f: TextField, v: Option<string>): seq<Clause> {
    if Truthy(v) then [Equals(f, v.value)] else []
  }

  /** The filter document the controller builds, one clause per supplied parameter or range. */
  function BuildFilter(q: RoleQuery): (clauses: seq<Clause>)
    ensures |clauses| <= 8
  {
    CreationClauses(q) + UpdateClauses(q)
  }

  // ---------------------------------------------------------------------------
  // The declarative reading of the filter

  /** No bound supplied, or a present date within both supplied bounds. */
  predicate InRange(d: Option<int>, from: Option<int>, to: Option<int>) {
    (from.None? && to.None?)
    || (d.Some? && (from.None? || from.value <= d.value) && (to.None? || d.value <= to.value))
  }

  /** No value supplied, or the stored value equals it. */
  predicate EqualIfGiven(stored: Option<string>, v: Option<string>) {
    !Truthy(v) || stored == v
  }

  /** Each parameter constrains the role independently; an absent one constrains nothing. */
  predicate Matches(q: RoleQuery, r: Role) {
    && InRange(Some(r.createdAt), q.createDateFrom, q.createDateTo)
    && EqualIfGiven(r.createdBy, q.createBy)
    && InRange(r.authorizedAt, q.authorizeDateFrom, q.authorizeDateTo)
    && EqualIfGiven(r.authorizedBy, q.authorizeBy)
    && InRange(Some(r.updatedAt), q.updateDateFrom, q.updateDateTo)
    && EqualIfGiven(r.updatedBy, q.updateBy)
    && EqualIfGiven(Some(AuthorizationName(r.authorized)), q.authorized)
    && EqualIfGiven(Some(ActivationName(r.status)), q.status)
  }

  lemma SatisfiesAppend(a: seq<Clause>, b: seq<Clause>, r: Role)
    ensures Satisfies(a + b, r) <==> Satisfies(a, r) && Satisfies(b, r)
  {
    if Satisfies(a, r) && Satisfies(b, r) {
      forall k | 0 <= k < |a + b| ensures Holds((a + b)[k], r) {
        if k >= |a| { assert (a + b)[k] == b[k - |a|]; }
      }
    }
    if Satisfies(a + b, r) {
      forall k | 0 <= k < |a| ensures Holds(a[k], r) {
        assert (a + b)[k] == a[k];
      }
      forall k | 0 <= k < |b| ensures Holds(b[k], r) {
        assert (a + b)[|a| + k] == b[k];
      }
    }
  }

  lemma RangeClauseMeans(f: DateField, from: Option<int>, to: Option<int>, r: Role)
    ensures Satisfies(RangeClause(f, from, to), r) <==> InRange(DateOf(r, f), from, to)
  {
    if from.Some? || to.Some? {
      assert RangeClause(f, from, to)[0] == Between(f, from, to);
    }
  }

  lemma EqualsClauseMeans(f: TextField, v: Option<string>, r: Role)
    ensures Satisfies(EqualsClause(f, v), r) <==> EqualIfGiven(TextOf(r, f), v)
  {
    if Truthy(v) {
      assert EqualsClause(f, v)[0] == Equals(f, v.value);
    }
  }

  /** The built filter accepts a role exactly when the declarative reading does. */
  lemma FilterMeansMatches(q: RoleQuery, r: Role)
    ensures Satisfies(BuildFilter(q), r) <==> Matches(q, r)
  {
    SatisfiesAppend(CreationClauses(q), UpdateClauses(q), r);
    CreationClausesMean(q, r);
    UpdateClausesMean(q, r);
  }

  /** The first half of the filter: creation and approval. */
  function CreationClauses(q: RoleQuery): seq<Clause> {
    RangeClause(CreatedAt, q.createDateFrom, q.createDateTo)
    + EqualsClause(CreatedBy, q.createBy)
    + RangeClause(AuthorizedAt, q.authorizeDateFrom, q.authorizeDateTo)
    + EqualsClause(AuthorizedBy, q.authorizeBy)
  }

  /** The second half of the filter: update and the two enum states. */
  function UpdateClauses(q: RoleQuery): seq<Clause> {
    RangeClause(UpdatedAt, q.updateDateFrom, q.updateDateTo)
    + EqualsClause(UpdatedBy, q.updateBy)
    + EqualsClause(AuthorizedState, q.authorized)
    + EqualsClause(StatusState, q.status)
  }

  lemma CreationClausesMean(q: RoleQuery, r: Role)
    ensures Satisfies(CreationClauses(q), r) <==>
      && InRange(Some(r.createdAt), q.createDateFrom, q.createDateTo)
      && EqualIfGiven(r.createdBy, q.createBy)
      && InRange(r.authorizedAt, q.authorizeDateFrom, q.authorizeDateTo)
      && EqualIfGiven(r.authorizedBy, q.authorizeBy)
  {
    var c1 := RangeClause(CreatedAt, q.createDateFrom, q.createDateTo);
    var c2 := EqualsClause(CreatedBy, q.createBy);
    var c3 := RangeClause(AuthorizedAt, q.authorizeDateFrom, q.authorizeDateTo);
    var c4 := EqualsClause(AuthorizedBy, q.authorizeBy);
    SatisfiesAppend(c1, c2, r);
    SatisfiesAppend(c1 + c2, c3, r);
    SatisfiesAppend(c1 + c2 + c3, c4, r);
    RangeClauseMeans(CreatedAt, q.createDateFrom, q.createDateTo, r);
    EqualsClauseMeans(CreatedBy, q.createBy, r);
    RangeClauseMeans(AuthorizedAt, q.authorizeDateFrom, q.authorizeDateTo, r);
    EqualsClauseMeans(AuthorizedBy, q.authorizeBy, r);
  }

  lemma UpdateClausesMean(q: RoleQuery, r: Role)
    ensures Satisfies(UpdateClauses(q), r) <==>
      && InRange(Some(r.updatedAt), q.updateDateFrom, q.updateDateTo)
      && EqualIfGiven(r.updatedBy, q.updateBy)
      && EqualIfGiven(Some(AuthorizationName(r.authorized)), q.authorized)
      && EqualIfGiven(Some(ActivationName(r.status)), q.status)
  {
    var c5 := RangeClause(UpdatedAt, q.updateDateFrom, q.updateDateTo);
    var c6 := EqualsClause(UpdatedBy, q.updateBy);
    var c7 := EqualsClause(AuthorizedState, q.authorized);
    var c8 := EqualsClause(StatusState, q.status);
    SatisfiesAppend(c5, c6, r);
    SatisfiesAppend(c5 + c6, c7, r);
    SatisfiesAppend(c5 + c6 + c7, c8, r);
    RangeClauseMeans(UpdatedAt, q.updateDateFrom, q.updateDateTo, r);
    EqualsClauseMeans(UpdatedBy, q.updateBy, r);
    EqualsClauseMeans(AuthorizedState, q.authorized, r);
    EqualsClauseMeans(StatusState, q.status, r);
  }

  // ---------------------------------------------------------------------------
  // Selection, order, pages

  /** The roles satisfying the clauses, in store order. */
  function Select(roles: seq<Role>, clauses: seq<Clause>): (r: seq<Role>)
    ensures |r| <= |roles|
    ensures forall x :: x in r ==> x in roles && Satisfies(clauses, x)
    ensures forall x :: x in roles && Satisfies(clauses, x) ==> x in r
  {
    if roles == [] then []
    else if Satisfies(clauses, roles[0]) then [roles[0]] + Select(roles[1..], clauses)
    else Select(roles[1..], clauses)
  }

  /** The number of roles the declarative reading accepts. */
  function CountMatching(roles: seq<Role>, q: RoleQuery): nat {
    if roles == [] then 0
    else (if Matches(q, roles[0]) then 1 else 0) + CountMatching(roles[1..], q)
  }

  lemma {:induction false} SelectCount(roles: seq<Role>, q: RoleQuery)
    ensures |Select(roles, BuildFilter(q))| == CountMatching(roles, q)
  {
    if roles != [] {
      FilterMeansMatches(q, roles[0]);
      SelectCount(roles[1..], q);
    }
  }

  predicate NewestFirst(s: seq<Role>) {
    forall i, j :: 0 <= i < j < |s| ==> s[i].createdAt >= s[j].createdAt
  }

  function Insert(x: Role, s: seq<Role>): (r: seq<Role>)
    requires NewestFirst(s)
    ensures NewestFirst(r)
    ensures multiset(r) == multiset(s) + multiset{x}
  {
    if s == [] then [x]
    else if s[0].createdAt <= x.createdAt then [x] + s
    else
      var rest := Insert(x, s[1..]);
      assert s == [s[0]] + s[1..];
      forall y | y in rest
        ensures y.createdAt <= s[0].createdAt
      {
        assert y in multiset(rest);
        if y != x {
          assert y in multiset(s[1..]);
        }
      }
      ConsNewestFirst(s[0], rest);
      [s[0]] + rest
  }

  /** Putting a role no older than every element in front keeps a list newest-first. */
  lemma ConsNewestFirst(h: Role, rest: seq<Role>)
    requires NewestFirst(rest)
    requires forall y :: y in rest ==> y.createdAt <= h.createdAt
    ensures NewestFirst([h] + rest)
  {
    var r := [h] + rest;
    forall i, j | 0 <= i < j < |r| ensures r[i].createdAt >= r[j].createdAt {
      assert r[j] == rest[j - 1];
      if i > 0 { assert r[i] == rest[i - 1]; }
    }
  }

  /** `.sort({ createdAt: -1 })`: newest first, as a permutation of its input. */
  function SortNewestFirst(s: seq<Role>): (r: seq<Role>)
    ensures NewestFirst(r)
    ensures multiset(r) == multiset(s)
  {
    if s == [] then []
    else
      assert s == [s[0]] + s[1..];
      Insert(s[0], SortNewestFirst(s[1..]))
  }

  /** `.skip(skip).limit(limit)`: a limit of 0 means none; a negative one counts as its magnitude. */
  function Paginate(s: seq<Role>, skip: nat, limit: int): (r: seq<Role>)
    ensures skip <= |s| ==> |r| <= |s| - skip && r == s[skip..skip + |r|]
    ensures skip >= |s| ==> r == []
    ensures limit != 0 ==> |r| == Min(|s| - Min(skip, |s|), Abs(limit))
    ensures limit == 0 ==> |r| == |s| - Min(skip, |s|)
  {
    var rest := s[Min(skip, |s|)..];
    if limit == 0 then rest else rest[..Min(|rest|, Abs(limit))]
  }

  function Min(a: int, b: int): int { if a <= b then a else b }
  function Abs(a: int): nat { if a < 0 then -a else a }

  /** One entry of the response: the role's fields and the number of its permission entries. */
  datatype RoleSummary = RoleSummary(
    id: nat, name: string, description: Option<string>, count: nat,
    createdAt: nat, createdBy: Option<string>,
    authorizedAt: Option<int>, authorizedBy: Option<string>,
    updatedAt: nat, updatedBy: Option<string>,
    authorized: Authorization, status: Activation)

  function Summarize(r: Role): RoleSummary {
    RoleSummary(r.id, r.name, r.description, |r.permissions|, r.createdAt, r.createdBy,
                r.authorizedAt, r.authorizedBy, r.updatedAt, r.updatedBy, r.authorized, r.status)
  }

  function SummarizeAll(rs: seq<Role>): (d: seq<RoleSummary>)
    ensures |d| == |rs|
    ensures forall k :: 0 <= k < |rs| ==> d[k] == Summarize(rs[k])
  {
    seq(|rs|, k requires 0 <= k < |rs| => Summarize(rs[k]))
  }

  datatype RoleListing = RoleListing(total: nat, page: int, limit: int, data: seq<RoleSummary>)

  /** The filtered roles in the order the list presents them. */
  function Ordered(s: RoleStore, q: RoleQuery): seq<Role> {
    SortNewestFirst(Select(s.roles, BuildFilter(q)))
  }

  /** The number of roles a page skips: `(page - 1) * limit`. */
  function Skip(page: int, limit: int): int { (page - 1) * limit }

  /**
   * `getUserRoleList`: page and limit default to 1 and 10; a negative skip
   * `(page - 1) * limit` is refused by the store.
   */
  function ListRoles(s: RoleStore, q: RoleQuery, page: Option<int>, limit: Option<int>)
    : (r: Result<RoleListing, RoleError>)
    ensures r.Err? <==> Skip(page.GetOr(1), limit.GetOr(10)) < 0
    ensures r.Err? ==> r.error == ServerError
    ensures r.Ok? ==> r.value.total == CountMatching(s.roles, q)
    ensures r.Ok? ==> r.value.page == page.GetOr(1) && r.value.limit == limit.GetOr(10)
    ensures r.Ok? && r.value.limit != 0 ==> |r.value.data| <= Abs(r.value.limit)
    ensures r.Ok? ==> forall k :: 0 <= k < |r.value.data| ==>
      exists x :: x in s.roles && Matches(q, x) && r.value.data[k] == Summarize(x)
    ensures r.Ok? ==> forall i, j :: 0 <= i < j < |r.value.data| ==>
      r.value.data[i].createdAt >= r.value.data[j].createdAt
  {
    var p := page.GetOr(1);
    var l := limit.GetOr(10);
    if Skip(p, l) < 0 then Err(ServerError)
    else
      PageFacts(s, q, Skip(p, l), l);
      OrderedFacts(s, q);
      Ok(RoleListing(|Select(s.roles, BuildFilter(q))|, p, l, PageOf(s, q, Skip(p, l), l)))
  }

  /** The entries of one page: the summaries of the window `.skip(skip).limit(limit)` takes from the ordered roles. */
  function PageOf(s: RoleStore, q: RoleQuery, skip: nat, limit: int): seq<RoleSummary> {
    SummarizeAll(Paginate(Ordered(s, q), skip, limit))
  }

  /**
   * When the limit is non-zero, a page holds at most `|limit|` entries (a
   * zero limit means no limit); each entry is the summary of a stored
   * matching role, newest first.
   */
  lemma PageFacts(s: RoleStore, q: RoleQuery, skip: nat, limit: int)
    ensures limit != 0 ==> |PageOf(s, q, skip, limit)| <= Abs(limit)
    ensures forall k :: 0 <= k < |PageOf(s, q, skip, limit)| ==>
      exists x :: x in s.roles && Matches(q, x) && PageOf(s, q, skip, limit)[k] == Summarize(x)
    ensures forall i, j :: 0 <= i < j < |PageOf(s, q, skip, limit)| ==>
      PageOf(s, q, skip, limit)[i].createdAt >= PageOf(s, q, skip, limit)[j].createdAt
  {
    var sorted := Ordered(s, q);
    var shown := Paginate(sorted, skip, limit);
    OrderedFacts(s, q);
    PaginateFacts(sorted, skip, limit);
    var d := PageOf(s, q, skip, limit);
    assert forall k :: 0 <= k < |d| ==> shown[k] in sorted && d[k] == Summarize(shown[k]);
    assert forall k :: 0 <= k < |d| ==> d[k].createdAt == shown[k].createdAt;
  }

  /** The entries of a listing are the summaries of the window `Paginate` takes from the ordered list. */
  lemma ListRolesShows(s: RoleStore, q: RoleQuery, page: int, limit: int)
    requires Skip(page, limit) >= 0
    ensures ListRoles(s, q, Some(page), Some(limit)).Ok?
    ensures ListRoles(s, q, Some(page), Some(limit)).value.data
      == SummarizeAll(Paginate(Ordered(s, q), Skip(page, limit), limit))
  {
    assert Some(page).GetOr(1) == page && Some(limit).GetOr(10) == limit;
    assert ListRoles(s, q, Some(page), Some(limit))
      == Ok(RoleListing(|Select(s.roles, BuildFilter(q))|, page, limit, PageOf(s, q, Skip(page, limit), limit)));
  }

  /** The ordered list holds exactly the matching roles, newest first, as many as the count. */
  lemma OrderedFacts(s: RoleStore, q: RoleQuery)
    ensures NewestFirst(Ordered(s, q))
    ensures forall x :: x in Ordered(s, q) ==> x in s.roles && Matches(q, x)
    ensures |Ordered(s, q)| == |Select(s.roles, BuildFilter(q))| == CountMatching(s.roles, q)
  {
    var selected := Select(s.roles, BuildFilter(q));
    var sorted := Ordered(s, q);
    forall x | x in sorted ensures x in s.roles && Matches(q, x) {
      assert x in multiset(sorted);
      assert x in multiset(selected);
      FilterMeansMatches(q, x);
    }
    assert |multiset(sorted)| == |multiset(selected)|;
    SelectCount(s.roles, q);
  }

  lemma PaginateFacts(s: seq<Role>, skip: nat, limit: int)
    requires NewestFirst(s)
    ensures NewestFirst(Paginate(s, skip, limit))
    ensures forall x :: x in Paginate(s, skip, limit) ==> x in s
  {
    var t := Paginate(s, skip, limit);
    if skip <= |s| {
      assert forall i :: 0 <= i < |t| ==> t[i] == s[skip + i];
    }
  }

  /**
   * Paging is a window on one ordered list: with a positive limit `l`, the
   * `k`-th filtered role (newest first) is entry `k % l` of page `k / l + 1`,
   * and the total is the same on every page.
   */
  lemma PageWindow(s: RoleStore, q: RoleQuery, l: nat, k: nat)
    requires 0 < l && k < |Ordered(s, q)|
    ensures var r := ListRoles(s, q, Some(k / l + 1), Some(l));
      && r.Ok?
      && k % l < |r.value.data|
      && r.value.data[k % l] == Summarize(Ordered(s, q)[k])
      && r.value.total == |Ordered(s, q)|
  {
    var sorted := Ordered(s, q);
    var p := k / l + 1;
    var m := k % l;
    var skip := (k / l) * l;
    DivMod(k, l);
    assert Skip(p, l) == skip && skip + m == k;
    ListRolesShows(s, q, p, l);
    PaginateAt(sorted, skip, l, m);
    var shown := Paginate(sorted, skip, l);
    assert ListRoles(s, q, Some(p), Some(l)).value.data == SummarizeAll(shown);
    assert SummarizeAll(shown)[m] == Summarize(sorted[k]);
    OrderedFacts(s, q);
  }

  /** Entry `i` of a page is element `skip + i` of the list, when both exist. */
  lemma PaginateAt(s: seq<Role>, skip: nat, limit: nat, i: nat)
    requires 0 < limit && i < limit && skip + i < |s|
    ensures i < |Paginate(s, skip, limit)| && Paginate(s, skip, limit)[i] == s[skip + i]
  {
  }

  lemma DivMod(k: nat, l: nat)
    requires l > 0
    ensures 0 <= (k / l) * l && k == (k / l) * l + k % l && 0 <= k % l < l
  {
    assert k / l >= 0;
  }

  /** The total does not depend on the page or the limit requested. */
  lemma TotalIgnoresPaging(s: RoleStore, q: RoleQuery, p1: Option<int>, l1: Option<int>, p2: Option<int>, l2: Option<int>)
    requires ListRoles(s, q, p1, l1).Ok? && ListRoles(s, q, p2, l2).Ok?
    ensures ListRoles(s, q, p1, l1).value.total == ListRoles(s, q, p2, l2).value.total
  {
  }

  /** Every entry reports the size of its role's permission list. */
  lemma SummaryCount(r: Role)
    ensures Summarize(r).count == |r.permissions| && Summarize(r).id == r.id
  {
  }
}
