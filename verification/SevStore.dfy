/** The SEV store as the handlers see it: filter, order, paginate (internal/store/sort.go and the
    two SEVStore implementations). */
module SevStore {
  import opened Wrappers
  import opened Clock
  import opened Ordering
  import opened SevModel

  /** The page size used when the caller asks for none. */
  const DEFAULT_LIMIT := 100

  datatype SortField = Default | ByStartedAt | BySeverity | ByMttr | ByUpdatedAt

  datatype Filter = Filter(
    levels: seq<Level>,
    statuses: seq<Status>,
    services: seq<string>,
    tags: map<string, string>,
    rootCause: string,
    startedAfter: Option<Time>,
    startedBefore: Option<Time>,
    ids: Option<seq<string>>,
    search: string,
    excludeSensitive: bool,
    sort: SortField,
    desc: bool,
    limit: int,
    offset: int)

  /** Full-text matching, which the two implementations do differently. */
  type TextMatch = (Sev, string) -> bool

  /** Everything a filter demands of a row other than the text search. */
  predicate FieldsMatch(row: Sev, f: Filter) {
    && (f.levels != [] ==> row.level in f.levels)
    && (f.statuses != [] ==> row.status in f.statuses)
    && (f.excludeSensitive ==> !row.sensitive)
    && (f.ids.Some? ==> row.id in f.ids.value)
    && (f.services != [] ==> exists want | want in f.services :: want in row.services)
    && (forall k | k in f.tags :: k in row.tags && row.tags[k] == f.tags[k])
    && (f.rootCause != "" ==> "root_cause_category" in row.details && row.details["root_cause_category"] == f.rootCause)
    && (f.startedAfter.Some? ==> row.times.started.Some? && row.times.started.value >= f.startedAfter.value)
    && (f.startedBefore.Some? ==> row.times.started.Some? && row.times.started.value <= f.startedBefore.value)
  }

  predicate Matches(row: Sev, f: Filter, text: TextMatch) {
    FieldsMatch(row, f) && (f.search != "" ==> text(row, f.search))
  }

  /** A filter that asks for nothing matches every row, sensitive ones included. */
  lemma NothingAskedMatchesAll(row: Sev, sort: SortField, desc: bool, limit: int, offset: int, text: TextMatch)
    ensures Matches(row, Filter([], [], [], map[], "", None, None, None, "", false, sort, desc, limit, offset), text)
  {
  }

  // ---------- the comparator ----------

  predicate KeyMissing(s: Sev, field: SortField) {
    match field
    case ByStartedAt => s.times.started.None?
    case ByMttr => s.metrics.mttr.None?
    case _ => false
  }

  predicate KeyLess(a: Sev, b: Sev, field: SortField)
    requires !KeyMissing(a, field) && !KeyMissing(b, field)
  {
    match field
    case ByStartedAt => a.times.started.value < b.times.started.value
    case BySeverity => a.level < b.level
    case ByMttr => a.metrics.mttr.value < b.metrics.mttr.value
    case ByUpdatedAt => a.updatedAt < b.updatedAt
    case Default => a.createdAt < b.createdAt
  }

  /** The comparison SortSEVs passes to the sort, branch for branch. */
  predicate SortsBefore(a: Sev, b: Sev, field: SortField, desc: bool) {
    if field.Default? then
      if a.createdAt == b.createdAt then StringLess(a.id, b.id) else a.createdAt > b.createdAt
    else if KeyMissing(a, field) != KeyMissing(b, field) then !KeyMissing(a, field)
    else if KeyMissing(a, field) then StringLess(a.id, b.id)
    else if !KeyLess(a, b, field) && !KeyLess(b, a, field) then StringLess(a.id, b.id)
    else if desc then !KeyLess(a, b, field)
    else KeyLess(a, b, field)
  }

  function Order(field: SortField, desc: bool): (Sev, Sev) -> bool {
    (a, b) => SortsBefore(a, b, field, desc)
  }

  /** What the comparator amounts to: rows with the key before rows without it, then the key in the
      requested direction, then the ID, always upward. The default field is creation time downward. */
  function SortKey(s: Sev, field: SortField, desc: bool): (int, int) {
    match field
    case Default => (0, -s.createdAt)
    case ByStartedAt => if s.times.started.None? then (1, 0) else (0, Signed(s.times.started.value, desc))
    case BySeverity => (0, Signed(s.level, desc))
    case ByMttr => if s.metrics.mttr.None? then (1, 0) else (0, Signed(s.metrics.mttr.value, desc))
    case ByUpdatedAt => (0, Signed(s.updatedAt, desc))
  }

  function Signed(k: int, desc: bool): int {
    if desc then -k else k
  }

  lemma SortsBeforeIsLexicographic(a: Sev, b: Sev, field: SortField, desc: bool)
    ensures SortsBefore(a, b, field, desc)
       <==> var x, y := SortKey(a, field, desc), SortKey(b, field, desc);
            x.0 < y.0 || (x.0 == y.0 && (x.1 < y.1 || (x.1 == y.1 && StringLess(a.id, b.id))))
  {
  }

  /** The comparator, field by field: by default the newest first; otherwise the field in the requested
      direction, rows without it last in both; and the ID upward between equals. */
  lemma SortsBeforeMeans(a: Sev, b: Sev, desc: bool)
    ensures SortsBefore(a, b, Default, desc)
       <==> a.createdAt > b.createdAt || (a.createdAt == b.createdAt && StringLess(a.id, b.id))
    ensures SortsBefore(a, b, BySeverity, desc)
       <==> (if desc then a.level > b.level else a.level < b.level) || (a.level == b.level && StringLess(a.id, b.id))
    ensures SortsBefore(a, b, ByUpdatedAt, desc)
       <==> || (if desc then a.updatedAt > b.updatedAt else a.updatedAt < b.updatedAt)
            || (a.updatedAt == b.updatedAt && StringLess(a.id, b.id))
    ensures SortsBefore(a, b, ByStartedAt, desc) <==> OptionBefore(a.times.started, b.times.started, a.id, b.id, desc)
    ensures SortsBefore(a, b, ByMttr, desc) <==> OptionBefore(a.metrics.mttr, b.metrics.mttr, a.id, b.id, desc)
  {
  }

  predicate OptionBefore(x: Option<int>, y: Option<int>, a: string, b: string, desc: bool) {
    || (x.Some? && y.None?)
    || (x.Some? && y.Some? && (if desc then x.value > y.value else x.value < y.value))
    || (x == y && StringLess(a, b))
  }

  /** For every field and direction the comparator is a strict order, and it tells apart any two
      rows with different IDs. */
  lemma SortsBeforeIsStrictTotal(field: SortField, desc: bool)
    ensures StrictOrder(Order(field, desc))
    ensures forall a: Sev, b: Sev | a.id != b.id :: SortsBefore(a, b, field, desc) || SortsBefore(b, a, field, desc)
  {
    var less := Order(field, desc);
    forall a: Sev
      ensures !less(a, a)
    {
      StringLessIrreflexive(a.id);
    }
    forall a: Sev, b: Sev, c: Sev | less(a, b) && less(b, c)
      ensures less(a, c)
    {
      SortsBeforeIsLexicographic(a, b, field, desc);
      SortsBeforeIsLexicographic(b, c, field, desc);
      SortsBeforeIsLexicographic(a, c, field, desc);
      if StringLess(a.id, b.id) && StringLess(b.id, c.id) {
        StringLessTransitive(a.id, b.id, c.id);
      }
    }
    forall a: Sev, b: Sev | a.id != b.id
      ensures SortsBefore(a, b, field, desc) || SortsBefore(b, a, field, desc)
    {
      SortsBeforeIsLexicographic(a, b, field, desc);
      SortsBeforeIsLexicographic(b, a, field, desc);
      StringLessTotal(a.id, b.id);
    }
  }

  // ---------- queries ----------

  /** Rows filed under their own IDs. */
  ghost predicate WellKeyed(rows: map<string, Sev>) {
    forall id | id in rows :: rows[id].id == id
  }

  ghost function Matching(rows: map<string, Sev>, f: Filter, text: TextMatch): set<Sev> {
    set id | id in rows && Matches(rows[id], f, text) :: rows[id]
  }

  ghost predicate DistinctIds(s: set<Sev>) {
    forall a, b | a in s && b in s && a.id == b.id :: a == b
  }

  lemma MatchingIsKeyed(rows: map<string, Sev>, f: Filter, text: TextMatch)
    requires WellKeyed(rows)
    ensures forall s :: s in Matching(rows, f, text) <==> s.id in rows && s == rows[s.id] && Matches(s, f, text)
  {
  }

  /** Rows of distinct IDs in a requested order: the one listing there is. */
  ghost function Sorted(s: set<Sev>, field: SortField, desc: bool): (r: seq<Sev>)
    ensures DistinctIds(s) ==> Increasing(Order(field, desc), r)
    ensures DistinctIds(s) ==> |r| == |s| && Elements(r) == s
  {
    SortsBeforeIsStrictTotal(field, desc);
    if DistinctIds(s) then Listing(Order(field, desc), s) else []
  }

  lemma MatchingDistinct(rows: map<string, Sev>, f: Filter, text: TextMatch)
    requires WellKeyed(rows)
    ensures DistinctIds(Matching(rows, f, text))
  {
  }

  /** Limit and offset choose a page of the matching rows, not the rows. */
  lemma PagingDoesNotMatter(rows: map<string, Sev>, f: Filter, text: TextMatch, limit: int, offset: int)
    ensures Matching(rows, f.(limit := limit, offset := offset), text) == Matching(rows, f, text)
  {
    forall id | id in rows
      ensures Matches(rows[id], f.(limit := limit, offset := offset), text) == Matches(rows[id], f, text)
    {
    }
  }

  // ---------- the orders a store may answer in ----------

  /** What the query's ORDER BY clause settles. For an explicit field that is the comparator of SortSEVs,
      ID included; by default it is the creation time alone, downward. */
  predicate QueryBefore(a: Sev, b: Sev, field: SortField, desc: bool) {
    if field.Default? then a.createdAt > b.createdAt else SortsBefore(a, b, field, desc)
  }

  ghost predicate Enumerates(l: seq<Sev>, s: set<Sev>) {
    Elements(l) == s && forall i, j | 0 <= i < j < |l| :: l[i] != l[j]
  }

  /** An order a store may answer some rows in: each once, none before one the query puts ahead of it. */
  ghost predicate LegalOrder(s: set<Sev>, field: SortField, desc: bool, l: seq<Sev>) {
    && Enumerates(l, s)
    && forall i, j | 0 <= i < j < |l| :: !QueryBefore(l[j], l[i], field, desc)
  }

  /** A page a store may answer; every call may settle ties anew. */
  ghost predicate MayPage(s: set<Sev>, field: SortField, desc: bool, offset: int, limit: int, page: seq<Sev>) {
    exists l :: LegalOrder(s, field, desc, l) && page == Page(l, offset, limit)
  }

  ghost predicate NoTies(s: set<Sev>) {
    forall a, b | a in s && b in s && a != b :: a.createdAt != b.createdAt
  }

  /** The query settles the order of these rows: always for an explicit field, and by default when no two
      of them share a creation time. */
  ghost predicate Settled(s: set<Sev>, field: SortField) {
    field.Default? ==> NoTies(s)
  }

  lemma {:induction false} EnumerationLength(l: seq<Sev>, s: set<Sev>)
    requires Enumerates(l, s)
    ensures |l| == |s|
  {
    if l == [] {
      assert s == {};
    } else {
      var init, last := l[..|l| - 1], l[|l| - 1];
      assert l == init + [last];
      assert last in Elements(l) && last !in init;
      assert Elements(init) == s - {last} by {
        forall x
          ensures x in Elements(init) <==> x in s - {last}
        {
          assert x in Elements(l) <==> x in init || x == last;
        }
      }
      EnumerationLength(init, s - {last});
    }
  }

  lemma SortedIsLegal(s: set<Sev>, field: SortField, desc: bool)
    requires DistinctIds(s)
    ensures LegalOrder(s, field, desc, Sorted(s, field, desc))
  {
    var l := Sorted(s, field, desc);
    forall i, j | 0 <= i < j < |l|
      ensures l[i] != l[j] && !QueryBefore(l[j], l[i], field, desc)
    {
      assert Order(field, desc)(l[i], l[j]);
      SortsOneWay(l[i], l[j], field, desc);
    }
  }

  lemma SortsOneWay(a: Sev, b: Sev, field: SortField, desc: bool)
    requires SortsBefore(a, b, field, desc)
    ensures a != b && !SortsBefore(b, a, field, desc) && !QueryBefore(b, a, field, desc)
  {
    SortsBeforeIsStrictTotal(field, desc);
    var less := Order(field, desc);
    assert !less(a, a) && (less(b, a) ==> less(a, a));
  }

  lemma LegalPairSorts(a: Sev, b: Sev, field: SortField, desc: bool)
    requires a.id != b.id && !QueryBefore(b, a, field, desc) && (field.Default? ==> a.createdAt != b.createdAt)
    ensures SortsBefore(a, b, field, desc)
  {
    SortsBeforeIsStrictTotal(field, desc);
  }

  /** Where the query settles the order there is one legal answer, the one SortSEVs gives. */
  lemma OneLegalOrder(s: set<Sev>, field: SortField, desc: bool, l: seq<Sev>)
    requires DistinctIds(s) && Settled(s, field) && LegalOrder(s, field, desc, l)
    ensures l == Sorted(s, field, desc)
  {
    SortsBeforeIsStrictTotal(field, desc);
    var sorted, less := Sorted(s, field, desc), Order(field, desc);
    forall i, j | 0 <= i < j < |l|
      ensures less(l[i], l[j])
    {
      assert l[i] in Elements(l) && l[j] in Elements(l);
      LegalPairSorts(l[i], l[j], field, desc);
    }
    forall x
      ensures x in l <==> x in sorted
    {
      assert x in l <==> x in Elements(l);
      assert x in sorted <==> x in Elements(sorted);
    }
    IncreasingIsUnique(less, l, sorted);
  }

  lemma SomeLegalOrder(s: set<Sev>, desc: bool) returns (l: seq<Sev>)
    requires DistinctIds(s)
    ensures LegalOrder(s, Default, desc, l)
  {
    l := Sorted(s, Default, desc);
    SortedIsLegal(s, Default, desc);
  }

  /** The first page of a listing, as long as the cap: all rows below the cap, and as many as the cap
      exactly when there are that many. */
  lemma FirstPage(s: set<Sev>, field: SortField, desc: bool, cap: nat, page: seq<Sev>)
    requires cap > 0 && MayPage(s, field, desc, 0, cap, page)
    ensures |s| >= cap ==> |page| >= cap
    ensures |s| < cap ==> |page| < cap && LegalOrder(s, field, desc, page)
  {
    var l :| LegalOrder(s, field, desc, l) && page == Page(l, 0, cap);
    EnumerationLength(l, s);
  }

  /** Two rows of one creation time can come in either order, next to each other, with all other rows in
      the same places. */
  lemma TiedRowsEitherWay(s: set<Sev>, desc: bool, a: Sev, b: Sev) returns (before: seq<Sev>, after: seq<Sev>)
    requires DistinctIds(s) && a in s && b in s && a != b && a.createdAt == b.createdAt
    ensures LegalOrder(s, Default, desc, before + [a, b] + after)
    ensures LegalOrder(s, Default, desc, before + [b, a] + after)
  {
    var newer := set x | x in s && x.createdAt > a.createdAt;
    var rest := s - newer - {a, b};
    before := SomeLegalOrder(newer, desc);
    after := SomeLegalOrder(rest, desc);
    assert s == newer + {a, b} + rest;
    PairInBetween(s, newer, rest, desc, before, a, b, after);
    PairInBetween(s, newer, rest, desc, before, b, a, after);
  }

  lemma PairInBetween(s: set<Sev>, newer: set<Sev>, rest: set<Sev>, desc: bool, before: seq<Sev>, a: Sev, b: Sev,
                      after: seq<Sev>)
    requires a != b && a.createdAt == b.createdAt && s == newer + {a, b} + rest
    requires LegalOrder(newer, Default, desc, before) && LegalOrder(rest, Default, desc, after)
    requires forall x | x in newer :: x.createdAt > a.createdAt
    requires a !in rest && b !in rest && forall x | x in rest :: x.createdAt <= a.createdAt
    ensures LegalOrder(s, Default, desc, before + [a, b] + after)
  {
    var l := before + [a, b] + after;
    forall x
      ensures x in l <==> x in s
    {
      assert x in before <==> x in Elements(before);
      assert x in after <==> x in Elements(after);
      assert x in l <==> x in before || x in [a, b] || x in after;
    }
    forall i, j | 0 <= i < j < |l|
      ensures l[i] != l[j] && !QueryBefore(l[j], l[i], Default, desc)
    {
      assert i < |before| ==> l[i] == before[i] && before[i] in Elements(before);
      assert j < |before| ==> l[j] == before[j] && before[j] in Elements(before);
      assert i >= |before| + 2 ==> l[i] == after[i - |before| - 2] && l[i] in Elements(after);
      assert j >= |before| + 2 ==> l[j] == after[j - |before| - 2] && l[j] in Elements(after);
    }
  }

  /** With two such rows alone: the first page of one, then the second page of one, show the same row
      twice and the other not at all. */
  lemma TiedRowsCanRepeat(a: Sev, b: Sev, desc: bool)
    requires a.id != b.id && a.createdAt == b.createdAt
    ensures MayPage({a, b}, Default, desc, 0, 1, [a]) && MayPage({a, b}, Default, desc, 1, 1, [a])
  {
    PairInBetween({a, b}, {}, {}, desc, [], a, b, []);
    PairInBetween({a, b}, {}, {}, desc, [], b, a, []);
    assert [] + [a, b] + [] == [a, b] && [] + [b, a] + [] == [b, a];
    assert Page([a, b], 0, 1) == [a] && Page([b, a], 1, 1) == [a];
  }

  /** One page: the offset clamped to the list, the limit defaulted when it is not positive. */
  function Page<T>(s: seq<T>, offset: int, limit: int): seq<T> {
    var o := if offset < 0 then 0 else if offset > |s| then |s| else offset;
    var l := if limit <= 0 then DEFAULT_LIMIT else limit;
    if l < |s| - o then s[o..o + l] else s[o..]
  }

  /** A page is the stretch of the list from the offset on, 100 rows long unless asked otherwise, or less
      where the list ends. */
  lemma PageMeans<T>(s: seq<T>, offset: int, limit: int)
    ensures var page, start, most := Page(s, offset, limit), if offset < 0 then 0 else offset, if limit > 0 then limit else 100;
      && |page| == (if start >= |s| then 0 else if |s| - start < most then |s| - start else most)
      && forall k | 0 <= k < |page| :: start + k < |s| && page[k] == s[start + k]
  {
  }

  /** Paging in Go: reslice past the offset, then cut at the limit. */
  method PageOf(merged: seq<Sev>, offset: nat, limit: int) returns (page: seq<Sev>)
    ensures page == Page(merged, offset, limit)
  {
    var l := if limit <= 0 then DEFAULT_LIMIT else limit;
    var o := if offset > |merged| then |merged| else offset;
    page := merged[o..];
    if l < |page| {
      page := page[..l];
    }
  }

  lemma DistinctIsComparable(s: seq<Sev>, field: SortField, desc: bool)
    requires forall i, j | 0 <= i < j < |s| :: s[i].id != s[j].id
    ensures StrictOrder(Order(field, desc)) && Comparable(Order(field, desc), s) && DistinctIds(Elements(s))
  {
    SortsBeforeIsStrictTotal(field, desc);
  }

  /** An increasing rearrangement of rows with distinct IDs is the one sorted listing. */
  lemma SortedPermutation(s: seq<Sev>, t: seq<Sev>, field: SortField, desc: bool)
    requires DistinctIds(Elements(s)) && multiset(t) == multiset(s) && Increasing(Order(field, desc), t)
    ensures t == Sorted(Elements(s), field, desc)
  {
    SortsBeforeIsStrictTotal(field, desc);
    var sorted := Sorted(Elements(s), field, desc);
    forall x
      ensures x in t <==> x in sorted
    {
      assert x in multiset(t) <==> x in multiset(s);
      assert x in sorted <==> x in Elements(sorted);
    }
    IncreasingIsUnique(Order(field, desc), t, sorted);
  }

  /** SortSEVs on a slice of rows with distinct IDs yields the one sorted listing. */
  method SortSEVs(records: array<Sev>, field: SortField, desc: bool)
    requires forall i, j | 0 <= i < j < records.Length :: records[i].id != records[j].id
    modifies records
    ensures DistinctIds(Elements(old(records[..])))
    ensures records[..] == Sorted(Elements(old(records[..])), field, desc)
  {
    ghost var before := records[..];
    DistinctIsComparable(before, field, desc);
    SortInPlace(records, Order(field, desc));
    SortedPermutation(before, records[..], field, desc);
  }

  class SevStore {
    var rows: map<string, Sev>
    const text: TextMatch

    ghost predicate Valid()
      reads this
    {
      WellKeyed(rows)
    }

    constructor (rows: map<string, Sev>, text: TextMatch)
      requires WellKeyed(rows)
      ensures Valid() && this.rows == rows && this.text == text
    {
      this.rows, this.text := rows, text;
    }

    /** The matching rows, in whatever order the map yields them. */
    method Collect(f: Filter) returns (out: seq<Sev>)
      requires Valid()
      ensures Elements(out) == Matching(rows, f, text)
      ensures forall i, j | 0 <= i < j < |out| :: out[i].id != out[j].id
    {
      out := [];
      var todo := rows.Keys;
      while todo != {}
        invariant todo <= rows.Keys
        invariant forall s :: s in out <==> s.id in rows && s.id !in todo && s == rows[s.id] && Matches(s, f, text)
        invariant forall i, j | 0 <= i < j < |out| :: out[i].id != out[j].id
        decreases |todo|
      {
        var id :| id in todo;
        if Matches(rows[id], f, text) {
          out := out + [rows[id]];
        }
        todo := todo - {id};
      }
      MatchingIsKeyed(rows, f, text);
    }

    /** List: a page of the matching rows in an order the query allows. This body settles ties by ID, as
        SortSEVs does; callers may rely on no more than the contract. */
    method List(f: Filter, fails: bool) returns (r: Result<seq<Sev>>)
      requires Valid()
      ensures fails ==> r == Err(Internal)
      ensures !fails ==> r.Ok? && MayPage(Matching(rows, f, text), f.sort, f.desc, f.offset, f.limit, r.value)
    {
      if fails {
        return Err(Internal);
      }
      var out := Collect(f);
      var a := new Sev[|out|](i requires 0 <= i < |out| => out[i]);
      assert a[..] == out;
      SortSEVs(a, f.sort, f.desc);
      MatchingDistinct(rows, f, text);
      SortedIsLegal(Matching(rows, f, text), f.sort, f.desc);
      r := Ok(Page(a[..], f.offset, f.limit));
    }

    method Count(f: Filter, fails: bool) returns (r: Result<nat>)
      requires Valid()
      ensures r == if fails then Err(Internal) else Ok(|Matching(rows, f, text)|)
    {
      if fails {
        return Err(Internal);
      }
      var n := 0;
      var todo := rows.Keys;
      ghost var seen: set<Sev> := {};
      while todo != {}
        invariant todo <= rows.Keys
        invariant forall s :: s in seen <==> s.id in rows && s.id !in todo && s == rows[s.id] && Matches(s, f, text)
        invariant n == |seen|
        decreases |todo|
      {
        var id :| id in todo;
        if Matches(rows[id], f, text) {
          n := n + 1;
          seen := seen + {rows[id]};
        }
        todo := todo - {id};
      }
      MatchingIsKeyed(rows, f, text);
      assert seen == Matching(rows, f, text);
      r := Ok(n);
    }

    /** UpdateSLANotifiedStatus: the narrow write of the scanner's marker, which also stamps the row. */
    method UpdateSLANotifiedStatus(id: string, status: Option<SlaStatus>, now: Time, fails: bool) returns (ok: bool)
      requires Valid()
      modifies this
      ensures Valid() && ok == (!fails && id in old(rows))
      ensures rows == if ok then old(rows)[id := old(rows)[id].(slaNotified := status, updatedAt := now)] else old(rows)
    {
      if fails || id !in rows {
        return false;
      }
      rows := rows[id := rows[id].(slaNotified := status, updatedAt := now)];
      ok := true;
    }
  }
}
