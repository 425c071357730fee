/** Listing and reading SEVs under the visibility rule for sensitive ones (ListSEVs and GetSEV of
    internal/api/grpc/sev.go, internal/api/grpc/visibility.go). */
module SevListing {
  import opened Wrappers
  import opened Ordering
  import opened SevModel
  import opened SevStore

  const LIST_FANOUT_LIMIT := 10000

  datatype ListResponse = ListResponse(sevs: seq<Sev>, total: nat)

  datatype Faults = Faults(get: bool, count: bool, list: bool, access: bool)

  /** The rows ListSEVIDsByUser lets a non-privileged caller keep. A caller with an empty user ID would
      be answered with no IDs at all. */
  predicate Listed(row: Sev, caller: Caller, grants: Grants) {
    !row.sensitive || (caller.User? && caller.id != "" && (row.id, caller.id) in grants)
  }

  /** The rows a listing keeps. */
  predicate Shown(row: Sev, caller: Caller, grants: Grants) {
    Privileged(caller) || Listed(row, caller, grants)
  }

  ghost function ShownRows(rows: map<string, Sev>, f: Filter, text: TextMatch, caller: Caller, grants: Grants): set<Sev>
  {
    set s | s in Matching(rows, f, text) && Shown(s, caller, grants)
  }

  /** The matching rows GetSEV would show the caller. */
  ghost function ReadableRows(rows: map<string, Sev>, f: Filter, text: TextMatch, caller: Caller,
                              grants: Grants): set<Sev>
  {
    set s | s in Matching(rows, f, text) && VisibleTo(s, caller, grants)
  }

  /** The interceptor looks every caller's ID up as a user's, so no caller has an empty one
      (internal/auth/interceptor.go:95). */
  predicate RealCaller(caller: Caller) {
    caller.User? ==> caller.id != ""
  }

  /** The list and the single read agree on every matching row; that rests on callers having an ID,
      since exactly an empty one could read a sensitive row granted to it without listing it. */
  lemma ListAgreesWithGet(rows: map<string, Sev>, f: Filter, text: TextMatch, caller: Caller, grants: Grants)
    ensures RealCaller(caller) ==> ShownRows(rows, f, text, caller, grants) == ReadableRows(rows, f, text, caller, grants)
    ensures ShownRows(rows, f, text, caller, grants) == ReadableRows(rows, f, text, caller, grants)
       <==> !(caller.User? && caller.id == "" && !Privileged(caller)
              && exists s | s in Matching(rows, f, text) :: s.sensitive && (s.id, "") in grants)
  {
    if caller.User? && caller.id == "" && !Privileged(caller) {
      forall s | s in Matching(rows, f, text) && s.sensitive && (s.id, "") in grants
        ensures s in ReadableRows(rows, f, text, caller, grants)
        ensures s !in ShownRows(rows, f, text, caller, grants)
      {
      }
    }
  }

  // ---------- pages ----------

  /** The first n pages of a list, one after the other. */
  function Pages<T>(s: seq<T>, limit: nat, n: nat): seq<T> {
    if n == 0 then [] else Pages(s, limit, n - 1) + Page(s, (n - 1) * limit, limit)
  }

  function Prefix<T>(s: seq<T>, n: nat): seq<T> {
    if n < |s| then s[..n] else s
  }

  lemma PageExtendsPrefix<T>(s: seq<T>, n: nat, limit: nat)
    requires limit > 0
    ensures Prefix(s, n) + Page(s, n, limit) == Prefix(s, n + limit)
  {
  }

  lemma {:induction false} PagesArePrefix<T>(s: seq<T>, limit: nat, n: nat)
    requires limit > 0
    ensures Pages(s, limit, n) == Prefix(s, n * limit)
  {
    if n > 0 {
      PagesArePrefix(s, limit, n - 1);
      PageExtendsPrefix(s, (n - 1) * limit, limit);
      assert n * limit == (n - 1) * limit + limit;
    }
  }

  /** Walking consecutive pages until they cover the total visits the whole list, in order, with no
      gap and no repetition. */
  lemma PagesCoverTheList<T>(s: seq<T>, limit: nat, n: nat)
    requires limit > 0 && n * limit >= |s|
    ensures Pages(s, limit, n) == s
  {
    PagesArePrefix(s, limit, n);
  }

  // ---------- what a listing shows of an order ----------

  /** The rows of an order that the caller may see, in that order. */
  function Filtered(l: seq<Sev>, caller: Caller, grants: Grants): seq<Sev> {
    if l == [] then []
    else
      var init, last := l[..|l| - 1], l[|l| - 1];
      if Shown(last, caller, grants) then Filtered(init, caller, grants) + [last] else Filtered(init, caller, grants)
  }

  lemma {:induction false} FilteredConcat(a: seq<Sev>, b: seq<Sev>, caller: Caller, grants: Grants)
    ensures Filtered(a + b, caller, grants) == Filtered(a, caller, grants) + Filtered(b, caller, grants)
  {
    if b == [] {
      assert a + b == a;
    } else {
      var init := b[..|b| - 1];
      assert (a + b)[..|a + b| - 1] == a + init;
      FilteredConcat(a, init, caller, grants);
    }
  }

  lemma {:induction false} FilteredRows(l: seq<Sev>, caller: Caller, grants: Grants)
    ensures forall s :: s in Filtered(l, caller, grants) <==> s in l && Shown(s, caller, grants)
  {
    if l != [] {
      FilteredRows(l[..|l| - 1], caller, grants);
      assert l == l[..|l| - 1] + [l[|l| - 1]];
    }
  }

  lemma {:induction false} PrivilegedSeeAll(l: seq<Sev>, caller: Caller, grants: Grants)
    requires Privileged(caller)
    ensures Filtered(l, caller, grants) == l
  {
    if l != [] {
      PrivilegedSeeAll(l[..|l| - 1], caller, grants);
    }
  }

  /** No row of an order comes before one the query puts ahead of it, and none comes twice. */
  ghost predicate InQueryOrder(l: seq<Sev>, field: SortField, desc: bool) {
    forall i, j | 0 <= i < j < |l| :: l[i] != l[j] && !QueryBefore(l[j], l[i], field, desc)
  }

  lemma {:induction false} FilteredKeepsOrder(l: seq<Sev>, field: SortField, desc: bool, caller: Caller, grants: Grants)
    requires InQueryOrder(l, field, desc)
    ensures InQueryOrder(Filtered(l, caller, grants), field, desc)
  {
    if l != [] {
      var init, last := l[..|l| - 1], l[|l| - 1];
      assert InQueryOrder(init, field, desc);
      FilteredKeepsOrder(init, field, desc, caller, grants);
      FilteredRows(init, caller, grants);
      var kept := Filtered(init, caller, grants);
      forall i | 0 <= i < |kept|
        ensures kept[i] != last && !QueryBefore(last, kept[i], field, desc)
      {
        assert kept[i] in kept;
        var k :| 0 <= k < |init| && init[k] == kept[i];
        assert l[k] == kept[i];
      }
    }
  }

  /** What is kept of a legal order is a legal order of what is kept. */
  lemma FilteredIsLegal(all: set<Sev>, shown: set<Sev>, field: SortField, desc: bool, l: seq<Sev>, caller: Caller,
                        grants: Grants)
    requires LegalOrder(all, field, desc, l) && shown == set s | s in all && Shown(s, caller, grants)
    ensures LegalOrder(shown, field, desc, Filtered(l, caller, grants))
  {
    FilteredRows(l, caller, grants);
    FilteredKeepsOrder(l, field, desc, caller, grants);
    var kept := Filtered(l, caller, grants);
    forall s
      ensures s in kept <==> s in shown
    {
      assert s in l <==> s in Elements(l);
    }
  }

  /** A page a listing may answer: from some order the query allows, what the caller may see. */
  ghost predicate MayShow(rows: map<string, Sev>, f: Filter, text: TextMatch, caller: Caller, grants: Grants,
                          offset: int, limit: int, page: seq<Sev>)
  {
    exists l :: LegalOrder(Matching(rows, f, text), f.sort, f.desc, l)
             && page == Page(Filtered(l, caller, grants), offset, limit)
  }

  /** A caller may read what is not sensitive, everything with a privileged role, and what was granted. */
  predicate MayRead(row: Sev, caller: Caller, grants: Grants) {
    row.sensitive ==> caller.User? && (caller.role in {Admin, IncidentCommander} || (row.id, caller.id) in grants)
  }

  lemma ShownMayRead(rows: map<string, Sev>, f: Filter, text: TextMatch, caller: Caller, grants: Grants)
    ensures forall row | row in ShownRows(rows, f, text, caller, grants) :: MayRead(row, caller, grants)
    ensures RealCaller(caller) ==>
      ShownRows(rows, f, text, caller, grants) == set row | row in Matching(rows, f, text) && MayRead(row, caller, grants)
    ensures forall row :: VisibleTo(row, caller, grants) <==> MayRead(row, caller, grants)
  {
  }

  lemma PageIsShown(rows: map<string, Sev>, f: Filter, text: TextMatch, caller: Caller, grants: Grants, page: seq<Sev>)
    requires MayShow(rows, f, text, caller, grants, f.offset, f.limit, page)
    ensures forall row | row in page :: row in ShownRows(rows, f, text, caller, grants)
  {
    var l :| LegalOrder(Matching(rows, f, text), f.sort, f.desc, l)
          && page == Page(Filtered(l, caller, grants), f.offset, f.limit);
    FilteredRows(l, caller, grants);
    forall row | row in page
      ensures row in Filtered(l, caller, grants) && row in Elements(l)
    {
      assert row in Filtered(l, caller, grants);
    }
  }

  /** What a listing fails with: the store's failures, which for callers without a privileged role are those
      of one unpaginated fetch and of the access store, and the cap on that fetch. */
  predicate ListRefused(r: Result<ListResponse>, matching: nat, caller: Caller, faults: Faults) {
    if caller.User? && caller.role in {Admin, IncidentCommander} then
      if faults.count || faults.list then r == Err(Internal) else r.Ok?
    else if faults.list then r == Err(Internal)
    else if matching >= 10000 then r == Err(ResourceExhausted)
    else if caller.User? && faults.access then r == Err(Internal)
    else r.Ok?
  }

  // ---------- the handlers ----------

  class SevReader {
    const sevs: SevStore
    var grants: Grants

    constructor (sevs: SevStore, grants: Grants)
      ensures this.sevs == sevs && this.grants == grants
    {
      this.sevs, this.grants := sevs, grants;
    }

    /** GetSEV: absent and invisible rows are reported alike. */
    method GetSEV(id: string, caller: Caller, faults: Faults) returns (r: Result<Sev>)
      requires sevs.Valid()
      ensures r.Ok? ==> id in sevs.rows && r.value == sevs.rows[id] && VisibleTo(r.value, caller, grants)
      ensures id != "" && !faults.get && id !in sevs.rows ==> r == Err(NotFound)
      ensures id != "" && !faults.get && !faults.access && id in sevs.rows ==>
        r == if VisibleTo(sevs.rows[id], caller, grants) then Ok(sevs.rows[id]) else Err(NotFound)
      ensures id == "" ==> r == Err(InvalidArgument)
      ensures id != "" && faults.get ==> r == Err(Internal)
      ensures id != "" && !faults.get && faults.access && id in sevs.rows ==>
        r == if !sevs.rows[id].sensitive then Ok(sevs.rows[id])
             else if caller.Anonymous? then Err(NotFound)
             else if caller.role in {Admin, IncidentCommander} then Ok(sevs.rows[id])
             else Err(Internal)
    {
      if id == "" {
        return Err(InvalidArgument);
      }
      if faults.get {
        return Err(Internal);
      }
      if id !in sevs.rows {
        return Err(NotFound);
      }
      var visible := SensitiveSevVisible(sevs.rows[id], caller, grants, faults.access);
      if visible.Err? {
        return Err(Internal);
      }
      if !visible.value {
        return Err(NotFound);
      }
      r := Ok(sevs.rows[id]);
    }

    /** The rows of the listing the caller may see, all of them; refused exactly when the unfiltered
        fetch reaches the cap. */
    method VisibleSEVsForNonPrivileged(f: Filter, caller: Caller, faults: Faults)
      returns (r: Result<seq<Sev>>, ghost order: seq<Sev>)
      requires sevs.Valid() && !Privileged(caller)
      ensures faults.list ==> r == Err(Internal)
      ensures !faults.list && |Matching(sevs.rows, f, sevs.text)| >= LIST_FANOUT_LIMIT ==> r == Err(ResourceExhausted)
      ensures !faults.list && |Matching(sevs.rows, f, sevs.text)| < LIST_FANOUT_LIMIT ==>
        && LegalOrder(Matching(sevs.rows, f, sevs.text), f.sort, f.desc, order)
        && r == if caller.User? && faults.access then Err(Internal) else Ok(Filtered(order, caller, grants))
    {
      var all := FetchAll(f, faults.list);
      order := [];
      if all.Err? {
        return Err(all.error), [];
      }
      order := all.value;
      var accessSet: set<string> := {};
      if caller.User? {
        if faults.access {
          return Err(Internal), all.value;
        }
        if caller.id != "" {
          accessSet := set g | g in grants && g.1 == caller.id :: g.0;
        }
      }
      assert forall s: Sev :: Shown(s, caller, grants) <==> !s.sensitive || s.id in accessSet;
      var visible := KeepVisible(all.value, accessSet, caller);
      r := Ok(visible);
    }

    method FetchAll(f: Filter, fails: bool) returns (r: Result<seq<Sev>>)
      requires sevs.Valid()
      ensures fails ==> r == Err(Internal)
      ensures !fails && |Matching(sevs.rows, f, sevs.text)| >= LIST_FANOUT_LIMIT ==> r == Err(ResourceExhausted)
      ensures !fails && |Matching(sevs.rows, f, sevs.text)| < LIST_FANOUT_LIMIT ==>
        r.Ok? && LegalOrder(Matching(sevs.rows, f, sevs.text), f.sort, f.desc, r.value)
    {
      var unpaginated := f.(limit := LIST_FANOUT_LIMIT, offset := 0);
      PagingDoesNotMatter(sevs.rows, f, sevs.text, LIST_FANOUT_LIMIT, 0);
      var all := sevs.List(unpaginated, fails);
      if all.Err? {
        return Err(Internal);
      }
      FirstPage(Matching(sevs.rows, f, sevs.text), f.sort, f.desc, LIST_FANOUT_LIMIT, all.value);
      if |all.value| >= LIST_FANOUT_LIMIT {
        return Err(ResourceExhausted);
      }
      r := all;
    }

    method KeepVisible(all: seq<Sev>, accessSet: set<string>, ghost caller: Caller) returns (visible: seq<Sev>)
      requires forall s: Sev :: Shown(s, caller, grants) <==> !s.sensitive || s.id in accessSet
      ensures visible == Filtered(all, caller, grants)
    {
      visible := [];
      for i := 0 to |all|
        invariant visible == Filtered(all[..i], caller, grants)
      {
        assert all[..i + 1][..i] == all[..i];
        if !all[i].sensitive || all[i].id in accessSet {
          visible := visible + [all[i]];
        }
      }
      assert all[..|all|] == all;
    }

    /** ListSEVs: a page of the rows the caller may see, in an order the query allows, and how many those
        are. Only the listing for callers without a privileged role slices in Go, which takes no
        negative offset; the store clamps it. */
    method ListSEVs(f: Filter, caller: Caller, faults: Faults) returns (r: Result<ListResponse>)
      requires sevs.Valid() && (!Privileged(caller) ==> f.offset >= 0)
      ensures r.Ok? ==>
        && MayShow(sevs.rows, f, sevs.text, caller, grants, f.offset, f.limit, r.value.sevs)
        && r.value.total == |ShownRows(sevs.rows, f, sevs.text, caller, grants)|
      ensures !faults.count && !faults.list && !faults.access ==>
        (r.Err? <==> !Privileged(caller) && |Matching(sevs.rows, f, sevs.text)| >= 10000)
      ensures ListRefused(r, |Matching(sevs.rows, f, sevs.text)|, caller, faults)
      ensures r.Ok? ==> forall row | row in r.value.sevs :: row in Matching(sevs.rows, f, sevs.text) && MayRead(row, caller, grants)
      ensures r.Ok? && RealCaller(caller) ==>
        r.value.total == |set row | row in Matching(sevs.rows, f, sevs.text) && MayRead(row, caller, grants)|
    {
      ShownMayRead(sevs.rows, f, sevs.text, caller, grants);
      if Privileged(caller) {
        r := ListAll(f, caller, faults);
        if r.Ok? {
          PageIsShown(sevs.rows, f, sevs.text, caller, grants, r.value.sevs);
        }
        return;
      }
      var visible, order := VisibleSEVsForNonPrivileged(f, caller, faults);
      if visible.Err? {
        return Err(visible.error);
      }
      FilteredIsLegal(Matching(sevs.rows, f, sevs.text), ShownRows(sevs.rows, f, sevs.text, caller, grants),
                      f.sort, f.desc, order, caller, grants);
      EnumerationLength(visible.value, ShownRows(sevs.rows, f, sevs.text, caller, grants));
      var page := PageOf(visible.value, f.offset, f.limit);
      r := Ok(ListResponse(page, |visible.value|));
      PageIsShown(sevs.rows, f, sevs.text, caller, grants, page);
    }

    /** The privileged path: count and page by the store. */
    method ListAll(f: Filter, caller: Caller, faults: Faults) returns (r: Result<ListResponse>)
      requires sevs.Valid() && Privileged(caller)
      ensures if faults.count || faults.list then r == Err(Internal) else r.Ok?
      ensures r.Ok? ==>
        && MayShow(sevs.rows, f, sevs.text, caller, grants, f.offset, f.limit, r.value.sevs)
        && r.value.total == |ShownRows(sevs.rows, f, sevs.text, caller, grants)|
    {
      var total := sevs.Count(f, faults.count);
      if total.Err? {
        return Err(Internal);
      }
      var records := sevs.List(f, faults.list);
      if records.Err? {
        return Err(Internal);
      }
      ghost var l :| LegalOrder(Matching(sevs.rows, f, sevs.text), f.sort, f.desc, l)
                  && records.value == Page(l, f.offset, f.limit);
      PrivilegedSeeAll(l, caller, grants);
      assert ShownRows(sevs.rows, f, sevs.text, caller, grants) == Matching(sevs.rows, f, sevs.text);
      r := Ok(ListResponse(records.value, total.value));
    }
  }

  // ---------- walking the pages ----------

  /** Consecutive pages of some size, each answered by a call of its own. */
  ghost predicate Drawn(rows: map<string, Sev>, f: Filter, text: TextMatch, caller: Caller, grants: Grants, limit: nat,
                        pages: seq<seq<Sev>>)
  {
    forall k | 0 <= k < |pages| :: MayShow(rows, f, text, caller, grants, k * limit, limit, pages[k])
  }

  function Concat<T>(pages: seq<seq<T>>): seq<T> {
    if pages == [] then [] else Concat(pages[..|pages| - 1]) + pages[|pages| - 1]
  }

  /** However the pages are drawn, and whatever their size, those that cover the total are together the
      rows the caller may see, none missing and none repeated. */
  ghost predicate PagesAreReliable(rows: map<string, Sev>, f: Filter, text: TextMatch, caller: Caller, grants: Grants) {
    forall limit: nat, pages: seq<seq<Sev>> |
      Drawn(rows, f, text, caller, grants, limit, pages)
      && limit > 0 && |pages| * limit >= |ShownRows(rows, f, text, caller, grants)| ::
      Enumerates(Concat(pages), ShownRows(rows, f, text, caller, grants))
  }

  /** Where the query settles the order of the rows shown, every page is one of the same list. */
  lemma SettledPage(rows: map<string, Sev>, f: Filter, text: TextMatch, caller: Caller, grants: Grants, offset: int,
                    limit: int, page: seq<Sev>)
    requires WellKeyed(rows) && Settled(ShownRows(rows, f, text, caller, grants), f.sort)
    requires MayShow(rows, f, text, caller, grants, offset, limit, page)
    ensures page == Page(Sorted(ShownRows(rows, f, text, caller, grants), f.sort, f.desc), offset, limit)
  {
    var all, shown := Matching(rows, f, text), ShownRows(rows, f, text, caller, grants);
    var l :| LegalOrder(all, f.sort, f.desc, l) && page == Page(Filtered(l, caller, grants), offset, limit);
    MatchingDistinct(rows, f, text);
    FilteredIsLegal(all, shown, f.sort, f.desc, l, caller, grants);
    OneLegalOrder(shown, f.sort, f.desc, Filtered(l, caller, grants));
  }

  lemma {:induction false} PagesOfOneList<T>(l: seq<T>, limit: nat, pages: seq<seq<T>>)
    requires forall k | 0 <= k < |pages| :: pages[k] == Page(l, k * limit, limit)
    ensures Concat(pages) == Pages(l, limit, |pages|)
  {
    if pages != [] {
      PagesOfOneList(l, limit, pages[..|pages| - 1]);
    }
  }

  /** A client that walks the pages of a fixed store whose query settles the order: the pages together are
      the one sorted list of the matching SEVs that GetSEV would show it, and as many as the total. */
  lemma WalkingThePages(rows: map<string, Sev>, f: Filter, text: TextMatch, caller: Caller, grants: Grants, limit: nat,
                        pages: seq<seq<Sev>>)
    requires WellKeyed(rows) && RealCaller(caller)
    requires Settled(ReadableRows(rows, f, text, caller, grants), f.sort)
    requires Drawn(rows, f, text, caller, grants, limit, pages)
    requires limit > 0 && |pages| * limit >= |ReadableRows(rows, f, text, caller, grants)|
    ensures var readable := ReadableRows(rows, f, text, caller, grants);
      && Concat(pages) == Sorted(readable, f.sort, f.desc)
      && Enumerates(Concat(pages), readable)
      && |Concat(pages)| == |readable|
  {
    ListAgreesWithGet(rows, f, text, caller, grants);
    SettledPagesCover(rows, f, text, caller, grants, limit, pages);
  }

  lemma SettledPagesCover(rows: map<string, Sev>, f: Filter, text: TextMatch, caller: Caller, grants: Grants, limit: nat,
                          pages: seq<seq<Sev>>)
    requires WellKeyed(rows) && Settled(ShownRows(rows, f, text, caller, grants), f.sort)
    requires Drawn(rows, f, text, caller, grants, limit, pages)
    requires limit > 0 && |pages| * limit >= |ShownRows(rows, f, text, caller, grants)|
    ensures var shown := ShownRows(rows, f, text, caller, grants);
      && Concat(pages) == Sorted(shown, f.sort, f.desc)
      && Enumerates(Concat(pages), shown)
      && |Concat(pages)| == |shown|
  {
    var shown := ShownRows(rows, f, text, caller, grants);
    var l := Sorted(shown, f.sort, f.desc);
    MatchingDistinct(rows, f, text);
    assert DistinctIds(shown);
    forall k | 0 <= k < |pages|
      ensures pages[k] == Page(l, k * limit, limit)
    {
      SettledPage(rows, f, text, caller, grants, k * limit, limit, pages[k]);
    }
    PagesOfOneList(l, limit, pages);
    PagesCoverTheList(l, limit, |pages|);
    SortedIsLegal(shown, f.sort, f.desc);
  }

  lemma {:induction false} SinglePages<T>(pages: seq<seq<T>>, k: nat)
    requires k < |pages| && forall j | 0 <= j < |pages| :: |pages[j]| == 1
    ensures |Concat(pages)| == |pages| && Concat(pages)[k] == pages[k][0]
  {
    var init := pages[..|pages| - 1];
    if init != [] {
      SinglePages(init, if k < |init| then k else 0);
    }
  }

  lemma PairShown(before: seq<Sev>, a: Sev, b: Sev, after: seq<Sev>, caller: Caller, grants: Grants)
    requires Shown(a, caller, grants) && Shown(b, caller, grants)
    ensures Filtered(before + [a, b] + after, caller, grants)
         == Filtered(before, caller, grants) + [a, b] + Filtered(after, caller, grants)
  {
    FilteredConcat(before + [a, b], after, caller, grants);
    FilteredConcat(before, [a, b], caller, grants);
    var pair := [a, b];
    assert pair[..|pair| - 1] == [a] && [a][..0] == [];
    assert Filtered([a], caller, grants) == [a];
    assert Filtered(pair, caller, grants) == [a] + [b];
  }

  /** Pages of one row, the first ones from one list and the later ones from another. */
  function MixedPages(first: seq<Sev>, second: seq<Sev>, n: nat): (pages: seq<seq<Sev>>)
    requires |first| == |second|
    ensures |pages| == |first|
    ensures forall k | 0 <= k < |pages| :: pages[k] == Page(if k <= n then first else second, k, 1)
  {
    seq(|first|, k requires 0 <= k < |first| => Page(if k <= n then first else second, k, 1))
  }

  lemma MixedPagesRepeat(first: seq<Sev>, second: seq<Sev>, n: nat)
    requires |first| == |second| && n + 1 < |first| && first[n] == second[n + 1]
    ensures var l := Concat(MixedPages(first, second, n));
      n + 1 < |l| && l[n] == l[n + 1]
  {
    var pages := MixedPages(first, second, n);
    forall k | 0 <= k < |pages|
      ensures |pages[k]| == 1 && pages[k][0] == (if k <= n then first else second)[k]
    {
    }
    SinglePages(pages, n);
    SinglePages(pages, n + 1);
  }

  lemma DrawnFromTwo(rows: map<string, Sev>, f: Filter, text: TextMatch, caller: Caller, grants: Grants, l1: seq<Sev>,
                     l2: seq<Sev>, n: nat)
    requires LegalOrder(Matching(rows, f, text), f.sort, f.desc, l1)
    requires LegalOrder(Matching(rows, f, text), f.sort, f.desc, l2)
    requires |Filtered(l1, caller, grants)| == |Filtered(l2, caller, grants)|
    ensures Drawn(rows, f, text, caller, grants, 1, MixedPages(Filtered(l1, caller, grants), Filtered(l2, caller, grants), n))
  {
    var pages := MixedPages(Filtered(l1, caller, grants), Filtered(l2, caller, grants), n);
    forall k | 0 <= k < |pages|
      ensures MayShow(rows, f, text, caller, grants, k * 1, 1, pages[k])
    {
      assert k * 1 == k;
      var l := if k <= n then l1 else l2;
      assert LegalOrder(Matching(rows, f, text), f.sort, f.desc, l) && pages[k] == Page(Filtered(l, caller, grants), k, 1);
    }
  }

  lemma ShownLength(rows: map<string, Sev>, f: Filter, text: TextMatch, caller: Caller, grants: Grants, l: seq<Sev>)
    requires LegalOrder(Matching(rows, f, text), f.sort, f.desc, l)
    ensures |Filtered(l, caller, grants)| == |ShownRows(rows, f, text, caller, grants)|
  {
    var shown := ShownRows(rows, f, text, caller, grants);
    FilteredIsLegal(Matching(rows, f, text), shown, f.sort, f.desc, l, caller, grants);
    EnumerationLength(Filtered(l, caller, grants), shown);
  }

  /** With a tie among the rows shown, pages of one row can show the same row twice. */
  lemma TiedPagesRepeat(rows: map<string, Sev>, f: Filter, text: TextMatch, caller: Caller, grants: Grants, a: Sev, b: Sev)
    returns (pages: seq<seq<Sev>>)
    requires WellKeyed(rows) && f.sort.Default?
    requires a in ShownRows(rows, f, text, caller, grants) && b in ShownRows(rows, f, text, caller, grants)
    requires a != b && a.createdAt == b.createdAt
    ensures Drawn(rows, f, text, caller, grants, 1, pages)
    ensures |pages| * 1 >= |ShownRows(rows, f, text, caller, grants)|
    ensures !Enumerates(Concat(pages), ShownRows(rows, f, text, caller, grants))
  {
    MatchingDistinct(rows, f, text);
    var before, after := TiedRowsEitherWay(Matching(rows, f, text), f.desc, a, b);
    var l1, l2 := before + [a, b] + after, before + [b, a] + after;
    var n := |Filtered(before, caller, grants)|;
    var first, second := Filtered(l1, caller, grants), Filtered(l2, caller, grants);
    PairShown(before, a, b, after, caller, grants);
    PairShown(before, b, a, after, caller, grants);
    ShownLength(rows, f, text, caller, grants, l1);
    ShownLength(rows, f, text, caller, grants, l2);
    pages := MixedPages(first, second, n);
    DrawnFromTwo(rows, f, text, caller, grants, l1, l2, n);
    MixedPagesRepeat(first, second, n);
  }

  /** Exactly when walking the pages of a fixed store is reliable, for every page size and every way the
      store may settle ties: when the query settles the order of the rows shown. ListSEVs asks for the
      default order, so that is when no two of them were created at the same time. */
  lemma PagesAreReliableExactly(rows: map<string, Sev>, f: Filter, text: TextMatch, caller: Caller, grants: Grants)
    requires WellKeyed(rows)
    ensures PagesAreReliable(rows, f, text, caller, grants)
       <==> Settled(ShownRows(rows, f, text, caller, grants), f.sort)
  {
    var shown := ShownRows(rows, f, text, caller, grants);
    if Settled(shown, f.sort) {
      forall limit: nat, pages: seq<seq<Sev>> |
        Drawn(rows, f, text, caller, grants, limit, pages) && limit > 0 && |pages| * limit >= |shown|
        ensures Enumerates(Concat(pages), shown)
      {
        SettledPagesCover(rows, f, text, caller, grants, limit, pages);
      }
    } else {
      var a, b :| a in shown && b in shown && a != b && a.createdAt == b.createdAt;
      var pages := TiedPagesRepeat(rows, f, text, caller, grants, a, b);
    }
  }
}
