/**
 `list_events`: one page of the matching rows, newest first. The order of equal timestamps is up to
 the database and may differ from request to request.
 */
module Pages {
  import opened Events
  import opened Sequences
  import opened Repository

  function At(row: Row): int {
    row.event.timestamp
  }

  ghost predicate NewestFirst(rows: seq<Row>) {
    forall i, j | 0 <= i < j < |rows| :: At(rows[i]) >= At(rows[j])
  }

  /** What the ordered query may answer before OFFSET and LIMIT: ties in any order. */
  ghost predicate Answers(answer: seq<Row>, found: seq<Row>) {
    multiset(answer) == multiset(found) && NewestFirst(answer)
  }

  function Clip(n: nat, limit: nat): (m: nat)
    ensures m <= n && m <= limit && (m == n || m == limit)
  {
    if n <= limit then n else limit
  }

  /** OFFSET (page - 1) * per_page LIMIT per_page. */
  function Page(answer: seq<Row>, page: nat, perPage: nat): seq<Row>
    requires page >= 1
  {
    var offset := (page - 1) * perPage;
    answer[Clip(offset, |answer|)..Clip(offset + perPage, |answer|)]
  }

  function TotalPages(total: nat, perPage: nat): nat
    requires perPage >= 1
  {
    (total + perPage - 1) / perPage
  }

  /** Pages 1 to `n`, each cut from the answer of its own request. */
  function Browse(answers: nat -> seq<Row>, n: nat, perPage: nat): seq<Row> {
    if n == 0 then [] else Browse(answers, n - 1, perPage) + Page(answers(n), n, perPage)
  }

  lemma EnoughPages(total: nat, perPage: nat)
    requires perPage >= 1
    ensures TotalPages(total, perPage) * perPage >= total
    ensures total > 0 ==> TotalPages(total, perPage) >= 1 && (TotalPages(total, perPage) - 1) * perPage < total
    ensures total == 0 ==> TotalPages(total, perPage) == 0
  {
    var n := TotalPages(total, perPage);
    assert total + perPage - 1 == n * perPage + (total + perPage - 1) % perPage;
    assert (n - 1) * perPage == n * perPage - perPage;
  }

  /** Where page `k` ends among `total` rows. */
  function End(total: nat, k: nat, perPage: nat): (end: nat)
    ensures end <= total
  {
    Clip(k * perPage, total)
  }

  lemma PageIsBetween(answer: seq<Row>, page: nat, perPage: nat)
    requires page >= 1
    ensures End(|answer|, page - 1, perPage) <= End(|answer|, page, perPage)
    ensures Page(answer, page, perPage) == answer[End(|answer|, page - 1, perPage)..End(|answer|, page, perPage)]
  {
    assert (page - 1) * perPage + perPage == page * perPage;
  }

  lemma EndsAtZero(total: nat, perPage: nat)
    ensures End(total, 0, perPage) == 0
  {}

  lemma Cut(s: seq<Row>, lo: nat, hi: nat)
    requires lo <= hi <= |s|
    ensures s[..hi] == s[..lo] + s[lo..hi]
  {}

  lemma Times(a: nat, b: nat, p: nat)
    requires a <= b
    ensures a * p <= b * p
  {}

  // ----- One order throughout -----

  lemma {:induction false} BrowsePrefix(answers: nat -> seq<Row>, answer: seq<Row>, n: nat, perPage: nat)
    requires forall p :: answers(p) == answer
    ensures Browse(answers, n, perPage) == answer[..End(|answer|, n, perPage)]
  {
    hide Page, End;
    EndsAtZero(|answer|, perPage);
    if n > 0 {
      BrowsePrefix(answers, answer, n - 1, perPage);
      PageIsBetween(answer, n, perPage);
      Cut(answer, End(|answer|, n - 1, perPage), End(|answer|, n, perPage));
    }
  }

  lemma EndsInside(total: nat, k: nat, perPage: nat)
    requires perPage >= 1
    ensures k < TotalPages(total, perPage) ==> End(total, k, perPage) == k * perPage < total
    ensures k >= TotalPages(total, perPage) ==> End(total, k, perPage) == total
  {
    var n := TotalPages(total, perPage);
    EnoughPages(total, perPage);
    if k < n {
      Times(k, n - 1, perPage);
    } else {
      Times(n, k, perPage);
    }
  }

  lemma PageSizes(answer: seq<Row>, perPage: nat, page: nat)
    requires perPage >= 1 && page >= 1
    ensures var n := TotalPages(|answer|, perPage);
            (page < n ==> |Page(answer, page, perPage)| == perPage) &&
            (page == n ==> 1 <= |Page(answer, page, perPage)| <= perPage) &&
            (page > n ==> Page(answer, page, perPage) == [])
  {
    hide TotalPages, End;
    EndsInside(|answer|, page - 1, perPage);
    EndsInside(|answer|, page, perPage);
    PageIsBetween(answer, page, perPage);
    assert (page - 1) * perPage + perPage == page * perPage;
  }

  /** The answer from position (page - 1) * perPage on, at most `perPage` rows of it. */
  ghost predicate IsPage(shown: seq<Row>, answer: seq<Row>, page: nat, perPage: nat)
    requires page >= 1
  {
    var offset: nat := (page - 1) * perPage;
    |shown| == (if |answer| <= offset then 0
                else if |answer| <= offset + perPage then |answer| - offset
                else perPage) &&
    forall k | 0 <= k < |shown| :: shown[k] == answer[offset + k]
  }

  lemma PageIsPage(answer: seq<Row>, page: nat, perPage: nat)
    requires page >= 1
    ensures IsPage(Page(answer, page, perPage), answer, page, perPage)
  {}

  lemma PageOfFound(rows: seq<Row>, f: Filter, answer: seq<Row>, page: nat, perPage: nat)
    requires page >= 1 && Answers(answer, Found(rows, f))
    ensures |answer| == |Found(rows, f)| && IsPage(Page(answer, page, perPage), answer, page, perPage)
    ensures forall row | row in Page(answer, page, perPage) :: row in rows && Matches(row, f)
  {
    PageIsPage(answer, page, perPage);
    InMultiset(answer, Found(rows, f));
    FoundSelects(rows, f);
    hide Found, Matches, NewestFirst, IsPage;
    assert forall row | row in Page(answer, page, perPage) :: row in answer;
  }

  /** `list_events`: one page and the total, given how the ordered query answers. */
  function ListEvents(rows: seq<Row>, f: Filter, answer: seq<Row>, page: nat, perPage: nat): (r: (seq<Row>, nat))
    requires page >= 1
    requires Answers(answer, Found(rows, f))
    ensures r.1 == |answer|
    ensures IsPage(r.0, answer, page, perPage)
    ensures forall row | row in r.0 :: row in rows && Matches(row, f)
  {
    PageOfFound(rows, f, answer, page, perPage);
    (Page(answer, page, perPage), |Found(rows, f)|)
  }

  /** Each request is answered in some order of its own. */
  ghost predicate ServedBy(answers: nat -> seq<Row>, found: seq<Row>) {
    forall p :: Answers(answers(p), found)
  }

  /** What the requests for pages 1 to `n` show, one after the other. */
  function Shown(rows: seq<Row>, f: Filter, answers: nat -> seq<Row>, n: nat, perPage: nat): seq<Row>
    requires ServedBy(answers, Found(rows, f))
  {
    if n == 0 then []
    else Shown(rows, f, answers, n - 1, perPage) + ListEvents(rows, f, answers(n), n, perPage).0
  }

  lemma {:induction false} ShownIsBrowse(rows: seq<Row>, f: Filter, answers: nat -> seq<Row>, n: nat, perPage: nat)
    requires ServedBy(answers, Found(rows, f))
    ensures Shown(rows, f, answers, n, perPage) == Browse(answers, n, perPage)
  {
    if n > 0 {
      ShownIsBrowse(rows, f, answers, n - 1, perPage);
    }
  }

  /** While the order stays the same, pages 1 to total_pages are the answer, cut into full pages and a rest. */
  lemma PagesPartition(rows: seq<Row>, f: Filter, answers: nat -> seq<Row>, answer: seq<Row>, perPage: nat, page: nat)
    requires perPage >= 1 && page >= 1 && Answers(answer, Found(rows, f))
    requires forall p :: answers(p) == answer
    ensures var (shown, total) := ListEvents(rows, f, answer, page, perPage);
            var n := TotalPages(total, perPage);
            Shown(rows, f, answers, n, perPage) == answer &&
            (page < n ==> |shown| == perPage) && (page == n ==> 1 <= |shown| <= perPage) && (page > n ==> shown == [])
  {
    hide Page, TotalPages, Browse, Shown, Found;
    var n := TotalPages(|answer|, perPage);
    EnoughPages(|answer|, perPage);
    BrowsePrefix(answers, answer, n, perPage);
    ShownIsBrowse(rows, f, answers, n, perPage);
    PageSizes(answer, perPage, page);
    InMultiset(answer, Found(rows, f));
  }

  /** Browsing to the last page shows exactly the rows that the given filters let through, bounds included. */
  lemma BrowsingShowsMatches(rows: seq<Row>, f: Filter, answers: nat -> seq<Row>, answer: seq<Row>, perPage: nat, row: Row)
    requires perPage >= 1 && Answers(answer, Found(rows, f))
    requires forall p :: answers(p) == answer
    ensures var total := ListEvents(rows, f, answer, 1, perPage).1;
            row in Shown(rows, f, answers, TotalPages(total, perPage), perPage) <==>
            row in rows &&
            (f.protocol == None || f.protocol == Some(row.event.protocol)) &&
            (f.sourceIp == None || f.sourceIp == Some(row.event.sourceIp)) &&
            (f.since == None || f.since.value <= row.event.timestamp) &&
            (f.until == None || row.event.timestamp <= f.until.value)
  {
    PagesPartition(rows, f, answers, answer, perPage, 1);
    InMultiset(answer, Found(rows, f));
    FoundSelects(rows, f);
  }

  // ----- Ties in a different order on every request -----

  /** Rows with the same timestamp on both sides of the boundary after page `k`. */
  predicate Straddles(answer: seq<Row>, perPage: nat, k: nat) {
    0 < k * perPage < |answer| && At(answer[k * perPage - 1]) == At(answer[k * perPage])
  }

  function Newer(t: int): Row -> int {
    row => if At(row) >= t then 1 else 0
  }

  lemma {:induction false} AtLeast(rows: seq<Row>, n: nat, t: int)
    requires n <= |rows| && forall i | 0 <= i < n :: At(rows[i]) >= t
    ensures Sum(rows, Newer(t)) >= n
  {
    if rows != [] {
      AtLeast(rows[1..], if n > 0 then n - 1 else 0, t);
    }
  }

  lemma {:induction false} AtMost(rows: seq<Row>, n: nat, t: int)
    requires forall i | n <= i < |rows| :: At(rows[i]) < t
    ensures Sum(rows, Newer(t)) <= n
  {
    if rows != [] {
      AtMost(rows[1..], if n > 0 then n - 1 else 0, t);
    }
  }

  lemma NotNewer(a: seq<Row>, b: seq<Row>, i: nat)
    requires multiset(a) == multiset(b) && NewestFirst(a) && NewestFirst(b) && i < |a| == |b|
    ensures At(a[i]) <= At(b[i])
  {
    var t := At(a[i]);
    if t > At(b[i]) {
      AtLeast(a, i + 1, t);
      AtMost(b, i, t);
      SumPermutation(a, b, Newer(t));
    }
  }

  /** Whatever the order of ties, the timestamps come in one order. */
  lemma SameStamps(a: seq<Row>, b: seq<Row>)
    requires multiset(a) == multiset(b) && NewestFirst(a) && NewestFirst(b)
    ensures |a| == |b| && forall i | 0 <= i < |a| :: At(a[i]) == At(b[i])
  {
    InMultiset(a, b);
    forall i | 0 <= i < |a|
      ensures At(a[i]) == At(b[i])
    {
      NotNewer(a, b, i);
      NotNewer(b, a, i);
    }
  }

  lemma SplitCounts(s: seq<Row>, n: nat, x: Row)
    requires n <= |s|
    ensures multiset(s)[x] == multiset(s[..n])[x] + multiset(s[n..])[x]
  {
    assert s == s[..n] + s[n..];
  }

  /** Where no tie straddles, any two orders put the same rows before the boundary. */
  lemma SameBefore(a: seq<Row>, b: seq<Row>, n: nat)
    requires multiset(a) == multiset(b) && NewestFirst(a) && NewestFirst(b)
    requires n <= |a| && (0 < n < |a| ==> At(a[n - 1]) != At(a[n]))
    ensures n <= |b| && multiset(a[..n]) == multiset(b[..n])
  {
    SameStamps(a, b);
    if n == |a| {
      assert a[..n] == a && b[..n] == b;
    } else if n > 0 {
      assert At(a[n - 1]) > At(a[n]);
      hide NewestFirst;
      forall x
        ensures multiset(a[..n])[x] == multiset(b[..n])[x]
      {
        SameCount(a, b, n, x);
      }
    }
  }

  lemma SameCount(a: seq<Row>, b: seq<Row>, n: nat, x: Row)
    requires multiset(a) == multiset(b) && NewestFirst(a) && NewestFirst(b) && 0 < n < |a| == |b|
    requires At(a[n - 1]) == At(b[n - 1]) > At(a[n]) == At(b[n])
    ensures multiset(a[..n])[x] == multiset(b[..n])[x]
  {
    hide NewestFirst;
    SplitCounts(a, n, x);
    SplitCounts(b, n, x);
    NewerBefore(a, n, x);
    NewerBefore(b, n, x);
  }

  lemma NewerBefore(a: seq<Row>, n: nat, x: Row)
    requires NewestFirst(a) && 0 < n < |a| && At(a[n - 1]) > At(a[n])
    ensures if At(x) >= At(a[n - 1]) then multiset(a[n..])[x] == 0 else multiset(a[..n])[x] == 0
  {}

  lemma Difference(a: seq<Row>, b: seq<Row>, c: seq<Row>, d: seq<Row>)
    requires multiset(a) == multiset(c) && multiset(a + b) == multiset(c + d)
    ensures multiset(b) == multiset(d)
  {
    assert multiset(b) == multiset(a + b) - multiset(a);
    assert multiset(d) == multiset(c + d) - multiset(c);
  }

  lemma BoundaryIsStrict(answer: seq<Row>, perPage: nat, k: nat)
    requires NewestFirst(answer) && !Straddles(answer, perPage, k)
    ensures var n := End(|answer|, k, perPage);
            0 < n < |answer| ==> At(answer[n - 1]) != At(answer[n])
  {}

  lemma SameSlice(a: seq<Row>, b: seq<Row>, page: nat, perPage: nat)
    requires multiset(a) == multiset(b) && NewestFirst(a) && NewestFirst(b) && page >= 1
    requires !Straddles(a, perPage, page - 1) && !Straddles(a, perPage, page)
    ensures multiset(Page(a, page, perPage)) == multiset(Page(b, page, perPage))
  {
    hide NewestFirst, Straddles, Page, End;
    InMultiset(a, b);
    PageIsBetween(a, page, perPage);
    var lo, hi := End(|a|, page - 1, perPage), End(|a|, page, perPage);
    BoundaryIsStrict(a, perPage, page - 1);
    BoundaryIsStrict(a, perPage, page);
    SameBefore(a, b, lo);
    SameBefore(a, b, hi);
    PageIsBetween(b, page, perPage);
    Cut(a, lo, hi);
    Cut(b, lo, hi);
    Difference(a[..lo], a[lo..hi], b[..lo], b[lo..hi]);
  }

  /** The rows on a page do not depend on the request's order when its two boundaries are clean. */
  lemma SamePage(rows: seq<Row>, f: Filter, a: seq<Row>, b: seq<Row>, page: nat, perPage: nat)
    requires Answers(a, Found(rows, f)) && Answers(b, Found(rows, f)) && page >= 1
    requires !Straddles(a, perPage, page - 1) && !Straddles(a, perPage, page)
    ensures multiset(ListEvents(rows, f, a, page, perPage).0) == multiset(ListEvents(rows, f, b, page, perPage).0)
  {
    hide Straddles, Page, Found;
    SameSlice(a, b, page, perPage);
  }

  lemma {:induction false} CleanBrowse(answers: nat -> seq<Row>, answer: seq<Row>, n: nat, perPage: nat)
    requires NewestFirst(answer) && forall k :: !Straddles(answer, perPage, k)
    requires forall p :: multiset(answers(p)) == multiset(answer) && NewestFirst(answers(p))
    ensures multiset(Browse(answers, n, perPage)) == multiset(answer[..End(|answer|, n, perPage)])
  {
    hide NewestFirst, Straddles, Page, End;
    EndsAtZero(|answer|, perPage);
    if n > 0 {
      CleanBrowse(answers, answer, n - 1, perPage);
      SameSlice(answer, answers(n), n, perPage);
      PageIsBetween(answer, n, perPage);
      Cut(answer, End(|answer|, n - 1, perPage), End(|answer|, n, perPage));
    }
  }

  lemma {:induction false} BrowseLength(answers: nat -> seq<Row>, total: nat, n: nat, perPage: nat)
    requires forall p :: |answers(p)| == total
    ensures |Browse(answers, n, perPage)| == End(total, n, perPage)
  {
    hide Page, End;
    EndsAtZero(total, perPage);
    if n > 0 {
      BrowseLength(answers, total, n - 1, perPage);
      PageIsBetween(answers(n), n, perPage);
    }
  }

  /** Where to find position `j` when browsing. */
  lemma {:induction false} BrowseAt(answers: nat -> seq<Row>, total: nat, n: nat, perPage: nat, page: nat, j: nat)
    requires forall p :: |answers(p)| == total
    requires 1 <= page <= n && End(total, page - 1, perPage) <= j < End(total, page, perPage)
    ensures j < |Browse(answers, n, perPage)| && Browse(answers, n, perPage)[j] == answers(page)[j]
  {
    hide Page, End;
    BrowseLength(answers, total, n - 1, perPage);
    PageIsBetween(answers(n), n, perPage);
    if page < n {
      BrowseAt(answers, total, n - 1, perPage, page, j);
    }
  }

  lemma {:induction false} DistinctOnce(rows: seq<Row>, x: Row)
    requires Distinct(rows)
    ensures multiset(rows)[x] <= 1
  {
    if rows != [] {
      DistinctOnce(rows[1..], x);
      assert rows == [rows[0]] + rows[1..];
    }
  }

  /** The same answer with two neighbours of equal timestamp exchanged. */
  function Swapped(answer: seq<Row>, i: nat): seq<Row>
    requires 0 < i < |answer|
  {
    answer[i - 1 := answer[i]][i := answer[i - 1]]
  }

  lemma SwapAnswers(answer: seq<Row>, found: seq<Row>, i: nat)
    requires Answers(answer, found) && 0 < i < |answer| && At(answer[i - 1]) == At(answer[i])
    ensures Answers(Swapped(answer, i), found)
  {}

  /** A tie across a boundary lets one row appear on both pages, and another on none. */
  lemma StraddlingBreaks(answer: seq<Row>, found: seq<Row>, perPage: nat, k: nat) returns (answers: nat -> seq<Row>)
    requires perPage >= 1 && Answers(answer, found) && Distinct(found) && Straddles(answer, perPage, k)
    ensures ServedBy(answers, found)
    ensures multiset(Browse(answers, TotalPages(|found|, perPage), perPage)) != multiset(found)
  {
    hide NewestFirst, Browse, End, Straddles;
    var i := k * perPage;
    BoundaryInside(answer, perPage, k);
    SwapAnswers(answer, found, i);
    var other := Swapped(answer, i);
    answers := p => if p == k + 1 then other else answer;
    InMultiset(answer, found);
    var n := TotalPages(|found|, perPage);
    var browsed := Browse(answers, n, perPage);
    BrowseAt(answers, |found|, n, perPage, k, i - 1);
    BrowseAt(answers, |found|, n, perPage, k + 1, i);
    assert browsed[i - 1] == answer[i - 1] == browsed[i];
    OccursTwice(browsed, i - 1, i);
    DistinctOnce(found, browsed[i]);
  }

  lemma BoundaryInside(answer: seq<Row>, perPage: nat, k: nat)
    requires perPage >= 1 && Straddles(answer, perPage, k)
    ensures 0 < k * perPage < |answer| && At(answer[k * perPage - 1]) == At(answer[k * perPage])
    ensures 1 <= k < TotalPages(|answer|, perPage)
    ensures End(|answer|, k - 1, perPage) < End(|answer|, k, perPage) == k * perPage < End(|answer|, k + 1, perPage)
  {
    var n := TotalPages(|answer|, perPage);
    EnoughPages(|answer|, perPage);
    if k >= n {
      Times(n, k, perPage);
    }
    assert (k - 1) * perPage + perPage == k * perPage && k * perPage + perPage == (k + 1) * perPage;
  }

  /** Browsing all pages shows every matching row once, whatever order each request answers in. */
  ghost predicate AlwaysComplete(rows: seq<Row>, f: Filter, perPage: nat)
    requires perPage >= 1
  {
    forall answers | ServedBy(answers, Found(rows, f)) ::
      multiset(Shown(rows, f, answers, TotalPages(|Found(rows, f)|, perPage), perPage)) == multiset(Found(rows, f))
  }

  /** This is guaranteed exactly when no two rows with the same timestamp straddle a page boundary. */
  lemma CompleteIffNoStraddle(rows: seq<Row>, f: Filter, answer: seq<Row>, perPage: nat)
    requires perPage >= 1 && Answers(answer, Found(rows, f)) && Distinct(Found(rows, f))
    ensures AlwaysComplete(rows, f, perPage) <==> forall k :: !Straddles(answer, perPage, k)
  {
    hide Found, Page, Browse, Shown, Straddles;
    var found := Found(rows, f);
    var n := TotalPages(|found|, perPage);
    InMultiset(answer, found);
    EnoughPages(|found|, perPage);
    assert answer[..End(|answer|, n, perPage)] == answer;
    if k :| Straddles(answer, perPage, k) {
      var answers := StraddlingBreaks(answer, found, perPage, k);
      ShownIsBrowse(rows, f, answers, n, perPage);
    } else {
      forall answers | ServedBy(answers, found)
        ensures multiset(Shown(rows, f, answers, n, perPage)) == multiset(found)
      {
        CleanBrowse(answers, answer, n, perPage);
        ShownIsBrowse(rows, f, answers, n, perPage);
      }
    }
  }
}
