/**
  Fetching log lines page by page (fetch_log_lines in scripts/kafka-recopy-analysis.py). The server answers
  a query with the earliest entries of the window, at most `limit` of them, split over streams in any way.
  An entry with timestamp t is in the window from `start` to `end` when start <= t < end.
*/
module LogPagination {
  import opened Basics

  datatype Entry = Entry(ts: int, line: string)

  predicate Sorted(s: seq<Entry>) {
    forall i, j :: 0 <= i < j < |s| ==> s[i].ts <= s[j].ts
  }

  function Within(start: int, end: int): Entry -> bool {
    (e: Entry) => start <= e.ts < end
  }

  function After(ts: int): Entry -> bool {
    (e: Entry) => e.ts > ts
  }

  function At(ts: int): Entry -> bool {
    (e: Entry) => e.ts == ts
  }

  function Window(store: seq<Entry>, start: int, end: int): seq<Entry> {
    Filter(store, Within(start, end))
  }

  function Page(store: seq<Entry>, start: int, end: int, limit: nat): seq<Entry> {
    var w := Window(store, start, end);
    if |w| <= limit then w else w[..limit]
  }

  function Latest(page: seq<Entry>): int
    requires page != []
  {
    page[|page| - 1].ts
  }

  /** All entries the loop yields. */
  function Fetch(store: seq<Entry>, start: int, end: int, limit: nat): (r: seq<Entry>)
    requires Sorted(store)
    decreases end - start
  {
    var page := Page(store, start, end, limit);
    PageWithin(store, start, end, limit);
    if page == [] then [] else page + Fetch(store, Latest(page) + 1, end, limit)
  }

  /** What comes after the page that the server returns for `start`. */
  function Behind(store: seq<Entry>, start: int, end: int, limit: nat): seq<Entry> {
    Window(store, start, end)[|Page(store, start, end, limit)|..]
  }

  /** The entries that the loop skips: those behind a page with the timestamp of the page's last entry. */
  function Skipped(store: seq<Entry>, start: int, end: int, limit: nat): seq<Entry>
    requires Sorted(store)
    decreases end - start
  {
    var page := Page(store, start, end, limit);
    PageWithin(store, start, end, limit);
    if page == [] then Window(store, start, end)
    else Filter(Behind(store, start, end, limit), At(Latest(page))) + Skipped(store, Latest(page) + 1, end, limit)
  }

  /** No page of the run ends inside a group of entries with equal timestamps. */
  predicate NoGroupCut(store: seq<Entry>, start: int, end: int, limit: nat)
    requires Sorted(store)
    decreases end - start
  {
    var page, behind := Page(store, start, end, limit), Behind(store, start, end, limit);
    PageWithin(store, start, end, limit);
    if page == [] then behind == []
    else (behind == [] || behind[0].ts != Latest(page)) && NoGroupCut(store, Latest(page) + 1, end, limit)
  }

  lemma {:induction false} FilterSorted(s: seq<Entry>, keep: Entry -> bool)
    requires Sorted(s)
    ensures Sorted(Filter(s, keep))
  {
    if s != [] {
      var front, last := s[..|s| - 1], s[|s| - 1];
      FilterSorted(front, keep);
      FilterMembers(front, keep);
      forall e | e in Filter(front, keep)
        ensures e.ts <= last.ts
      {
        var i :| 0 <= i < |front| && front[i] == e;
        assert s[i] == e;
      }
    }
  }

  lemma WindowWithin(store: seq<Entry>, start: int, end: int)
    requires Sorted(store)
    ensures Sorted(Window(store, start, end))
    ensures forall e :: e in Window(store, start, end) ==> start <= e.ts < end
  {
    FilterSorted(store, Within(start, end));
    FilterMembers(store, Within(start, end));
  }

  /** A page is sorted, within the window, and ends before what is behind it. */
  lemma PageWithin(store: seq<Entry>, start: int, end: int, limit: nat)
    requires Sorted(store)
    ensures var page, behind := Page(store, start, end, limit), Behind(store, start, end, limit);
            && Window(store, start, end) == page + behind
            && Sorted(page) && Sorted(behind)
            && (forall e :: e in page ==> start <= e.ts < end && e.ts <= Latest(page))
            && (page != [] ==> start <= Latest(page) < end)
            && (page != [] ==> forall e :: e in behind ==> Latest(page) <= e.ts < end)
  {
    WindowWithin(store, start, end);
    hide Window;
    var w, page := Window(store, start, end), Page(store, start, end, limit);
    assert w == page + Behind(store, start, end, limit);
  }

  /** The next window is what is behind the page, without the rest of the group at its end. */
  lemma NextWindow(store: seq<Entry>, start: int, end: int, limit: nat)
    requires Sorted(store) && Page(store, start, end, limit) != []
    ensures var ts := Latest(Page(store, start, end, limit));
            Window(store, ts + 1, end) == Filter(Behind(store, start, end, limit), After(ts))
  {
    PageWithin(store, start, end, limit);
    var page, behind := Page(store, start, end, limit), Behind(store, start, end, limit);
    var ts := Latest(page);
    FilterBoth(store, Within(start, end), After(ts), Within(ts + 1, end));
    FilterAppend(page, behind, After(ts));
    FilterNone(page, After(ts));
  }

  lemma {:induction false} FilterSplits(s: seq<Entry>, ts: int)
    requires forall e :: e in s ==> e.ts >= ts
    ensures multiset(s) == multiset(Filter(s, At(ts))) + multiset(Filter(s, After(ts)))
  {
    if s != [] {
      assert s == s[..|s| - 1] + [s[|s| - 1]];
      FilterSplits(s[..|s| - 1], ts);
    }
  }

  /** One round of the loop. */
  lemma Round(store: seq<Entry>, start: int, end: int, limit: nat)
    requires Sorted(store)
    ensures var page, behind := Page(store, start, end, limit), Behind(store, start, end, limit);
            && Window(store, start, end) == page + behind
            && (if page == [] then
                  && Fetch(store, start, end, limit) == []
                  && Skipped(store, start, end, limit) == behind
                  && (NoGroupCut(store, start, end, limit) <==> behind == [])
                else
                  var ts := Latest(page);
                  && start <= ts < end
                  && Fetch(store, start, end, limit) == page + Fetch(store, ts + 1, end, limit)
                  && Skipped(store, start, end, limit) == Filter(behind, At(ts)) + Skipped(store, ts + 1, end, limit)
                  && (NoGroupCut(store, start, end, limit) <==>
                        (behind == [] || behind[0].ts != ts) && NoGroupCut(store, ts + 1, end, limit))
                  && Window(store, ts + 1, end) == Filter(behind, After(ts))
                  && forall e :: e in behind ==> ts <= behind[0].ts <= e.ts)
  {
    PageWithin(store, start, end, limit);
    hide Window, Filter, Behind, Page;
    if Page(store, start, end, limit) != [] {
      NextWindow(store, start, end, limit);
    }
  }

  /** The timestamps at which a page of the run ends inside a group. */
  function CutTimes(store: seq<Entry>, start: int, end: int, limit: nat): set<int>
    requires Sorted(store)
    decreases end - start
  {
    var page, behind := Page(store, start, end, limit), Behind(store, start, end, limit);
    PageWithin(store, start, end, limit);
    if page == [] then {}
    else
      (if behind != [] && behind[0].ts == Latest(page) then {Latest(page)} else {})
      + CutTimes(store, Latest(page) + 1, end, limit)
  }

  /** The skipped entries are at the cuts: each at one, and for each cut there is one. */
  lemma {:induction false} SkippedAtCuts(store: seq<Entry>, start: int, end: int, limit: nat)
    requires Sorted(store) && limit > 0
    ensures (set e | e in Skipped(store, start, end, limit) :: e.ts) == CutTimes(store, start, end, limit)
    decreases end - start
  {
    hide Fetch, NoGroupCut, Page, Window, Behind, Filter, Latest, Sorted;
    Round(store, start, end, limit);
    var page, behind := Page(store, start, end, limit), Behind(store, start, end, limit);
    if page == [] {
      LimitLeavesNothing(store, start, end, limit);
    } else {
      var ts := Latest(page);
      SkippedAtCuts(store, ts + 1, end, limit);
      CutGroup(behind, ts);
      GroupTimes(behind, ts);
    }
  }

  /** Only a limit of zero returns nothing of a window that has something in it. */
  lemma LimitLeavesNothing(store: seq<Entry>, start: int, end: int, limit: nat)
    requires limit > 0 && Page(store, start, end, limit) == []
    ensures Behind(store, start, end, limit) == []
  {
  }

  lemma GroupTimes(behind: seq<Entry>, ts: int)
    ensures forall e :: e in Filter(behind, At(ts)) ==> e.ts == ts
    ensures Filter(behind, At(ts)) != [] ==> Filter(behind, At(ts))[0] in Filter(behind, At(ts))
  {
    FilterMembers(behind, At(ts));
  }

  /** Two entries with the same timestamp and a limit of one: the second is never yielded. */
  lemma CutExample(one: string, two: string)
    ensures var store := [Entry(0, one), Entry(0, two)];
            Sorted(store) && !NoGroupCut(store, 0, 1, 1) && Fetch(store, 0, 1, 1) == [Entry(0, one)]
  {
    var store := [Entry(0, one), Entry(0, two)];
    hide Fetch, Skipped, NoGroupCut, Page, Window, Behind, Filter;
    CutPages(one, two);
    Round(store, 0, 1, 1);
    Round(store, 1, 1, 1);
  }

  lemma CutPages(one: string, two: string)
    ensures var store := [Entry(0, one), Entry(0, two)];
            && Page(store, 0, 1, 1) == [Entry(0, one)] && Behind(store, 0, 1, 1) == [Entry(0, two)]
            && Page(store, 1, 1, 1) == []
  {
    var store := [Entry(0, one), Entry(0, two)];
    hide Filter;
    FilterAll(store, Within(0, 1));
    FilterNone(store, Within(1, 1));
  }

  /** Every entry of the window is yielded or skipped, exactly once. */
  lemma {:induction false} YieldedOrSkipped(store: seq<Entry>, start: int, end: int, limit: nat)
    requires Sorted(store)
    ensures multiset(Fetch(store, start, end, limit)) + multiset(Skipped(store, start, end, limit))
            == multiset(Window(store, start, end))
    decreases end - start
  {
    hide *;
    Round(store, start, end, limit);
    var page, behind := Page(store, start, end, limit), Behind(store, start, end, limit);
    if page != [] {
      var ts := Latest(page);
      YieldedOrSkipped(store, ts + 1, end, limit);
      FilterSplits(behind, ts);
    }
  }

  lemma {:induction false} SkippedNoneIff(store: seq<Entry>, start: int, end: int, limit: nat)
    requires Sorted(store)
    ensures Skipped(store, start, end, limit) == [] <==> NoGroupCut(store, start, end, limit)
    decreases end - start
  {
    hide Fetch, Skipped, NoGroupCut, Page, Window, Behind, Filter, Latest, Sorted;
    Round(store, start, end, limit);
    var page, behind := Page(store, start, end, limit), Behind(store, start, end, limit);
    if page != [] {
      SkippedNoneIff(store, Latest(page) + 1, end, limit);
      CutGroup(behind, Latest(page));
    }
  }

  lemma CutGroup(behind: seq<Entry>, ts: int)
    requires forall e :: e in behind ==> ts <= behind[0].ts <= e.ts
    ensures Filter(behind, At(ts)) == [] <==> behind == [] || behind[0].ts != ts
  {
    if behind != [] && behind[0].ts == ts {
      FilterMembers(behind, At(ts));
      assert behind[0] in Filter(behind, At(ts));
    } else {
      FilterNone(behind, At(ts));
    }
  }

  /** No entry is yielded twice, and all of the window is yielded exactly when no page cuts a group. */
  lemma FetchIsCompleteIff(store: seq<Entry>, start: int, end: int, limit: nat)
    requires Sorted(store)
    ensures multiset(Fetch(store, start, end, limit)) <= multiset(Window(store, start, end))
    ensures multiset(Fetch(store, start, end, limit)) == multiset(Window(store, start, end))
            <==> NoGroupCut(store, start, end, limit)
  {
    YieldedOrSkipped(store, start, end, limit);
    SkippedNoneIff(store, start, end, limit);
    var f, s := multiset(Fetch(store, start, end, limit)), multiset(Skipped(store, start, end, limit));
    assert |f + s| == |f| + |s|;
  }

  lemma DistinctIsNotCut(store: seq<Entry>, start: int, end: int, limit: nat)
    requires DistinctBy(store, TimeOf) && limit > 0
    ensures var page, behind := Page(store, start, end, limit), Behind(store, start, end, limit);
            if page == [] then behind == [] else behind != [] ==> behind[0].ts != Latest(page)
  {
    FilterDistinct(store, Within(start, end), TimeOf);
    hide Filter;
    var w, page, behind := Window(store, start, end), Page(store, start, end, limit), Behind(store, start, end, limit);
    if page != [] && behind != [] {
      assert TimeOf(w[|page| - 1]) != TimeOf(w[|page|]);
    }
  }

  function TimeOf(e: Entry): int {
    e.ts
  }

  /** With all timestamps different nothing is cut. */
  lemma {:induction false} DistinctTimesAreComplete(store: seq<Entry>, start: int, end: int, limit: nat)
    requires Sorted(store) && DistinctBy(store, TimeOf) && limit > 0
    ensures NoGroupCut(store, start, end, limit)
    decreases end - start
  {
    hide Fetch, Skipped, NoGroupCut, Page, Window, Behind, Filter, Latest, Sorted, DistinctBy;
    Round(store, start, end, limit);
    DistinctIsNotCut(store, start, end, limit);
    var page := Page(store, start, end, limit);
    if page != [] {
      DistinctTimesAreComplete(store, Latest(page) + 1, end, limit);
    }
  }

  // ----- The loop -----

  type Streams = seq<seq<Entry>>

  function Flatten(streams: Streams): seq<Entry> {
    if streams == [] then [] else Flatten(streams[..|streams| - 1]) + streams[|streams| - 1]
  }

  /** The entries of one answer, stream by stream. */
  function Answer(server: (int, int) -> Streams, start: int, end: int): seq<Entry> {
    Flatten(server(start, end))
  }

  /** The server returns the page of every query, split over streams. */
  ghost predicate Serves(server: (int, int) -> Streams, store: seq<Entry>, limit: nat) {
    forall start, end :: multiset(Answer(server, start, end)) == multiset(Page(store, start, end, limit))
  }

  /** The largest timestamp, but no less than `start`. */
  function Maximum(entries: seq<Entry>, start: int): int {
    if entries == [] then start
    else
      var rest, e := Maximum(entries[..|entries| - 1], start), entries[|entries| - 1];
      if e.ts > rest then e.ts else rest
  }

  lemma MaximumSnoc(entries: seq<Entry>, e: Entry, start: int)
    ensures Maximum(entries + [e], start) == if e.ts > Maximum(entries, start) then e.ts else Maximum(entries, start)
  {
    assert (entries + [e])[..|entries|] == entries;
  }

  lemma {:induction false} MaximumBounds(entries: seq<Entry>, start: int)
    ensures forall e :: e in entries ==> e.ts <= Maximum(entries, start)
    ensures Maximum(entries, start) == start || exists e :: e in entries && e.ts == Maximum(entries, start)
  {
    if entries != [] {
      var front, last := entries[..|entries| - 1], entries[|entries| - 1];
      MaximumBounds(front, start);
      assert entries == front + [last];
    }
  }

  lemma MaximumIsLatest(store: seq<Entry>, start: int, end: int, limit: nat, got: seq<Entry>)
    requires Sorted(store) && multiset(got) == multiset(Page(store, start, end, limit)) && got != []
    ensures var page := Page(store, start, end, limit);
            page != [] && Maximum(got, start) == Latest(page)
  {
    var page := Page(store, start, end, limit);
    PageWithin(store, start, end, limit);
    hide Page, Window, Behind, Maximum;
    assert |multiset(got)| == |multiset(page)|;
    forall e: Entry
      ensures e in got <==> e in page
    {
      assert e in got <==> e in multiset(got);
      assert e in page <==> e in multiset(page);
    }
    MaximumBounds(got, start);
    assert page[|page| - 1] in page;
  }

  lemma EmptyPage(store: seq<Entry>, start: int, end: int, limit: nat)
    requires Sorted(store) && multiset(Page(store, start, end, limit)) == multiset([])
    ensures Fetch(store, start, end, limit) == []
  {
    hide Window, Behind;
    assert |multiset(Page(store, start, end, limit))| == 0;
  }

  lemma RoundYields(store: seq<Entry>, start: int, end: int, limit: nat, before: seq<Entry>, got: seq<Entry>)
    requires Sorted(store) && multiset(got) == multiset(Page(store, start, end, limit)) && got != []
    ensures var latest := Maximum(got, start);
            && start <= latest < end
            && multiset(before + got) + multiset(Fetch(store, latest + 1, end, limit))
               == multiset(before) + multiset(Fetch(store, start, end, limit))
  {
    hide Fetch, Skipped, NoGroupCut, Page, Window, Behind, Filter, Latest, Sorted;
    MaximumIsLatest(store, start, end, limit, got);
    Round(store, start, end, limit);
  }

  /** The window of the next query is smaller. */
  lemma NextStart(server: (int, int) -> Streams, store: seq<Entry>, start: int, end: int, limit: nat)
    requires Sorted(store) && Serves(server, store, limit) && Answer(server, start, end) != []
    ensures start <= Maximum(Answer(server, start, end), start) < end
  {
    hide Flatten, Maximum, Page, Window;
    RoundYields(store, start, end, limit, [], Answer(server, start, end));
  }

  /** The entries that the loop yields, in its order. */
  ghost function Yielded(server: (int, int) -> Streams, store: seq<Entry>, start: int, end: int, limit: nat): seq<Entry>
    requires Sorted(store) && Serves(server, store, limit)
    decreases end - start
  {
    var got := Answer(server, start, end);
    if got == [] then []
    else
      NextStart(server, store, start, end, limit);
      got + Yielded(server, store, Maximum(got, start) + 1, end, limit)
  }

  lemma YieldedUnfolds(server: (int, int) -> Streams, store: seq<Entry>, start: int, end: int, limit: nat)
    requires Sorted(store) && Serves(server, store, limit)
    ensures var got := Answer(server, start, end);
            if got == [] then Yielded(server, store, start, end, limit) == []
            else
              && start <= Maximum(got, start) < end
              && Yielded(server, store, start, end, limit)
                 == got + Yielded(server, store, Maximum(got, start) + 1, end, limit)
  {
    hide Answer, Maximum, Page, Sorted;
    if Answer(server, start, end) != [] {
      NextStart(server, store, start, end, limit);
    }
  }

  lemma ServesPage(server: (int, int) -> Streams, store: seq<Entry>, start: int, end: int, limit: nat)
    requires Serves(server, store, limit)
    ensures multiset(Answer(server, start, end)) == multiset(Page(store, start, end, limit))
  {
  }

  lemma {:induction false} YieldedIsFetch(server: (int, int) -> Streams, store: seq<Entry>, start: int, end: int,
                                          limit: nat)
    requires Sorted(store) && Serves(server, store, limit)
    ensures multiset(Yielded(server, store, start, end, limit)) == multiset(Fetch(store, start, end, limit))
    decreases end - start
  {
    hide *;
    var got := Answer(server, start, end);
    ServesPage(server, store, start, end, limit);
    YieldedUnfolds(server, store, start, end, limit);
    if got == [] {
      EmptyPage(store, start, end, limit);
    } else {
      var next := Maximum(got, start) + 1;
      RoundYields(store, start, end, limit, [], got);
      assert [] + got == got;
      YieldedIsFetch(server, store, next, end, limit);
    }
  }

  /** Within each answer of the run, taken stream by stream, the entries are in the order of time. */
  ghost predicate AnswersSorted(server: (int, int) -> Streams, store: seq<Entry>, start: int, end: int, limit: nat)
    requires Sorted(store) && Serves(server, store, limit)
    decreases end - start
  {
    var got := Answer(server, start, end);
    if got == [] then true
    else
      NextStart(server, store, start, end, limit);
      Sorted(got) && AnswersSorted(server, store, Maximum(got, start) + 1, end, limit)
  }

  lemma LaterIsLater(server: (int, int) -> Streams, store: seq<Entry>, start: int, end: int, limit: nat)
    requires Sorted(store) && Serves(server, store, limit)
    ensures forall e :: e in Yielded(server, store, start, end, limit) ==> start <= e.ts < end
  {
    YieldedIsFetch(server, store, start, end, limit);
    YieldedOrSkipped(store, start, end, limit);
    WindowWithin(store, start, end);
    hide Yielded, Fetch, Skipped, Window, Serves;
    forall e | e in Yielded(server, store, start, end, limit)
      ensures e in Window(store, start, end)
    {
      assert e in multiset(Yielded(server, store, start, end, limit));
      assert e in multiset(Window(store, start, end));
    }
  }

  predicate Precedes(a: seq<Entry>, b: seq<Entry>) {
    forall x, y :: x in a && y in b ==> x.ts <= y.ts
  }

  lemma PagePrecedes(server: (int, int) -> Streams, store: seq<Entry>, start: int, next: int, end: int, limit: nat,
                     got: seq<Entry>)
    requires Sorted(store) && Serves(server, store, limit) && next > Maximum(got, start)
    ensures Precedes(got, Yielded(server, store, next, end, limit))
  {
    LaterIsLater(server, store, next, end, limit);
    MaximumBounds(got, start);
    hide Yielded, Serves, Maximum, Sorted;
  }

  lemma SortedParts(a: seq<Entry>, b: seq<Entry>)
    requires Precedes(a, b)
    ensures Sorted(a + b) <==> Sorted(a) && Sorted(b)
  {
    if Sorted(a + b) {
      assert forall i :: 0 <= i < |a| ==> a[i] == (a + b)[i];
      assert forall i :: 0 <= i < |b| ==> b[i] == (a + b)[|a| + i];
    }
  }

  /** Pages follow each other in time, so all lines come in order exactly if those of each answer do. */
  lemma {:induction false} YieldedSortedIff(server: (int, int) -> Streams, store: seq<Entry>, start: int, end: int,
                                            limit: nat)
    requires Sorted(store) && Serves(server, store, limit)
    ensures Sorted(Yielded(server, store, start, end, limit)) <==> AnswersSorted(server, store, start, end, limit)
    decreases end - start
  {
    hide *;
    var got := Answer(server, start, end);
    YieldedUnfolds(server, store, start, end, limit);
    AnswersUnfold(server, store, start, end, limit);
    if got == [] {
      SortedNothing();
    } else {
      var next := Maximum(got, start) + 1;
      YieldedSortedIff(server, store, next, end, limit);
      PagePrecedes(server, store, start, next, end, limit, got);
      SortedParts(got, Yielded(server, store, next, end, limit));
    }
  }

  lemma AnswersUnfold(server: (int, int) -> Streams, store: seq<Entry>, start: int, end: int, limit: nat)
    requires Sorted(store) && Serves(server, store, limit)
    ensures var got := Answer(server, start, end);
            if got == [] then AnswersSorted(server, store, start, end, limit)
            else
              && start <= Maximum(got, start) < end
              && (AnswersSorted(server, store, start, end, limit)
                  <==> Sorted(got) && AnswersSorted(server, store, Maximum(got, start) + 1, end, limit))
  {
    hide Answer, Maximum, Page, Sorted;
    if Answer(server, start, end) != [] {
      NextStart(server, store, start, end, limit);
    }
  }

  lemma SortedNothing()
    ensures Sorted([])
  {
  }

  /** What the loop over the streams has got: all of the streams before `i` and the first `j` values of stream i. */
  function Got(result: Streams, i: nat, j: nat): seq<Entry>
    requires i <= |result| && (if i == |result| then j == 0 else j <= |result[i]|)
  {
    Flatten(result[..i]) + if i == |result| then [] else result[i][..j]
  }

  lemma GotNext(result: Streams, i: nat, before: seq<Entry>)
    requires i < |result|
    ensures Got(result, i, |result[i]|) == Got(result, i + 1, 0)
    ensures forall j :: 0 <= j < |result[i]| ==> Got(result, i, j + 1) == Got(result, i, j) + [result[i][j]]
    ensures forall j :: 0 <= j < |result[i]| ==>
              before + Got(result, i, j + 1) == before + Got(result, i, j) + [result[i][j]]
  {
    assert result[..i + 1][..i] == result[..i];
  }

  method FetchLogLines(server: (int, int) -> Streams, startNs: int, endNs: int,
                       ghost store: seq<Entry>, ghost limit: nat)
    returns (lines: seq<Entry>)
    requires Sorted(store) && Serves(server, store, limit)
    ensures lines == Yielded(server, store, startNs, endNs, limit)
  {
    hide Serves, Yielded, Page, Window, Sorted, Answer, Got, Maximum, Flatten;
    lines := [];
    var currentStart := startNs;
    while true
      invariant lines + Yielded(server, store, currentStart, endNs, limit)
                == Yielded(server, store, startNs, endNs, limit)
      decreases endNs - currentStart
    {
      var result := server(currentStart, endNs);
      YieldedRound(server, store, currentStart, endNs, limit, lines);
      if result == [] {
        break;
      }

      var count, latest := 0, currentStart;
      ghost var before := lines;
      GotNothing(result, currentStart);
      for i := 0 to |result|
        invariant lines == before + Got(result, i, 0)
        invariant count == |Got(result, i, 0)| && latest == Maximum(Got(result, i, 0), currentStart)
      {
        var values := result[i];
        GotNext(result, i, before);
        for j := 0 to |values|
          invariant lines == before + Got(result, i, j)
          invariant count == |Got(result, i, j)| && latest == Maximum(Got(result, i, j), currentStart)
        {
          MaximumSnoc(Got(result, i, j), values[j], currentStart);
          if values[j].ts > latest {
            latest := values[j].ts;
          }
          count := count + 1;
          lines := lines + [values[j]];
        }
      }
      GotAll(server, currentStart, endNs);
      if count == 0 {
        break;
      }
      currentStart := latest + 1;
    }
  }

  lemma YieldedRound(server: (int, int) -> Streams, store: seq<Entry>, start: int, end: int, limit: nat,
                     before: seq<Entry>)
    requires Sorted(store) && Serves(server, store, limit)
    ensures var got := Answer(server, start, end);
            && (server(start, end) == [] ==> got == [])
            && (got == [] ==> Yielded(server, store, start, end, limit) == [])
            && (got != [] ==>
                  && start <= Maximum(got, start) < end
                  && before + Yielded(server, store, start, end, limit)
                     == before + got + Yielded(server, store, Maximum(got, start) + 1, end, limit))
  {
    YieldedUnfolds(server, store, start, end, limit);
    hide Yielded, Serves, Maximum, Sorted, Page;
  }

  lemma GotNothing(result: Streams, start: int)
    ensures Got(result, 0, 0) == [] && Maximum([], start) == start
  {
  }

  lemma GotAll(server: (int, int) -> Streams, start: int, end: int)
    ensures var result := server(start, end); Got(result, |result|, 0) == Answer(server, start, end)
  {
    var result := server(start, end);
    assert result[..|result|] == result;
  }
}
