/** History paging of a conversation: `messages_for` with a `before` anchor, and the cursor the
    view hands out. */
module Paging {
  import opened Options

  datatype Msg = Msg(id: nat, created: int)

  /** The display order: creation time, then id. */
  predicate Before(a: Msg, b: Msg) {
    a.created < b.created || (a.created == b.created && a.id < b.id)
  }

  /** The messages the reader holds a key for, oldest first. */
  ghost predicate IsLog(log: seq<Msg>) {
    && (forall i, j :: 0 <= i < j < |log| ==> Before(log[i], log[j]))
    && (forall i, j :: 0 <= i < j < |log| ==> log[i].id != log[j].id)
  }

  /** How many messages of the log come before `anchor`. */
  function Older(log: seq<Msg>, anchor: Msg): (n: nat)
    requires IsLog(log)
    ensures n <= |log|
    ensures forall i :: 0 <= i < |log| ==> (i < n <==> Before(log[i], anchor))
  {
    if log == [] then 0
    else if Before(log[|log| - 1], anchor) then |log|
    else Older(log[..|log| - 1], anchor)
  }

  /** The anchor a `before` id names; None if there is no such message (any more). */
  function Resolve(log: seq<Msg>, id: Option<nat>): Option<Msg> {
    if id.None? || log == [] then None
    else if log[|log| - 1].id == id.value then Some(log[|log| - 1])
    else Resolve(log[..|log| - 1], id)
  }

  /** The newest `limit` messages before the anchor; a missing anchor filters nothing. */
  method MessagesFor(log: seq<Msg>, anchor: Option<Msg>, limit: nat) returns (msgs: seq<Msg>)
    requires IsLog(log)
    ensures var n := if anchor.Some? then Older(log, anchor.value) else |log|;
            msgs == log[if n < limit then 0 else n - limit..n]
  {
    // The query is newest first; the page is collected in that order and then reversed.
    var n := if anchor.Some? then Older(log, anchor.value) else |log|;
    msgs := [];
    var i := n;
    while i > 0 && |msgs| < limit
      invariant 0 <= i <= n && |msgs| == n - i && |msgs| <= limit
      invariant msgs == log[i..n]
    {
      i := i - 1;
      msgs := [log[i]] + msgs;
    }
  }

  datatype Page = Page(msgs: seq<Msg>, cursor: Option<nat>)

  /** What a page must be: the newest `limit` messages before `anchor`, and a cursor naming the
      oldest of them exactly when older messages remain. */
  ghost function PageBefore(log: seq<Msg>, anchor: Option<Msg>, limit: nat): Page
    requires IsLog(log) && limit >= 1
  {
    var n := if anchor.Some? then Older(log, anchor.value) else |log|;
    if n > limit then Page(log[n - limit..n], Some(log[n - limit].id)) else Page(log[..n], None)
  }

  /** The view: fetch one extra message, drop it, and let the oldest kept one be the cursor. */
  method GetPage(log: seq<Msg>, anchor: Option<Msg>, limit: nat) returns (page: Page)
    requires IsLog(log) && limit >= 1
    ensures page == PageBefore(log, anchor, limit)
  {
    var msgs := MessagesFor(log, anchor, limit + 1);
    var cursor: Option<nat> := None;
    if |msgs| > limit {
      msgs := msgs[1..];
      cursor := if msgs != [] then Some(msgs[0].id) else None;
    }
    page := Page(msgs, cursor);
  }

  // ----- Following the cursor -----

  /** The pages a client collects, newest first, when the log at the k-th request is `logs[k]`. */
  ghost function Walk(logs: seq<seq<Msg>>, cursor: Option<nat>, limit: nat): seq<seq<Msg>>
    requires limit >= 1 && forall k :: 0 <= k < |logs| ==> IsLog(logs[k])
    decreases |logs|
  {
    if logs == [] then []
    else
      var page := PageBefore(logs[0], Resolve(logs[0], cursor), limit);
      [page.msgs] + if page.cursor.None? then [] else Walk(logs[1..], page.cursor, limit)
  }

  /** Pages, newest first, put back in reading order. */
  function ReadingOrder(pages: seq<seq<Msg>>): seq<Msg> {
    if pages == [] then [] else ReadingOrder(pages[1..]) + pages[0]
  }

  /** How many pages `n` messages fill; an empty history still answers with one page. */
  function Pages(n: nat, limit: nat): nat
    requires limit >= 1
  {
    if n <= limit then 1 else 1 + Pages(n - limit, limit)
  }

  lemma {:induction false} PagesIsCeiling(n: nat, limit: nat)
    requires limit >= 1
    ensures n <= Pages(n, limit) * limit
    ensures n > 0 ==> (Pages(n, limit) - 1) * limit < n
  {
    if n > limit {
      PagesIsCeiling(n - limit, limit);
      var p := Pages(n - limit, limit);
      assert (p + 1) * limit == p * limit + limit;
      assert p * limit == (p - 1) * limit + limit;
    }
  }

  lemma OlderAtIndex(log: seq<Msg>, n: nat)
    requires IsLog(log) && n < |log|
    ensures Older(log, log[n]) == n
  {
    assert !Before(log[n], log[n]);
    assert forall i :: 0 <= i < n ==> Before(log[i], log[n]);
  }

  lemma {:induction false} ResolveFinds(log: seq<Msg>, n: nat)
    requires IsLog(log) && n < |log|
    ensures Resolve(log, Some(log[n].id)) == Some(log[n])
    decreases |log|
  {
    if n < |log| - 1 {
      ResolveFinds(log[..|log| - 1], n);
    }
  }

  /** The cursor that stands for "before `first[n]`", none for the newest page. */
  function CursorAt(first: seq<Msg>, n: nat): Option<nat>
    requires n <= |first|
  {
    if n == |first| then None else Some(first[n].id)
  }

  lemma PageAt(first: seq<Msg>, log: seq<Msg>, n: nat, limit: nat)
    requires limit >= 1 && n <= |first| && IsLog(log) && first <= log && (n == |first| ==> log == first)
    ensures PageBefore(log, Resolve(log, CursorAt(first, n)), limit)
         == if n > limit then Page(first[n - limit..n], Some(first[n - limit].id)) else Page(first[..n], None)
  {
    if n < |first| {
      assert log[n] == first[n];
      ResolveFinds(log, n);
      OlderAtIndex(log, n);
    }
    if n > limit {
      assert log[n - limit] == first[n - limit];
      assert log[n - limit..n] == first[n - limit..n];
    }
    assert log[..n] == first[..n];
  }

  /** Every log extends the first one at its older end unchanged. */
  ghost predicate Extend(logs: seq<seq<Msg>>, first: seq<Msg>) {
    forall k :: 0 <= k < |logs| ==> IsLog(logs[k]) && first <= logs[k]
  }

  /** One request of the walk, and the rest. */
  lemma WalkTurn(logs: seq<seq<Msg>>, first: seq<Msg>, n: nat, limit: nat)
    requires limit >= 1 && n <= |first| && logs != [] && Extend(logs, first) && (n == |first| ==> logs[0] == first)
    ensures Extend(logs[1..], first)
    ensures Walk(logs, CursorAt(first, n), limit)
         == if n > limit then [first[n - limit..n]] + Walk(logs[1..], CursorAt(first, n - limit), limit)
            else [first[..n]]
  {
    PageAt(first, logs[0], n, limit);
    assert forall k :: 0 <= k < |logs[1..]| ==> logs[1..][k] == logs[k + 1];
  }

  lemma Read(page: seq<Msg>, rest: seq<seq<Msg>>)
    ensures ReadingOrder([page] + rest) == ReadingOrder(rest) + page
  {
    assert ([page] + rest)[1..] == rest;
  }

  /** The first `n` messages cut into pages, newest page first. */
  function PagesOf(first: seq<Msg>, n: nat, limit: nat): seq<seq<Msg>>
    requires limit >= 1 && n <= |first|
    decreases n
  {
    if n > limit then [first[n - limit..n]] + PagesOf(first, n - limit, limit) else [first[..n]]
  }

  lemma {:induction false} PagesRead(first: seq<Msg>, n: nat, limit: nat)
    requires limit >= 1 && n <= |first|
    ensures ReadingOrder(PagesOf(first, n, limit)) == first[..n] && |PagesOf(first, n, limit)| == Pages(n, limit)
    decreases n
  {
    if n > limit {
      PagesRead(first, n - limit, limit);
      Read(first[n - limit..n], PagesOf(first, n - limit, limit));
      assert first[..n] == first[..n - limit] + first[n - limit..n];
    } else {
      assert [first[..n]] == [first[..n]] + [];
      Read(first[..n], []);
    }
  }

  /** With enough requests the pages are exactly the messages before the cursor, each once and in
      order, whatever newer messages arrive between the requests. */
  lemma {:induction false} WalkCollects(logs: seq<seq<Msg>>, first: seq<Msg>, n: nat, limit: nat)
    requires limit >= 1 && n <= |first| && |logs| >= Pages(n, limit)
    requires Extend(logs, first) && (n == |first| ==> logs[0] == first)
    ensures Walk(logs, CursorAt(first, n), limit) == PagesOf(first, n, limit)
    decreases |logs|
  {
    WalkTurn(logs, first, n, limit);
    if n > limit {
      WalkCollects(logs[1..], first, n - limit, limit);
    }
  }

  /** From the newest page on, the walk visits every readable message exactly once, ascending in
      (created, id), in as many pages as the history fills. */
  lemma CursorWalkVisitsAll(logs: seq<seq<Msg>>, limit: nat)
    requires limit >= 1 && logs != [] && |logs| >= Pages(|logs[0]|, limit)
    requires forall k :: 0 <= k < |logs| ==> IsLog(logs[k]) && logs[0] <= logs[k]
    ensures ReadingOrder(Walk(logs, None, limit)) == logs[0]
    ensures |Walk(logs, None, limit)| == Pages(|logs[0]|, limit)
  {
    WalkCollects(logs, logs[0], |logs[0]|, limit);
    PagesRead(logs[0], |logs[0]|, limit);
    assert logs[0][..|logs[0]|] == logs[0];
  }

  // ----- Purges and late arrivals -----

  /** Each cursor handed out names a message that is still there at the next request, and the walk ends. */
  ghost predicate Followed(logs: seq<seq<Msg>>, anchor: Option<Msg>, limit: nat)
    requires limit >= 1 && forall k :: 0 <= k < |logs| ==> IsLog(logs[k])
    decreases |logs|
  {
    && logs != []
    && var page := PageBefore(logs[0], anchor, limit);
       page.cursor.None? || (|logs| > 1 && page.msgs[0] in logs[1] && Followed(logs[1..], Some(page.msgs[0]), limit))
  }

  /** By creation time, and by id among those created at once. */
  ghost predicate Ascending(msgs: seq<Msg>) {
    forall i, j :: 0 <= i < j < |msgs| ==>
      msgs[i].created <= msgs[j].created && (msgs[i].created == msgs[j].created ==> msgs[i].id < msgs[j].id)
  }

  ghost predicate Precedes(m: Msg, anchor: Option<Msg>) {
    anchor.Some? ==> Before(m, anchor.value)
  }

  ghost predicate InAll(m: Msg, logs: seq<seq<Msg>>) {
    forall k :: 0 <= k < |logs| ==> m in logs[k]
  }

  /** A page is a slice that ends where the anchor's predecessors end, and starts the log unless a
      cursor names its first message. */
  lemma PageIsSlice(log: seq<Msg>, anchor: Option<Msg>, limit: nat) returns (from: nat, n: nat)
    requires IsLog(log) && limit >= 1
    ensures from <= n <= |log| && PageBefore(log, anchor, limit).msgs == log[from..n]
    ensures forall i :: 0 <= i < |log| ==> (i < n <==> Precedes(log[i], anchor))
    ensures var cursor := PageBefore(log, anchor, limit).cursor;
            if cursor.Some? then from < n && cursor == Some(log[from].id) else from == 0
  {
    n := if anchor.Some? then Older(log, anchor.value) else |log|;
    from := if n > limit then n - limit else 0;
  }

  lemma InSlice(log: seq<Msg>, from: nat, n: nat, i: nat)
    requires IsLog(log) && from <= n <= |log| && i < n
    ensures i >= from ==> log[i] in log[from..n] && log[from..n][i - from] == log[i]
    ensures i < from < n ==> Before(log[i], log[from])
  {
    assert i >= from ==> log[from..n][i - from] == log[i];
  }

  lemma OfSlice(log: seq<Msg>, from: nat, n: nat, m: Msg)
    requires IsLog(log) && from <= n <= |log|
    ensures Ascending(log[from..n])
    ensures m in log[from..n] ==> exists i :: from <= i < n && log[i] == m && (i == from || Before(log[from], m))
  {
    var page := log[from..n];
    assert forall j :: 0 <= j < |page| ==> page[j] == log[from + j];
  }

  /** What a page leaves for later: everything before it, or nothing. */
  lemma PageSplits(log: seq<Msg>, anchor: Option<Msg>, limit: nat, m: Msg)
    requires IsLog(log) && limit >= 1
    ensures var page := PageBefore(log, anchor, limit);
            && Ascending(page.msgs) && (m in page.msgs ==> m in log && Precedes(m, anchor))
            && (page.cursor.Some? ==> page.msgs != [] && page.cursor == Some(page.msgs[0].id) && page.msgs[0] in log)
            && (m in log && Precedes(m, anchor) ==> m in page.msgs || (page.cursor.Some? && Before(m, page.msgs[0])))
            && (page.cursor.Some? && m in page.msgs ==> m == page.msgs[0] || Before(page.msgs[0], m))
  {
    var from, n := PageIsSlice(log, anchor, limit);
    OfSlice(log, from, n, m);
    if m in log && Precedes(m, anchor) {
      var i :| 0 <= i < |log| && log[i] == m;
      InSlice(log, from, n, i);
    }
  }

  lemma FoundAgain(log: seq<Msg>, m: Msg)
    requires IsLog(log) && m in log
    ensures Resolve(log, Some(m.id)) == Some(m)
  {
    var i :| 0 <= i < |log| && log[i] == m;
    ResolveFinds(log, i);
  }

  lemma AscendingJoin(older: seq<Msg>, page: seq<Msg>)
    requires Ascending(older) && Ascending(page)
    requires forall x, y :: x in older && y in page ==> Before(x, y)
    ensures Ascending(older + page)
  {
    var all := older + page;
    forall i, j | 0 <= i < j < |all| ensures Before(all[i], all[j]) {
      if i < |older| <= j {
        assert all[i] in older && all[j] in page;
      }
    }
  }

  lemma BeforeAll(x: Msg, first: Msg, y: Msg)
    requires Before(x, first) && (y == first || Before(first, y))
    ensures Before(x, y)
  {
  }

  /** What the walk below `anchor` has to read back: an ascending list of messages below it, with every
      one that was there all along. */
  ghost predicate Reads(out: seq<Msg>, logs: seq<seq<Msg>>, anchor: Option<Msg>) {
    && Ascending(out)
    && (forall m :: m in out ==> Precedes(m, anchor))
    && (forall m :: InAll(m, logs) && Precedes(m, anchor) ==> m in out)
  }

  lemma RestJoins(older: seq<Msg>, page: seq<Msg>, anchor: Option<Msg>)
    requires page != [] && Ascending(older) && Ascending(page)
    requires forall x :: x in older ==> Before(x, page[0])
    requires forall y :: y in page ==> Precedes(y, anchor)
    ensures Ascending(older + page) && forall m :: m in older + page ==> Precedes(m, anchor)
  {
    forall x, y | x in older && y in page ensures Before(x, y) {
      var j :| 0 <= j < |page| && page[j] == y;
      BeforeAll(x, page[0], y);
    }
    AscendingJoin(older, page);
    forall m | m in older + page ensures Precedes(m, anchor) {
      if m in older && anchor.Some? {
        assert page[0] in page;
        BeforeAll(m, page[0], anchor.value);
      }
    }
  }

  lemma LastPage(logs: seq<seq<Msg>>, anchor: Option<Msg>, limit: nat)
    requires limit >= 1 && logs != [] && IsLog(logs[0]) && PageBefore(logs[0], anchor, limit).cursor.None?
    ensures Reads(PageBefore(logs[0], anchor, limit).msgs, logs, anchor)
  {
    var page := PageBefore(logs[0], anchor, limit);
    forall m ensures Ascending(page.msgs) && (m in page.msgs ==> Precedes(m, anchor))
      ensures InAll(m, logs) && Precedes(m, anchor) ==> m in page.msgs
    {
      PageSplits(logs[0], anchor, limit, m);
      assert InAll(m, logs) ==> m in logs[0];
    }
  }

  lemma AllAlong(m: Msg, logs: seq<seq<Msg>>)
    requires logs != [] && InAll(m, logs)
    ensures m in logs[0] && InAll(m, logs[1..])
  {
    assert forall k :: 0 <= k < |logs[1..]| ==> logs[1..][k] == logs[k + 1];
  }

  lemma OnePageMore(logs: seq<seq<Msg>>, anchor: Option<Msg>, limit: nat, older: seq<Msg>)
    requires limit >= 1 && logs != [] && IsLog(logs[0]) && PageBefore(logs[0], anchor, limit).cursor.Some?
    requires var page := PageBefore(logs[0], anchor, limit);
             page.msgs != [] && Reads(older, logs[1..], Some(page.msgs[0]))
    ensures Reads(older + PageBefore(logs[0], anchor, limit).msgs, logs, anchor)
  {
    var page := PageBefore(logs[0], anchor, limit);
    var first := page.msgs[0];
    PageSplits(logs[0], anchor, limit, first);
    forall m ensures m in page.msgs ==> Precedes(m, anchor) && (m == first || Before(first, m)) {
      PageSplits(logs[0], anchor, limit, m);
    }
    RestJoins(older, page.msgs, anchor);
    forall m | InAll(m, logs) && Precedes(m, anchor) ensures m in older + page.msgs {
      AllAlong(m, logs);
      PageSplits(logs[0], anchor, limit, m);
      assert Precedes(m, Some(first)) ==> m in older;
    }
  }

  /** One request of such a walk. */
  lemma WalkGoesOn(logs: seq<seq<Msg>>, cursor: Option<nat>, anchor: Option<Msg>, limit: nat)
    requires limit >= 1 && forall k :: 0 <= k < |logs| ==> IsLog(logs[k])
    requires logs != [] && Resolve(logs[0], cursor) == anchor
    ensures forall k :: 0 <= k < |logs[1..]| ==> IsLog(logs[1..][k])
    ensures var page := PageBefore(logs[0], anchor, limit);
            && Walk(logs, cursor, limit)
               == [page.msgs] + (if page.cursor.None? then [] else Walk(logs[1..], page.cursor, limit))
            && (page.cursor.Some? ==> page.msgs != [] && page.cursor == Some(page.msgs[0].id))
            && (page.cursor.Some? && |logs| > 1 && page.msgs[0] in logs[1] ==>
                  Resolve(logs[1], page.cursor) == Some(page.msgs[0]))
  {
    var page := PageBefore(logs[0], anchor, limit);
    if page.cursor.Some? && |logs| > 1 && page.msgs[0] in logs[1] {
      FoundAgain(logs[1], page.msgs[0]);
    }
  }

  /** Whatever is purged, and whatever arrives, between the requests: as long as each cursor's own
      message is still there at the next request, the pages read back strictly ascending, and they
      hold every message that was there all along. */
  lemma {:induction false} WalkIsAscending(logs: seq<seq<Msg>>, cursor: Option<nat>, anchor: Option<Msg>, limit: nat)
    requires limit >= 1 && forall k :: 0 <= k < |logs| ==> IsLog(logs[k])
    requires logs != [] && Resolve(logs[0], cursor) == anchor && Followed(logs, anchor, limit)
    ensures Reads(ReadingOrder(Walk(logs, cursor, limit)), logs, anchor)
    decreases |logs|
  {
    var page := PageBefore(logs[0], anchor, limit);
    WalkGoesOn(logs, cursor, anchor, limit);
    if page.cursor.None? {
      Read(page.msgs, []);
      LastPage(logs, anchor, limit);
      assert ReadingOrder([]) + page.msgs == page.msgs;
    } else {
      var rest := Walk(logs[1..], page.cursor, limit);
      WalkIsAscending(logs[1..], page.cursor, Some(page.msgs[0]), limit);
      Read(page.msgs, rest);
      OnePageMore(logs, anchor, limit, ReadingOrder(rest));
    }
  }

  /** From the newest page on. */
  lemma CursorWalkIsAscending(logs: seq<seq<Msg>>, limit: nat)
    requires limit >= 1 && forall k :: 0 <= k < |logs| ==> IsLog(logs[k])
    requires Followed(logs, None, limit)
    ensures Ascending(ReadingOrder(Walk(logs, None, limit)))
    ensures forall m :: InAll(m, logs) ==> m in ReadingOrder(Walk(logs, None, limit))
  {
    WalkIsAscending(logs, None, None, limit);
  }

  // ----- How many pages -----

  /** Messages arrive on top: what a later log holds below a message of an earlier log, that held too. */
  ghost predicate ArrivesOnTop(logs: seq<seq<Msg>>) {
    forall k, l, x, m :: 0 <= k < l < |logs| && x in logs[k] && m in logs[l] && Before(m, x) ==> m in logs[k]
  }

  /** As `Followed`, but the requests may stop before the end. */
  ghost predicate AnchorsSurvive(logs: seq<seq<Msg>>, anchor: Option<Msg>, limit: nat)
    requires limit >= 1 && forall k :: 0 <= k < |logs| ==> IsLog(logs[k])
    decreases |logs|
  {
    |logs| > 1 ==>
      var page := PageBefore(logs[0], anchor, limit);
      page.cursor.None? || (page.msgs[0] in logs[1] && AnchorsSurvive(logs[1..], Some(page.msgs[0]), limit))
  }

  function CountOlder(log: seq<Msg>, anchor: Option<Msg>): nat
    requires IsLog(log)
  {
    if anchor.Some? then Older(log, anchor.value) else |log|
  }

  lemma {:induction false} NoMoreMembers(a: seq<Msg>, b: seq<Msg>)
    requires IsLog(a) && forall i :: 0 <= i < |a| ==> a[i] in b
    ensures |a| <= |b|
    decreases |a|
  {
    if a != [] {
      var last := a[|a| - 1];
      var i :| 0 <= i < |b| && b[i] == last;
      var fewer := b[..i] + b[i + 1..];
      forall k | 0 <= k < |a| - 1 ensures a[k] in fewer {
        var j :| 0 <= j < |b| && b[j] == a[k];
        assert a[k].id != last.id;
        assert j < i ==> fewer[j] == a[k];
        assert j > i ==> fewer[j - 1] == a[k];
      }
      NoMoreMembers(a[..|a| - 1], fewer);
    }
  }

  /** With nothing arriving below it, what a page left for later can only have shrunk. */
  lemma OlderShrinks(log: seq<Msg>, next: seq<Msg>, n: nat)
    requires IsLog(log) && IsLog(next) && n < |log| && log[n] in next
    requires forall m :: m in next && Before(m, log[n]) ==> m in log
    ensures Older(next, log[n]) <= n
  {
    var older := next[..Older(next, log[n])];
    forall i | 0 <= i < |older| ensures older[i] in log[..n] {
      assert older[i] in next && Before(older[i], log[n]);
      var j :| 0 <= j < |log| && log[j] == older[i];
      assert j < n ==> log[..n][j] == older[i];
    }
    NoMoreMembers(older, log[..n]);
  }

  lemma {:induction false} FewerPages(n: nat, m: nat, limit: nat)
    requires limit >= 1 && n <= m
    ensures Pages(n, limit) <= Pages(m, limit)
  {
    if n > limit {
      FewerPages(n - limit, m - limit, limit);
    }
  }

  lemma LeftForLater(log: seq<Msg>, next: seq<Msg>, anchor: Option<Msg>, limit: nat)
    requires limit >= 1 && IsLog(log) && IsLog(next) && CountOlder(log, anchor) > limit
    requires var first := PageBefore(log, anchor, limit).msgs[0];
             first in next && forall m :: m in next && Before(m, first) ==> m in log
    ensures var first := PageBefore(log, anchor, limit).msgs[0];
            Pages(Older(next, first), limit) + 1 <= Pages(CountOlder(log, anchor), limit)
  {
    var n := CountOlder(log, anchor);
    assert PageBefore(log, anchor, limit).msgs[0] == log[n - limit];
    OlderShrinks(log, next, n - limit);
    FewerPages(Older(next, log[n - limit]), n - limit, limit);
  }

  /** If messages only arrive on top, the walk ends within the pages the history filled at the start. */
  lemma {:induction false} WalkEnds(logs: seq<seq<Msg>>, cursor: Option<nat>, anchor: Option<Msg>, limit: nat)
    requires limit >= 1 && forall k :: 0 <= k < |logs| ==> IsLog(logs[k])
    requires logs != [] && Resolve(logs[0], cursor) == anchor && AnchorsSurvive(logs, anchor, limit)
    requires ArrivesOnTop(logs)
    requires |logs| >= Pages(CountOlder(logs[0], anchor), limit)
    ensures Followed(logs, anchor, limit)
    ensures |Walk(logs, cursor, limit)| <= Pages(CountOlder(logs[0], anchor), limit)
    decreases |logs|
  {
    WalkGoesOn(logs, cursor, anchor, limit);
    if CountOlder(logs[0], anchor) > limit {
      var page := PageBefore(logs[0], anchor, limit);
      BelowWasThere(logs, page.msgs[0]);
      LeftForLater(logs[0], logs[1], anchor, limit);
      TailArrivesOnTop(logs);
      WalkEnds(logs[1..], page.cursor, Some(page.msgs[0]), limit);
    }
  }

  lemma BelowWasThere(logs: seq<seq<Msg>>, first: Msg)
    requires |logs| > 1 && ArrivesOnTop(logs) && first in logs[0]
    ensures forall m :: m in logs[1] && Before(m, first) ==> m in logs[0]
  {
  }

  lemma TailArrivesOnTop(logs: seq<seq<Msg>>)
    requires logs != [] && ArrivesOnTop(logs)
    ensures ArrivesOnTop(logs[1..])
  {
    forall k, l, x, m | 0 <= k < l < |logs[1..]| && x in logs[1..][k] && m in logs[1..][l] && Before(m, x)
      ensures m in logs[1..][k]
    {
      assert logs[1..][k] == logs[k + 1] && logs[1..][l] == logs[l + 1];
    }
  }

  // ----- A lost anchor -----

  /** The next page continues the walk exactly when the anchor's message is still there, or nothing at
      or after it is; otherwise it is the newest page over again. */
  lemma NextPageContinues(log: seq<Msg>, anchor: Msg, limit: nat)
    requires limit >= 1 && IsLog(log) && forall m :: m in log && m.id == anchor.id ==> m == anchor
    ensures var page := PageBefore(log, Resolve(log, Some(anchor.id)), limit);
            && (page == PageBefore(log, Some(anchor), limit) <==>
               anchor in log || forall m :: m in log ==> Before(m, anchor))
            && (anchor !in log ==> page == PageBefore(log, None, limit))
  {
    AnchorResolves(log, anchor);
    AllBefore(log, anchor);
    SamePage(log, anchor, limit);
  }

  lemma AnchorResolves(log: seq<Msg>, anchor: Msg)
    requires IsLog(log) && forall m :: m in log && m.id == anchor.id ==> m == anchor
    ensures Resolve(log, Some(anchor.id)) == if anchor in log then Some(anchor) else None
  {
    if anchor in log {
      FoundAgain(log, anchor);
    } else {
      assert forall i :: 0 <= i < |log| ==> log[i] in log;
      Unresolved(log, anchor.id);
    }
  }

  lemma SamePage(log: seq<Msg>, anchor: Msg, limit: nat)
    requires limit >= 1 && IsLog(log)
    ensures PageBefore(log, Some(anchor), limit) == PageBefore(log, None, limit) <==> Older(log, anchor) == |log|
  {
    if Older(log, anchor) < |log| {
      ShorterPageDiffers(log, anchor, limit);
    }
  }

  lemma AllBefore(log: seq<Msg>, anchor: Msg)
    requires IsLog(log)
    ensures Older(log, anchor) == |log| <==> forall m :: m in log ==> Before(m, anchor)
  {
    if Older(log, anchor) < |log| {
      assert log[Older(log, anchor)] in log;
    }
  }

  lemma ShorterPageDiffers(log: seq<Msg>, anchor: Msg, limit: nat)
    requires limit >= 1 && IsLog(log) && Older(log, anchor) < |log|
    ensures PageBefore(log, Some(anchor), limit) != PageBefore(log, None, limit)
  {
    var last, page := log[|log| - 1], PageBefore(log, None, limit);
    assert page.msgs[|page.msgs| - 1] == last && last in page.msgs;
    assert !Before(last, anchor);
    PageSplits(log, Some(anchor), limit, last);
  }

  /** Why anchors must survive: once the anchor is purged with everything older, the next page is
      the newest page over again instead of the end of the walk. */
  lemma PurgedAnchorRestarts(log: seq<Msg>, n: nat, limit: nat)
    requires limit >= 1 && IsLog(log) && n < |log| && IsLog(log[n + 1..])
    ensures PageBefore(log[n + 1..], Resolve(log[n + 1..], Some(log[n].id)), limit)
         == PageBefore(log[n + 1..], None, limit)
    ensures PageBefore(log[n + 1..], None, limit).msgs == [] <==> n + 1 == |log|
  {
    Unresolved(log[n + 1..], log[n].id);
  }

  lemma {:induction false} Unresolved(log: seq<Msg>, id: nat)
    requires forall i :: 0 <= i < |log| ==> log[i].id != id
    ensures Resolve(log, Some(id)) == None
    decreases |log|
  {
    if log != [] {
      Unresolved(log[..|log| - 1], id);
    }
  }
}
