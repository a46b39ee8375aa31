/** Cursor pagination of a conversation's history: `getMessageHistory` of src/services/conversation.service.ts,
    followed page by page through `nextCursor`. */
module History {
  import opened Domain
  import opened ConversationService
  import opened Recency
  import opened SocketRateLimit
  import opened AtomicServer

  /** What paging looks at: the conversation's messages by id, with their `createdAt`. */
  type Timeline = Times

  function TimelineOf(db: Store, c: ConversationId): Timeline {
    map m | m in db.messages && db.messages[m].conversation == c :: db.messages[m].createdAt
  }

  /** `before` is absent on the first request. */
  datatype Cursor = Newest | Before(at: nat)

  predicate Below(cursor: Cursor, at: nat) {
    match cursor case Newest => true case Before(t) => at < t
  }

  function Matching(line: Timeline, cursor: Cursor): set<MessageId> {
    set m | m in line && Below(cursor, line[m])
  }

  /** The ids are matching messages, each once and newest first, and no matching message left out is newer
      than one of them. */
  ghost predicate IsTop(line: Timeline, cursor: Cursor, ids: seq<MessageId>) {
    && NoDuplicates(ids)
    && NewestFirst(line, ids)
    && (forall i :: 0 <= i < |ids| ==> ids[i] in Matching(line, cursor))
    && (forall m :: m in Matching(line, cursor) && m !in ids ==> NotNewer(line, m, ids))
  }

  ghost predicate NotNewer(line: Timeline, m: MessageId, ids: seq<MessageId>)
    requires m in line && NewestFirst(line, ids)
  {
    forall i :: 0 <= i < |ids| ==> line[m] <= line[ids[i]]
  }

  /** A possible answer to `find(query).sort({ createdAt: -1 }).limit(n)`: n of the matching messages, or all
      of them if there are fewer, newest first; the database may order equal keys as it likes, anew each time. */
  ghost predicate IsAnswer(line: Timeline, cursor: Cursor, n: nat, ids: seq<MessageId>) {
    IsTop(line, cursor, ids) && |ids| == (if |Matching(line, cursor)| < n then |Matching(line, cursor)| else n)
  }

  datatype Page = Page(ids: seq<MessageId>, hasMore: bool, nextCursor: Option<nat>)

  /** What `getMessageHistory` makes of the answer to its query for limit + 1 messages. */
  function MakePage(line: Timeline, limit: nat, found: seq<MessageId>): Page
    requires limit >= 1 && forall i :: 0 <= i < |found| ==> found[i] in line
  {
    var hasMore := |found| > limit;
    var page := if hasMore then found[..limit] else found;
    Page(page, hasMore, if hasMore then Some(line[page[|page| - 1]]) else None)
  }

  ghost predicate IsPage(line: Timeline, limit: nat, cursor: Cursor, page: Page)
    requires limit >= 1
  {
    exists found: seq<MessageId> :: IsAnswer(line, cursor, limit + 1, found) && page == MakePage(line, limit, found)
  }

  /** Requests from `cursor` on, until `nextCursor` is null. */
  ghost predicate IsScroll(line: Timeline, limit: nat, cursor: Cursor, pages: seq<Page>)
    requires limit >= 1
    decreases |pages|
  {
    && pages != []
    && IsPage(line, limit, cursor, pages[0])
    && match pages[0].nextCursor
       case None => |pages| == 1
       case Some(at) => IsScroll(line, limit, Before(at), pages[1..])
  }

  /** The same, each request seeing the conversation as it then is. */
  ghost predicate IsLiveScroll(lines: seq<Timeline>, limit: nat, cursor: Cursor, pages: seq<Page>)
    requires limit >= 1
    decreases |pages|
  {
    && pages != [] && |lines| == |pages|
    && IsPage(lines[0], limit, cursor, pages[0])
    && match pages[0].nextCursor
       case None => |pages| == 1
       case Some(at) => IsLiveScroll(lines[1..], limit, Before(at), pages[1..])
  }

  function Shown(pages: seq<Page>): seq<MessageId> {
    if pages == [] then [] else pages[0].ids + Shown(pages[1..])
  }

  // ---------- One page ----------

  lemma CountOfElements(ids: seq<MessageId>)
    requires NoDuplicates(ids)
    ensures |Elements(ids)| == |ids|
  {
    SizeOfDistinct(ids);
  }

  /** `hasMore` tells whether a matching message was left out. A final page shows everything that matched; any
      other page is full, its messages are all at or above the cursor it returns, and whatever matched but was
      not shown is at or below that cursor. */
  ghost predicate PageMeans(line: Timeline, limit: nat, cursor: Cursor, page: Page)
    requires limit >= 1
  {
    && NoDuplicates(page.ids) && NewestFirst(line, page.ids) && |page.ids| <= limit
    && (forall m :: m in page.ids ==> m in Matching(line, cursor))
    && (page.hasMore <==> exists m :: m in Matching(line, cursor) && m !in page.ids)
    && match page.nextCursor
       case None => forall m :: m in Matching(line, cursor) ==> m in page.ids
       case Some(at) =>
         && |page.ids| == limit && at == line[page.ids[limit - 1]]
         && (forall m :: m in page.ids ==> line[m] >= at)
         && (forall m :: m in Matching(line, cursor) && m !in page.ids ==> line[m] <= at)
  }

  lemma FinalPage(line: Timeline, limit: nat, cursor: Cursor, found: seq<MessageId>)
    requires limit >= 1 && IsAnswer(line, cursor, limit + 1, found) && |found| <= limit
    ensures PageMeans(line, limit, cursor, MakePage(line, limit, found))
  {
    CountOfElements(found);
    assert Elements(found) <= Matching(line, cursor);
    SubsetOfEqualSize(Elements(found), Matching(line, cursor));
    assert forall m :: m in found <==> m in Elements(found);
  }

  lemma FullPage(line: Timeline, limit: nat, cursor: Cursor, found: seq<MessageId>)
    requires limit >= 1 && IsTop(line, cursor, found) && |found| == limit + 1
    ensures PageMeans(line, limit, cursor, MakePage(line, limit, found))
  {
    var page, ids := MakePage(line, limit, found), found[..limit];
    assert page == Page(ids, true, Some(line[ids[limit - 1]])) && ids[limit - 1] == found[limit - 1];
    FullPageMembers(line, limit, cursor, found);
    FullPageRest(line, limit, cursor, found);
    assert found[limit] in Matching(line, cursor) && found[limit] !in ids;
  }

  lemma FullPageRest(line: Timeline, limit: nat, cursor: Cursor, found: seq<MessageId>)
    requires limit >= 1 && IsTop(line, cursor, found) && |found| == limit + 1
    ensures forall m :: m in Matching(line, cursor) && m !in found[..limit] ==> line[m] <= line[found[limit - 1]]
  {
  }

  lemma FullPageMembers(line: Timeline, limit: nat, cursor: Cursor, found: seq<MessageId>)
    requires limit >= 1 && IsTop(line, cursor, found) && |found| == limit + 1
    ensures forall m :: m in found[..limit] ==> m in Matching(line, cursor) && line[m] >= line[found[limit - 1]]
  {
  }

  lemma PageMeaning(line: Timeline, limit: nat, cursor: Cursor, page: Page)
    requires limit >= 1 && IsPage(line, limit, cursor, page)
    ensures PageMeans(line, limit, cursor, page)
  {
    var found: seq<MessageId> :| IsAnswer(line, cursor, limit + 1, found) && page == MakePage(line, limit, found);
    if |found| <= limit {
      FinalPage(line, limit, cursor, found);
    } else {
      FullPage(line, limit, cursor, found);
    }
  }

  // ---------- Following nextCursor ----------

  /** m has the same `createdAt` as the last message of some non-final page from page k on, and is not on it. */
  ghost predicate LostToTie(line: Timeline, pages: seq<Page>, m: MessageId)
    requires m in line
  {
    exists k :: 0 <= k < |pages| && LostAt(line, pages[k], m)
  }

  predicate LostAt(line: Timeline, page: Page, m: MessageId)
    requires m in line
  {
    page.nextCursor == Some(line[m]) && m !in page.ids
  }

  lemma PageNarrows(line: Timeline, limit: nat, cursor: Cursor, page: Page)
    requires limit >= 1 && PageMeans(line, limit, cursor, page) && page.nextCursor.Some?
    ensures Below(cursor, page.nextCursor.value)
    ensures forall m :: m in Matching(line, Before(page.nextCursor.value)) ==>
                          m in Matching(line, cursor) && m !in page.ids
  {
    assert page.ids[limit - 1] in page.ids;
  }

  /** The pages from `cursor` on, as ScrollWithTies describes them. */
  ghost predicate ShowsUpToTies(line: Timeline, cursor: Cursor, pages: seq<Page>) {
    && NoDuplicates(Shown(pages)) && NewestFirst(line, Shown(pages))
    && (forall m :: m in Shown(pages) ==> m in Matching(line, cursor))
    && (forall m :: m in Matching(line, cursor) ==> (m !in Shown(pages) <==> LostToTie(line, pages, m)))
  }

  lemma ShownConcat(line: Timeline, limit: nat, cursor: Cursor, page: Page, more: seq<MessageId>)
    requires limit >= 1 && PageMeans(line, limit, cursor, page) && page.nextCursor.Some?
    requires NoDuplicates(more) && NewestFirst(line, more)
    requires forall m :: m in more ==> m in Matching(line, Before(page.nextCursor.value))
    ensures NoDuplicates(page.ids + more) && NewestFirst(line, page.ids + more)
    ensures forall m :: m in page.ids + more ==> m in Matching(line, cursor)
  {
    PageNarrows(line, limit, cursor, page);
    assert forall i :: 0 <= i < |page.ids| ==> page.ids[i] in page.ids;
    assert forall i :: 0 <= i < |more| ==> more[i] in more;
  }

  lemma InShown(pages: seq<Page>, m: MessageId)
    requires pages != []
    ensures m in Shown(pages) <==> m in pages[0].ids || m in Shown(pages[1..])
  {
  }

  lemma LostOrShown(line: Timeline, limit: nat, cursor: Cursor, page: Page, rest: seq<Page>, m: MessageId)
    requires limit >= 1 && PageMeans(line, limit, cursor, page) && page.nextCursor.Some?
    requires IsScroll(line, limit, Before(page.nextCursor.value), rest)
    requires ShowsUpToTies(line, Before(page.nextCursor.value), rest)
    requires m in Matching(line, cursor)
    ensures m !in page.ids && m !in Shown(rest) <==> LostAt(line, page, m) || LostToTie(line, rest, m)
  {
    var at := page.nextCursor.value;
    if line[m] < at {
      assert m in Matching(line, Before(at));
    } else {
      NotLostWhenShown(line, limit, Before(at), rest, m);
      assert m in Shown(rest) ==> m in Matching(line, Before(at));
    }
  }

  /** Following `nextCursor` to null shows messages in non-increasing `createdAt` order and none twice; a
      message is left out exactly when it ties with the last message of a non-final page without being on
      that page, whichever order the database picks among equal keys at each request. */
  lemma {:induction false} ScrollWithTies(line: Timeline, limit: nat, cursor: Cursor, pages: seq<Page>)
    requires limit >= 1 && IsScroll(line, limit, cursor, pages)
    ensures ShowsUpToTies(line, cursor, pages)
    decreases |pages|
  {
    PageMeaning(line, limit, cursor, pages[0]);
    if pages[0].nextCursor.None? {
      ScrollOfOne(line, limit, cursor, pages);
    } else {
      var at := pages[0].nextCursor.value;
      ScrollWithTies(line, limit, Before(at), pages[1..]);
      ShownConcat(line, limit, cursor, pages[0], Shown(pages[1..]));
      forall m | m in Matching(line, cursor) ensures m !in Shown(pages) <==> LostToTie(line, pages, m) {
        InShown(pages, m);
        LostSplits(line, pages, m);
        LostOrShown(line, limit, cursor, pages[0], pages[1..], m);
      }
    }
  }

  lemma ScrollOfOne(line: Timeline, limit: nat, cursor: Cursor, pages: seq<Page>)
    requires limit >= 1 && |pages| == 1 && PageMeans(line, limit, cursor, pages[0]) && pages[0].nextCursor.None?
    ensures ShowsUpToTies(line, cursor, pages)
  {
  }

  lemma LostSplits(line: Timeline, pages: seq<Page>, m: MessageId)
    requires m in line && pages != []
    ensures LostToTie(line, pages, m) <==> LostAt(line, pages[0], m) || LostToTie(line, pages[1..], m)
  {
  }

  /** Later cursors are below everything already shown. */
  lemma {:induction false} NotLostWhenShown(line: Timeline, limit: nat, cursor: Cursor, pages: seq<Page>, m: MessageId)
    requires limit >= 1 && IsScroll(line, limit, cursor, pages)
    requires m in line && !Below(cursor, line[m])
    ensures !LostToTie(line, pages, m)
    decreases |pages|
  {
    LostSplits(line, pages, m);
    PageMeaning(line, limit, cursor, pages[0]);
    if pages[0].nextCursor.Some? {
      PageNarrows(line, limit, cursor, pages[0]);
      NotLostWhenShown(line, limit, Before(pages[0].nextCursor.value), pages[1..], m);
    } else {
      assert pages[1..] == [];
    }
  }

  // ---------- Distinct timestamps ----------

  /** The matching messages newer than t, and those of time t. */
  function NewerThan(line: Timeline, cursor: Cursor, t: nat): set<MessageId> {
    set m | m in Matching(line, cursor) && line[m] > t
  }

  function SameTime(line: Timeline, cursor: Cursor, t: nat): set<MessageId> {
    set m | m in Matching(line, cursor) && line[m] == t
  }

  /** Counting newest first, the end of the k-th page of `limit` falls inside the group of messages of time t. */
  predicate CutsGroup(line: Timeline, limit: nat, cursor: Cursor, t: nat, k: nat) {
    var newer := |NewerThan(line, cursor, t)|;
    k >= 1 && newer < k * limit < newer + |SameTime(line, cursor, t)|
  }

  ghost predicate SomeGroupCut(line: Timeline, limit: nat, cursor: Cursor) {
    exists t: nat, k: nat :: CutsGroup(line, limit, cursor, t, k)
  }

  ghost predicate ShowsAll(line: Timeline, cursor: Cursor, pages: seq<Page>) {
    forall m :: m in Matching(line, cursor) ==> m in Shown(pages)
  }

  lemma GroupWithin(line: Timeline, cursor: Cursor, t: nat, all: set<MessageId>)
    requires forall m :: m in Matching(line, cursor) && line[m] >= t ==> m in all
    ensures |NewerThan(line, cursor, t)| + |SameTime(line, cursor, t)| <= |all|
  {
    var newer, same := NewerThan(line, cursor, t), SameTime(line, cursor, t);
    assert newer !! same && newer + same <= all;
    SubsetCard(newer + same, all);
  }

  lemma FewFitOnOnePage(line: Timeline, limit: nat, cursor: Cursor, t: nat, k: nat, page: seq<MessageId>)
    requires |page| <= limit && forall m :: m in Matching(line, cursor) && line[m] >= t ==> m in page
    ensures !CutsGroup(line, limit, cursor, t, k)
  {
    GroupWithin(line, cursor, t, Elements(page));
    SizeAtMost(page);
    if k >= 1 {
      assert k * limit >= 1 * limit;
    }
  }

  lemma NewerFitBeforeLast(line: Timeline, limit: nat, cursor: Cursor, page: Page)
    requires limit >= 1 && PageMeans(line, limit, cursor, page) && page.nextCursor.Some?
    ensures |NewerThan(line, cursor, page.nextCursor.value)| < limit
  {
    var last, shown := page.ids[limit - 1], Elements(page.ids);
    CountOfElements(page.ids);
    assert last in page.ids;
    SubsetCard(NewerThan(line, cursor, page.nextCursor.value), shown - {last});
  }

  lemma LostOverflows(line: Timeline, limit: nat, cursor: Cursor, page: Page, m: MessageId)
    requires limit >= 1 && PageMeans(line, limit, cursor, page) && page.nextCursor.Some?
    requires m in Matching(line, cursor) && LostAt(line, page, m)
    ensures var at := page.nextCursor.value;
            |NewerThan(line, cursor, at)| + |SameTime(line, cursor, at)| > limit
  {
    var at, shown := page.nextCursor.value, Elements(page.ids);
    var newer, same := NewerThan(line, cursor, at), SameTime(line, cursor, at);
    CountOfElements(page.ids);
    assert shown + {m} <= newer + same && newer !! same;
    SubsetCard(shown + {m}, newer + same);
  }

  /** The end of a full first page cuts a group exactly when a message ties with its last one without being
      on it. */
  lemma FirstPageCuts(line: Timeline, limit: nat, cursor: Cursor, page: Page)
    requires limit >= 1 && PageMeans(line, limit, cursor, page) && page.nextCursor.Some?
    ensures CutsGroup(line, limit, cursor, page.nextCursor.value, 1) <==>
              exists m :: m in Matching(line, cursor) && LostAt(line, page, m)
  {
    if m :| m in Matching(line, cursor) && LostAt(line, page, m) {
      NewerFitBeforeLast(line, limit, cursor, page);
      LostOverflows(line, limit, cursor, page, m);
    } else {
      FewFitOnOnePage(line, limit, cursor, page.nextCursor.value, 1, page.ids);
    }
  }

  lemma GroupsShift(line: Timeline, limit: nat, cursor: Cursor, page: Page, t: nat)
    requires limit >= 1 && PageMeans(line, limit, cursor, page) && page.nextCursor.Some? && t < page.nextCursor.value
    requires forall m :: m in Matching(line, cursor) ==> !LostAt(line, page, m)
    ensures var rest := Before(page.nextCursor.value);
            && |NewerThan(line, cursor, t)| == limit + |NewerThan(line, rest, t)|
            && SameTime(line, cursor, t) == SameTime(line, rest, t)
  {
    var rest, shown := Before(page.nextCursor.value), Elements(page.ids);
    CountOfElements(page.ids);
    forall m
      ensures m in NewerThan(line, cursor, t) <==> m in shown || m in NewerThan(line, rest, t)
      ensures m !in shown || m !in NewerThan(line, rest, t)
      ensures m in SameTime(line, cursor, t) <==> m in SameTime(line, rest, t)
    {
      UncutPageSplits(line, limit, cursor, page, m);
    }
    DisjointSize(NewerThan(line, cursor, t), shown, NewerThan(line, rest, t));
  }

  lemma DisjointSize(whole: set<MessageId>, a: set<MessageId>, b: set<MessageId>)
    requires forall m :: m in whole <==> m in a || m in b
    requires forall m :: m !in a || m !in b
    ensures |whole| == |a| + |b|
  {
    assert whole == a + b && a !! b;
  }

  lemma UncutPageSplits(line: Timeline, limit: nat, cursor: Cursor, page: Page, m: MessageId)
    requires limit >= 1 && PageMeans(line, limit, cursor, page) && page.nextCursor.Some?
    requires m in Matching(line, cursor) ==> !LostAt(line, page, m)
    ensures m in Matching(line, cursor) <==> m in page.ids || m in Matching(line, Before(page.nextCursor.value))
    ensures m in page.ids ==> m in line && line[m] >= page.nextCursor.value
    ensures m !in page.ids || m !in Matching(line, Before(page.nextCursor.value))
  {
    PageNarrows(line, limit, cursor, page);
  }

  /** If the first page's end cuts no group, the later boundaries fall where they do for the rest. */
  lemma LaterPagesCut(line: Timeline, limit: nat, cursor: Cursor, page: Page, t: nat, k: nat)
    requires limit >= 1 && PageMeans(line, limit, cursor, page) && page.nextCursor.Some?
    requires forall m :: m in Matching(line, cursor) ==> !LostAt(line, page, m)
    ensures CutsGroup(line, limit, cursor, t, k + 1) <==> CutsGroup(line, limit, Before(page.nextCursor.value), t, k)
  {
    if t >= page.nextCursor.value {
      FewFitOnOnePage(line, limit, cursor, t, k + 1, page.ids);
      FewFitOnOnePage(line, limit, Before(page.nextCursor.value), t, k, page.ids);
    } else {
      GroupsShift(line, limit, cursor, page, t);
      assert (k + 1) * limit == k * limit + limit;
    }
  }

  /** The scroll from any cursor on shows all that matches exactly when no page boundary falls inside a group
      of equal timestamps. That only depends on how many messages there are at each time: it can be told before
      the first request, whatever order the database picks among equal keys. */
  lemma {:induction false} ShowsAllIff(line: Timeline, limit: nat, cursor: Cursor, pages: seq<Page>)
    requires limit >= 1 && IsScroll(line, limit, cursor, pages)
    ensures ShowsAll(line, cursor, pages) <==> !SomeGroupCut(line, limit, cursor)
    decreases |pages|
  {
    var page := pages[0];
    PageMeaning(line, limit, cursor, page);
    if page.nextCursor.None? {
      forall t: nat, k: nat ensures !CutsGroup(line, limit, cursor, t, k) {
        FewFitOnOnePage(line, limit, cursor, t, k, page.ids);
      }
    } else if m :| m in Matching(line, cursor) && LostAt(line, page, m) {
      FirstPageCuts(line, limit, cursor, page);
      ScrollWithTies(line, limit, cursor, pages);
      LostSplits(line, pages, m);
    } else {
      var rest := Before(page.nextCursor.value);
      ShowsAllIff(line, limit, rest, pages[1..]);
      UncutPageShowsRest(line, limit, cursor, pages);
      if t: nat, k: nat :| CutsGroup(line, limit, cursor, t, k) {
        LaterPagesCut(line, limit, cursor, page, t, k - 1);
      }
      if t: nat, k: nat :| CutsGroup(line, limit, rest, t, k) {
        LaterPagesCut(line, limit, cursor, page, t, k);
      }
    }
  }

  lemma UncutPageShowsRest(line: Timeline, limit: nat, cursor: Cursor, pages: seq<Page>)
    requires limit >= 1 && IsScroll(line, limit, cursor, pages) && pages[0].nextCursor.Some?
    requires PageMeans(line, limit, cursor, pages[0])
    requires forall m :: m in Matching(line, cursor) ==> !LostAt(line, pages[0], m)
    ensures ShowsAll(line, cursor, pages) <==> ShowsAll(line, Before(pages[0].nextCursor.value), pages[1..])
  {
    var rest := Before(pages[0].nextCursor.value);
    forall m
      ensures m in Matching(line, cursor) && m !in Shown(pages) <==>
          m in Matching(line, rest) && m !in Shown(pages[1..])
    {
      InShown(pages, m);
      UncutPageSplits(line, limit, cursor, pages[0], m);
    }
  }

  /** A scroll shows the whole conversation exactly when no page boundary falls inside a group of equal
      timestamps, that is, for no time t and number k of pages
      newer than t < k * limit < newer than t, plus those at t. */
  lemma {:induction false} ScrollCompleteIff(line: Timeline, limit: nat, pages: seq<Page>)
    requires limit >= 1 && IsScroll(line, limit, Newest, pages)
    ensures Elements(Shown(pages)) == line.Keys <==> !SomeGroupCut(line, limit, Newest)
  {
    ShowsAllIff(line, limit, Newest, pages);
    ScrollWithTies(line, limit, Newest, pages);
    assert forall m :: m in line <==> m in Matching(line, Newest);
    assert forall m :: m in Shown(pages) <==> m in Elements(Shown(pages));
  }

  lemma FullTiePage(line: Timeline, at: nat)
    requires line == map[0 := at, 1 := at]
    ensures IsPage(line, 1, Newest, Page([0], true, Some(at)))
  {
    assert Matching(line, Newest) == {0, 1};
    var found, limit := [0, 1], 1;
    assert IsTop(line, Newest, found) && IsAnswer(line, Newest, limit + 1, found);
    assert found[..limit] == [0];
    assert MakePage(line, limit, found) == Page([0], true, Some(at));
  }

  lemma EmptyPage(line: Timeline, cursor: Cursor)
    requires Matching(line, cursor) == {}
    ensures IsPage(line, 1, cursor, Page([], false, None))
  {
    var found: seq<MessageId>, limit := [], 1;
    assert IsTop(line, cursor, found) && IsAnswer(line, cursor, limit + 1, found);
    assert MakePage(line, limit, found) == Page([], false, None);
  }

  /** Two messages of one time, read one by one: the second is never shown. */
  lemma TieLosesMessage(at: nat) returns (line: Timeline, pages: seq<Page>)
    ensures line == map[0 := at, 1 := at] && IsScroll(line, 1, Newest, pages)
    ensures Shown(pages) == [0]
  {
    line := map[0 := at, 1 := at];
    pages := [Page([0], true, Some(at)), Page([], false, None)];
    FullTiePage(line, at);
    EmptyPage(line, Before(at));
    assert pages[1..] == [pages[1]];
    assert Shown(pages[1..]) == [] + Shown([]);
  }

  lemma NoTieNoLoss(line: Timeline, limit: nat, pages: seq<Page>, m: MessageId)
    requires limit >= 1 && IsScroll(line, limit, Newest, pages) && DistinctTimes(line) && m in line
    ensures !LostToTie(line, pages, m)
  {
    forall k | 0 <= k < |pages| ensures !LostAt(line, pages[k], m) {
      if pages[k].nextCursor.Some? {
        NonFinalPages(line, limit, Newest, pages, k);
        assert pages[k].ids[limit - 1] in pages[k].ids;
      }
    }
  }

  /** With distinct timestamps the pages, put together, are the conversation newest first, in the only order
      that has; every page but the last has exactly `limit` entries. */
  lemma {:induction false} ScrollIsComplete(line: Timeline, limit: nat, pages: seq<Page>, all: seq<MessageId>)
    requires limit >= 1 && IsScroll(line, limit, Newest, pages) && DistinctTimes(line)
    requires NoDuplicates(all) && Elements(all) == line.Keys && NewestFirst(line, all)
    ensures Shown(pages) == all
    ensures forall k :: 0 <= k < |pages| - 1 ==> |pages[k].ids| == limit
  {
    ScrollWithTies(line, limit, Newest, pages);
    forall m | m in line ensures !LostToTie(line, pages, m) {
      NoTieNoLoss(line, limit, pages, m);
    }
    ScrollCompleteIff(line, limit, pages);
    SortedUnique(line, Shown(pages), all);
    forall k | 0 <= k < |pages| - 1 ensures |pages[k].ids| == limit {
      NonFinalPages(line, limit, Newest, pages, k);
    }
  }

  lemma {:induction false} NonFinalPages(line: Timeline, limit: nat, cursor: Cursor, pages: seq<Page>, k: nat)
    requires limit >= 1 && IsScroll(line, limit, cursor, pages)
    requires k < |pages| && (k < |pages| - 1 || pages[k].nextCursor.Some?)
    ensures pages[k].nextCursor.Some? && |pages[k].ids| == limit
    ensures pages[k].ids[limit - 1] in line && pages[k].nextCursor.value == line[pages[k].ids[limit - 1]]
    decreases |pages|
  {
    if k == 0 {
      PageMeaning(line, limit, cursor, pages[0]);
    } else {
      NonFinalPages(line, limit, Before(pages[0].nextCursor.value), pages[1..], k - 1);
    }
  }

  // ---------- Termination and stability ----------

  /** Each request that does not end the scroll leaves `limit` fewer messages below the next cursor, or less. */
  lemma PageConsumes(line: Timeline, limit: nat, cursor: Cursor, page: Page)
    requires limit >= 1 && PageMeans(line, limit, cursor, page) && page.nextCursor.Some?
    ensures |Matching(line, Before(page.nextCursor.value))| + limit <= |Matching(line, cursor)|
  {
    PageNarrows(line, limit, cursor, page);
    CountOfElements(page.ids);
    var shown, next, all := Elements(page.ids), Matching(line, Before(page.nextCursor.value)), Matching(line, cursor);
    assert shown !! next && shown + next <= all;
    SubsetCard(shown + next, all);
    assert |shown + next| == |shown| + |next|;
  }

  lemma {:induction false} FullPagesFit(line: Timeline, limit: nat, cursor: Cursor, pages: seq<Page>)
    requires limit >= 1 && IsScroll(line, limit, cursor, pages)
    ensures SocketRateLimit.Times(|pages| - 1, limit) <= |Matching(line, cursor)|
    decreases |pages|
  {
    if pages[0].nextCursor.Some? {
      var rest := Before(pages[0].nextCursor.value);
      FullPagesFit(line, limit, rest, pages[1..]);
      OneMoreFits(line, limit, cursor, pages[0], SocketRateLimit.Times(|pages| - 2, limit));
      TimesNext(|pages| - 1, limit);
    }
  }

  lemma OneMoreFits(line: Timeline, limit: nat, cursor: Cursor, page: Page, n: int)
    requires limit >= 1 && IsPage(line, limit, cursor, page) && page.nextCursor.Some?
    requires n <= |Matching(line, Before(page.nextCursor.value))|
    ensures limit + n <= |Matching(line, cursor)|
  {
    PageMeaning(line, limit, cursor, page);
    PageConsumes(line, limit, cursor, page);
  }

  lemma TimesNext(n: nat, limit: nat)
    requires n > 0
    ensures SocketRateLimit.Times(n, limit) == limit + SocketRateLimit.Times(n - 1, limit)
  {
  }

  /** A scroll over an unchanging conversation ends: its full pages have no more entries than there are
      messages below the first cursor. */
  lemma ScrollTerminates(line: Timeline, limit: nat, cursor: Cursor, pages: seq<Page>)
    requires limit >= 1 && IsScroll(line, limit, cursor, pages)
    ensures (|pages| - 1) * limit <= |Matching(line, cursor)|
  {
    FullPagesFit(line, limit, cursor, pages);
    TimesIsProduct(|pages| - 1, limit);
  }

  /** Below the cursor, both timelines hold the same messages at the same times. */
  ghost predicate AgreeBelow(a: Timeline, b: Timeline, cursor: Cursor) {
    Matching(a, cursor) == Matching(b, cursor) && forall m :: m in Matching(a, cursor) ==> a[m] == b[m]
  }

  lemma AnswerFollowsAgreement(a: Timeline, b: Timeline, limit: nat, cursor: Cursor, page: Page)
    requires limit >= 1 && AgreeBelow(a, b, cursor) && IsPage(a, limit, cursor, page)
    ensures IsPage(b, limit, cursor, page)
  {
    var found: seq<MessageId> :| IsAnswer(a, cursor, limit + 1, found) && page == MakePage(a, limit, found);
    TopFollowsAgreement(a, b, cursor, found);
    assert IsAnswer(b, cursor, limit + 1, found);
    assert page == MakePage(b, limit, found);
  }

  lemma TopFollowsAgreement(a: Timeline, b: Timeline, cursor: Cursor, found: seq<MessageId>)
    requires AgreeBelow(a, b, cursor) && IsTop(a, cursor, found)
    ensures IsTop(b, cursor, found) && forall i :: 0 <= i < |found| ==> a[found[i]] == b[found[i]]
  {
  }

  /** The timelines at each request agree, below that request's cursor, with the one at the first request. */
  ghost predicate OnlyChangedAbove(first: Timeline, lines: seq<Timeline>, cursor: Cursor, pages: seq<Page>)
    requires |lines| == |pages|
    decreases |pages|
  {
    pages == [] ||
    (AgreeBelow(lines[0], first, cursor) &&
     (pages[0].nextCursor.Some? ==> OnlyChangedAbove(first, lines[1..], Before(pages[0].nextCursor.value), pages[1..])))
  }

  /** Whatever is stored between requests at or above the cursor then in use, the pages are a scroll of the
      conversation as it was at the first request. */
  lemma {:induction false} ScrollIsStable(first: Timeline, lines: seq<Timeline>, limit: nat, cursor: Cursor,
                                          pages: seq<Page>)
    requires limit >= 1 && IsLiveScroll(lines, limit, cursor, pages)
    requires OnlyChangedAbove(first, lines, cursor, pages)
    ensures IsScroll(first, limit, cursor, pages)
    decreases |pages|
  {
    AnswerFollowsAgreement(lines[0], first, limit, cursor, pages[0]);
    if pages[0].nextCursor.Some? {
      ScrollIsStable(first, lines[1..], limit, Before(pages[0].nextCursor.value), pages[1..]);
    }
  }

  lemma AgreeTrans(a: Timeline, b: Timeline, c: Timeline, cursor: Cursor)
    requires AgreeBelow(a, b, cursor) && AgreeBelow(b, c, cursor)
    ensures AgreeBelow(a, c, cursor)
  {
  }

  /** The messages a run of handlers stores in conversation c are not older than `at`. */
  predicate StoresNothingBelow(limits: Limits, w: World, es: seq<Event>, c: ConversationId, at: nat)
    decreases |es|
  {
    es == [] ||
    ((Stores(limits, w, es[0]) && es[0].conversation == c ==> es[0].createdAt >= at) &&
     StoresNothingBelow(limits, Next(limits, w, es[0]), es[1..], c, at))
  }

  /** Between two requests the server may run any handlers, as long as the messages they add to this
      conversation are not older than the cursor; statuses may change at will. */
  lemma {:induction false} ServerRunsKeepPages(limits: Limits, w: World, es: seq<Event>, c: ConversationId, at: nat)
    requires LegalRun(limits, w, es) && StoresNothingBelow(limits, w, es, c, at)
    ensures AgreeBelow(TimelineOf(Run(limits, w, es).db, c), TimelineOf(w.db, c), Before(at))
    ensures SameBelow(Run(limits, w, es).db, w.db, c, at)
    decreases |es|
  {
    if es != [] {
      var w' := Next(limits, w, es[0]);
      ServerRunsKeepPages(limits, w', es[1..], c, at);
      NextExtends(limits, w, es[0]);
      NewMessages(limits, w, es[0]);
      AddsNotBelow(w.db, w'.db, c, at);
      SameBelowTrans(Run(limits, w, es).db, w'.db, w.db, c, at);
      AgreeTrans(TimelineOf(Run(limits, w, es).db, c), TimelineOf(w'.db, c), TimelineOf(w.db, c), Before(at));
    }
  }

  lemma NewMessages(limits: Limits, w: World, e: Event)
    ensures forall m :: m in Next(limits, w, e).db.messages && m !in w.db.messages ==>
              && Stores(limits, w, e)
              && Next(limits, w, e).db.messages[m].conversation == e.conversation
              && Next(limits, w, e).db.messages[m].createdAt == e.createdAt
  {
  }

  lemma AddsNotBelow(db: Store, db': Store, c: ConversationId, at: nat)
    requires Extends(db, db')
    requires forall m :: m in db'.messages && m !in db.messages && db'.messages[m].conversation == c ==>
                           db'.messages[m].createdAt >= at
    ensures AgreeBelow(TimelineOf(db', c), TimelineOf(db, c), Before(at)) && SameBelow(db', db, c, at)
  {
  }

  /** Both stores hold the same messages of conversation c older than `at`. */
  ghost predicate SameBelow(a: Store, b: Store, c: ConversationId, at: nat) {
    forall m :: StoredBelow(a, c, at, m) <==> StoredBelow(b, c, at, m)
  }

  predicate StoredBelow(db: Store, c: ConversationId, at: nat, m: MessageId) {
    m in db.messages && db.messages[m].conversation == c && db.messages[m].createdAt < at
  }

  lemma SameBelowTrans(a: Store, b: Store, d: Store, c: ConversationId, at: nat)
    requires SameBelow(a, b, c, at) && SameBelow(b, d, c, at)
    ensures SameBelow(a, d, c, at)
  {
  }

  /** What a client sees that follows `nextCursor` while the server works: after each page the server runs one
      of the segments, all of whose new messages in the conversation are at or above the cursor then in use. */
  ghost predicate IsServedScroll(limits: Limits, w: World, segments: seq<seq<Event>>, c: ConversationId, limit: nat,
                                 cursor: Cursor, pages: seq<Page>)
    requires limit >= 1
    decreases |pages|
  {
    && pages != []
    && IsPage(TimelineOf(w.db, c), limit, cursor, pages[0])
    && match pages[0].nextCursor
       case None => |pages| == 1 && segments == []
       case Some(at) =>
         && segments != [] && LegalRun(limits, w, segments[0]) && StoresNothingBelow(limits, w, segments[0], c, at)
         && IsServedScroll(limits, Run(limits, w, segments[0]), segments[1..], c, limit, Before(at), pages[1..])
  }

  lemma AgreeNarrows(a: Timeline, b: Timeline, cursor: Cursor, at: nat)
    requires AgreeBelow(a, b, cursor) && Below(cursor, at)
    ensures AgreeBelow(a, b, Before(at))
  {
    forall m ensures m in Matching(a, Before(at)) <==> m in Matching(b, Before(at)) {
      assert m in Matching(a, Before(at)) <==> m in Matching(a, cursor) && a[m] < at;
      assert m in Matching(b, Before(at)) <==> m in Matching(b, cursor) && b[m] < at;
    }
  }

  /** Timelines that agree below the cursor have the same scrolls from it. */
  lemma {:induction false} ScrollFollowsAgreement(a: Timeline, b: Timeline, limit: nat, cursor: Cursor,
                                                  pages: seq<Page>)
    requires limit >= 1 && AgreeBelow(a, b, cursor) && IsScroll(a, limit, cursor, pages)
    ensures IsScroll(b, limit, cursor, pages)
    decreases |pages|
  {
    AnswerFollowsAgreement(a, b, limit, cursor, pages[0]);
    if pages[0].nextCursor.Some? {
      PageMeaning(a, limit, cursor, pages[0]);
      PageNarrows(a, limit, cursor, pages[0]);
      AgreeNarrows(a, b, cursor, pages[0].nextCursor.value);
      ScrollFollowsAgreement(a, b, limit, Before(pages[0].nextCursor.value), pages[1..]);
    }
  }

  /** Whatever handlers the server runs between the requests, if the messages they add are at or above the
      cursor in use, the pages served are a scroll of the conversation as it was at the first request. */
  lemma {:induction false} ServedScrollIsSnapshot(limits: Limits, w: World, segments: seq<seq<Event>>,
                                                  c: ConversationId, limit: nat, cursor: Cursor, pages: seq<Page>)
    requires limit >= 1 && IsServedScroll(limits, w, segments, c, limit, cursor, pages)
    ensures IsScroll(TimelineOf(w.db, c), limit, cursor, pages)
    decreases |pages|
  {
    if pages[0].nextCursor.Some? {
      var at, w' := pages[0].nextCursor.value, Run(limits, w, segments[0]);
      ServedScrollIsSnapshot(limits, w', segments[1..], c, limit, Before(at), pages[1..]);
      ServerRunsKeepPages(limits, w, segments[0], c, at);
      ScrollFollowsAgreement(TimelineOf(w'.db, c), TimelineOf(w.db, c), limit, Before(at), pages[1..]);
    }
  }

  /** Among the stored messages of c, newest first, the end of the k-th page falls inside the group of time t. */
  ghost predicate StoreGroupCut(db: Store, c: ConversationId, limit: nat, t: nat, k: nat) {
    var newer := |set m | m in db.messages && db.messages[m].conversation == c && db.messages[m].createdAt > t|;
    var same := |set m | m in db.messages && db.messages[m].conversation == c && db.messages[m].createdAt == t|;
    k >= 1 && newer < k * limit < newer + same
  }

  lemma StoreCutIsCut(db: Store, c: ConversationId, limit: nat, t: nat, k: nat)
    ensures StoreGroupCut(db, c, limit, t, k) <==> CutsGroup(TimelineOf(db, c), limit, Newest, t, k)
  {
    var line := TimelineOf(db, c);
    assert NewerThan(line, Newest, t) ==
           set m | m in db.messages && db.messages[m].conversation == c && db.messages[m].createdAt > t;
    assert SameTime(line, Newest, t) ==
           set m | m in db.messages && db.messages[m].conversation == c && db.messages[m].createdAt == t;
  }

  lemma NoStoreCut(db: Store, c: ConversationId, limit: nat)
    ensures SomeGroupCut(TimelineOf(db, c), limit, Newest) <==>
              exists t: nat, k: nat :: StoreGroupCut(db, c, limit, t, k)
  {
    forall t: nat, k: nat
      ensures StoreGroupCut(db, c, limit, t, k) <==> CutsGroup(TimelineOf(db, c), limit, Newest, t, k)
    {
      StoreCutIsCut(db, c, limit, t, k);
    }
  }

  /** Stored messages of c, none twice, newest first. */
  ghost predicate AreStored(db: Store, c: ConversationId, ids: seq<MessageId>) {
    && (forall i :: 0 <= i < |ids| ==> ids[i] in db.messages && db.messages[ids[i]].conversation == c)
    && (forall i, j :: 0 <= i < j < |ids| ==>
          ids[i] != ids[j] && db.messages[ids[i]].createdAt >= db.messages[ids[j]].createdAt)
  }

  lemma ShownAreStored(db: Store, c: ConversationId, pages: seq<Page>)
    requires ShowsUpToTies(TimelineOf(db, c), Newest, pages)
    ensures AreStored(db, c, Shown(pages))
  {
    var ids := Shown(pages);
    assert forall i :: 0 <= i < |ids| ==> ids[i] in ids;
  }

  lemma ShowsAllStored(db: Store, c: ConversationId, pages: seq<Page>)
    ensures ShowsAll(TimelineOf(db, c), Newest, pages) <==>
              forall m :: m in db.messages && db.messages[m].conversation == c ==> m in Shown(pages)
  {
    var line := TimelineOf(db, c);
    assert forall m :: m in Matching(line, Newest) <==> m in db.messages && db.messages[m].conversation == c;
  }

  /** What a scroll from the newest message on shows, in terms of the store at its first request: messages of the
      conversation, none twice, newest first; and all of them exactly when no page boundary falls inside a group of
      equal timestamps. */
  lemma ServedScrollShowsStored(limits: Limits, w: World, segments: seq<seq<Event>>, c: ConversationId, limit: nat,
                                pages: seq<Page>)
    requires limit >= 1 && IsServedScroll(limits, w, segments, c, limit, Newest, pages)
    ensures AreStored(w.db, c, Shown(pages))
    ensures (forall m :: m in w.db.messages && w.db.messages[m].conversation == c ==> m in Shown(pages)) <==>
              !exists t: nat, k: nat :: StoreGroupCut(w.db, c, limit, t, k)
  {
    var line := TimelineOf(w.db, c);
    ServedScrollIsSnapshot(limits, w, segments, c, limit, Newest, pages);
    ScrollWithTies(line, limit, Newest, pages);
    ShownAreStored(w.db, c, pages);
    ShowsAllIff(line, limit, Newest, pages);
    ShowsAllStored(w.db, c, pages);
    NoStoreCut(w.db, c, limit);
  }

  // ---------- Scrolls exist ----------

  lemma {:induction false} NewestExists(line: Timeline, s: set<MessageId>) returns (x: MessageId)
    requires s != {} && s <= line.Keys
    ensures x in s && forall y :: y in s ==> line[y] <= line[x]
  {
    x :| x in s;
    if s != {x} {
      var z := NewestExists(line, s - {x});
      if line[z] > line[x] {
        x := z;
      }
    }
  }

  lemma {:induction false} TopExists(line: Timeline, s: set<MessageId>, n: nat) returns (ids: seq<MessageId>)
    requires s <= line.Keys
    ensures NoDuplicates(ids) && NewestFirst(line, ids) && |ids| == if |s| < n then |s| else n
    ensures forall i :: 0 <= i < |ids| ==> ids[i] in s
    ensures forall m :: m in s && m !in ids ==> NotNewer(line, m, ids)
    decreases n
  {
    if n == 0 || s == {} {
      ids := [];
    } else {
      var x := NewestExists(line, s);
      var rest := TopExists(line, s - {x}, n - 1);
      ids := [x] + rest;
      forall m | m in s && m !in ids ensures NotNewer(line, m, ids) {
        assert m in s - {x} && m !in rest && NotNewer(line, m, rest);
      }
    }
  }

  /** Whatever the conversation holds, following `nextCursor` can always be carried to its end. */
  lemma {:induction false} ScrollExists(line: Timeline, limit: nat, cursor: Cursor) returns (pages: seq<Page>)
    requires limit >= 1
    ensures IsScroll(line, limit, cursor, pages)
    decreases |Matching(line, cursor)|
  {
    var found := TopExists(line, Matching(line, cursor), limit + 1);
    assert IsAnswer(line, cursor, limit + 1, found);
    var page := MakePage(line, limit, found);
    PageMeaning(line, limit, cursor, page);
    pages := [page];
    if page.nextCursor.Some? {
      PageConsumes(line, limit, cursor, page);
      var rest := ScrollExists(line, limit, Before(page.nextCursor.value));
      pages := [page] + rest;
      assert pages[1..] == rest;
    }
  }
}
