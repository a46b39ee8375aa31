/** The per-user limiter of src/middlewares/socketRateLimit.middleware.ts. Calls carry the value of the
    clock; the results that speak about intervals assume the clock does not run backwards. */
module SocketRateLimit {
  import opened Domain

  datatype Bucket = Bucket(count: int, windowStart: int)

  /** `socketRateLimitMax` and `socketRateLimitWindowMs`. */
  datatype Limits = Limits(max: int, windowMs: int) {
    /** A fresh window admits its first call whatever `max` says. */
    function PerWindow(): int {
      if max < 1 then 1 else max
    }
  }

  type Buckets = map<UserId, Bucket>

  function Check(limits: Limits, buckets: Buckets, user: UserId, now: int): (Buckets, bool) {
    if user !in buckets || now - buckets[user].windowStart >= limits.windowMs then
      (buckets[user := Bucket(1, now)], true)
    else if buckets[user].count >= limits.max then
      (buckets, false)
    else
      (buckets[user := buckets[user].(count := buckets[user].count + 1)], true)
  }

  /** The module-level `buckets` map and the function that updates it. */
  class RateLimiter {
    const limits: Limits
    var buckets: Buckets

    constructor (limits: Limits)
      ensures this.limits == limits && buckets == map[]
    {
      this.limits := limits;
      buckets := map[];
    }

    method CheckMessageRateLimit(user: UserId, now: int) returns (allowed: bool)
      modifies this
      ensures (buckets, allowed) == Check(limits, old(buckets), user, now)
    {
      if user !in buckets || now - buckets[user].windowStart >= limits.windowMs {
        buckets := buckets[user := Bucket(1, now)];
        return true;
      }
      var bucket := buckets[user];
      if bucket.count >= limits.max {
        return false;
      }
      buckets := buckets[user := bucket.(count := bucket.count + 1)];
      return true;
    }
  }

  // ---------- Runs ----------

  /** One `message:send`, from any of the user's sockets, at clock value `at`. */
  datatype Call = Call(user: UserId, socket: SocketId, at: int)

  ghost function After(limits: Limits, calls: seq<Call>): Buckets {
    if calls == [] then map[] else
      var n := |calls| - 1;
      Check(limits, After(limits, calls[..n]), calls[n].user, calls[n].at).0
  }

  /** Whether a call by `user` at `now` is let through after the given calls. */
  ghost predicate Allowed(limits: Limits, calls: seq<Call>, user: UserId, now: int) {
    Check(limits, After(limits, calls), user, now).1
  }

  /** The clock values of the user's accepted calls, in order. */
  ghost function AcceptedLog(limits: Limits, calls: seq<Call>, user: UserId): seq<int> {
    if calls == [] then [] else
      var n := |calls| - 1;
      var log := AcceptedLog(limits, calls[..n], user);
      if calls[n].user == user && Allowed(limits, calls[..n], user, calls[n].at) then log + [calls[n].at] else log
  }

  ghost predicate ClockMonotone(calls: seq<Call>) {
    forall i, j :: 0 <= i < j < |calls| ==> calls[i].at <= calls[j].at
  }

  // ---------- Reference: the greedy partition of the full history ----------

  ghost function Flatten(ws: seq<seq<int>>): seq<int> {
    if ws == [] then [] else Flatten(ws[..|ws| - 1]) + ws[|ws| - 1]
  }

  ghost predicate StillOpen(w: int, window: seq<int>) {
    window != [] && forall j :: 0 <= j < |window| ==> j == 0 || window[j] - window[0] < w
  }

  /** Each window holds entries within `w` of its first one; every later window opens `w` or more later. */
  ghost predicate Greedy(w: int, ws: seq<seq<int>>) {
    && (forall i :: 0 <= i < |ws| ==> StillOpen(w, ws[i]))
    && (forall i, j :: 0 <= i < j < |ws| ==> ws[j][0] - ws[i][0] >= w)
  }

  /** The next entry joins the newest window if it is still open, and opens a new one otherwise. */
  ghost function Extend(w: int, ws: seq<seq<int>>, x: int): seq<seq<int>> {
    var last := |ws| - 1;
    if ws == [] || ws[last] == [] || x - ws[last][0] >= w then ws + [[x]]
    else ws[..last] + [ws[last] + [x]]
  }

  ghost function Windows(w: int, log: seq<int>): seq<seq<int>> {
    if log == [] then [] else Extend(w, Windows(w, log[..|log| - 1]), log[|log| - 1])
  }

  lemma WindowsSnoc(w: int, log: seq<int>, x: int)
    ensures Windows(w, log + [x]) == Extend(w, Windows(w, log), x)
  {
  }

  lemma ExtendKeepsGreedy(w: int, ws: seq<seq<int>>, x: int)
    requires w >= 1 && Greedy(w, ws)
    ensures Greedy(w, Extend(w, ws, x))
  {
  }

  lemma ExtendFlatten(w: int, ws: seq<seq<int>>, x: int)
    ensures Flatten(Extend(w, ws, x)) == Flatten(ws) + [x]
  {
    var last := |ws| - 1;
    if ws == [] || ws[last] == [] || x - ws[last][0] >= w {
      FlattenSnoc(ws, [x]);
    } else {
      FlattenSnoc(ws[..last], ws[last] + [x]);
    }
  }

  lemma ExtendGreedy(w: int, ws: seq<seq<int>>, x: int)
    requires w >= 1 && Greedy(w, ws)
    ensures Greedy(w, Extend(w, ws, x)) && Flatten(Extend(w, ws, x)) == Flatten(ws) + [x]
  {
    ExtendKeepsGreedy(w, ws, x);
    ExtendFlatten(w, ws, x);
  }

  /** The windows partition the history greedily. */
  lemma {:induction false} WindowsAreGreedy(w: int, log: seq<int>)
    requires w >= 1
    ensures Greedy(w, Windows(w, log)) && Flatten(Windows(w, log)) == log
    ensures log == [] <==> Windows(w, log) == []
  {
    if log != [] {
      var earlier := log[..|log| - 1];
      WindowsAreGreedy(w, earlier);
      ExtendGreedy(w, Windows(w, earlier), log[|log| - 1]);
      assert log == earlier + [log[|log| - 1]];
    }
  }

  /** No other partition is greedy. */
  lemma {:induction false} GreedyPartitionIsUnique(w: int, ws: seq<seq<int>>)
    requires w >= 1 && Greedy(w, ws)
    ensures ws == Windows(w, Flatten(ws))
    decreases |Flatten(ws)|
  {
    if ws != [] {
      var x, shorter := DropNewest(w, ws);
      ExtendGreedy(w, shorter, x);
      GreedyPartitionIsUnique(w, shorter);
      WindowsSnoc(w, Flatten(shorter), x);
    }
  }

  lemma DropNewest(w: int, ws: seq<seq<int>>) returns (x: int, shorter: seq<seq<int>>)
    requires w >= 1 && Greedy(w, ws) && ws != []
    ensures Greedy(w, shorter) && ws == Extend(w, shorter, x)
  {
    var last := |ws| - 1;
    var m := |ws[last]| - 1;
    x := ws[last][m];
    if m == 0 {
      shorter := ws[..last];
      assert ws[last] == [x];
      assert ws == shorter + [[x]];
    } else {
      shorter := ws[..last] + [ws[last][..m]];
      assert shorter[..last] == ws[..last] && shorter[last] + [x] == ws[last];
      assert ws == shorter[..last] + [shorter[last] + [x]];
    }
  }

  /** Decide from the whole history of accepted calls: there is none, or the newest window has expired,
      or it still has room. */
  ghost predicate ReferenceAllows(limits: Limits, log: seq<int>, now: int) {
    var ws := Windows(limits.windowMs, log);
    ws == [] || ws[|ws| - 1] == [] ||
    var newest := ws[|ws| - 1];
    now - newest[0] >= limits.windowMs || |newest| < limits.max
  }

  ghost predicate BucketIsNewest(limits: Limits, buckets: Buckets, log: seq<int>, user: UserId) {
    BucketIsLast(buckets, Windows(limits.windowMs, log), user)
  }

  ghost predicate BucketIsLast(buckets: Buckets, ws: seq<seq<int>>, user: UserId) {
    if ws == [] then user !in buckets else
      var newest := ws[|ws| - 1];
      newest != [] && user in buckets && buckets[user] == Bucket(|newest|, newest[0])
  }

  lemma CheckExtendsLast(limits: Limits, buckets: Buckets, ws: seq<seq<int>>, user: UserId, now: int)
    requires BucketIsLast(buckets, ws, user)
    ensures var (buckets', allowed) := Check(limits, buckets, user, now);
            BucketIsLast(buckets', if allowed then Extend(limits.windowMs, ws, now) else ws, user)
  {
  }

  lemma CheckKeepsNewest(limits: Limits, buckets: Buckets, log: seq<int>, user: UserId, caller: UserId, now: int)
    requires BucketIsNewest(limits, buckets, log, user)
    ensures var (buckets', allowed) := Check(limits, buckets, caller, now);
            BucketIsNewest(limits, buckets', if caller == user && allowed then log + [now] else log, user)
  {
    if caller == user {
      CheckExtendsLast(limits, buckets, Windows(limits.windowMs, log), user, now);
      WindowsSnoc(limits.windowMs, log, now);
    }
  }

  /** The constant-size bucket is the newest window of the greedy partition of the user's accepted calls,
      and decides every next call as the reference does from the whole history. */
  lemma {:induction false} BucketRefinesHistory(limits: Limits, calls: seq<Call>, user: UserId, now: int)
    ensures BucketIsNewest(limits, After(limits, calls), AcceptedLog(limits, calls, user), user)
    ensures Allowed(limits, calls, user, now) <==>
              ReferenceAllows(limits, AcceptedLog(limits, calls, user), now)
  {
    if calls != [] {
      var n := |calls| - 1;
      BucketRefinesHistory(limits, calls[..n], user, calls[n].at);
      CheckKeepsNewest(limits, After(limits, calls[..n]), AcceptedLog(limits, calls[..n], user), user,
                       calls[n].user, calls[n].at);
    }
  }

  // ---------- Rejected calls and other users leave no trace ----------

  ghost function Kept(calls: seq<Call>, keep: seq<bool>): seq<Call>
    requires |keep| == |calls|
  {
    if calls == [] then [] else
      var n := |calls| - 1;
      Kept(calls[..n], keep[..n]) + if keep[n] then [calls[n]] else []
  }

  /** Drop from a run any of the user's rejected calls and any calls of other users: the user's history
      of accepted calls, and so the answer to the user's next call, is the same. */
  lemma {:induction false} OnlyOwnAcceptedCallsMatter(limits: Limits, calls: seq<Call>, keep: seq<bool>, user: UserId,
                                                      now: int)
    requires |keep| == |calls|
    requires forall i :: 0 <= i < |calls| ==>
               (calls[i].user == user && Allowed(limits, calls[..i], user, calls[i].at) ==> keep[i])
    ensures AcceptedLog(limits, Kept(calls, keep), user) == AcceptedLog(limits, calls, user)
    ensures Allowed(limits, Kept(calls, keep), user, now) == Allowed(limits, calls, user, now)
  {
    if calls != [] {
      var n := |calls| - 1;
      forall i | 0 <= i < n ensures calls[..n][..i] == calls[..i] {
      }
      OnlyOwnAcceptedCallsMatter(limits, calls[..n], keep[..n], user, calls[n].at);
      var before := Kept(calls[..n], keep[..n]);
      if keep[n] {
        assert (before + [calls[n]])[..|before|] == before;
      } else {
        assert Kept(calls, keep) == before;
      }
    }
    BucketRefinesHistory(limits, calls, user, now);
    BucketRefinesHistory(limits, Kept(calls, keep), user, now);
  }

  // ---------- The rate bound ----------

  /** Number of entries in the half-open interval [lo, hi). */
  ghost function Count(log: seq<int>, lo: int, hi: int): nat {
    if log == [] then 0 else
      var n := |log| - 1;
      Count(log[..n], lo, hi) + if lo <= log[n] < hi then 1 else 0
  }

  ghost predicate Within(log: seq<int>, lo: int, hi: int) {
    forall i :: 0 <= i < |log| ==> lo <= log[i] < hi
  }

  lemma {:induction false} CountAtMost(log: seq<int>, lo: int, hi: int)
    ensures Count(log, lo, hi) <= |log|
    ensures log != [] && log[0] < lo ==> Count(log, lo, hi) <= |log| - 1
  {
    if log != [] {
      CountAtMost(log[..|log| - 1], lo, hi);
    }
  }

  lemma {:induction false} CountNone(log: seq<int>, lo: int, hi: int)
    requires forall i :: 0 <= i < |log| ==> log[i] < lo || hi <= log[i]
    ensures Count(log, lo, hi) == 0
  {
    if log != [] {
      CountNone(log[..|log| - 1], lo, hi);
    }
  }

  lemma {:induction false} CountAll(log: seq<int>, lo: int, hi: int)
    requires Within(log, lo, hi)
    ensures Count(log, lo, hi) == |log|
  {
    if log != [] {
      CountAll(log[..|log| - 1], lo, hi);
    }
  }

  lemma {:induction false} CountConcat(a: seq<int>, b: seq<int>, lo: int, hi: int)
    ensures Count(a + b, lo, hi) == Count(a, lo, hi) + Count(b, lo, hi)
  {
    if b == [] {
      assert a + b == a;
    } else {
      var n := |b| - 1;
      assert (a + b)[..|a| + n] == a + b[..n];
      CountConcat(a, b[..n], lo, hi);
    }
  }

  /** Greedy windows of at most `perWindow` entries, none of them before the entry that opened its window. */
  ghost predicate Spaced(w: int, ws: seq<seq<int>>, perWindow: int) {
    && Greedy(w, ws)
    && (forall i :: 0 <= i < |ws| ==> Fits(ws[i], perWindow))
  }

  ghost predicate Fits(window: seq<int>, perWindow: int) {
    |window| <= perWindow && forall j :: 0 <= j < |window| ==> window[0] <= window[j]
  }

  /** k * w, by repeated addition. */
  ghost function Times(k: nat, w: int): int {
    if k == 0 then 0 else w + Times(k - 1, w)
  }

  lemma {:induction false} TimesIsProduct(k: nat, w: int)
    ensures Times(k, w) == k * w
  {
    if k > 0 {
      TimesIsProduct(k - 1, w);
      assert (k - 1) * w + w == k * w;
    }
  }

  /** Entries of windows older than one that opened before t are all before t. */
  lemma {:induction false} OlderWindowsBefore(w: int, ws: seq<seq<int>>, perWindow: int, t: int, hi: int)
    requires w >= 1 && Spaced(w, ws, perWindow)
    requires ws != [] ==> ws[|ws| - 1][0] + w <= t
    ensures Count(Flatten(ws), t, hi) == 0
  {
    if ws != [] {
      var last := |ws| - 1;
      OlderWindowsBefore(w, ws[..last], perWindow, t, hi);
      CountNone(ws[last], t, hi);
      CountConcat(Flatten(ws[..last]), ws[last], t, hi);
    }
  }

  /** Windows opening before t + k * w: k of them at most open at t or later, and one that opened before t
      can still hold perWindow - 1 entries from t on (none, if a window lasts 1 ms). */
  lemma {:induction false} CountOpened(w: int, ws: seq<seq<int>>, perWindow: int, t: int, hi: int, k: nat)
    requires w >= 1 && perWindow >= 1 && Spaced(w, ws, perWindow)
    requires ws != [] ==> ws[|ws| - 1][0] < t + Times(k, w)
    ensures Count(Flatten(ws), t, hi) <= Times(k, perWindow) + (if w == 1 then 0 else perWindow - 1)
  {
    if ws == [] {
      TimesNonNegative(k, perWindow);
    } else {
      var last := |ws| - 1;
      var newest := ws[last];
      CountConcat(Flatten(ws[..last]), newest, t, hi);
      CountAtMost(newest, t, hi);
      if newest[0] < t {
        OlderWindowsBefore(w, ws[..last], perWindow, t, hi);
        TimesNonNegative(k, perWindow);
        if w == 1 {
          CountNone(newest, t, hi);
        }
      } else {
        CountOpened(w, ws[..last], perWindow, t, hi, k - 1);
      }
    }
  }

  lemma {:induction false} TimesNonNegative(k: nat, w: int)
    requires w >= 0
    ensures Times(k, w) >= 0
  {
    if k > 0 {
      TimesNonNegative(k - 1, w);
    }
  }

  lemma {:induction false} CountAnywhere(w: int, ws: seq<seq<int>>, perWindow: int, t: int, k: nat)
    requires w >= 1 && perWindow >= 1 && Spaced(w, ws, perWindow)
    ensures Count(Flatten(ws), t, t + Times(k, w)) <= Times(k, perWindow) + (if w == 1 then 0 else perWindow - 1)
  {
    var hi := t + Times(k, w);
    if ws != [] && ws[|ws| - 1][0] >= hi {
      var last := |ws| - 1;
      CountNone(ws[last], t, hi);
      CountConcat(Flatten(ws[..last]), ws[last], t, hi);
      CountAnywhere(w, ws[..last], perWindow, t, k);
    } else {
      CountOpened(w, ws, perWindow, t, hi, k);
    }
  }

  ghost predicate OpenedBy(ws: seq<seq<int>>, now: int) {
    forall i :: 0 <= i < |ws| && ws[i] != [] ==> ws[i][0] <= now
  }

  lemma ExtendSpaced(w: int, ws: seq<seq<int>>, x: int, perWindow: int)
    requires w >= 1 && perWindow >= 1 && Spaced(w, ws, perWindow) && OpenedBy(ws, x)
    requires ws == [] || x - ws[|ws| - 1][0] >= w || |ws[|ws| - 1]| < perWindow
    ensures Spaced(w, Extend(w, ws, x), perWindow) && OpenedBy(Extend(w, ws, x), x)
  {
    var last := |ws| - 1;
    if ws != [] && x - ws[last][0] < w {
      JoinWindow(w, ws, x, perWindow);
    } else {
      NewWindow(w, ws, [x], perWindow);
    }
  }

  lemma NewWindow(w: int, ws: seq<seq<int>>, window: seq<int>, perWindow: int)
    requires w >= 1 && Spaced(w, ws, perWindow) && StillOpen(w, window) && Fits(window, perWindow)
    requires ws != [] ==> window[0] - ws[|ws| - 1][0] >= w
    ensures Spaced(w, ws + [window], perWindow)
  {
  }

  lemma JoinWindow(w: int, ws: seq<seq<int>>, x: int, perWindow: int)
    requires w >= 1 && Spaced(w, ws, perWindow) && ws != []
    requires 0 <= x - ws[|ws| - 1][0] < w && |ws[|ws| - 1]| < perWindow
    ensures Spaced(w, ws[..|ws| - 1] + [ws[|ws| - 1] + [x]], perWindow)
  {
    var last := |ws| - 1;
    assert Fits(ws[last], perWindow) && StillOpen(w, ws[last]);
    assert Spaced(w, ws[..last], perWindow);
    NewWindow(w, ws[..last], ws[last] + [x], perWindow);
  }

  lemma {:induction false} AcceptedWindowsSpaced(limits: Limits, calls: seq<Call>, user: UserId)
    requires limits.windowMs >= 1 && ClockMonotone(calls)
    ensures var ws := Windows(limits.windowMs, AcceptedLog(limits, calls, user));
            Spaced(limits.windowMs, ws, limits.PerWindow()) &&
            (calls == [] ==> ws == []) && (calls != [] ==> OpenedBy(ws, calls[|calls| - 1].at))
  {
    if calls != [] {
      var n := |calls| - 1;
      var log, x := AcceptedLog(limits, calls[..n], user), calls[n].at;
      var ws := Windows(limits.windowMs, log);
      AcceptedWindowsSpaced(limits, calls[..n], user);
      assert OpenedBy(ws, x);
      BucketRefinesHistory(limits, calls[..n], user, x);
      if calls[n].user == user && Allowed(limits, calls[..n], user, x) {
        WindowsSnoc(limits.windowMs, log, x);
        ExtendSpaced(limits.windowMs, ws, x, limits.PerWindow());
      }
    }
  }

  /** The largest number of accepted calls an interval of k windows can hold. */
  ghost function Bound(limits: Limits, k: nat): int {
    k * limits.PerWindow() + (if limits.windowMs == 1 then 0 else limits.PerWindow() - 1)
  }

  lemma CountHistory(w: int, log: seq<int>, perWindow: int, t: int, k: nat)
    requires w >= 1 && perWindow >= 1 && Spaced(w, Windows(w, log), perWindow)
    ensures Count(log, t, t + Times(k, w)) <= Times(k, perWindow) + (if w == 1 then 0 else perWindow - 1)
  {
    var ws := Windows(w, log);
    WindowsAreGreedy(w, log);
    CountAnywhere(w, ws, perWindow, t, k);
  }

  lemma CountAccepted(limits: Limits, calls: seq<Call>, user: UserId, t: int, k: nat)
    requires limits.windowMs >= 1 && ClockMonotone(calls)
    ensures Count(AcceptedLog(limits, calls, user), t, t + Times(k, limits.windowMs)) <=
              Times(k, limits.PerWindow()) + (if limits.windowMs == 1 then 0 else limits.PerWindow() - 1)
  {
    AcceptedWindowsSpaced(limits, calls, user);
    CountHistory(limits.windowMs, AcceptedLog(limits, calls, user), limits.PerWindow(), t, k);
  }

  /** Over any run, any number of users and sockets and any call times: at most (k + 1) * max - 1 of a
      user's calls are accepted in [t, t + k * windowMs). */
  lemma RateBound(limits: Limits, calls: seq<Call>, user: UserId, t: int, k: nat)
    requires limits.windowMs >= 1 && ClockMonotone(calls)
    ensures Count(AcceptedLog(limits, calls, user), t, t + k * limits.windowMs) <= Bound(limits, k)
  {
    CountAccepted(limits, calls, user, t, k);
    TimesIsProduct(k, limits.windowMs);
    TimesIsProduct(k, limits.PerWindow());
  }

  // ---------- The bound is attained ----------

  ghost function Repeat(n: nat, x: int): (r: seq<int>)
    ensures |r| == n && forall i :: 0 <= i < n ==> r[i] == x
  {
    seq(n, _ => x)
  }

  /** A window that opens 1 ms before t and is filled at t, then k more, each filled as it opens. */
  ghost function Burst(w: int, perWindow: nat, t: int, k: nat): seq<seq<int>>
    requires perWindow >= 1
  {
    if k == 0 then [[t - 1] + Repeat(perWindow - 1, t)]
    else Burst(w, perWindow, t, k - 1) + [Repeat(perWindow, t - 1 + Times(k, w))]
  }

  lemma {:induction false} BurstSpaced(w: int, perWindow: nat, t: int, k: nat)
    requires w >= 2 && perWindow >= 1
    ensures var ws := Burst(w, perWindow, t, k);
            Spaced(w, ws, perWindow) && OpenedBy(ws, t - 1 + Times(k, w))
  {
    if k > 0 {
      BurstSpaced(w, perWindow, t, k - 1);
      NewWindow(w, Burst(w, perWindow, t, k - 1), Repeat(perWindow, t - 1 + Times(k, w)), perWindow);
    }
  }

  lemma {:induction false} BurstFillsInterval(w: int, perWindow: nat, t: int, k: nat, hi: int)
    requires w >= 2 && perWindow >= 1 && t + Times(k, w) <= hi && t < hi
    ensures Count(Flatten(Burst(w, perWindow, t, k)), t, hi) == Times(k, perWindow) + perWindow - 1
  {
    if k == 0 {
      var full := Repeat(perWindow - 1, t);
      FlattenOne([t - 1] + full);
      CountConcat([t - 1], full, t, hi);
      CountNone([t - 1], t, hi);
      CountAll(full, t, hi);
    } else {
      var full := Repeat(perWindow, t - 1 + Times(k, w));
      var earlier := Burst(w, perWindow, t, k - 1);
      TimesNonNegative(k - 1, w);
      BurstFillsInterval(w, perWindow, t, k - 1, hi);
      FlattenSnoc(earlier, full);
      CountConcat(Flatten(earlier), full, t, hi);
      CountAll(full, t, hi);
    }
  }

  /** The newest entry of a burst. */
  ghost function BurstEnd(w: int, t: int, k: nat): int {
    if k == 0 then t else t - 1 + Times(k, w)
  }

  lemma BurstEndsGrow(w: int, t: int, k: nat)
    requires w >= 2 && k > 0
    ensures BurstEnd(w, t, k - 1) <= BurstEnd(w, t, k) == t - 1 + Times(k, w)
  {
    TimesNonNegative(k - 1, w);
  }

  lemma {:induction false} BurstSorted(w: int, perWindow: nat, t: int, k: nat)
    requires w >= 2 && perWindow >= 1
    ensures SortedUpTo(Flatten(Burst(w, perWindow, t, k)), BurstEnd(w, t, k))
  {
    if k == 0 {
      FlattenOne([t - 1] + Repeat(perWindow - 1, t));
      SortedRepeat([t - 1], t - 1, perWindow - 1, t);
    } else {
      var earlier, top := Burst(w, perWindow, t, k - 1), t - 1 + Times(k, w);
      BurstSorted(w, perWindow, t, k - 1);
      BurstEndsGrow(w, t, k);
      SortedRepeat(Flatten(earlier), BurstEnd(w, t, k - 1), perWindow, top);
      FlattenSnoc(earlier, Repeat(perWindow, top));
    }
  }

  lemma SortedRepeat(log: seq<int>, low: int, n: nat, top: int)
    requires SortedUpTo(log, low) && low <= top
    ensures SortedUpTo(log + Repeat(n, top), top)
  {
  }

  lemma FlattenOne(x: seq<int>)
    ensures Flatten([x]) == x
  {
  }

  lemma FlattenSnoc(ws: seq<seq<int>>, x: seq<int>)
    ensures Flatten(ws + [x]) == Flatten(ws) + x
  {
  }

  ghost predicate SortedUpTo(log: seq<int>, top: int) {
    && (forall i, j :: 0 <= i < j < |log| ==> log[i] <= log[j])
    && (forall i :: 0 <= i < |log| ==> log[i] <= top)
  }

  ghost function CallsAt(user: UserId, socket: SocketId, log: seq<int>): seq<Call> {
    seq(|log|, i requires 0 <= i < |log| => Call(user, socket, log[i]))
  }

  ghost predicate NotOverfull(ws: seq<seq<int>>, perWindow: int) {
    forall i :: 0 <= i < |ws| ==> |ws[i]| <= perWindow
  }

  lemma NotOverfullBefore(w: int, ws: seq<seq<int>>, x: int, perWindow: int)
    requires NotOverfull(Extend(w, ws, x), perWindow)
    ensures NotOverfull(ws, perWindow)
    ensures ws == [] || ws[|ws| - 1] == [] || x - ws[|ws| - 1][0] >= w || |ws[|ws| - 1]| < perWindow
  {
    var more := Extend(w, ws, x);
    assert forall i :: 0 <= i < |ws| ==> |ws[i]| <= |more[i]|;
    if ws != [] {
      assert |more[|ws| - 1]| <= perWindow;
    }
  }

  lemma UnfilledWindowAccepts(limits: Limits, log: seq<int>, now: int)
    requires NotOverfull(Extend(limits.windowMs, Windows(limits.windowMs, log), now), limits.PerWindow())
    ensures NotOverfull(Windows(limits.windowMs, log), limits.PerWindow()) && ReferenceAllows(limits, log, now)
  {
    NotOverfullBefore(limits.windowMs, Windows(limits.windowMs, log), now, limits.PerWindow());
  }

  /** Calls offered at the times of a history whose greedy windows are not overfull are all accepted. */
  lemma {:induction false} UnfilledWindowsAccept(limits: Limits, user: UserId, socket: SocketId, log: seq<int>)
    requires limits.windowMs >= 1
    requires NotOverfull(Windows(limits.windowMs, log), limits.PerWindow())
    ensures AcceptedLog(limits, CallsAt(user, socket, log), user) == log
  {
    if log != [] {
      var n := |log| - 1;
      var calls, before := CallsAt(user, socket, log), log[..n];
      assert calls[..n] == CallsAt(user, socket, before);
      UnfilledWindowAccepts(limits, before, log[n]);
      UnfilledWindowsAccept(limits, user, socket, before);
      BucketRefinesHistory(limits, calls[..n], user, log[n]);
    }
  }

  lemma BurstIsAccepted(limits: Limits, user: UserId, socket: SocketId, t: int, k: nat)
    requires limits.windowMs >= 2
    ensures var log := Flatten(Burst(limits.windowMs, limits.PerWindow(), t, k));
            AcceptedLog(limits, CallsAt(user, socket, log), user) == log
  {
    var ws := Burst(limits.windowMs, limits.PerWindow(), t, k);
    BurstSpaced(limits.windowMs, limits.PerWindow(), t, k);
    GreedyPartitionIsUnique(limits.windowMs, ws);
    assert NotOverfull(ws, limits.PerWindow());
    UnfilledWindowsAccept(limits, user, socket, Flatten(ws));
  }

  lemma BurstCount(limits: Limits, t: int, k: nat)
    requires limits.windowMs >= 2 && k >= 1
    ensures Count(Flatten(Burst(limits.windowMs, limits.PerWindow(), t, k)), t, t + Times(k, limits.windowMs)) ==
              Times(k, limits.PerWindow()) + limits.PerWindow() - 1
  {
    TimesAtLeast(k, limits.windowMs);
    BurstFillsInterval(limits.windowMs, limits.PerWindow(), t, k, t + Times(k, limits.windowMs));
  }

  lemma BurstMonotone(limits: Limits, user: UserId, socket: SocketId, t: int, k: nat)
    requires limits.windowMs >= 2
    ensures ClockMonotone(CallsAt(user, socket, Flatten(Burst(limits.windowMs, limits.PerWindow(), t, k))))
  {
    var log := Flatten(Burst(limits.windowMs, limits.PerWindow(), t, k));
    BurstSorted(limits.windowMs, limits.PerWindow(), t, k);
    SortedCalls(user, socket, log, BurstEnd(limits.windowMs, t, k));
  }

  lemma TimesAtLeast(k: nat, w: int)
    requires k >= 1 && w >= 0
    ensures Times(k, w) >= w
  {
    TimesNonNegative(k - 1, w);
  }

  lemma SortedCalls(user: UserId, socket: SocketId, log: seq<int>, top: int)
    requires SortedUpTo(log, top)
    ensures ClockMonotone(CallsAt(user, socket, log))
  {
  }

  /** The bound is attained: for every k >= 1 and every window of at least 2 ms there is a run, on one
      socket, with exactly (k + 1) * max - 1 accepted calls in [t, t + k * windowMs). */
  lemma RateBoundAttained(limits: Limits, user: UserId, socket: SocketId, t: int, k: nat) returns (calls: seq<Call>)
    requires limits.windowMs >= 2 && k >= 1
    ensures ClockMonotone(calls)
    ensures Count(AcceptedLog(limits, calls, user), t, t + k * limits.windowMs) == Bound(limits, k)
  {
    calls := CallsAt(user, socket, Flatten(Burst(limits.windowMs, limits.PerWindow(), t, k)));
    BurstMonotone(limits, user, socket, t, k);
    BurstIsAccepted(limits, user, socket, t, k);
    BurstCount(limits, t, k);
    TimesIsProduct(k, limits.windowMs);
    TimesIsProduct(k, limits.PerWindow());
  }

  /** What the comments call a sliding window: never more than the limit in any one window's length. */
  ghost predicate SlidingWindow(limits: Limits) {
    forall calls, user, t :: ClockMonotone(calls) ==> InWindow(limits, calls, user, t) <= limits.max
  }

  ghost function InWindow(limits: Limits, calls: seq<Call>, user: UserId, t: int): nat {
    Count(AcceptedLog(limits, calls, user), t, t + limits.windowMs)
  }

  /** The limiter is a sliding window exactly when the limit is 1, or the window is 1 ms long and the limit
      positive: a limit below 1 still admits the first call. */
  lemma SlidingWindowIff(limits: Limits)
    requires limits.windowMs >= 1
    ensures SlidingWindow(limits) <==> limits.max == 1 || (limits.windowMs == 1 && limits.max >= 1)
  {
    if limits.max == 1 || (limits.windowMs == 1 && limits.max >= 1) {
      forall calls, user, t | ClockMonotone(calls)
        ensures InWindow(limits, calls, user, t) <= limits.max
      {
        RateBound(limits, calls, user, t, 1);
      }
    } else if limits.max < 1 {
      FirstCallAccepted(limits);
      assert InWindow(limits, [Call(0, 0, 0)], 0, 0) > limits.max;
    } else {
      var calls := RateBoundAttained(limits, 0, 0, 0, 1);
      assert InWindow(limits, calls, 0, 0) > limits.max;
    }
  }

  lemma FirstCallAccepted(limits: Limits)
    requires limits.windowMs >= 1
    ensures ClockMonotone([Call(0, 0, 0)]) && InWindow(limits, [Call(0, 0, 0)], 0, 0) == 1
  {
    assert [Call(0, 0, 0)][..0] == [];
    assert AcceptedLog(limits, [Call(0, 0, 0)], 0) == [] + [0] == [0];
    CountAll([0], 0, limits.windowMs);
  }
}
