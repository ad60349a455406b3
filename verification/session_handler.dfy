/**
 * The two pure list operations of the session handler: keeping the sessions
 * created after a given instant, and sorting sessions by one of their keys.
 * The session list itself comes from the remote API and is a parameter here.
 */
module SessionHandler {
  import opened Records

  // ------------------------------------------------------- string ordering

  /** Python's `<` on `str`: code-point lexicographic order, a proper prefix first. */
  predicate StrLess(a: string, b: string) {
    if |b| == 0 then false
    else if |a| == 0 then true
    else if a[0] != b[0] then a[0] < b[0]
    else StrLess(a[1..], b[1..])
  }

  lemma {:induction false} StrLessIrreflexive(a: string)
    ensures !StrLess(a, a)
  {
    if |a| > 0 {
      StrLessIrreflexive(a[1..]);
    }
  }

  lemma {:induction false} StrLessTransitive(a: string, b: string, c: string)
    requires StrLess(a, b) && StrLess(b, c)
    ensures StrLess(a, c)
  {
    if |a| > 0 && a[0] == b[0] && b[0] == c[0] {
      StrLessTransitive(a[1..], b[1..], c[1..]);
    }
  }

  lemma {:induction false} StrLessTotal(a: string, b: string)
    ensures a == b || StrLess(a, b) || StrLess(b, a)
  {
    if |a| > 0 && |b| > 0 && a[0] == b[0] {
      StrLessTotal(a[1..], b[1..]);
      if a[1..] == b[1..] {
        assert a == [a[0]] + a[1..] && b == [b[0]] + b[1..];
      }
    }
  }

  // ---------------------------------------------------------- stable sort

  /** Non-decreasing in `key`: no later session has a key strictly below an earlier one. */
  ghost predicate SortedBy(sessions: seq<Session>, key: Session -> string) {
    forall i, j :: 0 <= i < j < |sessions| ==> !StrLess(key(sessions[j]), key(sessions[i]))
  }

  /** The sessions whose key equals `k`, in their original order. */
  function WithKey(sessions: seq<Session>, key: Session -> string, k: string): (r: seq<Session>)
    ensures |r| <= |sessions|
  {
    if |sessions| == 0 then []
    else (if key(sessions[0]) == k then [sessions[0]] else []) + WithKey(sessions[1..], key, k)
  }

  /** Puts `x` before the first session of `sorted` whose key is not below `key(x)`. */
  function Insert(x: Session, sorted: seq<Session>, key: Session -> string): (r: seq<Session>)
    ensures multiset(r) == multiset(sorted) + multiset{x}
  {
    if |sorted| == 0 || !StrLess(key(sorted[0]), key(x)) then [x] + sorted
    else
      assert sorted == [sorted[0]] + sorted[1..];
      [sorted[0]] + Insert(x, sorted[1..], key)
  }

  lemma {:induction false} InsertSorted(x: Session, sorted: seq<Session>, key: Session -> string)
    requires SortedBy(sorted, key)
    ensures SortedBy(Insert(x, sorted, key), key)
  {
    var r := Insert(x, sorted, key);
    if |sorted| == 0 {
    } else if !StrLess(key(sorted[0]), key(x)) {
      forall j | 0 <= j < |sorted|
        ensures !StrLess(key(sorted[j]), key(x))
      {
        StrLessTotal(key(sorted[0]), key(sorted[j]));
        if StrLess(key(sorted[j]), key(x)) && StrLess(key(sorted[0]), key(sorted[j])) {
          StrLessTransitive(key(sorted[0]), key(sorted[j]), key(x));
        }
      }
    } else {
      var tail := sorted[1..];
      InsertSorted(x, tail, key);
      var rest := Insert(x, tail, key);
      forall j | 0 <= j < |rest|
        ensures !StrLess(key(rest[j]), key(sorted[0]))
      {
        assert rest[j] in multiset(rest);
        if rest[j] == x {
          StrLessIrreflexive(key(x));
          if StrLess(key(x), key(sorted[0])) {
            StrLessTransitive(key(x), key(sorted[0]), key(x));
          }
        } else {
          assert rest[j] in multiset(tail);
          var m :| 0 <= m < |tail| && tail[m] == rest[j];
          assert sorted[m + 1] == rest[j];
        }
      }
      assert r == [sorted[0]] + rest;
    }
  }

  lemma {:induction false} InsertStable(x: Session, sorted: seq<Session>, key: Session -> string, k: string)
    ensures WithKey(Insert(x, sorted, key), key, k)
            == (if key(x) == k then [x] else []) + WithKey(sorted, key, k)
  {
    if |sorted| == 0 || !StrLess(key(sorted[0]), key(x)) {
      assert ([x] + sorted)[1..] == sorted;
    } else {
      var rest := Insert(x, sorted[1..], key);
      InsertStable(x, sorted[1..], key, k);
      assert ([sorted[0]] + rest)[1..] == rest;
      if key(x) == k {
        StrLessIrreflexive(k);
      }
    }
  }

  /**
   * `get_sorted_sessions`: Python's `sorted` with `key` standing for the
   * `sorted_by` field. The result is a permutation of the input, is
   * non-decreasing in the key, and is stable: for every key value, the
   * sessions carrying it appear in their original relative order.
   */
  function SortedSessions(sessions: seq<Session>, key: Session -> string): (r: seq<Session>)
    ensures multiset(r) == multiset(sessions)
    ensures SortedBy(r, key)
    ensures forall k :: WithKey(r, key, k) == WithKey(sessions, key, k)
  {
    if |sessions| == 0 then []
    else
      var rest := SortedSessions(sessions[1..], key);
      assert sessions == [sessions[0]] + sessions[1..];
      InsertSorted(sessions[0], rest, key);
      assert forall k :: WithKey(Insert(sessions[0], rest, key), key, k) == WithKey(sessions, key, k) by {
        forall k ensures WithKey(Insert(sessions[0], rest, key), key, k) == WithKey(sessions, key, k) {
          InsertStable(sessions[0], rest, key, k);
        }
      }
      Insert(sessions[0], rest, key)
  }

  // ---------------------------------------------------- filter by creation

  /** `a` is `b` with some elements removed, the rest in their original order. */
  predicate IsSubsequence(a: seq<Session>, b: seq<Session>) {
    if |a| == 0 then true
    else if |b| == 0 then false
    else (a[0] == b[0] && IsSubsequence(a[1..], b[1..])) || IsSubsequence(a, b[1..])
  }

  /**
   * `get_sessions_created_after_given_datetime`: keeps, in order, the sessions
   * whose parsed `created_at` is strictly after the parsed bound; `parseTime`
   * stands for the date parser. A session created exactly at the bound is
   * dropped.
   */
  function SessionsCreatedAfter(sessions: seq<Session>, bound: string, parseTime: string -> int): (r: seq<Session>)
    ensures IsSubsequence(r, sessions)
    ensures forall s :: s in r ==> parseTime(bound) < parseTime(s.createdAt)
  {
    if |sessions| == 0 then []
    else
      var rest := SessionsCreatedAfter(sessions[1..], bound, parseTime);
      if parseTime(bound) < parseTime(sessions[0].createdAt) then
        assert ([sessions[0]] + rest)[1..] == rest;
        [sessions[0]] + rest
      else rest
  }

  /**
   * Nothing qualifying is dropped: a session strictly after the bound is kept
   * as many times as it occurs, and any other session is not kept.
   */
  lemma {:induction false} SessionsCreatedAfterKeepsAll(sessions: seq<Session>, bound: string,
                                                        parseTime: string -> int, s: Session)
    ensures var kept := SessionsCreatedAfter(sessions, bound, parseTime);
            multiset(kept)[s] == if parseTime(bound) < parseTime(s.createdAt) then multiset(sessions)[s] else 0
    ensures s in SessionsCreatedAfter(sessions, bound, parseTime) <==>
              s in sessions && parseTime(bound) < parseTime(s.createdAt)
  {
    var kept := SessionsCreatedAfter(sessions, bound, parseTime);
    if |sessions| > 0 {
      var rest := SessionsCreatedAfter(sessions[1..], bound, parseTime);
      SessionsCreatedAfterKeepsAll(sessions[1..], bound, parseTime, s);
      assert sessions == [sessions[0]] + sessions[1..];
      assert multiset(sessions) == multiset{sessions[0]} + multiset(sessions[1..]);
      if parseTime(bound) < parseTime(sessions[0].createdAt) {
        assert kept == [sessions[0]] + rest;
        assert multiset(kept) == multiset{sessions[0]} + multiset(rest);
      } else {
        assert kept == rest;
      }
    }
    assert s in kept <==> multiset(kept)[s] > 0;
    assert s in sessions <==> multiset(sessions)[s] > 0;
  }
}
