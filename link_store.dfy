/**
  The `link` table the routes reach through the shared database client, as an
  in-memory map from short code to record. Each method is one of the calls the
  routes make on it: `create`, `update` with an atomic increment, `delete` and
  `findMany` ordered by creation time; `findUnique` is a map lookup.
*/
module LinkStore {
  import opened JsValues
  import opened JsStrings
  import opened UrlValidator

  /** One stored link. Timestamps are numbers supplied by the caller. */
  datatype Link = Link(
    id: nat,
    shortCode: string,
    targetUrl: string,
    totalClicks: nat,
    lastClickedTime: Option<int>,
    createdAt: int,
    updatedAt: int)

  /** Newest first: `createdAt` never increases along the sequence. */
  predicate NewestFirst(s: seq<Link>) {
    forall i, j :: 0 <= i < j < |s| ==> s[i].createdAt >= s[j].createdAt
  }

  /** No short code occurs twice in the sequence. */
  predicate DistinctCodes(s: seq<Link>) {
    forall i, j :: 0 <= i < j < |s| ==> s[i].shortCode != s[j].shortCode
  }

  /** Every stored target URL, once trimmed, starts with `http://` or `https://`. */
  predicate TargetsRedirectable(links: map<string, Link>) {
    forall k :: k in links ==> HasHttpScheme(Trim(links[k].targetUrl))
  }

  /** Storing a row whose target has a scheme keeps every stored target redirectable. */
  lemma StoreRedirectable(links: map<string, Link>, code: string, l: Link)
    requires TargetsRedirectable(links) && HasHttpScheme(Trim(l.targetUrl))
    ensures TargetsRedirectable(links[code := l])
  {
  }

  /** Puts `l` into a newest-first sequence in front of the first record that is not newer. */
  function InsertNewestFirst(l: Link, s: seq<Link>): seq<Link>
    decreases |s|
  {
    if s == [] || s[0].createdAt <= l.createdAt then [l] + s
    else [s[0]] + InsertNewestFirst(l, s[1..])
  }

  /** The insertion adds exactly `l`: the result is a permutation of `s` with `l` added. */
  lemma {:induction false} InsertAddsOne(l: Link, s: seq<Link>)
    ensures multiset(InsertNewestFirst(l, s)) == multiset(s) + multiset{l}
    decreases |s|
  {
    if s != [] && s[0].createdAt > l.createdAt {
      InsertAddsOne(l, s[1..]);
      assert s == [s[0]] + s[1..];
    }
  }

  /** The insertion keeps a sequence newest first. */
  lemma {:induction false} InsertKeepsNewestFirst(l: Link, s: seq<Link>)
    requires NewestFirst(s)
    ensures NewestFirst(InsertNewestFirst(l, s))
    decreases |s|
  {
    if s == [] || s[0].createdAt <= l.createdAt {
      NewestFirstCons(l, s);
    } else {
      var rest := InsertNewestFirst(l, s[1..]);
      assert s == [s[0]] + s[1..];
      InsertKeepsNewestFirst(l, s[1..]);
      InsertAddsOne(l, s[1..]);
      forall x | x in rest ensures x.createdAt <= s[0].createdAt {
        assert x in multiset(rest);
        assert x == l || x in multiset(s[1..]);
      }
      NewestFirstCons(s[0], rest);
    }
  }

  /** A record no older than anything in a newest-first sequence may go in front of it. */
  lemma NewestFirstCons(a: Link, t: seq<Link>)
    requires NewestFirst(t)
    requires forall x :: x in t ==> x.createdAt <= a.createdAt
    ensures NewestFirst([a] + t)
  {
    var r := [a] + t;
    forall i, j | 0 <= i < j < |r| ensures r[i].createdAt >= r[j].createdAt {
      assert r[j] == t[j - 1];
      if i > 0 {
        assert r[i] == t[i - 1];
      } else {
        assert r[j] in t;
      }
    }
  }

  /** Inserting a record whose code is new keeps the codes distinct. */
  lemma {:induction false} InsertKeepsCodesDistinct(l: Link, s: seq<Link>)
    requires DistinctCodes(s)
    requires forall x :: x in s ==> x.shortCode != l.shortCode
    ensures DistinctCodes(InsertNewestFirst(l, s))
    decreases |s|
  {
    if s == [] || s[0].createdAt <= l.createdAt {
      DistinctCons(l, s);
    } else {
      var rest := InsertNewestFirst(l, s[1..]);
      assert s == [s[0]] + s[1..];
      DistinctCons(s[0], s[1..]);
      InsertKeepsCodesDistinct(l, s[1..]);
      InsertAddsOne(l, s[1..]);
      forall x | x in rest ensures x.shortCode != s[0].shortCode {
        assert x in multiset(rest);
        assert x == l || x in multiset(s[1..]);
      }
      DistinctCons(s[0], rest);
    }
  }

  /** A record in front of a sequence keeps the codes distinct exactly when its code is new. */
  lemma DistinctCons(a: Link, t: seq<Link>)
    ensures DistinctCodes([a] + t) <==> DistinctCodes(t) && forall x :: x in t ==> x.shortCode != a.shortCode
  {
    var r := [a] + t;
    assert r[0] == a;
    assert forall j :: 0 <= j < |t| ==> r[j + 1] == t[j];
    if DistinctCodes(r) {
      forall x | x in t ensures x.shortCode != a.shortCode {
        var j :| 0 <= j < |t| && t[j] == x;
        assert r[j + 1] == x;
      }
    }
  }

  /** Every row is stored under its own short code. */
  predicate KeyedByCode(links: map<string, Link>) {
    forall k :: k in links ==> links[k].shortCode == k
  }

  /** `rows` lists, newest first and each once, exactly the rows stored under the codes in `done`. */
  ghost predicate Listed(links: map<string, Link>, done: set<string>, rows: seq<Link>) {
    && done <= links.Keys
    && NewestFirst(rows)
    && DistinctCodes(rows)
    && |rows| == |done|
    && (forall l :: l in rows <==> l.shortCode in done && links[l.shortCode] == l)
  }

  /** One step of the listing loop: inserting the row of a code not yet listed. */
  lemma ListStep(links: map<string, Link>, done: set<string>, rows: seq<Link>, k: string)
    requires KeyedByCode(links) && Listed(links, done, rows)
    requires k in links && k !in done
    ensures Listed(links, done + {k}, InsertNewestFirst(links[k], rows))
  {
    var next := InsertNewestFirst(links[k], rows);
    InsertAddsOne(links[k], rows);
    InsertKeepsNewestFirst(links[k], rows);
    InsertKeepsCodesDistinct(links[k], rows);
    forall l ensures l in next <==> l.shortCode in done + {k} && links[l.shortCode] == l {
      assert l in next <==> l in multiset(next);
      assert l in rows <==> l in multiset(rows);
    }
    assert |multiset(next)| == |multiset(rows)| + 1;
  }

  /** Once every code is listed, the rows are exactly the stored records. */
  lemma ListedAll(links: map<string, Link>, rows: seq<Link>)
    requires KeyedByCode(links) && Listed(links, links.Keys, rows)
    ensures |rows| == |links|
    ensures forall l :: l in rows <==> l in links.Values
  {
    forall l ensures l in rows <==> l in links.Values {
      if l in links.Values {
        var k :| k in links && links[k] == l;
        assert l.shortCode == k;
      }
    }
  }

  class Store {
    /** The rows, keyed by their unique `shortCode`. */
    var links: map<string, Link>
    /** The identifier the next created row receives. */
    var nextId: nat

    /** Keys are the records' own short codes, and identifiers are unique and already issued. */
    ghost predicate Valid()
      reads this
    {
      && KeyedByCode(links)
      && (forall k :: k in links ==> links[k].id < nextId)
      && (forall k1, k2 :: k1 in links && k2 in links && k1 != k2 ==> links[k1].id != links[k2].id)
    }

    constructor ()
      ensures Valid() && links == map[] && nextId == 1
    {
      links := map[];
      nextId := 1;
    }

    /** `link.create({data})`: a new row with a fresh identifier, no clicks recorded yet
        and both timestamps `now`; the unique index on `shortCode` admits only a new code. */
    method Insert(shortCode: string, targetUrl: string, totalClicks: nat, now: int) returns (link: Link)
      requires Valid()
      requires shortCode !in links
      modifies this
      ensures Valid()
      ensures link == Link(old(nextId), shortCode, targetUrl, totalClicks, None, now, now)
      ensures links == old(links)[shortCode := link]
      ensures nextId == old(nextId) + 1
    {
      link := Link(nextId, shortCode, targetUrl, totalClicks, None, now, now);
      links := links[shortCode := link];
      nextId := nextId + 1;
    }

    /** `link.update` with `totalClicks: {increment: 1}` and `lastClickedTime: now`, as one
        step; the storage layer also refreshes `updatedAt`. Every other row and field stays. */
    method RecordClick(shortCode: string, now: int)
      requires Valid()
      requires shortCode in links
      modifies this
      ensures Valid()
      ensures links.Keys == old(links).Keys
      ensures forall k :: k in links && k != shortCode ==> links[k] == old(links)[k]
      ensures links[shortCode].totalClicks == old(links)[shortCode].totalClicks + 1
      ensures links[shortCode].lastClickedTime == Some(now)
      ensures links[shortCode].updatedAt == now
      ensures var was, now := old(links)[shortCode], links[shortCode];
              now.id == was.id && now.shortCode == was.shortCode
              && now.targetUrl == was.targetUrl && now.createdAt == was.createdAt
      ensures nextId == old(nextId)
    {
      var link := links[shortCode];
      links := links[shortCode := link.(totalClicks := link.totalClicks + 1,
                                        lastClickedTime := Some(now),
                                        updatedAt := now)];
    }

    /** `link.delete`: removes exactly the row with this code. */
    method Remove(shortCode: string)
      requires Valid()
      requires shortCode in links
      modifies this
      ensures Valid()
      ensures links == old(links) - {shortCode}
      ensures nextId == old(nextId)
    {
      links := links - {shortCode};
    }

    /** `link.findMany({orderBy: {createdAt: 'desc'}})`: every row exactly once, newest
        first. The order of rows created at the same time is left open. */
    method FindManyNewestFirst() returns (rows: seq<Link>)
      requires Valid()
      ensures NewestFirst(rows)
      ensures DistinctCodes(rows)
      ensures |rows| == |links|
      ensures forall l :: l in rows <==> l in links.Values
    {
      rows := SortNewestFirst(links);
    }
  }

  /** The ordering query on a keyed table: insert each row into a newest-first list. */
  method SortNewestFirst(links: map<string, Link>) returns (rows: seq<Link>)
    requires KeyedByCode(links)
    ensures NewestFirst(rows)
    ensures DistinctCodes(rows)
    ensures |rows| == |links|
    ensures forall l :: l in rows <==> l in links.Values
  {
    rows := [];
    var remaining := links.Keys;
    ghost var done: set<string> := {};
    while remaining != {}
      invariant done !! remaining && done + remaining == links.Keys
      invariant Listed(links, done, rows)
      decreases remaining
    {
      var k :| k in remaining;
      ListStep(links, done, rows, k);
      rows := InsertNewestFirst(links[k], rows);
      done := done + {k};
      remaining := remaining - {k};
    }
    ListedAll(links, rows);
  }
}
