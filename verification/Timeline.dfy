/** Rows ordered newest first by (time, id), and keyset paging over them. */
module Timeline {
  import opened Common

  // The pair a page cursor carries.
  datatype Cursor = Cursor(at: Time, id: nat)

  datatype Row<+T> = Row(at: Time, id: nat, item: T) {
    function Key(): Cursor { Cursor(at, id) }
  }

  // The order of (time, id) tuples.
  predicate Before(a: Cursor, b: Cursor) {
    a.at < b.at || (a.at == b.at && a.id < b.id)
  }

  // ---------- Sorting ----------

  function Insert<T>(rows: seq<Row<T>>, r: Row<T>): (out: seq<Row<T>>)
    ensures |out| == |rows| + 1
  {
    var n := |rows| - 1;
    if rows == [] || !Before(rows[n].Key(), r.Key()) then rows + [r] else Insert(rows[..n], r) + [rows[n]]
  }

  /** The stable sort by key in descending order. */
  function NewestFirst<T>(rows: seq<Row<T>>): (out: seq<Row<T>>)
    ensures |out| == |rows|
  {
    if rows == [] then []
    else Insert(NewestFirst(rows[..|rows| - 1]), rows[|rows| - 1])
  }

  lemma InsertMultiset<T>(rows: seq<Row<T>>, r: Row<T>)
    ensures multiset(Insert(rows, r)) == multiset(rows) + multiset{r}
  {
    var n := |rows| - 1;
    if rows == [] {
    } else {
      assert rows == rows[..n] + [rows[n]];
      if Before(rows[n].Key(), r.Key()) {
        InsertMultiset(rows[..n], r);
      }
    }
  }

  /** Sorting is a permutation. */
  lemma NewestFirstMultiset<T>(rows: seq<Row<T>>)
    ensures multiset(NewestFirst(rows)) == multiset(rows)
  {
    var n := |rows| - 1;
    if rows == [] {
    } else {
      assert rows == rows[..n] + [rows[n]];
      NewestFirstMultiset(rows[..n]);
      InsertMultiset(NewestFirst(rows[..n]), rows[n]);
    }
  }

  ghost predicate Descending<T>(rows: seq<Row<T>>) {
    forall i, j | 0 <= i < j < |rows| :: !Before(rows[i].Key(), rows[j].Key())
  }

  ghost predicate StrictlyDescending<T>(rows: seq<Row<T>>) {
    forall i, j | 0 <= i < j < |rows| :: Before(rows[j].Key(), rows[i].Key())
  }

  ghost predicate DistinctKeys<T>(rows: seq<Row<T>>) {
    forall i, j | 0 <= i < j < |rows| :: rows[i].Key() != rows[j].Key()
  }

  lemma InsertMembers<T>(rows: seq<Row<T>>, r: Row<T>, x: Row<T>)
    ensures x in Insert(rows, r) <==> x in rows || x == r
  {
    InsertMultiset(rows, r);
    assert x in Insert(rows, r) <==> x in multiset(Insert(rows, r));
    assert x in rows <==> x in multiset(rows);
  }

  lemma InsertDescending<T>(rows: seq<Row<T>>, r: Row<T>)
    requires Descending(rows)
    ensures Descending(Insert(rows, r))
  {
    var n := |rows| - 1;
    if rows == [] {
    } else if Before(rows[n].Key(), r.Key()) {
      InsertDescending(rows[..n], r);
      var out := Insert(rows[..n], r);
      forall i | 0 <= i < |out| ensures !Before(out[i].Key(), rows[n].Key()) {
        InsertMembers(rows[..n], r, out[i]);
        assert out[i] in rows[..n] || out[i] == r;
      }
    }
  }

  lemma NewestFirstDescending<T>(rows: seq<Row<T>>)
    ensures Descending(NewestFirst(rows))
  {
    if rows == [] {
    } else {
      NewestFirstDescending(rows[..|rows| - 1]);
      InsertDescending(NewestFirst(rows[..|rows| - 1]), rows[|rows| - 1]);
    }
  }

  lemma NewestFirstMembers<T>(rows: seq<Row<T>>, x: Row<T>)
    ensures x in NewestFirst(rows) <==> x in rows
  {
    NewestFirstMultiset(rows);
    assert x in NewestFirst(rows) <==> x in multiset(NewestFirst(rows));
    assert x in rows <==> x in multiset(rows);
  }

  // Two equal rows in the sorted list would be two equal rows in the input.
  lemma DistinctKeysOfRest<T>(rows: seq<Row<T>>)
    requires rows != [] && DistinctKeys(rows)
    ensures var n := |rows| - 1; DistinctKeys(rows[..n]) && forall x | x in NewestFirst(rows[..n]) ::
        x.Key() != rows[n].Key()
  {
    var n := |rows| - 1;
    forall x | x in NewestFirst(rows[..n]) ensures x.Key() != rows[n].Key() {
      NewestFirstMembers(rows[..n], x);
    }
  }

  lemma InsertDistinct<T>(rows: seq<Row<T>>, r: Row<T>)
    requires DistinctKeys(rows) && forall x | x in rows :: x.Key() != r.Key()
    ensures DistinctKeys(Insert(rows, r))
  {
    var n := |rows| - 1;
    if rows == [] {
    } else if Before(rows[n].Key(), r.Key()) {
      InsertDistinct(rows[..n], r);
      var out := Insert(rows[..n], r);
      forall i | 0 <= i < |out| ensures out[i].Key() != rows[n].Key() {
        InsertMembers(rows[..n], r, out[i]);
        assert out[i] in rows[..n] || out[i] == r;
      }
    }
  }

  lemma NewestFirstDistinct<T>(rows: seq<Row<T>>)
    requires DistinctKeys(rows)
    ensures DistinctKeys(NewestFirst(rows))
  {
    if rows == [] {
    } else {
      DistinctKeysOfRest(rows);
      NewestFirstDistinct(rows[..|rows| - 1]);
      InsertDistinct(NewestFirst(rows[..|rows| - 1]), rows[|rows| - 1]);
    }
  }

  /** Rows with different keys sort into strictly descending order. */
  lemma NewestFirstStrict<T>(rows: seq<Row<T>>)
    requires DistinctKeys(rows)
    ensures StrictlyDescending(NewestFirst(rows))
  {
    NewestFirstDescending(rows);
    NewestFirstDistinct(rows);
  }

  lemma InsertUnder<T>(e: Row<T>, rows: seq<Row<T>>, r: Row<T>)
    requires !Before(e.Key(), r.Key())
    ensures Insert([e] + rows, r) == [e] + Insert(rows, r)
  {
    var n := |rows| - 1;
    var all := [e] + rows;
    if rows == [] {
    } else if Before(rows[n].Key(), r.Key()) {
      InsertUnder(e, rows[..n], r);
      assert all[..n + 1] == [e] + rows[..n];
      assert all[n + 1] == rows[n];
      Associative([e], Insert(rows[..n], r), [rows[n]]);
    } else {
      assert all[n + 1] == rows[n];
      Associative([e], rows, [r]);
    }
  }

  lemma {:induction false} InsertOver<T>(rows: seq<Row<T>>, e: Row<T>)
    requires forall x | x in rows :: Before(x.Key(), e.Key())
    ensures Insert(rows, e) == [e] + rows
  {
    if rows == [] {
    } else {
      InsertOver(rows[..|rows| - 1], e);
    }
  }

  /** A row newer than all others sorts first, wherever it stands in the input. */
  lemma {:induction false} NewestGoesFirst<T>(a: seq<Row<T>>, e: Row<T>, b: seq<Row<T>>)
    requires forall x | x in a + b :: Before(x.Key(), e.Key())
    ensures NewestFirst(a + [e] + b) == [e] + NewestFirst(a + b)
  {
    hide NewestFirst; hide Insert;
    if b == [] {
      assert a + [e] + b == a + [e] && a + b == a;
      NewestFirstAppend(a, e);
      forall x | x in NewestFirst(a) ensures Before(x.Key(), e.Key()) {
        NewestFirstMembers(a, x);
        assert x in a + b;
      }
      InsertOver(NewestFirst(a), e);
    } else {
      var init, x := b[..|b| - 1], b[|b| - 1];
      assert b == init + [x];
      Associative(a, init, [x]);
      Associative(a + [e], init, [x]);
      NewestGoesFirst(a, e, init);
      NewestFirstAppend(a + init, x);
      NewestFirstAppend(a + [e] + init, x);
      assert x in a + b;
      InsertUnder(e, NewestFirst(a + init), x);
    }
  }

  lemma NewestFirstAppend<T>(rows: seq<Row<T>>, x: Row<T>)
    ensures NewestFirst(rows + [x]) == Insert(NewestFirst(rows), x)
  {
  }

  // ---------- Pages ----------

  function KeepBefore<T>(rows: seq<Row<T>>, after: Option<Cursor>): seq<Row<T>> {
    if after.None? then rows
    else if rows == [] then []
    else if Before(rows[0].Key(), after.value) then [rows[0]] + KeepBefore(rows[1..], after)
    else KeepBefore(rows[1..], after)
  }

  datatype Page<+T> = Page(items: seq<Row<T>>, next: Option<Cursor>)

  /** One page: newest first, after the cursor, at most limit rows; next is the key of the last
      row when more rows remain. */
  function PageOf<T>(rows: seq<Row<T>>, after: Option<Cursor>, limit: nat): Page<T>
    requires limit >= 1
  {
    var kept := KeepBefore(NewestFirst(rows), after);
    if |kept| > limit then Page(kept[..limit], Some(kept[limit - 1].Key())) else Page(kept, None)
  }

  // The cursor that stands just before position k of the sorted rows.
  ghost function CursorAt<T>(sorted: seq<Row<T>>, k: nat): Option<Cursor>
    requires k <= |sorted|
  {
    if k == 0 then None else Some(sorted[k - 1].Key())
  }

  lemma {:induction false} KeepBeforeNone<T>(rows: seq<Row<T>>, c: Cursor)
    requires forall i | 0 <= i < |rows| :: Before(rows[i].Key(), c)
    ensures KeepBefore(rows, Some(c)) == rows
  {
    if rows == [] {
    } else {
      KeepBeforeNone(rows[1..], c);
    }
  }

  lemma KeepBeforeAt<T>(rows: seq<Row<T>>, k: nat)
    requires StrictlyDescending(rows) && k <= |rows|
    ensures KeepBefore(rows, CursorAt(rows, k)) == rows[k..]
  {
    if k == 0 {
    } else if k == 1 {
      KeepBeforeNone(rows[1..], rows[0].Key());
    } else {
      KeepBeforeAt(rows[1..], k - 1);
      assert rows[1..][k - 1..] == rows[k..];
    }
  }

  lemma PageAt<T>(rows: seq<Row<T>>, k: nat, limit: nat)
    requires DistinctKeys(rows) && limit >= 1 && k <= |rows|
    ensures var s := NewestFirst(rows);
            PageOf(rows, CursorAt(s, k), limit)
            == if k + limit < |s| then Page(s[k..k + limit], CursorAt(s, k + limit)) else Page(s[k..], None)
  {
    var s := NewestFirst(rows);
    NewestFirstStrict(rows);
    KeepBeforeAt(s, k);
    assert k + limit < |s| ==> s[k..][..limit] == s[k..k + limit];
  }

  function Flatten<T>(pages: seq<seq<T>>): seq<T> {
    if pages == [] then [] else pages[0] + Flatten(pages[1..])
  }

  /** A client that starts at a cursor and follows next until there is none reads these pages. */
  ghost predicate IsWalk<T(!new)>(rows: seq<Row<T>>, after: Option<Cursor>, limit: nat, pages: seq<seq<Row<T>>>)
    requires limit >= 1
    decreases |pages|
  {
    var p := PageOf(rows, after, limit);
    && pages != [] && pages[0] == p.items
    && if p.next.None? then |pages| == 1 else IsWalk(rows, p.next, limit, pages[1..])
  }

  lemma Times(n: nat, limit: nat)
    ensures n >= 1 ==> n * limit == (n - 1) * limit + limit
  {
  }

  lemma {:induction false} WalkFrom<T(!new)>(rows: seq<Row<T>>, k: nat, limit: nat, pages: seq<seq<Row<T>>>)
    requires DistinctKeys(rows) && limit >= 1 && k <= |rows|
    requires IsWalk(rows, CursorAt(NewestFirst(rows), k), limit, pages)
    ensures Flatten(pages) == NewestFirst(rows)[k..]
    decreases |pages|
  {
    hide PageOf; hide NewestFirst; hide DistinctKeys;
    PageAt(rows, k, limit);
    var s := NewestFirst(rows);
    if k + limit < |s| {
      WalkFrom(rows, k + limit, limit, pages[1..]);
      SliceSplit(s, k, k + limit);
    } else {
      assert Flatten(pages[1..]) == [];
    }
  }

  lemma {:induction false} WalkLength<T(!new)>(rows: seq<Row<T>>, k: nat, limit: nat, pages: seq<seq<Row<T>>>)
    requires DistinctKeys(rows) && limit >= 1 && k <= |rows|
    requires IsWalk(rows, CursorAt(NewestFirst(rows), k), limit, pages)
    ensures |rows| - k <= |pages| * limit
    ensures |pages| == 1 || (|pages| - 1) * limit < |rows| - k
    decreases |pages|
  {
    hide PageOf; hide NewestFirst; hide DistinctKeys;
    PageAt(rows, k, limit);
    Times(|pages|, limit);
    if k + limit < |NewestFirst(rows)| {
      WalkLength(rows, k + limit, limit, pages[1..]);
      Times(|pages| - 1, limit);
    }
  }

  /** Following next from the start visits every row exactly once, in strictly descending order,
      in ceil(n / limit) pages, or one page when there are no rows. */
  lemma PagingIsComplete<T(!new)>(rows: seq<Row<T>>, limit: nat, pages: seq<seq<Row<T>>>)
    requires DistinctKeys(rows) && limit >= 1
    requires IsWalk(rows, None, limit, pages)
    ensures Flatten(pages) == NewestFirst(rows) && StrictlyDescending(Flatten(pages))
    ensures multiset(Flatten(pages)) == multiset(rows)
    ensures |pages| == 1 || (|pages| - 1) * limit < |rows|
    ensures |rows| <= |pages| * limit
  {
    assert CursorAt(NewestFirst(rows), 0) == None;
    WalkFrom(rows, 0, limit, pages);
    WalkLength(rows, 0, limit, pages);
    assert NewestFirst(rows)[0..] == NewestFirst(rows);
    NewestFirstStrict(rows);
    NewestFirstMultiset(rows);
  }

  /** And such a walk exists: paging never gets stuck and never goes on for ever. */
  lemma {:induction false} PagingEnds<T(!new)>(rows: seq<Row<T>>, k: nat, limit: nat) returns (pages: seq<seq<Row<T>>>)
    requires DistinctKeys(rows) && limit >= 1 && k <= |rows|
    ensures IsWalk(rows, CursorAt(NewestFirst(rows), k), limit, pages)
    decreases |rows| - k
  {
    PageAt(rows, k, limit);
    var s := NewestFirst(rows);
    if k + limit < |s| {
      var rest := PagingEnds(rows, k + limit, limit);
      pages := [s[k..k + limit]] + rest;
      assert pages[1..] == rest;
    } else {
      pages := [s[k..]];
    }
  }
}
