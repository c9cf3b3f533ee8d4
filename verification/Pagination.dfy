/**
 Keyset pagination of the library
 (services/catalog-service/repository/postgres_book_repository.go, List and its cursors).
 */
module Pagination {
  import opened Prelude
  import opened Domain

  /** The sort key of a book. */
  datatype Position = Position(createdAt: Time, id: Id)

  datatype Shelved = Shelved(createdAt: Time, status: Status)

  /** What a client sends back. A cursor is versioned JSON, whose time need not parse. */
  datatype Token = NoToken | Garbled | Encoded(version: nat, createdAt: Option<Time>, id: Id)

  datatype Page = Page(books: seq<Position>, next: Token)

  datatype ListError = InvalidMetadata

  function Encode(p: Position): Token {
    Encoded(1, Some(p.createdAt), p.id)
  }

  function Decode(token: Token): Option<Position> {
    if token.Encoded? && token.version == 1 && token.id != 0 && token.createdAt.Some?
    then Some(Position(token.createdAt.value, token.id))
    else None
  }

  /** (created_at, id) descending */
  predicate Precedes(a: Position, b: Position) {
    b.createdAt < a.createdAt || (b.createdAt == a.createdAt && b.id < a.id)
  }

  function Visible(table: map<Id, Shelved>): set<Position> {
    set id | id in table && table[id].status != Deleted :: Position(table[id].createdAt, id)
  }

  function Rest(of: set<Position>, after: Option<Position>): set<Position> {
    set p | p in of && (after.Some? ==> Precedes(after.value, p))
  }

  predicate Descending(s: seq<Position>) {
    forall i, j :: 0 <= i < j < |s| ==> Precedes(s[i], s[j])
  }

  ghost predicate Lists(s: seq<Position>, of: set<Position>) {
    Descending(s) && forall p :: p in s <==> p in of
  }

  /** What a query gets: the first rows of the listing after the cursor, and how
      many of them were asked for. */
  ghost predicate Fetches(rows: seq<Position>, of: set<Position>, limit: nat) {
    && Descending(rows)
    && |rows| <= limit
    && (forall p :: p in rows ==> p in of)
    && (forall p, q :: p in of && p !in rows && q in rows ==> Precedes(q, p))
    && (|rows| < limit ==> forall p :: p in of ==> p in rows)
  }

  /** One page: its rows open the listing of what the cursor leaves, and the next
      token is there exactly when more rows follow, and resumes at them. */
  ghost predicate Pages(page: Page, of: set<Position>, size: nat)
    requires 1 <= size
  {
    && Fetches(page.books, of, size)
    && (page.next == NoToken <==> forall p :: p in of ==> p in page.books)
    && (page.next != NoToken ==> |page.books| == size && page.next == Encode(page.books[size - 1]))
  }

  /** Either the error of a bad token, or a page. */
  ghost predicate Answers(reply: Result<Page, ListError>, of: set<Position>, size: nat, token: Token)
    requires 1 <= size
  {
    if token != NoToken && Decode(token).None? then reply == Err(InvalidMetadata)
    else reply.Ok? && Pages(reply.value, Rest(of, if token == NoToken then None else Decode(token)), size)
  }

  /** Only one reply satisfies Answers. */
  lemma OnePage(a: Page, b: Page, of: set<Position>, size: nat)
    requires 1 <= size && Pages(a, of, size) && Pages(b, of, size)
    ensures a == b
  {
    OneFetch(a.books, b.books, of, size);
  }

  lemma {:induction false} OneFetch(a: seq<Position>, b: seq<Position>, of: set<Position>, limit: nat)
    requires Fetches(a, of, limit) && Fetches(b, of, limit)
    ensures a == b
    decreases |a|
  {
    EmptyFetch(a, of, limit);
    EmptyFetch(b, of, limit);
    if a != [] {
      FirstLeads(a, b, of, limit);
      FirstLeads(b, a, of, limit);
      TailFetches(a, of, limit);
      TailFetches(b, of, limit);
      OneFetch(a[1..], b[1..], of - {a[0]}, limit - 1);
    }
  }

  lemma EmptyFetch(a: seq<Position>, of: set<Position>, limit: nat)
    requires Fetches(a, of, limit)
    ensures a == [] <==> limit == 0 || of == {}
  {
    if a != [] {
      assert a[0] in of;
    }
  }

  lemma FirstLeads(a: seq<Position>, b: seq<Position>, of: set<Position>, limit: nat)
    requires Fetches(a, of, limit) && Fetches(b, of, limit) && a != [] && b != []
    ensures !Precedes(b[0], a[0])
  {
    assert a[0] in a && b[0] in of;
    if b[0] in a {
      var i :| 0 <= i < |a| && a[i] == b[0];
    }
  }

  lemma TailFetches(a: seq<Position>, of: set<Position>, limit: nat)
    requires Fetches(a, of, limit) && a != []
    ensures 0 < limit && Fetches(a[1..], of - {a[0]}, limit - 1)
  {
    forall p | p in a && p != a[0] ensures p in a[1..] {
      var i :| 0 <= i < |a| && a[i] == p;
      assert a[1..][i - 1] == p;
    }
  }

  // ---------------------------------------------------------------------
  // The operation

  /** ORDER BY created_at DESC, id DESC LIMIT limit */
  method Query(of: set<Position>, limit: nat) returns (rows: seq<Position>)
    ensures Fetches(rows, of, limit)
  {
    rows := [];
    var left := of;
    while |rows| < limit && left != {}
      invariant Descending(rows) && |rows| <= limit
      invariant forall p :: p in of <==> p in left || p in rows
      invariant forall p, q :: p in left && q in rows ==> Precedes(q, p)
      decreases |left|
    {
      var first :| first in left;
      var rest := left - {first};
      while rest != {}
        invariant rest < left && first in left
        invariant forall p :: p in left && p !in rest && p != first ==> Precedes(first, p)
        decreases |rest|
      {
        var p :| p in rest;
        rest := rest - {p};
        if Precedes(p, first) {
          first := p;
        }
      }
      rows := rows + [first];
      left := left - {first};
    }
  }

  method List(table: map<Id, Shelved>, size: nat, token: Token) returns (reply: Result<Page, ListError>)
    requires 1 <= size
    ensures Answers(reply, Visible(table), size, token)
  {
    var after := None;
    if token != NoToken {
      after := Decode(token);
      if after.None? {
        return Err(InvalidMetadata);
      }
    }
    var rows := Query(Rest(Visible(table), after), size + 1);
    var next := NoToken;
    var books := rows;
    if |rows| > size {
      next := Encode(rows[size - 1]);
      books := rows[..size];
      assert rows[size] in rows && rows[size] !in books;
    }
    return Ok(Page(books, next));
  }

  // ---------------------------------------------------------------------
  // Whole walks

  /** A client follows next tokens until there is none; books may be added, changed
      and deleted between its requests, so each page is of a table of its own. */
  ghost predicate Walk(tables: seq<map<Id, Shelved>>, size: nat, token: Token, pages: seq<Page>)
    requires 1 <= size
    decreases |tables|
  {
    && |pages| == |tables| > 0
    && Answers(Ok(pages[0]), Visible(tables[0]), size, token)
    && (if pages[0].next == NoToken then |pages| == 1
        else |pages| == 1 || Walk(tables[1..], size, pages[0].next, pages[1..]))
  }

  predicate Finished(pages: seq<Page>) {
    pages != [] && pages[|pages| - 1].next == NoToken
  }

  function Visited(pages: seq<Page>): seq<Position> {
    if pages == [] then [] else pages[0].books + Visited(pages[1..])
  }

  ghost predicate Identified(tables: seq<map<Id, Shelved>>) {
    forall t :: t in tables ==> 0 !in t
  }

  function After(token: Token): Option<Position> {
    if token == NoToken then None else Decode(token)
  }

  ghost predicate Throughout(p: Position, tables: seq<map<Id, Shelved>>) {
    forall t :: t in tables ==> p in Visible(t)
  }

  lemma JoinDescends(a: seq<Position>, b: seq<Position>)
    requires Descending(a) && Descending(b) && forall p, q :: p in a && q in b ==> Precedes(p, q)
    ensures Descending(a + b)
  {
    forall i, j | 0 <= i < j < |a + b| ensures Precedes((a + b)[i], (a + b)[j]) {
      if i < |a| <= j {
        assert a[i] in a && b[j - |a|] in b;
      }
    }
  }

  /** The next token resumes right behind the page it came with. */
  lemma NextResumes(page: Page, of: set<Position>, size: nat)
    requires 1 <= size && Pages(page, of, size) && page.next != NoToken && forall p :: p in of ==> p.id != 0
    ensures var last := page.books[size - 1];
            && After(page.next) == Some(last) && last in of
            && (forall p :: p in page.books ==> p == last || Precedes(p, last))
            && (forall p :: p in of && Precedes(last, p) ==> p !in page.books)
            && (forall p :: p in of && p !in page.books ==> Precedes(last, p))
  {
    var last := page.books[size - 1];
    assert last in page.books;
  }

  /** Whatever happens to the table meanwhile, a walk shows descending books, so
      none twice, and once finished it has shown every book that stood throughout. */
  lemma {:induction false} WalkIsStable(tables: seq<map<Id, Shelved>>, size: nat, token: Token, pages: seq<Page>)
    requires 1 <= size && Identified(tables) && Walk(tables, size, token, pages)
    ensures Descending(Visited(pages))
    ensures forall p :: p in Visited(pages) ==>
              (After(token).Some? ==> Precedes(After(token).value, p)) && exists t :: t in tables && p in Visible(t)
    ensures Finished(pages) ==>
              forall p :: Throughout(p, tables) && (After(token).Some? ==> Precedes(After(token).value, p))
                  ==> p in Visited(pages)
    decreases |pages|
  {
    var of := Rest(Visible(tables[0]), After(token));
    var page := pages[0];
    assert tables[0] in tables;
    assert Pages(page, of, size);
    if |pages| == 1 {
      assert Visited(pages[1..]) == [];
      assert Visited(pages) == page.books;
    } else {
      assert forall t :: t in tables[1..] ==> t in tables;
      NextResumes(page, of, size);
      var last := page.books[size - 1];
      WalkIsStable(tables[1..], size, page.next, pages[1..]);
      JoinDescends(page.books, Visited(pages[1..]));
      assert Finished(pages) ==> Finished(pages[1..]);
      forall p | p in Visited(pages)
        ensures (After(token).Some? ==> Precedes(After(token).value, p)) && exists t :: t in tables && p in Visible(t)
      {
        if p !in page.books {
          assert Precedes(last, p);
          assert last in of;
        }
      }
    }
  }

  /** Over a table that stays as it is, a finished walk from the empty token is
      the listing of all books that are not deleted: each once, in order. */
  lemma {:induction false} WalkVisitsAll(table: map<Id, Shelved>, tables: seq<map<Id, Shelved>>, size: nat,
      pages: seq<Page>)
    requires 1 <= size && 0 !in table && (forall t :: t in tables ==> t == table)
    requires Walk(tables, size, NoToken, pages) && Finished(pages)
    ensures Lists(Visited(pages), Visible(table))
  {
    WalkIsStable(tables, size, NoToken, pages);
    assert tables[0] in tables;
  }

  /** What a walk from the start shows, whatever changes meanwhile: books newest first,
      the greater identifier first among those of one time, and no book that was not
      there, or deleted, at the time of its page; and once it is finished, every book
      that was there all along. */
  lemma WalkShowsTheShelf(tables: seq<map<Id, Shelved>>, size: nat, pages: seq<Page>)
    requires 1 <= size && Identified(tables) && Walk(tables, size, NoToken, pages)
    ensures var shown := Visited(pages);
            && (forall i, j :: 0 <= i < j < |shown| ==>
                  || shown[j].createdAt < shown[i].createdAt
                  || (shown[j].createdAt == shown[i].createdAt && shown[j].id < shown[i].id))
            && (forall p :: p in shown ==> exists t :: t in tables && StandsIn(p, t))
            && (Finished(pages) ==> forall p: Position :: (forall t :: t in tables ==> StandsIn(p, t)) ==> p in shown)
  {
    hide Walk, Visited;
    WalkIsStable(tables, size, NoToken, pages);
    forall p: Position | Finished(pages) && forall t :: t in tables ==> StandsIn(p, t) ensures p in Visited(pages) {
      assert Throughout(p, tables);
    }
  }

  predicate StandsIn(p: Position, table: map<Id, Shelved>) {
    p.id in table && table[p.id].status != Deleted && table[p.id].createdAt == p.createdAt
  }

  /** A token is refused exactly if it is garbled, of another version, or names no book
      or no time. */
  lemma TokensRefusedExactly(reply: Result<Page, ListError>, of: set<Position>, size: nat, token: Token)
    requires 1 <= size && Answers(reply, of, size, token)
    ensures reply == Err(InvalidMetadata) <==>
            || token == Garbled
            || (token.Encoded? && (token.version != 1 || token.id == 0 || token.createdAt == None))
  {
  }

  lemma WalkOpens(tables: seq<map<Id, Shelved>>, size: nat, token: Token, pages: seq<Page>)
    requires 1 <= size && Walk(tables, size, token, pages)
    ensures 1 <= |pages| == |tables| && |pages[0].books| <= size
    ensures 1 < |pages| ==> |pages[0].books| == size && Walk(tables[1..], size, pages[0].next, pages[1..])
  {
  }

  /** Such a walk ends: every page but the last is full, so after k pages that
      were not the last there are k * size books behind it. */
  lemma {:induction false} WalkAdvances(table: map<Id, Shelved>, tables: seq<map<Id, Shelved>>, size: nat, token: Token,
      pages: seq<Page>)
    requires 1 <= size && 0 !in table && (forall t :: t in tables ==> t == table)
    requires Walk(tables, size, token, pages)
    ensures forall i :: 0 <= i < |pages| - 1 ==> |pages[i].books| == size
    ensures |pages[|pages| - 1].books| <= size
    ensures (|pages| - 1) * size + |pages[|pages| - 1].books| == |Visited(pages)| <= |Visible(table)|
    decreases |pages|
  {
    WalkIsStable(tables, size, token, pages);
    assert forall p :: p in Visited(pages) ==> p in Visible(table);
    hide Walk, Visible, Visited;
    DescendingFits(Visited(pages), Visible(table));
    WalkOpens(tables, size, token, pages);
    VisitedOpens(pages);
    if |pages| > 1 {
      assert forall t :: t in tables[1..] ==> t in tables;
      WalkAdvances(table, tables[1..], size, pages[0].next, pages[1..]);
      OneMore(|pages| - 2, size);
    }
  }

  lemma OneMore(k: nat, size: nat)
    ensures (k + 1) * size == k * size + size
  {
  }

  lemma VisitedOpens(pages: seq<Page>)
    requires pages != []
    ensures |Visited(pages)| == |pages[0].books| + |Visited(pages[1..])|
    ensures |pages| == 1 ==> |Visited(pages)| == |pages[0].books|
  {
  }

  lemma {:induction false} DescendingFits(s: seq<Position>, of: set<Position>)
    requires Descending(s) && forall p :: p in s ==> p in of
    ensures |s| <= |of|
    decreases |s|
  {
    if s != [] {
      assert forall p :: p in s[1..] ==> p in s;
      forall p | p in s[1..] ensures p in of - {s[0]} {
        var i :| 0 <= i < |s[1..]| && s[1..][i] == p;
        assert Precedes(s[0], s[i + 1]);
      }
      DescendingFits(s[1..], of - {s[0]});
    }
  }

  /** A walk not yet finished can take one more step, and has shown fewer books
      than there are; so it is finished after |Visible(table)| / size + 1 pages. */
  lemma WalkEnds(table: map<Id, Shelved>, tables: seq<map<Id, Shelved>>, size: nat, pages: seq<Page>)
    requires 1 <= size && 0 !in table && (forall t :: t in tables ==> t == table)
    requires Walk(tables, size, NoToken, pages) && !Finished(pages)
    ensures |Visited(pages)| == |pages| * size < |Visible(table)|
  {
    WalkAdvances(table, tables, size, NoToken, pages);
    WalkIsStable(tables, size, NoToken, pages);
    LastLeaves(table, tables, size, NoToken, pages);
    var missed :| missed in Visible(table) && missed !in Visited(pages);
    DescendingFits(Visited(pages), Visible(table) - {missed});
    assert |pages| * size == (|pages| - 1) * size + size;
  }

  lemma {:induction false} LastLeaves(table: map<Id, Shelved>, tables: seq<map<Id, Shelved>>, size: nat, token: Token,
      pages: seq<Page>)
    requires 1 <= size && 0 !in table && (forall t :: t in tables ==> t == table)
    requires Walk(tables, size, token, pages) && !Finished(pages)
    ensures |pages[|pages| - 1].books| == size
    ensures exists p :: p in Rest(Visible(table), After(token)) && p !in Visited(pages)
    decreases |pages|
  {
    var of := Rest(Visible(table), After(token));
    var page := pages[0];
    assert tables[0] in tables;
    if |pages| == 1 {
      assert Visited(pages[1..]) == [];
      var p :| p in of && p !in page.books;
      assert p !in Visited(pages);
    } else {
      assert Visited(pages) == page.books + Visited(pages[1..]);
      NextResumes(page, of, size);
      assert forall t :: t in tables[1..] ==> t in tables;
      LastLeaves(table, tables[1..], size, page.next, pages[1..]);
      var p :| p in Rest(Visible(table), After(page.next)) && p !in Visited(pages[1..]);
      var last := page.books[size - 1];
      assert last in of && Precedes(last, p);
      assert p in of && p !in page.books;
    }
  }
}
