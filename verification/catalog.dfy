/** The catalogue queries and mutations of the product hooks, over the
    `products` table held as a sequence of rows. Each query is the rows the
    backend returns for the filter and ordering the hook asks for. */
module Catalog {
  import opened Optional
  import opened JsStrings
  import opened Products

  // ---------------------------------------------------------------------------
  // Ordering

  /** Code-point lexicographic order on text: the order of `order(...)` on a
      text column and, for timestamps of one ISO-8601 format, the order of
      the instants they denote */
  predicate StrLe(a: string, b: string)
    decreases |a|
  {
    if a == "" then true
    else if b == "" then false
    else if a[0] != b[0] then a[0] < b[0]
    else StrLe(a[1..], b[1..])
  }

  lemma {:induction false} StrLeTotal(a: string, b: string)
    ensures StrLe(a, b) || StrLe(b, a)
    decreases |a|
  {
    if a != "" && b != "" && a[0] == b[0] {
      StrLeTotal(a[1..], b[1..]);
    }
  }

  lemma {:induction false} StrLeTransitive(a: string, b: string, c: string)
    requires StrLe(a, b) && StrLe(b, c)
    ensures StrLe(a, c)
    decreases |a|
  {
    if a != "" && b != "" && c != "" && a[0] == b[0] && b[0] == c[0] {
      StrLeTransitive(a[1..], b[1..], c[1..]);
    }
  }

  /** The two orderings the hooks request */
  datatype SortOrder =
    | NewestFirst      // order('created_at', { ascending: false })
    | NameArAscending  // order('name_ar', { ascending: true })

  /** `a` may come before `b` */
  predicate Precedes(o: SortOrder, a: Product, b: Product) {
    match o
    case NewestFirst => StrLe(b.createdAt, a.createdAt)
    case NameArAscending => StrLe(a.nameAr, b.nameAr)
  }

  lemma PrecedesTotal(o: SortOrder, a: Product, b: Product)
    ensures Precedes(o, a, b) || Precedes(o, b, a)
  {
    match o
    case NewestFirst => StrLeTotal(a.createdAt, b.createdAt);
    case NameArAscending => StrLeTotal(a.nameAr, b.nameAr);
  }

  lemma PrecedesTransitive(o: SortOrder, a: Product, b: Product, c: Product)
    requires Precedes(o, a, b) && Precedes(o, b, c)
    ensures Precedes(o, a, c)
  {
    match o
    case NewestFirst => StrLeTransitive(c.createdAt, b.createdAt, a.createdAt);
    case NameArAscending => StrLeTransitive(a.nameAr, b.nameAr, c.nameAr);
  }

  predicate Sorted(o: SortOrder, s: seq<Product>) {
    forall i, j :: 0 <= i < j < |s| ==> Precedes(o, s[i], s[j])
  }

  /** A row that may precede every row of a sorted sequence heads it. */
  lemma SortedCons(o: SortOrder, h: Product, t: seq<Product>)
    requires Sorted(o, t)
    requires forall j :: 0 <= j < |t| ==> Precedes(o, h, t[j])
    ensures Sorted(o, [h] + t)
  {
    var s := [h] + t;
    forall i, j | 0 <= i < j < |s| ensures Precedes(o, s[i], s[j]) {
      if i > 0 {
        assert s[i] == t[i - 1] && s[j] == t[j - 1];
      } else {
        assert s[j] == t[j - 1];
      }
    }
  }

  /** One step of insertion sort */
  function Insert(o: SortOrder, x: Product, s: seq<Product>): (r: seq<Product>)
    requires Sorted(o, s)
    ensures Sorted(o, r)
    ensures multiset(r) == multiset(s) + multiset{x}
    decreases |s|
  {
    if s == [] then [x]
    else if Precedes(o, x, s[0]) then
      InsertFront(o, x, s);
      [x] + s
    else
      var rest := Insert(o, x, s[1..]);
      InsertBehind(o, x, s, rest);
      assert s == [s[0]] + s[1..];
      [s[0]] + rest
  }

  lemma InsertFront(o: SortOrder, x: Product, s: seq<Product>)
    requires Sorted(o, s) && s != [] && Precedes(o, x, s[0])
    ensures Sorted(o, [x] + s)
  {
    forall j | 0 <= j < |s| ensures Precedes(o, x, s[j]) {
      if j > 0 {
        PrecedesTransitive(o, x, s[0], s[j]);
      }
    }
    SortedCons(o, x, s);
  }

  lemma InsertBehind(o: SortOrder, x: Product, s: seq<Product>, rest: seq<Product>)
    requires Sorted(o, s) && s != [] && !Precedes(o, x, s[0])
    requires Sorted(o, rest) && multiset(rest) == multiset(s[1..]) + multiset{x}
    ensures Sorted(o, [s[0]] + rest)
  {
    PrecedesTotal(o, x, s[0]);
    forall j | 0 <= j < |rest| ensures Precedes(o, s[0], rest[j]) {
      assert rest[j] in multiset(rest);
      if rest[j] != x {
        assert rest[j] in multiset(s[1..]);
        var k :| 0 <= k < |s[1..]| && s[1..][k] == rest[j];
        assert s[k + 1] == rest[j];
      }
    }
    SortedCons(o, s[0], rest);
  }

  /** The rows in the requested order; rows the order does not distinguish
      may come in any order, as the database leaves them unspecified */
  function Sort(o: SortOrder, s: seq<Product>): (r: seq<Product>)
    ensures Sorted(o, r)
    ensures multiset(r) == multiset(s)
  {
    if s == [] then []
    else
      assert s == [s[0]] + s[1..];
      Insert(o, s[0], Sort(o, s[1..]))
  }

  /** The rows that satisfy `p`, in their original order */
  function Filter(s: seq<Product>, p: Product -> bool): (r: seq<Product>)
    ensures forall x :: multiset(r)[x] == if p(x) then multiset(s)[x] else 0
    ensures forall x :: x in r <==> x in s && p(x)
  {
    if s == [] then []
    else
      assert s == [s[0]] + s[1..];
      (if p(s[0]) then [s[0]] else []) + Filter(s[1..], p)
  }

  // ---------------------------------------------------------------------------
  // Queries

  /** The `category` argument is truthy: present and not the empty string */
  predicate CategoryGiven(category: Option<string>) {
    category.Some? && category.value != ""
  }

  /** `useProducts(category)`: every row, or for a truthy category exactly the
      rows of that category, newest first. A category that names none of the
      three yields no rows. */
  function ListProducts(rows: seq<Product>, category: Option<string>): (r: seq<Product>)
    ensures Sorted(NewestFirst, r)
    ensures !CategoryGiven(category) ==> multiset(r) == multiset(rows)
    ensures CategoryGiven(category) ==>
      forall x :: multiset(r)[x] == if CategoryCode(x.category) == category.value then multiset(rows)[x] else 0
  {
    if CategoryGiven(category) then
      Sort(NewestFirst, Filter(rows, (x: Product) => CategoryCode(x.category) == category.value))
    else
      Sort(NewestFirst, rows)
  }

  /** The row limit of the featured query */
  const FeaturedLimit: nat := 10

  /** `useFeaturedProducts`: the ten most recent rows, whatever their
      `is_featured` flag. */
  function FeaturedProducts(rows: seq<Product>): (r: seq<Product>)
    ensures |r| == if |rows| < FeaturedLimit then |rows| else FeaturedLimit
    ensures Sorted(NewestFirst, r)
    ensures multiset(r) <= multiset(rows)
    ensures forall x, y :: x in r && y in rows && y !in r ==> StrLe(y.createdAt, x.createdAt)
  {
    var all := Sort(NewestFirst, rows);
    assert |all| == |multiset(all)| == |multiset(rows)| == |rows|;
    var r := if |all| < FeaturedLimit then all else all[..FeaturedLimit];
    assert all == r + all[|r|..];
    forall x, y | x in r && y in rows && y !in r ensures StrLe(y.createdAt, x.createdAt) {
      assert y in multiset(all);
      var i :| 0 <= i < |r| && r[i] == x;
      var j :| 0 <= j < |all| && all[j] == y;
      assert j >= |r|;
    }
    r
  }

  /** A product's four names match the term case-insensitively */
  predicate NameMatches(p: Product, term: string, fold: char -> char) {
    || ContainsFolded(p.nameAr, term, fold)
    || ContainsFolded(p.nameFr, term, fold)
    || ContainsFolded(p.nameEn, term, fold)
    || ContainsFolded(p.nameBer, term, fold)
  }

  /** `enabled: searchTerm.trim().length > 0` */
  predicate SearchEnabled(term: string) {
    Utf16Length(Trim(term)) > 0
  }

  /** The search query runs exactly when the term is not all white space. */
  lemma SearchEnabledIff(term: string)
    ensures SearchEnabled(term) <==> !AllWhitespace(term)
  {
    TrimEmptyIff(term);
  }

  /** `useSearchProducts(term)`: nothing for a blank term; otherwise the rows
      one of whose four names contains the term, as typed and untrimmed,
      ignoring case, ordered by Arabic name. `fold` is the database's case
      mapping. */
  function SearchProducts(rows: seq<Product>, term: string, fold: char -> char): (r: seq<Product>)
    ensures AllWhitespace(term) ==> r == []
    ensures !AllWhitespace(term) ==> Sorted(NameArAscending, r)
    ensures !AllWhitespace(term) ==>
      forall x :: multiset(r)[x] == if NameMatches(x, term, fold) then multiset(rows)[x] else 0
  {
    TrimEmptyIff(term);
    if Trim(term) == "" then []
    else Sort(NameArAscending, Filter(rows, (x: Product) => NameMatches(x, term, fold)))
  }

  /** The term is matched as typed: a leading space is part of what must
      occur in a name. */
  lemma SearchUntrimmed(p: Product)
    requires p.nameAr == "robe" && p.nameFr == "robe" && p.nameEn == "robe" && p.nameBer == "robe"
    ensures SearchProducts([p], "robe", c => c) == [p]
    ensures SearchProducts([p], " robe", c => c) == []
  {
    RobeText();
    SearchFindsName(p, c => c);
    SearchMissesPadded([p], "robe", c => c);
  }

  /** The facts about the literal texts that `SearchUntrimmed` uses */
  lemma RobeText()
    ensures !AllWhitespace("robe")
    ensures NoFoldedSpace("robe", c => c)
    ensures " robe" == " " + "robe"
  {
    assert !IsWhitespace("robe"[0]);
    assert forall i :: 0 <= i < 4 ==> "robe"[i] != ' ';
  }

  /** A term equal to a row's Arabic name finds that row, whatever the
      database's case mapping. */
  lemma SearchFindsName(p: Product, fold: char -> char)
    requires !AllWhitespace(p.nameAr)
    ensures SearchProducts([p], p.nameAr, fold) == [p]
  {
    assert OccursAt(Fold(p.nameAr, fold), Fold(p.nameAr, fold), 0);
    assert NameMatches(p, p.nameAr, fold);
    var r := SearchProducts([p], p.nameAr, fold);
    assert multiset(r)[p] == 1;
    OnlyRow(r, p);
  }

  /** A list that holds `p` once and nothing `[p]` lacks is `[p]`. */
  lemma OnlyRow(r: seq<Product>, p: Product)
    requires forall x :: multiset(r)[x] <= multiset([p])[x]
    requires multiset(r)[p] == 1
    ensures r == [p]
  {
    assert multiset(r) == multiset([p]) by {
      forall x ensures multiset(r)[x] == multiset([p])[x] {
        if x != p {
          assert multiset([p])[x] == 0;
        }
      }
    }
    assert |r| == 1;
    assert r[0] in multiset([p]);
  }

  /** No character of `s` folds to what a space folds to */
  predicate NoFoldedSpace(s: string, fold: char -> char) {
    forall c :: c in s ==> fold(c) != fold(' ')
  }

  /** None of a product's four names holds a character that folds like a
      space */
  predicate NamesUnspaced(p: Product, fold: char -> char) {
    && NoFoldedSpace(p.nameAr, fold)
    && NoFoldedSpace(p.nameFr, fold)
    && NoFoldedSpace(p.nameEn, fold)
    && NoFoldedSpace(p.nameBer, fold)
  }

  /** A text without a space, up to case, contains no term that starts
      with a space. */
  lemma PaddedTermAbsent(s: string, w: string, fold: char -> char)
    requires NoFoldedSpace(s, fold)
    ensures !ContainsFolded(s, " " + w, fold)
  {
    var t := Fold(s, fold);
    var sub := Fold(" " + w, fold);
    forall i | 0 <= i <= |t| ensures !OccursAt(t, sub, i) {
      if i + |sub| <= |t| {
        assert s[i] in s;
        assert t[i..i + |sub|][0] == fold(s[i]) != fold(' ') == sub[0];
      }
    }
  }

  /** The term is matched as typed: a term that starts with a space finds no
      row whose names have no space in them, whatever the case mapping. */
  lemma SearchMissesPadded(rows: seq<Product>, w: string, fold: char -> char)
    requires forall x :: x in rows ==> NamesUnspaced(x, fold)
    ensures SearchProducts(rows, " " + w, fold) == []
  {
    var term := " " + w;
    var r := SearchProducts(rows, term, fold);
    if !AllWhitespace(term) {
      forall x | x in rows ensures !NameMatches(x, term, fold) {
        PaddedTermAbsent(x.nameAr, w, fold);
        PaddedTermAbsent(x.nameFr, w, fold);
        PaddedTermAbsent(x.nameEn, w, fold);
        PaddedTermAbsent(x.nameBer, w, fold);
      }
      assert multiset(r) == multiset{} by {
        forall x ensures multiset(r)[x] == 0 {
          if x !in rows {
            assert multiset(rows)[x] == 0;
          }
        }
      }
    }
  }

  /** The answer of `maybeSingle()` */
  datatype Fetched = Found(row: Product) | NotFound | Ambiguous

  /** `useProduct(id)`: the row with that id; `null` when there is none, an
      error when several rows carry it. */
  function GetProduct(rows: seq<Product>, id: string): (r: Fetched)
    ensures r.NotFound? <==> forall x :: x in rows ==> x.id != id
    ensures r.Found? ==> r.row in rows && r.row.id == id
    ensures r.Found? ==> forall i :: 0 <= i < |rows| && rows[i].id == id ==> rows[i] == r.row
    ensures r.Ambiguous? <==> exists i, j :: 0 <= i < j < |rows| && rows[i].id == id && rows[j].id == id
  {
    var hasId := (x: Product) => x.id == id;
    var hits := Filter(rows, hasId);
    FilterTwice(rows, hasId);
    if |hits| == 0 then
      assert forall x :: x in rows ==> x.id != id by {
        forall x | x in rows ensures x.id != id {
          assert x !in hits;
        }
      }
      NotFound
    else if |hits| == 1 then
      assert hits[0] in hits;
      assert forall i :: 0 <= i < |rows| && rows[i].id == id ==> rows[i] == hits[0] by {
        forall i | 0 <= i < |rows| && rows[i].id == id ensures rows[i] == hits[0] {
          assert rows[i] in hits;
        }
      }
      Found(hits[0])
    else
      assert hits[0] in hits;
      Ambiguous
  }

  /** Two different positions holding `x` make `x` occur twice. */
  lemma CountTwo<T>(s: seq<T>, i: nat, j: nat)
    requires i < j < |s| && s[i] == s[j]
    ensures multiset(s)[s[i]] >= 2
  {
    assert s == s[..j] + s[j..];
    assert s[..j][i] == s[i] && s[j..][0] == s[i];
    assert multiset(s)[s[i]] == multiset(s[..j])[s[i]] + multiset(s[j..])[s[i]];
  }

  /** A value that occurs twice sits at two different positions. */
  lemma TwoPositions<T>(s: seq<T>, x: T)
    requires multiset(s)[x] >= 2
    ensures exists i, j :: 0 <= i < j < |s| && s[i] == x && s[j] == x
  {
    assert x in multiset(s);
    var k :| 0 <= k < |s| && s[k] == x;
    assert s == s[..k] + [x] + s[k + 1..];
    assert multiset(s)[x] == multiset(s[..k])[x] + 1 + multiset(s[k + 1..])[x];
    if x in multiset(s[..k]) {
      var i :| 0 <= i < k && s[..k][i] == x;
      assert s[i] == x && s[k] == x;
    } else {
      assert x in multiset(s[k + 1..]);
      var m :| 0 <= m < |s| - k - 1 && s[k + 1..][m] == x;
      assert s[k] == x && s[k + 1 + m] == x;
    }
  }

  /** Two rows pass the filter only when two different positions of the
      input satisfy the predicate. */
  lemma FilterTwiceSound(s: seq<Product>, p: Product -> bool)
    requires |Filter(s, p)| >= 2
    ensures exists i, j :: 0 <= i < j < |s| && p(s[i]) && p(s[j])
  {
    var f := Filter(s, p);
    var a, b := f[0], f[1];
    assert a in f && b in f;
    assert a in s && p(a) && b in s && p(b);
    if a != b {
      var ia :| 0 <= ia < |s| && s[ia] == a;
      var ib :| 0 <= ib < |s| && s[ib] == b;
      if ia < ib {
        assert p(s[ia]) && p(s[ib]);
      } else {
        assert p(s[ib]) && p(s[ia]);
      }
    } else {
      CountTwo(f, 0, 1);
      assert multiset(s)[a] >= 2;
      TwoPositions(s, a);
      var i, j :| 0 <= i < j < |s| && s[i] == a && s[j] == a;
      assert p(s[i]) && p(s[j]);
    }
  }

  /** Two different positions that satisfy the predicate put at least two
      rows through the filter. */
  lemma FilterTwiceComplete(s: seq<Product>, p: Product -> bool, i: nat, j: nat)
    requires i < j < |s| && p(s[i]) && p(s[j])
    ensures |Filter(s, p)| >= 2
  {
    var f := Filter(s, p);
    var a, b := s[i], s[j];
    assert a in s && b in s;
    if a != b {
      assert a in f && b in f;
      var ka :| 0 <= ka < |f| && f[ka] == a;
      var kb :| 0 <= kb < |f| && f[kb] == b;
      assert ka != kb;
    } else {
      CountTwo(s, i, j);
      assert multiset(f)[a] >= 2;
      TwoPositions(f, a);
    }
  }

  /** At least two rows pass the filter exactly when two different
      positions of the input satisfy the predicate. */
  lemma FilterTwice(s: seq<Product>, p: Product -> bool)
    ensures |Filter(s, p)| >= 2 <==> exists i, j :: 0 <= i < j < |s| && p(s[i]) && p(s[j])
  {
    if |Filter(s, p)| >= 2 {
      FilterTwiceSound(s, p);
    }
    if exists i, j :: 0 <= i < j < |s| && p(s[i]) && p(s[j]) {
      var i, j :| 0 <= i < j < |s| && p(s[i]) && p(s[j]);
      FilterTwiceComplete(s, p, i, j);
    }
  }

  /** `enabled: !!id` */
  predicate ProductQueryEnabled(id: string) {
    id != ""
  }

  /** Identifiers are the table's primary key. */
  predicate UniqueIds(rows: seq<Product>) {
    forall i, j :: 0 <= i < |rows| && 0 <= j < |rows| && rows[i].id == rows[j].id ==> i == j
  }

  /** Under unique identifiers each row occurs once. */
  lemma {:induction false} UniqueIdsOnce(rows: seq<Product>, x: Product)
    requires UniqueIds(rows) && x in rows
    ensures multiset(rows)[x] == 1
  {
    var t := rows[1..];
    assert rows == [rows[0]] + t;
    assert UniqueIds(t) by {
      forall i, j | 0 <= i < |t| && 0 <= j < |t| && t[i].id == t[j].id ensures i == j {
        assert rows[i + 1].id == rows[j + 1].id;
      }
    }
    if x != rows[0] {
      UniqueIdsOnce(t, x);
    }
  }

  /** With unique identifiers a stored row is found by its id. */
  lemma GetProductStored(rows: seq<Product>, i: nat)
    requires UniqueIds(rows) && i < |rows|
    ensures GetProduct(rows, rows[i].id) == Found(rows[i])
  {
    var id := rows[i].id;
    var hits := Filter(rows, (x: Product) => x.id == id);
    UniqueIdsOnce(rows, rows[i]);
    forall x | x in rows && x.id == id ensures x == rows[i] {
      var a :| 0 <= a < |rows| && rows[a] == x;
    }
    assert multiset(hits) == multiset{rows[i]};
    assert |hits| == 1;
    assert hits[0] in multiset(hits);
  }

  // ---------------------------------------------------------------------------
  // Mutations

  /** The outcome of an update: the table afterwards, or the error of
      `.single()` when no row carries the id (nothing is then changed). */
  datatype UpdateOutcome = Updated(rows: seq<Product>) | NoSuchRow

  /** What `useProduct(id)` yields: for an empty id the query never runs and
      there is no data; otherwise the answer of the lookup */
  function FetchById(rows: seq<Product>, id: string): (r: Option<Fetched>)
    ensures r.None? <==> id == ""
    ensures r.Some? ==> r.value == GetProduct(rows, id)
  {
    if ProductQueryEnabled(id) then Some(GetProduct(rows, id)) else None
  }

  /** A row stored under the empty id is never fetched; any other stored row
      is fetched by its id. */
  lemma FetchByIdStored(rows: seq<Product>, i: nat)
    requires UniqueIds(rows) && i < |rows|
    ensures rows[i].id == "" ==> FetchById(rows, rows[i].id).None?
    ensures rows[i].id != "" ==> FetchById(rows, rows[i].id) == Some(Found(rows[i]))
  {
    GetProductStored(rows, i);
  }

  /** `useUpdateProduct`: the supplied fields are written over the row with
      the given id; every other row, and every field the patch leaves out,
      is unchanged. */
  method UpdateProduct(rows: seq<Product>, id: string, q: Patch) returns (r: UpdateOutcome)
    ensures r.NoSuchRow? <==> forall x :: x in rows ==> x.id != id
    ensures r.Updated? ==> |r.rows| == |rows|
    ensures r.Updated? ==> forall i :: 0 <= i < |rows| && rows[i].id != id ==> r.rows[i] == rows[i]
    ensures r.Updated? ==> forall i :: 0 <= i < |rows| && rows[i].id == id ==> r.rows[i] == ApplyPatch(rows[i], q)
  {
    var out: seq<Product> := [];
    var hit := false;
    var i := 0;
    while i < |rows|
      invariant 0 <= i <= |rows| && |out| == i
      invariant hit <==> exists k :: 0 <= k < i && rows[k].id == id
      invariant forall k :: 0 <= k < i && rows[k].id != id ==> out[k] == rows[k]
      invariant forall k :: 0 <= k < i && rows[k].id == id ==> out[k] == ApplyPatch(rows[k], q)
    {
      if rows[i].id == id {
        out := out + [ApplyPatch(rows[i], q)];
        hit := true;
      } else {
        out := out + [rows[i]];
      }
      i := i + 1;
    }
    if hit {
      r := Updated(out);
    } else {
      r := NoSuchRow;
    }
  }

  /** `useDeleteProduct`: every row with the id removed, every other row kept
      in order; deleting an id no row carries changes nothing. */
  function DeleteProduct(rows: seq<Product>, id: string): (r: seq<Product>)
    ensures forall x :: x in r ==> x.id != id
    ensures forall x: Product :: x.id != id ==> multiset(r)[x] == multiset(rows)[x]
  {
    Filter(rows, (x: Product) => x.id != id)
  }

  /** `useCreateProduct`: the inserted row is added, with the identifier and
      timestamp the backend assigns, and is then found by its id. */
  function CreateProduct(rows: seq<Product>, pl: ProductPayload, id: string, now: string, offerDefault: bool): (r: seq<Product>)
    requires forall x :: x in rows ==> x.id != id
    ensures |r| == |rows| + 1 && r[..|rows|] == rows
    ensures GetProduct(r, id) == Found(NewRow(pl, id, now, offerDefault))
  {
    var p := NewRow(pl, id, now, offerDefault);
    var r := rows + [p];
    assert p !in rows;
    var hits := Filter(r, (x: Product) => x.id == id);
    assert multiset(hits) == multiset{p};
    assert |hits| == 1;
    assert hits[0] in multiset(hits);
    assert r[..|rows|] == rows;
    r
  }

  /** A deleted product no longer appears in any list, whatever the
      category. */
  lemma DeletedNotListed(rows: seq<Product>, id: string, category: Option<string>)
    ensures forall x :: x in ListProducts(DeleteProduct(rows, id), category) ==> x.id != id
  {
    var d := DeleteProduct(rows, id);
    var l := ListProducts(d, category);
    forall x | x in l ensures x.id != id {
      assert x in multiset(l);
      assert x in multiset(d);
    }
  }
}
