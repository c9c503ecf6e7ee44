/**
 * The book library of the reader (src/db.js): an IndexedDB object store `books`
 * whose key path is `fileName`, modelled as a map from file name to record. Every
 * operation catches its own errors; which step of an operation fails is a parameter.
 */
module Library {
  import opened Common

  /** Only the five most recently opened books are kept. */
  const MaxBooks: nat := 5

  type Bytes = seq<bv8>

  /** A metadata value supplied by a caller (numbers such as a page, or text). */
  datatype Value = Number(n: int) | Text(s: string)

  /** The names of the fields every record has. */
  const Named: set<string> := {"fileName", "data", "size", "lastOpened"}

  /**
   * The fields a record has beyond the named ones: a JavaScript object holds one value per
   * key, so none of them is a named field.
   */
  type Fields = f: map<string, Value> | f.Keys !! Named witness map[]

  /** The uploaded file: its name and its bytes (`file.size` is their count). */
  datatype File = File(name: string, bytes: Bytes)

  /** A stored record: the fields `saveBook` computes, plus any other caller fields. */
  datatype Book = Book(fileName: string, data: Bytes, size: int, lastOpened: int, extra: Fields)

  /** A listed record: the stored record without its `data`. */
  datatype BookInfo = BookInfo(fileName: string, size: int, lastOpened: int, extra: Fields)

  /** Fields a caller spreads over a record; `None` leaves the field as it was. */
  datatype Meta = Meta(
    fileName: Option<string>, data: Option<Bytes>, size: Option<int>, lastOpened: Option<int>,
    extra: Fields)

  function Strip(b: Book): (i: BookInfo)
    ensures i.fileName == b.fileName && i.size == b.size && i.lastOpened == b.lastOpened && i.extra == b.extra
  {
    BookInfo(b.fileName, b.size, b.lastOpened, b.extra)
  }

  function Choose<T>(o: Option<T>, otherwise: T): T {
    match o
    case Some(v) => v
    case None => otherwise
  }

  /** `{...b, ...m}`: every field `m` names replaces the record's. */
  function Spread(b: Book, m: Meta): Book {
    Book(Choose(m.fileName, b.fileName), Choose(m.data, b.data), Choose(m.size, b.size),
         Choose(m.lastOpened, b.lastOpened), b.extra + m.extra)
  }

  /** The record `saveBook` writes: the file's fields stamped `now`, then the caller's metadata. */
  function NewRecord(file: File, meta: Meta, now: int): (b: Book)
    ensures b.fileName == Choose(meta.fileName, file.name)
    ensures b.lastOpened == Choose(meta.lastOpened, now)
    ensures b.size == Choose(meta.size, |file.bytes|) && b.data == Choose(meta.data, file.bytes)
    ensures b.extra == meta.extra
  {
    Spread(Book(file.name, file.bytes, |file.bytes|, now, map[]), meta)
  }

  /** The record `updateBookMeta` writes: `{...book, ...updates, lastOpened: now}`. */
  function Updated(book: Book, updates: Meta, now: int): (b: Book)
    ensures b.lastOpened == now
    ensures b.fileName == Choose(updates.fileName, book.fileName)
    ensures b.size == Choose(updates.size, book.size) && b.data == Choose(updates.data, book.data)
    ensures forall f :: f in b.extra <==> f in book.extra || f in updates.extra
    ensures forall f :: f in b.extra ==> b.extra[f] == (if f in updates.extra then updates.extra[f] else book.extra[f])
  {
    Spread(book, updates).(lastOpened := now)
  }

  // ----- the order of string keys -----

  /** Lexicographic order on code-unit sequences, a proper prefix first. */
  predicate UnitsBefore(x: seq<int>, y: seq<int>)
    decreases |x|
  {
    |y| > 0 && (|x| == 0 || x[0] < y[0] || (x[0] == y[0] && UnitsBefore(x[1..], y[1..])))
  }

  lemma {:induction false} UnitsBeforeAsymmetric(x: seq<int>, y: seq<int>)
    ensures !(UnitsBefore(x, y) && UnitsBefore(y, x))
    decreases |x|
  {
    if |x| > 0 && |y| > 0 && x[0] == y[0] {
      UnitsBeforeAsymmetric(x[1..], y[1..]);
    }
  }

  lemma {:induction false} UnitsBeforeTransitive(x: seq<int>, y: seq<int>, z: seq<int>)
    requires UnitsBefore(x, y) && UnitsBefore(y, z)
    ensures UnitsBefore(x, z)
    decreases |x|
  {
    if |x| > 0 && x[0] == y[0] && y[0] == z[0] {
      UnitsBeforeTransitive(x[1..], y[1..], z[1..]);
    }
  }

  lemma {:induction false} UnitsBeforeTotal(x: seq<int>, y: seq<int>)
    requires x != y
    ensures UnitsBefore(x, y) || UnitsBefore(y, x)
    decreases |x|
  {
    if |x| > 0 && |y| > 0 && x[0] == y[0] {
      assert x[1..] != y[1..] by {
        assert x == [x[0]] + x[1..] && y == [y[0]] + y[1..];
      }
      UnitsBeforeTotal(x[1..], y[1..]);
    }
  }

  /**
   * IndexedDB's order on string keys: lexicographic on UTF-16 code units, a prefix first.
   * A character past U+FFFF therefore sorts by its leading surrogate, before U+E000..U+FFFF.
   */
  predicate KeyBefore(a: string, b: string) {
    UnitsBefore(Utf16(a), Utf16(b))
  }

  lemma KeyBeforeAsymmetric(a: string, b: string)
    ensures !(KeyBefore(a, b) && KeyBefore(b, a))
  {
    UnitsBeforeAsymmetric(Utf16(a), Utf16(b));
  }

  lemma KeyBeforeTransitive(a: string, b: string, c: string)
    requires KeyBefore(a, b) && KeyBefore(b, c)
    ensures KeyBefore(a, c)
  {
    UnitsBeforeTransitive(Utf16(a), Utf16(b), Utf16(c));
  }

  lemma KeyBeforeTotal(a: string, b: string)
    requires a != b
    ensures KeyBefore(a, b) || KeyBefore(b, a)
  {
    if Utf16(a) == Utf16(b) {
      Utf16Injective(a, b);
    }
    UnitsBeforeTotal(Utf16(a), Utf16(b));
  }

  /** U+10000 is stored before U+FFFF, although its code point is larger. */
  lemma SupplementaryBeforeHighBmp()
    ensures KeyBefore("\U{10000}", "\U{FFFF}") && !KeyBefore("\U{FFFF}", "\U{10000}")
  {
    assert Utf16("\U{10000}") == [0xD800, 0xDC00];
    assert Utf16("\U{FFFF}") == [0xFFFF];
  }

  /** `k` is the first key of `keys`. */
  predicate IsFirst(k: string, keys: set<string>) {
    k in keys && forall j :: j in keys && j != k ==> KeyBefore(k, j)
  }

  lemma {:induction false} FirstExists(keys: set<string>)
    requires keys != {}
    ensures exists k :: IsFirst(k, keys)
    decreases |keys|
  {
    var x :| x in keys;
    var rest := keys - {x};
    if rest == {} {
      forall j | j in keys ensures j == x {
        assert j !in rest;
      }
      assert IsFirst(x, keys);
    } else {
      FirstExists(rest);
      var y :| IsFirst(y, rest);
      if KeyBefore(x, y) {
        forall j | j in keys && j != x ensures KeyBefore(x, j) {
          if j != y { KeyBeforeTransitive(x, y, j); }
        }
        assert IsFirst(x, keys);
      } else {
        KeyBeforeTotal(x, y);
        assert IsFirst(y, keys);
      }
    }
  }

  lemma FirstUnique(keys: set<string>)
    ensures forall k, k' :: IsFirst(k, keys) && IsFirst(k', keys) ==> k == k'
  {
    forall k, k' | IsFirst(k, keys) && IsFirst(k', keys) ensures k == k' {
      if k != k' { KeyBeforeAsymmetric(k, k'); }
    }
  }

  /** The first of a non-empty set of keys. */
  function First(keys: set<string>): (k: string)
    requires keys != {}
    ensures IsFirst(k, keys)
  {
    FirstExists(keys);
    FirstUnique(keys);
    var k :| IsFirst(k, keys);
    k
  }

  /** The keys in ascending key order, the order of `store.getAll()`. */
  function InKeyOrder(keys: set<string>): (r: seq<string>)
    ensures |r| == |keys|
    ensures forall k :: k in r <==> k in keys
    ensures forall i, j :: 0 <= i < j < |r| ==> r[i] != r[j]
    decreases |keys|
  {
    if keys == {} then []
    else
      var k := First(keys);
      var rest := InKeyOrder(keys - {k});
      assert k !in rest;
      [k] + rest
  }

  /** Each key comes before every later one. */
  predicate KeyAscending(r: seq<string>) {
    forall i, j :: 0 <= i < j < |r| ==> KeyBefore(r[i], r[j])
  }

  /** A key before every key of an ascending list starts a longer one. */
  lemma ConsAscending(k: string, rest: seq<string>)
    requires KeyAscending(rest) && forall j :: 0 <= j < |rest| ==> KeyBefore(k, rest[j])
    ensures KeyAscending([k] + rest)
  {
    var r := [k] + rest;
    forall i, j | 0 <= i < j < |r| ensures KeyBefore(r[i], r[j]) {
      assert r[j] == rest[j - 1];
      if i > 0 {
        assert r[i] == rest[i - 1];
      }
    }
  }

  /** The keys come out in ascending key order. */
  lemma {:induction false} InKeyOrderAscending(keys: set<string>)
    ensures KeyAscending(InKeyOrder(keys))
    decreases |keys|
  {
    if keys != {} {
      var k := First(keys);
      var rest := InKeyOrder(keys - {k});
      assert InKeyOrder(keys) == [k] + rest;
      InKeyOrderAscending(keys - {k});
      forall j | 0 <= j < |rest| ensures KeyBefore(k, rest[j]) {
        assert rest[j] in keys - {k};
      }
      ConsAscending(k, rest);
    }
  }

  // ----- stable sorting, `Array.prototype.sort` with a numeric comparator -----

  ghost predicate Distinct<T>(s: seq<T>) {
    forall i, j :: 0 <= i < j < |s| ==> s[i] != s[j]
  }

  ghost predicate SortedBy<T>(s: seq<T>, key: T -> int) {
    forall i, j :: 0 <= i < j < |s| ==> key(s[i]) <= key(s[j])
  }

  /** Puts `x` before the first element whose key is not smaller, so earlier input stays earlier. */
  function Insert<T>(x: T, t: seq<T>, key: T -> int): (r: seq<T>)
    ensures |r| == |t| + 1
    decreases |t|
  {
    if t == [] || key(x) <= key(t[0]) then [x] + t
    else [t[0]] + Insert(x, t[1..], key)
  }

  lemma {:induction false} InsertElements<T>(x: T, t: seq<T>, key: T -> int)
    ensures multiset(Insert(x, t, key)) == multiset(t) + multiset{x}
    decreases |t|
  {
    if t != [] && key(x) > key(t[0]) {
      InsertElements(x, t[1..], key);
      assert t == [t[0]] + t[1..];
    }
  }

  /** Inserting above a lower bound of `t` keeps every key above it. */
  lemma {:induction false} InsertAbove<T>(x: T, t: seq<T>, key: T -> int, low: int)
    requires low <= key(x) && forall i :: 0 <= i < |t| ==> low <= key(t[i])
    ensures forall i :: 0 <= i < |Insert(x, t, key)| ==> low <= key(Insert(x, t, key)[i])
    decreases |t|
  {
    if t != [] && key(x) > key(t[0]) {
      InsertAbove(x, t[1..], key, low);
      var rest := Insert(x, t[1..], key);
      assert Insert(x, t, key) == [t[0]] + rest;
    }
  }

  /** The tail of a sorted list is sorted and bounded below by its head. */
  lemma SortedTail<T>(t: seq<T>, key: T -> int)
    requires SortedBy(t, key) && t != []
    ensures SortedBy(t[1..], key)
    ensures forall i :: 0 <= i < |t[1..]| ==> key(t[0]) <= key(t[1..][i])
  {
    forall i, j | 0 <= i < j < |t[1..]| ensures key(t[1..][i]) <= key(t[1..][j]) {
      assert t[1..][i] == t[i + 1] && t[1..][j] == t[j + 1];
    }
    forall i | 0 <= i < |t[1..]| ensures key(t[0]) <= key(t[1..][i]) {
      assert t[1..][i] == t[i + 1];
    }
  }

  /** A head below every key of a sorted list starts a longer sorted one. */
  lemma ConsSorted<T>(h: T, rest: seq<T>, key: T -> int)
    requires SortedBy(rest, key) && forall i :: 0 <= i < |rest| ==> key(h) <= key(rest[i])
    ensures SortedBy([h] + rest, key)
  {
    var r := [h] + rest;
    forall i, j | 0 <= i < j < |r| ensures key(r[i]) <= key(r[j]) {
      assert r[j] == rest[j - 1];
      if i > 0 {
        assert r[i] == rest[i - 1];
      }
    }
  }

  lemma {:induction false} InsertSorted<T>(x: T, t: seq<T>, key: T -> int)
    requires SortedBy(t, key)
    ensures SortedBy(Insert(x, t, key), key)
    decreases |t|
  {
    if t == [] || key(x) <= key(t[0]) {
      if t != [] {
        SortedTail(t, key);
        assert forall i :: 0 <= i < |t| ==> key(x) <= key(t[i]) by {
          forall i | 0 <= i < |t| ensures key(x) <= key(t[i]) {
            if i > 0 { assert t[i] == t[1..][i - 1]; }
          }
        }
      }
      ConsSorted(x, t, key);
    } else {
      SortedTail(t, key);
      InsertSorted(x, t[1..], key);
      InsertAbove(x, t[1..], key, key(t[0]));
      ConsSorted(t[0], Insert(x, t[1..], key), key);
    }
  }

  /**
   * The elements of `s` in ascending key order, ties in input order: a sorted permutation.
   */
  function SortBy<T>(s: seq<T>, key: T -> int): (r: seq<T>)
    ensures SortedBy(r, key)
    ensures multiset(r) == multiset(s)
    decreases |s|
  {
    if s == [] then []
    else
      var rest := SortBy(s[1..], key);
      InsertSorted(s[0], rest, key);
      InsertElements(s[0], rest, key);
      assert s == [s[0]] + s[1..];
      Insert(s[0], rest, key)
  }

  // ----- the store as a map -----

  /** Every record sits under its own `fileName`, the store's key path. */
  ghost predicate KeyPath(m: map<string, Book>) {
    forall k :: k in m ==> m[k].fileName == k
  }

  /** `b` is the record stored under its own name. */
  ghost predicate InStore(m: map<string, Book>, b: Book) {
    b.fileName in m && m[b.fileName] == b
  }

  /** No value occurs twice in `s`. */
  ghost predicate NoRepeats<T(!new)>(s: seq<T>) {
    forall x :: multiset(s)[x] <= 1
  }

  lemma TwoPositions<T>(s: seq<T>, i: nat, j: nat)
    requires i < j < |s| && s[i] == s[j]
    ensures multiset(s)[s[i]] >= 2
  {
    assert s == s[..i] + [s[i]] + s[i + 1..j] + [s[j]] + s[j + 1..];
  }

  function Lookup(m: map<string, Book>, keys: seq<string>): (r: seq<Book>)
    requires forall k :: k in keys ==> k in m
    ensures |r| == |keys|
    ensures forall i :: 0 <= i < |r| ==> r[i] == m[keys[i]]
  {
    if keys == [] then [] else [m[keys[0]]] + Lookup(m, keys[1..])
  }

  lemma {:induction false} LookupNoRepeats(m: map<string, Book>, keys: seq<string>)
    requires KeyPath(m)
    requires forall k :: k in keys ==> k in m
    requires forall i, j :: 0 <= i < j < |keys| ==> keys[i] != keys[j]
    ensures NoRepeats(Lookup(m, keys))
  {
    if keys != [] {
      var rest := Lookup(m, keys[1..]);
      LookupNoRepeats(m, keys[1..]);
      forall i | 0 <= i < |rest| ensures rest[i] != m[keys[0]] {
        assert rest[i] == m[keys[i + 1]];
      }
      assert Lookup(m, keys) == [m[keys[0]]] + rest;
    }
  }

  lemma LookupInStore(m: map<string, Book>, keys: seq<string>)
    requires KeyPath(m) && forall k :: k in keys ==> k in m
    ensures forall i :: 0 <= i < |keys| ==> InStore(m, Lookup(m, keys)[i])
  {
  }

  lemma LookupCovers(m: map<string, Book>, keys: seq<string>)
    requires forall k :: k in keys <==> k in m
    ensures forall k :: k in m ==> m[k] in Lookup(m, keys)
  {
    var r := Lookup(m, keys);
    forall k | k in m ensures m[k] in r {
      var i :| 0 <= i < |keys| && keys[i] == k;
      assert r[i] == m[k];
    }
  }

  /** `store.getAll()`: every record once, in key order. */
  function Listing(m: map<string, Book>): (r: seq<Book>)
    requires KeyPath(m)
    ensures |r| == |m|
    ensures forall i :: 0 <= i < |r| ==> InStore(m, r[i])
    ensures NoRepeats(r)
  {
    var keys := InKeyOrder(m.Keys);
    LookupNoRepeats(m, keys);
    LookupInStore(m, keys);
    Lookup(m, keys)
  }

  /** The listing leaves no record out. */
  lemma ListingCovers(m: map<string, Book>, k: string)
    requires KeyPath(m) && k in m
    ensures m[k] in Listing(m)
  {
    LookupCovers(m, InKeyOrder(m.Keys));
  }

  function LastOpened(b: Book): int {
    b.lastOpened
  }

  /**
   * The `lastOpened` index read oldest first, as `cleanupOldBooks` does: every record once,
   * ties in key order.
   */
  function OldestFirst(m: map<string, Book>): (r: seq<Book>)
    requires KeyPath(m)
    ensures |r| == |m|
    ensures SortedBy(r, LastOpened)
    ensures forall i :: 0 <= i < |r| ==> InStore(m, r[i])
    ensures forall i, j :: 0 <= i < j < |r| ==> r[i].fileName != r[j].fileName
  {
    var l := Listing(m);
    var r := SortBy(l, LastOpened);
    Rearranged(m, l, r);
    r
  }

  /** The index read oldest first leaves no record out. */
  lemma OldestFirstCovers(m: map<string, Book>, k: string)
    requires KeyPath(m) && k in m
    ensures m[k] in OldestFirst(m)
  {
    var l := Listing(m);
    ListingCovers(m, k);
    assert m[k] in multiset(l);
    assert m[k] in multiset(SortBy(l, LastOpened));
  }

  /** A permutation of the listing holds every record once, under distinct names. */
  lemma Rearranged(m: map<string, Book>, l: seq<Book>, r: seq<Book>)
    requires forall i :: 0 <= i < |l| ==> InStore(m, l[i])
    requires NoRepeats(l) && |l| == |m|
    requires multiset(r) == multiset(l)
    ensures |r| == |m|
    ensures forall i :: 0 <= i < |r| ==> InStore(m, r[i])
    ensures forall i, j :: 0 <= i < j < |r| ==> r[i].fileName != r[j].fileName
  {
    assert |r| == |multiset(r)| == |multiset(l)| == |l|;
    forall i | 0 <= i < |r| ensures InStore(m, r[i]) {
      assert r[i] in multiset(l);
    }
    forall i, j | 0 <= i < j < |r| ensures r[i].fileName != r[j].fileName {
      if r[i] == r[j] {
        TwoPositions(r, i, j);
        assert false;
      }
      assert InStore(m, r[i]) && InStore(m, r[j]);
    }
  }

  /** The file names of `bs`. */
  function Names(bs: seq<Book>): set<string> {
    set b | b in bs :: b.fileName
  }

  /** A name of `bs` is the name of one of its records. */
  lemma NamesIndex(bs: seq<Book>, n: string) returns (k: nat)
    requires n in Names(bs)
    ensures k < |bs| && bs[k].fileName == n
  {
    var b :| b in bs && b.fileName == n;
    k :| 0 <= k < |bs| && bs[k] == b;
  }

  /** The name of every record of `bs` is among its names. */
  lemma NamesHas(bs: seq<Book>, k: nat)
    requires k < |bs|
    ensures bs[k].fileName in Names(bs)
  {
    assert bs[k] in bs;
  }

  /** The records `cleanupOldBooks` deletes, oldest first: all but the five newest. */
  function ToDelete(m: map<string, Book>): seq<Book>
    requires KeyPath(m)
  {
    if |m| <= MaxBooks then [] else OldestFirst(m)[..|m| - MaxBooks]
  }

  /** The file names `cleanupOldBooks` tries to delete. */
  function Evicted(m: map<string, Book>): set<string>
    requires KeyPath(m)
  {
    Names(ToDelete(m))
  }

  /** The names of the first `cut` records of a list whose names are pairwise different. */
  lemma PrefixNamesCount(r: seq<Book>, cut: nat)
    requires cut <= |r|
    requires forall i, j :: 0 <= i < j < |r| ==> r[i].fileName != r[j].fileName
    ensures |Names(r[..cut])| == cut
  {
    var chosen := r[..cut];
    forall i, j | 0 <= i < j < |chosen| ensures chosen[i].fileName != chosen[j].fileName {
      assert chosen[i] == r[i] && chosen[j] == r[j];
    }
    NamesCount(chosen);
  }

  /** A name among the first `cut` records is the name of one of them. */
  lemma PrefixIndex(r: seq<Book>, cut: nat, n: string) returns (k: nat)
    requires cut <= |r| && n in Names(r[..cut])
    ensures k < cut && r[k].fileName == n
  {
    k := NamesIndex(r[..cut], n);
    assert r[..cut][k] == r[k];
  }

  lemma PrefixHas(r: seq<Book>, cut: nat, k: nat)
    requires cut <= |r|
    ensures k < cut ==> r[k].fileName in Names(r[..cut])
  {
    if k < cut {
      NamesHas(r[..cut], k);
      assert r[..cut][k] == r[k];
    }
  }

  /** The index read oldest first, with the names of its records pairwise different. */
  lemma OldestDistinct(m: map<string, Book>) returns (r: seq<Book>)
    requires KeyPath(m)
    ensures r == OldestFirst(m) && |r| == |m|
    ensures forall i, j :: 0 <= i < j < |r| ==> r[i].fileName != r[j].fileName
  {
    r := OldestFirst(m);
  }

  /** All but five of `n` records with distinct names carry `n - 5` names. */
  lemma AllButFiveNames(r: seq<Book>, n: nat)
    requires MaxBooks < n == |r|
    requires forall i, j :: 0 <= i < j < |r| ==> r[i].fileName != r[j].fileName
    ensures |Names(r[..n - MaxBooks])| == n - MaxBooks
  {
    PrefixNamesCount(r, n - MaxBooks);
  }

  /** Past the limit, the evicted names are those of `count - 5` records with distinct names. */
  lemma EvictedPrefix(m: map<string, Book>) returns (chosen: seq<Book>)
    requires KeyPath(m) && |m| > MaxBooks
    ensures Evicted(m) == Names(chosen)
    ensures |Names(chosen)| == |m| - MaxBooks
  {
    var r := OldestDistinct(m);
    var n := |r|;
    assert MaxBooks < n;
    AllButFiveNames(r, n);
    chosen := r[..n - MaxBooks];
    assert ToDelete(m) == chosen;
  }

  /** Exactly `count - 5` records are chosen for eviction. */
  lemma EvictedCount(m: map<string, Book>)
    requires KeyPath(m)
    ensures |m| <= MaxBooks ==> Evicted(m) == {}
    ensures |m| > MaxBooks ==> |Evicted(m)| == |m| - MaxBooks
  {
    if |m| > MaxBooks {
      var chosen := EvictedPrefix(m);
    } else {
      assert ToDelete(m) == [];
      assert forall n :: n !in Names([]);
    }
  }

  /** Only stored books are chosen for eviction. */
  lemma EvictedStored(m: map<string, Book>)
    requires KeyPath(m)
    ensures Evicted(m) <= m.Keys
  {
    if |m| > MaxBooks {
      var r := OldestFirst(m);
      var cut := |m| - MaxBooks;
      forall n | n in Evicted(m) ensures n in m {
        var k := PrefixIndex(r, cut, n);
        assert InStore(m, r[k]);
      }
    }
  }

  /** Every record chosen for eviction was opened no later than any record that stays. */
  lemma EvictedAreOldest(m: map<string, Book>, e: string, s: string)
    requires KeyPath(m)
    requires e in Evicted(m) && s in m && s !in Evicted(m)
    ensures m[e].lastOpened <= m[s].lastOpened
  {
    var r := OldestFirst(m);
    var cut := |m| - MaxBooks;
    var i := PrefixIndex(r, cut, e);
    OldestFirstCovers(m, s);
    var j :| 0 <= j < |r| && r[j] == m[s];
    PrefixHas(r, cut, j);
    assert InStore(m, r[i]) && LastOpened(r[i]) <= LastOpened(r[j]);
  }

  /** When every delete succeeds, exactly five records remain after a save past the limit. */
  lemma CleanupLeavesFive(m: map<string, Book>)
    requires KeyPath(m) && |m| > MaxBooks
    ensures |m - Evicted(m)| == MaxBooks
  {
    EvictedCount(m);
    EvictedStored(m);
    RemovedCount(m, Evicted(m));
  }

  // ----- the clean-up's outcome -----

  /**
   * The clean-up's transaction: `Aborting` from a failed delete's error event until the
   * abort that follows its dispatch, and `Finished` once aborted.
   */
  datatype Transaction = Active | Aborting | Finished

  /**
   * The position in `toDelete` of the first record whose delete fails (its name is in
   * `failing`), or `|toDelete|` when every delete succeeds.
   */
  function FirstFailing(toDelete: seq<Book>, failing: set<string>): (i: nat)
    ensures i <= |toDelete|
    ensures forall j :: 0 <= j < i ==> toDelete[j].fileName !in failing
    ensures i < |toDelete| ==> toDelete[i].fileName in failing
    decreases |toDelete|
  {
    if toDelete == [] || toDelete[0].fileName in failing then 0
    else 1 + FirstFailing(toDelete[1..], failing)
  }

  /**
   * The store after `cleanupOldBooks` as the code does it. The error handler of a delete
   * resolves without cancelling the error event, so a failed delete aborts the clean-up's
   * transaction, and an aborted transaction undoes every delete made in it.
   */
  function Cleaned(m: map<string, Book>, failing: set<string>): map<string, Book>
    requires KeyPath(m)
  {
    if FirstFailing(ToDelete(m), failing) == |ToDelete(m)| then m - Evicted(m) else m
  }

  /**
   * Whether `cleanupOldBooks` resolves. A failed delete's error event is dispatched with the
   * transaction still active, and the loop places the next delete from that dispatch; the
   * uncancelled error then aborts the transaction, that delete ends in an error its handler
   * resolves, and the delete after it throws because the transaction is finished. So the
   * clean-up rejects exactly when two or more deletes follow the failed one.
   */
  predicate CleanupResolves(m: map<string, Book>, failing: set<string>)
    requires KeyPath(m)
  {
    FirstFailing(ToDelete(m), failing) + 2 >= |ToDelete(m)|
  }

  /**
   * The clean-up as written, in terms of the names chosen: all of them go when none fails,
   * and none goes when any does.
   */
  lemma CleanedAllOrNothing(m: map<string, Book>, failing: set<string>)
    requires KeyPath(m)
    ensures Evicted(m) * failing == {} ==> Cleaned(m, failing) == m - Evicted(m)
    ensures Evicted(m) * failing != {} ==> Cleaned(m, failing) == m
  {
    var d := ToDelete(m);
    var i := FirstFailing(d, failing);
    if i < |d| {
      NamesHas(d, i);
      assert d[i].fileName in Evicted(m) * failing;
    }
  }

  /** A store within the limit is left as it is, and the clean-up resolves. */
  lemma CleanupWithinLimit(m: map<string, Book>, failing: set<string>)
    requires KeyPath(m) && |m| <= MaxBooks
    ensures Cleaned(m, failing) == m && CleanupResolves(m, failing)
  {
    assert ToDelete(m) == [];
    assert Evicted(m) == {};
  }

  /**
   * As written, one failed delete past the limit keeps every record, so the store stays
   * over five, although other deletes could have gone through.
   */
  lemma FailedDeleteUndoesCleanup(m: map<string, Book>, failing: set<string>, e: string)
    requires KeyPath(m) && e in Evicted(m) && e in failing
    ensures Cleaned(m, failing) == m && |Cleaned(m, failing)| > MaxBooks
  {
    CleanedAllOrNothing(m, failing);
    assert e in Evicted(m) * failing;
  }

  /**
   * The clean-up the comment "continue even on error" intends (each failed delete
   * cancelled): every chosen record whose delete succeeds is removed.
   */
  function CleanedIntended(m: map<string, Book>, failing: set<string>): (r: map<string, Book>)
    requires KeyPath(m)
    ensures KeyPath(r)
    ensures forall k :: k in r <==> k in m && (k !in Evicted(m) || k in failing)
    ensures forall k :: k in r ==> r[k] == m[k]
  {
    m - (Evicted(m) - failing)
  }

  /** The intended clean-up keeps five records, and one more for each failed delete. */
  lemma IntendedCleanupCount(m: map<string, Book>, failing: set<string>)
    requires KeyPath(m) && |m| > MaxBooks
    ensures |CleanedIntended(m, failing)| == MaxBooks + |Evicted(m) * failing|
  {
    var e := Evicted(m);
    var n := |m|;
    EvictedCount(m);
    EvictedStored(m);
    SplitCount(e, failing);
    RemovedCount(m, e - failing);
    assert |m - (e - failing)| == n - |e - failing|;
  }

  lemma SplitCount(e: set<string>, f: set<string>)
    ensures |e| == |e - f| + |e * f|
  {
    assert e == (e - f) + e * f;
    assert (e - f) * (e * f) == {};
  }

  lemma RemovedCount(m: map<string, Book>, x: set<string>)
    requires x <= m.Keys
    ensures |m - x| == |m| - |x|
  {
    assert (m - x).Keys == m.Keys - x;
    assert m.Keys == (m.Keys - x) + x;
  }

  /** Names of records with pairwise different names. */
  lemma {:induction false} NamesCount(bs: seq<Book>)
    requires forall i, j :: 0 <= i < j < |bs| ==> bs[i].fileName != bs[j].fileName
    ensures |Names(bs)| == |bs|
  {
    if bs != [] {
      var rest := bs[1..];
      forall i, j | 0 <= i < j < |rest| ensures rest[i].fileName != rest[j].fileName {
        assert rest[i] == bs[i + 1] && rest[j] == bs[j + 1];
      }
      NamesCount(rest);
      forall b | b in rest ensures b.fileName != bs[0].fileName {
        var i :| 0 <= i < |rest| && rest[i] == b;
        assert bs[i + 1] == b;
      }
      assert Names(bs) == {bs[0].fileName} + Names(rest);
    }
  }

  // ----- the operations -----

  /** `store.put(b)`: the record replaces whatever was stored under its name. */
  function Put(m: map<string, Book>, b: Book): (r: map<string, Book>)
    requires KeyPath(m)
    ensures KeyPath(r)
    ensures r.Keys == m.Keys + {b.fileName} && r[b.fileName] == b
    ensures forall k :: k in m && k != b.fileName ==> r[k] == m[k]
  {
    m[b.fileName := b]
  }

  /** `getRecentBooks`: the records without their data, newest first, ties in key order. */
  function Recent(m: map<string, Book>): (r: seq<BookInfo>)
    requires KeyPath(m)
    ensures |r| == |m|
    ensures forall i :: 0 <= i < |r| ==> r[i].fileName in m && r[i] == Strip(m[r[i].fileName])
    ensures forall k :: k in m ==> Strip(m[k]) in r
    ensures forall i, j :: 0 <= i < j < |r| ==> r[i].lastOpened >= r[j].lastOpened
  {
    var l := Listing(m);
    forall k | k in m ensures m[k] in l {
      ListingCovers(m, k);
    }
    var infos := StripAll(l);
    var r := SortBy(infos, NewestKey);
    StrippedRearranged(m, l, infos, r);
    forall i, j | 0 <= i < j < |r| ensures r[i].lastOpened >= r[j].lastOpened {
      assert NewestKey(r[i]) <= NewestKey(r[j]);
    }
    r
  }

  lemma StrippedRearranged(m: map<string, Book>, l: seq<Book>, infos: seq<BookInfo>, r: seq<BookInfo>)
    requires forall i :: 0 <= i < |l| ==> InStore(m, l[i])
    requires forall k :: k in m ==> m[k] in l
    requires |l| == |m|
    requires |infos| == |l| && forall i :: 0 <= i < |l| ==> infos[i] == Strip(l[i])
    requires multiset(r) == multiset(infos)
    ensures |r| == |m|
    ensures forall i :: 0 <= i < |r| ==> r[i].fileName in m && r[i] == Strip(m[r[i].fileName])
    ensures forall k :: k in m ==> Strip(m[k]) in r
  {
    assert |r| == |multiset(r)| == |multiset(infos)| == |infos|;
    forall i | 0 <= i < |r| ensures r[i].fileName in m && r[i] == Strip(m[r[i].fileName]) {
      assert r[i] in multiset(infos);
      var j :| 0 <= j < |infos| && infos[j] == r[i];
      assert InStore(m, l[j]);
    }
    forall k | k in m ensures Strip(m[k]) in r {
      var j :| 0 <= j < |l| && l[j] == m[k];
      assert infos[j] in multiset(r);
    }
  }

  function NewestKey(i: BookInfo): int {
    -i.lastOpened
  }

  function StripAll(bs: seq<Book>): (r: seq<BookInfo>)
    ensures |r| == |bs| && forall i :: 0 <= i < |bs| ==> r[i] == Strip(bs[i])
  {
    if bs == [] then [] else [Strip(bs[0])] + StripAll(bs[1..])
  }

  /**
   * A book saved with the current time, when every other record is older, is never chosen
   * for eviction: it survives the clean-up as written and the intended one, whichever
   * deletes fail.
   */
  lemma SavedBookSurvives(m: map<string, Book>, file: File, meta: Meta, now: int, failing: set<string>)
    requires KeyPath(m)
    requires meta.lastOpened == None
    requires forall k :: k in m && k != NewRecord(file, meta, now).fileName ==> m[k].lastOpened < now
    ensures var b := NewRecord(file, meta, now);
            var saved := Put(m, b);
            var after := Cleaned(saved, failing);
            b.fileName in after && after[b.fileName] == b
    ensures var b := NewRecord(file, meta, now);
            var after := CleanedIntended(Put(m, b), failing);
            b.fileName in after && after[b.fileName] == b
  {
    var b := NewRecord(file, meta, now);
    var saved := Put(m, b);
    CleanedAllOrNothing(saved, failing);
    if |saved| > MaxBooks {
      CleanupLeavesFive(saved);
      var s :| s in (saved - Evicted(saved));
      if s != b.fileName && b.fileName in Evicted(saved) {
        EvictedAreOldest(saved, b.fileName, s);
        assert false;
      }
    } else {
      CleanupWithinLimit(saved, failing);
    }
  }

  /**
   * `updateBookMeta` never removes a record: the updated copy is stored under the name the
   * updates give it (the old name when they give none), and every other record stays.
   */
  lemma UpdateKeepsRecords(m: map<string, Book>, fileName: string, updates: Meta, now: int)
    requires KeyPath(m) && fileName in m
    ensures var b := Updated(m[fileName], updates, now);
            var r := Put(m, b);
            m.Keys <= r.Keys && |r| <= |m| + 1 && r[b.fileName].lastOpened == now
    ensures updates.fileName == None ==> Put(m, Updated(m[fileName], updates, now)).Keys == m.Keys
  {
    var b := Updated(m[fileName], updates, now);
    var r := Put(m, b);
    if b.fileName in m {
      assert r.Keys == m.Keys;
    } else {
      assert r.Keys == m.Keys + {b.fileName};
    }
  }

  lemma NamesSnoc(s: seq<Book>, i: nat)
    requires i < |s|
    ensures Names(s[..i + 1]) == Names(s[..i]) + {s[i].fileName}
  {
    assert s[..i + 1] == s[..i] + [s[i]];
  }

  /** One more delete in the clean-up loop. */
  lemma DeleteOneMore(m: map<string, Book>, done: set<string>, name: string)
    requires KeyPath(m)
    ensures KeyPath(m - done)
    ensures m - (done + {name}) == (m - done) - {name}
  {
  }

  /** The `books` object store. */
  class BookStore {
    var books: map<string, Book>

    ghost predicate Valid()
      reads this
    {
      KeyPath(books)
    }

    constructor ()
      ensures Valid() && books == map[]
    {
      books := map[];
    }

    /**
     * `getBook`: the record stored under `fileName`, or `None` when there is none or the
     * read fails.
     */
    function GetBook(fileName: string, readOk: bool): (r: Option<Book>)
      reads this
      requires Valid()
      ensures r.Some? <==> readOk && fileName in books
      ensures r.Some? ==> r.value == books[fileName] && r.value.fileName == fileName
    {
      if readOk && fileName in books then Some(books[fileName]) else None
    }

    /** `getRecentBooks`: every record without its data, newest first; `[]` when the read fails. */
    function GetRecentBooks(readOk: bool): (r: seq<BookInfo>)
      reads this
      requires Valid()
      ensures !readOk ==> r == []
      ensures readOk ==> |r| == |books|
      ensures readOk ==> forall k :: k in books ==> Strip(books[k]) in r
      ensures forall i :: 0 <= i < |r| ==> r[i].fileName in books && r[i] == Strip(books[r[i].fileName])
      ensures forall i, j :: 0 <= i < j < |r| ==> r[i].lastOpened >= r[j].lastOpened
    {
      if readOk then Recent(books) else []
    }

    /**
     * `cleanupOldBooks`: when more than five records are stored, deletes the `count - 5`
     * oldest one by one in one transaction (`Cleaned`), and reports whether it resolved
     * (`CleanupResolves`). Reports `false`, deleting nothing, when the index cannot be read.
     */
    method CleanupOldBooks(listed: bool, failing: set<string>) returns (ok: bool)
      requires Valid()
      modifies this
      ensures Valid()
      ensures ok == (listed && CleanupResolves(old(books), failing))
      ensures listed ==> books == Cleaned(old(books), failing)
      ensures !listed ==> books == old(books)
    {
      if !listed {
        return false;
      }
      ok := DeleteEach(ToDelete(books), failing);
    }

    /**
     * The clean-up's loop: one delete per record, in order, in one transaction. The first
     * failed delete leaves the transaction `Aborting`: the next delete is still placed, then
     * the abort restores the store as it was before the loop and the transaction is
     * `Finished`, so a delete after that throws and `ok` is false.
     */
    method DeleteEach(toDelete: seq<Book>, failing: set<string>) returns (ok: bool)
      requires Valid()
      modifies this
      ensures Valid()
      ensures FirstFailing(toDelete, failing) == |toDelete| ==> books == old(books) - Names(toDelete)
      ensures FirstFailing(toDelete, failing) < |toDelete| ==> books == old(books)
      ensures ok <==> FirstFailing(toDelete, failing) + 2 >= |toDelete|
    {
      var before := books;
      var tx := Active;
      var i := 0;
      while i < |toDelete|
        invariant 0 <= i <= |toDelete|
        invariant tx.Active? <==> FirstFailing(toDelete, failing) >= i
        invariant tx.Active? ==> books == before - Names(toDelete[..i])
        invariant tx.Aborting? ==> FirstFailing(toDelete, failing) == i - 1
        invariant tx.Aborting? ==> books == before - Names(toDelete[..i - 1])
        invariant tx.Finished? ==> FirstFailing(toDelete, failing) == i - 2 && books == before
        invariant Valid()
      {
        if tx.Finished? {
          return false;
        }
        var name := toDelete[i].fileName;
        if tx.Aborting? {
          // placed while the failed delete's error is dispatched, then aborted with the rest
          books := before;
          tx := Finished;
        } else if name in failing {
          tx := Aborting;
        } else {
          NamesSnoc(toDelete, i);
          DeleteOneMore(before, Names(toDelete[..i]), name);
          books := books - {name};
        }
        i := i + 1;
      }
      if tx.Aborting? {
        // the abort that follows the last delete's error
        books := before;
      }
      assert toDelete[..i] == toDelete;
      return true;
    }

    /**
     * `saveBook`: stores the file stamped `now` with `meta` spread over it, then cleans up.
     * `stored` says whether opening, reading the file and the put succeed; `listed` whether
     * the clean-up can read the index. The put has its own transaction, so the book stays
     * stored when the clean-up fails, and the call then reports `false`.
     */
    method SaveBook(file: File, meta: Meta, now: int, stored: bool, listed: bool, failing: set<string>)
      returns (ok: bool)
      requires Valid()
      modifies this
      ensures Valid()
      ensures !stored ==> !ok && books == old(books)
      ensures stored ==> var saved := Put(old(books), NewRecord(file, meta, now));
                ok == (listed && CleanupResolves(saved, failing))
                && books == (if listed then Cleaned(saved, failing) else saved)
    {
      if !stored {
        return false;
      }
      books := Put(books, NewRecord(file, meta, now));
      ok := CleanupOldBooks(listed, failing);
    }

    /** `deleteBook`: removes the record under `fileName` (none is fine) unless the delete fails. */
    method DeleteBook(fileName: string, deleteOk: bool) returns (ok: bool)
      requires Valid()
      modifies this
      ensures Valid()
      ensures ok == deleteOk
      ensures deleteOk ==> books == old(books) - {fileName} && fileName !in books
      ensures !deleteOk ==> books == old(books)
    {
      if !deleteOk {
        return false;
      }
      books := books - {fileName};
      return true;
    }

    /**
     * `updateBookMeta`: reads the record, spreads `updates` over it, stamps it `now` and
     * puts it back; `false` when the record is missing or a step fails.
     */
    method UpdateBookMeta(fileName: string, updates: Meta, now: int, readOk: bool, writeOk: bool)
      returns (ok: bool)
      requires Valid()
      modifies this
      ensures Valid()
      ensures ok <==> readOk && writeOk && fileName in old(books)
      ensures ok ==> books == Put(old(books), Updated(old(books)[fileName], updates, now))
      ensures !ok ==> books == old(books)
    {
      var book := GetBook(fileName, readOk);
      if book.None? || !writeOk {
        return false;
      }
      books := Put(books, Updated(book.value, updates, now));
      return true;
    }
  }
}
