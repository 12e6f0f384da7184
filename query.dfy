/** The document-store queries the controllers run: a collection read in its
    natural (insertion, here ascending-id) order, `findOne`, filtering,
    sorting by a comparator, and `skip`/`limit` pagination with the page
    count the responses report. */
module Query {
  import opened Common

  /** A stored document: its id and its fields. */
  datatype Doc<T> = Doc(id: Id, val: T)

  // ---------------------------------------------------------------- natural order

  predicate IsMinimum(m: nat, ks: set<nat>) {
    m in ks && forall k :: k in ks ==> m <= k
  }

  lemma {:induction false} MinimumExists(ks: set<nat>)
    requires ks != {}
    ensures exists m :: IsMinimum(m, ks)
    decreases |ks|
  {
    var x :| x in ks;
    var rest := ks - {x};
    if rest == {} {
      assert ks == {x};
      assert IsMinimum(x, ks);
    } else {
      MinimumExists(rest);
      var m :| IsMinimum(m, rest);
      var lo := if x < m then x else m;
      forall k | k in ks ensures lo <= k {
        if k != x {
          assert k in rest;
        }
      }
      assert IsMinimum(lo, ks);
    }
  }

  lemma MinimumUnique(ks: set<nat>)
    ensures forall a, b :: IsMinimum(a, ks) && IsMinimum(b, ks) ==> a == b
  {
  }

  /** The ids of a collection in ascending order. */
  function SortedKeys(ks: set<Id>): (r: seq<Id>)
    ensures |r| == |ks|
    ensures forall i :: 0 <= i < |r| ==> r[i] in ks
    ensures forall k :: k in ks ==> k in r
    ensures forall i, j :: 0 <= i < j < |r| ==> r[i] < r[j]
    decreases |ks|
  {
    if ks == {} then []
    else
      MinimumExists(ks);
      MinimumUnique(ks);
      var m :| IsMinimum(m, ks);
      var rest := SortedKeys(ks - {m});
      MinimumFirst(m, ks, rest);
      [m] + rest
  }

  /** The minimum followed by the rest in ascending order is the whole set in ascending order. */
  lemma MinimumFirst(m: Id, ks: set<Id>, rest: seq<Id>)
    requires IsMinimum(m, ks)
    requires |rest| == |ks - {m}|
    requires forall i :: 0 <= i < |rest| ==> rest[i] in ks - {m}
    requires forall k :: k in ks - {m} ==> k in rest
    requires forall i, j :: 0 <= i < j < |rest| ==> rest[i] < rest[j]
    ensures |[m] + rest| == |ks|
    ensures forall i :: 0 <= i < |[m] + rest| ==> ([m] + rest)[i] in ks
    ensures forall k :: k in ks ==> k in [m] + rest
    ensures forall i, j :: 0 <= i < j < |[m] + rest| ==> ([m] + rest)[i] < ([m] + rest)[j]
  {
    var r := [m] + rest;
    assert forall i :: 0 <= i < |rest| ==> m < rest[i];
    assert forall i :: 0 < i < |r| ==> r[i] == rest[i - 1];
    assert forall k :: k in ks ==> k == m || k in ks - {m};
  }

  /** A whole collection in natural order (what `find` returns before `sort`). */
  function Docs<T>(m: map<Id, T>): (r: seq<Doc<T>>)
    ensures |r| == |m|
    ensures forall i :: 0 <= i < |r| ==> r[i].id in m && r[i].val == m[r[i].id]
    ensures forall i, j :: 0 <= i < j < |r| ==> r[i].id < r[j].id
  {
    var ks := SortedKeys(m.Keys);
    seq(|ks|, i requires 0 <= i < |ks| => Doc(ks[i], m[ks[i]]))
  }

  /** Every stored document is listed: the position of document `k`. */
  lemma DocIndex<T>(m: map<Id, T>, k: Id) returns (i: nat)
    requires k in m
    ensures i < |Docs(m)| && Docs(m)[i] == Doc(k, m[k])
  {
    var ks := SortedKeys(m.Keys);
    assert k in m.Keys;
    assert k in ks;
    i :| 0 <= i < |ks| && ks[i] == k;
  }

  lemma DocsComplete<T>(m: map<Id, T>)
    ensures forall k :: k in m ==> Doc(k, m[k]) in Docs(m)
  {
    forall k | k in m ensures Doc(k, m[k]) in Docs(m) {
      var i := DocIndex(m, k);
    }
  }

  /** The position of the first document that passes, or `|docs|` when none does. */
  function FirstMatch<T>(docs: seq<Doc<T>>, p: T -> bool): (i: nat)
    ensures i <= |docs|
    ensures i < |docs| ==> p(docs[i].val)
    ensures forall j :: 0 <= j < i ==> !p(docs[j].val)
  {
    if docs == [] then 0
    else if p(docs[0].val) then 0
    else 1 + FirstMatch(docs[1..], p)
  }

  /** `findOne(filter)`: the first document in natural order that passes. */
  function FindOne<T>(m: map<Id, T>, p: T -> bool): (r: Option<Doc<T>>)
    ensures r.None? <==> forall k :: k in m ==> !p(m[k])
    ensures r.Some? ==> r.value.id in m && r.value.val == m[r.value.id] && p(r.value.val)
    ensures r.Some? ==> forall k :: k in m && k < r.value.id ==> !p(m[k])
  {
    var docs := Docs(m);
    var i := FirstMatch(docs, p);
    if i == |docs| then
      NoneMatch(m, p);
      None
    else
      EarlierFail(m, p, i);
      Some(docs[i])
  }

  lemma NoneMatch<T>(m: map<Id, T>, p: T -> bool)
    requires FirstMatch(Docs(m), p) == |Docs(m)|
    ensures forall k :: k in m ==> !p(m[k])
  {
    DocsComplete(m);
  }

  lemma EarlierFail<T>(m: map<Id, T>, p: T -> bool, i: nat)
    requires i == FirstMatch(Docs(m), p) < |Docs(m)|
    ensures forall k :: k in m && k < Docs(m)[i].id ==> !p(m[k])
  {
    var docs := Docs(m);
    forall k | k in m && k < docs[i].id ensures !p(m[k]) {
      var j := DocIndex(m, k);
      IdsOrderPositions(docs, j, i);
    }
  }

  /** In a list sorted by id, a smaller id sits at an earlier position. */
  lemma IdsOrderPositions<T>(docs: seq<Doc<T>>, a: nat, b: nat)
    requires forall x, y :: 0 <= x < y < |docs| ==> docs[x].id < docs[y].id
    requires a < |docs| && b < |docs| && docs[a].id < docs[b].id
    ensures a < b
  {
  }

  // ---------------------------------------------------------------- filtering

  function Filter<T>(s: seq<T>, p: T -> bool): (r: seq<T>)
    ensures |r| <= |s|
    ensures forall i :: 0 <= i < |r| ==> r[i] in s && p(r[i])
    ensures forall i :: 0 <= i < |s| && p(s[i]) ==> s[i] in r
  {
    if s == [] then [] else (if p(s[0]) then [s[0]] else []) + Filter(s[1..], p)
  }

  /** Filters that agree on every element keep the same elements. */
  lemma {:induction false} FilterAgrees<T>(s: seq<T>, p: T -> bool, q: T -> bool)
    requires forall i :: 0 <= i < |s| ==> p(s[i]) == q(s[i])
    ensures Filter(s, p) == Filter(s, q)
    decreases |s|
  {
    if s != [] {
      FilterAgrees(s[1..], p, q);
    }
  }

  /** What holds of every element holds of every element kept by a filter,
      and the kept ones pass it. */
  lemma FilterKeeps<T>(s: seq<T>, p: T -> bool, q: T -> bool)
    requires forall i :: 0 <= i < |s| ==> q(s[i])
    ensures forall i :: 0 <= i < |Filter(s, p)| ==> q(Filter(s, p)[i]) && p(Filter(s, p)[i])
  {
    var r := Filter(s, p);
    forall i | 0 <= i < |r| ensures q(r[i]) {
      var j :| 0 <= j < |s| && s[j] == r[i];
    }
  }

  /** `a` is `b` with some elements dropped and the rest in their order. */
  ghost predicate IsSubsequence<T>(a: seq<T>, b: seq<T>) {
    if a == [] then true
    else if b == [] then false
    else if a[0] == b[0] then IsSubsequence(a[1..], b[1..])
    else IsSubsequence(a, b[1..])
  }

  lemma {:induction false} FilterIsSubsequence<T>(s: seq<T>, p: T -> bool)
    ensures IsSubsequence(Filter(s, p), s)
  {
    if s != [] {
      FilterIsSubsequence(s[1..], p);
      var rest := Filter(s[1..], p);
      if p(s[0]) {
        assert Filter(s, p) == [s[0]] + rest;
        assert ([s[0]] + rest)[1..] == rest;
      } else {
        assert Filter(s, p) == rest;
        if rest != [] {
          SubsequenceShift(rest, s);
        }
      }
    }
  }

  /** A subsequence of the tail is a subsequence of the whole. */
  lemma {:induction false} SubsequenceShift<T>(a: seq<T>, b: seq<T>)
    requires b != [] && IsSubsequence(a, b[1..])
    ensures IsSubsequence(a, b)
    decreases |b|, 0
  {
    if a != [] && a[0] == b[0] {
      SubsequenceTail(a, b[1..]);
    }
  }

  /** Dropping the head of a subsequence keeps it a subsequence. */
  lemma {:induction false} SubsequenceTail<T>(a: seq<T>, b: seq<T>)
    requires a != [] && IsSubsequence(a, b)
    ensures IsSubsequence(a[1..], b)
    decreases |b|, 1
  {
    if a[1..] != [] {
      if a[0] != b[0] {
        SubsequenceTail(a, b[1..]);
      }
      SubsequenceShift(a[1..], b);
    }
  }

  lemma {:induction false} SubsequenceRefl<T>(s: seq<T>)
    ensures IsSubsequence(s, s)
  {
    if s != [] {
      SubsequenceRefl(s[1..]);
    }
  }

  /** The number of elements that pass, as `countDocuments(filter)` gives it. */
  function Count<T>(s: seq<T>, p: T -> bool): (n: nat)
    ensures n == |Filter(s, p)|
  {
    if s == [] then 0 else (if p(s[0]) then 1 else 0) + Count(s[1..], p)
  }

  predicate NoDuplicates<T(==)>(s: seq<T>) {
    forall i, j :: 0 <= i < j < |s| ==> s[i] != s[j]
  }

  /** `distinct`: each value once, in the order of first appearance. */
  function Distinct<T(==,!new)>(s: seq<T>): (r: seq<T>)
    ensures NoDuplicates(r)
    ensures forall x :: x in r <==> x in s
  {
    if s == [] then []
    else
      var rest := Distinct(s[..|s| - 1]);
      var last := s[|s| - 1];
      assert s == s[..|s| - 1] + [last];
      if last in rest then rest else rest + [last]
  }

  /** When every element passes, nothing is dropped. */
  lemma {:induction false} FilterAll<T>(s: seq<T>, p: T -> bool)
    requires forall i :: 0 <= i < |s| ==> p(s[i])
    ensures Filter(s, p) == s
  {
    if s != [] {
      FilterAll(s[1..], p);
    }
  }

  /** An element is kept exactly when it occurs and passes. */
  lemma FilterMembership<T>(s: seq<T>, p: T -> bool)
    ensures forall x :: x in Filter(s, p) <==> x in s && p(x)
  {
    forall x | x in s && p(x) ensures x in Filter(s, p) {
      var i :| 0 <= i < |s| && s[i] == x;
    }
  }

  /** Filtering keeps a duplicate-free list duplicate-free. */
  lemma {:induction false} DistinctFilter<T>(s: seq<T>, p: T -> bool)
    requires NoDuplicates(s)
    ensures NoDuplicates(Filter(s, p))
  {
    if s != [] {
      var tail := s[1..];
      assert NoDuplicates(tail) by {
        forall i, j | 0 <= i < j < |tail| ensures tail[i] != tail[j] {
          assert tail[i] == s[i + 1] && tail[j] == s[j + 1];
        }
      }
      DistinctFilter(tail, p);
      var rest := Filter(tail, p);
      if p(s[0]) {
        assert s[0] !in tail;
        assert s[0] !in rest;
        var r := [s[0]] + rest;
        assert Filter(s, p) == r;
        forall i, j | 0 <= i < j < |r| ensures r[i] != r[j] {
          assert r[j] == rest[j - 1];
          if i > 0 {
            assert r[i] == rest[i - 1];
          }
        }
      } else {
        assert Filter(s, p) == rest;
      }
    }
  }

  /** `f` of each document, in order. */
  function Project<T, U>(docs: seq<Doc<T>>, f: T -> U): (r: seq<U>)
    ensures |r| == |docs|
    ensures forall i :: 0 <= i < |docs| ==> r[i] == f(docs[i].val)
  {
    seq(|docs|, i requires 0 <= i < |docs| => f(docs[i].val))
  }

  /** The truthiness of a string value: not the empty string. */
  predicate NonEmpty(v: string) {
    v != ""
  }

  /** `distinct(field)` followed by `filter(v => v)`: the collection's values
      of one string field, each once, without the empty string. */
  function DistinctNonEmpty<T>(m: map<Id, T>, f: T -> string): seq<string> {
    Filter(Distinct(Project(Docs(m), f)), NonEmpty)
  }

  /** A value is listed exactly when it is non-empty and some stored document has it. */
  lemma DistinctNonEmptyComplete<T>(m: map<Id, T>, f: T -> string)
    ensures forall v :: v in DistinctNonEmpty(m, f) <==> v != "" && exists k :: k in m && f(m[k]) == v
  {
    var p := Project(Docs(m), f);
    var d := Distinct(p);
    FilterMembership(d, NonEmpty);
    forall v ensures v in DistinctNonEmpty(m, f) <==> v != "" && exists k :: k in m && f(m[k]) == v {
      assert v in DistinctNonEmpty(m, f) <==> v in d && NonEmpty(v);
      assert v in d <==> v in p;
      ValueStored(m, f, v);
    }
  }

  lemma ValueStored<T>(m: map<Id, T>, f: T -> string, v: string)
    ensures v in Project(Docs(m), f) <==> exists k :: k in m && f(m[k]) == v
  {
    var docs := Docs(m);
    var r := Project(docs, f);
    if v in r {
      var i :| 0 <= i < |r| && r[i] == v;
      assert docs[i].id in m && f(m[docs[i].id]) == v;
    }
    if exists k :: k in m && f(m[k]) == v {
      var k :| k in m && f(m[k]) == v;
      var i := DocIndex(m, k);
      assert r[i] == v;
    }
  }

  /** No value is listed twice. */
  lemma DistinctNonEmptyNoDuplicates<T>(m: map<Id, T>, f: T -> string)
    ensures NoDuplicates(DistinctNonEmpty(m, f))
  {
    DistinctFilter(Distinct(Project(Docs(m), f)), NonEmpty);
  }

  // ---------------------------------------------------------------- sorting

  /** Two documents whose ids are the only keys, in id order. */
  lemma DocsOfTwo<T>(m: map<Id, T>, a: Id, b: Id)
    requires a < b && m.Keys == {a, b}
    ensures Docs(m) == [Doc(a, m[a]), Doc(b, m[b])]
  {
    var d := Docs(m);
    assert |d| == 2;
    assert d[0].id in m.Keys && d[1].id in m.Keys && d[0].id < d[1].id;
    assert d[0].id == a && d[1].id == b;
  }

  /** `le(a, b)`: `a` may come before `b`. */
  ghost predicate Total<T(!new)>(le: (T, T) -> bool) {
    forall a, b :: le(a, b) || le(b, a)
  }

  ghost predicate Transitive<T(!new)>(le: (T, T) -> bool) {
    forall a, b, c :: le(a, b) && le(b, c) ==> le(a, c)
  }

  predicate SortedBy<T>(s: seq<T>, le: (T, T) -> bool) {
    forall i, j :: 0 <= i < j < |s| ==> le(s[i], s[j])
  }

  function Insert<T>(x: T, s: seq<T>, le: (T, T) -> bool): (r: seq<T>)
    ensures |r| == |s| + 1
    ensures multiset(r) == multiset(s) + multiset{x}
  {
    if s == [] then [x]
    else if le(x, s[0]) then [x] + s
    else
      assert s == [s[0]] + s[1..];
      [s[0]] + Insert(x, s[1..], le)
  }

  /** `sort(...)`: a stable insertion sort by `le`; ties keep natural order. */
  function SortBy<T>(s: seq<T>, le: (T, T) -> bool): (r: seq<T>)
    ensures |r| == |s|
    ensures multiset(r) == multiset(s)
  {
    if s == [] then []
    else
      assert s == [s[0]] + s[1..];
      Insert(s[0], SortBy(s[1..], le), le)
  }

  /** Two elements already in order stay as they are. */
  lemma SortTwo<T>(a: T, b: T, le: (T, T) -> bool)
    requires le(a, b)
    ensures SortBy([a, b], le) == [a, b]
  {
    assert [a, b][1..] == [b];
    assert SortBy([b], le) == [b] by {
      assert [b][1..] == [];
    }
  }

  lemma {:induction false} InsertSorted<T(!new)>(x: T, s: seq<T>, le: (T, T) -> bool)
    requires Total(le) && Transitive(le)
    requires SortedBy(s, le)
    ensures SortedBy(Insert(x, s, le), le)
  {
    if s != [] && !le(x, s[0]) {
      InsertSorted(x, s[1..], le);
      var r := Insert(x, s, le);
      var t := Insert(x, s[1..], le);
      assert r == [s[0]] + t;
      forall j | 0 < j < |r| ensures le(s[0], r[j]) {
        var y := r[j];
        assert y in multiset(t);
        assert y in multiset(s[1..]) + multiset{x};
        if y != x {
          assert y in multiset(s[1..]);
          assert y in s[1..];
        }
      }
    }
  }

  lemma {:induction false} SortBySorted<T(!new)>(s: seq<T>, le: (T, T) -> bool)
    requires Total(le) && Transitive(le)
    ensures SortedBy(SortBy(s, le), le)
  {
    if s != [] {
      SortBySorted(s[1..], le);
      InsertSorted(s[0], SortBy(s[1..], le), le);
    }
  }

  /** Strict lexicographic order on strings, by character code. */
  predicate LexLess(a: string, b: string) {
    if a == [] then b != []
    else if b == [] then false
    else if a[0] != b[0] then a[0] < b[0]
    else LexLess(a[1..], b[1..])
  }

  lemma {:induction false} LexLessTrichotomy(a: string, b: string)
    ensures a == b || LexLess(a, b) || LexLess(b, a)
    ensures !(LexLess(a, b) && LexLess(b, a))
    ensures !LexLess(a, a)
  {
    if a != [] && b != [] {
      LexLessTrichotomy(a[1..], b[1..]);
      if a[0] == b[0] && a[1..] == b[1..] {
        assert a == [a[0]] + a[1..] && b == [b[0]] + b[1..];
      }
    }
    if a != [] {
      LexLessTrichotomy(a[1..], a[1..]);
    }
  }

  lemma {:induction false} LexLessTransitive(a: string, b: string, c: string)
    requires LexLess(a, b) && LexLess(b, c)
    ensures LexLess(a, c)
  {
    if a != [] && a[0] == b[0] && b[0] == c[0] {
      LexLessTransitive(a[1..], b[1..], c[1..]);
    }
  }

  // ---------------------------------------------------------------- pagination

  /** `skip((page - 1) * limit)`. */
  function Skip(page: nat, limit: nat): nat
    requires page >= 1
  {
    (page - 1) * limit
  }

  /** `.skip(Skip(page, limit)).limit(limit)` over an already ordered result. */
  function PageOf<T>(s: seq<T>, page: nat, limit: nat): (r: seq<T>)
    requires page >= 1 && limit >= 1
    ensures |r| <= limit
    ensures forall i :: 0 <= i < |r| ==> Skip(page, limit) + i < |s| && r[i] == s[Skip(page, limit) + i]
    ensures Skip(page, limit) + limit <= |s| ==> |r| == limit
  {
    var lo := Skip(page, limit);
    if lo >= |s| then []
    else if lo + limit >= |s| then s[lo..]
    else s[lo..lo + limit]
  }

  /** `Math.ceil(total / limit)`. */
  function PageCount(total: nat, limit: nat): (pages: nat)
    requires limit >= 1
    ensures (pages - 1) * limit < total <= pages * limit || (total == 0 && pages == 0)
  {
    (total + limit - 1) / limit
  }

  /** Element `k` of the ordered result sits on page `k / limit + 1`, which
      is within the reported page count. */
  lemma ElementOnPage<T>(s: seq<T>, limit: nat, k: nat)
    requires limit >= 1 && k < |s|
    ensures var page := k / limit + 1;
      page <= PageCount(|s|, limit) && k % limit < |PageOf(s, page, limit)|
      && PageOf(s, page, limit)[k % limit] == s[k]
  {
    var page := k / limit + 1;
    assert Skip(page, limit) == k - k % limit;
    assert Skip(page, limit) + k % limit == k;
    var pages := PageCount(|s|, limit);
    if page > pages {
      assert pages * limit <= (page - 1) * limit by {
        MulMonotone(pages, page - 1, limit);
      }
      assert false;
    }
  }

  lemma MulMonotone(a: nat, b: nat, c: nat)
    requires a <= b
    ensures a * c <= b * c
  {
  }

  /** The `pagination` object of a listing response. */
  datatype Listing<T> = Listing(items: seq<T>, total: nat, page: nat, pages: nat)

  /** One page of an ordered result set, with the totals counted over the whole set. */
  function Paginate<T>(ordered: seq<T>, page: nat, limit: nat): (r: Listing<T>)
    requires page >= 1 && limit >= 1
    ensures r.total == |ordered| && r.page == page
    ensures r.items == PageOf(ordered, page, limit)
    ensures r.pages * limit >= r.total && (r.pages == 0 <==> r.total == 0)
  {
    Listing(PageOf(ordered, page, limit), |ordered|, page, PageCount(|ordered|, limit))
  }

  /** Filtering an ordered sequence keeps it ordered. */
  lemma {:induction false} FilterSorted<T>(s: seq<T>, p: T -> bool, le: (T, T) -> bool)
    requires SortedBy(s, le)
    ensures SortedBy(Filter(s, p), le)
  {
    if s != [] {
      var tail := s[1..];
      assert SortedBy(tail, le) by {
        forall i, j | 0 <= i < j < |tail| ensures le(tail[i], tail[j]) {
          assert tail[i] == s[i + 1] && tail[j] == s[j + 1];
        }
      }
      FilterSorted(tail, p, le);
      var rest := Filter(tail, p);
      if p(s[0]) {
        var r := [s[0]] + rest;
        assert Filter(s, p) == r;
        forall i, j | 0 <= i < j < |r| ensures le(r[i], r[j]) {
          assert r[j] == rest[j - 1];
          if i == 0 {
            assert r[j] in tail;
            var k :| 0 <= k < |tail| && tail[k] == r[j];
            assert tail[k] == s[k + 1];
          } else {
            assert r[i] == rest[i - 1];
          }
        }
      } else {
        assert Filter(s, p) == rest;
      }
    }
  }

  /** A page of an ordered result is ordered. */
  lemma PageOfSorted<T>(s: seq<T>, le: (T, T) -> bool, page: nat, limit: nat)
    requires page >= 1 && limit >= 1 && SortedBy(s, le)
    ensures SortedBy(Paginate(s, page, limit).items, le)
  {
    var r := Paginate(s, page, limit).items;
    forall i, j | 0 <= i < j < |r| ensures le(r[i], r[j]) {
      assert r[i] == s[Skip(page, limit) + i] && r[j] == s[Skip(page, limit) + j];
    }
  }
}
