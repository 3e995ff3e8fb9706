/** The blog section of the home page: the shared post array is sorted in place,
    newest first, and its first three posts are shown as cards; the first card
    is the large one. */
module RecentPosts {
  import opened Strings
  import opened Catalog

  /** The decimal value of a string of digits. */
  function DigitsValue(s: string): int {
    if s == [] then 0 else DigitsValue(s[..|s| - 1]) * 10 + DigitValue(s[|s| - 1])
  }

  /** The position of a date on the calendar, for comparing dates: the number
      `YYYYMMDD` read off a `YYYY-MM-DD` date. Sorting posts whose date is not a
      real `YYYY-MM-DD` day is left out, so what such a date is given here does
      not matter. */
  function DateKey(d: string): int {
    if |d| == 10 then DigitsValue(d[..4] + d[5..7] + d[8..]) else 0
  }

  /** On a well-formed date the key is year, month and day weighted as on a calendar. */
  lemma DateKeyValue(d: string)
    requires IsIsoDate(d)
    ensures DateKey(d) == Year(d) * 10000 + Month(d) * 100 + Day(d)
  {
    var c1 := [d[0]];
    var c2 := c1 + [d[1]];
    var c3 := c2 + [d[2]];
    var c4 := c3 + [d[3]];
    var c5 := c4 + [d[5]];
    var c6 := c5 + [d[6]];
    var c7 := c6 + [d[8]];
    var c8 := c7 + [d[9]];
    DigitsValueSnoc([], d[0]);
    DigitsValueSnoc(c1, d[1]);
    DigitsValueSnoc(c2, d[2]);
    DigitsValueSnoc(c3, d[3]);
    DigitsValueSnoc(c4, d[5]);
    DigitsValueSnoc(c5, d[6]);
    DigitsValueSnoc(c6, d[8]);
    DigitsValueSnoc(c7, d[9]);
    assert d[..4] + d[5..7] + d[8..] == c8;
  }

  lemma DigitsValueSnoc(s: string, c: char)
    ensures DigitsValue(s + [c]) == DigitsValue(s) * 10 + DigitValue(c)
  {
    assert (s + [c])[..|s|] == s;
  }

  /** One real day comes before another: an earlier year, or the same year and an
      earlier month, or the same month and an earlier day. */
  predicate Earlier(a: string, b: string)
    requires |a| == 10 && |b| == 10
  {
    Year(a) < Year(b)
    || (Year(a) == Year(b) && (Month(a) < Month(b) || (Month(a) == Month(b) && Day(a) < Day(b))))
  }

  /** Keys order real days as the calendar does, and two days share a key exactly
      when they are the same day. */
  lemma DateKeyOrder(a: string, b: string)
    requires IsIsoDate(a) && IsIsoDate(b)
    ensures DateKey(a) < DateKey(b) <==> Earlier(a, b)
    ensures DateKey(a) == DateKey(b) <==> (Year(a), Month(a), Day(a)) == (Year(b), Month(b), Day(b))
  {
    DateKeyValue(a);
    DateKeyValue(b);
    var ra, rb := Month(a) * 100 + Day(a), Month(b) * 100 + Day(b);
    assert 0 <= ra < 10000 && 0 <= rb < 10000;
    if Year(a) != Year(b) {
      if Year(a) < Year(b) {
        assert Year(a) * 10000 + 10000 <= Year(b) * 10000;
      } else {
        assert Year(b) * 10000 + 10000 <= Year(a) * 10000;
      }
    } else if Month(a) != Month(b) {
      if Month(a) < Month(b) {
        assert Month(a) * 100 + 100 <= Month(b) * 100;
      } else {
        assert Month(b) * 100 + 100 <= Month(a) * 100;
      }
    }
  }

  function Key(p: Post): int {
    DateKey(p.publishDate)
  }

  predicate AllDated(s: seq<Post>) {
    forall i :: 0 <= i < |s| ==> IsIsoDate(s[i].publishDate)
  }

  /** Newest first. */
  predicate NewestFirst(s: seq<Post>) {
    forall i, j :: 0 <= i < j < |s| ==> Key(s[j]) <= Key(s[i])
  }

  /** Where `x` goes in `sorted`: to the left of the trailing posts older than it,
      and no further, so that it stays behind every post of its own date. */
  function InsertPos(sorted: seq<Post>, x: Post): (p: nat)
    ensures p <= |sorted|
  {
    if sorted == [] || Key(sorted[|sorted| - 1]) >= Key(x) then |sorted|
    else InsertPos(sorted[..|sorted| - 1], x)
  }

  /** Every post after the insertion point is older than `x`, and the post just
      before it is not. */
  lemma {:induction false} InsertPosBetween(sorted: seq<Post>, x: Post)
    ensures forall m :: InsertPos(sorted, x) <= m < |sorted| ==> Key(sorted[m]) < Key(x)
    ensures InsertPos(sorted, x) == 0 || Key(sorted[InsertPos(sorted, x) - 1]) >= Key(x)
  {
    if sorted != [] && Key(sorted[|sorted| - 1]) < Key(x) {
      InsertPosBetween(sorted[..|sorted| - 1], x);
    }
  }

  /** The only position with those two properties is `InsertPos`. */
  lemma {:induction false} InsertPosUnique(sorted: seq<Post>, x: Post, j: nat)
    requires j <= |sorted|
    requires forall m :: j <= m < |sorted| ==> Key(sorted[m]) < Key(x)
    requires j == 0 || Key(sorted[j - 1]) >= Key(x)
    ensures InsertPos(sorted, x) == j
  {
    if j < |sorted| {
      InsertPosUnique(sorted[..|sorted| - 1], x, j);
    }
  }

  /** `x` placed in `sorted` at `InsertPos`, the other posts keeping their order. */
  function Insert(sorted: seq<Post>, x: Post): (r: seq<Post>)
    ensures |r| == |sorted| + 1
    ensures r[InsertPos(sorted, x)] == x
  {
    var p := InsertPos(sorted, x);
    sorted[..p] + [x] + sorted[p..]
  }

  /** The posts before the insertion point stay in place; those after it move one
      place to the right. */
  lemma InsertShifts(sorted: seq<Post>, x: Post)
    ensures forall m :: 0 <= m < InsertPos(sorted, x) ==> Insert(sorted, x)[m] == sorted[m]
    ensures forall m :: InsertPos(sorted, x) < m <= |sorted| ==> Insert(sorted, x)[m] == sorted[m - 1]
  {
  }

  /** The posts sorted newest first, posts of the same date keeping their order:
      the order a stable sort with the newest-first comparison produces. */
  function SortByDate(s: seq<Post>): (r: seq<Post>)
    ensures |r| == |s|
  {
    if s == [] then [] else Insert(SortByDate(s[..|s| - 1]), s[|s| - 1])
  }

  lemma InsertNewestFirst(sorted: seq<Post>, x: Post)
    requires NewestFirst(sorted)
    ensures NewestFirst(Insert(sorted, x))
  {
    var p := InsertPos(sorted, x);
    var r := Insert(sorted, x);
    InsertPosBetween(sorted, x);
    InsertShifts(sorted, x);
    forall i, j | 0 <= i < j < |r| ensures Key(r[j]) <= Key(r[i]) {
      if j < p {
      } else if j == p {
        assert Key(sorted[p - 1]) >= Key(x);
      } else if i < p {
      } else if i == p {
      } else {
      }
    }
  }

  lemma {:induction false} SortByDateNewestFirst(s: seq<Post>)
    ensures NewestFirst(SortByDate(s))
  {
    if s != [] {
      SortByDateNewestFirst(s[..|s| - 1]);
      InsertNewestFirst(SortByDate(s[..|s| - 1]), s[|s| - 1]);
    }
  }

  /** The sort neither loses nor adds a post; drafts stay in the array. */
  lemma {:induction false} SortByDatePermutes(s: seq<Post>)
    ensures multiset(SortByDate(s)) == multiset(s)
  {
    if s != [] {
      var init, x := s[..|s| - 1], s[|s| - 1];
      SortByDatePermutes(init);
      InsertPermutes(SortByDate(init), x);
      assert s == init + [x];
      assert multiset(s) == multiset(init) + multiset{x};
    }
  }

  lemma InsertPermutes(sorted: seq<Post>, x: Post)
    ensures multiset(Insert(sorted, x)) == multiset(sorted) + multiset{x}
  {
    var p := InsertPos(sorted, x);
    assert sorted == sorted[..p] + sorted[p..];
  }

  /** The posts of `s` dated with key `k`, in order. */
  function WithKey(s: seq<Post>, k: int): seq<Post> {
    if s == [] then []
    else WithKey(s[..|s| - 1], k) + (if Key(s[|s| - 1]) == k then [s[|s| - 1]] else [])
  }

  lemma {:induction false} WithKeyAppend(a: seq<Post>, b: seq<Post>, k: int)
    ensures WithKey(a + b, k) == WithKey(a, k) + WithKey(b, k)
  {
    if b == [] {
      assert a + b == a;
    } else {
      assert (a + b)[..|a + b| - 1] == a + b[..|b| - 1];
      WithKeyAppend(a, b[..|b| - 1], k);
    }
  }

  lemma {:induction false} WithKeyNone(s: seq<Post>, k: int)
    requires forall m :: 0 <= m < |s| ==> Key(s[m]) != k
    ensures WithKey(s, k) == []
  {
    if s != [] {
      WithKeyNone(s[..|s| - 1], k);
    }
  }

  lemma InsertWithKey(sorted: seq<Post>, x: Post, k: int)
    ensures WithKey(Insert(sorted, x), k)
      == WithKey(sorted, k) + (if Key(x) == k then [x] else [])
  {
    var p := InsertPos(sorted, x);
    var front, back := sorted[..p], sorted[p..];
    if Key(x) == k {
      InsertPosBetween(sorted, x);
      WithKeyNone(back, k);
    }
    assert sorted == front + back;
    WithKeyAppend(front, back, k);
    WithKeyAround(front, x, back, k);
  }

  lemma WithKeyAround(front: seq<Post>, x: Post, back: seq<Post>, k: int)
    ensures WithKey(front + [x] + back, k)
      == WithKey(front, k) + (if Key(x) == k then [x] else []) + WithKey(back, k)
  {
    WithKeyAppend(front + [x], back, k);
    WithKeyAppend(front, [x], k);
    WithKeySingle(x, k);
  }

  lemma WithKeySingle(x: Post, k: int)
    ensures WithKey([x], k) == if Key(x) == k then [x] else []
  {
    assert [x][..0] == [];
  }

  /** The sort is stable: the posts of any one date keep their relative order. */
  lemma {:induction false} SortByDateStable(s: seq<Post>, k: int)
    ensures WithKey(SortByDate(s), k) == WithKey(s, k)
  {
    if s != [] {
      SortByDateStable(s[..|s| - 1], k);
      InsertWithKey(SortByDate(s[..|s| - 1]), s[|s| - 1], k);
    }
  }

  /** One pass of the sort: the posts before `i` that are older than the post at
      `i` move one place right, and that post drops into the gap. */
  method InsertAt(a: array<Post>, i: nat)
    requires i < a.Length
    modifies a
    ensures a[..i + 1] == Insert(old(a[..i]), old(a[i]))
    ensures a[i + 1..] == old(a[i + 1..])
  {
    ghost var b := a[..i];
    ghost var before := a[..];
    var x := a[i];
    var j := i;
    while j > 0 && Key(a[j - 1]) < Key(x)
      invariant 0 <= j <= i
      invariant forall m :: 0 <= m < j ==> a[m] == b[m]
      invariant forall m :: j < m <= i ==> a[m] == b[m - 1]
      invariant forall m :: j <= m < i ==> Key(b[m]) < Key(x)
      invariant forall m :: i < m < a.Length ==> a[m] == before[m]
    {
      a[j] := a[j - 1];
      j := j - 1;
    }
    a[j] := x;
    InsertPosUnique(b, x, j);
    InsertPlaced(a[..i + 1], b, x, j);
  }

  /** A sequence laid out as the inner loop of the sort leaves it is the insertion. */
  lemma InsertPlaced(r: seq<Post>, b: seq<Post>, x: Post, j: nat)
    requires |r| == |b| + 1 && j == InsertPos(b, x)
    requires r[j] == x
    requires forall m :: 0 <= m < j ==> r[m] == b[m]
    requires forall m :: j < m < |r| ==> r[m] == b[m - 1]
    ensures r == Insert(b, x)
  {
    InsertShifts(b, x);
  }

  /** The blog section's sort of the shared post array: in place, newest first,
      by insertion, which is stable. */
  method SortInPlace(a: array<Post>)
    requires AllDated(a[..])
    modifies a
    ensures a[..] == SortByDate(old(a[..]))
  {
    ghost var s := a[..];
    var i := 0;
    while i < a.Length
      invariant 0 <= i <= a.Length
      invariant a[..i] == SortByDate(s[..i])
      invariant a[i..] == s[i..]
    {
      assert a[i] == s[i];
      InsertAt(a, i);
      SortByDateSnoc(s, i);
      i := i + 1;
    }
    assert s[..a.Length] == s;
  }

  lemma SortByDateSnoc(s: seq<Post>, i: nat)
    requires i < |s|
    ensures SortByDate(s[..i + 1]) == Insert(SortByDate(s[..i]), s[i])
  {
    assert s[..i + 1][..i] == s[..i];
  }

  /** The posts shown: the first three of the sorted array, or all of them when
      there are fewer. */
  method Recent(a: array<Post>) returns (recent: seq<Post>)
    requires AllDated(a[..])
    modifies a
    ensures a[..] == SortByDate(old(a[..]))
    ensures recent == Take(a[..], 3)
  {
    SortInPlace(a);
    recent := if a.Length <= 3 then a[..] else a[..3];
  }

  /** The three most recent posts of `s`. */
  function RecentOf(s: seq<Post>): seq<Post> {
    Take(SortByDate(s), 3)
  }

  /** There are `min(3, n)` of them, newest first, and no post left out is newer
      than any post shown. */
  lemma RecentOfNewest(s: seq<Post>)
    ensures |RecentOf(s)| == Min(3, |s|)
    ensures NewestFirst(RecentOf(s))
    ensures forall i, j :: 0 <= i < |RecentOf(s)| <= j < |s| ==>
      Key(SortByDate(s)[j]) <= Key(RecentOf(s)[i])
  {
    SortByDateNewestFirst(s);
  }

  /** The first card shows the newest post of all, whatever its draft flag. */
  lemma RecentOfFirstIsNewest(s: seq<Post>, q: Post)
    requires q in s
    ensures RecentOf(s) != [] && Key(q) <= Key(RecentOf(s)[0])
  {
    SortByDateNewestFirst(s);
    SortByDatePermutes(s);
    assert q in multiset(SortByDate(s));
    var j :| 0 <= j < |SortByDate(s)| && SortByDate(s)[j] == q;
  }

  /** The excerpt on card `index`: whole on the first card, cut to 120 characters
      and followed by an ellipsis on the others. */
  function CardExcerpt(p: Post, index: nat): (r: string)
    ensures index == 0 ==> r == p.excerpt
    ensures index > 0 ==> |r| == Min(120, |p.excerpt|) + 3
    ensures index > 0 ==> r[..|r| - 3] == p.excerpt[..Min(120, |p.excerpt|)]
    ensures index > 0 ==> r[|r| - 3..] == "..."
  {
    if index == 0 then p.excerpt else Take(p.excerpt, 120) + "..."
  }

  /** The tags on card `index`: the first four on the first card, the first two on
      the others. */
  function CardTags(p: Post, index: nat): (r: seq<string>)
    ensures |r| == Min(if index == 0 then 4 else 2, |p.tags|)
    ensures r == p.tags[..|r|]
  {
    Take(p.tags, if index == 0 then 4 else 2)
  }
}
