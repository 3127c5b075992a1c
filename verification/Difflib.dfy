/** SequenceMatcher of internal/difflib.go: the longest match, the matching blocks,
    the opcodes, and the grouped opcodes, which patch a into b. */
module Difflib {

  import opened Helpers

  datatype Line = Line(text: string)

  datatype Match = Match(a: nat, b: nat, size: nat)

  datatype OpCode = OpCode(tag: char, i1: nat, i2: nat, j1: nat, j2: nat)

  // ---------------------------------------------------------------- matches

  /** a[i..i+k] equals b[j..j+k]. */
  ghost predicate Same(a: seq<Line>, b: seq<Line>, i: int, j: int, k: int) {
    0 <= i && 0 <= j && 0 <= k && i + k <= |a| && j + k <= |b| && forall x :: i <= x < i + k ==> a[x] == b[x - i + j]
  }

  ghost predicate Clean(a: seq<Line>, i: int, k: int, lines: set<Line>) {
    0 <= i && 0 <= k && i + k <= |a| && forall d :: i <= d < i + k ==> a[d] in lines
  }

  // ---------------------------------------------------------------- where a line is in b

  /** The indexes of s in b, ascending. */
  function Indexes(b: seq<Line>, s: Line): (r: seq<nat>)
    ensures forall x :: 0 <= x < |r| ==> r[x] < |b| && b[r[x]] == s
    ensures forall x, y :: 0 <= x < y < |r| ==> r[x] < r[y]
  {
    if b == [] then []
    else Indexes(b[..|b| - 1], s) + if b[|b| - 1] == s then [|b| - 1] else []
  }

  lemma {:induction false} IndexesAll(b: seq<Line>, j: nat)
    requires j < |b|
    ensures j in Indexes(b, b[j])
  {
    if j < |b| - 1 { IndexesAll(b[..|b| - 1], j); }
  }

  lemma IndexesStep(b: seq<Line>, n: nat, s: Line)
    requires n < |b|
    ensures Indexes(b[..n + 1], s) == Indexes(b[..n], s) + if b[n] == s then [n] else []
  {
    assert b[..n + 1][..n] == b[..n];
  }

  // ---------------------------------------------------------------- the table of findLongestMatch

  /** What findLongestMatch searches: a[alo..ahi] and b[blo..bhi], for matches of good
      lines only, which are those neither junk nor popular. */
  datatype Window = Window(a: seq<Line>, b: seq<Line>, alo: nat, ahi: nat, blo: nat, bhi: nat, good: set<Line>) {
    predicate Valid() { alo <= ahi <= |a| && blo <= bhi <= |b| }

    /** A match inside the window. */
    ghost predicate Has(m: Match) {
      alo <= m.a && m.a + m.size <= ahi && blo <= m.b && m.b + m.size <= bhi && Same(a, b, m.a, m.b, m.size)
    }
  }

  /** The length of the longest match of good lines that ends before i and j. */
  function Ending(w: Window, i: nat, j: nat): (k: nat)
    requires i <= |w.a| && j <= |w.b|
    ensures k <= i && k <= j && (k > 0 ==> w.alo + k <= i && w.blo + k <= j)
    decreases i
  {
    if i <= w.alo || j <= w.blo || w.a[i - 1] != w.b[j - 1] || w.a[i - 1] !in w.good then 0
    else Ending(w, i - 1, j - 1) + 1
  }

  lemma {:induction false} EndingMatches(w: Window, i: nat, j: nat)
    requires i <= |w.a| && j <= |w.b|
    ensures var k := Ending(w, i, j); Same(w.a, w.b, i - k, j - k, k) && Clean(w.a, i - k, k, w.good)
    decreases i
  {
    if Ending(w, i, j) > 0 { EndingMatches(w, i - 1, j - 1); }
  }

  lemma {:induction false} EndingLongest(w: Window, m: Match)
    requires w.alo <= m.a && w.blo <= m.b && Same(w.a, w.b, m.a, m.b, m.size) && Clean(w.a, m.a, m.size, w.good)
    ensures m.size <= Ending(w, m.a + m.size, m.b + m.size)
    decreases m.size
  {
    if m.size > 0 {
      assert w.a[m.a + m.size - 1] == w.b[m.b + m.size - 1] && w.a[m.a + m.size - 1] in w.good;
      EndingLongest(w, m.(size := m.size - 1));
    }
  }

  /** Indexing a Go map: zero for a missing key. */
  function At(row: map<int, nat>, j: int): nat { if j in row then row[j] else 0 }

  /** Row i of the table, for the ends before f: its keys are the last indexes of the
      matches. */
  ghost predicate IsRow(row: map<int, nat>, w: Window, i: nat, f: nat)
    requires w.Valid() && i <= |w.a|
  {
    forall j :: At(row, j) == Cell(w, i, f, j)
  }

  function Cell(w: Window, i: nat, f: nat, j: int): nat
    requires w.Valid() && i <= |w.a|
  {
    if w.blo <= j < w.bhi && j + 1 < f then Ending(w, i, j + 1) else 0
  }

  /** The ends looked at, row by row, up to f in row i. */
  predicate Seen(w: Window, i: nat, f: nat, i': nat, j': nat) {
    w.alo <= i' <= i && w.blo <= j' <= w.bhi && (i' < i || j' < f)
  }

  /** The longest match among those that end where Seen, and the first of them. */
  ghost predicate Best(w: Window, i: nat, f: nat, best: Match)
    requires w.Valid() && i <= w.ahi
  {
    && (forall i', j' :: Seen(w, i, f, i', j') ==> Ending(w, i', j') <= best.size)
    && if best.size == 0 then best == Match(w.alo, w.blo, 0) else IsFirst(w, i, best)
  }

  ghost predicate IsFirst(w: Window, i: nat, best: Match)
    requires w.Valid() && i <= w.ahi
  {
    && w.alo <= best.a && best.a + best.size <= i && w.blo <= best.b && best.b + best.size <= w.bhi
    && Ending(w, best.a + best.size, best.b + best.size) == best.size
    && forall i', j' :: Seen(w, best.a + best.size, best.b + best.size, i', j') ==> Ending(w, i', j') < best.size
  }

  /** No match ends in row i from f up to before f'. */
  ghost predicate NoneIn(w: Window, i: nat, f: nat, f': nat)
    requires w.Valid() && i <= |w.a|
  {
    forall j :: f <= j < f' && j <= w.bhi ==> Ending(w, i, j) == 0
  }

  lemma BestSkips(w: Window, i: nat, f: nat, f': nat, best: Match)
    requires w.Valid() && i <= w.ahi && Best(w, i, f, best) && f <= f'
    requires NoneIn(w, i, f, f')
    ensures Best(w, i, f', best)
  {
    forall i': nat, j': nat | Seen(w, i, f', i', j') ensures Ending(w, i', j') <= best.size {
      assert Seen(w, i, f, i', j') || (i' == i && f <= j' < f');
    }
  }

  lemma RowSkips(row: map<int, nat>, w: Window, i: nat, f: nat, f': nat)
    requires w.Valid() && i <= |w.a| && IsRow(row, w, i, f) && f <= f'
    requires NoneIn(w, i, f, f')
    ensures IsRow(row, w, i, f')
  {
    forall j ensures At(row, j) == Cell(w, i, f', j) { assert At(row, j) == Cell(w, i, f, j); }
  }

  /** The next end of row i, j + 1, has a match of length k. */
  lemma BestTakes(w: Window, i: nat, j: nat, best: Match)
    requires w.Valid() && i <= w.ahi && w.blo <= j < w.bhi && Best(w, i, j + 1, best)
    ensures var k := Ending(w, i, j + 1);
      Best(w, i, j + 2, if k > best.size then Match(i - k, j + 1 - k, k) else best)
  {
    var k := Ending(w, i, j + 1);
    forall i': nat, j': nat | Seen(w, i, j + 2, i', j') ensures Ending(w, i', j') <= if k > best.size then k else best.size {
      assert Seen(w, i, j + 1, i', j') || (i' == i && j' == j + 1);
    }
  }

  lemma RowTakes(row: map<int, nat>, w: Window, i: nat, j: nat)
    requires w.Valid() && i <= |w.a| && w.blo <= j < w.bhi && IsRow(row, w, i, j + 1)
    ensures IsRow(row[j := Ending(w, i, j + 1)], w, i, j + 2)
  {
    var row' := row[j := Ending(w, i, j + 1)];
    forall x ensures At(row', x) == Cell(w, i, j + 2, x) { assert At(row, x) == Cell(w, i, j + 1, x); }
  }

  /** Where the indexes of line i of a are looked up. */
  function Lookup(w: Window, i: nat): seq<nat>
    requires i < |w.a|
  {
    if w.a[i] in w.good then Indexes(w.b, w.a[i]) else []
  }

  lemma {:induction false} NoEnding(w: Window, i: nat, j: nat)
    requires w.Valid() && i < |w.a| && 0 < j <= |w.b| && j - 1 !in Lookup(w, i)
    ensures Ending(w, i + 1, j) == 0
  {
    if w.b[j - 1] == w.a[i] { IndexesAll(w.b, j - 1); }
  }

  /** The ends before the first x indexes are dealt with. */
  function Front(js: seq<nat>, x: nat): nat
    requires x <= |js|
  {
    if x == 0 then 0 else js[x - 1] + 2
  }

  /** No match ends between two indexes. */
  lemma NoneBetween(w: Window, i: nat, x: nat, f': nat)
    requires w.Valid() && i < |w.a| && x <= |Lookup(w, i)|
    requires x < |Lookup(w, i)| ==> f' <= Lookup(w, i)[x] + 1
    ensures NoneIn(w, i + 1, Front(Lookup(w, i), x), f')
  {
    var js, i' := Lookup(w, i), i + 1;
    forall j: nat | Front(js, x) <= j < f' && j <= w.bhi ensures Ending(w, i', j) == 0 {
      if j > 0 { NoEnding(w, i, j); }
    }
  }

  /** Row i and the best match so far, for the ends before f. */
  ghost predicate Scanned(row: map<int, nat>, best: Match, w: Window, i: nat, f: nat)
    requires w.Valid() && i <= w.ahi
  {
    IsRow(row, w, i, f) && Best(w, i, f, best)
  }

  lemma ScanSkips(row: map<int, nat>, best: Match, w: Window, i: nat, x: nat, f': nat)
    requires w.Valid() && i < w.ahi && x <= |Lookup(w, i)| && Front(Lookup(w, i), x) <= f'
    requires x < |Lookup(w, i)| ==> f' <= Lookup(w, i)[x] + 1 || (Lookup(w, i)[x] < w.blo && f' == Lookup(w, i)[x] + 2)
    requires Scanned(row, best, w, i + 1, Front(Lookup(w, i), x))
    ensures Scanned(row, best, w, i + 1, f')
  {
    NoneBetween(w, i, x, if x < |Lookup(w, i)| && f' == Lookup(w, i)[x] + 2 then f' - 1 else f');
    RowSkips(row, w, i + 1, Front(Lookup(w, i), x), f');
    BestSkips(w, i + 1, Front(Lookup(w, i), x), f', best);
  }

  function Better(best: Match, i: nat, j: nat, k: nat): Match
    requires k <= i && k <= j
  {
    if k > best.size then Match(i - k, j - k, k) else best
  }

  /** A match that ends at an index of the line is one longer than the one before it. */
  lemma NextEnding(w: Window, i: nat, j2len: map<int, nat>, x: nat)
    requires w.Valid() && w.alo <= i < w.ahi && x < |Lookup(w, i)| && w.blo <= Lookup(w, i)[x] < w.bhi
    requires IsRow(j2len, w, i, w.bhi + 1)
    ensures var j: int := Lookup(w, i)[x]; At(j2len, j - 1) + 1 == Ending(w, i + 1, j + 1)
  {
    var j: int := Lookup(w, i)[x];
    assert At(j2len, j - 1) == Cell(w, i, w.bhi + 1, j - 1);
  }

  lemma ScanTakes(row: map<int, nat>, best: Match, w: Window, i: nat, j2len: map<int, nat>, x: nat)
    requires w.Valid() && w.alo <= i < w.ahi && x < |Lookup(w, i)| && w.blo <= Lookup(w, i)[x] < w.bhi
    requires Scanned(row, best, w, i + 1, Front(Lookup(w, i), x)) && IsRow(j2len, w, i, w.bhi + 1)
    ensures var j: int := Lookup(w, i)[x]; var k := At(j2len, j - 1) + 1;
      && k <= i + 1 && k <= j + 1
      && Scanned(row[j := k], Better(best, i + 1, j + 1, k), w, i + 1, Front(Lookup(w, i), x + 1))
  {
    var j: int := Lookup(w, i)[x];
    ScanSkips(row, best, w, i, x, j + 1);
    NextEnding(w, i, j2len, x);
    RowTakes(row, w, i + 1, j);
    BestTakes(w, i + 1, j, best);
  }

  /** One row of the table: the inner loop, over the indexes in b of line i of a. */
  method ScanRow(w: Window, js: seq<nat>, i: nat, j2len: map<int, nat>, best: Match)
    returns (newj2len: map<int, nat>, best': Match)
    requires w.Valid() && w.alo <= i < w.ahi && js == Lookup(w, i)
    requires Scanned(j2len, best, w, i, w.bhi + 1)
    ensures Scanned(newj2len, best', w, i + 1, w.bhi + 1)
  {
    newj2len, best' := map[], best;
    NewRow(best, w, i);
    var x := 0;
    while x < |js|
      invariant x <= |js| && Front(js, x) <= w.bhi + 1
      invariant Scanned(newj2len, best', w, i + 1, Front(js, x))
    {
      var j: int := js[x];
      var skip := j < w.blo;
      if !skip && j >= w.bhi { break; }
      if skip {
        ScanSkips(newj2len, best', w, i, x, j + 2);
      } else {
        ScanTakes(newj2len, best', w, i, j2len, x);
        var k := At(j2len, j - 1) + 1;
        newj2len := newj2len[j := k];
        best' := if k > best'.size then Match(i + 1 - k, j + 1 - k, k) else best';
      }
      x := x + 1;
    }
    ScanSkips(newj2len, best', w, i, x, w.bhi + 1);
  }

  lemma NewRow(best: Match, w: Window, i: nat)
    requires w.Valid() && w.alo <= i < w.ahi && Best(w, i, w.bhi + 1, best)
    ensures Scanned(map[], best, w, i + 1, 0)
  {
    forall i': nat, j': nat | Seen(w, i + 1, 0, i', j') ensures Ending(w, i', j') <= best.size {
      assert Seen(w, i, w.bhi + 1, i', j');
    }
  }

  // ---------------------------------------------------------------- what the best match is

  /** m is at least as long as every match of good lines in the window. */
  ghost predicate Longest(w: Window, m: Match) {
    forall m' :: w.Has(m') && Clean(w.a, m'.a, m'.size, w.good) ==> m'.size <= m.size
  }

  /** And none as long starts earlier in a, or at the same place in a and earlier in
      b. */
  ghost predicate Earliest(w: Window, m: Match) {
    forall m' :: w.Has(m') && m'.size == m.size ==> m.a < m'.a || (m.a == m'.a && m.b <= m'.b)
  }

  /** Every line of b is good. */
  ghost predicate AllGood(w: Window) { forall j :: 0 <= j < |w.b| ==> w.b[j] in w.good }

  lemma BestIsLongest(w: Window, best: Match)
    requires w.Valid() && Best(w, w.ahi, w.bhi + 1, best)
    ensures w.Has(best) && Longest(w, best)
  {
    if best.size > 0 { EndingMatches(w, best.a + best.size, best.b + best.size); }
    forall m | w.Has(m) && Clean(w.a, m.a, m.size, w.good) ensures m.size <= best.size {
      EndingLongest(w, m);
      assert Seen(w, w.ahi, w.bhi + 1, m.a + m.size, m.b + m.size);
    }
  }

  lemma GoodMatches(w: Window, m: Match)
    requires w.Valid() && AllGood(w) && w.Has(m)
    ensures Clean(w.a, m.a, m.size, w.good)
  {
  }

  lemma NotBefore(w: Window, best: Match, i: nat, j: nat)
    requires w.Valid() && IsFirst(w, w.ahi, best) && i <= |w.a| && j <= w.bhi
    requires Ending(w, i, j) >= best.size && w.alo <= i && w.blo <= j
    ensures i > best.a + best.size || (i == best.a + best.size && j >= best.b + best.size)
  {
    var ei, ej := best.a + best.size, best.b + best.size;
    assert !Seen(w, ei, ej, i, j);
  }

  lemma BestIsEarliest(w: Window, best: Match)
    requires w.Valid() && Best(w, w.ahi, w.bhi + 1, best) && AllGood(w)
    ensures Earliest(w, best)
    ensures best.size == 0 ==> best == Match(w.alo, w.blo, 0)
  {
    forall m | w.Has(m) && m.size == best.size ensures best.a < m.a || (best.a == m.a && best.b <= m.b) {
      GoodMatches(w, m);
      EndingLongest(w, m);
      if best.size > 0 { NotBefore(w, best, m.a + m.size, m.b + m.size); }
    }
  }

  predicate CanGrowLeft(w: Window, m: Match)
    requires w.Valid()
  {
    w.alo < m.a <= w.ahi && w.blo < m.b <= w.bhi && w.a[m.a - 1] == w.b[m.b - 1]
  }

  predicate CanGrowRight(w: Window, m: Match)
    requires w.Valid()
  {
    m.a + m.size < w.ahi && m.b + m.size < w.bhi && w.a[m.a + m.size] == w.b[m.b + m.size]
  }

  /** No good line next to a longest match extends it. */
  lemma NoExtension(w: Window, m: Match)
    requires w.Valid() && w.Has(m) && Longest(w, m) && AllGood(w)
    ensures !CanGrowLeft(w, m) && !CanGrowRight(w, m)
  {
    if CanGrowLeft(w, m) {
      GoodMatches(w, Match(m.a - 1, m.b - 1, m.size + 1));
    }
    if CanGrowRight(w, m) {
      GoodMatches(w, Match(m.a, m.b, m.size + 1));
    }
  }

  /** Extend the match to the left over lines that are junk, or are not. */
  method ExtendLeft(w: Window, bJunk: set<Line>, junk: bool, best: Match) returns (m: Match)
    requires w.Valid() && w.Has(best)
    ensures w.Has(m) && m.size >= best.size && m.a + m.size == best.a + best.size && m.b + m.size == best.b + best.size
    ensures !CanGrowLeft(w, best) ==> m == best
    ensures CanGrowLeft(w, m) ==> (w.b[m.b - 1] in bJunk) != junk
  {
    m := best;
    while m.a > w.alo && m.b > w.blo && (w.b[m.b - 1] in bJunk) == junk && w.a[m.a - 1] == w.b[m.b - 1]
      invariant w.Has(m) && m.size >= best.size && m.a + m.size == best.a + best.size && m.b + m.size == best.b + best.size
      invariant !CanGrowLeft(w, best) ==> m == best
      decreases m.a
    {
      m := Match(m.a - 1, m.b - 1, m.size + 1);
    }
  }

  /** And to the right. */
  method ExtendRight(w: Window, bJunk: set<Line>, junk: bool, best: Match) returns (m: Match)
    requires w.Valid() && w.Has(best)
    ensures w.Has(m) && m.size >= best.size && m.a == best.a && m.b == best.b
    ensures !CanGrowRight(w, best) ==> m == best
    ensures CanGrowRight(w, m) ==> (w.b[m.b + m.size] in bJunk) != junk
  {
    m := best;
    while m.a + m.size < w.ahi && m.b + m.size < w.bhi && (w.b[m.b + m.size] in bJunk) == junk &&
          w.a[m.a + m.size] == w.b[m.b + m.size]
      invariant w.Has(m) && m.size >= best.size && m.a == best.a && m.b == best.b
      invariant !CanGrowRight(w, best) ==> m == best
      decreases w.ahi - m.size
    {
      m := m.(size := m.size + 1);
    }
  }

  /** The two loops over lines that are junk, or are not. */
  method ExtendBoth(w: Window, bJunk: set<Line>, junk: bool, best: Match) returns (m: Match)
    requires w.Valid() && w.Has(best)
    ensures w.Has(m) && m.size >= best.size
    ensures !CanGrowLeft(w, best) && !CanGrowRight(w, best) ==> m == best
    ensures CanGrowLeft(w, m) ==> (w.b[m.b - 1] in bJunk) != junk
    ensures CanGrowRight(w, m) ==> (w.b[m.b + m.size] in bJunk) != junk
  {
    m := ExtendLeft(w, bJunk, junk, best);
    m := ExtendRight(w, bJunk, junk, m);
  }

  /** The four loops at the end of findLongestMatch. */
  method Extend(w: Window, bJunk: set<Line>, best: Match) returns (m: Match)
    requires w.Valid() && w.Has(best)
    ensures w.Has(m) && m.size >= best.size
    ensures Longest(w, best) && AllGood(w) ==> m == best
    ensures CanGrowLeft(w, m) ==> w.b[m.b - 1] !in bJunk
    ensures CanGrowRight(w, m) ==> w.b[m.b + m.size] !in bJunk
  {
    if Longest(w, best) && AllGood(w) { NoExtension(w, best); }
    m := ExtendBoth(w, bJunk, false, best);
    m := ExtendBoth(w, bJunk, true, m);
  }

  // ---------------------------------------------------------------- matching blocks

  /** m ends before m' starts. */
  predicate Before(m: Match, m': Match) { m.a + m.size <= m'.a && m.b + m.size <= m'.b }

  /** True matches in the window, in order. */
  ghost predicate InOrder(w: Window, ms: seq<Match>) {
    && (forall x :: 0 <= x < |ms| ==> w.Has(ms[x]) && ms[x].size > 0)
    && (forall x, y :: 0 <= x < y < |ms| ==> Before(ms[x], ms[y]))
  }

  /** What GetMatchingBlocks promises. */
  ghost predicate Blocks(a: seq<Line>, b: seq<Line>, ms: seq<Match>) {
    && |ms| > 0 && ms[|ms| - 1] == Match(|a|, |b|, 0)
    && (forall x :: 0 <= x < |ms| - 1 ==> ms[x].size > 0 && Same(a, b, ms[x].a, ms[x].b, ms[x].size))
    && (forall x :: 0 <= x < |ms| - 1 ==> Before(ms[x], ms[x + 1]))
    && (forall x :: 0 <= x < |ms| - 2 ==> !Adjacent(ms[x], ms[x + 1]))
  }

  predicate Adjacent(m: Match, m': Match) { m.a + m.size == m'.a && m.b + m.size == m'.b }

  lemma Associates(x: seq<Match>, y: seq<Match>, z: seq<Match>)
    ensures (x + y) + z == x + (y + z)
  {
  }

  lemma Concatenates(w: Window, m: Match, ls: seq<Match>, rs: seq<Match>)
    requires w.Has(m) && m.size > 0
    requires InOrder(w.(ahi := m.a, bhi := m.b), ls) && InOrder(w.(alo := m.a + m.size, blo := m.b + m.size), rs)
    ensures InOrder(w, ls + [m] + rs)
  {
    var left, right := w.(ahi := m.a, bhi := m.b), w.(alo := m.a + m.size, blo := m.b + m.size);
    var ms := ls + [m] + rs;
    forall x | 0 <= x < |ms| ensures w.Has(ms[x]) && ms[x].size > 0 {
      assert x < |ls| ==> left.Has(ms[x]);
      assert x > |ls| ==> right.Has(ms[x]);
    }
    forall x, y | 0 <= x < y < |ms| ensures Before(ms[x], ms[y]) {
      assert x < |ls| ==> left.Has(ms[x]);
      assert y > |ls| ==> right.Has(ms[y]);
    }
  }

  /** True matches, in order and with a gap between any two of them. */
  ghost predicate Separate(a: seq<Line>, b: seq<Line>, out: seq<Match>) {
    && (forall x :: 0 <= x < |out| ==> out[x].size > 0 && Same(a, b, out[x].a, out[x].b, out[x].size))
    && (forall x :: 0 <= x < |out| - 1 ==> Before(out[x], out[x + 1]) && !Adjacent(out[x], out[x + 1]))
  }

  lemma SeparateAppend(a: seq<Line>, b: seq<Line>, out: seq<Match>, cur: Match)
    requires Separate(a, b, out) && cur.size > 0 && Same(a, b, cur.a, cur.b, cur.size)
    requires out != [] ==> Before(out[|out| - 1], cur) && !Adjacent(out[|out| - 1], cur)
    ensures Separate(a, b, out + [cur])
  {
  }

  /** out and the block cur that still may grow. */
  ghost predicate Collapsed(a: seq<Line>, b: seq<Line>, out: seq<Match>, cur: Match) {
    && Separate(a, b, out)
    && (if cur.size == 0 then out == [] && cur == Match(0, 0, 0) else Same(a, b, cur.a, cur.b, cur.size))
    && (out != [] ==> Before(out[|out| - 1], cur) && !Adjacent(out[|out| - 1], cur))
  }

  lemma EndsWithDummy(a: seq<Line>, b: seq<Line>, out: seq<Match>)
    requires Separate(a, b, out)
    ensures Blocks(a, b, out + [Match(|a|, |b|, 0)])
  {
  }

  lemma Joins(a: seq<Line>, b: seq<Line>, m: Match, m': Match)
    requires Same(a, b, m.a, m.b, m.size) && Same(a, b, m'.a, m'.b, m'.size) && Adjacent(m, m')
    ensures Same(a, b, m.a, m.b, m.size + m'.size)
  {
  }

  lemma StartsNext(a: seq<Line>, b: seq<Line>, out: seq<Match>, cur: Match, m: Match)
    requires Collapsed(a, b, out, cur) && m.size > 0 && Same(a, b, m.a, m.b, m.size)
    requires Before(cur, m) && !Adjacent(cur, m)
    ensures Collapsed(a, b, if cur.size > 0 then out + [cur] else out, m)
  {
    if cur.size > 0 { SeparateAppend(a, b, out, cur); }
  }

  /** GetMatchingBlocks, from the matches found to the blocks returned. */
  method Collapse(w: Window, matched: seq<Match>) returns (nonAdjacent: seq<Match>)
    requires w.Valid() && InOrder(w, matched)
    ensures Blocks(w.a, w.b, nonAdjacent)
  {
    nonAdjacent := [];
    var cur := Match(0, 0, 0);
    for n := 0 to |matched|
      invariant Collapsed(w.a, w.b, nonAdjacent, cur)
      invariant if n == 0 then cur == Match(0, 0, 0) else cur.size > 0 && Adjacent(cur, Match(matched[n - 1].a + matched[n - 1].size, matched[n - 1].b + matched[n - 1].size, 0))
    {
      var m := matched[n];
      assert w.Has(m) && (n > 0 ==> Before(matched[n - 1], m));
      if cur.a + cur.size == m.a && cur.b + cur.size == m.b {
        Joins(w.a, w.b, cur, m);
        cur := cur.(size := cur.size + m.size);
      } else {
        StartsNext(w.a, w.b, nonAdjacent, cur, m);
        if cur.size > 0 { nonAdjacent := nonAdjacent + [cur]; }
        cur := m;
      }
    }
    if cur.size > 0 {
      SeparateAppend(w.a, w.b, nonAdjacent, cur);
      nonAdjacent := nonAdjacent + [cur];
    }
    EndsWithDummy(w.a, w.b, nonAdjacent);
    nonAdjacent := nonAdjacent + [Match(|w.a|, |w.b|, 0)];
  }

  // ---------------------------------------------------------------- opcodes

  /** An opcode is what its tag says: replace, delete, insert or equal. */
  ghost predicate Proper(a: seq<Line>, b: seq<Line>, op: OpCode) {
    && op.i1 <= op.i2 <= |a| && op.j1 <= op.j2 <= |b|
    && match op.tag
       case 'r' => op.i1 < op.i2 && op.j1 < op.j2
       case 'd' => op.i1 < op.i2 && op.j1 == op.j2
       case 'i' => op.i1 == op.i2 && op.j1 < op.j2
       case 'e' => op.i2 - op.i1 == op.j2 - op.j1 && Same(a, b, op.i1, op.j1, op.i2 - op.i1)
       case _ => false
  }

  ghost predicate AllProper(a: seq<Line>, b: seq<Line>, ops: seq<OpCode>) { forall x :: 0 <= x < |ops| ==> Proper(a, b, ops[x]) }

  /** Changes and equal ranges take turns. */
  ghost predicate Alternates(ops: seq<OpCode>) {
    forall x :: 0 <= x < |ops| - 1 ==> (ops[x].tag == 'e' <==> ops[x + 1].tag != 'e')
  }

  ghost predicate Chained(ops: seq<OpCode>) {
    forall x :: 0 <= x < |ops| - 1 ==> ops[x].i2 == ops[x + 1].i1 && ops[x].j2 == ops[x + 1].j1
  }

  /** The opcodes, one behind the other, cover a[..i] and b[..j], none of them for
      nothing. */
  ghost predicate Tiles(a: seq<Line>, b: seq<Line>, ops: seq<OpCode>, i: nat, j: nat) {
    && AllProper(a, b, ops) && Chained(ops) && Alternates(ops)
    && (forall x :: 0 <= x < |ops| ==> ops[x].i1 < ops[x].i2 || ops[x].j1 < ops[x].j2)
    && if ops == [] then i == 0 && j == 0
       else ops[0].i1 == 0 && ops[0].j1 == 0 && ops[|ops| - 1].i2 == i && ops[|ops| - 1].j2 == j
  }

  lemma ChainAppend(ops: seq<OpCode>, op: OpCode)
    requires Chained(ops) && Alternates(ops)
    requires ops != [] ==> ops[|ops| - 1].i2 == op.i1 && ops[|ops| - 1].j2 == op.j1 && (ops[|ops| - 1].tag == 'e' <==> op.tag != 'e')
    ensures Chained(ops + [op]) && Alternates(ops + [op])
  {
  }

  lemma ProperAppend(a: seq<Line>, b: seq<Line>, ops: seq<OpCode>, op: OpCode)
    requires AllProper(a, b, ops) && Proper(a, b, op)
    ensures AllProper(a, b, ops + [op])
  {
  }

  lemma TilesAppend(a: seq<Line>, b: seq<Line>, ops: seq<OpCode>, i: nat, j: nat, op: OpCode)
    requires Tiles(a, b, ops, i, j) && Proper(a, b, op) && op.i1 == i && op.j1 == j
    requires op.i1 < op.i2 || op.j1 < op.j2
    requires ops != [] ==> (ops[|ops| - 1].tag == 'e' <==> op.tag != 'e')
    ensures Tiles(a, b, ops + [op], op.i2, op.j2)
  {
    ChainAppend(ops, op);
    ProperAppend(a, b, ops, op);
  }

  /** The body of GetOpCodes's loop: change a[i..m.a] into b[j..m.b], then the
      matching block m. */
  method Pump(a: seq<Line>, b: seq<Line>, opCodes: seq<OpCode>, i: nat, j: nat, m: Match) returns (opCodes': seq<OpCode>)
    requires Tiles(a, b, opCodes, i, j) && i <= m.a && j <= m.b && Same(a, b, m.a, m.b, m.size)
    requires opCodes != [] ==> opCodes[|opCodes| - 1].tag == 'e' && (m.size > 0 ==> i < m.a || j < m.b)
    ensures Tiles(a, b, opCodes', m.a + m.size, m.b + m.size)
    ensures m.size > 0 ==> opCodes' != [] && opCodes'[|opCodes'| - 1].tag == 'e'
  {
    opCodes' := opCodes;
    var ai, bj, size := m.a, m.b, m.size;
    var tag := '-';
    if i < ai && j < bj {
      tag := 'r';
    } else if i < ai {
      tag := 'd';
    } else if j < bj {
      tag := 'i';
    }
    if tag != '-' {
      TilesAppend(a, b, opCodes', i, j, OpCode(tag, i, ai, j, bj));
      opCodes' := opCodes' + [OpCode(tag, i, ai, j, bj)];
    }
    if size > 0 {
      TilesAppend(a, b, opCodes', ai, bj, OpCode('e', ai, ai + size, bj, bj + size));
      opCodes' := opCodes' + [OpCode('e', ai, ai + size, bj, bj + size)];
    }
  }

  /** GetOpCodes, from the matching blocks. */
  method Opcodes(a: seq<Line>, b: seq<Line>, matching: seq<Match>) returns (opCodes: seq<OpCode>)
    requires Blocks(a, b, matching)
    ensures Tiles(a, b, opCodes, |a|, |b|)
  {
    var i: nat, j: nat := 0, 0;
    opCodes := [];
    for n := 0 to |matching|
      invariant Tiles(a, b, opCodes, i, j)
      invariant if n == 0 then opCodes == [] && i == 0 && j == 0
        else i == matching[n - 1].a + matching[n - 1].size && j == matching[n - 1].b + matching[n - 1].size
      invariant 0 < n < |matching| ==> opCodes != [] && opCodes[|opCodes| - 1].tag == 'e'
    {
      var m := matching[n];
      assert n > 0 ==> Before(matching[n - 1], m);
      assert 0 < n < |matching| - 1 ==> !Adjacent(matching[n - 1], m);
      opCodes := Pump(a, b, opCodes, i, j, m);
      i, j := m.a + m.size, m.b + m.size;
    }
  }

  // ---------------------------------------------------------------- patching

  /** Apply the opcodes to a, from line i on: what lies between them is copied, an
      equal range is copied as well, and everything else is replaced from b. */
  function Patch(a: seq<Line>, b: seq<Line>, ops: seq<OpCode>, i: nat): seq<Line> {
    if ops == [] then Slice(a, i, |a|) else PatchOne(a, b, ops[0], i) + Patch(a, b, ops[1..], ops[0].i2)
  }

  function PatchOne(a: seq<Line>, b: seq<Line>, op: OpCode, i: nat): seq<Line> {
    Slice(a, i, op.i1) + if op.tag == 'e' then Slice(a, op.i1, op.i2) else Slice(b, op.j1, op.j2)
  }

  function Slice(a: seq<Line>, lo: nat, hi: nat): seq<Line> { if lo <= hi <= |a| then a[lo..hi] else [] }

  /** Between the opcodes, and behind them, a and b are the same. */
  ghost predicate Covers(a: seq<Line>, b: seq<Line>, ops: seq<OpCode>, i: nat, j: nat) {
    if ops == [] then i <= |a| && |a| - i == |b| - j && Same(a, b, i, j, |a| - i)
    else
      var op := ops[0];
      && Proper(a, b, op) && i <= op.i1 && op.i1 - i == op.j1 - j && Same(a, b, i, j, op.i1 - i)
      && Covers(a, b, ops[1..], op.i2, op.j2)
  }

  lemma SameSlice(a: seq<Line>, b: seq<Line>, i: nat, j: nat, k: nat)
    requires Same(a, b, i, j, k)
    ensures Slice(a, i, i + k) == Slice(b, j, j + k)
  {
  }

  lemma TwoParts(b: seq<Line>, j: nat, k: nat)
    requires j <= k <= |b|
    ensures b[j..] == b[j..k] + b[k..]
  {
  }

  /** The range of an opcode becomes that of b. */
  lemma RangeGivesB(a: seq<Line>, b: seq<Line>, op: OpCode)
    requires Proper(a, b, op)
    ensures (if op.tag == 'e' then Slice(a, op.i1, op.i2) else Slice(b, op.j1, op.j2)) == b[op.j1..op.j2]
  {
    if op.tag == 'e' { SameSlice(a, b, op.i1, op.j1, op.i2 - op.i1); }
  }

  lemma Glue(b: seq<Line>, j: nat, j1: nat, j2: nat)
    requires j <= j1 <= j2 <= |b|
    ensures Slice(b, j, j1) + b[j1..j2] == b[j..j2]
  {
  }

  lemma PatchOneGivesB(a: seq<Line>, b: seq<Line>, op: OpCode, i: nat, j: nat)
    requires Proper(a, b, op) && i <= op.i1 && op.i1 - i == op.j1 - j && Same(a, b, i, j, op.i1 - i)
    ensures PatchOne(a, b, op, i) == b[j..op.j2]
  {
    SameSlice(a, b, i, j, op.i1 - i);
    RangeGivesB(a, b, op);
    Glue(b, j, op.j1, op.j2);
  }

  lemma {:induction false} PatchGivesB(a: seq<Line>, b: seq<Line>, ops: seq<OpCode>, i: nat, j: nat)
    requires Covers(a, b, ops, i, j) && j <= |b|
    ensures Patch(a, b, ops, i) == b[j..]
  {
    if ops == [] {
      SameSlice(a, b, i, j, |a| - i);
    } else {
      PatchOneGivesB(a, b, ops[0], i, j);
      PatchGivesB(a, b, ops[1..], ops[0].i2, ops[0].j2);
      TwoParts(b, j, ops[0].j2);
    }
  }

  /** A tiling covers: all of it from opcode x on. */
  lemma {:induction false} TilesCover(a: seq<Line>, b: seq<Line>, ops: seq<OpCode>, x: nat)
    requires Tiles(a, b, ops, |a|, |b|) && x <= |ops|
    ensures Covers(a, b, ops[x..], if x == 0 then 0 else ops[x - 1].i2, if x == 0 then 0 else ops[x - 1].j2)
    decreases |ops| - x
  {
    if x < |ops| {
      TilesCover(a, b, ops, x + 1);
      assert ops[x..][1..] == ops[x + 1..];
      assert x > 0 ==> ops[x - 1].i2 == ops[x].i1;
    }
  }

  /** Opcodes in the middle may be replaced by what covers as much. */
  lemma {:induction false} CoversSplice(a: seq<Line>, b: seq<Line>, pre: seq<OpCode>, x: seq<OpCode>, y: seq<OpCode>, i: nat, j: nat)
    requires Covers(a, b, pre + x, i, j)
    requires forall i', j' :: Covers(a, b, x, i', j') ==> Covers(a, b, y, i', j')
    ensures Covers(a, b, pre + y, i, j)
  {
    if pre == [] {
      assert pre + x == x && pre + y == y;
    } else {
      assert (pre + x)[1..] == pre[1..] + x && (pre + y)[1..] == pre[1..] + y;
      CoversSplice(a, b, pre[1..], x, y, pre[0].i2, pre[0].j2);
    }
  }

  // ---------------------------------------------------------------- shrinking equal ranges

  function Len(op: OpCode): int { op.i2 - op.i1 }

  function Max(x: int, y: int): int { if x < y then y else x }

  function Min(x: int, y: int): int { if x < y then x else y }

  /** The last n lines of an equal range. */
  function Tail(c: OpCode, n: nat): OpCode { OpCode(c.tag, Max(c.i1, c.i2 - n), c.i2, Max(c.j1, c.j2 - n), c.j2) }

  /** The first n. */
  function Head(c: OpCode, n: nat): OpCode { OpCode(c.tag, c.i1, Min(c.i2, c.i1 + n), c.j1, Min(c.j2, c.j1 + n)) }

  lemma CoversEarlier(a: seq<Line>, b: seq<Line>, ops: seq<OpCode>, i: nat, j: nat, d: nat)
    requires Covers(a, b, ops, i, j) && d <= i && d <= j && Same(a, b, i - d, j - d, d)
    ensures Covers(a, b, ops, i - d, j - d)
  {
  }

  lemma TailCovers(a: seq<Line>, b: seq<Line>, c: OpCode, post: seq<OpCode>, n: nat, i: nat, j: nat)
    requires Covers(a, b, [c] + post, i, j) && c.tag == 'e'
    ensures Proper(a, b, Tail(c, n)) && Covers(a, b, [Tail(c, n)] + post, i, j)
  {
    assert ([c] + post)[1..] == post && ([Tail(c, n)] + post)[1..] == post;
  }

  lemma HeadProper(a: seq<Line>, b: seq<Line>, c: OpCode, n: nat)
    requires Proper(a, b, c) && c.tag == 'e'
    ensures var h, d := Head(c, n), Len(c) - Len(Head(c, n));
      Proper(a, b, h) && 0 <= d <= c.i2 && d <= c.j2 && h.i2 == c.i2 - d && h.j2 == c.j2 - d && Same(a, b, h.i2, h.j2, d)
  {
  }

  lemma HeadCovers(a: seq<Line>, b: seq<Line>, c: OpCode, post: seq<OpCode>, n: nat, i: nat, j: nat)
    requires Covers(a, b, [c] + post, i, j) && c.tag == 'e'
    ensures Proper(a, b, Head(c, n)) && Covers(a, b, [Head(c, n)] + post, i, j)
  {
    assert ([c] + post)[1..] == post && ([Head(c, n)] + post)[1..] == post;
    HeadProper(a, b, c, n);
    CoversEarlier(a, b, post, c.i2, c.j2, Len(c) - Len(Head(c, n)));
  }

  /** Behind the head of a long range, its tail covers what is left of it. */
  lemma TailFollows(a: seq<Line>, b: seq<Line>, c: OpCode, post: seq<OpCode>, n: nat)
    requires Proper(a, b, c) && Covers(a, b, post, c.i2, c.j2) && c.tag == 'e' && Len(c) > 2 * n
    ensures Covers(a, b, [Tail(c, n)] + post, Head(c, n).i2, Head(c, n).j2)
  {
    assert ([Tail(c, n)] + post)[1..] == post;
  }

  lemma SplitCovers(a: seq<Line>, b: seq<Line>, c: OpCode, post: seq<OpCode>, n: nat, i: nat, j: nat)
    requires Covers(a, b, [c] + post, i, j) && c.tag == 'e' && Len(c) > 2 * n
    ensures Covers(a, b, [Head(c, n), Tail(c, n)] + post, i, j)
  {
    var h, t := Head(c, n), Tail(c, n);
    assert ([c] + post)[1..] == post && ([h, t] + post)[1..] == [t] + post;
    TailFollows(a, b, c, post, n);
    HeadProper(a, b, c, n);
  }

  lemma DropCovers(a: seq<Line>, b: seq<Line>, c: OpCode, post: seq<OpCode>, i: nat, j: nat)
    requires Covers(a, b, [c] + post, i, j) && c.tag == 'e'
    ensures Covers(a, b, post, i, j)
  {
    assert ([c] + post)[1..] == post;
    CoversEarlier(a, b, post, c.i2, c.j2, c.i2 - i);
  }

  // ---------------------------------------------------------------- grouping

  function Flat(groups: seq<seq<OpCode>>): seq<OpCode> {
    if groups == [] then [] else Flat(groups[..|groups| - 1]) + groups[|groups| - 1]
  }

  lemma FlatAppend(groups: seq<seq<OpCode>>, g: seq<OpCode>)
    ensures Flat(groups + [g]) == Flat(groups) + g
  {
    assert (groups + [g])[..|groups|] == groups;
  }

  function TrimFirst(codes: seq<OpCode>, n: nat): seq<OpCode> {
    if codes != [] && codes[0].tag == 'e' then codes[0 := Tail(codes[0], n)] else codes
  }

  function TrimLast(codes: seq<OpCode>, n: nat): seq<OpCode> {
    if codes != [] && codes[|codes| - 1].tag == 'e' then codes[|codes| - 1 := Head(codes[|codes| - 1], n)] else codes
  }

  ghost predicate HasChange(g: seq<OpCode>) { exists x :: 0 <= x < |g| && g[x].tag != 'e' }

  ghost predicate ShortEquals(g: seq<OpCode>, n: nat) { forall x :: 0 <= x < |g| && g[x].tag == 'e' ==> Len(g[x]) <= 2 * n }

  /** A change cluster with up to n lines of context: it has a change, no more than n
      equal lines in front and behind, and no equal range of more than 2 n lines. */
  ghost predicate Cluster(g: seq<OpCode>, n: nat) {
    && HasChange(g) && ShortEquals(g, n)
    && (g[0].tag == 'e' ==> Len(g[0]) <= n) && (g[|g| - 1].tag == 'e' ==> Len(g[|g| - 1]) <= n)
  }

  /** The group being built when the first x opcodes are dealt with. */
  ghost predicate Open(group: seq<OpCode>, codes: seq<OpCode>, x: nat, n: nat)
    requires x <= |codes|
  {
    && (group == [] <==> x == 0) && ShortEquals(group, n)
    && (x > 0 ==>
        && (group[0].tag == 'e' ==> Len(group[0]) <= n)
        && group[|group| - 1].tag == codes[x - 1].tag
        && (group[|group| - 1] == codes[x - 1] || (codes[x - 1].tag == 'e' && Len(codes[x - 1]) > 2 * n))
        && (HasChange(group) || (|group| == 1 && group[0].tag == 'e')))
  }

  /** What the loop expects: ends trimmed, equal ranges and changes in turn. */
  ghost predicate Trimmed(codes: seq<OpCode>, n: nat) {
    && codes != [] && Alternates(codes) && (forall x :: 0 <= x < |codes| ==> codes[x].tag == 'e' ==> Len(codes[x]) >= 0)
    && (codes[0].tag == 'e' ==> Len(codes[0]) <= n) && (codes[|codes| - 1].tag == 'e' ==> Len(codes[|codes| - 1]) <= n)
  }

  lemma OpenAppends(group: seq<OpCode>, codes: seq<OpCode>, x: nat, n: nat)
    requires x < |codes| && Trimmed(codes, n) && Open(group, codes, x, n) && !(codes[x].tag == 'e' && Len(codes[x]) > 2 * n)
    ensures Open(group + [codes[x]], codes, x + 1, n)
  {
    var g := group + [codes[x]];
    assert codes[x].tag != 'e' ==> g[|group|].tag != 'e';
    if HasChange(group) { var y :| 0 <= y < |group| && group[y].tag != 'e'; assert g[y].tag != 'e'; }
    if x > 0 { assert codes[x - 1].tag == 'e' <==> codes[x].tag != 'e'; }
  }

  lemma OpenSplits(group: seq<OpCode>, codes: seq<OpCode>, x: nat, n: nat)
    requires x < |codes| && Trimmed(codes, n) && Open(group, codes, x, n) && codes[x].tag == 'e' && Len(codes[x]) > 2 * n
    ensures Cluster(group + [Head(codes[x], n)], n) && Open([Tail(codes[x], n)], codes, x + 1, n)
  {
    assert x > 0;
    assert codes[x - 1].tag == 'e' <==> codes[x].tag != 'e';
    assert (group + [Head(codes[x], n)])[|group| - 1].tag != 'e';
  }

  lemma OpenCloses(group: seq<OpCode>, codes: seq<OpCode>, n: nat)
    requires Trimmed(codes, n) && Open(group, codes, |codes|, n)
    ensures Cluster(group, n) || (|group| == 1 && group[0].tag == 'e')
  {
  }

  /** The opcodes dealt with and those still to come. */
  ghost function Pending(groups: seq<seq<OpCode>>, group: seq<OpCode>, rest: seq<OpCode>): seq<OpCode> {
    (Flat(groups) + group) + rest
  }

  lemma PendingAppends(groups: seq<seq<OpCode>>, group: seq<OpCode>, c: OpCode, rest: seq<OpCode>)
    ensures Pending(groups, group, [c] + rest) == Pending(groups, group + [c], rest)
  {
  }

  lemma PendingSplits(a: seq<Line>, b: seq<Line>, groups: seq<seq<OpCode>>, group: seq<OpCode>, c: OpCode, rest: seq<OpCode>, n: nat)
    requires Covers(a, b, Pending(groups, group, [c] + rest), 0, 0) && c.tag == 'e' && Len(c) > 2 * n
    ensures Covers(a, b, Pending(groups + [group + [Head(c, n)]], [Tail(c, n)], rest), 0, 0)
  {
    forall i: nat, j: nat | Covers(a, b, [c] + rest, i, j) ensures Covers(a, b, [Head(c, n), Tail(c, n)] + rest, i, j) {
      SplitCovers(a, b, c, rest, n, i, j);
    }
    CoversSplice(a, b, Flat(groups) + group, [c] + rest, [Head(c, n), Tail(c, n)] + rest, 0, 0);
    FlatAppend(groups, group + [Head(c, n)]);
    assert (Flat(groups) + group) + ([Head(c, n), Tail(c, n)] + rest) ==
           ((Flat(groups) + (group + [Head(c, n)])) + [Tail(c, n)]) + rest;
  }

  lemma PendingDrops(a: seq<Line>, b: seq<Line>, groups: seq<seq<OpCode>>, c: OpCode)
    requires Covers(a, b, Pending(groups, [c], []), 0, 0) && c.tag == 'e'
    ensures Covers(a, b, Flat(groups), 0, 0)
  {
    forall i: nat, j: nat | Covers(a, b, [c], i, j) ensures Covers(a, b, [], i, j) {
      assert [c] + [] == [c];
      DropCovers(a, b, c, [], i, j);
    }
    assert Pending(groups, [c], []) == Flat(groups) + [c];
    CoversSplice(a, b, Flat(groups), [c], [], 0, 0);
    assert Flat(groups) + [] == Flat(groups);
  }

  ghost predicate Clusters(groups: seq<seq<OpCode>>, n: nat) { forall y :: 0 <= y < |groups| ==> Cluster(groups[y], n) }

  /** The state of the loop before opcode x. */
  ghost predicate Grouped(groups: seq<seq<OpCode>>, group: seq<OpCode>, codes: seq<OpCode>, x: nat, n: nat, a: seq<Line>, b: seq<Line>)
    requires x <= |codes|
  {
    && Clusters(groups, n) && Open(group, codes, x, n)
    && Covers(a, b, Pending(groups, group, codes[x..]), 0, 0)
    && (x <= 1 ==> groups == [] && group == codes[..x])
  }

  lemma GroupSplits(groups: seq<seq<OpCode>>, group: seq<OpCode>, codes: seq<OpCode>, x: nat, n: nat, a: seq<Line>, b: seq<Line>)
    requires x < |codes| && Trimmed(codes, n) && Grouped(groups, group, codes, x, n, a, b)
    requires codes[x].tag == 'e' && Len(codes[x]) > 2 * n
    ensures Grouped(groups + [group + [Head(codes[x], n)]], [Tail(codes[x], n)], codes, x + 1, n, a, b)
  {
    assert codes[x..] == [codes[x]] + codes[x + 1..];
    OpenSplits(group, codes, x, n);
    PendingSplits(a, b, groups, group, codes[x], codes[x + 1..], n);
  }

  lemma GroupAppends(groups: seq<seq<OpCode>>, group: seq<OpCode>, codes: seq<OpCode>, x: nat, n: nat, a: seq<Line>, b: seq<Line>)
    requires x < |codes| && Trimmed(codes, n) && Grouped(groups, group, codes, x, n, a, b)
    requires !(codes[x].tag == 'e' && Len(codes[x]) > 2 * n)
    ensures Grouped(groups, group + [codes[x]], codes, x + 1, n, a, b)
  {
    assert codes[x..] == [codes[x]] + codes[x + 1..];
    OpenAppends(group, codes, x, n);
    PendingAppends(groups, group, codes[x], codes[x + 1..]);
  }

  lemma GroupStarts(codes: seq<OpCode>, n: nat, a: seq<Line>, b: seq<Line>)
    requires codes != [] && Covers(a, b, codes, 0, 0)
    ensures Grouped([], [], codes, 0, n, a, b)
  {
    assert Pending([], [], codes[0..]) == codes;
  }

  lemma GroupCloses(groups: seq<seq<OpCode>>, group: seq<OpCode>, codes: seq<OpCode>, n: nat, a: seq<Line>, b: seq<Line>)
    requires Trimmed(codes, n) && Grouped(groups, group, codes, |codes|, n, a, b)
    ensures var all := if |group| > 0 && (|group| != 1 || group[0].tag != 'e') then groups + [group] else groups;
      Clusters(all, n) && Covers(a, b, Flat(all), 0, 0) && (|codes| == 1 && codes[0].tag == 'e' ==> all == [])
  {
    OpenCloses(group, codes, n);
    if |group| != 1 || group[0].tag != 'e' {
      FlatAppend(groups, group);
      assert Pending(groups, group, codes[|codes|..]) == Flat(groups) + group;
    } else {
      assert group == [group[0]];
      PendingDrops(a, b, groups, group[0]);
    }
  }

  /** The loop of GetGroupedOpCodes. */
  method Group(codes: seq<OpCode>, n: nat, ghost a: seq<Line>, ghost b: seq<Line>) returns (groups: seq<seq<OpCode>>)
    requires Trimmed(codes, n) && Covers(a, b, codes, 0, 0)
    ensures Clusters(groups, n)
    ensures Covers(a, b, Flat(groups), 0, 0)
    ensures |codes| == 1 && codes[0].tag == 'e' ==> groups == []
  {
    var nn := n + n;
    groups := [];
    var group := [];
    GroupStarts(codes, n, a, b);
    for x := 0 to |codes|
      invariant Grouped(groups, group, codes, x, n, a, b)
    {
      var c := codes[x];
      if c.tag == 'e' && c.i2 - c.i1 > nn {
        GroupSplits(groups, group, codes, x, n, a, b);
        groups := groups + [group + [OpCode(c.tag, c.i1, Min(c.i2, c.i1 + n), c.j1, Min(c.j2, c.j1 + n))]];
        group := [OpCode(c.tag, Max(c.i1, c.i2 - n), c.i2, Max(c.j1, c.j2 - n), c.j2)];
      } else {
        GroupAppends(groups, group, codes, x, n, a, b);
        group := group + [c];
      }
    }
    GroupCloses(groups, group, codes, n, a, b);
    if |group| > 0 && (|group| != 1 || group[0].tag != 'e') {
      groups := groups + [group];
    }
  }

  // ---------------------------------------------------------------- the effect on the cache

  /** GetGroupedOpCodes's fixup of the leading and trailing equal ranges. */
  function Fixup(codes: seq<OpCode>, n: nat): seq<OpCode> { TrimLast(TrimFirst(codes, n), n) }

  lemma TrimFirstCovers(a: seq<Line>, b: seq<Line>, codes: seq<OpCode>, n: nat)
    requires codes != [] && Covers(a, b, codes, 0, 0) && AllProper(a, b, codes)
    ensures Covers(a, b, TrimFirst(codes, n), 0, 0) && AllProper(a, b, TrimFirst(codes, n))
  {
    if codes[0].tag == 'e' {
      var post := codes[1..];
      assert codes == [codes[0]] + post && TrimFirst(codes, n) == [Tail(codes[0], n)] + post;
      TailCovers(a, b, codes[0], post, n, 0, 0);
    }
  }

  lemma TrimLastCovers(a: seq<Line>, b: seq<Line>, codes: seq<OpCode>, n: nat)
    requires codes != [] && Covers(a, b, codes, 0, 0) && AllProper(a, b, codes)
    ensures Covers(a, b, TrimLast(codes, n), 0, 0) && AllProper(a, b, TrimLast(codes, n))
  {
    var m := |codes| - 1;
    var c := codes[m];
    if c.tag == 'e' {
      forall i: nat, j: nat | Covers(a, b, [c], i, j) ensures Covers(a, b, [Head(c, n)], i, j) {
        assert [c] + [] == [c] && [Head(c, n)] + [] == [Head(c, n)];
        HeadCovers(a, b, c, [], n, i, j);
      }
      assert codes == codes[..m] + [c] && TrimLast(codes, n) == codes[..m] + [Head(c, n)];
      CoversSplice(a, b, codes[..m], [c], [Head(c, n)], 0, 0);
    }
  }

  lemma FixupTrims(a: seq<Line>, b: seq<Line>, codes: seq<OpCode>, n: nat)
    requires codes != [] && AllProper(a, b, codes) && Alternates(codes)
    ensures Trimmed(Fixup(codes, n), n)
  {
    var m := |codes| - 1;
    assert Proper(a, b, codes[0]) && Proper(a, b, codes[m]);
  }

  lemma FixupCovers(a: seq<Line>, b: seq<Line>, codes: seq<OpCode>, n: nat)
    requires codes != [] && AllProper(a, b, codes) && Alternates(codes) && Covers(a, b, codes, 0, 0)
    ensures Trimmed(Fixup(codes, n), n) && AllProper(a, b, Fixup(codes, n)) && Covers(a, b, Fixup(codes, n), 0, 0)
  {
    TrimFirstCovers(a, b, codes, n);
    TrimLastCovers(a, b, TrimFirst(codes, n), n);
    FixupTrims(a, b, codes, n);
  }

  /** What a caller can check: no more than n equal lines at either end. */
  predicate ShortEnds(codes: seq<OpCode>, n: nat) {
    codes != [] ==> (codes[0].tag == 'e' ==> Len(codes[0]) <= n) && (codes[|codes| - 1].tag == 'e' ==> Len(codes[|codes| - 1]) <= n)
  }

  /** The fixup leaves a tiling a tiling exactly if it has nothing to cut. */
  lemma FixupTilesIff(a: seq<Line>, b: seq<Line>, codes: seq<OpCode>, n: nat)
    requires Tiles(a, b, codes, |a|, |b|)
    ensures Tiles(a, b, Fixup(codes, n), |a|, |b|) <==> ShortEnds(codes, n)
    ensures ShortEnds(codes, n) ==> Fixup(codes, n) == codes
  {
    if codes != [] {
      var m := |codes| - 1;
      var fixed := Fixup(codes, n);
      assert Proper(a, b, codes[0]) && Proper(a, b, codes[m]);
      if codes[0].tag == 'e' && Len(codes[0]) > n {
        assert fixed[0].i1 > 0;
      } else if codes[m].tag == 'e' && Len(codes[m]) > n {
        assert fixed[m].i2 < |a|;
      } else {
        assert fixed == codes;
      }
    }
  }

  /** Such as grouping with no context two files with one equal line. */
  lemma FixupCuts()
    ensures var x := [Line("x")]; var codes := [OpCode('e', 0, 1, 0, 1)];
      Tiles(x, x, codes, 1, 1) && Fixup(codes, 0) == [OpCode('e', 1, 1, 1, 1)] && !Tiles(x, x, Fixup(codes, 0), 1, 1)
  {
    var codes := [OpCode('e', 0, 1, 0, 1)];
    assert TrimFirst(codes, 0) == [OpCode('e', 1, 1, 1, 1)];
  }

  // ---------------------------------------------------------------- the matcher

  /** The lines of b that isJunk takes for junk. */
  ghost predicate IsJunkSet(b: seq<Line>, isJunk: Option<Line -> bool>, junk: set<Line>) {
    forall s :: s in junk <==> s in b && isJunk.Some? && isJunk.value(s)
  }

  /** The lines that are left and too frequent. */
  ghost predicate IsPopularSet(b: seq<Line>, autoJunk: bool, junk: set<Line>, popular: set<Line>) {
    forall s :: s in popular <==> s in b && s !in junk && autoJunk && |b| >= 200 && |Indexes(b, s)| > |b| / 100 + 1
  }

  /** The lines of b with all their indexes, except for some. */
  ghost predicate IsIndex(b2j: map<Line, seq<nat>>, b: seq<Line>, except: set<Line>) {
    forall s :: IndexedAt(b2j, b, except, s)
  }

  ghost predicate IndexedAt(b2j: map<Line, seq<nat>>, b: seq<Line>, except: set<Line>, s: Line) {
    (s in b2j <==> s in b && s !in except) && (s in b2j ==> b2j[s] == Indexes(b, s))
  }

  class SequenceMatcher {
    var a: seq<Line>
    var b: seq<Line>
    var b2j: map<Line, seq<nat>>
    const isJunk: Option<Line -> bool>
    const autoJunk: bool
    var bJunk: set<Line>
    var bPopular: set<Line>
    var matchingBlocks: Option<seq<Match>>
    var opCodes: Option<seq<OpCode>>

    ghost predicate Chained()
      reads this
    {
      IsJunkSet(b, isJunk, bJunk) && IsPopularSet(b, autoJunk, bJunk, bPopular) && IsIndex(b2j, b, bJunk + bPopular)
    }

    /** The opcodes that are cached may have lost lines at their ends to
        GetGroupedOpCodes, but never one that matters to a patch. */
    ghost predicate Valid()
      reads this
    {
      && Chained()
      && (matchingBlocks.Some? ==> Blocks(a, b, matchingBlocks.value))
      && (opCodes.Some? ==> AllProper(a, b, opCodes.value) && Alternates(opCodes.value) && Covers(a, b, opCodes.value, 0, 0) &&
                            (opCodes.value == [] ==> a == [] && b == []))
    }

    constructor (a: seq<Line>, b: seq<Line>, autoJunk: bool, isJunk: Option<Line -> bool>)
      ensures Valid() && this.a == a && this.b == b && this.isJunk == isJunk && this.autoJunk == autoJunk
      ensures matchingBlocks == None && opCodes == None
    {
      this.isJunk, this.autoJunk := isJunk, autoJunk;
      this.b, b2j, bJunk, bPopular := [], map[], {}, {};
      matchingBlocks, opCodes := None, None;
      new;
      SetSeqs(a, b);
    }

    method SetSeqs(a: seq<Line>, b: seq<Line>)
      modifies this
      requires Chained()
      ensures Valid() && this.a == a && this.b == b && matchingBlocks == None && opCodes == None
    {
      SetSeq1(a);
      SetSeq2(b);
    }

    method SetSeq1(a: seq<Line>)
      requires Chained()
      modifies this`a, this`matchingBlocks, this`opCodes
      ensures Valid() && this.a == a && matchingBlocks == None && opCodes == None
    {
      this.a, matchingBlocks, opCodes := a, None, None;
    }

    method SetSeq2(b: seq<Line>)
      modifies this
      ensures Valid() && this.a == old(this.a) && this.b == b && matchingBlocks == None && opCodes == None
    {
      this.b, matchingBlocks, opCodes := b, None, None;
      ChainB();
    }

    /** chainB. */
    method ChainB()
      modifies this`b2j, this`bJunk, this`bPopular
      ensures Chained()
    {
      var index := IndexLines(b);
      ghost var all := index;
      bJunk := {};
      if isJunk.Some? {
        bJunk := set s | s in index.Keys && isJunk.value(s);
        index := index - bJunk;
      }
      bPopular := {};
      var n := |b|;
      if autoJunk && n >= 200 {
        var ntest := n / 100 + 1;
        bPopular := set s | s in index.Keys && |index[s]| > ntest;
        index := index - bPopular;
      }
      b2j := index;
      forall s ensures s in bJunk <==> s in b && isJunk.Some? && isJunk.value(s) { assert IndexedAt(all, b, {}, s); }
      forall s ensures IndexedAt(b2j, b, bJunk + bPopular, s) { assert IndexedAt(all, b, {}, s); }
      forall s ensures s in bPopular <==> s in b && s !in bJunk && autoJunk && |b| >= 200 && |Indexes(b, s)| > |b| / 100 + 1 {
        assert IndexedAt(all, b, {}, s);
      }
    }

    /** findLongestMatch. */
    method FindLongestMatch(alo: nat, ahi: nat, blo: nat, bhi: nat) returns (m: Match)
      requires Valid() && alo <= ahi <= |a| && blo <= bhi <= |b|
      ensures Window(a, b, alo, ahi, blo, bhi, b2j.Keys).Has(m)
      ensures BestMatch(Window(a, b, alo, ahi, blo, bhi, b2j.Keys), m, bJunk, bPopular)
    {
      var w := Window(a, b, alo, ahi, blo, bhi, b2j.Keys);
      IndexHas(b2j, b, bJunk + bPopular);
      var best := FindBest(w, b2j);
      BestIsLongest(w, best);
      if bJunk == {} && bPopular == {} { BestIsEarliest(w, best); }
      m := Extend(w, bJunk, best);
    }

    /** The closure matchBlocks of GetMatchingBlocks, which appends what it finds to
        matched. */
    method MatchBlocks(alo: nat, ahi: nat, blo: nat, bhi: nat, matched: seq<Match>) returns (matched': seq<Match>)
      requires Valid() && alo <= ahi <= |a| && blo <= bhi <= |b|
      ensures matched <= matched' && InOrder(Window(a, b, alo, ahi, blo, bhi, b2j.Keys), matched'[|matched|..])
      decreases ahi - alo
    {
      matched' := matched;
      var m := FindLongestMatch(alo, ahi, blo, bhi);
      var i, j, k := m.a, m.b, m.size;
      ghost var found := [];
      if k > 0 {
        ghost var left, right := [], [];
        if alo < i && blo < j {
          matched' := MatchBlocks(alo, i, blo, j, matched');
          left := matched'[|matched|..];
        }
        matched' := matched' + [m];
        found := left + [m];
        assert matched' == matched + found;
        if i + k < ahi && j + k < bhi {
          ghost var before := matched';
          matched' := MatchBlocks(i + k, ahi, j + k, bhi, matched');
          right := matched'[|before|..];
          assert matched' == before + right;
        }
        Concatenates(Window(a, b, alo, ahi, blo, bhi, b2j.Keys), m, left, right);
        Associates(matched, found, right);
        found := found + right;
      }
      assert matched' == matched + found;
      assert matched'[|matched|..] == found;
    }

    method GetMatchingBlocks() returns (blocks: seq<Match>)
      requires Valid()
      modifies this`matchingBlocks
      ensures Valid() && matchingBlocks == Some(blocks) && Blocks(a, b, blocks)
    {
      if matchingBlocks.Some? { return matchingBlocks.value; }
      var matched := MatchBlocks(0, |a|, 0, |b|, []);
      blocks := Collapse(Window(a, b, 0, |a|, 0, |b|, b2j.Keys), matched);
      matchingBlocks := Some(blocks);
    }

    method GetOpCodes() returns (codes: seq<OpCode>)
      requires Valid()
      modifies this`matchingBlocks, this`opCodes
      ensures Valid() && opCodes == Some(codes)
      ensures old(opCodes).None? ==> Tiles(a, b, codes, |a|, |b|)
      ensures old(opCodes).Some? ==> codes == old(opCodes).value
    {
      if opCodes.Some? { return opCodes.value; }
      var matching := GetMatchingBlocks();
      codes := Opcodes(a, b, matching);
      TilesCover(a, b, codes, 0);
      assert codes[0..] == codes;
      opCodes := Some(codes);
    }

    /** The groups patch a into b.  But the cached opcodes are cut in place, for good:
        codes are those GetOpCodes returned before or would have returned. */
    method GetGroupedOpCodes(n: int) returns (groups: seq<seq<OpCode>>, ghost codes: seq<OpCode>)
      requires Valid()
      modifies this`matchingBlocks, this`opCodes
      ensures Valid()
      ensures Clusters(groups, Context(n))
      ensures Patch(a, b, Flat(groups), 0) == b
      ensures if old(opCodes).Some? then codes == old(opCodes).value else Tiles(a, b, codes, |a|, |b|)
      ensures opCodes == Some(Fixup(codes, Context(n)))
    {
      var context := if n < 0 then 3 else n;
      var ops := GetOpCodes();
      codes := ops;
      if |ops| == 0 {
        groups := GroupNothing(context);
      } else {
        FixupCovers(a, b, ops, context);
        ops := TrimLast(TrimFirst(ops, context), context);
        opCodes := Some(ops);
        groups := Group(ops, context, a, b);
      }
      PatchGivesB(a, b, Flat(groups), 0, 0);
    }
  }

  /** What findLongestMatch finds: nothing of good lines in the window is longer, it
      does not stop next to matching junk, and without junk and popular lines it is
      the earliest of the longest, or empty at the window's start. */
  ghost predicate BestMatch(w: Window, m: Match, bJunk: set<Line>, bPopular: set<Line>)
    requires w.Valid() && w.Has(m)
  {
    && Longest(w, m)
    && (CanGrowLeft(w, m) ==> w.b[m.b - 1] !in bJunk) && (CanGrowRight(w, m) ==> w.b[m.b + m.size] !in bJunk)
    && (bJunk == {} && bPopular == {} ==> Earliest(w, m) && (m.size == 0 ==> m == Match(w.alo, w.blo, 0)))
  }

  /** Without opcodes the loop runs over a made-up one, and finds no group. */
  method GroupNothing(n: nat) returns (groups: seq<seq<OpCode>>)
    ensures groups == []
  {
    var codes := [OpCode('e', 0, 1, 0, 1)];
    ghost var x := [Line("")];
    assert codes[1..] == [] && Covers(x, x, [], 1, 1);
    FixupCovers(x, x, codes, n);
    codes := TrimLast(TrimFirst(codes, n), n);
    groups := Group(codes, n, x, x);
  }

  /** A negative number of context lines stands for three. */
  function Context(n: int): nat { if n < 0 then 3 else n }

  ghost predicate Indexed(w: Window, b2j: map<Line, seq<nat>>) { forall s <- b2j :: b2j[s] == Indexes(w.b, s) }

  lemma LooksUp(w: Window, b2j: map<Line, seq<nat>>, i: nat)
    requires i < |w.a| && w.good == b2j.Keys && Indexed(w, b2j)
    ensures Lookup(w, i) == if w.a[i] in b2j then b2j[w.a[i]] else []
  {
  }

  /** All the rows before i are scanned, and j2len is the last of them. */
  ghost predicate Found(j2len: map<int, nat>, best: Match, w: Window, i: int) {
    w.Valid() && w.alo <= i <= w.ahi && Scanned(j2len, best, w, i, w.bhi + 1)
  }

  /** The rows of findLongestMatch's table, one for each line of a in the window. */
  method FindBest(w: Window, b2j: map<Line, seq<nat>>) returns (best: Match)
    requires w.Valid() && w.good == b2j.Keys && Indexed(w, b2j)
    ensures Best(w, w.ahi, w.bhi + 1, best)
  {
    best := Match(w.alo, w.blo, 0);
    var j2len := map[];
    FirstRow(w);
    var i := w.alo;
    while i != w.ahi
      invariant Found(j2len, best, w, i)
      decreases w.ahi - i
    {
      j2len, best := FindLine(w, b2j, i, j2len, best);
      i := i + 1;
    }
  }

  /** One line of a. */
  method FindLine(w: Window, b2j: map<Line, seq<nat>>, i: nat, j2len: map<int, nat>, best: Match)
    returns (j2len': map<int, nat>, best': Match)
    requires w.good == b2j.Keys && Indexed(w, b2j) && Found(j2len, best, w, i) && i < w.ahi
    ensures Found(j2len', best', w, i + 1)
  {
    LooksUp(w, b2j, i);
    var js := if w.a[i] in b2j then b2j[w.a[i]] else [];
    j2len', best' := ScanRow(w, js, i, j2len, best);
  }

  lemma FirstRow(w: Window)
    requires w.Valid()
    ensures Scanned(map[], Match(w.alo, w.blo, 0), w, w.alo, w.bhi + 1)
  {
  }

  lemma IndexHas(b2j: map<Line, seq<nat>>, b: seq<Line>, except: set<Line>)
    requires IsIndex(b2j, b, except)
    ensures forall s <- b2j :: b2j[s] == Indexes(b, s)
    ensures except == {} ==> forall j :: 0 <= j < |b| ==> b[j] in b2j
  {
    forall s: Line | s in b2j ensures b2j[s] == Indexes(b, s) { assert IndexedAt(b2j, b, except, s); }
    forall j | 0 <= j < |b| ensures except == {} ==> b[j] in b2j { assert IndexedAt(b2j, b, except, b[j]); }
  }

  lemma NotIndexed(b: seq<Line>, s: Line)
    ensures s !in b ==> Indexes(b, s) == []
  {
  }

  /** The first loop of chainB. */
  method IndexLines(b: seq<Line>) returns (b2j: map<Line, seq<nat>>)
    ensures IsIndex(b2j, b, {})
  {
    b2j := map[];
    for i := 0 to |b|
      invariant IsIndex(b2j, b[..i], {})
    {
      var s := b[i];
      var indices := if s in b2j then b2j[s] else [];
      ghost var before := b2j;
      b2j := b2j[s := indices + [i]];
      ghost var longer := b[..i + 1];
      forall t ensures IndexedAt(b2j, longer, {}, t) {
        assert IndexedAt(before, b[..i], {}, t);
        IndexesStep(b, i, t);
        NotIndexed(b[..i], t);
        assert longer == b[..i] + [s];
      }
    }
    assert b[..|b|] == b;
  }
}
