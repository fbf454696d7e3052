/**
 * A transaction being composed: a date, a description and, per account, the
 * balance changes in each commodity. Models `src/transaction.rs`.
 *
 * `Decimal` magnitudes are exact `real`s. The `HashMap` from account name to
 * its vector of amounts is a `map<string, seq<Amount>>`; where the source
 * iterates the map, the model picks keys in an arbitrary order, because every
 * result is sorted afterwards or does not depend on the order.
 */
module Transactions {
  import opened Results
  import opened Lexicographic
  import opened Text

  /** `chrono::NaiveDate`; only its identity matters to the core. */
  datatype Date = Date(year: int, month: nat, day: nat)

  /** `Amount(commodity, magnitude)`. */
  datatype Amount = Amount(commodity: string, magnitude: real)

  /** The order Rust derives for `Amount`: by commodity, then by magnitude. */
  predicate AmountLess(x: Amount, y: Amount) {
    Less(x.commodity, y.commodity) || (x.commodity == y.commodity && x.magnitude < y.magnitude)
  }

  predicate AmountLessEq(x: Amount, y: Amount) {
    x == y || AmountLess(x, y)
  }

  /** Sorted by the derived order on `Amount`, which is what `Vec::sort` produces. */
  predicate Sorted(v: seq<Amount>) {
    forall i, j :: 0 <= i < j < |v| ==> AmountLessEq(v[i], v[j])
  }

  /**
   * The per-account invariant: strictly increasing by commodity, that is,
   * sorted and with every commodity at most once.
   */
  predicate WellFormed(v: seq<Amount>) {
    forall i, j :: 0 <= i < j < |v| ==> Less(v[i].commodity, v[j].commodity)
  }

  function Commodities(v: seq<Amount>): set<string> {
    set a | a in v :: a.commodity
  }

  /** What a single amount contributes to commodity `c`. */
  function Contribution(a: Amount, c: string): real {
    if a.commodity == c then a.magnitude else 0.0
  }

  /** The sum of the magnitudes of `v` in commodity `c`. */
  function Magnitude(v: seq<Amount>, c: string): real {
    if v == [] then 0.0 else Contribution(v[0], c) + Magnitude(v[1..], c)
  }

  /** The vector an account holds, the empty one if it has none yet. */
  function Entries(m: map<string, seq<Amount>>, account: string): seq<Amount> {
    if account in m then m[account] else []
  }

  lemma WellFormedIsSorted(v: seq<Amount>)
    requires WellFormed(v)
    ensures Sorted(v)
    ensures forall i, j :: 0 <= i < j < |v| ==> v[i].commodity != v[j].commodity
  {
    forall i, j | 0 <= i < j < |v| ensures v[i].commodity != v[j].commodity {
      Irreflexive(v[i].commodity);
    }
  }

  lemma {:induction false} MagnitudeAppend(v: seq<Amount>, w: seq<Amount>, c: string)
    ensures Magnitude(v + w, c) == Magnitude(v, c) + Magnitude(w, c)
  {
    if v == [] {
      assert v + w == w;
    } else {
      assert (v + w)[0] == v[0] && (v + w)[1..] == v[1..] + w;
      MagnitudeAppend(v[1..], w, c);
    }
  }

  lemma {:induction false} MagnitudeAbsent(v: seq<Amount>, c: string)
    requires c !in Commodities(v)
    ensures Magnitude(v, c) == 0.0
  {
    if v != [] {
      assert v[0] in v;
      assert Commodities(v[1..]) <= Commodities(v) by {
        forall a | a in v[1..] ensures a in v { }
      }
      MagnitudeAbsent(v[1..], c);
    }
  }

  /** In a well-formed vector the magnitude of a commodity is its one entry. */
  lemma {:induction false} MagnitudeAt(v: seq<Amount>, i: nat)
    requires WellFormed(v) && i < |v|
    ensures Magnitude(v, v[i].commodity) == v[i].magnitude
  {
    if i == 0 {
      assert v[0].commodity !in Commodities(v[1..]) by {
        if v[0].commodity in Commodities(v[1..]) {
          var a :| a in v[1..] && a.commodity == v[0].commodity;
          var k :| 0 <= k < |v[1..]| && v[1..][k] == a;
          Irreflexive(v[0].commodity);
        }
      }
      MagnitudeAbsent(v[1..], v[0].commodity);
    } else {
      Irreflexive(v[0].commodity);
      MagnitudeAt(v[1..], i - 1);
    }
  }

  lemma {:induction false} MagnitudeUpdate(v: seq<Amount>, i: nat, x: Amount, c: string)
    requires i < |v|
    ensures Magnitude(v[i := x], c) == Magnitude(v, c) - Contribution(v[i], c) + Contribution(x, c)
  {
    if i > 0 {
      assert v[i := x][1..] == v[1..][i - 1 := x];
      MagnitudeUpdate(v[1..], i - 1, x, c);
    }
  }

  lemma CommoditiesUpdate(v: seq<Amount>, i: nat, x: Amount)
    requires i < |v| && x.commodity == v[i].commodity
    ensures Commodities(v[i := x]) == Commodities(v)
  {
    forall c | c in Commodities(v) ensures c in Commodities(v[i := x]) {
      var a :| a in v && a.commodity == c;
      var k :| 0 <= k < |v| && v[k] == a;
      if k == i { assert v[i := x][i] == x; } else { assert v[i := x][k] == a; }
    }
    forall c | c in Commodities(v[i := x]) ensures c in Commodities(v) {
      var a :| a in v[i := x] && a.commodity == c;
      var k :| 0 <= k < |v| && v[i := x][k] == a;
      assert v[k] in v;
    }
  }

  /**
   * Two well-formed vectors that hold the same commodities with the same
   * magnitudes are equal: the invariant leaves no freedom in the order.
   */
  lemma {:induction false} Canonical(s: seq<Amount>, t: seq<Amount>)
    requires WellFormed(s) && WellFormed(t)
    requires Commodities(s) == Commodities(t)
    requires forall c :: Magnitude(s, c) == Magnitude(t, c)
    ensures s == t
    decreases |s|
  {
    if s == [] {
      NoCommodities(t);
    } else {
      assert t != [] by { assert s[0].commodity in Commodities(s); }
      var a, b := s[0].commodity, t[0].commodity;
      assert a == b by {
        assert b in Commodities(s) && a in Commodities(t);
        var i :| 0 <= i < |s| && s[i].commodity == b;
        var j :| 0 <= j < |t| && t[j].commodity == a;
        if a != b {
          assert i > 0 && j > 0;
          Asymmetric(a, b);
        }
      }
      MagnitudeAt(s, 0);
      MagnitudeAt(t, 0);
      assert s[0] == t[0];
      forall c ensures Magnitude(s[1..], c) == Magnitude(t[1..], c) {
        assert Magnitude(s, c) == Contribution(s[0], c) + Magnitude(s[1..], c);
        assert Magnitude(t, c) == Contribution(t[0], c) + Magnitude(t[1..], c);
      }
      assert Commodities(s[1..]) == Commodities(t[1..]) by {
        TailCommodities(s);
        TailCommodities(t);
      }
      Canonical(s[1..], t[1..]);
      assert s == [s[0]] + s[1..] && t == [t[0]] + t[1..];
    }
  }

  lemma NoCommodities(v: seq<Amount>)
    ensures Commodities(v) == {} ==> v == []
  {
    if v != [] {
      assert v[0] in v && v[0].commodity in Commodities(v);
    }
  }

  lemma TailCommodities(v: seq<Amount>)
    requires WellFormed(v) && v != []
    ensures Commodities(v[1..]) == Commodities(v) - {v[0].commodity}
  {
    forall c | c in Commodities(v[1..]) ensures c != v[0].commodity {
      var k :| 0 <= k < |v[1..]| && v[1..][k].commodity == c;
      Irreflexive(c);
      assert Less(v[0].commodity, v[k + 1].commodity);
    }
    forall c | c in Commodities(v) && c != v[0].commodity ensures c in Commodities(v[1..]) {
      var k :| 0 <= k < |v| && v[k].commodity == c;
      assert v[k] in v[1..];
    }
  }

  /**
   * `v.push(a); v.sort()` on a well-formed vector that does not hold `a`'s
   * commodity: the sorted permutation of `v + [a]`.
   */
  function InsertSorted(v: seq<Amount>, a: Amount): (r: seq<Amount>)
    requires WellFormed(v) && a.commodity !in Commodities(v)
    ensures WellFormed(r)
    ensures |r| == |v| + 1
    ensures forall x :: x in r <==> x in v || x == a
    ensures multiset(r) == multiset(v + [a])
  {
    if v == [] then
      [a]
    else if Less(a.commodity, v[0].commodity) then
      LessHead(v, a);
      [a] + v
    else
      NotLessHead(v, a);
      var rest := InsertSorted(v[1..], a);
      InsertAfterHead(v, a, rest);
      [v[0]] + rest
  }

  /** Keeping the head in front of the insertion into the tail. */
  lemma InsertAfterHead(v: seq<Amount>, a: Amount, rest: seq<Amount>)
    requires v != [] && WellFormed(rest)
    requires forall x :: x in v[1..] || x == a ==> Less(v[0].commodity, x.commodity)
    requires |rest| == |v| && (forall x :: x in rest <==> x in v[1..] || x == a)
    requires multiset(rest) == multiset(v[1..] + [a])
    ensures WellFormed([v[0]] + rest)
    ensures forall x :: x in [v[0]] + rest <==> x in v || x == a
    ensures multiset([v[0]] + rest) == multiset(v + [a])
  {
    assert v == [v[0]] + v[1..];
    assert v + [a] == [v[0]] + (v[1..] + [a]);
    ConsWellFormed(v[0], rest);
  }

  lemma LessHead(v: seq<Amount>, a: Amount)
    requires WellFormed(v) && v != [] && Less(a.commodity, v[0].commodity)
    ensures WellFormed([a] + v)
  {
    var r := [a] + v;
    forall i, j | 0 <= i < j < |r| ensures Less(r[i].commodity, r[j].commodity) {
      if i == 0 && j > 1 {
        Transitive(a.commodity, v[0].commodity, v[j - 1].commodity);
      } else if i > 0 {
        assert r[i] == v[i - 1] && r[j] == v[j - 1];
      }
    }
  }

  /** When `a` does not go first, the tail obeys the same preconditions and every candidate lies after `v[0]`. */
  lemma NotLessHead(v: seq<Amount>, a: Amount)
    requires WellFormed(v) && v != [] && a.commodity !in Commodities(v) && !Less(a.commodity, v[0].commodity)
    ensures WellFormed(v[1..]) && a.commodity !in Commodities(v[1..])
    ensures forall x :: x in v[1..] || x == a ==> Less(v[0].commodity, x.commodity)
  {
    assert v[0] in v;
    Trichotomy(a.commodity, v[0].commodity);
    forall x | x in v[1..] ensures x in v && Less(v[0].commodity, x.commodity) {
      var k :| 0 <= k < |v[1..]| && v[1..][k] == x;
      assert v[k + 1] == x;
    }
  }

  lemma ConsWellFormed(x: Amount, r: seq<Amount>)
    requires WellFormed(r) && forall y :: y in r ==> Less(x.commodity, y.commodity)
    ensures WellFormed([x] + r)
  {
    var s := [x] + r;
    forall i, j | 0 <= i < j < |s| ensures Less(s[i].commodity, s[j].commodity) {
      if i == 0 {
        assert s[j] == r[j - 1] && s[j] in r;
      } else {
        assert s[i] == r[i - 1] && s[j] == r[j - 1];
      }
    }
  }

  lemma InsertSortedCommodities(v: seq<Amount>, a: Amount)
    requires WellFormed(v) && a.commodity !in Commodities(v)
    ensures Commodities(InsertSorted(v, a)) == Commodities(v) + {a.commodity}
  {
    var r := InsertSorted(v, a);
    assert a in r;
    forall c | c in Commodities(v) ensures c in Commodities(r) {
      var x :| x in v && x.commodity == c;
      assert x in r;
    }
  }

  lemma {:induction false} InsertSortedMagnitude(v: seq<Amount>, a: Amount, c: string)
    requires WellFormed(v) && a.commodity !in Commodities(v)
    ensures Magnitude(InsertSorted(v, a), c) == Magnitude(v, c) + Contribution(a, c)
  {
    if v == [] {
    } else if Less(a.commodity, v[0].commodity) {
      assert ([a] + v)[1..] == v;
    } else {
      NotLessHead(v, a);
      InsertSortedMagnitude(v[1..], a, c);
      var r := InsertSorted(v, a);
      assert r[0] == v[0] && r[1..] == InsertSorted(v[1..], a);
    }
  }

  /**
   * The vector `add_change` leaves for an account that held `v`: the entry
   * for `a`'s commodity gains `a`'s magnitude, or `a` is inserted in order.
   * It stays well-formed, gains `a`'s commodity, holds `a`'s magnitude more in
   * that commodity and the same in every other, and grows by one entry
   * exactly when the commodity is new; by `Canonical`, these fix the vector.
   */
  ghost function Merge(v: seq<Amount>, a: Amount): (r: seq<Amount>)
    requires WellFormed(v)
    ensures WellFormed(r)
    ensures Commodities(r) == Commodities(v) + {a.commodity}
    ensures forall c :: Magnitude(r, c) == Magnitude(v, c) + Contribution(a, c)
    ensures |r| == |v| + (if a.commodity in Commodities(v) then 0 else 1)
  {
    if a.commodity in Commodities(v) then
      var i :| 0 <= i < |v| && v[i].commodity == a.commodity;
      var x := Amount(a.commodity, v[i].magnitude + a.magnitude);
      CommoditiesUpdate(v, i, x);
      assert v[i] in v;
      assert forall c :: Magnitude(v[i := x], c) == Magnitude(v, c) + Contribution(a, c) by {
        forall c ensures Magnitude(v[i := x], c) == Magnitude(v, c) + Contribution(a, c) {
          MagnitudeUpdate(v, i, x, c);
        }
      }
      v[i := x]
    else
      InsertSortedCommodities(v, a);
      assert forall c :: Magnitude(InsertSorted(v, a), c) == Magnitude(v, c) + Contribution(a, c) by {
        forall c ensures Magnitude(InsertSorted(v, a), c) == Magnitude(v, c) + Contribution(a, c) {
          InsertSortedMagnitude(v, a, c);
        }
      }
      InsertSorted(v, a)
  }

  /** A new account's vector is `Merge([], a)`. */
  lemma MergeEmpty(a: Amount)
    ensures Merge([], a) == [a]
  {
  }

  /** Merging two amounts gives the same vector in either order: decimal addition commutes. */
  lemma MergeCommutes(v: seq<Amount>, a: Amount, b: Amount)
    requires WellFormed(v)
    ensures Merge(Merge(v, a), b) == Merge(Merge(v, b), a)
  {
    var x, y := Merge(Merge(v, a), b), Merge(Merge(v, b), a);
    assert forall c :: Magnitude(x, c) == Magnitude(y, c);
    Canonical(x, y);
  }

  /** `v.iter().position(|am| am.0 == c)`. */
  method Position(v: seq<Amount>, c: string) returns (pos: Option<nat>)
    ensures pos.Some? ==> pos.value < |v| && v[pos.value].commodity == c
    ensures pos.Some? ==> forall k :: 0 <= k < pos.value ==> v[k].commodity != c
    ensures pos.None? <==> c !in Commodities(v)
  {
    var i := 0;
    while i < |v|
      invariant i <= |v|
      invariant forall k :: 0 <= k < i ==> v[k].commodity != c
    {
      if v[i].commodity == c {
        return Some(i);
      }
      i := i + 1;
    }
    return None;
  }

  // ---------------------------------------------------------------------
  // Sums over every account of the map

  ghost function Pick(keys: set<string>): string
    requires keys != {}
  {
    var k :| k in keys; k
  }

  /** The sum, over the accounts in `keys`, of their magnitude in `c`. */
  ghost function Total(m: map<string, seq<Amount>>, keys: set<string>, c: string): real
    requires keys <= m.Keys
    decreases keys
  {
    if keys == {} then 0.0
    else
      var k := Pick(keys);
      Magnitude(m[k], c) + Total(m, keys - {k}, c)
  }

  /** Every commodity held by some account in `keys`. */
  ghost function CommoditiesIn(m: map<string, seq<Amount>>, keys: set<string>): set<string> {
    set k, a | k in keys && k in m && a in m[k] :: a.commodity
  }

  /** The sum does not depend on which account is taken first. */
  lemma {:induction false} TotalSplit(m: map<string, seq<Amount>>, keys: set<string>, k: string, c: string)
    requires keys <= m.Keys && k in keys
    ensures Total(m, keys, c) == Magnitude(m[k], c) + Total(m, keys - {k}, c)
    decreases keys
  {
    var j := Pick(keys);
    if j != k {
      TotalSplit(m, keys - {j}, k, c);
      TotalSplit(m, keys - {k}, j, c);
      assert keys - {j} - {k} == keys - {k} - {j};
    }
  }

  lemma {:induction false} TotalFrame(m: map<string, seq<Amount>>, n: map<string, seq<Amount>>, keys: set<string>, c: string)
    requires keys <= m.Keys && keys <= n.Keys
    requires forall k :: k in keys ==> m[k] == n[k]
    ensures Total(m, keys, c) == Total(n, keys, c)
    decreases keys
  {
    if keys != {} {
      var j := Pick(keys);
      TotalFrame(m, n, keys - {j}, c);
    }
  }

  lemma {:induction false} TotalAbsent(m: map<string, seq<Amount>>, keys: set<string>, c: string)
    requires keys <= m.Keys && c !in CommoditiesIn(m, keys)
    ensures Total(m, keys, c) == 0.0
    decreases keys
  {
    if keys != {} {
      var j := Pick(keys);
      assert c !in Commodities(m[j]);
      MagnitudeAbsent(m[j], c);
      TotalAbsent(m, keys - {j}, c);
    }
  }

  lemma CommoditiesInAdd(m: map<string, seq<Amount>>, keys: set<string>, k: string)
    requires k in m
    ensures CommoditiesIn(m, keys + {k}) == CommoditiesIn(m, keys) + Commodities(m[k])
  {
  }

  /**
   * Replacing one account's vector changes the total of `c` by the
   * difference of the two vectors' magnitudes in `c`.
   */
  lemma TotalReplace(m: map<string, seq<Amount>>, account: string, v: seq<Amount>, c: string)
    ensures Total(m[account := v], m.Keys + {account}, c)
         == Total(m, m.Keys, c) - Magnitude(Entries(m, account), c) + Magnitude(v, c)
  {
    var n := m[account := v];
    var rest := m.Keys - {account};
    TotalSplit(n, m.Keys + {account}, account, c);
    assert (m.Keys + {account}) - {account} == rest;
    TotalFrame(m, n, rest, c);
    if account in m {
      TotalSplit(m, m.Keys, account, c);
    } else {
      assert rest == m.Keys;
    }
  }

  lemma CommoditiesReplace(m: map<string, seq<Amount>>, account: string, v: seq<Amount>, x: string)
    requires Commodities(v) == Commodities(Entries(m, account)) + {x}
    ensures CommoditiesIn(m[account := v], m.Keys + {account}) == CommoditiesIn(m, m.Keys) + {x}
  {
    var n := m[account := v];
    forall c | c in CommoditiesIn(n, m.Keys + {account}) ensures c in CommoditiesIn(m, m.Keys) + {x} {
      var k: string, a: Amount :| k in m.Keys + {account} && k in n && a in n[k] && a.commodity == c;
      if k == account {
        assert c in Commodities(v);
        if c != x {
          assert c in Commodities(Entries(m, account));
          var b :| b in m[account] && b.commodity == c;
        }
      }
    }
    forall c | c in CommoditiesIn(m, m.Keys) + {x} ensures c in CommoditiesIn(n, m.Keys + {account}) {
      if c == x {
        assert x in Commodities(v);
        var a :| a in v && a.commodity == x;
        assert a in n[account];
      } else {
        var k: string, a: Amount :| k in m && a in m[k] && a.commodity == c;
        if k == account {
          assert c in Commodities(Entries(m, account));
          assert c in Commodities(v);
          var b :| b in v && b.commodity == c;
          assert b in n[account];
        } else {
          assert a in n[k];
        }
      }
    }
  }

  /** Every account holds a non-empty, well-formed vector. */
  ghost predicate ValidChanges(m: map<string, seq<Amount>>) {
    forall account :: account in m ==> m[account] != [] && WellFormed(m[account])
  }

  /** `Merge` at the index where the commodity already sits. */
  lemma MergeAt(v: seq<Amount>, a: Amount, i: nat)
    requires WellFormed(v) && i < |v| && v[i].commodity == a.commodity
    ensures Merge(v, a) == v[i := Amount(a.commodity, v[i].magnitude + a.magnitude)]
  {
    assert v[i] in v;
    WellFormedIsSorted(v);
  }

  /** Merging `a` into one account keeps every account valid. */
  lemma MergeKeepsValid(m: map<string, seq<Amount>>, account: string, a: Amount)
    requires ValidChanges(m)
    ensures ValidChanges(m[account := Merge(Entries(m, account), a)])
  {
    var v := Entries(m, account);
    var w := Merge(v, a);
    if a.commodity in Commodities(v) {
      assert |v| > 0;
    }
    var n := m[account := w];
    forall k | k in n ensures n[k] != [] && WellFormed(n[k]) {
      if k != account {
        assert n[k] == m[k];
      }
    }
  }

  /** The map `add_change(account, a)` leaves. */
  ghost function AddedTo(m: map<string, seq<Amount>>, account: string, a: Amount): (r: map<string, seq<Amount>>)
    requires WellFormed(Entries(m, account))
    ensures WellFormed(Entries(r, account))
    ensures forall k :: k != account ==> Entries(r, k) == Entries(m, k)
  {
    m[account := Merge(Entries(m, account), a)]
  }

  /**
   * Two simple changes give the same map in either order, whether they name
   * the same account or two different ones.
   */
  lemma ChangesCommute(m: map<string, seq<Amount>>, p: string, a: Amount, q: string, b: Amount)
    requires ValidChanges(m)
    ensures AddedTo(AddedTo(m, p, a), q, b) == AddedTo(AddedTo(m, q, b), p, a)
  {
    if p == q {
      SameAccountCommutes(m, p, a, b);
    } else {
      OtherAccountsCommute(m, p, a, q, b);
    }
  }

  lemma SameAccountCommutes(m: map<string, seq<Amount>>, p: string, a: Amount, b: Amount)
    requires WellFormed(Entries(m, p))
    ensures AddedTo(AddedTo(m, p, a), p, b) == AddedTo(AddedTo(m, p, b), p, a)
  {
    var v := Entries(m, p);
    MergeCommutes(v, a, b);
    assert Entries(m[p := Merge(v, a)], p) == Merge(v, a);
    assert Entries(m[p := Merge(v, b)], p) == Merge(v, b);
    UpdateTwice(m, p, Merge(v, a), Merge(Merge(v, a), b));
    UpdateTwice(m, p, Merge(v, b), Merge(Merge(v, b), a));
  }

  lemma UpdateTwice(m: map<string, seq<Amount>>, p: string, x: seq<Amount>, y: seq<Amount>)
    ensures m[p := x][p := y] == m[p := y]
  {
  }

  lemma OtherAccountsCommute(m: map<string, seq<Amount>>, p: string, a: Amount, q: string, b: Amount)
    requires WellFormed(Entries(m, p)) && WellFormed(Entries(m, q)) && p != q
    ensures AddedTo(AddedTo(m, p, a), q, b) == AddedTo(AddedTo(m, q, b), p, a)
  {
    UpdatesCommute(m, p, Merge(Entries(m, p), a), q, Merge(Entries(m, q), b));
  }

  lemma UpdatesCommute(m: map<string, seq<Amount>>, p: string, x: seq<Amount>, q: string, y: seq<Amount>)
    requires p != q
    ensures m[p := x][q := y] == m[q := y][p := x]
  {
  }

  /**
   * Merging `a` into one account adds `a`'s magnitude to the total of its
   * commodity and leaves every other total as it was.
   */
  lemma MergeTotal(m: map<string, seq<Amount>>, account: string, a: Amount, c: string)
    requires ValidChanges(m)
    ensures Total(m[account := Merge(Entries(m, account), a)], m.Keys + {account}, c) == Total(m, m.Keys, c) + Contribution(a, c)
  {
    var v := Entries(m, account);
    var w := Merge(v, a);
    TotalReplace(m, account, w, c);
  }

  /** Merging `a` into one account adds its commodity to the set of commodities. */
  lemma MergeCommodities(m: map<string, seq<Amount>>, account: string, a: Amount)
    requires ValidChanges(m)
    ensures CommoditiesIn(m[account := Merge(Entries(m, account), a)], m.Keys + {account}) == CommoditiesIn(m, m.Keys) + {a.commodity}
  {
    var v := Entries(m, account);
    var w := Merge(v, a);
    CommoditiesReplace(m, account, w, a.commodity);
  }

  /** `amount.1 / dec!(2)`, exact. */
  function Half(x: Amount): (h: Amount)
    ensures h.commodity == x.commodity && h.magnitude + h.magnitude == x.magnitude
  {
    Amount(x.commodity, x.magnitude / 2.0)
  }

  /** The map `add_split_change` leaves: half of `x` merged into `a`, then into `b`. */
  ghost function SplitInto(m: map<string, seq<Amount>>, a: string, b: string, x: Amount): map<string, seq<Amount>>
    requires ValidChanges(m)
  {
    var m1 := m[a := Merge(Entries(m, a), Half(x))];
    MergeKeepsValid(m, a, Half(x));
    m1[b := Merge(Entries(m1, b), Half(x))]
  }

  /** A split change keeps every account valid. */
  lemma SplitValid(m: map<string, seq<Amount>>, a: string, b: string, x: Amount)
    requires ValidChanges(m)
    ensures ValidChanges(SplitInto(m, a, b, x))
  {
    var h := Half(x);
    MergeKeepsValid(m, a, h);
    MergeKeepsValid(m[a := Merge(Entries(m, a), h)], b, h);
  }

  /** A split change adds both accounts to the map. */
  lemma SplitFrame(m: map<string, seq<Amount>>, a: string, b: string, x: Amount)
    requires ValidChanges(m)
    ensures SplitInto(m, a, b, x).Keys == m.Keys + {a, b}
  {
  }

  /** A split change touches no account but the two it names. */
  lemma SplitUntouched(m: map<string, seq<Amount>>, a: string, b: string, x: Amount)
    requires ValidChanges(m)
    ensures forall k :: k in m && k != a && k != b ==> SplitInto(m, a, b, x)[k] == m[k]
  {
  }

  /** A split change gives each of two distinct accounts half of `x`, and a single account all of it. */
  lemma SplitGains(m: map<string, seq<Amount>>, a: string, b: string, x: Amount, c: string)
    requires ValidChanges(m)
    ensures a != b ==> Magnitude(SplitInto(m, a, b, x)[a], c) == Magnitude(Entries(m, a), c) + Contribution(x, c) / 2.0
    ensures a != b ==> Magnitude(SplitInto(m, a, b, x)[b], c) == Magnitude(Entries(m, b), c) + Contribution(x, c) / 2.0
    ensures a == b ==> Magnitude(SplitInto(m, a, b, x)[a], c) == Magnitude(Entries(m, a), c) + Contribution(x, c)
  {
    var h := Half(x);
    var m1 := m[a := Merge(Entries(m, a), h)];
    MergeKeepsValid(m, a, h);
    if a == b {
      assert Entries(m1, a) == Merge(Entries(m, a), h);
    } else {
      assert Entries(m1, b) == Entries(m, b);
    }
  }

  /** A split change adds exactly `x` to the total of `x`'s commodity, and nothing to any other. */
  lemma SplitTotal(m: map<string, seq<Amount>>, a: string, b: string, x: Amount, c: string)
    requires ValidChanges(m)
    ensures Total(SplitInto(m, a, b, x), SplitInto(m, a, b, x).Keys, c) == Total(m, m.Keys, c) + Contribution(x, c)
  {
    var h := Half(x);
    var m1 := m[a := Merge(Entries(m, a), h)];
    MergeKeepsValid(m, a, h);
    MergeTotal(m, a, h, c);
    MergeTotal(m1, b, h, c);
    assert m1.Keys == m.Keys + {a};
    assert SplitInto(m, a, b, x).Keys == m1.Keys + {b};
  }

  /** A split change adds `x`'s commodity to the transaction's commodities. */
  lemma SplitCommodities(m: map<string, seq<Amount>>, a: string, b: string, x: Amount)
    requires ValidChanges(m)
    ensures CommoditiesIn(SplitInto(m, a, b, x), SplitInto(m, a, b, x).Keys) == CommoditiesIn(m, m.Keys) + {x.commodity}
  {
    var h := Half(x);
    var m1 := m[a := Merge(Entries(m, a), h)];
    MergeKeepsValid(m, a, h);
    CommoditiesStep(m, m1, a, h);
    CommoditiesStep(m1, SplitInto(m, a, b, x), b, h);
  }

  // ---------------------------------------------------------------------
  // Postings and their order in the rendered text

  /** One `(account, amount)` pair of the transaction: a posting line. */
  datatype Posting = Posting(account: string, amount: Amount)

  predicate IsCredit(p: Posting) {
    p.amount.magnitude >= 0.0
  }

  ghost function PostingsIn(m: map<string, seq<Amount>>, keys: set<string>): set<Posting> {
    set k, a | k in keys && k in m && a in m[k] :: Posting(k, a)
  }

  /**
   * The rendered order: credits before debits, each group by account, and
   * one account's postings of a group by commodity.
   */
  predicate RenderOrder(p: Posting, q: Posting) {
    (IsCredit(p) || !IsCredit(q)) &&
    (IsCredit(p) == IsCredit(q) ==> LessEq(p.account, q.account)) &&
    (IsCredit(p) == IsCredit(q) && p.account == q.account ==> Less(p.amount.commodity, q.amount.commodity))
  }

  /** Postings of one account appear in increasing commodity order. */
  predicate BlocksOrdered(s: seq<Posting>) {
    forall i, j :: 0 <= i < j < |s| && s[i].account == s[j].account ==> Less(s[i].amount.commodity, s[j].amount.commodity)
  }

  /** Appending a posting whose commodity follows those of its account's earlier postings. */
  lemma BlocksSnoc(s: seq<Posting>, p: Posting)
    requires BlocksOrdered(s)
    requires forall x :: x in s && x.account == p.account ==> Less(x.amount.commodity, p.amount.commodity)
    ensures BlocksOrdered(s + [p])
  {
    var t := s + [p];
    forall i, j | 0 <= i < j < |t| && t[i].account == t[j].account
      ensures Less(t[i].amount.commodity, t[j].amount.commodity)
    {
      assert t[i] == s[i];
      if j == |s| {
        assert s[i] in s;
      } else {
        assert t[j] == s[j];
      }
    }
  }

  /** A posting of an ordered sequence follows its account's earlier postings. */
  lemma BlocksLast(s: seq<Posting>)
    requires BlocksOrdered(s) && s != []
    ensures BlocksOrdered(s[..|s| - 1])
    ensures forall x :: x in s[..|s| - 1] && x.account == s[|s| - 1].account ==>
      Less(x.amount.commodity, s[|s| - 1].amount.commodity)
  {
    forall x | x in s[..|s| - 1] && x.account == s[|s| - 1].account
      ensures Less(x.amount.commodity, s[|s| - 1].amount.commodity)
    {
      var k :| 0 <= k < |s| - 1 && s[..|s| - 1][k] == x;
      assert s[k] == x;
    }
  }

  predicate ByAccount(s: seq<Posting>) {
    forall i, j :: 0 <= i < j < |s| ==> LessEq(s[i].account, s[j].account)
  }

  /** `partition` on `magnitude >= 0`: credits and debits, each in the original order. */
  function Partition(s: seq<Posting>): (r: (seq<Posting>, seq<Posting>))
    ensures multiset(r.0) + multiset(r.1) == multiset(s)
    ensures forall p :: p in r.0 ==> IsCredit(p)
    ensures forall p :: p in r.1 ==> !IsCredit(p)
  {
    if s == [] then ([], [])
    else
      var (credits, debits) := Partition(s[..|s| - 1]);
      var p := s[|s| - 1];
      assert s == s[..|s| - 1] + [p];
      if IsCredit(p) then (credits + [p], debits) else (credits, debits + [p])
  }

  /** `partition` keeps the relative order, so each part keeps the commodity order within an account. */
  lemma {:induction false} PartitionBlocks(s: seq<Posting>)
    requires BlocksOrdered(s)
    ensures BlocksOrdered(Partition(s).0) && BlocksOrdered(Partition(s).1)
  {
    if s != [] {
      var init := s[..|s| - 1];
      var p := s[|s| - 1];
      BlocksLast(s);
      PartitionBlocks(init);
      var (credits, debits) := Partition(init);
      assert multiset(credits) + multiset(debits) == multiset(init);
      forall x | x in credits ensures x in init {
        assert x in multiset(credits);
        assert x in multiset(init);
      }
      forall x | x in debits ensures x in init {
        assert x in multiset(debits);
        assert x in multiset(init);
      }
      if IsCredit(p) {
        BlocksSnoc(credits, p);
      } else {
        BlocksSnoc(debits, p);
      }
    }
  }

  /** Insertion after every posting whose account is not greater. */
  function InsertByAccount(s: seq<Posting>, p: Posting): (r: seq<Posting>)
    requires ByAccount(s)
    ensures ByAccount(r)
    ensures forall x :: x in r <==> x in s || x == p
    ensures multiset(r) == multiset(s) + multiset{p}
  {
    if s == [] then
      [p]
    else if Less(p.account, s[0].account) then
      ConsByAccount(p, s);
      [p] + s
    else
      Trichotomy(p.account, s[0].account);
      var rest := InsertByAccount(s[1..], p);
      HeadByAccount(s);
      ConsByAccount(s[0], rest);
      assert s == [s[0]] + s[1..];
      [s[0]] + rest
  }

  lemma HeadByAccount(s: seq<Posting>)
    requires ByAccount(s) && s != []
    ensures forall x :: x in s[1..] ==> LessEq(s[0].account, x.account)
  {
    forall x | x in s[1..] ensures LessEq(s[0].account, x.account) {
      var k :| 0 <= k < |s[1..]| && s[1..][k] == x;
      assert s[k + 1] == x;
    }
  }

  lemma ConsByAccount(p: Posting, s: seq<Posting>)
    requires ByAccount(s)
    requires forall x :: x in s ==> LessEq(p.account, x.account) || Less(p.account, s[0].account)
    ensures ByAccount([p] + s)
  {
    var r := [p] + s;
    forall i, j | 0 <= i < j < |r| ensures LessEq(r[i].account, r[j].account) {
      if i == 0 {
        assert r[j] == s[j - 1] && r[j] in s;
        if !LessEq(p.account, r[j].account) {
          assert Less(p.account, s[0].account);
          assert LessEq(s[0].account, s[j - 1].account);
          if s[0].account != s[j - 1].account {
            Transitive(p.account, s[0].account, s[j - 1].account);
          }
        }
      } else {
        assert r[i] == s[i - 1] && r[j] == s[j - 1];
      }
    }
  }

  /** `sort_by_key` on the account name. */
  function SortByAccount(s: seq<Posting>): (r: seq<Posting>)
    ensures ByAccount(r)
    ensures forall x :: x in r <==> x in s
    ensures multiset(r) == multiset(s)
  {
    if s == [] then []
    else
      assert s == s[..|s| - 1] + [s[|s| - 1]];
      InsertByAccount(SortByAccount(s[..|s| - 1]), s[|s| - 1])
  }

  /**
   * The insertion is stable: `p` goes after the postings of its account, so
   * a commodity order within each account is kept when `p` follows them.
   */
  lemma {:induction false} InsertByAccountStable(s: seq<Posting>, p: Posting)
    requires ByAccount(s) && BlocksOrdered(s)
    requires forall x :: x in s && x.account == p.account ==> Less(x.amount.commodity, p.amount.commodity)
    ensures BlocksOrdered(InsertByAccount(s, p))
  {
    if s == [] {
    } else if Less(p.account, s[0].account) {
      BeforeAccounts(p, s);
      ConsBlocks(p, s);
    } else {
      var tail := s[1..];
      TailBlocks(s);
      HeadByAccount(s);
      Trichotomy(p.account, s[0].account);
      InsertByAccountStable(tail, p);
      var rest := InsertByAccount(tail, p);
      assert s[0] in s;
      forall y | y in rest && y.account == s[0].account
        ensures Less(s[0].amount.commodity, y.amount.commodity)
      {
        if y != p {
          var k :| 0 <= k < |tail| && tail[k] == y;
          assert s[k + 1] == y;
        }
      }
      ConsBlocks(s[0], rest);
      assert s == [s[0]] + tail;
    }
  }

  /** A posting whose account sorts before the first of a sorted sequence shares its account with none of it. */
  lemma BeforeAccounts(p: Posting, s: seq<Posting>)
    requires ByAccount(s) && s != [] && Less(p.account, s[0].account)
    ensures forall y :: y in s ==> y.account != p.account
  {
    Irreflexive(p.account);
    Asymmetric(p.account, s[0].account);
    forall k | 0 <= k < |s| ensures s[k].account != p.account {
      if k > 0 {
        assert LessEq(s[0].account, s[k].account);
      }
    }
  }

  /** Putting a posting in front of the later postings of its account. */
  lemma ConsBlocks(x: Posting, s: seq<Posting>)
    requires BlocksOrdered(s)
    requires forall y :: y in s && y.account == x.account ==> Less(x.amount.commodity, y.amount.commodity)
    ensures BlocksOrdered([x] + s)
  {
    var r := [x] + s;
    forall i, j | 0 <= i < j < |r| && r[i].account == r[j].account
      ensures Less(r[i].amount.commodity, r[j].amount.commodity)
    {
      assert r[j] == s[j - 1];
      if i == 0 {
        assert s[j - 1] in s;
      } else {
        assert r[i] == s[i - 1];
      }
    }
  }

  lemma TailBlocks(s: seq<Posting>)
    requires BlocksOrdered(s) && s != []
    ensures BlocksOrdered(s[1..])
  {
    var tail := s[1..];
    forall i, j | 0 <= i < j < |tail| && tail[i].account == tail[j].account
      ensures Less(tail[i].amount.commodity, tail[j].amount.commodity)
    {
      assert tail[i] == s[i + 1] && tail[j] == s[j + 1];
    }
  }

  /** `sort_by_key` is stable: the commodity order within each account survives sorting by account. */
  lemma {:induction false} SortByAccountStable(s: seq<Posting>)
    requires BlocksOrdered(s)
    ensures BlocksOrdered(SortByAccount(s))
  {
    if s != [] {
      var init := s[..|s| - 1];
      BlocksLast(s);
      SortByAccountStable(init);
      InsertByAccountStable(SortByAccount(init), s[|s| - 1]);
    }
  }

  /** Sorted credits followed by sorted debits are in render order. */
  lemma RenderOrderConcat(credits: seq<Posting>, debits: seq<Posting>)
    requires ByAccount(credits) && ByAccount(debits)
    requires BlocksOrdered(credits) && BlocksOrdered(debits)
    requires forall p :: p in credits ==> IsCredit(p)
    requires forall p :: p in debits ==> !IsCredit(p)
    ensures forall i, j :: 0 <= i < j < |credits + debits| ==> RenderOrder((credits + debits)[i], (credits + debits)[j])
  {
    var lines := credits + debits;
    forall i, j | 0 <= i < j < |lines| ensures RenderOrder(lines[i], lines[j]) {
      if j < |credits| {
        assert lines[i] == credits[i] && lines[j] == credits[j];
      } else if i >= |credits| {
        assert lines[i] == debits[i - |credits|] && lines[j] == debits[j - |credits|];
      } else {
        assert lines[i] == credits[i] && lines[j] == debits[j - |credits|];
      }
    }
  }

  /** The posting line `\t<account>\t<commodity> <magnitude>\n`. */
  function PostingLine(p: Posting, showDecimal: real -> string): string {
    "\t" + p.account + "\t" + p.amount.commodity + " " + showDecimal(p.amount.magnitude) + "\n"
  }

  function PostingLines(ps: seq<Posting>, showDecimal: real -> string): string {
    if ps == [] then "" else PostingLines(ps[..|ps| - 1], showDecimal) + PostingLine(ps[|ps| - 1], showDecimal)
  }

  /**
   * Each posting adds exactly one line: when no field holds a line break,
   * the posting lines hold one `\n` per posting.
   */
  lemma {:induction false} OneLinePerPosting(ps: seq<Posting>, showDecimal: real -> string)
    requires forall p :: p in ps ==> '\n' !in p.account && '\n' !in p.amount.commodity
    requires forall x :: '\n' !in showDecimal(x)
    ensures NewlineCount(PostingLines(ps, showDecimal)) == |ps|
  {
    if ps != [] {
      var p := ps[|ps| - 1];
      assert forall q :: q in ps[..|ps| - 1] ==> q in ps;
      OneLinePerPosting(ps[..|ps| - 1], showDecimal);
      NewlineCountZero("\t");
      NewlineCountZero(" ");
      NewlineCountZero(p.account);
      NewlineCountZero(p.amount.commodity);
      NewlineCountZero(showDecimal(p.amount.magnitude));
      NewlineCountAppend("\t", p.account);
      NewlineCountAppend("\t" + p.account, "\t");
      NewlineCountAppend("\t" + p.account + "\t", p.amount.commodity);
      NewlineCountAppend("\t" + p.account + "\t" + p.amount.commodity, " ");
      NewlineCountAppend("\t" + p.account + "\t" + p.amount.commodity + " ", showDecimal(p.amount.magnitude));
      NewlineCountAppend("\t" + p.account + "\t" + p.amount.commodity + " " + showDecimal(p.amount.magnitude), "\n");
      NewlineCountAppend(PostingLines(ps[..|ps| - 1], showDecimal), PostingLine(p, showDecimal));
    }
  }

  lemma PrefixStep(v: seq<Amount>, j: nat)
    requires j < |v|
    ensures Commodities(v[..j + 1]) == Commodities(v[..j]) + {v[j].commodity}
    ensures forall c :: Magnitude(v[..j + 1], c) == Magnitude(v[..j], c) + Contribution(v[j], c)
  {
    assert v[..j + 1] == v[..j] + [v[j]];
    forall c ensures Magnitude(v[..j + 1], c) == Magnitude(v[..j], c) + Contribution(v[j], c) {
      MagnitudeAppend(v[..j], [v[j]], c);
    }
  }

  /** The second half of `balance`: collect the sums and sort them by commodity. */
  method SortedAmounts(sums: map<string, real>) returns (balance: seq<Amount>)
    ensures WellFormed(balance)
    ensures Commodities(balance) == sums.Keys
    ensures forall i :: 0 <= i < |balance| ==> balance[i].commodity in sums && balance[i].magnitude == sums[balance[i].commodity]
  {
    balance := [];
    var pending := sums.Keys;
    while pending != {}
      invariant pending <= sums.Keys
      invariant WellFormed(balance)
      invariant Commodities(balance) == sums.Keys - pending
      invariant forall i :: 0 <= i < |balance| ==> balance[i].commodity in sums && balance[i].magnitude == sums[balance[i].commodity]
      decreases pending
    {
      var c :| c in pending;
      ghost var before := balance;
      balance := InsertSorted(balance, Amount(c, sums[c]));
      InsertSortedCommodities(before, Amount(c, sums[c]));
      forall i | 0 <= i < |balance|
        ensures balance[i].commodity in sums && balance[i].magnitude == sums[balance[i].commodity]
      {
        assert balance[i] in balance;
        if balance[i] != Amount(c, sums[c]) {
          var k :| 0 <= k < |before| && before[k] == balance[i];
        }
      }
      pending := pending - {c};
    }
  }

  /**
   * `seen` holds the postings of the accounts in `done` and the first `j`
   * postings of `account`.
   */
  ghost predicate SeenSoFar(m: map<string, seq<Amount>>, done: set<string>, account: string, j: nat, seen: set<Posting>) {
    forall q :: q in seen <==>
      (q.account in done && q.account in m && q.amount in m[q.account]) ||
      (q.account == account && account in m && j <= |m[account]| && q.amount in m[account][..j])
  }

  /** Each account's postings form one run: no other account comes between two of them. */
  predicate Contiguous(s: seq<Posting>) {
    forall i, j, k :: 0 <= i < j < k < |s| && s[i].account == s[k].account ==> s[j].account == s[i].account
  }

  /** Appending to the last run, or starting a run for an account not seen yet. */
  lemma ContiguousSnoc(s: seq<Posting>, p: Posting)
    requires Contiguous(s)
    requires (s != [] && s[|s| - 1].account == p.account) || forall x :: x in s ==> x.account != p.account
    ensures Contiguous(s + [p])
  {
    var t := s + [p];
    forall i, j, k | 0 <= i < j < k < |t| && t[i].account == t[k].account
      ensures t[j].account == t[i].account
    {
      assert t[i] == s[i] && t[j] == s[j];
      if k < |s| {
        assert t[k] == s[k];
      } else {
        assert s[i] in s;
        if j < |s| - 1 {
          assert t[i].account == s[|s| - 1].account;
        }
      }
    }
  }

  /**
   * The next amount of the current account continues that account's run:
   * its first amount starts a run, since every earlier posting belongs to an
   * account already done.
   */
  lemma ContiguousStep(m: map<string, seq<Amount>>, done: set<string>, account: string, j: nat,
                       seen: set<Posting>, postings: seq<Posting>)
    requires account in m && account !in done && j < |m[account]|
    requires SeenSoFar(m, done, account, j, seen)
    requires multiset(postings) == multiset(seen)
    requires Contiguous(postings)
    requires j > 0 ==> postings != [] && postings[|postings| - 1].account == account
    ensures Contiguous(postings + [Posting(account, m[account][j])])
  {
    if j == 0 {
      forall x | x in postings ensures x.account != account {
        assert x in multiset(postings);
        assert x in seen;
      }
    }
    ContiguousSnoc(postings, Posting(account, m[account][j]));
  }

  /** The next amount of the current account follows that account's postings so far. */
  lemma BlocksStep(m: map<string, seq<Amount>>, done: set<string>, account: string, j: nat,
                   seen: set<Posting>, postings: seq<Posting>)
    requires ValidChanges(m) && account in m && account !in done && j < |m[account]|
    requires SeenSoFar(m, done, account, j, seen)
    requires multiset(postings) == multiset(seen)
    requires BlocksOrdered(postings)
    ensures BlocksOrdered(postings + [Posting(account, m[account][j])])
  {
    var p := Posting(account, m[account][j]);
    forall x | x in postings && x.account == p.account
      ensures Less(x.amount.commodity, p.amount.commodity)
    {
      assert x in multiset(postings);
      assert x in seen;
      var k :| 0 <= k < j && m[account][..j][k] == x.amount;
      assert m[account][k] == x.amount;
    }
    BlocksSnoc(postings, p);
  }

  lemma SeenStep(m: map<string, seq<Amount>>, done: set<string>, account: string, j: nat, seen: set<Posting>)
    requires ValidChanges(m) && account in m && account !in done && j < |m[account]|
    requires SeenSoFar(m, done, account, j, seen)
    ensures Posting(account, m[account][j]) !in seen
    ensures SeenSoFar(m, done, account, j + 1, seen + {Posting(account, m[account][j])})
  {
    var v := m[account];
    WellFormedIsSorted(v);
    assert v[..j + 1] == v[..j] + [v[j]];
  }

  lemma SeenAccount(m: map<string, seq<Amount>>, done: set<string>, account: string, seen: set<Posting>)
    requires account in m && SeenSoFar(m, done, account, |m[account]|, seen)
    ensures SeenSoFar(m, done + {account}, "", 0, seen)
  {
    assert m[account][..|m[account]|] == m[account];
  }

  lemma AllPostingsMembership(m: map<string, seq<Amount>>, seen: set<Posting>)
    requires SeenSoFar(m, m.Keys, "", 0, seen)
    ensures seen == PostingsIn(m, m.Keys)
  {
  }

  /**
   * What the loops of `amounts` have produced: the postings of the accounts
   * done and the first `j` of `account`, each once, every account's postings
   * in one run and in commodity order, the current account's run last.
   */
  ghost predicate Emitted(m: map<string, seq<Amount>>, done: set<string>, account: string, j: nat,
                          seen: set<Posting>, postings: seq<Posting>) {
    multiset(postings) == multiset(seen) &&
    SeenSoFar(m, done, account, j, seen) &&
    BlocksOrdered(postings) &&
    Contiguous(postings) &&
    (j > 0 ==> postings != [] && postings[|postings| - 1].account == account)
  }

  lemma EmitStep(m: map<string, seq<Amount>>, done: set<string>, account: string, j: nat,
                 seen: set<Posting>, postings: seq<Posting>)
    requires ValidChanges(m) && account in m && account !in done && j < |m[account]|
    requires Emitted(m, done, account, j, seen, postings)
    ensures Emitted(m, done, account, j + 1, seen + {Posting(account, m[account][j])},
                    postings + [Posting(account, m[account][j])])
  {
    var p := Posting(account, m[account][j]);
    BlocksStep(m, done, account, j, seen, postings);
    ContiguousStep(m, done, account, j, seen, postings);
    SeenStep(m, done, account, j, seen);
    MultisetAdd(seen, p);
  }

  lemma MultisetAdd(s: set<Posting>, x: Posting)
    requires x !in s
    ensures multiset(s + {x}) == multiset(s) + multiset{x}
  {
  }

  /**
   * The inner loop of `balance`: every amount of one account is added to
   * the running sum of its commodity, starting the sum where there is none.
   */
  method Accumulate(sums: map<string, real>, amounts: seq<Amount>) returns (r: map<string, real>)
    ensures r.Keys == sums.Keys + Commodities(amounts)
    ensures forall c :: c in r ==> r[c] == (if c in sums then sums[c] else 0.0) + Magnitude(amounts, c)
  {
    r := sums;
    var j := 0;
    while j < |amounts|
      invariant j <= |amounts|
      invariant SummedSoFar(sums, amounts[..j], r)
    {
      AccumulateStep(sums, amounts, j, r);
      r := AddToSum(r, amounts[j]);
      j := j + 1;
    }
    assert amounts[..j] == amounts;
  }

  /** The running sums after the amounts of `done`, on top of `sums`. */
  predicate SummedSoFar(sums: map<string, real>, done: seq<Amount>, r: map<string, real>) {
    r.Keys == sums.Keys + Commodities(done) &&
    forall c :: c in r ==> r[c] == (if c in sums then sums[c] else 0.0) + Magnitude(done, c)
  }

  /** `entry(&amount.0).and_modify(|a| *a = amount.1 + *a).or_insert(amount.1)`. */
  function AddToSum(r: map<string, real>, a: Amount): (r': map<string, real>)
    ensures r'.Keys == r.Keys + {a.commodity}
    ensures forall c :: c in r' ==> r'[c] == (if c in r then r[c] else 0.0) + Contribution(a, c)
  {
    if a.commodity in r then r[a.commodity := a.magnitude + r[a.commodity]] else r[a.commodity := a.magnitude]
  }

  /** Adding the next amount keeps the running sums right. */
  lemma AccumulateStep(sums: map<string, real>, amounts: seq<Amount>, j: nat, r: map<string, real>)
    requires j < |amounts| && SummedSoFar(sums, amounts[..j], r)
    ensures SummedSoFar(sums, amounts[..j + 1], AddToSum(r, amounts[j]))
  {
    PrefixStep(amounts, j);
    if amounts[j].commodity !in r {
      MagnitudeAbsent(amounts[..j], amounts[j].commodity);
    }
  }

  // ---------------------------------------------------------------------
  // Finalizing

  /** `Amount(amount.0, -amount.1)`. */
  function Negated(a: Amount): (r: Amount)
    ensures r.commodity == a.commodity
    ensures forall c :: Contribution(r, c) == -Contribution(a, c)
  {
    Amount(a.commodity, -a.magnitude)
  }

  /** Every amount of `v` negated, in the same order. */
  function NegatedAll(v: seq<Amount>): seq<Amount> {
    seq(|v|, i requires 0 <= i < |v| => Negated(v[i]))
  }

  /**
   * The loop of `finalize`: the map left by `add_change(account, -b)` for
   * each `b` of `bs` in turn.
   */
  ghost function PostAll(m: map<string, seq<Amount>>, account: string, bs: seq<Amount>): (r: map<string, seq<Amount>>)
    requires ValidChanges(m)
    ensures ValidChanges(r)
    decreases |bs|
  {
    if bs == [] then m
    else
      var p := PostAll(m, account, bs[..|bs| - 1]);
      MergeKeepsValid(p, account, Negated(bs[|bs| - 1]));
      p[account := Merge(Entries(p, account), Negated(bs[|bs| - 1]))]
  }

  /** One more posting: only the account's entry changes. */
  lemma PostAllLast(m: map<string, seq<Amount>>, account: string, bs: seq<Amount>)
    requires ValidChanges(m) && bs != []
    ensures var p := PostAll(m, account, bs[..|bs| - 1]);
      PostAll(m, account, bs) == p[account := Merge(Entries(p, account), Negated(bs[|bs| - 1]))]
  {
  }

  /** One more posting: the account's vector is merged with the negated amount. */
  lemma PostAllEntries(m: map<string, seq<Amount>>, account: string, bs: seq<Amount>)
    requires ValidChanges(m) && bs != []
    ensures var p := PostAll(m, account, bs[..|bs| - 1]);
      Entries(PostAll(m, account, bs), account) == Merge(Entries(p, account), Negated(bs[|bs| - 1]))
  {
    var p := PostAll(m, account, bs[..|bs| - 1]);
    assert PostAll(m, account, bs) == p[account := Merge(Entries(p, account), Negated(bs[|bs| - 1]))];
  }

  /** Finalizing touches only its account, which is present afterwards when something was posted. */
  lemma {:induction false} PostAllFrame(m: map<string, seq<Amount>>, account: string, bs: seq<Amount>)
    requires ValidChanges(m)
    ensures PostAll(m, account, bs) - {account} == m - {account}
    ensures account in PostAll(m, account, bs) <==> account in m || bs != []
    decreases |bs|
  {
    if bs != [] {
      PostAllFrame(m, account, bs[..|bs| - 1]);
    }
  }

  lemma CommoditiesSnoc(bs: seq<Amount>)
    requires bs != []
    ensures Commodities(bs) == Commodities(bs[..|bs| - 1]) + {bs[|bs| - 1].commodity}
  {
    assert bs == bs[..|bs| - 1] + [bs[|bs| - 1]];
  }

  /** The account gains an entry for every commodity posted, a zero one included. */
  lemma {:induction false} PostAllHeld(m: map<string, seq<Amount>>, account: string, bs: seq<Amount>)
    requires ValidChanges(m)
    ensures Commodities(Entries(PostAll(m, account, bs), account)) == Commodities(Entries(m, account)) + Commodities(bs)
    decreases |bs|
  {
    if bs != [] {
      PostAllHeld(m, account, bs[..|bs| - 1]);
      PostAllEntries(m, account, bs);
      CommoditiesSnoc(bs);
    }
  }

  /** The account's holding of `c` drops by everything posted in `c`. */
  lemma {:induction false} PostAllMagnitude(m: map<string, seq<Amount>>, account: string, bs: seq<Amount>, c: string)
    requires ValidChanges(m)
    ensures Magnitude(Entries(PostAll(m, account, bs), account), c) == Magnitude(Entries(m, account), c) - Magnitude(bs, c)
    decreases |bs|
  {
    if bs != [] {
      var init := bs[..|bs| - 1];
      PostAllMagnitude(m, account, init, c);
      PostAllEntries(m, account, bs);
      MagnitudeSnoc(bs, c);
    }
  }

  /** The transaction's commodities gain those posted. */
  lemma {:induction false} PostAllCommodities(m: map<string, seq<Amount>>, account: string, bs: seq<Amount>)
    requires ValidChanges(m)
    ensures CommoditiesIn(PostAll(m, account, bs), PostAll(m, account, bs).Keys) == CommoditiesIn(m, m.Keys) + Commodities(bs)
    decreases |bs|
  {
    if bs != [] {
      PostAllCommodities(m, account, bs[..|bs| - 1]);
      PostAllLast(m, account, bs);
      CommoditiesStep(PostAll(m, account, bs[..|bs| - 1]), PostAll(m, account, bs), account, Negated(bs[|bs| - 1]));
      CommoditiesSnoc(bs);
    }
  }

  lemma CommoditiesStep(p: map<string, seq<Amount>>, r: map<string, seq<Amount>>, account: string, b: Amount)
    requires ValidChanges(p) && r == p[account := Merge(Entries(p, account), b)]
    ensures CommoditiesIn(r, r.Keys) == CommoditiesIn(p, p.Keys) + {b.commodity}
  {
    MergeCommodities(p, account, b);
    assert r.Keys == p.Keys + {account};
  }

  /** Each total drops by everything posted in its commodity. */
  lemma {:induction false} PostAllTotal(m: map<string, seq<Amount>>, account: string, bs: seq<Amount>, c: string)
    requires ValidChanges(m)
    ensures Total(PostAll(m, account, bs), PostAll(m, account, bs).Keys, c) == Total(m, m.Keys, c) - Magnitude(bs, c)
    decreases |bs|
  {
    if bs != [] {
      var init := bs[..|bs| - 1];
      PostAllTotal(m, account, init, c);
      PostAllLast(m, account, bs);
      TotalStep(PostAll(m, account, init), PostAll(m, account, bs), account, Negated(bs[|bs| - 1]), c);
      MagnitudeSnoc(bs, c);
    }
  }

  lemma TotalStep(p: map<string, seq<Amount>>, r: map<string, seq<Amount>>, account: string, b: Amount, c: string)
    requires ValidChanges(p) && r == p[account := Merge(Entries(p, account), b)]
    ensures Total(r, r.Keys, c) == Total(p, p.Keys, c) + Contribution(b, c)
  {
    MergeTotal(p, account, b, c);
    assert r.Keys == p.Keys + {account};
  }

  lemma MagnitudeSnoc(bs: seq<Amount>, c: string)
    requires bs != []
    ensures Magnitude(bs, c) == Magnitude(bs[..|bs| - 1], c) + Contribution(bs[|bs| - 1], c)
  {
    assert bs == bs[..|bs| - 1] + [bs[|bs| - 1]];
    MagnitudeAppend(bs[..|bs| - 1], [bs[|bs| - 1]], c);
  }

  /** A vector with the properties of `balance` holds, in every commodity, that commodity's total. */
  lemma BalanceMagnitude(m: map<string, seq<Amount>>, balance: seq<Amount>, c: string)
    requires WellFormed(balance) && Commodities(balance) == CommoditiesIn(m, m.Keys)
    requires forall i :: 0 <= i < |balance| ==> balance[i].magnitude == Total(m, m.Keys, balance[i].commodity)
    ensures Magnitude(balance, c) == Total(m, m.Keys, c)
  {
    if c in Commodities(balance) {
      var a :| a in balance && a.commodity == c;
      var k :| 0 <= k < |balance| && balance[k] == a;
      MagnitudeAt(balance, k);
    } else {
      MagnitudeAbsent(balance, c);
      TotalAbsent(m, m.Keys, c);
    }
  }

  /**
   * Posting the negated balance nets every commodity to zero and adds no
   * commodity.
   */
  lemma FinalizeBalances(m: map<string, seq<Amount>>, account: string, balance: seq<Amount>)
    requires ValidChanges(m)
    requires WellFormed(balance) && Commodities(balance) == CommoditiesIn(m, m.Keys)
    requires forall i :: 0 <= i < |balance| ==> balance[i].magnitude == Total(m, m.Keys, balance[i].commodity)
    ensures CommoditiesIn(PostAll(m, account, balance), PostAll(m, account, balance).Keys) == CommoditiesIn(m, m.Keys)
    ensures forall c :: c in CommoditiesIn(m, m.Keys) ==> Total(PostAll(m, account, balance), PostAll(m, account, balance).Keys, c) == 0.0
  {
    PostAllCommodities(m, account, balance);
    forall c | c in CommoditiesIn(m, m.Keys)
      ensures Total(PostAll(m, account, balance), PostAll(m, account, balance).Keys, c) == 0.0
    {
      PostAllTotal(m, account, balance, c);
      BalanceMagnitude(m, balance, c);
    }
  }

  /**
   * After posting the negated balance, the finalized account holds every
   * commodity of the transaction, and in each its old holding less the
   * commodity's old total.
   */
  lemma FinalizeHolds(m: map<string, seq<Amount>>, account: string, balance: seq<Amount>)
    requires ValidChanges(m)
    requires WellFormed(balance) && Commodities(balance) == CommoditiesIn(m, m.Keys)
    requires forall i :: 0 <= i < |balance| ==> balance[i].magnitude == Total(m, m.Keys, balance[i].commodity)
    ensures Commodities(Entries(PostAll(m, account, balance), account)) == Commodities(Entries(m, account)) + CommoditiesIn(m, m.Keys)
    ensures forall c :: Magnitude(Entries(PostAll(m, account, balance), account), c) == Magnitude(Entries(m, account), c) - Total(m, m.Keys, c)
  {
    PostAllHeld(m, account, balance);
    forall c ensures Magnitude(Entries(PostAll(m, account, balance), account), c) == Magnitude(Entries(m, account), c) - Total(m, m.Keys, c) {
      PostAllMagnitude(m, account, balance, c);
      BalanceMagnitude(m, balance, c);
    }
  }

  /**
   * An account new to the transaction holds, after `finalize`, exactly the
   * negated balance: an entry for every commodity, zero ones included, in
   * commodity order.
   */
  lemma FinalizedHolding(before: map<string, seq<Amount>>, v: seq<Amount>, balance: seq<Amount>)
    requires WellFormed(v) && Commodities(v) == CommoditiesIn(before, before.Keys)
    requires forall c :: Magnitude(v, c) == -Total(before, before.Keys, c)
    requires WellFormed(balance) && Commodities(balance) == CommoditiesIn(before, before.Keys)
    requires forall i :: 0 <= i < |balance| ==> balance[i].magnitude == Total(before, before.Keys, balance[i].commodity)
    ensures v == NegatedAll(balance)
  {
    var n := NegatedAll(balance);
    assert Commodities(n) == Commodities(balance) by {
      forall x | x in Commodities(balance) ensures x in Commodities(n) {
        var a :| a in balance && a.commodity == x;
        var k :| 0 <= k < |balance| && balance[k] == a;
        assert n[k] in n;
      }
    }
    forall c ensures Magnitude(v, c) == Magnitude(n, c) {
      if c in Commodities(balance) {
        var a :| a in balance && a.commodity == c;
        var k :| 0 <= k < |balance| && balance[k] == a;
        MagnitudeAt(n, k);
      } else {
        MagnitudeAbsent(n, c);
        TotalAbsent(before, before.Keys, c);
      }
    }
    Canonical(v, n);
  }

  // ---------------------------------------------------------------------
  // The transaction

  class Transaction {
    var date: Date
    var description: string
    var changes: map<string, seq<Amount>>

    ghost predicate Valid()
      reads this
    {
      ValidChanges(changes)
    }

    /** The net change of commodity `c` over all accounts. */
    ghost function TotalOf(c: string): real
      reads this
    {
      Total(changes, changes.Keys, c)
    }

    /** Every commodity that some account holds. */
    ghost function AllCommodities(): set<string>
      reads this
    {
      CommoditiesIn(changes, changes.Keys)
    }

    /** Every `(account, amount)` pair. */
    ghost function AllPostings(): set<Posting>
      reads this
    {
      PostingsIn(changes, changes.Keys)
    }

    /** `Transaction::new`. */
    constructor (date: Date, description: string)
      ensures Valid()
      ensures this.date == date && this.description == description
      ensures changes == map[]
    {
      this.date := date;
      this.description := description;
      changes := map[];
    }

    /**
     * `add_change`: adds `amount` to the account's entry for its commodity,
     * or inserts a new entry in commodity order.
     */
    method AddChange(account: string, amount: Amount)
      requires Valid()
      modifies this
      ensures Valid()
      ensures date == old(date) && description == old(description)
      ensures changes == old(changes)[account := Merge(Entries(old(changes), account), amount)]
      ensures forall c :: TotalOf(c) == old(TotalOf(c)) + Contribution(amount, c)
      ensures AllCommodities() == old(AllCommodities()) + {amount.commodity}
    {
      var w: seq<Amount>;
      if account in changes {
        w := ModifyVector(changes[account], amount);
      } else {
        MergeEmpty(amount);
        w := [amount];
      }
      assert (changes[account := w]).Keys == changes.Keys + {account};
      forall c ensures Total(changes[account := w], changes.Keys + {account}, c) == TotalOf(c) + Contribution(amount, c) {
        MergeTotal(changes, account, amount, c);
      }
      MergeCommodities(changes, account, amount);
      MergeKeepsValid(changes, account, amount);
      changes := changes[account := w];
    }

    /**
     * The `and_modify` closure of `add_change`: add to the entry of the
     * amount's commodity, or push the amount and sort.
     */
    static method ModifyVector(v: seq<Amount>, amount: Amount) returns (w: seq<Amount>)
      requires WellFormed(v)
      ensures w == Merge(v, amount)
    {
      var pos := Position(v, amount.commodity);
      if pos.Some? {
        var i := pos.value;
        w := v[i := Amount(v[i].commodity, v[i].magnitude + amount.magnitude)];
        MergeAt(v, amount, i);
      } else {
        w := InsertSorted(v, amount);
      }
    }

    /** `add_split_change`: half of `amount` to each of the two accounts. */
    method AddSplitChange(account: string, splitAccount: string, amount: Amount)
      requires Valid()
      modifies this
      ensures Valid()
      ensures date == old(date) && description == old(description)
      ensures changes == SplitInto(old(changes), account, splitAccount, amount)
      ensures forall c :: TotalOf(c) == old(TotalOf(c)) + Contribution(amount, c)
      ensures AllCommodities() == old(AllCommodities()) + {amount.commodity}
    {
      var half := Half(amount);
      AddChange(account, half);
      AddChange(splitAccount, half);
    }

    /** `balance`: the net change per commodity, sorted by commodity. */
    method Balance() returns (balance: seq<Amount>)
      requires Valid()
      ensures WellFormed(balance)
      ensures Commodities(balance) == AllCommodities()
      ensures forall i :: 0 <= i < |balance| ==> balance[i].magnitude == TotalOf(balance[i].commodity)
    {
      var sums := Sums();
      balance := SortedAmounts(sums);
    }

    /** The first half of `balance`: per commodity, the sum over every account. */
    method Sums() returns (sums: map<string, real>)
      requires Valid()
      ensures sums.Keys == AllCommodities()
      ensures forall c :: c in sums ==> sums[c] == TotalOf(c)
    {
      sums := map[];
      var keys := changes.Keys;
      ghost var done: set<string> := {};
      while keys != {}
        invariant keys + done == changes.Keys && keys !! done
        invariant sums.Keys == CommoditiesIn(changes, done)
        invariant forall c :: c in sums ==> sums[c] == Total(changes, done, c)
        decreases keys
      {
        var account :| account in keys;
        var amounts := changes[account];
        ghost var previous := sums;
        sums := Accumulate(sums, amounts);
        forall c | c in sums ensures sums[c] == Total(changes, done + {account}, c) {
          TotalSplit(changes, done + {account}, account, c);
          assert done + {account} - {account} == done;
          if c !in previous {
            TotalAbsent(changes, done, c);
          }
        }
        CommoditiesInAdd(changes, done, account);
        keys := keys - {account};
        done := done + {account};
      }
    }
    /**
     * `finalize`: posts the negated balance of every commodity to `account`,
     * entries of zero included, so that afterwards the transaction nets to
     * zero in every commodity.
     */
    method Finalize(account: string)
      requires Valid()
      modifies this
      ensures Valid()
      ensures date == old(date) && description == old(description)
      ensures AllCommodities() == old(AllCommodities())
      ensures forall c :: c in AllCommodities() ==> TotalOf(c) == 0.0
      ensures changes - {account} == old(changes) - {account}
      ensures account in changes <==> account in old(changes) || old(AllCommodities()) != {}
      ensures Commodities(Entries(changes, account)) == Commodities(Entries(old(changes), account)) + old(AllCommodities())
      ensures forall c :: Magnitude(Entries(changes, account), c) == Magnitude(Entries(old(changes), account), c) - old(TotalOf(c))
    {
      var balance := Balance();
      ghost var m := changes;
      PostNegated(account, balance);
      PostAllFrame(m, account, balance);
      FinalizeBalances(m, account, balance);
      FinalizeHolds(m, account, balance);
      if balance != [] {
        assert balance[0] in balance;
      }
    }

    /** The loop of `finalize`: `add_change(account, -amount)` for each entry, in order. */
    method PostNegated(account: string, balance: seq<Amount>)
      requires Valid()
      modifies this
      ensures Valid()
      ensures date == old(date) && description == old(description)
      ensures changes == PostAll(old(changes), account, balance)
    {
      var i := 0;
      while i < |balance|
        invariant i <= |balance|
        invariant Valid()
        invariant date == old(date) && description == old(description)
        invariant changes == PostAll(old(changes), account, balance[..i])
      {
        assert balance[..i + 1][..i] == balance[..i];
        PostAllLast(old(changes), account, balance[..i + 1]);
        AddChange(account, Negated(balance[i]));
        i := i + 1;
      }
      assert balance[..i] == balance;
    }

    /** `amounts`: every `(account, amount)` pair, each once, in map order. */
    method Amounts() returns (postings: seq<Posting>)
      requires Valid()
      ensures multiset(postings) == multiset(AllPostings())
      ensures BlocksOrdered(postings)
      ensures Contiguous(postings)
    {
      postings := [];
      var keys := changes.Keys;
      ghost var done: set<string> := {};
      ghost var seen: set<Posting> := {};
      while keys != {}
        invariant keys + done == changes.Keys && keys !! done
        invariant Emitted(changes, done, "", 0, seen, postings)
        decreases keys
      {
        var account :| account in keys;
        var amounts := changes[account];
        var j := 0;
        while j < |amounts|
          invariant j <= |amounts|
          invariant Emitted(changes, done, account, j, seen, postings)
        {
          var p := Posting(account, amounts[j]);
          EmitStep(changes, done, account, j, seen, postings);
          postings := postings + [p];
          seen := seen + {p};
          j := j + 1;
        }
        SeenAccount(changes, done, account, seen);
        keys := keys - {account};
        done := done + {account};
      }
      AllPostingsMembership(changes, seen);
    }

    /**
     * The posting order of `fmt`: non-negative amounts before negative ones,
     * each group sorted by account, one line per `(account, amount)` pair.
     */
    method Postings() returns (lines: seq<Posting>)
      requires Valid()
      ensures multiset(lines) == multiset(AllPostings())
      ensures forall i, j :: 0 <= i < j < |lines| ==> RenderOrder(lines[i], lines[j])
    {
      var all := Amounts();
      var (credits, debits) := Partition(all);
      var sortedCredits := SortByAccount(credits);
      var sortedDebits := SortByAccount(debits);
      PartitionBlocks(all);
      SortByAccountStable(credits);
      SortByAccountStable(debits);
      lines := sortedCredits + sortedDebits;
      RenderOrderConcat(sortedCredits, sortedDebits);
    }

    /**
     * `fmt`: the header line then one line per posting in render order. Date
     * and decimal formatting are library code and come in as functions.
     */
    method Render(showDate: Date -> string, showDecimal: real -> string) returns (lines: seq<Posting>, text: string)
      requires Valid()
      ensures multiset(lines) == multiset(AllPostings())
      ensures forall i, j :: 0 <= i < j < |lines| ==> RenderOrder(lines[i], lines[j])
      ensures text == showDate(date) + " " + description + "\n" + PostingLines(lines, showDecimal)
    {
      lines := Postings();
      text := showDate(date) + " " + description + "\n";
      var i := 0;
      while i < |lines|
        invariant i <= |lines|
        invariant text == showDate(date) + " " + description + "\n" + PostingLines(lines[..i], showDecimal)
      {
        assert lines[..i + 1][..i] == lines[..i];
        text := text + PostingLine(lines[i], showDecimal);
        i := i + 1;
      }
      assert lines[..i] == lines;
    }
  }
}
