/**
 * The table operations the combine step uses, written over plain sequences
 * of rows keyed by a card identifier: a flattening list comprehension,
 * pandas' `groupby(key).size()`, and pandas' `merge(on=key, how='left')`,
 * plus the column-list edits (drop a column, move one to the front).
 */
module Tables {
  import opened Wrappers

  /** One row of a `groupby('card_id').size()` table. */
  datatype CountRow = CountRow(cardId: string, count: nat)

  function CountKey(r: CountRow): string { r.cardId }

  // ---------------------------------------------------------------------
  // Sequences of sequences

  /** Concatenation of a sequence of pieces. */
  function Flatten<T>(xss: seq<seq<T>>): (r: seq<T>)
  {
    if xss == [] then [] else Flatten(xss[..|xss| - 1]) + xss[|xss| - 1]
  }

  /** `[y for x in xs for y in f(x)]`. */
  function FlatMap<T, U>(xs: seq<T>, f: T -> seq<U>): (r: seq<U>)
  {
    if xs == [] then [] else FlatMap(xs[..|xs| - 1], f) + f(xs[|xs| - 1])
  }

  /** `[f(x) for x in xs]`. */
  function MapSeq<T, U>(xs: seq<T>, f: T -> U): (r: seq<U>)
    ensures |r| == |xs|
    ensures forall i :: 0 <= i < |xs| ==> r[i] == f(xs[i])
  {
    seq(|xs|, i requires 0 <= i < |xs| => f(xs[i]))
  }

  lemma {:induction false} FlatMapIsFlatten<T, U>(xs: seq<T>, f: T -> seq<U>)
    ensures FlatMap(xs, f) == Flatten(seq(|xs|, i requires 0 <= i < |xs| => f(xs[i])))
  {
    var pieces := seq(|xs|, i requires 0 <= i < |xs| => f(xs[i]));
    if xs != [] {
      var n := |xs| - 1;
      FlatMapIsFlatten(xs[..n], f);
      assert pieces[..n] == seq(n, i requires 0 <= i < n => f(xs[..n][i]));
    }
  }

  lemma {:induction false} FlattenAppend<T>(xss: seq<seq<T>>, yss: seq<seq<T>>)
    ensures Flatten(xss + yss) == Flatten(xss) + Flatten(yss)
  {
    if yss == [] {
      assert xss + yss == xss;
    } else {
      var n := |yss| - 1;
      FlattenAppend(xss, yss[..n]);
      assert (xss + yss)[..|xss + yss| - 1] == xss + yss[..n];
    }
  }

  lemma {:induction false} MapSeqFlatten<T, U>(xss: seq<seq<T>>, f: T -> U)
    ensures MapSeq(Flatten(xss), f)
         == Flatten(seq(|xss|, i requires 0 <= i < |xss| => MapSeq(xss[i], f)))
  {
    var mapped := seq(|xss|, i requires 0 <= i < |xss| => MapSeq(xss[i], f));
    if xss != [] {
      var n := |xss| - 1;
      MapSeqFlatten(xss[..n], f);
      assert mapped[..n] == seq(n, i requires 0 <= i < n => MapSeq(xss[..n][i], f));
      assert MapSeq(Flatten(xss), f) == MapSeq(Flatten(xss[..n]), f) + MapSeq(xss[n], f);
    }
  }

  /** `FlatMap` flattens any sequence holding each element's piece. */
  lemma {:induction false} FlatMapIsFlattenOf<T, U>(xs: seq<T>, f: T -> seq<U>, yss: seq<seq<U>>)
    requires |yss| == |xs|
    requires forall i :: 0 <= i < |xs| ==> yss[i] == f(xs[i])
    ensures FlatMap(xs, f) == Flatten(yss)
  {
    FlatMapIsFlatten(xs, f);
    assert yss == seq(|xs|, i requires 0 <= i < |xs| => f(xs[i]));
  }

  /** Mapping over a flattened sequence flattens any sequence holding each piece mapped. */
  lemma {:induction false} MapSeqFlattenOf<T, U>(xss: seq<seq<T>>, f: T -> U, yss: seq<seq<U>>)
    requires |yss| == |xss|
    requires forall i :: 0 <= i < |xss| ==> yss[i] == MapSeq(xss[i], f)
    ensures MapSeq(Flatten(xss), f) == Flatten(yss)
  {
    MapSeqFlatten(xss, f);
    assert yss == seq(|xss|, i requires 0 <= i < |xss| => MapSeq(xss[i], f));
  }

  /** Extending the prefix of `xs` by one element extends the flattened prefix by that element's piece. */
  lemma {:induction false} FlatMapSnoc<T, U>(xs: seq<T>, i: nat, f: T -> seq<U>)
    requires i < |xs|
    ensures FlatMap(xs[..i + 1], f) == FlatMap(xs[..i], f) + f(xs[i])
  {
    assert xs[..i + 1][..i] == xs[..i];
  }

  lemma {:induction false} MapSeqSnoc<T, U>(xs: seq<T>, i: nat, f: T -> U)
    requires i < |xs|
    ensures MapSeq(xs[..i + 1], f) == MapSeq(xs[..i], f) + [f(xs[i])]
  {
  }

  /** A flattened table is empty exactly when every piece is. */
  lemma {:induction false} FlatMapEmpty<T, U>(xs: seq<T>, f: T -> seq<U>)
    ensures FlatMap(xs, f) == [] <==> forall x :: x in xs ==> f(x) == []
  {
    if xs != [] {
      var n := |xs| - 1;
      FlatMapEmpty(xs[..n], f);
      assert xs == xs[..n] + [xs[n]];
    }
  }

  /** An element of a flat map comes from some element of the input, and every such element is kept. */
  lemma {:induction false} FlatMapMember<T, U>(xs: seq<T>, f: T -> seq<U>, y: U)
    ensures y in FlatMap(xs, f) <==> exists x :: x in xs && y in f(x)
  {
    if xs != [] {
      var n := |xs| - 1;
      FlatMapMember(xs[..n], f, y);
      assert xs == xs[..n] + [xs[n]];
    }
  }

  /** A flat map of pieces of between `lo` and `hi` elements each has between `lo` and `hi` elements per input. */
  lemma {:induction false} FlatMapLength<T, U>(xs: seq<T>, f: T -> seq<U>, lo: nat, hi: nat)
    requires forall x :: x in xs ==> lo <= |f(x)| <= hi
    ensures lo * |xs| <= |FlatMap(xs, f)| <= hi * |xs|
  {
    if xs != [] {
      var n := |xs| - 1;
      assert forall x :: x in xs[..n] ==> x in xs;
      FlatMapLength(xs[..n], f, lo, hi);
      assert xs[n] in xs;
      assert |FlatMap(xs, f)| == |FlatMap(xs[..n], f)| + |f(xs[n])|;
      MulSucc(lo, n);
      MulSucc(hi, n);
    }
  }

  lemma {:induction false} MulSucc(a: nat, n: nat)
    ensures a * (n + 1) == a * n + a
  {
  }

  // ---------------------------------------------------------------------
  // Selecting rows by key

  /** The rows whose key is `k`, in table order. */
  function Matches<R>(rows: seq<R>, key: R -> string, k: string): (m: seq<R>)
    ensures |m| <= |rows|
  {
    if rows == [] then []
    else
      var m := Matches(rows[..|rows| - 1], key, k);
      if key(rows[|rows| - 1]) == k then m + [rows[|rows| - 1]] else m
  }

  /** Every selected row is a row of the table with key `k`. */
  lemma {:induction false} MatchesSound<R>(rows: seq<R>, key: R -> string, k: string)
    ensures forall r :: r in Matches(rows, key, k) ==> r in rows && key(r) == k
  {
    if rows != [] {
      var n := |rows| - 1;
      MatchesSound(rows[..n], key, k);
      assert forall r :: r in rows[..n] ==> r in rows;
      assert rows[n] in rows;
    }
  }

  /** The first row whose key is `k`, if any. */
  function FirstMatch<R>(rows: seq<R>, key: R -> string, k: string): Option<R>
  {
    var m := Matches(rows, key, k);
    if m == [] then None else Some(m[0])
  }

  lemma {:induction false} MatchesAppend<R>(a: seq<R>, b: seq<R>, key: R -> string, k: string)
    ensures Matches(a + b, key, k) == Matches(a, key, k) + Matches(b, key, k)
  {
    if b == [] {
      assert a + b == a;
    } else {
      var n := |b| - 1;
      var ab := a + b;
      assert ab[..|ab| - 1] == a + b[..n];
      assert ab[|ab| - 1] == b[n];
      MatchesAppend(a, b[..n], key, k);
      var last := if key(b[n]) == k then [b[n]] else [];
      assert Matches(ab, key, k) == Matches(a + b[..n], key, k) + last;
      assert Matches(b, key, k) == Matches(b[..n], key, k) + last;
    }
  }

  /** A key is matched exactly when some row carries it. */
  lemma {:induction false} MatchesNonEmpty<R>(rows: seq<R>, key: R -> string, k: string)
    ensures |Matches(rows, key, k)| > 0 <==> exists i :: 0 <= i < |rows| && key(rows[i]) == k
  {
    if rows != [] {
      var n := |rows| - 1;
      MatchesNonEmpty(rows[..n], key, k);
      if exists i :: 0 <= i < |rows| && key(rows[i]) == k {
        var i :| 0 <= i < |rows| && key(rows[i]) == k;
        if i < n {
          assert key(rows[..n][i]) == k;
        }
      }
    }
  }

  /** When every row carries key `k`, all rows match; when none does, none does. */
  lemma {:induction false} MatchesUniformKey<R>(rows: seq<R>, key: R -> string, k: string)
    ensures (forall r :: r in rows ==> key(r) == k) ==> Matches(rows, key, k) == rows
    ensures (forall r :: r in rows ==> key(r) != k) ==> Matches(rows, key, k) == []
  {
    if rows != [] {
      var n := |rows| - 1;
      MatchesUniformKey(rows[..n], key, k);
      assert rows[..n] + [rows[n]] == rows;
    }
  }

  /** Rows contributed by pieces whose key differs from `k` never match `k`. */
  lemma {:induction false} MatchesFlatMapAbsent<T, R>(
    xs: seq<T>, f: T -> seq<R>, id: T -> string, key: R -> string, k: string)
    requires forall x, r :: x in xs && r in f(x) ==> key(r) == id(x)
    requires forall x :: x in xs ==> id(x) != k
    ensures Matches(FlatMap(xs, f), key, k) == []
  {
    if xs != [] {
      var n := |xs| - 1;
      assert forall x :: x in xs[..n] ==> x in xs;
      MatchesFlatMapAbsent(xs[..n], f, id, key, k);
      MatchesAppend(FlatMap(xs[..n], f), f(xs[n]), key, k);
      assert xs[n] in xs;
      MatchesUniformKey(f(xs[n]), key, k);
    }
  }

  /**
   * In a table built piece by piece from records with distinct identifiers,
   * where each piece's rows carry its record's identifier, the rows matching
   * a record's identifier are exactly that record's piece.
   */
  lemma {:induction false} MatchesFlatMapKeyed<T, R>(
    xs: seq<T>, f: T -> seq<R>, id: T -> string, key: R -> string, i: nat)
    requires i < |xs|
    requires forall x, r :: x in xs && r in f(x) ==> key(r) == id(x)
    requires forall a, b :: 0 <= a < b < |xs| ==> id(xs[a]) != id(xs[b])
    ensures Matches(FlatMap(xs, f), key, id(xs[i])) == f(xs[i])
  {
    var n := |xs| - 1;
    var init, k := xs[..n], id(xs[i]);
    assert FlatMap(xs, f) == FlatMap(init, f) + f(xs[n]);
    MatchesAppend(FlatMap(init, f), f(xs[n]), key, k);
    assert forall x :: x in init ==> x in xs;
    if i == n {
      forall x | x in init ensures id(x) != k {
        var a :| 0 <= a < n && init[a] == x;
        assert x == xs[a];
      }
      MatchesFlatMapAbsent(init, f, id, key, k);
      forall r | r in f(xs[n]) ensures key(r) == k {
        assert xs[n] in xs;
      }
      MatchesUniformKey(f(xs[n]), key, k);
    } else {
      assert init[i] == xs[i];
      forall a, b | 0 <= a < b < |init| ensures id(init[a]) != id(init[b]) {
        assert init[a] == xs[a] && init[b] == xs[b];
      }
      MatchesFlatMapKeyed(init, f, id, key, i);
      forall r | r in f(xs[n]) ensures key(r) != k {
        assert xs[n] in xs && id(xs[n]) != id(xs[i]);
      }
      MatchesUniformKey(f(xs[n]), key, k);
    }
  }

  /** In a table with distinct keys, at most one row matches a key. */
  lemma {:induction false} MatchesDistinctKeys<R>(rows: seq<R>, key: R -> string, k: string)
    requires forall i, j :: 0 <= i < j < |rows| ==> key(rows[i]) != key(rows[j])
    ensures |Matches(rows, key, k)| <= 1
    ensures forall i :: 0 <= i < |rows| && key(rows[i]) == k ==> Matches(rows, key, k) == [rows[i]]
  {
    if rows != [] {
      var n := |rows| - 1;
      MatchesDistinctKeys(rows[..n], key, k);
      if key(rows[n]) == k {
        MatchesUniformKey(rows[..n], key, k);
      }
    }
  }

  // ---------------------------------------------------------------------
  // groupby(key).size()

  /** The distinct strings of `xs`, in order of first occurrence. */
  function Distinct(xs: seq<string>): (d: seq<string>)
    ensures forall i, j :: 0 <= i < j < |d| ==> d[i] != d[j]
    ensures forall x :: x in d <==> x in xs
  {
    if xs == [] then []
    else
      var n := |xs| - 1;
      var d := Distinct(xs[..n]);
      assert xs == xs[..n] + [xs[n]];
      if xs[n] in d then d else d + [xs[n]]
  }

  /**
   * `groupby(key).size()`: one row per key that occurs, holding the number
   * of rows with that key. Keys are listed in order of first occurrence
   * (pandas sorts them; the left join below does not depend on the order,
   * since each key occurs once).
   */
  function GroupSize<R>(rows: seq<R>, key: R -> string): (t: seq<CountRow>)
    ensures forall i, j :: 0 <= i < j < |t| ==> t[i].cardId != t[j].cardId
    ensures forall i :: 0 <= i < |t| ==>
      t[i].count == |Matches(rows, key, t[i].cardId)| && t[i].count > 0
    ensures forall k :: (exists i :: 0 <= i < |t| && t[i].cardId == k)
                        <==> |Matches(rows, key, k)| > 0
  {
    var ks := Distinct(MapSeq(rows, key));
    KeysAreMatched(rows, key, ks);
    var t := seq(|ks|, i requires 0 <= i < |ks| => CountRow(ks[i], |Matches(rows, key, ks[i])|));
    assert forall k :: (exists i :: 0 <= i < |t| && t[i].cardId == k) <==> k in ks by {
      forall k ensures (exists i :: 0 <= i < |t| && t[i].cardId == k) <==> k in ks {
        if k in ks {
          var i :| 0 <= i < |ks| && ks[i] == k;
          assert t[i].cardId == k;
        }
      }
    }
    t
  }

  /** The keys occurring in a table's key column are exactly those some row matches. */
  lemma {:induction false} KeysAreMatched<R>(rows: seq<R>, key: R -> string, ks: seq<string>)
    requires forall x :: x in ks <==> x in MapSeq(rows, key)
    ensures forall k :: k in ks <==> |Matches(rows, key, k)| > 0
  {
    forall k ensures k in ks <==> |Matches(rows, key, k)| > 0 {
      MatchesNonEmpty(rows, key, k);
      var c := MapSeq(rows, key);
      if k in c {
        var j :| 0 <= j < |c| && c[j] == k;
        assert key(rows[j]) == k;
      }
      if |Matches(rows, key, k)| > 0 {
        var j :| 0 <= j < |rows| && key(rows[j]) == k;
        assert c[j] == k;
      }
    }
  }

  /** The value a count column takes after the left join: absent, not 0, when nothing matched. */
  function CountColumn(n: nat): Option<nat> {
    if n == 0 then None else Some(n)
  }

  /** The count a left join against a count table attaches to key `k`. */
  function CountOf(t: seq<CountRow>, k: string): Option<nat>
  {
    match FirstMatch(t, CountKey, k)
    case None => None
    case Some(r) => Some(r.count)
  }

  /** Looking a key up in a `GroupSize` table gives the number of rows with that key, or nothing. */
  lemma {:induction false} GroupSizeLookup<R>(rows: seq<R>, key: R -> string, k: string)
    ensures |Matches(GroupSize(rows, key), CountKey, k)| <= 1
    ensures CountOf(GroupSize(rows, key), k) == CountColumn(|Matches(rows, key, k)|)
  {
    var t := GroupSize(rows, key);
    MatchesDistinctKeys(t, CountKey, k);
    if |Matches(rows, key, k)| > 0 {
      var i :| 0 <= i < |t| && t[i].cardId == k;
      assert CountKey(t[i]) == k;
    } else {
      MatchesNonEmpty(t, CountKey, k);
    }
  }

  // ---------------------------------------------------------------------
  // merge(on=key, how='left')

  /** The rows a left join emits for one left row with matching right rows `ms`. */
  function JoinRow<L, R>(l: L, ms: seq<R>): (ps: seq<(L, Option<R>)>)
    ensures |ps| == if ms == [] then 1 else |ms|
    ensures forall p :: p in ps ==> p.0 == l && (p.1.Some? ==> p.1.value in ms) && (p.1.None? <==> ms == [])
  {
    if ms == [] then [(l, None)]
    else seq(|ms|, j requires 0 <= j < |ms| => (l, Some(ms[j])))
  }

  /**
   * A left join: for each left row in order, one output row per matching
   * right row (in right-table order), or one row with the right side absent
   * when nothing matches.
   */
  function LeftJoin<L, R>(left: seq<L>, lkey: L -> string, right: seq<R>, rkey: R -> string)
    : (ps: seq<(L, Option<R>)>)
    ensures |ps| >= |left|
  {
    if left == [] then []
    else
      var n := |left| - 1;
      LeftJoin(left[..n], lkey, right, rkey) + JoinRow(left[n], Matches(right, rkey, lkey(left[n])))
  }

  /**
   * Every joined row pairs a left row with a right row of the same key, or
   * with nothing when no right row matches; every left row appears.
   */
  lemma {:induction false} LeftJoinRows<L, R>(left: seq<L>, lkey: L -> string, right: seq<R>, rkey: R -> string)
    ensures forall p :: p in LeftJoin(left, lkey, right, rkey) ==>
      p.0 in left && (p.1.Some? ==> p.1.value in right && rkey(p.1.value) == lkey(p.0))
    ensures forall x :: x in left ==> exists p :: p in LeftJoin(left, lkey, right, rkey) && p.0 == x
    ensures forall p :: p in LeftJoin(left, lkey, right, rkey) && p.1.None? ==> Matches(right, rkey, lkey(p.0)) == []
  {
    if left != [] {
      var n := |left| - 1;
      var init := LeftJoin(left[..n], lkey, right, rkey);
      var last := JoinRow(left[n], Matches(right, rkey, lkey(left[n])));
      LeftJoinRows(left[..n], lkey, right, rkey);
      MatchesSound(right, rkey, lkey(left[n]));
      assert left == left[..n] + [left[n]];
      assert last[0] in last;
      forall x | x in left ensures exists p :: p in init + last && p.0 == x {
        if x in left[..n] {
          var p :| p in init && p.0 == x;
          assert p in init + last;
        } else {
          assert (last[0]).0 == x;
          assert last[0] in init + last;
        }
      }
    }
  }

  lemma {:induction false} LeftJoinIsFlatten<L, R>(
    left: seq<L>, lkey: L -> string, right: seq<R>, rkey: R -> string)
    ensures LeftJoin(left, lkey, right, rkey)
         == Flatten(seq(|left|, i requires 0 <= i < |left| =>
                          JoinRow(left[i], Matches(right, rkey, lkey(left[i])))))
  {
    var pieces := seq(|left|, i requires 0 <= i < |left| =>
                        JoinRow(left[i], Matches(right, rkey, lkey(left[i]))));
    if left != [] {
      var n := |left| - 1;
      LeftJoinIsFlatten(left[..n], lkey, right, rkey);
      assert pieces[..n] == seq(n, i requires 0 <= i < n =>
                                  JoinRow(left[..n][i], Matches(right, rkey, lkey(left[..n][i]))));
    }
  }

  /** A left join flattens any sequence holding each left row's joined rows. */
  lemma {:induction false} LeftJoinIsFlattenOf<L, R>(
    left: seq<L>, lkey: L -> string, right: seq<R>, rkey: R -> string, xss: seq<seq<(L, Option<R>)>>)
    requires |xss| == |left|
    requires forall i :: 0 <= i < |left| ==> xss[i] == JoinRow(left[i], Matches(right, rkey, lkey(left[i])))
    ensures LeftJoin(left, lkey, right, rkey) == Flatten(xss)
  {
    LeftJoinIsFlatten(left, lkey, right, rkey);
    assert xss == seq(|left|, i requires 0 <= i < |left| =>
                        JoinRow(left[i], Matches(right, rkey, lkey(left[i]))));
  }

  /**
   * When every left row matches at most one right row, the left join keeps
   * the left table's rows one for one, each paired with its match if any.
   */
  lemma {:induction false} LeftJoinOneToOne<L, R>(
    left: seq<L>, lkey: L -> string, right: seq<R>, rkey: R -> string)
    requires forall i :: 0 <= i < |left| ==> |Matches(right, rkey, lkey(left[i]))| <= 1
    ensures |LeftJoin(left, lkey, right, rkey)| == |left|
    ensures forall i :: 0 <= i < |left| ==>
      LeftJoin(left, lkey, right, rkey)[i] == (left[i], FirstMatch(right, rkey, lkey(left[i])))
  {
    if left != [] {
      var n := |left| - 1;
      assert forall i :: 0 <= i < n ==> left[..n][i] == left[i];
      LeftJoinOneToOne(left[..n], lkey, right, rkey);
      var ms := Matches(right, rkey, lkey(left[n]));
      assert JoinRow(left[n], ms) == [(left[n], FirstMatch(right, rkey, lkey(left[n])))];
      var init := LeftJoin(left[..n], lkey, right, rkey);
      var whole := LeftJoin(left, lkey, right, rkey);
      assert whole == init + [(left[n], FirstMatch(right, rkey, lkey(left[n])))];
      forall i | 0 <= i < |left|
        ensures whole[i] == (left[i], FirstMatch(right, rkey, lkey(left[i])))
      {
        if i < n {
          assert whole[i] == init[i];
        }
      }
    }
  }

  // ---------------------------------------------------------------------
  // Column lists

  /** `df.drop(columns=[c])`: the column list without `c`. */
  function DropColumn(cols: seq<string>, c: string): (r: seq<string>)
    ensures c !in r
    ensures forall x :: x in r <==> x in cols && x != c
    ensures |r| <= |cols|
  {
    if cols == [] then []
    else
      var n := |cols| - 1;
      assert cols == cols[..n] + [cols[n]];
      DropColumn(cols[..n], c) + (if cols[n] == c then [] else [cols[n]])
  }

  /** `df[[c] + [x for x in df.columns if x not in [c]]]`. */
  function MoveToFront(cols: seq<string>, c: string): (r: seq<string>)
    requires c in cols
    ensures |r| > 0 && r[0] == c
    ensures r[1..] == DropColumn(cols, c)
    ensures forall x :: x in r <==> x in cols
  {
    [c] + DropColumn(cols, c)
  }

  /** Dropping a column distributes over concatenation. */
  lemma {:induction false} DropColumnAppend(a: seq<string>, b: seq<string>, c: string)
    ensures DropColumn(a + b, c) == DropColumn(a, c) + DropColumn(b, c)
  {
    if b != [] {
      var n := |b| - 1;
      DropColumnAppend(a, b[..n], c);
      assert (a + b)[..|a + b| - 1] == a + b[..n];
    } else {
      assert a + b == a;
    }
  }

  /** Dropping a column that is not there changes nothing. */
  lemma {:induction false} DropColumnAbsent(cols: seq<string>, c: string)
    requires c !in cols
    ensures DropColumn(cols, c) == cols
  {
    if cols != [] {
      var n := |cols| - 1;
      assert forall x :: x in cols[..n] ==> x in cols;
      DropColumnAbsent(cols[..n], c);
      assert cols == cols[..n] + [cols[n]];
    }
  }

  /** Appending a key column, dropping the leading identifier column and moving the key to the front. */
  lemma {:induction false} ReplaceIdColumn(id: string, key: string, rest: seq<string>)
    requires id != key && id !in rest && key !in rest
    ensures key in DropColumn([id] + rest + [key], id)
    ensures MoveToFront(DropColumn([id] + rest + [key], id), key) == [key] + rest
  {
    var tail := rest + [key];
    assert [id] + rest + [key] == [id] + tail;
    assert id !in tail;
    DropColumnAppend([id], tail, id);
    DropColumnAbsent(tail, id);
    DropColumnOne(id);
    assert DropColumn([id] + rest + [key], id) == tail;
    DropColumnAppend(rest, [key], key);
    DropColumnAbsent(rest, key);
    DropColumnOne(key);
    assert DropColumn(tail, key) == rest;
  }

  lemma {:induction false} DropColumnOne(c: string)
    ensures DropColumn([c], c) == []
  {
    assert [c][..0] == [];
  }
}
