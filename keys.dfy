/**
 The values a table column can be grouped or filtered on, and the order in
 which grouped results come out. Text columns compare the way Python compares
 `str` values (lexicographically, code point by code point); the Year column
 compares as integers.
 */
module Keys {

  /** A cell of a key column: the text columns hold strings, Year holds integers. */
  datatype Key = StrKey(text: string) | IntKey(number: int)

  /** Python's `<` on `str`: the first differing code point decides, and a
      proper prefix comes first. */
  predicate StrLess(a: string, b: string)
  {
    if |b| == 0 then false
    else if |a| == 0 then true
    else if a[0] != b[0] then a[0] < b[0]
    else StrLess(a[1..], b[1..])
  }

  /** The order pandas sorts group keys in. Integer and text keys never share a
      column; putting integers first only makes the order total. */
  predicate KeyLess(a: Key, b: Key)
  {
    match (a, b)
    case (IntKey(x), IntKey(y)) => x < y
    case (StrKey(x), StrKey(y)) => StrLess(x, y)
    case (IntKey(_), StrKey(_)) => true
    case (StrKey(_), IntKey(_)) => false
  }

  lemma {:induction false} StrLessIrreflexive(a: string)
    ensures !StrLess(a, a)
  {
    if |a| > 0 {
      StrLessIrreflexive(a[1..]);
    }
  }

  lemma {:induction false} StrLessTransitive(a: string, b: string, c: string)
    requires StrLess(a, b) && StrLess(b, c)
    ensures StrLess(a, c)
  {
    if |a| > 0 && a[0] == b[0] && b[0] == c[0] {
      StrLessTransitive(a[1..], b[1..], c[1..]);
    }
  }

  lemma {:induction false} StrLessTotal(a: string, b: string)
    requires a != b
    ensures StrLess(a, b) || StrLess(b, a)
  {
    if |a| > 0 && |b| > 0 && a[0] == b[0] {
      assert a == [a[0]] + a[1..] && b == [b[0]] + b[1..];
      StrLessTotal(a[1..], b[1..]);
    }
  }

  lemma KeyLessIrreflexive(a: Key)
    ensures !KeyLess(a, a)
  {
    if a.StrKey? {
      StrLessIrreflexive(a.text);
    }
  }

  lemma KeyLessTransitive(a: Key, b: Key, c: Key)
    requires KeyLess(a, b) && KeyLess(b, c)
    ensures KeyLess(a, c)
  {
    if a.StrKey? && b.StrKey? && c.StrKey? {
      StrLessTransitive(a.text, b.text, c.text);
    }
  }

  lemma KeyLessTotal(a: Key, b: Key)
    requires a != b
    ensures KeyLess(a, b) || KeyLess(b, a)
  {
    if a.StrKey? && b.StrKey? {
      StrLessTotal(a.text, b.text);
    }
  }

  /** Each key is smaller than every key after it: sorted, without repeats. */
  ghost predicate StrictlyAscending(ks: seq<Key>)
  {
    forall i, j :: 0 <= i < j < |ks| ==> KeyLess(ks[i], ks[j])
  }

  /** Adds `k` to a sorted key list at its place, unless it is already there. */
  function Insert(k: Key, ks: seq<Key>): (r: seq<Key>)
    requires StrictlyAscending(ks)
    ensures StrictlyAscending(r)
    ensures forall x :: x in r <==> x == k || x in ks
    ensures k in ks ==> r == ks
    ensures k !in ks ==> |r| == |ks| + 1
  {
    if ks == [] then [k]
    else if k == ks[0] then ks
    else if KeyLess(k, ks[0]) then
      forall j | 0 < j < |ks| ensures KeyLess(k, ks[j]) {
        KeyLessTransitive(k, ks[0], ks[j]);
      }
      KeyLessIrreflexive(k);
      [k] + ks
    else
      KeyLessTotal(k, ks[0]);
      var rest := Insert(k, ks[1..]);
      assert forall x :: x in ks <==> x == ks[0] || x in ks[1..];
      KeyLessIrreflexive(ks[0]);
      forall j | 0 <= j < |rest| ensures KeyLess(ks[0], rest[j]) {
        assert rest[j] in rest;
        if rest[j] != k {
          var m :| 0 <= m < |ks[1..]| && ks[1..][m] == rest[j];
          assert ks[m + 1] == rest[j];
        }
      }
      [ks[0]] + rest
  }

  /** A strictly ascending list holds no key twice. */
  lemma StrictlyAscendingDistinct(ks: seq<Key>, i: int, j: int)
    requires StrictlyAscending(ks)
    requires 0 <= i < |ks| && 0 <= j < |ks| && i != j
    ensures ks[i] != ks[j]
  {
    if i < j {
      KeyLessIrreflexive(ks[i]);
    } else {
      KeyLessIrreflexive(ks[j]);
    }
  }

  /** A strictly ascending list has as many entries as distinct keys. */
  lemma {:induction false} StrictlyAscendingCard(ks: seq<Key>)
    requires StrictlyAscending(ks)
    ensures |set k | k in ks| == |ks|
  {
    if ks != [] {
      var tail := ks[1..];
      StrictlyAscendingCard(tail);
      forall j | 0 <= j < |tail| ensures tail[j] != ks[0] {
        StrictlyAscendingDistinct(ks, 0, j + 1);
      }
      assert (set k | k in ks) == (set k | k in tail) + {ks[0]};
    }
  }
}
