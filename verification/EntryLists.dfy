/**
 * Category/amount entries and the Java collection behaviour the report
 * relies on: `Map.Entry<String, Double>` lists, `LinkedHashMap.put` and the
 * descending `List.sort`. Amounts are exact reals.
 */
module EntryLists {

  datatype Entry = Entry(category: string, amount: real)

  function Categories(s: seq<Entry>): set<string> {
    set e | e in s :: e.category
  }

  /** No category occurs twice, as in the entry list of a map. */
  predicate DistinctCategories(s: seq<Entry>) {
    forall i, j :: 0 <= i < j < |s| ==> s[i].category != s[j].category
  }

  /** The sum of the amounts, added up from the front as the source's loops do. */
  function Sum(s: seq<Entry>): real {
    if s == [] then 0.0 else Sum(s[..|s| - 1]) + s[|s| - 1].amount
  }

  predicate NonIncreasing(s: seq<Entry>) {
    forall i, j :: 0 <= i < j < |s| ==> s[i].amount >= s[j].amount
  }

  lemma CategoriesAppend(a: seq<Entry>, b: seq<Entry>)
    ensures Categories(a + b) == Categories(a) + Categories(b)
  {
    forall c | c in Categories(a + b) ensures c in Categories(a) + Categories(b) {
      var e :| e in a + b && e.category == c;
    }
    forall c | c in Categories(a) + Categories(b) ensures c in Categories(a + b) {
      if c in Categories(a) {
        var e :| e in a && e.category == c;
        assert e in a + b;
      } else {
        var e :| e in b && e.category == c;
        assert e in a + b;
      }
    }
  }

  /** Only the empty list has no category. */
  lemma CategoriesEmpty(s: seq<Entry>)
    ensures Categories(s) == {} <==> s == []
  {
    if s != [] {
      assert s[0].category in Categories(s);
    }
  }

  /** The sum of a concatenation is the sum of the sums. */
  lemma {:induction false} SumAppend(a: seq<Entry>, b: seq<Entry>)
    ensures Sum(a + b) == Sum(a) + Sum(b)
    decreases |b|
  {
    if b == [] {
      assert a + b == a;
    } else {
      var b', y := b[..|b| - 1], b[|b| - 1];
      calc {
        Sum(a + b);
      == { assert (a + b)[..|a + b| - 1] == a + b' && (a + b)[|a + b| - 1] == y; }
        Sum(a + b') + y.amount;
      == { SumAppend(a, b'); }
        Sum(a) + Sum(b') + y.amount;
      }
    }
  }

  /** A single entry sums to its amount. */
  lemma SumSingleton(x: Entry)
    ensures Sum([x]) == x.amount
  {
    assert [x][..0] == [];
  }

  /** Replacing one entry changes the sum by the difference of the two amounts. */
  lemma SumUpdate(s: seq<Entry>, i: nat, e: Entry)
    requires i < |s|
    ensures Sum(s[i := e]) == Sum(s) - s[i].amount + e.amount
  {
    SplitAt(s[i := e], i);
    SumRemove(s, i);
    SumInsert(s[..i] + s[i + 1..], e, i);
  }

  /** Removing one entry takes its amount off the sum. */
  lemma SumRemove(s: seq<Entry>, i: nat)
    requires i < |s|
    ensures Sum(s) == Sum(s[..i] + s[i + 1..]) + s[i].amount
  {
    SplitAt(s, i);
    SumInsert(s[..i] + s[i + 1..], s[i], i);
  }

  /** A list is the entries before position `i`, the one at `i` and those after, also with `i` removed. */
  lemma SplitAt(s: seq<Entry>, i: nat)
    requires i < |s|
    ensures s == s[..i] + [s[i]] + s[i + 1..]
    ensures (s[..i] + s[i + 1..])[..i] == s[..i] && (s[..i] + s[i + 1..])[i..] == s[i + 1..]
  {
  }

  /** The entries before and from position `i` make up the list. */
  lemma Reassemble(s: seq<Entry>, i: nat)
    requires i <= |s|
    ensures s[..i] + s[i..] == s
  {
  }

  /** Inserting an entry anywhere adds its amount to the sum. */
  lemma SumInsert(s: seq<Entry>, x: Entry, i: nat)
    requires i <= |s|
    ensures Sum(s[..i] + [x] + s[i..]) == Sum(s) + x.amount
  {
    var front, back := s[..i], s[i..];
    calc {
      Sum(front + [x] + back);
    == { SumAppend(front + [x], back); }
      Sum(front + [x]) + Sum(back);
    == { SumAppend(front, [x]); SumSingleton(x); }
      Sum(front) + x.amount + Sum(back);
    == { SumAppend(front, back); }
      Sum(front + back) + x.amount;
    == { Reassemble(s, i); }
      Sum(s) + x.amount;
    }
  }


  /** Appending an entry of a new category keeps the categories distinct. */
  lemma AppendDistinct(a: seq<Entry>, x: Entry)
    ensures Categories(a + [x]) == Categories(a) + {x.category}
    ensures DistinctCategories(a) && x.category !in Categories(a) ==> DistinctCategories(a + [x])
  {
    CategoriesAppend(a, [x]);
    assert Categories([x]) == {x.category};
    if DistinctCategories(a) && x.category !in Categories(a) {
      forall p, q | 0 <= p < q < |a| + 1 ensures (a + [x])[p].category != (a + [x])[q].category {
        if q == |a| {
          assert a[p] in a;
        }
      }
    }
  }

  /** Removing one of several distinct entries removes exactly its category. */
  lemma RemoveDistinct(s: seq<Entry>, j: nat)
    requires j < |s| && DistinctCategories(s)
    ensures DistinctCategories(s[..j] + s[j + 1..])
    ensures Categories(s[..j] + s[j + 1..]) == Categories(s) - {s[j].category}
  {
    var r := s[..j] + s[j + 1..];
    SplitAt(s, j);
    CategoriesInsert(r, s[j], j);
    RemoveKeepsDistinct(s, j);
  }

  /** Dropping one entry of a list with distinct categories leaves them distinct, without its category. */
  lemma RemoveKeepsDistinct(s: seq<Entry>, j: nat)
    requires j < |s| && DistinctCategories(s)
    ensures DistinctCategories(s[..j] + s[j + 1..])
    ensures s[j].category !in Categories(s[..j] + s[j + 1..])
  {
    RemoveDropsCategory(s, j);
    var r := s[..j] + s[j + 1..];
    forall p, q | 0 <= p < q < |r| ensures r[p].category != r[q].category {
      RemoveIndex(s, j, p);
      RemoveIndex(s, j, q);
    }
  }

  /** Entry `i` of the list without entry `j`. */
  lemma RemoveIndex(s: seq<Entry>, j: nat, i: nat)
    requires j < |s| && i < |s| - 1
    ensures (s[..j] + s[j + 1..])[i] == s[if i < j then i else i + 1]
  {
  }

  /** With distinct categories, no other entry shares the category of the one dropped. */
  lemma RemoveDropsCategory(s: seq<Entry>, j: nat)
    requires j < |s| && DistinctCategories(s)
    ensures s[j].category !in Categories(s[..j] + s[j + 1..])
  {
    var r := s[..j] + s[j + 1..];
    forall e | e in r ensures e.category != s[j].category {
      var i :| 0 <= i < |r| && r[i] == e;
      RemoveIndex(s, j, i);
    }
  }

  /** The position of the first entry with category `k`. */
  function FindCategory(m: seq<Entry>, k: string): (i: nat)
    requires k in Categories(m)
    ensures i < |m| && m[i].category == k
    ensures forall j :: 0 <= j < i ==> m[j].category != k
  {
    if m[0].category == k then 0
    else
      assert m == [m[0]] + m[1..];
      CategoriesAppend([m[0]], m[1..]);
      1 + FindCategory(m[1..], k)
  }

  /**
   * `LinkedHashMap.put`: a key already present keeps its position and takes
   * the new value; a new key goes to the end.
   */
  function Put(m: seq<Entry>, k: string, v: real): (r: seq<Entry>)
    ensures Categories(r) == Categories(m) + {k}
    ensures k !in Categories(m) ==> r == m + [Entry(k, v)]
    ensures k in Categories(m) ==> |r| == |m|
    ensures DistinctCategories(m) ==> DistinctCategories(r)
    ensures DistinctCategories(m) && k in Categories(m) ==>
      forall i :: 0 <= i < |m| ==> r[i] == if m[i].category == k then Entry(k, v) else m[i]
  {
    if k in Categories(m) then
      var i := FindCategory(m, k);
      ReplaceSameCategory(m, i, Entry(k, v));
      m[i := Entry(k, v)]
    else
      CategoriesAppend(m, [Entry(k, v)]);
      assert Categories([Entry(k, v)]) == {k};
      m + [Entry(k, v)]
  }

  /** Replacing an entry by one of the same category keeps the categories and their distinctness. */
  lemma ReplaceSameCategory(m: seq<Entry>, i: nat, e: Entry)
    requires i < |m| && m[i].category == e.category
    ensures Categories(m[i := e]) == Categories(m)
    ensures DistinctCategories(m) ==> DistinctCategories(m[i := e])
  {
    var r := m[i := e];
    forall c | c in Categories(r) ensures c in Categories(m) {
      var x :| x in r && x.category == c;
      var j :| 0 <= j < |r| && r[j] == x;
      assert m[j] in m;
    }
    forall c | c in Categories(m) ensures c in Categories(r) {
      var x :| x in m && x.category == c;
      var j :| 0 <= j < |m| && m[j] == x;
      assert r[j] in r;
    }
  }

  /** Where `List.sort` puts `x` among descending entries: after every entry at least as large. */
  function InsertPosition(s: seq<Entry>, x: Entry): (i: nat)
    ensures i <= |s|
    ensures forall k :: 0 <= k < i ==> s[k].amount >= x.amount
    ensures i < |s| ==> s[i].amount < x.amount
  {
    if s == [] || s[0].amount < x.amount then 0 else 1 + InsertPosition(s[1..], x)
  }

  /** Inserts `x` into descending entries, keeping them descending. */
  function Insert(s: seq<Entry>, x: Entry): (r: seq<Entry>)
    requires NonIncreasing(s)
    ensures NonIncreasing(r)
    ensures multiset(r) == multiset(s) + multiset{x}
    ensures Categories(r) == Categories(s) + {x.category}
    ensures DistinctCategories(s) && x.category !in Categories(s) ==> DistinctCategories(r)
    ensures Sum(r) == Sum(s) + x.amount
  {
    var i := InsertPosition(s, x);
    InsertAt(s, x, i);
    s[..i] + [x] + s[i..]
  }

  /** What holds of `x` placed at the insertion position. */
  lemma InsertAt(s: seq<Entry>, x: Entry, i: nat)
    requires NonIncreasing(s) && i == InsertPosition(s, x)
    ensures NonIncreasing(s[..i] + [x] + s[i..])
    ensures multiset(s[..i] + [x] + s[i..]) == multiset(s) + multiset{x}
    ensures Categories(s[..i] + [x] + s[i..]) == Categories(s) + {x.category}
    ensures DistinctCategories(s) && x.category !in Categories(s) ==> DistinctCategories(s[..i] + [x] + s[i..])
    ensures Sum(s[..i] + [x] + s[i..]) == Sum(s) + x.amount
  {
    MultisetInsert(s, x, i);
    CategoriesInsert(s, x, i);
    SumInsert(s, x, i);
    InsertAtSorted(s, x, i);
    InsertAtDistinct(s, x, i);
  }

  /** Inserting an entry anywhere adds one occurrence of it. */
  lemma MultisetInsert(s: seq<Entry>, x: Entry, i: nat)
    requires i <= |s|
    ensures multiset(s[..i] + [x] + s[i..]) == multiset(s) + multiset{x}
  {
    calc {
      multiset(s[..i] + [x] + s[i..]);
    ==
      multiset(s[..i]) + multiset{x} + multiset(s[i..]);
    == { Reassemble(s, i); }
      multiset(s) + multiset{x};
    }
  }

  /** Inserting an entry anywhere adds its category. */
  lemma CategoriesInsert(s: seq<Entry>, x: Entry, i: nat)
    requires i <= |s|
    ensures Categories(s[..i] + [x] + s[i..]) == Categories(s) + {x.category}
  {
    var front, back := s[..i], s[i..];
    calc {
      Categories(front + [x] + back);
    == { CategoriesAppend(front + [x], back); }
      Categories(front + [x]) + Categories(back);
    == { CategoriesAppend(front, [x]); assert Categories([x]) == {x.category}; }
      Categories(front) + {x.category} + Categories(back);
    == { CategoriesAppend(front, back); }
      Categories(front + back) + {x.category};
    == { Reassemble(s, i); }
      Categories(s) + {x.category};
    }
  }

  lemma InsertAtSorted(s: seq<Entry>, x: Entry, i: nat)
    requires NonIncreasing(s) && i == InsertPosition(s, x)
    ensures NonIncreasing(s[..i] + [x] + s[i..])
  {
    var r := s[..i] + [x] + s[i..];
    forall p, q | 0 <= p < q < |r| ensures r[p].amount >= r[q].amount {
      InsertIndex(s, x, i, p);
      InsertIndex(s, x, i, q);
      if p == i && i < q {
        assert s[i].amount >= s[q - 1].amount;
      }
    }
  }

  /** Where each entry of `s` lands once `x` is inserted at `i`. */
  lemma InsertIndex(s: seq<Entry>, x: Entry, i: nat, k: nat)
    requires i <= |s| && k <= |s|
    ensures (s[..i] + [x] + s[i..])[k] == if k < i then s[k] else if k == i then x else s[k - 1]
  {
  }

  lemma InsertAtDistinct(s: seq<Entry>, x: Entry, i: nat)
    requires i <= |s|
    ensures DistinctCategories(s) && x.category !in Categories(s) ==> DistinctCategories(s[..i] + [x] + s[i..])
  {
    var r := s[..i] + [x] + s[i..];
    if DistinctCategories(s) && x.category !in Categories(s) {
      forall p, q | 0 <= p < q < |r| ensures r[p].category != r[q].category {
        if p == i {
          assert r[q] == s[q - 1] && s[q - 1] in s;
        } else if q == i {
          assert r[p] == s[p] && s[p] in s;
        } else {
          var p' := if p < i then p else p - 1;
          var q' := if q < i then q else q - 1;
          assert r[p] == s[p'] && r[q] == s[q'];
        }
      }
    }
  }

  /**
   * `sortedData.sort((a, b) -> b.getValue().compareTo(a.getValue()))`:
   * the same entries, largest amount first.
   */
  function SortDescending(s: seq<Entry>): (r: seq<Entry>)
    ensures NonIncreasing(r)
    ensures multiset(r) == multiset(s)
    ensures Categories(r) == Categories(s)
    ensures DistinctCategories(s) ==> DistinctCategories(r)
    ensures Sum(r) == Sum(s)
  {
    if s == [] then []
    else
      var init := s[..|s| - 1];
      var x := s[|s| - 1];
      SnocFacts(s);
      Insert(SortDescending(init), x)
  }

  /** How a non-empty list relates to its last entry and the entries before it. */
  lemma SnocFacts(s: seq<Entry>)
    requires s != []
    ensures s == s[..|s| - 1] + [s[|s| - 1]]
    ensures multiset(s) == multiset(s[..|s| - 1]) + multiset{s[|s| - 1]}
    ensures Categories(s) == Categories(s[..|s| - 1]) + {s[|s| - 1].category}
    ensures DistinctCategories(s) ==>
      DistinctCategories(s[..|s| - 1]) && s[|s| - 1].category !in Categories(s[..|s| - 1])
  {
    var init := s[..|s| - 1];
    var x := s[|s| - 1];
    assert s == init + [x];
    CategoriesAppend(init, [x]);
  }
}
