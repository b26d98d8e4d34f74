/**
 * The count dictionaries the reports build with `d[k] = d.get(k, 0) + 1`
 * (and the per-category `{'total', 'completed'}` dictionary): ordered by
 * first insertion, as Python dictionaries are, and the stable
 * `sorted(d.items(), key=count, reverse=True)` over them.
 */
module Tallies {
  import opened Seqs
  import opened Sorting

  /** One `key: count` entry. */
  datatype Tally = Tally(key: string, count: nat)

  function Keys(t: seq<Tally>): (ks: seq<string>)
    ensures |ks| == |t| && forall i :: 0 <= i < |t| ==> ks[i] == t[i].key
  {
    seq(|t|, i requires 0 <= i < |t| => t[i].key)
  }

  /** `d.get(k, 0)`. */
  function Get(t: seq<Tally>, k: string): nat
  {
    if t == [] then 0 else if t[0].key == k then t[0].count else Get(t[1..], k)
  }

  /** `d[k] = d.get(k, 0) + 1`: a new key goes at the end. */
  function Bump(t: seq<Tally>, k: string): seq<Tally>
  {
    if t == [] then [Tally(k, 1)]
    else if t[0].key == k then [Tally(k, t[0].count + 1)] + t[1..]
    else [t[0]] + Bump(t[1..], k)
  }

  /** The sum of the counts. */
  function Total(t: seq<Tally>): nat
  {
    if t == [] then 0 else t[0].count + Total(t[1..])
  }

  /** How often `k` occurs in `keys`. */
  function Occurrences(keys: seq<string>, k: string): (n: nat)
    ensures n <= |keys|
  {
    if keys == [] then 0 else (if keys[0] == k then 1 else 0) + Occurrences(keys[1..], k)
  }

  /** The dictionary a loop bumping each of `keys` in turn leaves. */
  function TallyOf(keys: seq<string>): seq<Tally>
  {
    if keys == [] then [] else Bump(TallyOf(keys[..|keys| - 1]), keys[|keys| - 1])
  }

  lemma TallyOfAppend(keys: seq<string>, k: string)
    ensures TallyOf(keys + [k]) == Bump(TallyOf(keys), k)
  {
    assert (keys + [k])[..|keys|] == keys;
  }

  lemma {:induction false} OccurrencesAppend(keys: seq<string>, k: string, j: string)
    ensures Occurrences(keys + [k], j) == Occurrences(keys, j) + (if k == j then 1 else 0)
  {
    if keys != [] {
      assert (keys + [k])[1..] == keys[1..] + [k];
      OccurrencesAppend(keys[1..], k, j);
    }
  }

  /** All counts are positive: a key is there only once it has been counted. */
  predicate Positive(t: seq<Tally>)
  {
    forall i :: 0 <= i < |t| ==> t[i].count >= 1
  }

  lemma {:induction false} BumpFacts(t: seq<Tally>, k: string)
    requires Distinct(Keys(t)) && Positive(t)
    ensures Distinct(Keys(Bump(t, k))) && Positive(Bump(t, k))
    ensures forall j :: Get(Bump(t, k), j) == Get(t, j) + (if j == k then 1 else 0)
    ensures forall j :: j in Keys(Bump(t, k)) <==> j in Keys(t) || j == k
    ensures Total(Bump(t, k)) == Total(t) + 1
  {
    if t != [] {
      assert Keys(t) == [t[0].key] + Keys(t[1..]);
      if t[0].key != k {
        assert Distinct(Keys(t[1..])) by {
          forall i, j | 0 <= i < j < |t| - 1 ensures Keys(t[1..])[i] != Keys(t[1..])[j] {
            assert Keys(t)[i + 1] != Keys(t)[j + 1];
          }
        }
        BumpFacts(t[1..], k);
        var r := Bump(t, k);
        assert Keys(r) == [t[0].key] + Keys(Bump(t[1..], k));
        assert t[0].key !in Keys(t[1..]) by {
          forall i | 0 <= i < |t| - 1 ensures Keys(t[1..])[i] != t[0].key {
            assert Keys(t)[i + 1] != Keys(t)[0];
          }
        }
        assert Distinct(Keys(r)) by {
          forall i, j | 0 <= i < j < |r| ensures Keys(r)[i] != Keys(r)[j] {
            if i == 0 {
              assert Keys(r)[j] in Keys(Bump(t[1..], k));
            }
          }
        }
      } else {
        var r := Bump(t, k);
        assert Keys(r) == Keys(t);
        assert t[0].key !in Keys(t[1..]) by {
          forall i | 0 <= i < |t| - 1 ensures Keys(t[1..])[i] != t[0].key {
            assert Keys(t)[i + 1] != Keys(t)[0];
          }
        }
        GetAbsent(t[1..], k);
      }
    }
  }

  lemma {:induction false} GetAbsent(t: seq<Tally>, k: string)
    requires k !in Keys(t)
    ensures Get(t, k) == 0
  {
    if t != [] {
      assert Keys(t) == [t[0].key] + Keys(t[1..]);
      GetAbsent(t[1..], k);
    }
  }

  /** Under distinct keys, an entry's count is what `get` returns for its key. */
  lemma {:induction false} GetEntry(t: seq<Tally>, i: nat)
    requires Distinct(Keys(t)) && i < |t|
    ensures Get(t, t[i].key) == t[i].count
  {
    if i > 0 {
      assert t[0].key != t[i].key by {
        assert Keys(t)[0] != Keys(t)[i];
      }
      assert Distinct(Keys(t[1..])) by {
        forall a, b | 0 <= a < b < |t| - 1 ensures Keys(t[1..])[a] != Keys(t[1..])[b] {
          assert Keys(t)[a + 1] != Keys(t)[b + 1];
        }
      }
      GetEntry(t[1..], i - 1);
    }
  }

  /**
   * The counting loop yields one entry per distinct key, each counting that
   * key's occurrences, and the counts add up to the number of keys.
   */
  lemma {:induction false} TallyOfFacts(keys: seq<string>)
    ensures Distinct(Keys(TallyOf(keys))) && Positive(TallyOf(keys))
    ensures forall j :: Get(TallyOf(keys), j) == Occurrences(keys, j)
    ensures forall j :: j in Keys(TallyOf(keys)) <==> j in keys
    ensures Total(TallyOf(keys)) == |keys|
    decreases |keys|
  {
    if keys != [] {
      var init, k := keys[..|keys| - 1], keys[|keys| - 1];
      assert keys == init + [k];
      TallyOfFacts(init);
      BumpFacts(TallyOf(init), k);
      forall j ensures Occurrences(keys, j) == Occurrences(init, j) + (if k == j then 1 else 0) {
        OccurrencesAppend(init, k, j);
      }
    }
  }

  /** Each entry of the dictionary counts the occurrences of its key. */
  lemma TallyEntriesCount(keys: seq<string>)
    ensures forall i :: 0 <= i < |TallyOf(keys)| ==>
              TallyOf(keys)[i].count == Occurrences(keys, TallyOf(keys)[i].key) >= 1
  {
    var t := TallyOf(keys);
    TallyOfFacts(keys);
    forall i | 0 <= i < |t| ensures t[i].count == Occurrences(keys, t[i].key) {
      GetEntry(t, i);
    }
  }

  // ---------------------------------------------------------------- sorted by count

  /** `key=lambda x: x[1], reverse=True`. */
  predicate MoreCounted(a: Tally, b: Tally)
  {
    a.count >= b.count
  }

  /**
   * `sorted(d.items(), key=count, reverse=True)`: largest count first, a
   * permutation of the entries, and entries with equal counts in
   * dictionary order.
   */
  function ByCountDesc(t: seq<Tally>): (r: seq<Tally>)
    ensures multiset(r) == multiset(t)
    ensures SortedBy(r, MoreCounted)
    ensures forall z :: TiedWith(r, z, MoreCounted) == TiedWith(t, z, MoreCounted)
  {
    SortPermutes(t, MoreCounted);
    SortSorted(t, MoreCounted);
    forall z ensures TiedWith(Sort(t, MoreCounted), z, MoreCounted) == TiedWith(t, z, MoreCounted) {
      SortStable(t, z, MoreCounted);
    }
    Sort(t, MoreCounted)
  }

  lemma {:induction false} TotalInsert(x: Tally, s: seq<Tally>, le: (Tally, Tally) -> bool)
    ensures Total(Insert(x, s, le)) == x.count + Total(s)
  {
    if s != [] && !le(x, s[0]) {
      var r := Insert(x, s, le);
      assert r[0] == s[0] && r[1..] == Insert(x, s[1..], le);
      TotalInsert(x, s[1..], le);
    } else {
      var r := [x] + s;
      assert r[0] == x && r[1..] == s;
    }
  }

  lemma {:induction false} TotalSort(s: seq<Tally>, le: (Tally, Tally) -> bool)
    ensures Total(Sort(s, le)) == Total(s)
  {
    if s != [] {
      TotalSort(s[1..], le);
      TotalInsert(s[0], Sort(s[1..], le), le);
    }
  }

  /** Reordering the entries by count keeps their sum. */
  lemma TotalByCountDesc(t: seq<Tally>)
    ensures Total(ByCountDesc(t)) == Total(t)
  {
    TotalSort(t, MoreCounted);
  }

  /** `s[:n]`. */
  function Take<T>(s: seq<T>, n: nat): (r: seq<T>)
    ensures |r| <= n && |r| <= |s| && r == s[..|r|]
    ensures |s| >= n ==> |r| == n
    ensures |s| < n ==> r == s
  {
    if |s| <= n then s else s[..n]
  }

  // ---------------------------------------------------------------- totals and completions

  /** One `category: {'total', 'completed'}` entry. */
  datatype CategoryLine = CategoryLine(category: string, total: nat, completed: nat)

  function Categories(t: seq<CategoryLine>): (ks: seq<string>)
    ensures |ks| == |t| && forall i :: 0 <= i < |t| ==> ks[i] == t[i].category
  {
    seq(|t|, i requires 0 <= i < |t| => t[i].category)
  }

  /** Counting one spin of `k`: `total += 1`, and `completed += 1` when it was completed. */
  function BumpCategory(t: seq<CategoryLine>, k: string, done: bool): seq<CategoryLine>
  {
    var inc := if done then 1 else 0;
    if t == [] then [CategoryLine(k, 1, inc)]
    else if t[0].category == k then [CategoryLine(k, t[0].total + 1, t[0].completed + inc)] + t[1..]
    else [t[0]] + BumpCategory(t[1..], k, done)
  }

  /** A (category, completed) pair per spin, in loop order. */
  datatype Outcome = Outcome(category: string, done: bool)

  function CategoryStatsOf(spins: seq<Outcome>): seq<CategoryLine>
  {
    if spins == [] then []
    else BumpCategory(CategoryStatsOf(spins[..|spins| - 1]), spins[|spins| - 1].category, spins[|spins| - 1].done)
  }

  lemma CategoryStatsAppend(spins: seq<Outcome>, o: Outcome)
    ensures CategoryStatsOf(spins + [o]) == BumpCategory(CategoryStatsOf(spins), o.category, o.done)
  {
    assert (spins + [o])[..|spins|] == spins;
  }

  /** The number of spins of category `k`, and of those completed. */
  function SpinsOf(spins: seq<Outcome>, k: string): (n: nat)
    ensures n <= |spins|
  {
    if spins == [] then 0 else (if spins[0].category == k then 1 else 0) + SpinsOf(spins[1..], k)
  }

  function CompletedOf(spins: seq<Outcome>, k: string): (n: nat)
    ensures n <= SpinsOf(spins, k)
  {
    if spins == [] then 0
    else (if spins[0].category == k && spins[0].done then 1 else 0) + CompletedOf(spins[1..], k)
  }

  lemma {:induction false} OutcomeCountsAppend(spins: seq<Outcome>, o: Outcome, k: string)
    ensures SpinsOf(spins + [o], k) == SpinsOf(spins, k) + (if o.category == k then 1 else 0)
    ensures CompletedOf(spins + [o], k) == CompletedOf(spins, k) + (if o.category == k && o.done then 1 else 0)
  {
    if spins != [] {
      assert (spins + [o])[1..] == spins[1..] + [o];
      OutcomeCountsAppend(spins[1..], o, k);
    }
  }

  /** `stats[k]['total']` and `stats[k]['completed']`, 0 for a missing key. */
  function TotalFor(t: seq<CategoryLine>, k: string): nat
  {
    if t == [] then 0 else if t[0].category == k then t[0].total else TotalFor(t[1..], k)
  }

  function CompletedFor(t: seq<CategoryLine>, k: string): nat
  {
    if t == [] then 0 else if t[0].category == k then t[0].completed else CompletedFor(t[1..], k)
  }

  /** Every entry has at least one spin and no more completions than spins. */
  predicate LinesOk(t: seq<CategoryLine>)
  {
    forall i :: 0 <= i < |t| ==> 1 <= t[i].total && t[i].completed <= t[i].total
  }

  lemma {:induction false} AbsentCategory(t: seq<CategoryLine>, k: string)
    requires k !in Categories(t)
    ensures TotalFor(t, k) == 0 && CompletedFor(t, k) == 0
  {
    if t != [] {
      assert Categories(t) == [t[0].category] + Categories(t[1..]);
      AbsentCategory(t[1..], k);
    }
  }

  lemma {:induction false} DistinctTail(t: seq<CategoryLine>)
    requires Distinct(Categories(t)) && t != []
    ensures Distinct(Categories(t[1..])) && t[0].category !in Categories(t[1..])
  {
    forall a, b | 0 <= a < b < |t| - 1 ensures Categories(t[1..])[a] != Categories(t[1..])[b] {
      assert Categories(t)[a + 1] != Categories(t)[b + 1];
    }
    forall a | 0 <= a < |t| - 1 ensures Categories(t[1..])[a] != t[0].category {
      assert Categories(t)[a + 1] != Categories(t)[0];
    }
  }

  lemma CategoriesCons(x: CategoryLine, t: seq<CategoryLine>)
    ensures Categories([x] + t) == [x.category] + Categories(t)
  {
  }

  /** Counting a spin adds its category to the keys, if it is new, and no other. */
  lemma {:induction false} BumpCategoryMembers(t: seq<CategoryLine>, k: string, done: bool)
    ensures forall j :: j in Categories(BumpCategory(t, k, done)) <==> j in Categories(t) || j == k
  {
    var r := BumpCategory(t, k, done);
    if t == [] {
      assert Categories(r) == [k];
    } else {
      assert t == [t[0]] + t[1..];
      CategoriesCons(t[0], t[1..]);
      if t[0].category == k {
        CategoriesCons(r[0], t[1..]);
        assert Categories(r) == Categories(t);
      } else {
        BumpCategoryMembers(t[1..], k, done);
        CategoriesCons(t[0], BumpCategory(t[1..], k, done));
      }
    }
  }

  /** Counting a spin keeps the categories distinct. */
  lemma {:induction false} BumpCategoryKeys(t: seq<CategoryLine>, k: string, done: bool)
    requires Distinct(Categories(t))
    ensures Distinct(Categories(BumpCategory(t, k, done)))
    ensures forall j :: j in Categories(BumpCategory(t, k, done)) <==> j in Categories(t) || j == k
  {
    BumpCategoryMembers(t, k, done);
    var r := BumpCategory(t, k, done);
    if t != [] {
      assert t == [t[0]] + t[1..];
      CategoriesCons(t[0], t[1..]);
      if t[0].category == k {
        CategoriesCons(r[0], t[1..]);
        assert Categories(r) == Categories(t);
      } else {
        DistinctTail(t);
        BumpCategoryKeys(t[1..], k, done);
        var tail := Categories(BumpCategory(t[1..], k, done));
        CategoriesCons(t[0], BumpCategory(t[1..], k, done));
        assert t[0].category !in tail;
        DistinctCons(t[0].category, tail);
      }
    }
  }

  lemma {:induction false} BumpCategoryCounts(t: seq<CategoryLine>, k: string, done: bool)
    requires Distinct(Categories(t))
    ensures forall j :: TotalFor(BumpCategory(t, k, done), j) == TotalFor(t, j) + (if j == k then 1 else 0)
    ensures forall j :: CompletedFor(BumpCategory(t, k, done), j) ==
                        CompletedFor(t, j) + (if j == k && done then 1 else 0)
  {
    if t != [] {
      DistinctTail(t);
      if t[0].category != k {
        BumpCategoryCounts(t[1..], k, done);
      } else {
        AbsentCategory(t[1..], k);
      }
    }
  }

  lemma {:induction false} BumpCategoryOk(t: seq<CategoryLine>, k: string, done: bool)
    requires LinesOk(t)
    ensures LinesOk(BumpCategory(t, k, done))
  {
    if t != [] && t[0].category != k {
      BumpCategoryOk(t[1..], k, done);
      var r := BumpCategory(t, k, done);
      assert forall i :: 1 <= i < |r| ==> r[i] == BumpCategory(t[1..], k, done)[i - 1];
    }
  }

  lemma {:induction false} CategoryEntry(t: seq<CategoryLine>, i: nat)
    requires Distinct(Categories(t)) && i < |t|
    ensures TotalFor(t, t[i].category) == t[i].total && CompletedFor(t, t[i].category) == t[i].completed
  {
    if i > 0 {
      DistinctTail(t);
      assert t[i] == t[1..][i - 1];
      CategoryEntry(t[1..], i - 1);
    }
  }

  /**
   * The category loop yields one entry per category that has spins; each
   * counts that category's spins and completed spins, so `total >= 1` and
   * `completed <= total`.
   */
  lemma {:induction false} CategoryStatsFacts(spins: seq<Outcome>)
    ensures Distinct(Categories(CategoryStatsOf(spins))) && LinesOk(CategoryStatsOf(spins))
    ensures forall k :: TotalFor(CategoryStatsOf(spins), k) == SpinsOf(spins, k)
    ensures forall k :: CompletedFor(CategoryStatsOf(spins), k) == CompletedOf(spins, k)
    ensures forall k :: k in Categories(CategoryStatsOf(spins)) <==> SpinsOf(spins, k) >= 1
    decreases |spins|
  {
    if spins != [] {
      var init, o := spins[..|spins| - 1], spins[|spins| - 1];
      assert spins == init + [o];
      CategoryStatsFacts(init);
      BumpCategoryKeys(CategoryStatsOf(init), o.category, o.done);
      BumpCategoryCounts(CategoryStatsOf(init), o.category, o.done);
      BumpCategoryOk(CategoryStatsOf(init), o.category, o.done);
      forall k ensures SpinsOf(spins, k) == SpinsOf(init, k) + (if o.category == k then 1 else 0)
                  && CompletedOf(spins, k) == CompletedOf(init, k) + (if o.category == k && o.done then 1 else 0) {
        OutcomeCountsAppend(init, o, k);
      }
    }
  }

  /** Each entry of the category dictionary counts its own category. */
  lemma CategoryEntriesCount(spins: seq<Outcome>)
    ensures forall i :: 0 <= i < |CategoryStatsOf(spins)| ==>
              CategoryStatsOf(spins)[i].total == SpinsOf(spins, CategoryStatsOf(spins)[i].category) &&
              CategoryStatsOf(spins)[i].completed == CompletedOf(spins, CategoryStatsOf(spins)[i].category)
  {
    var t := CategoryStatsOf(spins);
    CategoryStatsFacts(spins);
    forall i | 0 <= i < |t|
      ensures t[i].total == SpinsOf(spins, t[i].category) && t[i].completed == CompletedOf(spins, t[i].category)
    {
      CategoryEntry(t, i);
    }
  }

  /** `key=lambda x: x[1]['total'], reverse=True`. */
  predicate MoreSpins(a: CategoryLine, b: CategoryLine)
  {
    a.total >= b.total
  }

  /**
   * `sorted(stats.items(), key=total, reverse=True)`: most spins first, a
   * permutation of the entries, equal totals in dictionary order.
   */
  function ByTotalDesc(t: seq<CategoryLine>): (r: seq<CategoryLine>)
    ensures multiset(r) == multiset(t)
    ensures SortedBy(r, MoreSpins)
    ensures forall z :: TiedWith(r, z, MoreSpins) == TiedWith(t, z, MoreSpins)
  {
    SortPermutes(t, MoreSpins);
    SortSorted(t, MoreSpins);
    forall z ensures TiedWith(Sort(t, MoreSpins), z, MoreSpins) == TiedWith(t, z, MoreSpins) {
      SortStable(t, z, MoreSpins);
    }
    Sort(t, MoreSpins)
  }
}
