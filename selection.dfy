/**
  Lists of selected metric keys, as both pages keep them: removing a key with
  `filter(x => x !== key)`, duplicate-freedom, and the set of keys a list
  mentions.
 */
module Selection {
  import opened FinanceData

  /** No key occurs twice. */
  predicate NoDup(s: seq<Metric>)
  {
    forall i, j :: 0 <= i < j < |s| ==> s[i] != s[j]
  }

  /** The keys `s` mentions, whatever their order and multiplicity. */
  function Members(s: seq<Metric>): set<Metric>
  {
    set x | x in s
  }

  /**
    `s.filter(x => x !== key)`: every occurrence of `key` goes, every other
    entry stays, as often as it occurred.
   */
  function Remove(s: seq<Metric>, key: Metric): (r: seq<Metric>)
    ensures forall x :: x in r <==> x in s && x != key
  {
    if |s| == 0 then []
    else
      var rest := Remove(s[1..], key);
      assert s == [s[0]] + s[1..];
      if s[0] == key then rest else [s[0]] + rest
  }

  /** Every other key keeps its multiplicity; `key` is gone. */
  lemma {:induction false} RemoveCounts(s: seq<Metric>, key: Metric)
    ensures forall x :: multiset(Remove(s, key))[x] == if x == key then 0 else multiset(s)[x]
  {
    if |s| > 0 {
      var t := s[1..];
      RemoveCounts(t, key);
      assert s == [s[0]] + t;
      forall x
        ensures multiset(Remove(s, key))[x] == if x == key then 0 else multiset(s)[x]
      {
        assert multiset(s)[x] == multiset{s[0]}[x] + multiset(t)[x];
        if s[0] != key {
          assert Remove(s, key) == [s[0]] + Remove(t, key);
          assert multiset(Remove(s, key))[x] == multiset{s[0]}[x] + multiset(Remove(t, key))[x];
        }
      }
    }
  }

  /** Removing a key that is absent changes nothing. */
  lemma {:induction false} RemoveAbsent(s: seq<Metric>, key: Metric)
    requires key !in s
    ensures Remove(s, key) == s
  {
    if |s| > 0 {
      assert s[0] != key;
      RemoveAbsent(s[1..], key);
      assert s == [s[0]] + s[1..];
    }
  }

  /** Appending an absent key and then removing it restores the list. */
  lemma {:induction false} RemoveAppended(s: seq<Metric>, key: Metric)
    requires key !in s
    ensures Remove(s + [key], key) == s
  {
    if |s| == 0 {
      assert [key][1..] == [];
    } else {
      assert (s + [key])[1..] == s[1..] + [key];
      RemoveAppended(s[1..], key);
      assert s == [s[0]] + s[1..];
    }
  }

  /** Filtering keeps a list duplicate-free. */
  lemma {:induction false} NoDupRemove(s: seq<Metric>, key: Metric)
    requires NoDup(s)
    ensures NoDup(Remove(s, key))
  {
    if |s| > 0 {
      var tail := s[1..];
      assert NoDup(tail) by {
        forall i, j | 0 <= i < j < |tail|
          ensures tail[i] != tail[j]
        {
          assert tail[i] == s[i + 1] && tail[j] == s[j + 1];
        }
      }
      NoDupRemove(tail, key);
      if s[0] != key {
        assert s[0] !in tail by {
          forall j | 0 <= j < |tail|
            ensures tail[j] != s[0]
          {
            assert tail[j] == s[j + 1];
          }
        }
        NoDupCons(s[0], Remove(tail, key));
      }
    }
  }

  /** Putting an absent key in front keeps a list duplicate-free. */
  lemma NoDupCons(x: Metric, t: seq<Metric>)
    requires x !in t && NoDup(t)
    ensures NoDup([x] + t)
  {
    var r := [x] + t;
    forall i, j | 0 <= i < j < |r|
      ensures r[i] != r[j]
    {
      assert r[j] == t[j - 1];
      if i > 0 {
        assert r[i] == t[i - 1];
      }
    }
  }

  /** Appending an absent key keeps a list duplicate-free. */
  lemma NoDupSnoc(p: seq<Metric>, last: Metric)
    requires last !in p && NoDup(p)
    ensures NoDup(p + [last])
  {
    var s := p + [last];
    forall i, j | 0 <= i < j < |s|
      ensures s[i] != s[j]
    {
      assert s[i] == p[i];
      if j < |p| {
        assert s[j] == p[j];
      }
    }
  }

  /** Dropping the last key keeps a list duplicate-free. */
  lemma NoDupPrefix(p: seq<Metric>, last: Metric)
    requires NoDup(p + [last])
    ensures NoDup(p)
  {
    var s := p + [last];
    forall i, j | 0 <= i < j < |p|
      ensures p[i] != p[j]
    {
      assert s[i] == p[i] && s[j] == p[j];
    }
  }

  /** A list has at most as many distinct keys as entries; as many only without duplicates. */
  lemma {:induction false} MembersBound(s: seq<Metric>)
    ensures |Members(s)| <= |s|
    ensures |Members(s)| == |s| <==> NoDup(s)
  {
    if |s| > 0 {
      var n := |s| - 1;
      var p, last := s[..n], s[n];
      assert s == p + [last];
      MembersBound(p);
      assert Members(s) == Members(p) + {last};
      if last in p {
        assert Members(s) == Members(p);
        var j :| 0 <= j < n && p[j] == last;
        assert s[j] == s[n];
      } else {
        assert last !in Members(p);
        if NoDup(s) {
          NoDupPrefix(p, last);
        }
        if NoDup(p) {
          NoDupSnoc(p, last);
        }
      }
    }
  }
}
