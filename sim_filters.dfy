/** simCluster's choice of output filters: the filters both the main-sequence and the white-dwarf
    models provide, then only those with an extinction coefficient. */
module SimFilters {

  /** The names a filter list holds. */
  function Names(s: seq<string>): set<string>
  {
    set x | x in s
  }

  /** The entries of `s` named in `names`, in their order and with their repetitions. */
  function Select(s: seq<string>, names: set<string>): (r: seq<string>)
    ensures |r| <= |s|
  {
    if s == [] then []
    else if s[0] in names then [s[0]] + Select(s[1..], names)
    else Select(s[1..], names)
  }

  /** `a` is `b` with some entries removed. */
  predicate Subsequence(a: seq<string>, b: seq<string>)
    decreases |b|
  {
    if a == [] then true
    else if b == [] then false
    else if a[0] == b[0] then Subsequence(a[1..], b[1..])
    else Subsequence(a, b[1..])
  }

  /** An entry put in front of `b` keeps `a` a subsequence of it. */
  lemma {:induction false} SubsequenceExtend(a: seq<string>, b: seq<string>, y: string)
    requires Subsequence(a, b)
    ensures Subsequence(a, [y] + b)
    decreases |b|
  {
    assert ([y] + b)[1..] == b;
    if a != [] && a[0] == y {
      if a[0] == b[0] {
        SubsequenceExtend(a[1..], b[1..], b[0]);
        assert [b[0]] + b[1..] == b;
      } else {
        SubsequenceExtend(a, b[1..], y);
        assert ([y] + b[1..])[1..] == b[1..];
        SubsequenceExtend(a[1..], b[1..], b[0]);
        assert [b[0]] + b[1..] == b;
      }
    }
  }

  // ---------------------------------------------------------------------------------------
  // Properties of Select

  lemma {:induction false} SelectSnoc(s: seq<string>, x: string, names: set<string>)
    ensures Select(s + [x], names) == Select(s, names) + (if x in names then [x] else [])
  {
    if s == [] {
      assert s + [x] == [x];
      assert [x][1..] == [];
    } else {
      assert (s + [x])[1..] == s[1..] + [x];
      SelectSnoc(s[1..], x, names);
    }
  }

  /** A name is selected exactly when the list holds it and it is one of `names`. */
  lemma {:induction false} SelectMembers(s: seq<string>, names: set<string>, x: string)
    ensures x in Select(s, names) <==> x in s && x in names
  {
    if s != [] {
      SelectMembers(s[1..], names, x);
      assert x in s <==> x == s[0] || x in s[1..];
    }
  }

  /** A selected name keeps every one of its occurrences; any other name has none. */
  lemma {:induction false} SelectCount(s: seq<string>, names: set<string>, x: string)
    ensures multiset(Select(s, names))[x] == if x in names then multiset(s)[x] else 0
  {
    if s != [] {
      SelectCount(s[1..], names, x);
      assert s == [s[0]] + s[1..];
      assert multiset(s) == multiset([s[0]]) + multiset(s[1..]);
      if s[0] in names {
        assert multiset(Select(s, names)) == multiset([s[0]]) + multiset(Select(s[1..], names));
      }
    }
  }

  /** Selection only removes entries: the order of what is left is the order in `s`. */
  lemma {:induction false} SelectSubsequence(s: seq<string>, names: set<string>)
    ensures Subsequence(Select(s, names), s)
  {
    if s != [] {
      SelectSubsequence(s[1..], names);
      var a := Select(s, names);
      if s[0] !in names && a != [] {
        SelectMembers(s[1..], names, a[0]);
        assert a[0] in a;
      }
    }
  }

  // ---------------------------------------------------------------------------------------
  // The intersection of the two models' filter lists

  /** The nested loops over the main-sequence filters and the white-dwarf filters: each
      main-sequence filter is appended once when some white-dwarf filter has its name. */
  method IntersectFilters(msFilters: seq<string>, wdFilters: seq<string>) returns (filters: seq<string>)
    ensures filters == Select(msFilters, Names(wdFilters))
  {
    filters := [];
    for i := 0 to |msFilters|
      invariant filters == Select(msFilters[..i], Names(wdFilters))
    {
      var m := msFilters[i];
      ghost var before := filters;
      for j := 0 to |wdFilters|
        invariant filters == before && m !in wdFilters[..j]
      {
        if m == wdFilters[j] {
          filters := filters + [m];
          break;
        }
      }
      assert msFilters[..i + 1] == msFilters[..i] + [m];
      SelectSnoc(msFilters[..i], m, Names(wdFilters));
    }
    assert msFilters[..|msFilters|] == msFilters;
  }

  /** The intersection keeps the main-sequence order, holds only names both lists have, and
      holds a name as often as the main-sequence list does, however often the white-dwarf list
      repeats it. */
  lemma IntersectionContents(msFilters: seq<string>, wdFilters: seq<string>, x: string)
    ensures var r := Select(msFilters, Names(wdFilters));
      && Subsequence(r, msFilters)
      && (x in r <==> x in msFilters && x in wdFilters)
      && multiset(r)[x] == if x in wdFilters then multiset(msFilters)[x] else 0
  {
    SelectSubsequence(msFilters, Names(wdFilters));
    SelectMembers(msFilters, Names(wdFilters), x);
    SelectCount(msFilters, Names(wdFilters), x);
  }

  // ---------------------------------------------------------------------------------------
  // Removing filters without an extinction coefficient

  /** What the erase loop leaves of `s`, where `known` holds the filter names that have an
      extinction coefficient. After erasing index 0 the index is not stepped back, so the
      entry that moves into index 0 is never checked; from index 1 on every entry is. */
  function ErasedAsWritten(s: seq<string>, known: set<string>): (r: seq<string>)
  {
    if s == [] then []
    else if s[0] in known then Select(s, known)
    else if |s| == 1 then []
    else [s[1]] + Select(s[2..], known)
  }

  /** The erase loop as written: on an unknown name the entry is erased and the index stepped
      back only when it is above 0; the loop then steps the index forward. */
  method EraseUnknownAsWritten(filters: seq<string>, known: set<string>) returns (r: seq<string>)
    ensures r == ErasedAsWritten(filters, known)
  {
    r := filters;
    var f := 0;
    while f < |r|
      invariant AsWrittenLoop(filters, known, r, f)
      decreases |r| + 1 - f
    {
      if r[f] !in known {
        UnknownStep(filters, known, r, f);
        r := r[..f] + r[f + 1..];
        if f > 0 {
          f := f - 1;
        }
      } else {
        KnownStep(filters, known, r, f);
      }
      f := f + 1;
    }
    if f == |r| {
      assert r[..f] == r;
    }
  }

  /** The state of the erase loop as written before index f is checked: nothing is done at
      f = 0; from f = 1 on, the checked entries r[..f] followed by the known entries of the
      rest make up the final result (and f = |r| + 1 only once the list has run empty). */
  ghost predicate AsWrittenLoop(filters: seq<string>, known: set<string>, r: seq<string>, f: int)
  {
    && 0 <= f <= |r| + 1
    && (f == 0 ==> r == filters)
    && (f == |r| + 1 ==> r == [] && ErasedAsWritten(filters, known) == [])
    && (1 <= f <= |r| ==> r[..f] + Select(r[f..], known) == ErasedAsWritten(filters, known))
  }

  lemma UnknownStep(filters: seq<string>, known: set<string>, r: seq<string>, f: int)
    requires AsWrittenLoop(filters, known, r, f) && f < |r| && r[f] !in known
    ensures AsWrittenLoop(filters, known, r[..f] + r[f + 1..], if f > 0 then f else 1)
  {
    var r' := r[..f] + r[f + 1..];
    if f > 0 {
      assert r'[..f] == r[..f] && r'[f..] == r[f + 1..];
      assert r[f..] == [r[f]] + r[f + 1..];
    } else if r' != [] {
      assert r' == filters[1..] && r'[..1] == [filters[1]] && r'[1..] == filters[2..];
    }
  }

  lemma KnownStep(filters: seq<string>, known: set<string>, r: seq<string>, f: int)
    requires AsWrittenLoop(filters, known, r, f) && f < |r| && r[f] in known
    ensures AsWrittenLoop(filters, known, r, f + 1)
  {
    var rest := Select(r[f + 1..], known);
    assert r[f..][1..] == r[f + 1..];
    assert Select(r[f..], known) == [r[f]] + rest;
    assert r[..f + 1] + rest == r[..f] + ([r[f]] + rest) by {
      assert r[..f + 1] == r[..f] + [r[f]];
    }
    if f == 0 {
      assert r == filters && r[..f] == [];
    }
  }

  /** The erase loop keeps every filter that has a coefficient, in order. */
  lemma ErasedAsWrittenKeepsKnown(s: seq<string>, known: set<string>, x: string)
    requires x in known
    ensures multiset(ErasedAsWritten(s, known))[x] == multiset(s)[x]
    ensures Subsequence(ErasedAsWritten(s, known), s)
  {
    if s == [] {
    } else if s[0] in known {
      SelectCount(s, known, x);
      SelectSubsequence(s, known);
    } else if |s| == 1 {
      assert multiset(s)[x] == 0;
    } else {
      var t := s[2..];
      assert s == [s[0]] + ([s[1]] + t);
      assert multiset(s) == multiset([s[0]]) + multiset([s[1]]) + multiset(t);
      SelectCount(t, known, x);
      SelectSubsequence(t, known);
      var a := [s[1]] + Select(t, known);
      assert a[1..] == Select(t, known);
      assert s[1..][1..] == t && s[1..] == [s[1]] + t;
      SubsequenceExtend(a[1..], t, s[1]);
      if s[0] == s[1] {
        SubsequenceExtend(a[1..], s[1..], s[0]);
        assert [s[0]] + s[1..] == s;
      }
    }
  }

  /** The erase loop as written removes every filter without a coefficient exactly when the
      list does not start with two of them. */
  lemma ErasedAsWrittenIsSelectionUnlessTwoUnknownLead(s: seq<string>, known: set<string>)
    ensures ErasedAsWritten(s, known) == Select(s, known)
        <==> !(|s| >= 2 && s[0] !in known && s[1] !in known)
  {
    if |s| >= 2 && s[0] !in known {
      assert s[1..][1..] == s[2..];
      if s[1] !in known {
        assert |ErasedAsWritten(s, known)| == 1 + |Select(s[2..], known)|;
      }
    }
  }

  /** Two leading filters without a coefficient: the second one survives the erase loop. */
  lemma SecondUnknownFilterSurvives()
    ensures ErasedAsWritten(["X", "Y"], {}) == ["Y"]
    ensures ["Y"] != Select(["X", "Y"], {})
  {
    assert ["X", "Y"][2..] == [];
    assert Select(["X", "Y"], {}) == Select(["Y"], {}) == [];
  }

  /** The erase loop as intended: the index steps forward only past a kept entry, so the entry
      that moves into an erased slot is checked next. */
  method EraseUnknown(filters: seq<string>, known: set<string>) returns (r: seq<string>)
    ensures r == Select(filters, known)
  {
    r := filters;
    var f := 0;
    while f < |r|
      invariant 0 <= f <= |r|
      invariant r[..f] + Select(r[f..], known) == Select(filters, known)
      decreases |r| - f
    {
      if r[f] !in known {
        ghost var prev := r;
        r := r[..f] + r[f + 1..];
        assert r[..f] == prev[..f] && r[f..] == prev[f + 1..];
      } else {
        assert r[..f + 1] == r[..f] + [r[f]];
        assert r[f..][1..] == r[f + 1..];
        f := f + 1;
      }
    }
    assert r[..f] == r;
  }

  /** After the intended erase every filter left has a coefficient, every filter with one is
      kept as often as it occurs, and the order is unchanged. */
  lemma ErasedFiltersAreExactlyKnown(s: seq<string>, known: set<string>, x: string)
    ensures x in Select(s, known) <==> x in s && x in known
    ensures x in known ==> multiset(Select(s, known))[x] == multiset(s)[x]
    ensures Subsequence(Select(s, known), s)
  {
    SelectMembers(s, known, x);
    SelectCount(s, known, x);
    SelectSubsequence(s, known);
  }
}
