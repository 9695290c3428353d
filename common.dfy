/** Shared vocabulary for the list projections of the rental shop:
    optional values, ASCII case folding, substring search, decimal
    rendering of ids, an order-preserving filter, de-duplication in
    first-appearance order and sums. */
module Common {

  datatype Option<T> = None | Some(value: T)

  /* ---------------- Case folding and substring search ---------------- */

  function LowerChar(c: char): char
  {
    if 'A' <= c <= 'Z' then (c as int + 32) as char else c
  }

  /** `toLowerCase()`, restricted to ASCII letters. */
  function Lower(s: string): (r: string)
    ensures |r| == |s|
    ensures forall i :: 0 <= i < |r| ==> !('A' <= r[i] <= 'Z')
  {
    if s == [] then [] else [LowerChar(s[0])] + Lower(s[1..])
  }

  /** The ASCII white-space characters: those matched by `\s` and removed by
      `trim()`. */
  predicate IsSpace(c: char)
  {
    c == ' ' || c == '\t' || c == '\n' || c == '\r' || c == '\U{000B}' || c == '\U{000C}'
  }

  /** `s.trim()` is empty. */
  predicate IsBlank(s: string)
  {
    forall i :: 0 <= i < |s| ==> IsSpace(s[i])
  }

  function TrimStart(s: string): string
  {
    if s != [] && IsSpace(s[0]) then TrimStart(s[1..]) else s
  }

  function TrimEnd(s: string): string
  {
    if s != [] && IsSpace(s[|s| - 1]) then TrimEnd(s[..|s| - 1]) else s
  }

  /** `s.trim()`. */
  function Trim(s: string): string
  {
    TrimEnd(TrimStart(s))
  }

  lemma {:induction false} TrimStartEmpty(s: string)
    ensures TrimStart(s) == [] <==> IsBlank(s)
  {
    if s != [] && IsSpace(s[0]) {
      TrimStartEmpty(s[1..]);
      assert forall i :: 1 <= i < |s| ==> s[i] == s[1..][i - 1];
    }
  }

  lemma {:induction false} TrimEndEmpty(s: string)
    ensures TrimEnd(s) == [] <==> IsBlank(s)
  {
    if s != [] && IsSpace(s[|s| - 1]) {
      TrimEndEmpty(s[..|s| - 1]);
      assert forall i :: 0 <= i < |s| - 1 ==> s[i] == s[..|s| - 1][i];
    }
  }

  /** Trimming leaves nothing exactly when the text is all white space. */
  lemma TrimEmptyIffBlank(s: string)
    ensures Trim(s) == [] <==> IsBlank(s)
  {
    TrimStartEmpty(s);
    TrimEndEmpty(TrimStart(s));
    if TrimStart(s) != [] {
      TrimStartHead(s);
    }
  }

  lemma {:induction false} TrimStartHead(s: string)
    requires TrimStart(s) != []
    ensures !IsSpace(TrimStart(s)[0])
  {
    if s != [] && IsSpace(s[0]) {
      TrimStartHead(s[1..]);
    }
  }

  predicate IsPrefix(p: string, s: string)
  {
    |p| <= |s| && s[..|p|] == p
  }

  /** `s.includes(sub)`. */
  predicate Contains(s: string, sub: string)
    decreases |s|
  {
    IsPrefix(sub, s) || (s != [] && Contains(s[1..], sub))
  }

  /** `includes("")` holds of every string, so an empty query keeps everything. */
  lemma ContainsEmpty(s: string)
    ensures Contains(s, [])
  {
  }

  /* ---------------- Decimal rendering of ids (`toString()`) ---------------- */

  function DigitChar(d: nat): char
    requires d < 10
  {
    "0123456789"[d]
  }

  function NatToString(n: nat): (r: string)
    ensures |r| >= 1
    ensures forall i :: 0 <= i < |r| ==> '0' <= r[i] <= '9'
  {
    if n < 10 then [DigitChar(n)] else NatToString(n / 10) + [DigitChar(n % 10)]
  }

  function IntToString(i: int): string
  {
    if i < 0 then "-" + NatToString(-i) else NatToString(i)
  }

  /* ---------------- Rounding ---------------- */

  /** `Math.ceil(a / b)` for a positive divisor. */
  function CeilDiv(a: int, b: int): (q: int)
    requires b > 0
    ensures b * (q - 1) < a <= b * q
  {
    -((-a) / b)
  }

  /* ---------------- Order-preserving filter ---------------- */

  /** `s.filter(p)`. */
  function Filter<T>(p: T -> bool, s: seq<T>): (r: seq<T>)
    ensures |r| <= |s|
    ensures forall x :: x in r ==> x in s && p(x)
  {
    if s == [] then []
    else if p(s[0]) then [s[0]] + Filter(p, s[1..])
    else Filter(p, s[1..])
  }

  /** `r` is `s` with some elements dropped, the rest kept in order. */
  predicate Subseq<T(==)>(r: seq<T>, s: seq<T>)
    decreases |s|
  {
    if r == [] then true
    else if s == [] then false
    else (r[0] == s[0] && Subseq(r[1..], s[1..])) || Subseq(r, s[1..])
  }

  lemma {:induction false} FilterIsSubseq<T>(p: T -> bool, s: seq<T>)
    ensures Subseq(Filter(p, s), s)
  {
    if s != [] {
      FilterIsSubseq(p, s[1..]);
      var r := Filter(p, s);
      if p(s[0]) {
        assert r[0] == s[0] && r[1..] == Filter(p, s[1..]);
      }
    }
  }

  /** Every element that satisfies `p` is kept exactly as often as it occurs,
      every other element is dropped. */
  lemma {:induction false} FilterMultiplicity<T>(p: T -> bool, s: seq<T>, x: T)
    ensures multiset(Filter(p, s))[x] == if p(x) then multiset(s)[x] else 0
  {
    if s == [] {
    } else {
      FilterMultiplicity(p, s[1..], x);
      assert s == [s[0]] + s[1..];
      assert multiset(s) == multiset{s[0]} + multiset(s[1..]);
    }
  }

  lemma FilterMembership<T>(p: T -> bool, s: seq<T>, x: T)
    ensures x in Filter(p, s) <==> x in s && p(x)
  {
    FilterMultiplicity(p, s, x);
  }

  /** Filtering twice by `q` then by a stronger `p` is filtering by `p`. */
  lemma {:induction false} FilterOfFilter<T>(p: T -> bool, q: T -> bool, s: seq<T>)
    requires forall x :: p(x) ==> q(x)
    ensures Filter(p, Filter(q, s)) == Filter(p, s)
  {
    if s != [] {
      FilterOfFilter(p, q, s[1..]);
    }
  }

  /** Adding a constraint only narrows the result (and keeps it in order). */
  lemma FilterNarrowing<T>(p: T -> bool, q: T -> bool, s: seq<T>)
    requires forall x :: p(x) ==> q(x)
    ensures Subseq(Filter(p, s), Filter(q, s))
  {
    FilterOfFilter(p, q, s);
    FilterIsSubseq(p, Filter(q, s));
  }

  /** Two filters that agree on every element of `s` give the same list. */
  lemma {:induction false} FilterCongruent<T>(p: T -> bool, q: T -> bool, s: seq<T>)
    requires forall i :: 0 <= i < |s| ==> p(s[i]) == q(s[i])
    ensures Filter(p, s) == Filter(q, s)
  {
    if s != [] {
      FilterCongruent(p, q, s[1..]);
    }
  }

  /** A filter that lets everything in `s` through returns `s`. */
  lemma {:induction false} FilterKeepsAll<T>(p: T -> bool, s: seq<T>)
    requires forall i :: 0 <= i < |s| ==> p(s[i])
    ensures Filter(p, s) == s
  {
    if s != [] {
      FilterKeepsAll(p, s[1..]);
    }
  }

  /** Two filters in a row are one filter by the conjunction. */
  lemma {:induction false} FilterCompose<T>(p: T -> bool, q: T -> bool, both: T -> bool, s: seq<T>)
    requires forall x :: both(x) == (p(x) && q(x))
    ensures Filter(q, Filter(p, s)) == Filter(both, s)
  {
    if s != [] {
      FilterCompose(p, q, both, s[1..]);
    }
  }

  /** `s.filter(p).length`. */
  function Count<T>(p: T -> bool, s: seq<T>): nat
  {
    |Filter(p, s)|
  }

  /** Filtering a list extended by one element extends the result by that
      element exactly when it passes. */
  lemma {:induction false} FilterSnoc<T>(p: T -> bool, s: seq<T>, x: T)
    ensures Filter(p, s + [x]) == Filter(p, s) + (if p(x) then [x] else [])
  {
    if s == [] {
      assert s + [x] == [x];
    } else {
      FilterSnoc(p, s[1..], x);
      assert (s + [x])[0] == s[0];
      assert (s + [x])[1..] == s[1..] + [x];
    }
  }

  lemma CountSnoc<T>(p: T -> bool, s: seq<T>, x: T)
    ensures Count(p, s + [x]) == Count(p, s) + (if p(x) then 1 else 0)
  {
    FilterSnoc(p, s, x);
  }

  /** Counting under a stronger predicate never gives more. */
  lemma {:induction false} CountMonotone<T>(p: T -> bool, q: T -> bool, s: seq<T>)
    requires forall x :: p(x) ==> q(x)
    ensures Count(p, s) <= Count(q, s)
  {
    if s != [] {
      CountMonotone(p, q, s[1..]);
    }
  }

  /** Counts of three mutually exclusive predicates add up to at most the length. */
  lemma {:induction false} DisjointCounts<T>(p: T -> bool, q: T -> bool, o: T -> bool, s: seq<T>)
    requires forall x :: !(p(x) && q(x)) && !(p(x) && o(x)) && !(q(x) && o(x))
    ensures Count(p, s) + Count(q, s) + Count(o, s) <= |s|
  {
    if s != [] {
      DisjointCounts(p, q, o, s[1..]);
    }
  }

  /* ---------------- De-duplication (`[...new Set(xs)]`) ---------------- */

  predicate NoDuplicates<T(==)>(s: seq<T>)
  {
    forall i, j :: 0 <= i < j < |s| ==> s[i] != s[j]
  }

  /** The distinct elements of `s`, in the order they first appear,
      built the way a `Set` is filled: one insertion per element. */
  function Distinct<T(==)>(s: seq<T>): (r: seq<T>)
    ensures NoDuplicates(r)
    ensures forall x :: x in r ==> x in s
    ensures forall x :: x in s ==> x in r
  {
    if s == [] then []
    else
      var d := Distinct(s[..|s| - 1]);
      var x := s[|s| - 1];
      assert s == s[..|s| - 1] + [x];
      if x in d then d else d + [x]
  }

  /** Distinct keeps the order of first appearances: it is a subsequence. */
  lemma {:induction false} DistinctIsSubseq<T>(s: seq<T>)
    ensures Subseq(Distinct(s), s)
  {
    if s != [] {
      var init := s[..|s| - 1];
      DistinctIsSubseq(init);
      assert s == init + [s[|s| - 1]];
      if s[|s| - 1] in Distinct(init) {
        SubseqExtend(Distinct(init), init, [s[|s| - 1]]);
      } else {
        SubseqAppendBoth(Distinct(init), init, s[|s| - 1]);
      }
    }
  }

  lemma {:induction false} SubseqExtend<T>(r: seq<T>, s: seq<T>, t: seq<T>)
    requires Subseq(r, s)
    ensures Subseq(r, s + t)
    decreases |s|
  {
    if r != [] && s != [] {
      assert (s + t)[1..] == s[1..] + t;
      if r[0] == s[0] && Subseq(r[1..], s[1..]) {
        SubseqExtend(r[1..], s[1..], t);
      } else {
        SubseqExtend(r, s[1..], t);
      }
    }
  }

  lemma {:induction false} SubseqAppendBoth<T>(r: seq<T>, s: seq<T>, x: T)
    requires Subseq(r, s)
    ensures Subseq(r + [x], s + [x])
    decreases |s|
  {
    if r == [] {
      assert r + [x] == [x];
      SubseqOfSingleton(s, x);
    } else {
      assert (r + [x])[0] == r[0] && (r + [x])[1..] == r[1..] + [x];
      assert (s + [x])[0] == s[0] && (s + [x])[1..] == s[1..] + [x];
      if r[0] == s[0] && Subseq(r[1..], s[1..]) {
        SubseqAppendBoth(r[1..], s[1..], x);
      } else {
        SubseqAppendBoth(r, s[1..], x);
      }
    }
  }

  lemma {:induction false} SubseqOfSingleton<T>(s: seq<T>, x: T)
    ensures Subseq([x], s + [x])
    decreases |s|
  {
    if s != [] {
      assert (s + [x])[1..] == s[1..] + [x];
      SubseqOfSingleton(s[1..], x);
    } else {
      assert [x][1..] == [];
    }
  }

  /* ---------------- Sums ---------------- */

  /** `s.reduce((sum, x) => sum + f(x), 0)`. */
  function Sum<T>(f: T -> int, s: seq<T>): int
  {
    if s == [] then 0 else f(s[0]) + Sum(f, s[1..])
  }

  lemma {:induction false} SumAppend<T>(f: T -> int, s: seq<T>, t: seq<T>)
    ensures Sum(f, s + t) == Sum(f, s) + Sum(f, t)
  {
    if s == [] {
      assert s + t == t;
    } else {
      SumAppend(f, s[1..], t);
      assert (s + t)[1..] == s[1..] + t;
    }
  }

  /** A sum of pointwise-larger terms is larger. */
  lemma {:induction false} SumMonotone<T>(f: T -> int, g: T -> int, s: seq<T>)
    requires forall i :: 0 <= i < |s| ==> f(s[i]) <= g(s[i])
    ensures Sum(f, s) <= Sum(g, s)
  {
    if s != [] {
      SumMonotone(f, g, s[1..]);
    }
  }

  /* ---------------- Descending order (`sort((a, b) => b - a)`) ---------------- */

  predicate SortedDesc(s: seq<int>)
  {
    forall i, j :: 0 <= i < j < |s| ==> s[i] >= s[j]
  }

  predicate StrictlyDesc(s: seq<int>)
  {
    forall i, j :: 0 <= i < j < |s| ==> s[i] > s[j]
  }

  function InsertDesc(x: int, s: seq<int>): (r: seq<int>)
    requires SortedDesc(s)
    ensures SortedDesc(r)
    ensures multiset(r) == multiset(s) + multiset{x}
    ensures forall k :: 0 <= k < |r| ==> r[k] == x || r[k] in s
  {
    if s == [] then [x]
    else if x >= s[0] then [x] + s
    else
      var rest := InsertDesc(x, s[1..]);
      assert s == [s[0]] + s[1..];
      [s[0]] + rest
  }

  /** The elements of `s`, largest first. */
  function SortDesc(s: seq<int>): (r: seq<int>)
    ensures SortedDesc(r)
    ensures multiset(r) == multiset(s)
  {
    if s == [] then []
    else
      assert s == [s[0]] + s[1..];
      InsertDesc(s[0], SortDesc(s[1..]))
  }

  lemma {:induction false} InsertDescStrict(x: int, s: seq<int>)
    requires StrictlyDesc(s) && x !in s
    ensures StrictlyDesc(InsertDesc(x, s))
  {
    if s != [] && x < s[0] {
      InsertDescStrict(x, s[1..]);
      var rest := InsertDesc(x, s[1..]);
      assert forall k :: 0 <= k < |rest| ==> rest[k] in multiset(rest);
    }
  }

  /** Sorting values that are already distinct gives a strictly descending list. */
  lemma {:induction false} SortDescStrict(s: seq<int>)
    requires NoDuplicates(s)
    ensures StrictlyDesc(SortDesc(s))
  {
    if s != [] {
      SortDescStrict(s[1..]);
      assert s[0] !in s[1..];
      assert s[0] !in multiset(SortDesc(s[1..]));
      InsertDescStrict(s[0], SortDesc(s[1..]));
    }
  }
}
