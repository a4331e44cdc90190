/** The index advisor (IndexAdvisor/index_advisor.py): it asks the optimizer
    to recommend indexes for a query, then evaluates the query once for every
    combination of the recommended indexes, enabling the indexes of the
    combination and disabling the others, and records each combination as the
    comma-prefixed list of its index names.

    The optimizer, the cost table and the report are not part of this model:
    what is modelled is the query clean-up, the power set, the combination
    loop with its counter and size filter, the enable/disable partition, the
    recorded list and the display width. */
module IndexAdvisor {
  import opened Wrappers
  import opened Text
  import opened TopoSort

  // ---------------------------------------------------------------------------
  // The query
  // ---------------------------------------------------------------------------

  /** `fix_query`: the stripped query without one trailing `;`. An empty
      stripped query has no last character to look at and fails. */
  function FixQuery(q: string): (r: Result<string>)
    ensures r.Success? <==> Strip(q) != []
    ensures r.Success? ==> r.value <= Strip(q) && |Strip(q)| - 1 <= |r.value|
    ensures r.Success? ==> (|r.value| < |Strip(q)| <==> Strip(q)[|Strip(q)| - 1] == ';')
  {
    var s := Strip(q);
    if s == [] then Failure("IndexError: string index out of range")
    else if s[|s| - 1] == ';' then Success(s[..|s| - 1])
    else Success(s)
  }

  /** Terminating a query with `;` does not change what is sent, except for
      the whitespace at its end, which the terminator protects. In particular
      the result never fails. */
  lemma FixQueryTerminated(q: string)
    ensures FixQuery(q + ";") == Success(LStrip(q))
  {
    LStripSemicolon(q);
    var l := LStrip(q) + ";";
    assert !IsSpace(l[|l| - 1]);
    assert RStrip(l) == l;
    assert l[..|l| - 1] == LStrip(q);
  }

  lemma {:induction false} LStripSemicolon(q: string)
    ensures LStrip(q + ";") == LStrip(q) + ";"
  {
    if q == [] {
      assert !IsSpace(';');
      assert q + ";" == ";";
    } else {
      assert (q + ";")[0] == q[0];
      assert (q + ";")[1..] == q[1..] + ";";
      if IsSpace(q[0]) {
        LStripSemicolon(q[1..]);
      }
    }
  }

  // ---------------------------------------------------------------------------
  // The power set
  // ---------------------------------------------------------------------------

  /** Every element of `cs` with `x` put in front. */
  function Prefixing<T>(x: T, cs: seq<seq<T>>): (r: seq<seq<T>>)
    ensures |r| == |cs| && forall i :: 0 <= i < |cs| ==> r[i] == [x] + cs[i]
  {
    if cs == [] then [] else [[x] + cs[0]] + Prefixing(x, cs[1..])
  }

  /** `combinations(s, r)`: the `r`-element selections of `s`, each in the
      order of `s`, listed in lexicographic order of their positions. */
  function Combinations<T>(s: seq<T>, r: nat): seq<seq<T>>
    decreases |s|
  {
    if r == 0 then [[]]
    else if s == [] then []
    else Prefixing(s[0], Combinations(s[1..], r - 1)) + Combinations(s[1..], r)
  }

  /** The selections of up to `m` elements, by size. */
  function PowerSetUpTo<T>(s: seq<T>, m: nat): seq<seq<T>>
  {
    if m == 0 then Combinations(s, 0) else PowerSetUpTo(s, m - 1) + Combinations(s, m)
  }

  /** `power_set(s)`: the selections of every size from 0 to `|s|`. */
  function PowerSet<T>(s: seq<T>): seq<seq<T>>
  {
    PowerSetUpTo(s, |s|)
  }

  /** `c` is `s` with some elements left out. */
  predicate IsSubsequence<T(==)>(c: seq<T>, s: seq<T>)
    decreases |s|
  {
    c == [] || (s != [] && ((c[0] == s[0] && IsSubsequence(c[1..], s[1..])) || IsSubsequence(c, s[1..])))
  }

  lemma ConsSubsequence<T>(c: seq<T>, s: seq<T>)
    requires s != [] && IsSubsequence(c, s[1..])
    ensures IsSubsequence([s[0]] + c, s)
  {
    assert ([s[0]] + c)[1..] == c;
  }

  lemma SkipSubsequence<T>(c: seq<T>, s: seq<T>)
    requires s != [] && IsSubsequence(c, s[1..])
    ensures IsSubsequence(c, s)
  {
  }

  /** Every member of `cs` has `r` elements and is a subsequence of `s`. */
  predicate Shaped<T(==)>(cs: seq<seq<T>>, s: seq<T>, r: nat)
  {
    forall i :: 0 <= i < |cs| ==> |cs[i]| == r && IsSubsequence(cs[i], s)
  }

  lemma PrefixingShape<T>(s: seq<T>, cs: seq<seq<T>>, r: nat)
    requires s != [] && r > 0 && Shaped(cs, s[1..], r - 1)
    ensures Shaped(Prefixing(s[0], cs), s, r)
  {
    var pre := Prefixing(s[0], cs);
    forall i | 0 <= i < |pre|
      ensures |pre[i]| == r && IsSubsequence(pre[i], s)
    {
      ConsSubsequence(cs[i], s);
    }
  }

  lemma SkipShape<T>(s: seq<T>, cs: seq<seq<T>>, r: nat)
    requires s != [] && Shaped(cs, s[1..], r)
    ensures Shaped(cs, s, r)
  {
    forall i | 0 <= i < |cs|
      ensures IsSubsequence(cs[i], s)
    {
      SkipSubsequence(cs[i], s);
    }
  }

  lemma AppendShape<T>(a: seq<seq<T>>, b: seq<seq<T>>, s: seq<T>, r: nat)
    requires Shaped(a, s, r) && Shaped(b, s, r)
    ensures Shaped(a + b, s, r)
  {
    forall i | |a| <= i < |a + b|
      ensures (a + b)[i] == b[i - |a|]
    {
    }
  }

  /** Every selection of size `r` is a subsequence of `s` of length `r`. */
  lemma {:induction false} CombinationsShape<T>(s: seq<T>, r: nat)
    ensures Shaped(Combinations(s, r), s, r)
    decreases |s|
  {
    if r == 0 {
      assert Combinations(s, r) == [[]];
    } else if s != [] {
      var a := Combinations(s[1..], r - 1);
      var b := Combinations(s[1..], r);
      CombinationsShape(s[1..], r - 1);
      CombinationsShape(s[1..], r);
      PrefixingShape(s, a, r);
      SkipShape(s, b, r);
      AppendShape(Prefixing(s[0], a), b, s, r);
    }
  }

  lemma InLeft<T>(a: seq<T>, b: seq<T>, x: T)
    requires x in a
    ensures x in a + b
  {
    var i :| 0 <= i < |a| && a[i] == x;
    assert (a + b)[i] == x;
  }

  lemma InRight<T>(a: seq<T>, b: seq<T>, x: T)
    requires x in b
    ensures x in a + b
  {
    var j :| 0 <= j < |b| && b[j] == x;
    assert (a + b)[|a| + j] == x;
  }

  lemma PrefixedIn<T>(x: T, a: seq<seq<T>>, b: seq<seq<T>>, d: seq<T>)
    requires d in a
    ensures [x] + d in Prefixing(x, a) + b
  {
    var i :| 0 <= i < |a| && a[i] == d;
    assert Prefixing(x, a)[i] == [x] + d;
    InLeft(Prefixing(x, a), b, [x] + d);
  }

  /** A selection that takes the first element of `s`. */
  lemma TakenIn<T>(s: seq<T>, c: seq<T>)
    requires s != [] && c != [] && c[0] == s[0] && c[1..] in Combinations(s[1..], |c| - 1)
    ensures c in Combinations(s, |c|)
  {
    var a := Combinations(s[1..], |c| - 1);
    var b := Combinations(s[1..], |c|);
    assert Combinations(s, |c|) == Prefixing(s[0], a) + b;
    PrefixedIn(s[0], a, b, c[1..]);
    assert c == [s[0]] + c[1..];
  }

  /** A selection that skips the first element of `s`. */
  lemma SkippedIn<T>(s: seq<T>, c: seq<T>)
    requires s != [] && c != [] && c in Combinations(s[1..], |c|)
    ensures c in Combinations(s, |c|)
  {
    var a := Combinations(s[1..], |c| - 1);
    var b := Combinations(s[1..], |c|);
    assert Combinations(s, |c|) == Prefixing(s[0], a) + b;
    InRight(Prefixing(s[0], a), b, c);
  }

  /** Every subsequence of `s` of length `r` is among the selections. */
  lemma {:induction false} CombinationsComplete<T>(s: seq<T>, c: seq<T>)
    requires IsSubsequence(c, s)
    ensures c in Combinations(s, |c|)
    decreases |s|
  {
    if c != [] {
      if c[0] == s[0] && IsSubsequence(c[1..], s[1..]) {
        CombinationsComplete(s[1..], c[1..]);
        TakenIn(s, c);
      } else {
        CombinationsComplete(s[1..], c);
        SkippedIn(s, c);
      }
    }
  }

  /** The binomial coefficient, by Pascal's rule. */
  function Binom(n: nat, k: nat): nat
  {
    if k == 0 then 1 else if n == 0 then 0 else Binom(n - 1, k - 1) + Binom(n - 1, k)
  }

  function SumBinom(n: nat, m: nat): nat
  {
    if m == 0 then Binom(n, 0) else SumBinom(n, m - 1) + Binom(n, m)
  }

  function Pow2(n: nat): nat
  {
    if n == 0 then 1 else 2 * Pow2(n - 1)
  }

  lemma {:induction false} CombinationsCount<T>(s: seq<T>, r: nat)
    ensures |Combinations(s, r)| == Binom(|s|, r)
    decreases |s|
  {
    if r > 0 && s != [] {
      CombinationsCount(s[1..], r - 1);
      CombinationsCount(s[1..], r);
    }
  }

  lemma {:induction false} BinomAbove(n: nat, k: nat)
    requires k > n
    ensures Binom(n, k) == 0
  {
    if n > 0 {
      BinomAbove(n - 1, k - 1);
      BinomAbove(n - 1, k);
    }
  }

  lemma {:induction false} SumBinomPascal(n: nat, m: nat)
    ensures SumBinom(n + 1, m) == SumBinom(n, m) + (if m == 0 then 0 else SumBinom(n, m - 1))
  {
    if m > 0 {
      SumBinomPascal(n, m - 1);
      if m > 1 {
        assert SumBinom(n, m - 1) == SumBinom(n, m - 2) + Binom(n, m - 1);
      }
    }
  }

  /** The sizes of all selections add up to a power of two. */
  lemma {:induction false} SumBinomAll(n: nat)
    ensures SumBinom(n, n) == Pow2(n)
  {
    if n > 0 {
      SumBinomAll(n - 1);
      SumBinomPascal(n - 1, n);
      BinomAbove(n - 1, n);
    }
  }

  lemma {:induction false} PowerSetUpToCount<T>(s: seq<T>, m: nat)
    ensures |PowerSetUpTo(s, m)| == SumBinom(|s|, m)
  {
    CombinationsCount(s, m);
    if m > 0 {
      PowerSetUpToCount(s, m - 1);
    }
  }

  /** The power set has 2^n members, all subsequences of the input; it lists
      every subsequence; sizes never decrease along it and it starts with the
      empty selection. */
  lemma PowerSetSpec<T>(s: seq<T>)
    ensures var ps := PowerSet(s);
      |ps| == Pow2(|s|)
      && |ps| > 0 && ps[0] == []
      && (forall c :: c in ps ==> IsSubsequence(c, s))
      && (forall c :: IsSubsequence(c, s) ==> c in ps)
      && (forall i, j :: 0 <= i <= j < |ps| ==> |ps[i]| <= |ps[j]|)
  {
    PowerSetUpToCount(s, |s|);
    SumBinomAll(|s|);
    PowerSetUpToShape(s, |s|);
    var ps := PowerSet(s);
    forall c | c in ps
      ensures IsSubsequence(c, s)
    {
      var i :| 0 <= i < |ps| && ps[i] == c;
    }
    forall c | IsSubsequence(c, s)
      ensures c in PowerSet(s)
    {
      CombinationsComplete(s, c);
      SubsequenceLength(c, s);
      PowerSetUpToHas(s, |s|, c);
    }
  }

  lemma {:induction false} PowerSetUpToShape<T>(s: seq<T>, m: nat)
    ensures var ps := PowerSetUpTo(s, m);
      |ps| > 0 && ps[0] == []
      && (forall i :: 0 <= i < |ps| ==> IsSubsequence(ps[i], s) && |ps[i]| <= m)
      && (forall i, j :: 0 <= i <= j < |ps| ==> |ps[i]| <= |ps[j]|)
  {
    CombinationsShape(s, m);
    if m == 0 {
      assert PowerSetUpTo(s, m) == [[]];
    } else {
      PowerSetUpToShape(s, m - 1);
      ShapeStep(PowerSetUpTo(s, m - 1), Combinations(s, m), s, m);
    }
  }

  lemma ShapeStep<T>(a: seq<seq<T>>, b: seq<seq<T>>, s: seq<T>, m: nat)
    requires |a| > 0 && a[0] == []
    requires forall i :: 0 <= i < |a| ==> IsSubsequence(a[i], s) && |a[i]| <= m - 1
    requires forall i, j :: 0 <= i <= j < |a| ==> |a[i]| <= |a[j]|
    requires Shaped(b, s, m)
    ensures var ps := a + b;
      |ps| > 0 && ps[0] == []
      && (forall i :: 0 <= i < |ps| ==> IsSubsequence(ps[i], s) && |ps[i]| <= m)
      && (forall i, j :: 0 <= i <= j < |ps| ==> |ps[i]| <= |ps[j]|)
  {
    var ps := a + b;
    forall i | 0 <= i < |ps|
      ensures IsSubsequence(ps[i], s) && |ps[i]| <= m
    {
      if i >= |a| {
        assert ps[i] == b[i - |a|];
      }
    }
    forall i, j | 0 <= i <= j < |ps|
      ensures |ps[i]| <= |ps[j]|
    {
      if j >= |a| {
        assert ps[j] == b[j - |a|];
        if i >= |a| {
          assert ps[i] == b[i - |a|];
        }
      }
    }
  }

  /** The selections of up to `m - 1` elements are among those of up to `m`. */
  lemma UpToKeeps<T>(s: seq<T>, m: nat, c: seq<T>)
    requires m > 0 && c in PowerSetUpTo(s, m - 1)
    ensures c in PowerSetUpTo(s, m)
  {
    assert PowerSetUpTo(s, m) == PowerSetUpTo(s, m - 1) + Combinations(s, m);
    InLeft(PowerSetUpTo(s, m - 1), Combinations(s, m), c);
  }

  /** The selections of exactly `m` elements are among those of up to `m`. */
  lemma UpToAdds<T>(s: seq<T>, m: nat, c: seq<T>)
    requires c in Combinations(s, m)
    ensures c in PowerSetUpTo(s, m)
  {
    if m > 0 {
      assert PowerSetUpTo(s, m) == PowerSetUpTo(s, m - 1) + Combinations(s, m);
      InRight(PowerSetUpTo(s, m - 1), Combinations(s, m), c);
    }
  }

  lemma {:induction false} UpToHas<T>(s: seq<T>, m: nat, k: nat, c: seq<T>)
    requires k <= m && c in Combinations(s, k)
    ensures c in PowerSetUpTo(s, m)
    decreases m
  {
    if k == m {
      UpToAdds(s, m, c);
    } else {
      UpToHas(s, m - 1, k, c);
      UpToKeeps(s, m, c);
    }
  }

  lemma PowerSetUpToHas<T>(s: seq<T>, m: nat, c: seq<T>)
    requires |c| <= m && c in Combinations(s, |c|)
    ensures c in PowerSetUpTo(s, m)
  {
    UpToHas(s, m, |c|, c);
  }

  lemma {:induction false} SubsequenceLength<T>(c: seq<T>, s: seq<T>)
    requires IsSubsequence(c, s)
    ensures |c| <= |s|
    decreases |s|
  {
    if c != [] {
      if c[0] == s[0] && IsSubsequence(c[1..], s[1..]) {
        SubsequenceLength(c[1..], s[1..]);
      } else {
        SubsequenceLength(c, s[1..]);
      }
    }
  }

  /** A subsequence holds only elements of the sequence, and holds each at
      most once when the sequence does. */
  lemma {:induction false} SubsequenceDistinct<T>(c: seq<T>, s: seq<T>)
    requires IsSubsequence(c, s)
    ensures forall x :: x in c ==> x in s
    ensures Distinct(s) ==> Distinct(c)
    decreases |s|
  {
    if c != [] {
      if c[0] == s[0] && IsSubsequence(c[1..], s[1..]) {
        SubsequenceDistinct(c[1..], s[1..]);
        assert c == [c[0]] + c[1..];
        if Distinct(s) {
          assert Distinct(s[1..]);
          assert s[0] !in s[1..];
          forall i, j | 0 <= i < j < |c|
            ensures c[i] != c[j]
          {
            if i == 0 {
              assert c[j] == c[1..][j - 1];
            } else {
              assert c[i] == c[1..][i - 1] && c[j] == c[1..][j - 1];
            }
          }
        }
      } else {
        SubsequenceDistinct(c, s[1..]);
        if Distinct(s) {
          assert Distinct(s[1..]);
        }
      }
    }
  }

  predicate Distinct<T(==)>(s: seq<T>)
  {
    forall i, j :: 0 <= i < j < |s| ==> s[i] != s[j]
  }

  // ---------------------------------------------------------------------------
  // One combination
  // ---------------------------------------------------------------------------

  /** `set(p)` */
  function ToSet<T>(p: seq<T>): set<T>
  {
    set x | x in p
  }

  /** A list without repetitions has as many distinct elements as entries. */
  lemma {:induction false} DistinctCard<T>(p: seq<T>)
    requires Distinct(p)
    ensures |ToSet(p)| == |p|
  {
    if p != [] {
      var init := p[..|p| - 1];
      var x := p[|p| - 1];
      assert Distinct(init);
      DistinctCard(init);
      assert ToSet(p) == ToSet(init) + {x};
      assert x !in ToSet(init);
    }
  }

  /** `list(indset - sp)`, in the order of the names. */
  function Outside(names: seq<string>, p: seq<string>): (r: seq<string>)
    ensures forall x :: x in r <==> x in names && x !in p
  {
    if names == [] then []
    else Outside(names[..|names| - 1], p) + (if names[|names| - 1] in p then [] else [names[|names| - 1]])
  }

  /** `reduce(lambda x, y: x + "," + y, p, "")` */
  function Inds(p: seq<string>): string
  {
    if p == [] then "" else Inds(p[..|p| - 1]) + "," + p[|p| - 1]
  }

  function SumLen(xs: seq<string>): nat
  {
    if xs == [] then 0 else |xs[0]| + SumLen(xs[1..])
  }

  /** The recorded list is empty for the empty combination and otherwise the
      names joined by commas behind one leading comma; it is one character
      longer per name than the names themselves. */
  lemma {:induction false} IndsSpec(p: seq<string>)
    ensures p == [] ==> Inds(p) == ""
    ensures p != [] ==> Inds(p) == "," + Join(",", p)
    ensures |Inds(p)| == SumLen(p) + |p|
  {
    if p != [] {
      var init := p[..|p| - 1];
      var x := p[|p| - 1];
      IndsSpec(init);
      assert p == init + [x];
      SumLenSnoc(init, x);
      if init != [] {
        JoinSnoc(",", init, x);
      }
    }
  }

  lemma {:induction false} SumLenSnoc(xs: seq<string>, x: string)
    ensures SumLen(xs + [x]) == SumLen(xs) + |x|
  {
    if xs != [] {
      assert (xs + [x])[1..] == xs[1..] + [x];
      SumLenSnoc(xs[1..], x);
    }
  }

  // ---------------------------------------------------------------------------
  // The combination loop
  // ---------------------------------------------------------------------------

  /** What the loop does for one combination it evaluates: its number, the
      indexes it enables and disables, and the list it records. */
  datatype Evaluation = Evaluation(n: nat, enabled: seq<string>, disabled: seq<string>, inds: string)

  /** The size filter of the loop: combinations of this size are evaluated. */
  predicate Fits(p: seq<string>, minnr: int, maxnr: int)
  {
    minnr <= |ToSet(p)| <= maxnr
  }

  /** The evaluation of combination number `n`. */
  function Evaluate(n: nat, p: seq<string>, names: seq<string>): Evaluation
  {
    Evaluation(n, p, Outside(names, p), Inds(p))
  }

  /** The evaluations of the loop over `ps`: the counter advances for every
      combination, and those whose size is outside `[minnr, maxnr]` are
      skipped. */
  function Evaluations(ps: seq<seq<string>>, names: seq<string>, minnr: int, maxnr: int): seq<Evaluation>
  {
    if ps == [] then []
    else
      var p := ps[|ps| - 1];
      Evaluations(ps[..|ps| - 1], names, minnr, maxnr)
        + (if Fits(p, minnr, maxnr) then [Evaluate(|ps|, p, names)] else [])
  }

  /** Every evaluation in `es` is that of a combination of `ps` that fits. */
  predicate Sound(es: seq<Evaluation>, ps: seq<seq<string>>, names: seq<string>, minnr: int, maxnr: int)
  {
    forall i :: 0 <= i < |es| ==>
      1 <= es[i].n <= |ps| && Fits(ps[es[i].n - 1], minnr, maxnr)
      && es[i] == Evaluate(es[i].n, ps[es[i].n - 1], names)
  }

  /** Each evaluation carries the 1-based position of its combination, whose
      size is within the bounds, with the other names disabled and the
      recorded list of the combination. */
  lemma {:induction false} EvaluationsSound(ps: seq<seq<string>>, names: seq<string>, minnr: int, maxnr: int)
    ensures Sound(Evaluations(ps, names, minnr, maxnr), ps, names, minnr, maxnr)
  {
    if ps != [] {
      var init := ps[..|ps| - 1];
      EvaluationsSound(init, names, minnr, maxnr);
      var es0 := Evaluations(init, names, minnr, maxnr);
      var es := Evaluations(ps, names, minnr, maxnr);
      var p := ps[|ps| - 1];
      assert es == es0 + (if Fits(p, minnr, maxnr) then [Evaluate(|ps|, p, names)] else []);
      forall i | 0 <= i < |es|
        ensures 1 <= es[i].n <= |ps| && Fits(ps[es[i].n - 1], minnr, maxnr)
        ensures es[i] == Evaluate(es[i].n, ps[es[i].n - 1], names)
      {
        if i < |es0| {
          assert es[i] == es0[i];
          assert init[es[i].n - 1] == ps[es[i].n - 1];
        }
      }
    }
  }

  /** The numbers increase along `es`. */
  predicate Increasing(es: seq<Evaluation>)
  {
    forall i, j :: 0 <= i < j < |es| ==> es[i].n < es[j].n
  }

  /** Every combination of `ps` that fits has its evaluation in `es`. */
  predicate Complete(es: seq<Evaluation>, ps: seq<seq<string>>, minnr: int, maxnr: int)
  {
    forall k :: 0 <= k < |ps| && Fits(ps[k], minnr, maxnr) ==> exists i :: 0 <= i < |es| && es[i].n == k + 1
  }

  /** The counter only goes up. */
  lemma {:induction false} EvaluationsIncreasing(ps: seq<seq<string>>, names: seq<string>, minnr: int, maxnr: int)
    ensures Increasing(Evaluations(ps, names, minnr, maxnr))
  {
    if ps != [] {
      var init := ps[..|ps| - 1];
      EvaluationsIncreasing(init, names, minnr, maxnr);
      EvaluationsSound(init, names, minnr, maxnr);
      var es0 := Evaluations(init, names, minnr, maxnr);
      var es := Evaluations(ps, names, minnr, maxnr);
      var p := ps[|ps| - 1];
      assert es == es0 + (if Fits(p, minnr, maxnr) then [Evaluate(|ps|, p, names)] else []);
      forall i, j | 0 <= i < j < |es|
        ensures es[i].n < es[j].n
      {
        assert es[i] == es0[i];
        if j < |es0| {
          assert es[j] == es0[j];
        }
      }
    }
  }

  /** No combination of a size within the bounds is skipped. */
  lemma {:induction false} EvaluationsComplete(ps: seq<seq<string>>, names: seq<string>, minnr: int, maxnr: int)
    ensures Complete(Evaluations(ps, names, minnr, maxnr), ps, minnr, maxnr)
  {
    if ps != [] {
      var init := ps[..|ps| - 1];
      EvaluationsComplete(init, names, minnr, maxnr);
      var es0 := Evaluations(init, names, minnr, maxnr);
      var es := Evaluations(ps, names, minnr, maxnr);
      var p := ps[|ps| - 1];
      assert es == es0 + (if Fits(p, minnr, maxnr) then [Evaluate(|ps|, p, names)] else []);
      forall k | 0 <= k < |ps| && Fits(ps[k], minnr, maxnr)
        ensures exists i :: 0 <= i < |es| && es[i].n == k + 1
      {
        if k < |init| {
          assert init[k] == ps[k];
          var i :| 0 <= i < |es0| && es0[i].n == k + 1;
          assert es[i] == es0[i];
        } else {
          assert es[|es| - 1].n == k + 1;
        }
      }
    }
  }

  /** The names are those of a set, so a combination never repeats one and
      the size filter is a filter on the number of indexes. */
  lemma FitsBySize(names: seq<string>, p: seq<string>, minnr: int, maxnr: int)
    requires Distinct(names) && p in PowerSet(names)
    ensures Fits(p, minnr, maxnr) <==> minnr <= |p| <= maxnr
  {
    PowerSetSpec(names);
    SubsequenceDistinct(p, names);
    DistinctCard(p);
  }

  /** Enabling each index of the combination, in order. */
  method EnableAll(p: seq<string>) returns (enabled: seq<string>)
    ensures enabled == p
  {
    enabled := [];
    for k := 0 to |p|
      invariant enabled == p[..k]
    {
      assert p[..k + 1] == p[..k] + [p[k]];
      enabled := enabled + [p[k]];
    }
    assert p[..|p|] == p;
  }

  /** Disabling each suggested index outside the combination. */
  method DisableOthers(names: seq<string>, p: seq<string>) returns (disabled: seq<string>)
    ensures disabled == Outside(names, p)
  {
    disabled := [];
    for k := 0 to |names|
      invariant disabled == Outside(names[..k], p)
    {
      assert names[..k + 1][..k] == names[..k];
      if names[k] !in p {
        disabled := disabled + [names[k]];
      }
    }
    assert names[..|names|] == names;
  }

  /** The fold that builds the recorded list. */
  method JoinInds(p: seq<string>) returns (inds: string)
    ensures inds == Inds(p)
  {
    inds := "";
    for k := 0 to |p|
      invariant inds == Inds(p[..k])
    {
      assert p[..k + 1][..k] == p[..k];
      inds := inds + "," + p[k];
    }
    assert p[..|p|] == p;
  }

  /** The loop over the combinations with its counter `n`. */
  method EvaluateCombinations(names: seq<string>, minnr: int, maxnr: int) returns (evals: seq<Evaluation>)
    ensures evals == Evaluations(PowerSet(names), names, minnr, maxnr)
  {
    var ps := PowerSet(names);
    var n := 0;
    evals := [];
    for k := 0 to |ps|
      invariant n == k
      invariant evals == Evaluations(ps[..k], names, minnr, maxnr)
    {
      var p := ps[k];
      n := n + 1;
      assert ps[..k + 1][..k] == ps[..k];
      var sp := set x | x in p;
      if |sp| < minnr || |sp| > maxnr {
        continue;
      }
      var enabled := EnableAll(p);
      var disabled := DisableOthers(names, p);
      var inds := JoinInds(p);
      evals := evals + [Evaluation(n, enabled, disabled, inds)];
    }
    assert ps[..|ps|] == ps;
  }

  // ---------------------------------------------------------------------------
  // The display width
  // ---------------------------------------------------------------------------

  /** `max_len`: room for every suggested name and a separator per name. */
  function MaxLen(indexes: seq<string>): nat
  {
    SumLen(indexes) + |indexes|
  }

  /** `xs` with one occurrence of `x` removed. */
  function RemoveOne(xs: seq<string>, x: string): (r: seq<string>)
    requires x in xs
    ensures |r| == |xs| - 1 && SumLen(xs) == SumLen(r) + |x|
    ensures forall y :: y in xs && y != x ==> y in r
  {
    if xs[0] == x then xs[1..] else [xs[0]] + RemoveOne(xs[1..], x)
  }

  /** A list of distinct names, all suggested, is no longer than the list of
      suggestions, neither in entries nor in characters. */
  lemma {:induction false} DistinctWithin(p: seq<string>, xs: seq<string>)
    requires Distinct(p) && forall x :: x in p ==> x in xs
    ensures SumLen(p) <= SumLen(xs) && |p| <= |xs|
  {
    if p != [] {
      var rest := RemoveOne(xs, p[0]);
      assert forall i :: 0 < i < |p| ==> p[i] != p[0];
      assert forall x :: x in p[1..] ==> x in p && x != p[0];
      DistinctWithin(p[1..], rest);
    }
  }

  /** The run after the suggestions are read: `order` is the order in which
      the set of suggested names is iterated, so it lists each suggestion once.
      Every recorded list fits the display width. */
  method Advise(indexes: seq<string>, order: seq<string>, minnr: int, maxnr: int)
    returns (evals: seq<Evaluation>, maxLen: nat)
    requires Distinct(order) && forall x :: x in order <==> x in indexes
    ensures evals == Evaluations(PowerSet(order), order, minnr, maxnr)
    ensures maxLen == MaxLen(indexes)
    ensures forall e :: e in evals ==> |e.inds| <= maxLen
  {
    evals := EvaluateCombinations(order, minnr, maxnr);
    maxLen := MaxLen(indexes);
    EvaluationsFit(indexes, order, minnr, maxnr);
  }

  lemma EvaluationsFit(indexes: seq<string>, order: seq<string>, minnr: int, maxnr: int)
    requires Distinct(order) && forall x :: x in order <==> x in indexes
    ensures forall e :: e in Evaluations(PowerSet(order), order, minnr, maxnr) ==> |e.inds| <= MaxLen(indexes)
  {
    var ps := PowerSet(order);
    var es := Evaluations(ps, order, minnr, maxnr);
    EvaluationsSound(ps, order, minnr, maxnr);
    PowerSetSpec(order);
    forall e | e in es
      ensures |e.inds| <= MaxLen(indexes)
    {
      var i :| 0 <= i < |es| && es[i] == e;
      var p := ps[e.n - 1];
      assert p in ps;
      SubsequenceDistinct(p, order);
      DistinctWithin(p, indexes);
      IndsSpec(p);
    }
  }
}
