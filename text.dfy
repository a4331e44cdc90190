/** String helpers shared by every renderer: the Python string operations the
    modelled code relies on (`str.strip`, `sep.join`, `str(int)`, `endswith`). */
module Text {

  /** `s.endswith(suffix)` */
  predicate EndsWith(s: string, suffix: string)
  {
    |suffix| <= |s| && s[|s| - |suffix|..] == suffix
  }

  /** Concatenation of a sequence of strings, `"".join(parts)`. */
  function Concat(parts: seq<string>): (r: string)
    ensures |parts| == 1 ==> r == parts[0]
  {
    if parts == [] then "" else parts[0] + Concat(parts[1..])
  }

  lemma {:induction false} ConcatAppend(a: seq<string>, b: seq<string>)
    ensures Concat(a + b) == Concat(a) + Concat(b)
  {
    if a == [] {
      assert a + b == b;
    } else {
      assert (a + b)[1..] == a[1..] + b;
      ConcatAppend(a[1..], b);
    }
  }

  /** `sep.join(parts)` */
  function Join(sep: string, parts: seq<string>): (r: string)
    ensures |parts| == 0 ==> r == ""
    ensures |parts| == 1 ==> r == parts[0]
  {
    if |parts| == 0 then ""
    else if |parts| == 1 then parts[0]
    else parts[0] + sep + Join(sep, parts[1..])
  }

  /** Appending one more part to a join adds the separator and the part. */
  lemma {:induction false} JoinSnoc(sep: string, parts: seq<string>, p: string)
    requires parts != []
    ensures Join(sep, parts + [p]) == Join(sep, parts) + sep + p
  {
    if |parts| == 1 {
      assert parts + [p] == [parts[0], p];
      assert [parts[0], p][1..] == [p];
    } else {
      assert (parts + [p])[1..] == parts[1..] + [p];
      JoinSnoc(sep, parts[1..], p);
    }
  }

  /** Characters for which Python's `str.isspace()` holds; `strip()` removes these. */
  predicate IsSpace(c: char)
  {
    c == ' ' || ('\t' <= c <= '\r') || ('\U{1C}' <= c <= '\U{1F}')
    || c == '\U{85}' || c == '\U{A0}' || c == '\U{1680}'
    || ('\U{2000}' <= c <= '\U{200A}') || c == '\U{2028}' || c == '\U{2029}'
    || c == '\U{202F}' || c == '\U{205F}' || c == '\U{3000}'
  }

  /** `s.lstrip()` */
  function LStrip(s: string): (r: string)
    ensures |r| <= |s|
  {
    if s != [] && IsSpace(s[0]) then LStrip(s[1..]) else s
  }

  /** `lstrip()` keeps the longest suffix of `s` that does not start with whitespace. */
  lemma {:induction false} LStripSpec(s: string)
    ensures var r := LStrip(s);
      |r| <= |s| && r == s[|s| - |r|..]
      && (forall k :: 0 <= k < |s| - |r| ==> IsSpace(s[k]))
      && (r == [] || !IsSpace(r[0]))
    decreases |s|
  {
    if s != [] && IsSpace(s[0]) {
      LStripSpec(s[1..]);
    }
  }

  /** `s.rstrip()` */
  function RStrip(s: string): (r: string)
    ensures |r| <= |s|
  {
    if s != [] && IsSpace(s[|s| - 1]) then RStrip(s[..|s| - 1]) else s
  }

  /** `rstrip()` keeps the longest prefix of `s` that does not end with whitespace. */
  lemma {:induction false} RStripSpec(s: string)
    ensures var r := RStrip(s);
      |r| <= |s| && r == s[..|r|]
      && (forall k :: |r| <= k < |s| ==> IsSpace(s[k]))
      && (r == [] || !IsSpace(r[|r| - 1]))
    decreases |s|
  {
    if s != [] && IsSpace(s[|s| - 1]) {
      RStripSpec(s[..|s| - 1]);
    }
  }

  /** `s.strip()` */
  function Strip(s: string): (r: string)
  {
    RStrip(LStrip(s))
  }

  /** What `strip()` removes is whitespace on both ends, and what it keeps is a
      contiguous part of the input that neither starts nor ends with whitespace. */
  lemma StripSpec(s: string)
    ensures var i, r := |s| - |LStrip(s)|, Strip(s);
      i + |r| <= |s| && r == s[i..i + |r|]
      && (forall k :: 0 <= k < i ==> IsSpace(s[k]))
      && (forall k :: i + |r| <= k < |s| ==> IsSpace(s[k]))
    ensures Strip(s) == [] || (!IsSpace(Strip(s)[0]) && !IsSpace(Strip(s)[|Strip(s)| - 1]))
  {
    var l := LStrip(s);
    var r := RStrip(l);
    LStripSpec(s);
    RStripSpec(l);
    var i := |s| - |l|;
    assert r == s[i..i + |r|];
    forall k | i + |r| <= k < |s| ensures IsSpace(s[k]) {
      assert s[k] == l[k - i];
    }
    if r != [] {
      assert r[0] == l[0];
    }
  }

  /** Stripping twice changes nothing more. */
  lemma StripIdempotent(s: string)
    ensures Strip(Strip(s)) == Strip(s)
  {
    var r := Strip(s);
    StripSpec(s);
    LStripSpec(r);
    RStripSpec(r);
    if r != [] {
      assert LStrip(r) == r;
      assert RStrip(r) == r;
    }
  }

  function DigitChar(d: nat): (c: char)
    requires d < 10
    ensures '0' <= c <= '9'
  {
    "0123456789"[d]
  }

  function DigitValue(c: char): (d: nat)
    requires '0' <= c <= '9'
    ensures d < 10 && DigitChar(d) == c
  {
    (c as int - '0' as int) as nat
  }

  /** Python's `str(n)` for a natural number: decimal digits, no leading zero. */
  function NatToString(n: nat): (r: string)
    ensures r != []
    ensures forall k :: 0 <= k < |r| ==> '0' <= r[k] <= '9'
    ensures |r| > 1 ==> r[0] != '0'
    decreases n
  {
    if n < 10 then [DigitChar(n)] else NatToString(n / 10) + [DigitChar(n % 10)]
  }

  /** Reads a string of decimal digits back as a number. */
  function ParseDigits(s: string): nat
    requires forall k :: 0 <= k < |s| ==> '0' <= s[k] <= '9'
  {
    if s == [] then 0 else 10 * ParseDigits(s[..|s| - 1]) + DigitValue(s[|s| - 1])
  }

  /** The decimal rendering of a number reads back as that number. */
  lemma {:induction false} NatToStringRoundTrip(n: nat)
    ensures ParseDigits(NatToString(n)) == n
    decreases n
  {
    var r := NatToString(n);
    if n >= 10 {
      NatToStringRoundTrip(n / 10);
      assert r[..|r| - 1] == NatToString(n / 10);
      assert DigitValue(r[|r| - 1]) == n % 10 by {
        assert r[|r| - 1] == DigitChar(n % 10);
      }
    } else {
      assert r[..0] == [];
    }
  }

  /** Python's `str(n)` (and `f"{n}"`) for any integer. */
  function IntToString(n: int): (r: string)
    ensures r != []
    ensures n < 0 <==> r[0] == '-'
  {
    if n < 0 then "-" + NatToString(-n) else NatToString(n)
  }

  /** How many times `c` occurs in `s`. */
  function CountChar(s: string, c: char): (k: nat)
    ensures k <= |s|
  {
    if s == [] then 0 else (if s[0] == c then 1 else 0) + CountChar(s[1..], c)
  }

  /** `s` with every occurrence of `c` removed. */
  function RemoveChar(s: string, c: char): (r: string)
    ensures c !in r
    ensures |r| + CountChar(s, c) == |s|
  {
    if s == [] then "" else (if s[0] == c then "" else [s[0]]) + RemoveChar(s[1..], c)
  }

  lemma {:induction false} RemoveCharAppend(a: string, b: string, c: char)
    ensures RemoveChar(a + b, c) == RemoveChar(a, c) + RemoveChar(b, c)
  {
    if a == [] {
      assert a + b == b;
    } else {
      assert (a + b)[1..] == a[1..] + b;
      RemoveCharAppend(a[1..], b, c);
    }
  }

  /** `s` with every character of `sep` removed. */
  function RemoveAll(s: string, sep: set<char>): (r: string)
    ensures forall c :: c in r ==> c in s && c !in sep
  {
    if s == [] then "" else (if s[0] in sep then "" else [s[0]]) + RemoveAll(s[1..], sep)
  }

  /** A character that does not occur is not removed. */
  lemma {:induction false} RemoveCharAbsent(s: string, c: char)
    requires c !in s
    ensures RemoveChar(s, c) == s
  {
    if s != [] {
      assert c !in s[1..];
      RemoveCharAbsent(s[1..], c);
    }
  }

  /** No character of `t` is one of `sep`. */
  predicate Clean(t: string, sep: set<char>)
  {
    forall c :: c in t ==> c !in sep
  }

  /** Splits `s` at the characters of `sep`, dropping empty pieces, with `cur`
      the piece gathered so far. */
  function TokensFrom(s: string, sep: set<char>, cur: string): seq<string>
    decreases |s|
  {
    if s == [] then (if cur == [] then [] else [cur])
    else if s[0] in sep then (if cur == [] then [] else [cur]) + TokensFrom(s[1..], sep, [])
    else TokensFrom(s[1..], sep, cur + [s[0]])
  }

  /** `[t for t in s.split(c) if t]` for every separator `c` of `sep` at once:
      the maximal runs of characters outside `sep`. */
  function Tokens(s: string, sep: set<char>): seq<string>
  {
    TokensFrom(s, sep, [])
  }

  lemma {:induction false} TokensFromSpec(s: string, sep: set<char>, cur: string)
    requires Clean(cur, sep)
    ensures var ts := TokensFrom(s, sep, cur);
      (forall i :: 0 <= i < |ts| ==> ts[i] != [] && Clean(ts[i], sep))
      && Concat(ts) == cur + RemoveAll(s, sep)
    decreases |s|
  {
    if s == [] {
    } else if s[0] in sep {
      TokensFromSpec(s[1..], sep, []);
      var rest := TokensFrom(s[1..], sep, []);
      var head: seq<string> := if cur == [] then [] else [cur];
      ConcatAppend(head, rest);
      assert RemoveAll(s, sep) == RemoveAll(s[1..], sep);
    } else {
      TokensFromSpec(s[1..], sep, cur + [s[0]]);
      assert RemoveAll(s, sep) == [s[0]] + RemoveAll(s[1..], sep);
    }
  }

  /** Every token is non-empty and free of separators, and together the tokens
      hold exactly the characters of `s` that are not separators, in order. */
  lemma TokensSpec(s: string, sep: set<char>)
    ensures var ts := Tokens(s, sep);
      (forall i :: 0 <= i < |ts| ==> ts[i] != [] && Clean(ts[i], sep))
      && Concat(ts) == RemoveAll(s, sep)
  {
    TokensFromSpec(s, sep, []);
  }

  /** A separator splits the text in two: the tokens of `a + [c] + b` are the
      tokens of `a` followed by the tokens of `b`. Together with `TokensWhole`
      this fixes where every token starts and ends. */
  lemma TokensSplit(a: string, c: char, b: string, sep: set<char>)
    requires c in sep
    ensures Tokens(a + [c] + b, sep) == Tokens(a, sep) + Tokens(b, sep)
  {
    TokensFromSplit(a, c, b, sep, []);
  }

  lemma {:induction false} TokensFromSplit(a: string, c: char, b: string, sep: set<char>, cur: string)
    requires c in sep
    ensures TokensFrom(a + [c] + b, sep, cur) == TokensFrom(a, sep, cur) + TokensFrom(b, sep, [])
    decreases |a|
  {
    if a == [] {
      assert a + [c] + b == [c] + b;
      assert ([c] + b)[1..] == b;
    } else {
      assert (a + [c] + b)[1..] == a[1..] + [c] + b;
      if a[0] in sep {
        TokensFromSplit(a[1..], c, b, sep, []);
      } else {
        TokensFromSplit(a[1..], c, b, sep, cur + [a[0]]);
      }
    }
  }

  /** A text without separators is one token, or none when it is empty. */
  lemma TokensWhole(t: string, sep: set<char>)
    requires Clean(t, sep)
    ensures Tokens(t, sep) == if t == [] then [] else [t]
  {
    TokensFromWhole(t, sep, []);
    assert [] + t == t;
  }

  lemma {:induction false} TokensFromWhole(t: string, sep: set<char>, cur: string)
    requires Clean(t, sep)
    ensures TokensFrom(t, sep, cur) == if cur + t == [] then [] else [cur + t]
    decreases |t|
  {
    if t != [] {
      assert t[0] in t;
      assert forall x :: x in t[1..] ==> x in t;
      TokensFromWhole(t[1..], sep, cur + [t[0]]);
      assert cur + [t[0]] + t[1..] == cur + t;
    } else {
      assert cur + t == cur;
    }
  }

  /** Splitting a join at its separator gives back the joined pieces when they
      are non-empty and free of separators. */
  lemma {:induction false} TokensOfJoin(ts: seq<string>, c: char, sep: set<char>)
    requires c in sep
    requires forall i :: 0 <= i < |ts| ==> ts[i] != [] && Clean(ts[i], sep)
    ensures Tokens(Join([c], ts), sep) == ts
  {
    if |ts| == 1 {
      TokensWhole(ts[0], sep);
    } else if |ts| >= 2 {
      TokensOfJoin(ts[1..], c, sep);
      JoinCons(c, ts);
      TokensSplit(ts[0], c, Join([c], ts[1..]), sep);
      TokensWhole(ts[0], sep);
      assert ts == [ts[0]] + ts[1..];
    }
  }

  lemma JoinCons(j: char, ts: seq<string>)
    requires |ts| >= 2
    ensures Join([j], ts) == ts[0] + [j] + Join([j], ts[1..])
  {
  }

  /** Deleting the separator from a join of pieces that do not contain it
      gives the pieces back, concatenated. */
  lemma {:induction false} JoinRemoveSeparator(ts: seq<string>, j: char)
    requires forall i :: 0 <= i < |ts| ==> j !in ts[i]
    ensures RemoveChar(Join([j], ts), j) == Concat(ts)
  {
    if |ts| == 1 {
      RemoveCharAbsent(ts[0], j);
    } else if |ts| >= 2 {
      var t := ts[0];
      var rest := Join([j], ts[1..]);
      JoinRemoveSeparator(ts[1..], j);
      JoinCons(j, ts);
      RemoveCharAppend(t + [j], rest, j);
      RemoveCharAppend(t, [j], j);
      RemoveCharAbsent(t, j);
      assert RemoveChar([j], j) == "";
      assert RemoveChar(t + [j], j) == t;
      assert RemoveChar(Join([j], ts), j) == t + Concat(ts[1..]);
    }
  }

  /** In a join of non-empty pieces without the separator, every separator
      stands between two other characters. */
  lemma {:induction false} JoinSeparatorIsolated(ts: seq<string>, j: char)
    requires forall i :: 0 <= i < |ts| ==> ts[i] != [] && j !in ts[i]
    ensures var r := Join([j], ts);
      (ts != [] ==> r != [] && r[0] != j)
      && (forall k :: 0 <= k < |r| && r[k] == j ==> 0 < k < |r| - 1 && r[k + 1] != j)
  {
    if |ts| == 1 {
      assert ts[0][0] in ts[0];
    } else if |ts| >= 2 {
      var t := ts[0];
      var rest := Join([j], ts[1..]);
      JoinSeparatorIsolated(ts[1..], j);
      JoinCons(j, ts);
      var r := t + [j] + rest;
      assert t[0] in t;
      forall k | 0 <= k < |r| && r[k] == j
        ensures 0 < k < |r| - 1 && r[k + 1] != j
      {
        if k > |t| {
          assert r[k] == rest[k - |t| - 1];
          assert r[k + 1] == rest[k - |t|];
        } else if k == |t| {
          assert r[k + 1] == rest[0];
        }
      }
    }
  }

  /** A join holds only the separator and characters of the pieces. */
  lemma {:induction false} JoinChars(ts: seq<string>, j: char)
    ensures forall c :: c in Join([j], ts) ==> c == j || c in Concat(ts)
  {
    if |ts| >= 2 {
      JoinChars(ts[1..], j);
      JoinCons(j, ts);
      assert Concat(ts) == ts[0] + Concat(ts[1..]);
    }
  }

  /** Facts about the two halves of a concatenation. */
  lemma Halves(a: string, b: string)
    ensures a <= a + b && EndsWith(a + b, b)
  {
    assert (a + b)[|a + b| - |b|..] == b;
  }

  /** A text made of three parts starts with the first and ends with the
      last; it is the first two when the last is empty. */
  lemma EndsAndStarts(a: string, b: string, c: string)
    ensures a <= a + b + c && EndsWith(a + b + c, c)
    ensures c == [] ==> a + b + c == a + b
  {
    assert a + b + c == a + (b + c);
    assert (a + b + c)[|a + b + c| - |c|..] == c;
  }

  /** A suffix of a suffix is a suffix. */
  lemma EndsWithExtend(a: string, b: string, suffix: string)
    requires EndsWith(b, suffix)
    ensures EndsWith(a + b, suffix)
  {
    assert (a + b)[|a + b| - |suffix|..] == b[|b| - |suffix|..];
  }

  /** `a` followed by `c` starts `a + rest` exactly when `rest` starts with `c`. */
  lemma PrefixByChar(a: string, c: char, rest: string)
    ensures (a + [c]) <= (a + rest) <==> (rest != [] && rest[0] == c)
  {
    if (a + [c]) <= (a + rest) {
      assert (a + rest)[|a|] == (a + [c])[|a|];
    }
    if rest != [] && rest[0] == c {
      assert (a + rest)[..|a| + 1] == a + [c];
    }
  }

  lemma EndsWithChain(a: string, b: string, c: string)
    requires EndsWith(a, b)
    ensures EndsWith(b, c) ==> EndsWith(a, c)
  {
  }

  lemma PrefixOfPrefix(a: string, b: string, c: string)
    ensures (a + b) <= a + (b + c)
  {
    assert a + (b + c) == (a + b) + c;
  }

  /** Five parts concatenated start with the first and end with the last. */
  lemma FiveParts(c: string, n: string, k: string, v: string, s: string)
    ensures c <= c + n + k + v + s && EndsWith(c + n + k + v + s, s)
  {
    Halves(c + n + k + v, s);
    assert c + n + k + v + s == c + (n + k + v + s);
    Halves(c, n + k + v + s);
  }

  /** A text does not end with `x` when one character in `x`'s place differs. */
  lemma NotSuffixByChar(s: string, x: string, k: int)
    requires 0 <= k < |x| <= |s| && s[|s| - |x| + k] != x[k]
    ensures !EndsWith(s, x)
  {
    assert s[|s| - |x|..][k] != x[k];
  }

  /** A text does not start with `x` when one character in `x`'s place differs. */
  lemma NotPrefixByChar(s: string, x: string, k: int)
    requires 0 <= k < |x| && k < |s| && s[k] != x[k]
    ensures !(x <= s)
  {
  }

  /** A prefix of a prefix is a prefix. */
  lemma PrefixTrans(x: string, a: string, s: string)
    requires x <= a && a <= s
    ensures x <= s
  {
    assert s[..|x|] == a[..|x|];
  }

  /** The characters of a suffix sit at the end of the text. */
  lemma SuffixChar(s: string, x: string, k: int)
    requires EndsWith(s, x) && 0 <= k < |x|
    ensures s[|s| - |x| + k] == x[k]
  {
    assert s[|s| - |x|..][k] == x[k];
  }

  /** Six parts concatenated start with the first. */
  lemma SixParts(a: string, b: string, c: string, d: string, e: string, f: string)
    ensures a <= a + b + c + d + e + f
  {
    assert a + b + c + d + e + f == a + (b + c + d + e + f);
  }

  /** Once `s` is known to start with `a`, a shorter `x` starts `s` exactly
      when it starts `a`. */
  lemma PrefixDecided(x: string, a: string, s: string)
    requires a <= s && |x| <= |a|
    ensures x <= s <==> x <= a
  {
    assert s[..|x|] == a[..|x|];
  }

  /** Once `s` is known to end with `a`, a shorter `x` ends `s` exactly when
      it ends `a`. */
  lemma SuffixDecided(x: string, a: string, s: string)
    requires EndsWith(s, a) && |x| <= |a|
    ensures EndsWith(s, x) <==> EndsWith(a, x)
  {
    assert s[|s| - |x|..] == a[|a| - |x|..];
  }

  /** A text without the character `c` is free of the separator set `{c}`. */
  lemma CleanOfAbsent(t: string, c: char)
    requires c !in t
    ensures Clean(t, {c})
  {
  }

  /** Appending a line `[c] + w`, or nothing, to a text adds `w`, or nothing,
      to its tokens. */
  lemma LineAppended(acc: string, c: char, f: string, w: string, sep: set<char>)
    requires c in sep && w != [] && Clean(w, sep)
    requires f == [] || f == [c] + w
    ensures Tokens(acc + f, sep) == Tokens(acc, sep) + (if f == [] then [] else [w])
  {
    if f == [] {
      assert acc + f == acc;
    } else {
      assert acc + f == acc + [c] + w;
      TokensSplit(acc, c, w, sep);
      TokensWhole(w, sep);
    }
  }

  /** Five lines, the third possibly empty, each ended by `c`, then one more
      `c`: the tokens are the lines, without the third when it is empty. */
  lemma TokensOfLines(a: string, b: string, x: string, d: string, e: string, c: char, sep: set<char>)
    requires c in sep && a != [] && b != [] && d != [] && e != []
    requires Clean(a, sep) && Clean(b, sep) && Clean(x, sep) && Clean(d, sep) && Clean(e, sep)
    ensures Tokens(a + [c] + b + [c] + x + [c] + d + [c] + e + [c] + [c], sep)
      == [a, b] + (if x == [] then [] else [x]) + [d, e]
  {
    var ab := a + [c] + b;
    var abx := ab + [c] + x;
    var abxd := abx + [c] + d;
    TokensSplit(abxd + [c] + e, c, [c], sep);
    TokensSplit([], c, [], sep);
    assert [] + [c] + [] == [c];
    assert Tokens([], sep) == [];
    TokensSplit(abxd, c, e, sep);
    TokensSplit(abx, c, d, sep);
    TokensSplit(ab, c, x, sep);
    TokensSplit(a, c, b, sep);
    TokensWhole(a, sep);
    TokensWhole(b, sep);
    TokensWhole(x, sep);
    TokensWhole(d, sep);
    TokensWhole(e, sep);
  }

  /** Each part with `p` before it and `end` after it, all concatenated. */
  function Prefixed(p: string, parts: seq<string>, end: string): string
  {
    if parts == [] then "" else p + parts[0] + end + Prefixed(p, parts[1..], end)
  }

  /** Writing the first part on its own and every later one after `p` is
      joining them all with `end + p`. */
  lemma {:induction false} PrefixedJoin(first: string, parts: seq<string>, p: string, end: string)
    ensures first + end + Prefixed(p, parts, end) == Join(end + p, [first] + parts) + end
    decreases |parts|
  {
    if parts != [] {
      var rest := Prefixed(p, parts[1..], end);
      PrefixedJoin(parts[0], parts[1..], p, end);
      assert [parts[0]] + parts[1..] == parts;
      assert ([first] + parts)[1..] == parts;
      calc {
        first + end + Prefixed(p, parts, end);
        first + end + (p + parts[0] + end + rest);
        first + (end + p) + (parts[0] + end + rest);
        first + (end + p) + (Join(end + p, parts) + end);
        first + (end + p) + Join(end + p, parts) + end;
      }
    }
  }

  /** `PrefixedJoin` inside surrounding text. */
  lemma PrefixedJoinIn(lead: string, ds: seq<string>, p: string, end: string, tail: string)
    requires ds != []
    ensures lead + ds[0] + end + Prefixed(p, ds[1..], end) + tail == lead + Join(end + p, ds) + end + tail
  {
    PrefixedJoin(ds[0], ds[1..], p, end);
    assert [ds[0]] + ds[1..] == ds;
    calc {
      lead + ds[0] + end + Prefixed(p, ds[1..], end) + tail;
      lead + (ds[0] + end + Prefixed(p, ds[1..], end)) + tail;
      lead + (Join(end + p, ds) + end) + tail;
    }
  }

  /** The text `make` gives each element, in order. */
  function Each<T>(xs: seq<T>, make: T -> string): (r: seq<string>)
    ensures |r| == |xs|
  {
    if xs == [] then [] else Each(xs[..|xs| - 1], make) + [make(xs[|xs| - 1])]
  }

  lemma EachSnoc<T>(xs: seq<T>, x: T, make: T -> string)
    ensures Each(xs + [x], make) == Each(xs, make) + [make(x)]
  {
    assert (xs + [x])[..|xs|] == xs;
  }

  lemma {:induction false} EachAppend<T>(xs: seq<T>, ys: seq<T>, make: T -> string)
    ensures Each(xs + ys, make) == Each(xs, make) + Each(ys, make)
    decreases |ys|
  {
    if ys == [] {
      assert xs + ys == xs;
    } else {
      var m0 := ys[..|ys| - 1];
      EachAppend(xs, m0, make);
      assert (xs + ys)[..|xs + ys| - 1] == xs + m0;
    }
  }

  /** A loop that appends the text of `xs[j]` to what it gathered after
      `acc0` keeps having gathered the texts of the elements so far. */
  lemma EachStep<T>(acc0: seq<string>, xs: seq<T>, j: nat, make: T -> string, acc: seq<string>, s: string)
    requires j < |xs| && acc == acc0 + Each(xs[..j], make) && s == make(xs[j])
    ensures acc + [s] == acc0 + Each(xs[..j + 1], make)
  {
    EachSnoc(xs[..j], xs[j], make);
    assert xs[..j + 1] == xs[..j] + [xs[j]];
  }

  /** A loop that appends the text of `x` to what it gathered after `acc0`
      keeps having gathered the texts of the elements so far, concatenated. */
  lemma ConcatStep<T>(acc0: string, xs: seq<T>, make: T -> string, acc: string, x: T, s: string)
    requires acc == acc0 + Concat(Each(xs, make)) && s == make(x)
    ensures acc + s == acc0 + Concat(Each(xs + [x], make))
  {
    EachSnoc(xs, x, make);
    ConcatAppend(Each(xs, make), [s]);
  }

  lemma AppendAssoc<T>(a: seq<T>, b: seq<T>, c: seq<T>)
    ensures (a + b) + c == a + (b + c)
  {
  }

  /** The i-th text is the one made for the i-th element. */
  lemma {:induction false} EachIndex<T>(xs: seq<T>, make: T -> string)
    ensures |Each(xs, make)| == |xs|
    ensures forall i :: 0 <= i < |xs| ==> Each(xs, make)[i] == make(xs[i])
  {
    if xs != [] {
      var init := xs[..|xs| - 1];
      EachIndex(init, make);
      assert forall i :: 0 <= i < |init| ==> xs[i] == init[i];
    }
  }
}
