/** String helpers shared by the SQL builders: JavaScript's `Array.prototype.join`,
    the anchored-suffix regular expressions the builders use, and counting the
    characters that matter to a statement (its `?` placeholders, its line breaks). */
module Text {

  /** `xs` with `sep` between each pair of neighbours, as `xs.join(sep)`. */
  function Join(xs: seq<string>, sep: string): string
    decreases |xs|
  {
    if |xs| == 0 then ""
    else if |xs| == 1 then xs[0]
    else Join(xs[..|xs| - 1], sep) + sep + xs[|xs| - 1]
  }

  predicate EndsWith(s: string, suffix: string) {
    |suffix| <= |s| && s[|s| - |suffix|..] == suffix
  }

  /** `s.replace(/<suffix>$/, "")`: one occurrence of `suffix` at the very end is removed. */
  function TrimSuffix(s: string, suffix: string): (r: string)
    ensures EndsWith(s, suffix) ==> r + suffix == s
    ensures !EndsWith(s, suffix) ==> r == s
  {
    if EndsWith(s, suffix) then s[..|s| - |suffix|] else s
  }

  /** How often `c` occurs in `s`. */
  function Occurrences(c: char, s: string): nat {
    multiset(s)[c]
  }

  /** The positional parameters of a SQL text. */
  function Placeholders(s: string): nat {
    Occurrences('?', s)
  }

  /** How often `c` occurs across all of `xs`. */
  function Total(c: char, xs: seq<string>): nat
    decreases |xs|
  {
    if xs == [] then 0 else Total(c, xs[..|xs| - 1]) + Occurrences(c, xs[|xs| - 1])
  }

  lemma {:induction false} JoinSnoc(xs: seq<string>, x: string, sep: string)
    requires xs != []
    ensures Join(xs + [x], sep) == Join(xs, sep) + sep + x
  {
    assert (xs + [x])[..|xs|] == xs;
  }

  /** A join starts with its first element. */
  lemma {:induction false} JoinStartsWithFirst(xs: seq<string>, sep: string)
    requires xs != []
    ensures xs[0] <= Join(xs, sep)
    decreases |xs|
  {
    if |xs| > 1 {
      var init := xs[..|xs| - 1];
      JoinStartsWithFirst(init, sep);
      assert init[0] == xs[0];
      assert Join(init, sep) <= Join(init, sep) + sep + xs[|xs| - 1];
    }
  }

  /** A join holds its elements' characters plus one separator's worth per gap. */
  lemma {:induction false} JoinOccurrences(c: char, xs: seq<string>, sep: string)
    ensures Occurrences(c, Join(xs, sep))
         == Total(c, xs) + (if xs == [] then 0 else (|xs| - 1) * Occurrences(c, sep))
  {
    if |xs| == 1 {
      assert xs[..0] == [];
    } else if |xs| > 1 {
      var init, last := xs[..|xs| - 1], xs[|xs| - 1];
      JoinOccurrences(c, init, sep);
      OccurrencesConcat(c, Join(init, sep) + sep, last);
      OccurrencesConcat(c, Join(init, sep), sep);
      assert Join(xs, sep) == Join(init, sep) + sep + last;
      assert Total(c, xs) == Total(c, init) + Occurrences(c, last);
      var k := Occurrences(c, sep);
      MulSucc(|init| - 1, k);
      assert Occurrences(c, Join(xs, sep)) == Total(c, init) + (|init| - 1) * k + k + Occurrences(c, last);
    }
  }

  lemma {:induction false} MulSucc(g: int, k: int)
    ensures (g + 1) * k == g * k + k
  {
  }

  lemma {:induction false} OccurrencesConcat(c: char, a: string, b: string)
    ensures Occurrences(c, a + b) == Occurrences(c, a) + Occurrences(c, b)
  {
    assert multiset(a + b) == multiset(a) + multiset(b);
  }

  /** `n` copies of `s`, as `Array.from({ length: n }, () => s)`. */
  function Copies(s: string, n: nat): (r: seq<string>)
    ensures |r| == n
    ensures forall i :: 0 <= i < n ==> r[i] == s
  {
    seq(n, _ => s)
  }

  /** `n` copies of `s` hold `n` times its characters. */
  lemma {:induction false} TotalCopies(c: char, s: string, n: nat)
    ensures Total(c, Copies(s, n)) == n * Occurrences(c, s)
  {
    if n > 0 {
      assert Copies(s, n)[..n - 1] == Copies(s, n - 1);
      TotalCopies(c, s, n - 1);
      MulSucc(n - 1, Occurrences(c, s));
    }
  }

  /** Characters that occur in no element and not in the separator do not occur in the join. */
  lemma {:induction false} JoinAbsent(c: char, xs: seq<string>, sep: string)
    requires c !in sep
    requires forall i :: 0 <= i < |xs| ==> c !in xs[i]
    ensures c !in Join(xs, sep)
  {
    if |xs| > 1 {
      JoinAbsent(c, xs[..|xs| - 1], sep);
    }
  }

  lemma {:induction false} AbsentOccurrences(c: char, s: string)
    ensures c !in s <==> Occurrences(c, s) == 0
  {
  }
}
