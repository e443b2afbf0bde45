/** base/rand_util.cc: numbers below a bound, each exactly as likely as any other, from random
    64-bit words. The words come from a list, which may end before an acceptable one. */
module RandUtil {
  import opened Arithmetic
  import opened Options

  const UINT64_LIMIT: int := 0x1_0000_0000_0000_0000
  const UINT64_MAX: int := UINT64_LIMIT - 1

  type Word = x: int | 0 <= x < UINT64_LIMIT
  type Range = x: int | 0 < x < UINT64_LIMIT witness 1
  type Int = x: int | -0x8000_0000 <= x < 0x8000_0000

  function Residue(x: nat, d: Range): (r: nat)
    ensures r < d && x == d * Div(x, d) + r
  {
    x % d
  }

  lemma ResidueOf(q: nat, d: Range, r: nat)
    requires r < d
    ensures Residue(d * q + r, d) == r && Div(d * q + r, d) == q
  {
    Quotient(d * q + r, d, q, r);
  }

  /** How many times the range fits in the words: that many words lead to each result. */
  function Times(range: Range): (n: nat)
    ensures range * n <= 0xffff_ffff_ffff_ffff < range * n + range
    ensures UINT64_MAX < 2 * (range * n)
  {
    MoreThanHalf(Div(UINT64_MAX, range), range);
    Div(UINT64_MAX, range)
  }

  // More than half of the words are accepted.
  lemma MoreThanHalf(n: nat, range: Range)
    requires range * n <= UINT64_MAX < range * (n + 1)
    ensures UINT64_MAX < 2 * (range * n)
  {
    TimesDistributes(range, n, 1);
    if n > 0 {
      TimesIsMonotone(range, 1, n);
    }
  }

  ghost predicate Acceptable(w: Word, range: Range) {
    w < range * Times(range)
  }

  /** What RandGenerator makes of these words: the first that is acceptable counts. */
  ghost function Draw(words: seq<Word>, range: Range): Option<nat> {
    if words == [] then None
    else if Acceptable(words[0], range) then Some(Residue(words[0], range))
    else Draw(words[1..], range)
  }

  method RandGenerator(range: Range, words: seq<Word>) returns (r: Option<nat>)
    ensures r == Draw(words, range)
    ensures r.Some? ==> r.value < range
    ensures r.None? <==> forall i :: 0 <= i < |words| ==> !Acceptable(words[i], range)
  {
    var maxAcceptableValue: Word := range * Div(UINT64_MAX, range) - 1;
    var i := 0;
    while i < |words|
      invariant i <= |words|
      invariant Draw(words, range) == Draw(words[i..], range)
      invariant forall j :: 0 <= j < i ==> !Acceptable(words[j], range)
    {
      var value := words[i];
      if value <= maxAcceptableValue {
        return Some(value % range);
      }
      i := i + 1;
    }
    return None;
  }

  // ----- as many words for each result

  ghost function WordsFor(r: nat, range: Range, n: nat): set<int> {
    set x: int | 0 <= x < range * n && Residue(x, range) == r
  }

  /** Exactly Times(range) of the acceptable words lead to each result below the range. */
  lemma {:induction false} CountOfWords(r: nat, range: Range)
    requires r < range
    ensures (set w: Word | Acceptable(w, range) && Residue(w, range) == r) == WordsFor(r, range, Times(range))
    ensures |WordsFor(r, range, Times(range))| == Times(range)
  {
    CountUpTo(r, range, Times(range));
  }

  lemma {:induction false} CountUpTo(r: nat, range: Range, n: nat)
    requires r < range
    ensures |WordsFor(r, range, n)| == n
  {
    if n == 0 {
      assert WordsFor(r, range, 0) == {};
    } else {
      CountUpTo(r, range, n - 1);
      TimesDistributes(range, n - 1, 1);
      forall x: nat | range * (n - 1) <= x < range * n
        ensures Residue(x, range) == r <==> x == range * (n - 1) + r
      {
        OneInEachMultiple(x, r, range, n - 1);
      }
      hide Residue;
      assert WordsFor(r, range, n) == WordsFor(r, range, n - 1) + {range * (n - 1) + r};
    }
  }

  lemma OneInEachMultiple(x: nat, r: nat, range: Range, q: nat)
    requires r < range && range * q <= x < range * q + range
    ensures Residue(x, range) == r <==> x == range * q + r
  {
    ResidueOf(q, range, x - range * q);
  }

  // ----- as many lists of words for each result

  ghost function Lists(n: nat): (lists: set<seq<Word>>)
    ensures forall s: seq<Word> :: s in lists <==> |s| == n
  {
    if n == 0 then {[]}
    else
      var shorter := Lists(n - 1);
      var lists := set w: Word, s | s in shorter && 0 <= w < UINT64_LIMIT :: [w] + s;
      assert forall s: seq<Word> :: |s| == n ==> s == [s[0]] + s[1..] && s[1..] in shorter;
      lists
  }

  ghost function Yielding(r: nat, range: Range, n: nat): set<seq<Word>> {
    set s | s in Lists(n) && Draw(s, range) == Some(r)
  }

  // The word that counts replaced by the one of the same multiple that leads to t.
  ghost function Redirect(words: seq<Word>, r: nat, t: nat, range: Range): (other: seq<Word>)
    requires r < range && t < range && Draw(words, range) == Some(r)
    ensures |other| == |words| && Draw(other, range) == Some(t)
  {
    if Acceptable(words[0], range) then
      SameMultiple(words[0], t, range);
      [words[0] - r + t] + words[1..]
    else [words[0]] + Redirect(words[1..], r, t, range)
  }

  lemma SameMultiple(w: Word, t: nat, range: Range)
    requires Acceptable(w, range) && t < range
    ensures var other := w - Residue(w, range) + t;
            0 <= other < range * Times(range) && Residue(other, range) == t
  {
    var q := Div(w, range);
    ResidueOf(q, range, t);
    if q >= Times(range) {
      TimesIsMonotone(range, Times(range), q);
    }
    TimesIsMonotone(range, q + 1, Times(range));
    TimesDistributes(range, q, 1);
  }

  lemma {:induction false} RedirectBack(words: seq<Word>, r: nat, t: nat, range: Range)
    requires r < range && t < range && Draw(words, range) == Some(r)
    ensures Redirect(Redirect(words, r, t, range), t, r, range) == words
  {
    if Acceptable(words[0], range) {
      SameMultiple(words[0], t, range);
    } else {
      RedirectBack(words[1..], r, t, range);
    }
  }

  lemma {:induction false} NoFewer<T>(a: set<T>, b: set<T>, f: map<T, T>)
    requires forall x :: x in a ==> x in f && f[x] in b
    requires forall x, y :: x in a && y in a && f[x] == f[y] ==> x == y
    ensures |a| <= |b|
  {
    if a == {} {
    } else {
      var x :| x in a;
      NoFewer(a - {x}, b - {f[x]}, f);
    }
  }

  /** For any number of words drawn, as many lists of words yield one number below the range
      as yield another. */
  lemma Uniform(r: nat, t: nat, range: Range, n: nat)
    requires r < range && t < range
    ensures |Yielding(r, range, n)| == |Yielding(t, range, n)|
  {
    AtLeastAsMany(r, t, range, n);
    AtLeastAsMany(t, r, range, n);
  }

  lemma AtLeastAsMany(r: nat, t: nat, range: Range, n: nat)
    requires r < range && t < range
    ensures |Yielding(r, range, n)| <= |Yielding(t, range, n)|
  {
    var f := map s | s in Yielding(r, range, n) :: Redirect(s, r, t, range);
    forall x, y | x in f && y in f && f[x] == f[y]
      ensures x == y
    {
      RedirectBack(x, r, t, range);
      RedirectBack(y, r, t, range);
    }
    NoFewer(Yielding(r, range, n), Yielding(t, range, n), f);
  }

  // ----- RandInt

  function ToUint64(x: int): Word {
    x % UINT64_LIMIT
  }

  lemma Width(min: Int, max: Int)
    requires min <= max
    ensures ToUint64(ToUint64(ToUint64(max) - ToUint64(min)) + 1) == max - min + 1
  {
    ToUint64Negative(min);
    ToUint64Negative(max);
  }

  lemma ToUint64Negative(x: Int)
    ensures ToUint64(x) == if x < 0 then x + UINT64_LIMIT else x
  {
  }

  /** A number from min to max: the smallest and each of the others, min + r, for the same
      number of words. Neither the 64-bit subtraction nor the casts lose anything. */
  method RandInt(min: Int, max: Int, words: seq<Word>) returns (r: Option<Int>)
    requires min <= max
    ensures r.Some? ==> min <= r.value <= max
    ensures var range: Range := max - min + 1;
            && (r.None? <==> Draw(words, range).None?)
            && (r.Some? ==> Draw(words, range) == Some(r.value - min))
  {
    var range := ToUint64(ToUint64(ToUint64(max) - ToUint64(min)) + 1);
    Width(min, max);
    hide ToUint64;
    var generated := RandGenerator(range, words);
    if generated.None? {
      return None;
    }
    return Some(min + generated.value);
  }
}
