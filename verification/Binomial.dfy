/** Binomial coefficients, the identities the interval's loop relies on, and the outcomes they count. */
module Binomial {

  function Pow2(n: nat): (p: nat)
    ensures p > 0
  {
    if n == 0 then 1 else 2 * Pow2(n - 1)
  }

  function Choose(n: nat, k: nat): nat {
    if k == 0 then 1 else if n == 0 then 0 else Choose(n - 1, k - 1) + Choose(n - 1, k)
  }

  /** The sum of C(n, i) over i < k. */
  function SumBelow(n: nat, k: nat): nat {
    if k == 0 then 0 else SumBelow(n, k - 1) + Choose(n, k - 1)
  }

  lemma AbsorptionStep(n: int, k: int, a: int, b: int, c: int)
    requires (k - 1) * b == (n - k + 1) * a && k * c == (n - k) * b
    ensures k * (b + c) == (n - k + 1) * (a + b)
  {
    assert (k - 1) * b == k * b - b;
    assert (n - k) * b == n * b - k * b;
    assert (n - k + 1) * b == n * b - k * b + b;
    assert k * (b + c) == k * b + k * c;
    assert (n - k + 1) * (a + b) == (n - k + 1) * a + (n - k + 1) * b;
  }

  /** k C(n, k) = (n - k + 1) C(n, k - 1): the step from one coefficient to the next divides exactly. */
  lemma {:induction false} Absorption(n: nat, k: nat)
    requires 1 <= k <= n + 1
    ensures k * Choose(n, k) == (n - k + 1) * Choose(n, k - 1)
  {
    if n > 0 && k <= n {
      Absorption(n - 1, k);
      if k >= 2 {
        Absorption(n - 1, k - 1);
        AbsorptionStep(n, k, Choose(n - 1, k - 2), Choose(n - 1, k - 1), Choose(n - 1, k));
      }
    } else if n > 0 {
      TooMany(n, n + 1);
    }
  }

  lemma {:induction false} TooMany(n: nat, k: nat)
    requires k > n
    ensures Choose(n, k) == 0
  {
    if n > 0 {
      TooMany(n - 1, k - 1);
      TooMany(n - 1, k);
    }
  }

  lemma {:induction false} Symmetry(n: nat, k: nat)
    requires k <= n
    ensures Choose(n, k) == Choose(n, n - k)
  {
    if k == n {
      AllOfThem(n);
    } else if k > 0 {
      Symmetry(n - 1, k - 1);
      Symmetry(n - 1, k);
    } else {
      AllOfThem(n);
    }
  }

  lemma {:induction false} AllOfThem(n: nat)
    ensures Choose(n, n) == 1
  {
    if n > 0 {
      AllOfThem(n - 1);
      TooMany(n - 1, n);
    }
  }

  lemma {:induction false} SumBelowMonotone(n: nat, j: nat, k: nat)
    requires j <= k
    ensures SumBelow(n, j) <= SumBelow(n, k)
    decreases k - j
  {
    if j < k {
      SumBelowMonotone(n, j, k - 1);
    }
  }

  // ---- outcomes -----------------------------------------------------------------------

  /** One outcome of n fair coins. */
  type Word = seq<bool>

  function Ones(w: Word): (k: nat)
    ensures k <= |w|
  {
    if w == [] then 0 else (if w[0] then 1 else 0) + Ones(w[1..])
  }

  ghost function Prepend(b: bool, ws: set<Word>): set<Word> {
    set w | w in ws :: [b] + w
  }

  ghost function Words(n: nat): set<Word> {
    if n == 0 then {[]} else Prepend(true, Words(n - 1)) + Prepend(false, Words(n - 1))
  }

  lemma InPrepend(b: bool, ws: set<Word>, w: Word)
    ensures w in Prepend(b, ws) <==> w != [] && w[0] == b && w[1..] in ws
  {
    if w != [] && w[0] == b && w[1..] in ws {
      assert w == [b] + w[1..];
    }
    if w in Prepend(b, ws) {
      var v :| v in ws && w == [b] + v;
      assert w[1..] == v;
    }
  }

  lemma {:induction false} PrependSize(b: bool, ws: set<Word>)
    ensures |Prepend(b, ws)| == |ws|
    decreases |ws|
  {
    if ws != {} {
      var w :| w in ws;
      PrependSize(b, ws - {w});
      forall x
        ensures x in Prepend(b, ws) <==> x in Prepend(b, ws - {w}) + {[b] + w}
      {
        InPrepend(b, ws, x);
        InPrepend(b, ws - {w}, x);
        if x == [b] + w { assert x[1..] == w; }
        if x != [] && x[0] == b && x[1..] == w { assert x == [b] + w; }
      }
      InPrepend(b, ws - {w}, [b] + w);
      assert ([b] + w)[1..] == w;
      assert Prepend(b, ws) == Prepend(b, ws - {w}) + {[b] + w};
    }
  }

  /** All outcomes of length n are there, and nothing else. */
  lemma {:induction false} WordsAreAll(n: nat, w: Word)
    ensures w in Words(n) <==> |w| == n
  {
    if n > 0 {
      InPrepend(true, Words(n - 1), w);
      InPrepend(false, Words(n - 1), w);
      if w != [] { WordsAreAll(n - 1, w[1..]); }
    }
  }

  lemma {:induction false} WordsSize(n: nat)
    ensures |Words(n)| == Pow2(n)
  {
    if n > 0 {
      WordsSize(n - 1);
      PrependSize(true, Words(n - 1));
      PrependSize(false, Words(n - 1));
      PrependDisjoint(Words(n - 1), Words(n - 1));
    }
  }

  lemma PrependDisjoint(a: set<Word>, b: set<Word>)
    ensures Prepend(true, a) !! Prepend(false, b)
  {
    forall w
      ensures !(w in Prepend(true, a) && w in Prepend(false, b))
    {
      InPrepend(true, a, w);
      InPrepend(false, b, w);
    }
  }

  ghost function WordsWith(n: nat, k: nat): set<Word> {
    set w | w in Words(n) && Ones(w) == k
  }

  lemma WordsWithSplit(n: nat, k: nat)
    requires n > 0
    ensures WordsWith(n, k)
         == Prepend(true, if k == 0 then {} else WordsWith(n - 1, k - 1)) + Prepend(false, WordsWith(n - 1, k))
  {
    var yes := if k == 0 then {} else WordsWith(n - 1, k - 1);
    var no := WordsWith(n - 1, k);
    forall w
      ensures w in WordsWith(n, k) <==> w in Prepend(true, yes) + Prepend(false, no)
    {
      hide Prepend;
      InPrepend(true, yes, w);
      InPrepend(false, no, w);
      InPrepend(true, Words(n - 1), w);
      InPrepend(false, Words(n - 1), w);
    }
  }

  lemma NoCoins(k: nat)
    ensures |WordsWith(0, k)| == Choose(0, k)
  {
    assert WordsWith(0, k) == if k == 0 then {[]} else {};
  }

  /** C(n, k) counts the outcomes with exactly k ones. */
  lemma {:induction false} ChooseCounts(n: nat, k: nat)
    ensures |WordsWith(n, k)| == Choose(n, k)
  {
    hide Prepend, WordsWith, Words;
    if n == 0 {
      NoCoins(k);
    } else {
      var yes := if k == 0 then {} else WordsWith(n - 1, k - 1);
      var no := WordsWith(n - 1, k);
      WordsWithSplit(n, k);
      PrependSize(true, yes);
      PrependSize(false, no);
      PrependDisjoint(yes, no);
      ChooseCounts(n - 1, k);
      if k > 0 { ChooseCounts(n - 1, k - 1); } else { ChooseZero(n); ChooseZero(n - 1); }
    }
  }

  lemma ChooseZero(n: nat)
    ensures Choose(n, 0) == 1
  {
  }

  ghost function Fewer(n: nat, k: nat): set<Word> {
    set w | w in Words(n) && Ones(w) < k
  }

  ghost function More(n: nat, k: nat): set<Word> {
    set w | w in Words(n) && Ones(w) > n - k
  }

  ghost function Covered(n: nat, k: nat): set<Word> {
    set w | w in Words(n) && k <= Ones(w) <= n - k
  }

  lemma NoTails(n: nat)
    ensures Fewer(n, 0) == {} && More(n, 0) == {}
  {
    hide Words;
    forall w | w in Words(n)
      ensures Ones(w) <= n
    {
      WordsAreAll(n, w);
    }
  }

  lemma {:induction false} TailsSize(n: nat, k: nat)
    requires k <= n
    ensures |Fewer(n, k)| == SumBelow(n, k) && |More(n, k)| == SumBelow(n, k)
  {
    hide Words, Fewer, More, WordsWith, Choose;
    if k == 0 {
      NoTails(n);
    } else {
      TailsSize(n, k - 1);
      ChooseCounts(n, k - 1);
      ChooseCounts(n, n - (k - 1));
      Symmetry(n, k - 1);
      FewerSplit(n, k);
      MoreSplit(n, k);
    }
  }

  lemma FewerSplit(n: nat, k: nat)
    requires k > 0
    ensures |Fewer(n, k)| == |Fewer(n, k - 1)| + |WordsWith(n, k - 1)|
  {
    hide Words, Ones;
    assert Fewer(n, k) == Fewer(n, k - 1) + WordsWith(n, k - 1);
    assert Fewer(n, k - 1) !! WordsWith(n, k - 1);
  }

  lemma MoreSplit(n: nat, k: nat)
    requires 0 < k <= n
    ensures |More(n, k)| == |More(n, k - 1)| + |WordsWith(n, n - (k - 1))|
  {
    hide Words, Ones;
    assert More(n, k) == More(n, k - 1) + WordsWith(n, n - (k - 1));
    assert More(n, k - 1) !! WordsWith(n, n - (k - 1));
  }

  /** The outcomes with between k and n - k ones: everything but two equal tails. */
  lemma CoveredSize(n: nat, k: nat)
    requires 2 * k <= n
    ensures |Covered(n, k)| == Pow2(n) - 2 * SumBelow(n, k)
  {
    TailsSize(n, k);
    WordsSize(n);
    assert Words(n) == Fewer(n, k) + Covered(n, k) + More(n, k);
    assert |Fewer(n, k) + Covered(n, k)| == |Fewer(n, k)| + |Covered(n, k)|;
  }
}
