/** compareVersion: numeric comparison of dotted version strings ("1.10" > "1.9").
    A version is split at '.', each piece goes through Number(), and the two lists are
    compared component by component, a missing or NaN component counting as 0. */
module Version {
  import opened JsText

  /** v.split('.').map(Number) */
  function Components(v: string): seq<JsNumber>
  {
    var pieces := Split(v, '.');
    seq(|pieces|, k requires 0 <= k < |pieces| => ToNumber(pieces[k]))
  }

  /** n || 0: NaN (and 0) give 0. */
  function OrZero(n: JsNumber): int
  {
    match n
    case NaN => 0
    case Num(v) => v
  }

  /** pa[i] || 0: past the end the array yields undefined, which also gives 0. */
  function At(c: seq<JsNumber>, i: nat): int
  {
    if i < |c| then OrZero(c[i]) else 0
  }

  /** The components after the first one (none for an empty list). */
  function Rest(c: seq<JsNumber>): seq<JsNumber>
  {
    if |c| == 0 then [] else c[1..]
  }

  /** The components from index i on. */
  function Drop(c: seq<JsNumber>, i: nat): seq<JsNumber>
  {
    if i <= |c| then c[i..] else []
  }

  /** What compareVersion returns for two component lists, defined by recursion on the
      lists: the first components decide unless equal, then the rest is compared. */
  function Cmp(xs: seq<JsNumber>, ys: seq<JsNumber>): (r: int)
    ensures r == -1 || r == 0 || r == 1
    decreases |xs| + |ys|
  {
    if |xs| == 0 && |ys| == 0 then 0
    else if At(xs, 0) > At(ys, 0) then 1
    else if At(xs, 0) < At(ys, 0) then -1
    else Cmp(Rest(xs), Rest(ys))
  }

  /** compareVersion(a, b): the index loop over max(pa.length, pb.length) components
      with its two early returns. */
  method CompareVersion(a: string, b: string) returns (r: int)
    ensures r == Cmp(Components(a), Components(b))
    ensures r == -1 || r == 0 || r == 1
  {
    var pa := Components(a);
    var pb := Components(b);
    var n := if |pa| > |pb| then |pa| else |pb|;
    var i := 0;
    while i < n
      invariant 0 <= i <= n
      invariant Cmp(pa, pb) == Cmp(Drop(pa, i), Drop(pb, i))
    {
      var na := At(pa, i);
      var nb := At(pb, i);
      StepDrop(pa, i);
      StepDrop(pb, i);
      if na > nb {
        return 1;
      }
      if na < nb {
        return -1;
      }
      i := i + 1;
    }
    assert Drop(pa, i) == [] && Drop(pb, i) == [];
    return 0;
  }

  /** Dropping i components moves component i to the front. */
  lemma StepDrop(c: seq<JsNumber>, i: nat)
    ensures At(Drop(c, i), 0) == At(c, i)
    ensures Rest(Drop(c, i)) == Drop(c, i + 1)
  {
  }

  lemma AtRest(c: seq<JsNumber>, k: nat)
    ensures At(Rest(c), k) == At(c, k + 1)
  {
  }

  /** The two lists agree on every component before index k. */
  ghost predicate AgreeBelow(xs: seq<JsNumber>, ys: seq<JsNumber>, k: nat)
  {
    forall j: nat :: j < k ==> At(xs, j) == At(ys, j)
  }

  /** The first differing component decides, and nothing after it is consulted. */
  lemma {:induction false} FirstDifferenceDecides(xs: seq<JsNumber>, ys: seq<JsNumber>, k: nat)
    requires AgreeBelow(xs, ys, k) && At(xs, k) != At(ys, k)
    ensures Cmp(xs, ys) == if At(xs, k) > At(ys, k) then 1 else -1
    decreases k
  {
    if k > 0 {
      assert At(xs, 0) == At(ys, 0);
      forall j: nat | j < k - 1 ensures At(Rest(xs), j) == At(Rest(ys), j) {
        AtRest(xs, j);
        AtRest(ys, j);
      }
      AtRest(xs, k - 1);
      AtRest(ys, k - 1);
      FirstDifferenceDecides(Rest(xs), Rest(ys), k - 1);
    }
  }

  /** Lists that agree on every component compare equal. */
  lemma {:induction false} AgreeingCompareEqual(xs: seq<JsNumber>, ys: seq<JsNumber>)
    requires forall k: nat :: At(xs, k) == At(ys, k)
    ensures Cmp(xs, ys) == 0
    decreases |xs| + |ys|
  {
    if |xs| > 0 || |ys| > 0 {
      assert At(xs, 0) == At(ys, 0);
      forall k: nat ensures At(Rest(xs), k) == At(Rest(ys), k) {
        AtRest(xs, k);
        AtRest(ys, k);
        assert At(xs, k + 1) == At(ys, k + 1);
      }
      AgreeingCompareEqual(Rest(xs), Rest(ys));
    }
  }

  /** Lists that compare equal agree on every component. */
  lemma {:induction false} EqualCompareAgrees(xs: seq<JsNumber>, ys: seq<JsNumber>, k: nat)
    requires Cmp(xs, ys) == 0
    ensures At(xs, k) == At(ys, k)
    decreases |xs| + |ys|
  {
    if |xs| > 0 || |ys| > 0 {
      if k > 0 {
        EqualCompareAgrees(Rest(xs), Rest(ys), k - 1);
        AtRest(xs, k - 1);
        AtRest(ys, k - 1);
      }
    }
  }

  /** Of two components lists that differ somewhere, some index is the first difference. */
  lemma {:induction false} LeastDifference(xs: seq<JsNumber>, ys: seq<JsNumber>, k0: nat) returns (k: nat)
    requires At(xs, k0) != At(ys, k0)
    ensures k <= k0 && AgreeBelow(xs, ys, k) && At(xs, k) != At(ys, k)
    decreases k0
  {
    if AgreeBelow(xs, ys, k0) {
      k := k0;
    } else {
      var j: nat :| j < k0 && At(xs, j) != At(ys, j);
      k := LeastDifference(xs, ys, j);
    }
  }

  /** An independent definition of the order: lexicographic comparison of the two lists
      padded with zeros forever. compareVersion is 1, -1 or 0 exactly when the first
      differing component is larger, smaller, or there is none. */
  lemma CmpIsLexicographic(xs: seq<JsNumber>, ys: seq<JsNumber>)
    ensures Cmp(xs, ys) == 1 <==> exists k: nat :: AgreeBelow(xs, ys, k) && At(xs, k) > At(ys, k)
    ensures Cmp(xs, ys) == -1 <==> exists k: nat :: AgreeBelow(xs, ys, k) && At(xs, k) < At(ys, k)
    ensures Cmp(xs, ys) == 0 <==> forall k: nat :: At(xs, k) == At(ys, k)
  {
    if forall k: nat :: At(xs, k) == At(ys, k) {
      AgreeingCompareEqual(xs, ys);
    } else {
      var k0: nat :| At(xs, k0) != At(ys, k0);
      var k := LeastDifference(xs, ys, k0);
      FirstDifferenceDecides(xs, ys, k);
      forall k' : nat | AgreeBelow(xs, ys, k') && At(xs, k') != At(ys, k')
        ensures Cmp(xs, ys) == if At(xs, k') > At(ys, k') then 1 else -1
      {
        FirstDifferenceDecides(xs, ys, k');
      }
    }
    if Cmp(xs, ys) == 0 {
      forall k: nat ensures At(xs, k) == At(ys, k) {
        EqualCompareAgrees(xs, ys, k);
      }
    }
  }

  /** compareVersion(a, a) == 0. */
  lemma CompareReflexive(a: string)
    ensures Cmp(Components(a), Components(a)) == 0
  {
    AgreeingCompareEqual(Components(a), Components(a));
  }

  /** compareVersion(a, b) == -compareVersion(b, a). */
  lemma {:induction false} CmpAntisymmetric(xs: seq<JsNumber>, ys: seq<JsNumber>)
    ensures Cmp(xs, ys) == -Cmp(ys, xs)
    decreases |xs| + |ys|
  {
    if |xs| > 0 || |ys| > 0 {
      CmpAntisymmetric(Rest(xs), Rest(ys));
    }
  }

  /** The order is transitive: a <= b and b <= c give a <= c. */
  lemma {:induction false} CmpTransitive(xs: seq<JsNumber>, ys: seq<JsNumber>, zs: seq<JsNumber>)
    requires Cmp(xs, ys) <= 0 && Cmp(ys, zs) <= 0
    ensures Cmp(xs, zs) <= 0
    decreases |xs| + |ys| + |zs|
  {
    if (|xs| > 0 || |zs| > 0) && At(xs, 0) == At(zs, 0) {
      assert |ys| > 0 || At(ys, 0) == 0;
      assert At(xs, 0) == At(ys, 0) == At(zs, 0) by {
        if |xs| == 0 && |ys| == 0 {
        } else if |ys| == 0 && |zs| == 0 {
        }
      }
      CmpTransitive(Rest(xs), Rest(ys), Rest(zs));
    }
  }

  /** Only the component values count: lists with the same values, after `|| 0` and
      zero padding, compare alike against anything. */
  lemma CmpRespectsValues(xs: seq<JsNumber>, xs': seq<JsNumber>, ys: seq<JsNumber>)
    requires forall k: nat :: At(xs, k) == At(xs', k)
    ensures Cmp(xs, ys) == Cmp(xs', ys)
  {
    CmpIsLexicographic(xs, ys);
    CmpIsLexicographic(xs', ys);
    if exists k: nat :: AgreeBelow(xs, ys, k) && At(xs, k) > At(ys, k) {
      var k: nat :| AgreeBelow(xs, ys, k) && At(xs, k) > At(ys, k);
      assert AgreeBelow(xs', ys, k);
    }
    if exists k: nat :: AgreeBelow(xs, ys, k) && At(xs, k) < At(ys, k) {
      var k: nat :| AgreeBelow(xs, ys, k) && At(xs, k) < At(ys, k);
      assert AgreeBelow(xs', ys, k);
    }
    if exists k: nat :: AgreeBelow(xs', ys, k) && At(xs', k) > At(ys, k) {
      var k: nat :| AgreeBelow(xs', ys, k) && At(xs', k) > At(ys, k);
      assert AgreeBelow(xs, ys, k);
    }
    if exists k: nat :: AgreeBelow(xs', ys, k) && At(xs', k) < At(ys, k) {
      var k: nat :| AgreeBelow(xs', ys, k) && At(xs', k) < At(ys, k);
      assert AgreeBelow(xs, ys, k);
    }
  }

  /** Components of "v.w" are those of v followed by those of w. */
  lemma ComponentsAround(v: string, w: string)
    ensures Components(v + "." + w) == Components(v) + Components(w)
  {
    assert v + "." + w == v + ['.'] + w;
    SplitAround(v, '.', w);
  }

  /** A piece without a '.' splits into itself. */
  lemma SplitSingle(v: string)
    requires '.' !in v
    ensures Split(v, '.') == [v]
  {
    SplitJoin([v], '.');
  }

  /** A version without a '.' has one component. */
  lemma OneComponent(v: string)
    requires '.' !in v
    ensures Components(v) == [ToNumber(v)]
  {
    SplitSingle(v);
  }

  /** Appending zero components changes nothing the comparison reads. */
  lemma ZeroPadding(xs: seq<JsNumber>, k: nat)
    ensures At(xs + [Num(0)], k) == At(xs, k)
  {
  }

  /** A list compares equal to itself with a zero component appended. */
  lemma PaddingIgnored(xs: seq<JsNumber>)
    ensures Cmp(xs + [Num(0)], xs) == 0
  {
    forall k: nat ensures At(xs + [Num(0)], k) == At(xs, k) {
      ZeroPadding(xs, k);
    }
    AgreeingCompareEqual(xs + [Num(0)], xs);
  }

  /** Appending ".0" to a version appends a zero component. */
  lemma ComponentsWithZero(v: string)
    ensures Components(v + ".0") == Components(v) + [Num(0)]
  {
    OneComponent("0");
    ZeroNumeral();
    ComponentsAround(v, "0");
    assert v + ".0" == v + "." + "0";
  }

  /** A missing trailing component counts as 0: compareVersion(v + ".0", v) == 0 for
      every version string v, so "1.0" and "1.0.0" compare equal. */
  lemma TrailingZeroIgnored(v: string)
    ensures Cmp(Components(v + ".0"), Components(v)) == 0
  {
    ComponentsWithZero(v);
    PaddingIgnored(Components(v));
  }

  /** Components of a version "a.b" whose two pieces hold no '.'. */
  lemma TwoPieces(a: string, b: string)
    requires '.' !in a && '.' !in b
    ensures Components(a + "." + b) == [ToNumber(a), ToNumber(b)]
  {
    ComponentsAround(a, b);
    OneComponent(a);
    OneComponent(b);
  }

  /** Number() of the numerals the examples below use. */
  lemma ZeroNumeral()
    ensures ToNumber("0") == Num(0)
  {
    DigitsNumber("0");
    assert "0"[..0] == [];
  }

  lemma OneNumeral()
    ensures ToNumber("1") == Num(1)
  {
    DigitsNumber("1");
    assert "1"[..0] == [];
  }

  lemma NineNumeral()
    ensures ToNumber("9") == Num(9)
  {
    DigitsNumber("9");
    assert "9"[..0] == [];
  }

  lemma TenNumeral()
    ensures ToNumber("10") == Num(10)
  {
    DigitsNumber("10");
    TenValue();
  }

  lemma TenValue()
    ensures DigitsValue("10") == 10
  {
    assert "10"[..1] == "1";
    assert "1"[..0] == [];
  }

  lemma ComponentsOneDotV(v: string)
    requires '.' !in v && ToNumber(v) == NaN
    ensures Components("1." + v) == [Num(1), NaN]
  {
    TwoPieces("1", v);
    OneNumeral();
    OneDotText(v);
  }

  lemma OneDotText(v: string)
    ensures "1." + v == "1" + "." + v
  {
  }

  lemma ComponentsOneDotZero()
    ensures Components("1.0") == [Num(1), Num(0)]
  {
    TwoPieces("1", "0");
    OneNumeral();
    ZeroNumeral();
    OneDotZeroText();
  }

  lemma OneDotZeroText()
    ensures "1.0" == "1" + "." + "0"
  {
  }

  lemma ComponentsOneDotTen()
    ensures Components("1.10") == [Num(1), Num(10)]
  {
    TwoPieces("1", "10");
    OneNumeral();
    TenNumeral();
    OneDotTenText();
  }

  lemma OneDotTenText()
    ensures "1.10" == "1" + "." + "10"
  {
  }

  lemma ComponentsOneDotNine()
    ensures Components("1.9") == [Num(1), Num(9)]
  {
    TwoPieces("1", "9");
    OneNumeral();
    NineNumeral();
    OneDotNineText();
  }

  lemma OneDotNineText()
    ensures "1.9" == "1" + "." + "9"
  {
  }

  /** A component that Number() turns into NaN counts as 0: "1.beta" and "1.0" compare
      equal. */
  lemma NonNumericCountsAsZero(v: string)
    requires '.' !in v && ToNumber(v) == NaN
    ensures Cmp(Components("1." + v), Components("1.0")) == 0
  {
    ComponentsOneDotV(v);
    ComponentsOneDotZero();
    var xs, ys := [Num(1), NaN], [Num(1), Num(0)];
    forall k: nat ensures At(xs, k) == At(ys, k) {
    }
    AgreeingCompareEqual(xs, ys);
  }

  /** Components compare as numbers, not as text: "1.10" is newer than "1.9". */
  lemma NumericNotTextual()
    ensures Cmp(Components("1.10"), Components("1.9")) == 1
  {
    ComponentsOneDotTen();
    ComponentsOneDotNine();
    var xs, ys := [Num(1), Num(10)], [Num(1), Num(9)];
    FirstDifferenceDecides(xs, ys, 1);
  }
}
