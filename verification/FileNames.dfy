/**
 Why files can be ordered by (kind, time stamp): the names that Push renders, compared as the strings that
 ReadDir sorts, come in that order whenever the time stamps have the same number of digits.
 */
module FileNames {
  import opened Strings
  import opened CacheSpec

  function Digit(d: nat): char
    requires d < 10
  {
    '0' + d as char
  }

  /** %d */
  function Decimal(n: nat): string {
    if n < 10 then [Digit(n)] else Decimal(n / 10) + [Digit(n % 10)]
  }

  function KindName(k: Kind): string {
    match k case Logs => "logs" case Metrics => "metrics"
  }

  function FileName(k: Kind, stamp: nat): string {
    KindName(k) + ("_" + (Decimal(stamp) + ".json"))
  }

  lemma DigitOrder(a: nat, b: nat)
    requires a < 10 && b < 10
    ensures Less([Digit(a)], [Digit(b)]) <==> a < b
    ensures Digit(a) == Digit(b) <==> a == b
  {
  }

  /** Decimal numbers of one length sort as the numbers they show. */
  lemma {:induction false} DecimalOrder(a: nat, b: nat)
    requires |Decimal(a)| == |Decimal(b)|
    ensures Less(Decimal(a), Decimal(b)) <==> a < b
    ensures Decimal(a) == Decimal(b) <==> a == b
  {
    DigitOrder(a % 10, b % 10);
    if a >= 10 {
      DecimalOrder(a / 10, b / 10);
      var da, db, la, lb := Decimal(a / 10), Decimal(b / 10), [Digit(a % 10)], [Digit(b % 10)];
      assert Decimal(a) == da + la && Decimal(b) == db + lb;
      LessConcat(da, db, la, lb);
      if da + la == db + lb {
        assert da == (da + la)[..|da|] && la == (da + la)[|da|..];
        assert db == (db + lb)[..|db|] && lb == (db + lb)[|db|..];
      }
    }
  }

  lemma SamePrefix(p: string, x: string, y: string)
    ensures Less(p + x, p + y) <==> Less(x, y)
    ensures p + x == p + y <==> x == y
  {
    LessTrichotomy(p, p);
    LessConcat(p, p, x, y);
    if p + x == p + y {
      assert x == (p + x)[|p|..] == (p + y)[|p|..] == y;
    }
  }

  lemma SameSuffix(x: string, y: string, t: string)
    requires |x| == |y|
    ensures Less(x + t, y + t) <==> Less(x, y)
    ensures x + t == y + t <==> x == y
  {
    LessTrichotomy(t, t);
    LessConcat(x, y, t, t);
    if x + t == y + t {
      assert x == (x + t)[..|x|] == (y + t)[..|y|] == y;
    }
  }

  lemma {:induction false} DecimalIsNotEmpty(n: nat)
    ensures Decimal(n) != "" && forall i | 0 <= i < |Decimal(n)| :: '0' <= Decimal(n)[i] <= '9'
  {
    if n >= 10 {
      DecimalIsNotEmpty(n / 10);
    }
  }

  /** File names of one digit count sort as the model orders files. */
  lemma FileNameOrder(k: Kind, a: nat, l: Kind, b: nat)
    requires |Decimal(a)| == |Decimal(b)|
    ensures Less(FileName(k, a), FileName(l, b)) <==> NameLess(File(k, a, 0, 0, 0), File(l, b, 0, 0, 0))
  {
    if k == l {
      SameStart(k, a, b);
      SameSuffix(Decimal(a), Decimal(b), ".json");
      DecimalOrder(a, b);
    } else {
      assert FileName(k, a)[0] != FileName(l, b)[0];
    }
  }

  /** Different entries have different names, whatever their digit counts. */
  lemma FileNamesDiffer(k: Kind, a: nat, l: Kind, b: nat)
    ensures FileName(k, a) == FileName(l, b) <==> k == l && a == b
  {
    if k != l {
      assert FileName(k, a)[0] != FileName(l, b)[0];
    } else if FileName(k, a) == FileName(l, b) {
      SameStart(k, a, b);
      assert |Decimal(a) + ".json"| == |Decimal(b) + ".json"|;
      SameSuffix(Decimal(a), Decimal(b), ".json");
      DecimalOrder(a, b);
    }
  }

  /** b without its last n decimal digits: divided by 10, n times. */
  function Leading(b: nat, n: nat): nat {
    if n == 0 then b else Leading(b / 10, n - 1)
  }

  lemma {:induction false} LeadingDigits(b: nat, n: nat)
    requires n < |Decimal(b)|
    ensures Decimal(b)[..|Decimal(b)| - n] == Decimal(Leading(b, n))
  {
    if n > 0 {
      DecimalIsNotEmpty(b / 10);
      LeadingDigits(b / 10, n - 1);
      assert Decimal(b) == Decimal(b / 10) + [Digit(b % 10)];
      assert Decimal(b)[..|Decimal(b)| - n] == Decimal(b / 10)[..|Decimal(b / 10)| - (n - 1)];
    }
  }

  lemma DotComesFirst(rest: string)
    requires rest != "" && rest[0] >= '0'
    ensures Less(".json", rest + ".json")
  {
    assert (rest + ".json")[0] == rest[0];
  }

  lemma SameStart(k: Kind, a: nat, b: nat)
    ensures Less(FileName(k, a), FileName(k, b)) <==> Less(Decimal(a) + ".json", Decimal(b) + ".json")
    ensures FileName(k, a) == FileName(k, b) <==> Decimal(a) + ".json" == Decimal(b) + ".json"
  {
    var x, y := Decimal(a) + ".json", Decimal(b) + ".json";
    SamePrefix(KindName(k), "_" + x, "_" + y);
    SamePrefix("_", x, y);
  }

  lemma ShorterNumeral(da: string, db: string, lead: string, rest: string)
    requires db == lead + rest && |da| == |lead| && rest != "" && rest[0] >= '0'
    ensures Less(da + ".json", db + ".json") <==> Less(da, lead) || da == lead
  {
    assert db + ".json" == lead + (rest + ".json");
    LessConcat(da, lead, ".json", rest + ".json");
    DotComesFirst(rest);
  }

  /**
   With unequal digit counts the shorter stamp's name comes first exactly when it does not exceed the leading
   digits of the longer one.
   */
  lemma OrderOfUnequalDigits(k: Kind, a: nat, b: nat)
    requires |Decimal(a)| < |Decimal(b)|
    ensures Less(FileName(k, a), FileName(k, b)) <==> a <= Leading(b, |Decimal(b)| - |Decimal(a)|)
  {
    var da, db, n := Decimal(a), Decimal(b), |Decimal(b)| - |Decimal(a)|;
    DecimalIsNotEmpty(a);
    DecimalIsNotEmpty(b);
    SameStart(k, a, b);
    ShorterNumeral(da, db, db[..|da|], db[|da|..]);
    LeadingDigits(b, n);
    DecimalOrder(a, Leading(b, n));
  }

  lemma {:induction false} FewerDigitsAreLess(a: nat, b: nat)
    requires |Decimal(a)| < |Decimal(b)|
    ensures a < b
  {
    if b < 10 {
      DecimalIsNotEmpty(a);
    } else if a >= 10 {
      FewerDigitsAreLess(a / 10, b / 10);
    }
  }

  /** Names of one kind sort as their stamps, exactly in the cases where they have to. */
  lemma NamesSortByTimeExactly(k: Kind, a: nat, b: nat)
    requires a < b
    ensures Less(FileName(k, a), FileName(k, b)) <==>
      || |Decimal(a)| == |Decimal(b)|
      || (|Decimal(a)| < |Decimal(b)| && a <= Leading(b, |Decimal(b)| - |Decimal(a)|))
  {
    if |Decimal(a)| < |Decimal(b)| {
      OrderOfUnequalDigits(k, a, b);
    } else if |Decimal(b)| < |Decimal(a)| {
      FewerDigitsAreLess(b, a);
    } else {
      FileNameOrder(k, a, k, b);
    }
  }

  /** Without equal digit counts it can fail: 10 sorts before 9. */
  lemma DigitCountsMatter()
    ensures Less(FileName(Metrics, 10), FileName(Metrics, 9))
  {
    var x, y := "0.json", ".json";
    assert Decimal(10) == "10" && Decimal(9) == "9";
    LessConcat("metrics_", "metrics_", "10.json", "9.json");
    assert FileName(Metrics, 10) == "metrics_" + "10.json" && FileName(Metrics, 9) == "metrics_" + "9.json";
    assert Less("10.json", "9.json");
  }
}
