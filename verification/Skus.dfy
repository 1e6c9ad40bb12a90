/**
 The keys of generated records: a word without dashes, the base index in four digits, and
 a tail. No two base rows share a key, and none has a key reserved for the target.
 */
module Skus {

  const WORDS := {"GRID", "PARITY", "SYNC", "FLUX", "NODE", "MERIDIAN", "BOUNDARY"}
  const TARGET_ONLY := "GRID-TGT-ONLY-"
  const MAX_BASE: nat := 5000

  function Digit(d: nat): char
    requires d < 10
  {
    "0123456789"[d]
  }

  /** Four decimal digits with leading zeros. */
  function Digits(n: nat): string
    requires n < 10000
  {
    [Digit(n / 1000), Digit(n / 100 % 10), Digit(n / 10 % 10), Digit(n % 10)]
  }

  function Sku(word: string, base: nat, tail: string): string
    requires base < MAX_BASE
  {
    word + "-" + (Digits(base) + "-" + tail)
  }

  function TargetOnlySku(extra: nat): string
    requires extra < 9999
  {
    TARGET_ONLY + Digits(extra + 1)
  }

  predicate NoDash(word: string) { forall i :: 0 <= i < |word| ==> word[i] != '-' }

  lemma WordsHaveNoDash(word: string)
    requires word in WORDS
    ensures NoDash(word)
  {
  }

  /** The first dash ends the word. */
  lemma {:induction false} FirstDash(w1: string, r1: string, w2: string, r2: string)
    requires NoDash(w1) && NoDash(w2) && w1 + "-" + r1 == w2 + "-" + r2
    ensures w1 == w2 && r1 == r2
  {
    var s := w1 + "-" + r1;
    assert s[|w1|] == '-' && s[|w2|] == '-';
    assert s[..|w1|] == w1 && s[..|w2|] == w2;
    assert s[|w1| + 1..] == r1 && s[|w2| + 1..] == r2;
  }

  lemma DigitInjective(a: nat, b: nat)
    requires a < 10 && b < 10 && Digit(a) == Digit(b)
    ensures a == b
  {
  }

  lemma {:induction false} Recombine(n: nat)
    ensures n == 10 * (10 * (10 * (n / 1000) + n / 100 % 10) + n / 10 % 10) + n % 10
  {
    assert n / 100 == n / 10 / 10 && n / 1000 == n / 100 / 10;
  }

  lemma {:induction false} DigitsInjective(m: nat, n: nat)
    requires m < 10000 && n < 10000 && Digits(m) == Digits(n)
    ensures m == n
  {
    Recombine(m);
    Recombine(n);
    DigitInjective(m / 1000, n / 1000);
    DigitInjective(m / 100 % 10, n / 100 % 10);
    DigitInjective(m / 10 % 10, n / 10 % 10);
    DigitInjective(m % 10, n % 10);
  }

  /** Keys of different base rows differ, whatever words and tails the digest picks. */
  lemma {:induction false} SkusDiffer(w1: string, b1: nat, t1: string, w2: string, b2: nat, t2: string)
    requires w1 in WORDS && w2 in WORDS && b1 < MAX_BASE && b2 < MAX_BASE && b1 != b2
    ensures Sku(w1, b1, t1) != Sku(w2, b2, t2)
  {
    if Sku(w1, b1, t1) == Sku(w2, b2, t2) {
      WordsHaveNoDash(w1);
      WordsHaveNoDash(w2);
      FirstDash(w1, Digits(b1) + "-" + t1, w2, Digits(b2) + "-" + t2);
      SplitDigits(b1, t1, b2, t2);
    }
  }

  lemma {:induction false} SplitDigits(b1: nat, t1: string, b2: nat, t2: string)
    requires b1 < 10000 && b2 < 10000 && Digits(b1) + "-" + t1 == Digits(b2) + "-" + t2
    ensures b1 == b2
  {
    var s := Digits(b1) + "-" + t1;
    assert s[..4] == Digits(b1) && s[..4] == Digits(b2);
    DigitsInjective(b1, b2);
  }

  /** A reserved key is no base row's key. */
  lemma {:induction false} TargetOnlyDiffers(word: string, base: nat, tail: string, extra: nat)
    requires word in WORDS && base < MAX_BASE && extra < 9999
    ensures Sku(word, base, tail) != TargetOnlySku(extra)
  {
    var rest := "TGT-ONLY-" + Digits(extra + 1);
    assert TARGET_ONLY == "GRID" + "-" + "TGT-ONLY-";
    assert TargetOnlySku(extra) == "GRID" + "-" + rest;
    assert (Digits(base) + "-" + tail)[0] == Digit(base / 1000) != rest[0];
    if Sku(word, base, tail) == TargetOnlySku(extra) {
      WordsHaveNoDash(word);
      FirstDash(word, Digits(base) + "-" + tail, "GRID", rest);
    }
  }

  lemma {:induction false} TargetOnlyDistinct(a: nat, b: nat)
    requires a < 9999 && b < 9999 && a != b
    ensures TargetOnlySku(a) != TargetOnlySku(b)
  {
    if TargetOnlySku(a) == TargetOnlySku(b) {
      assert TargetOnlySku(a)[|TARGET_ONLY|..] == Digits(a + 1);
      assert TargetOnlySku(b)[|TARGET_ONLY|..] == Digits(b + 1);
      DigitsInjective(a + 1, b + 1);
    }
  }

  /** A generated key and a reserved one, written out. */
  lemma {:induction false} SkuExample()
    ensures Sku("GRID", 42, "AB") == "GRID" + "-" + "0042" + "-" + "AB"
    ensures TargetOnlySku(0) == "GRID-TGT-ONLY-" + "0001"
  {
    assert Digits(42) == "0042" && Digits(1) == "0001";
    assert "-" + ("0042" + "-" + "AB") == "-" + "0042" + "-" + "AB";
  }
}
