/** The object-storage key an uploaded image is stored under:
    the file's name, a hyphen, then the upload time in milliseconds written
    in decimal (`${file.name}-${Date.now()}`). */
module StorageKey {

  predicate IsDigit(c: char) {
    '0' <= c <= '9'
  }

  predicate AllDigits(s: string) {
    forall i :: 0 <= i < |s| ==> IsDigit(s[i])
  }

  /** The character for a digit value below ten. */
  function DigitChar(d: nat): (c: char)
    requires d < 10
    ensures IsDigit(c)
    ensures c as int - '0' as int == d
  {
    ('0' as int + d) as char
  }

  /** A natural number written in decimal, most significant digit first,
      without leading zeros, as a JavaScript template literal renders every
      integer below 10^21, which covers every `Date.now()` reading. */
  function Decimal(n: nat): (s: string)
    ensures |s| >= 1 && AllDigits(s)
    ensures n >= 10 ==> |s| >= 2
    ensures |s| > 1 ==> s[0] != '0'
  {
    if n < 10 then [DigitChar(n)]
    else Decimal(n / 10) + [DigitChar(n % 10)]
  }

  /** Reads back a string of decimal digits. */
  function ParseDecimal(s: string): (n: nat)
    requires AllDigits(s)
  {
    if s == [] then 0
    else ParseDecimal(s[..|s| - 1]) * 10 + (s[|s| - 1] as int - '0' as int)
  }

  /** Reading back the decimal rendering gives the number. */
  lemma {:induction false} ParseDecimalOfDecimal(n: nat)
    ensures ParseDecimal(Decimal(n)) == n
  {
    var s := Decimal(n);
    if n < 10 {
      assert s[..|s| - 1] == [];
    } else {
      assert s[..|s| - 1] == Decimal(n / 10);
      ParseDecimalOfDecimal(n / 10);
    }
  }

  /** The storage key of `uploadImage`. */
  function FilePath(name: string, now: nat): (key: string)
    ensures |key| > |name| + 1
    ensures key[..|name|] == name && key[|name|] == '-'
    ensures key[|name| + 1..] == Decimal(now)
  {
    name + "-" + Decimal(now)
  }

  /** The hyphen before the timestamp is the last one in the key, so the key
      determines both the file name and the timestamp: two uploads collide
      only when they share the name and the millisecond. */
  lemma FilePathInjective(name1: string, now1: nat, name2: string, now2: nat)
    requires FilePath(name1, now1) == FilePath(name2, now2)
    ensures name1 == name2 && now1 == now2
  {
    var key := FilePath(name1, now1);
    var d1, d2 := Decimal(now1), Decimal(now2);
    assert key[|name1|] == '-' && key[|name2|] == '-';
    assert |name1| == |name2|;
    assert name1 == key[..|name1|] == name2;
    assert d1 == key[|name1| + 1..] == d2;
    ParseDecimalOfDecimal(now1);
    ParseDecimalOfDecimal(now2);
  }

  /** For one file name, uploads at distinct milliseconds get distinct keys. */
  lemma DistinctTimestampsDistinctKeys(name: string, now1: nat, now2: nat)
    requires now1 != now2
    ensures FilePath(name, now1) != FilePath(name, now2)
  {
    if FilePath(name, now1) == FilePath(name, now2) {
      FilePathInjective(name, now1, name, now2);
    }
  }
}
