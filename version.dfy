/**
 * The datastore's major version, as the connector derives it from the
 * dotted version string the datastore reports, and the two version gates
 * that decide which backports run.
 */
module Version {
  import opened JsValues

  /** The first part of `s` split at dots: the text before the first '.', or all of `s` when it has none. */
  function MajorPrefix(s: string): (r: string)
    ensures r <= s
    ensures '.' !in r
    ensures |r| < |s| ==> s[|r|] == '.'
  {
    if s == [] || s[0] == '.' then [] else [s[0]] + MajorPrefix(s[1..])
  }

  predicate IsDigit(c: char) {
    '0' <= c <= '9'
  }

  predicate AllDigits(s: string) {
    forall i :: 0 <= i < |s| ==> IsDigit(s[i])
  }

  /** The number a string of decimal digits denotes (leading zeros allowed). */
  function DigitsValue(s: string): nat
    requires AllDigits(s)
  {
    if s == [] then 0 else 10 * DigitsValue(s[..|s| - 1]) + (s[|s| - 1] - '0') as int
  }

  /**
   * `Number(s)` on the strings this model covers: the empty string is 0, a
   * string of decimal digits is its value, anything else is NaN (None).
   */
  function Number(s: string): (r: Option<nat>)
    ensures r.Some? <==> AllDigits(s)
    ensures s == [] ==> r == Some(0)
  {
    if AllDigits(s) then Some(DigitsValue(s)) else None
  }

  /** The number the first dot-separated part of the reported version denotes; None stands for NaN. */
  function ParseMajor(version: string): Option<nat> {
    Number(MajorPrefix(version))
  }

  /** A major version of 2 or lower: mappings get legacy field types (false for NaN). */
  predicate BackportsFieldTypes(major: Option<nat>) {
    major.Some? && major.value <= 2
  }

  /** A major version of 5 or lower: saved UI documents get the per-type shape (false for NaN). */
  predicate BackportsKibanaDocs(major: Option<nat>) {
    major.Some? && major.value <= 5
  }

  /** The decimal text of `n`, without leading zeros: the form a datastore reports. */
  function Decimal(n: nat): string
    decreases n
  {
    (if n < 10 then "" else Decimal(n / 10)) + [('0' as int + n % 10) as char]
  }

  lemma {:induction false} DecimalDigits(n: nat)
    ensures |Decimal(n)| > 0 && AllDigits(Decimal(n))
    ensures DigitsValue(Decimal(n)) == n
    decreases n
  {
    var d := Decimal(n);
    var digit := n % 10;
    var last := [('0' as int + digit) as char];
    assert IsDigit(last[0]) && (last[0] - '0') as int == digit;
    if n < 10 {
      assert d == last;
    } else {
      DecimalDigits(n / 10);
      assert d == Decimal(n / 10) + last;
      assert d[..|d| - 1] == Decimal(n / 10) && d[|d| - 1] == last[0];
      assert n == 10 * (n / 10) + digit;
    }
  }

  lemma {:induction false} MajorPrefixStopsAtDot(a: string, b: string)
    requires '.' !in a
    ensures MajorPrefix(a + "." + b) == a
    decreases |a|
  {
    if a == [] {
      assert (a + "." + b)[0] == '.';
    } else {
      assert (a + "." + b)[1..] == a[1..] + "." + b;
      MajorPrefixStopsAtDot(a[1..], b);
    }
  }

  /** Reading back the major version of any "<major>.<rest>" version string gives that major. */
  lemma ParseMajorOfDotted(major: nat, rest: string)
    ensures ParseMajor(Decimal(major) + "." + rest) == Some(major)
  {
    DecimalDigits(major);
    assert '.' !in Decimal(major) by {
      forall i | 0 <= i < |Decimal(major)| ensures Decimal(major)[i] != '.' {
        assert IsDigit(Decimal(major)[i]);
      }
    }
    MajorPrefixStopsAtDot(Decimal(major), rest);
  }

  /** For version "<major>.<rest>": field types are backported iff major <= 2, UI documents iff major <= 5. */
  lemma GatesOfDotted(major: nat, rest: string)
    ensures BackportsFieldTypes(ParseMajor(Decimal(major) + "." + rest)) <==> major <= 2
    ensures BackportsKibanaDocs(ParseMajor(Decimal(major) + "." + rest)) <==> major <= 5
  {
    ParseMajorOfDotted(major, rest);
  }

  /** A major part that is not a digit string is NaN: no backport of either kind runs. */
  lemma NonNumericMajorSkipsBackports(version: string)
    requires !AllDigits(MajorPrefix(version))
    ensures ParseMajor(version) == None
    ensures !BackportsFieldTypes(ParseMajor(version)) && !BackportsKibanaDocs(ParseMajor(version))
  {
  }
}
