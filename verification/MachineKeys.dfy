/**
 Org-prefixed machine keys: `nc<org>_<base>`. A name here is never absent; the source treats `None` as "".
 Digits are ASCII digits.
 */
module MachineKeys {
  import opened Prelude

  const ORG_KEY_PREFIX := "nc"

  // ---- Decimal numbers ---------------------------------------------------------------------------

  /** Python's `int` on a string of digits. */
  function Number(s: string): nat
    requires AllDigits(s)
  {
    if s == "" then 0 else 10 * Number(s[..|s| - 1]) + (s[|s| - 1] as int - '0' as int)
  }

  function Decimal(n: int): string {
    if n < 0 then "-" + Digits(-n) else Digits(n)
  }

  predicate Canonical(s: string) {
    s == "0" || (s != "" && s[0] != '0')
  }

  lemma {:induction false} NumberOfDigits(n: nat)
    ensures Number(Digits(n)) == n
  {
    if n < 10 {
      assert [DigitChar(n)][..0] == "";
    } else {
      NumberOfDigits(n / 10);
      assert Digits(n)[..|Digits(n)| - 1] == Digits(n / 10);
    }
  }

  lemma {:induction false} PositiveNumber(s: string)
    requires AllDigits(s) && s != "" && s[0] != '0'
    ensures Number(s) >= 1
  {
    var rest := s[..|s| - 1];
    if rest != "" { PositiveNumber(rest); }
  }

  /** A number written without leading zeros is written the way it is printed. */
  lemma {:induction false} DigitsOfNumber(s: string)
    requires AllDigits(s) && Canonical(s)
    ensures Digits(Number(s)) == s
  {
    var rest, last := s[..|s| - 1], s[|s| - 1];
    var d := last as int - '0' as int;
    assert DigitChar(d) == last;
    assert s == rest + [last];
    if rest != "" {
      DigitsOfNumber(rest);
      PositiveNumber(rest);
      assert Number(s) / 10 == Number(rest) && Number(s) % 10 == d;
    }
  }

  // ---- The key functions --------------------------------------------------------------------------

  /** How many leading characters are digits. */
  function DigitRun(s: string): (n: nat)
    ensures n <= |s| && AllDigits(s[..n]) && (n < |s| ==> !IsDigit(s[n]))
  {
    if s != "" && IsDigit(s[0]) then 1 + DigitRun(s[1..]) else 0
  }

  datatype Key = Key(digits: string, base: string)

  /** The pattern match: a greedy run of digits, then an underscore, then everything else. */
  function Match(name: string): (key: Option<Key>)
    ensures key.Some? ==> AllDigits(key.value.digits)
  {
    if |name| < 2 || name[..2] != ORG_KEY_PREFIX then None
    else
      var n := DigitRun(name[2..]);
      if n == 0 || n == |name[2..]| || name[2..][n] != '_' then None
      else Some(Key(name[2..][..n], name[2..][n + 1..]))
  }

  function OrgPrefix(org: int): string {
    ORG_KEY_PREFIX + Decimal(org) + "_"
  }

  function BaseKey(name: string): string {
    var m := Match(name);
    if m.Some? then m.value.base else name
  }

  function OrgKey(name: string, org: int): string {
    OrgPrefix(org) + BaseKey(name)
  }

  function KeyOwner(name: string): Option<nat> {
    var m := Match(name);
    if m.Some? then Some(Number(m.value.digits)) else None
  }

  predicate IsOrgKey(name: string, org: int) {
    KeyOwner(name).Some? && KeyOwner(name).value == org
  }

  // ---- The algebra ---------------------------------------------------------------------------------

  /** What the pattern says: the prefix, at least one digit, an underscore, anything. */
  predicate Spells(name: string, key: Key) {
    AllDigits(key.digits) && key.digits != "" && name == ORG_KEY_PREFIX + key.digits + "_" + key.base
  }

  lemma {:induction false} DigitRunOf(digits: string, rest: string)
    requires AllDigits(digits) && (rest != "" ==> !IsDigit(rest[0]))
    ensures DigitRun(digits + rest) == |digits|
  {
    if digits != "" {
      assert (digits + rest)[1..] == digits[1..] + rest;
      DigitRunOf(digits[1..], rest);
    } else {
      assert digits + rest == rest;
    }
  }

  lemma SpelledTail(name: string, key: Key)
    requires Spells(name, key)
    ensures |name| >= 2 && name[..2] == ORG_KEY_PREFIX && name[2..] == key.digits + ("_" + key.base)
  {}

  lemma SpelledIsMatched(name: string, key: Key)
    requires Spells(name, key)
    ensures Match(name) == Some(key)
  {
    SpelledTail(name, key);
    var tail, n := name[2..], |key.digits|;
    DigitRunOf(key.digits, "_" + key.base);
    assert tail[..n] == key.digits;
    assert tail[n] == '_' && tail[n + 1..] == key.base;
  }

  lemma MatchedIsSpelled(name: string, key: Key)
    requires Match(name) == Some(key)
    ensures Spells(name, key)
  {
    var tail := name[2..];
    var n := DigitRun(tail);
    assert key.digits == tail[..n] && key.base == tail[n + 1..] && tail[n] == '_';
    assert tail == tail[..n] + "_" + tail[n + 1..];
    assert name == name[..2] + tail;
  }

  /** The greedy match finds exactly the spelled key, so a name has at most one reading. */
  lemma MatchIsSpelling(name: string, key: Key)
    ensures Match(name) == Some(key) <==> Spells(name, key)
  {
    if Spells(name, key) { SpelledIsMatched(name, key); }
    if Match(name) == Some(key) { MatchedIsSpelled(name, key); }
  }

  lemma OrgKeySpells(name: string, org: nat)
    ensures Match(OrgKey(name, org)) == Some(Key(Digits(org), BaseKey(name)))
  {
    MatchIsSpelling(OrgKey(name, org), Key(Digits(org), BaseKey(name)));
  }

  lemma {:induction false} LeadingZero(s: string)
    requires AllDigits(s)
    ensures Number("0" + s) == Number(s)
  {
    var padded := "0" + s;
    if s == "" {
      assert padded[..|padded| - 1] == "";
    } else {
      assert padded[..|padded| - 1] == "0" + s[..|s| - 1] && padded[|padded| - 1] == s[|s| - 1];
      LeadingZero(s[..|s| - 1]);
    }
  }

  lemma ReadKey(digits: string, base: string)
    requires AllDigits(digits) && digits != ""
    ensures KeyOwner("nc" + digits + "_" + base) == Some(Number(digits))
    ensures BaseKey("nc" + digits + "_" + base) == base
  {
    SpelledIsMatched("nc" + digits + "_" + base, Key(digits, base));
  }

  /** Leading zeros in a key do not change whose key it is, nor its base. */
  lemma LeadingZerosAreRead(digits: string, base: string)
    requires AllDigits(digits) && digits != ""
    ensures KeyOwner("nc" + ("0" + digits) + "_" + base) == KeyOwner("nc" + digits + "_" + base) == Some(Number(digits))
    ensures BaseKey("nc" + ("0" + digits) + "_" + base) == BaseKey("nc" + digits + "_" + base) == base
  {
    ReadKey("0" + digits, base);
    ReadKey(digits, base);
    LeadingZero(digits);
  }

  /** `key_owner` and `base_key` take `org_key` apart, for every name. */
  lemma OwnerAndBaseInvert(name: string, org: nat)
    ensures KeyOwner(OrgKey(name, org)) == Some(org) && IsOrgKey(OrgKey(name, org), org)
    ensures BaseKey(OrgKey(name, org)) == BaseKey(name)
  {
    OrgKeySpells(name, org);
    NumberOfDigits(org);
  }

  /** The round trip holds exactly for the ids that print without a sign. */
  lemma RoundTripExactly(name: string, org: int)
    ensures IsOrgKey(OrgKey(name, org), org) <==> org >= 0
  {
    if org >= 0 {
      OwnerAndBaseInvert(name, org);
    } else {
      SignedIsUnmatched(name, org);
    }
  }

  /** A key built for a negative id is no key to the pattern. */
  lemma SignedIsUnmatched(name: string, org: int)
    requires org < 0
    ensures Match(OrgKey(name, org)).None?
  {
    var key := OrgKey(name, org);
    assert key[2..][0] == '-';
    assert DigitRun(key[2..]) == 0;
  }

  /** Re-homing replaces the prefix rather than nesting it exactly when the old owner's id prints without a sign. */
  lemma RehomingReplacesExactly(name: string, from: int, to: int)
    ensures OrgKey(OrgKey(name, from), to) == OrgKey(name, to) <==> from >= 0
  {
    if from >= 0 {
      OwnerAndBaseInvert(name, from);
    } else {
      SignedIsUnmatched(name, from);
      assert |OrgKey(OrgKey(name, from), to)| > |OrgKey(name, to)|;
    }
  }

  /** Behind the sign, a key for a negative id reads like one for the positive id. */
  lemma SignedTail(name: string, org: int)
    requires org < 0
    ensures OrgKey(name, -org) == "nc" + OrgKey(name, org)[3..]
  {
    var tail := Digits(-org) + "_" + BaseKey(name);
    assert OrgKey(name, org) == "nc-" + tail && OrgKey(name, -org) == "nc" + tail;
  }

  lemma UnsignedKeysEqual(name1: string, org1: nat, name2: string, org2: nat)
    requires OrgKey(name1, org1) == OrgKey(name2, org2)
    ensures org1 == org2 && BaseKey(name1) == BaseKey(name2)
  {
    OwnerAndBaseInvert(name1, org1);
    OwnerAndBaseInvert(name2, org2);
  }

  lemma MatchedByUnsigned(name: string, org: int)
    ensures Match(OrgKey(name, org)).Some? <==> org >= 0
  {
    if org < 0 { SignedIsUnmatched(name, org); } else { OrgKeySpells(name, org); }
  }

  /** Two keys are equal exactly when their organizations and base keys are, whatever the sign of the ids. */
  lemma KeysEqualExactly(name1: string, org1: int, name2: string, org2: int)
    ensures OrgKey(name1, org1) == OrgKey(name2, org2) <==> org1 == org2 && BaseKey(name1) == BaseKey(name2)
  {
    if OrgKey(name1, org1) == OrgKey(name2, org2) {
      MatchedByUnsigned(name1, org1);
      MatchedByUnsigned(name2, org2);
      if org1 >= 0 {
        UnsignedKeysEqual(name1, org1, name2, org2);
      } else {
        SignedTail(name1, org1);
        SignedTail(name2, org2);
        UnsignedKeysEqual(name1, -org1, name2, -org2);
      }
    }
  }

  /** A name is its own key exactly when it is the organization's key written without leading zeros. */
  lemma FixedExactly(name: string, org: int)
    ensures OrgKey(name, org) == name <==>
            IsOrgKey(name, org) && Match(name).Some? && Canonical(Match(name).value.digits)
  {
    if org < 0 {
      SignedIsUnmatched(name, org);
    } else if OrgKey(name, org) == name {
      OrgKeySpells(name, org);
      NumberOfDigits(org);
    }
    if IsOrgKey(name, org) && Canonical(Match(name).value.digits) {
      var key := Match(name).value;
      DigitsOfNumber(key.digits);
      MatchIsSpelling(name, key);
    }
  }

  /** Taking the base twice takes off a second prefix exactly when the base is itself a key. */
  lemma BaseIsIdempotentExactly(name: string)
    ensures BaseKey(BaseKey(name)) == BaseKey(name) <==> KeyOwner(BaseKey(name)) == None
  {
    var base := BaseKey(name);
    if Match(base).Some? {
      MatchIsSpelling(base, Match(base).value);
    }
  }
}
