/** Phone-number normalisation of the payment initiation handler
    (app/api/mpesa/route.ts): the gateway wants the payer's number in the
    international form for Kenya, country code 254 (ITU-T E.164) and no `+`. */
module Phone {

  import opened Text

  const CountryCode := "254"

  /** `formattedPhone` after the if/else chain: whitespace is removed, a
      leading trunk `0` is replaced by 254, a leading `+` is dropped, and any
      other number that does not already start with 254 gets 254 in front. */
  function Normalize(phone: string): (r: string)
    ensures NoWhitespace(r)
    ensures !StartsWith(StripWhitespace(phone), "+") ==> StartsWith(r, CountryCode)
    ensures NoWhitespace(phone) && StartsWith(phone, CountryCode) ==> r == phone
    ensures |r| <= |StripWhitespace(phone)| + 3
  {
    var formatted := StripWhitespace(phone);
    if StartsWith(formatted, "0") then CountryCode + formatted[1..]
    else if StartsWith(formatted, "+") then formatted[1..]
    else if !StartsWith(formatted, CountryCode) then CountryCode + formatted
    else formatted
  }

  /** The four rules, each applied to the number with its whitespace removed. */
  lemma NormalizeRules(phone: string)
    ensures var f := StripWhitespace(phone);
      && (StartsWith(f, "0") ==> Normalize(phone) == "254" + f[1..])
      && (StartsWith(f, "+") ==> Normalize(phone) == f[1..])
      && (!StartsWith(f, "0") && !StartsWith(f, "+") && !StartsWith(f, "254") ==> Normalize(phone) == "254" + f)
      && (StartsWith(f, "254") ==> Normalize(phone) == f)
  {
  }

  /** A normalised number is a fixed point, unless the input started with `+`
      (that rule only drops the sign, and what follows may start with `0`). */
  lemma {:induction false} NormalizeIdempotent(phone: string)
    requires !StartsWith(StripWhitespace(phone), "+")
    ensures Normalize(Normalize(phone)) == Normalize(phone)
  {
    var r := Normalize(phone);
    assert NoWhitespace(r) && StartsWith(r, CountryCode);
    assert StripWhitespace(r) == r;
    assert !StartsWith(r, "0") && !StartsWith(r, "+") by {
      assert r[0] == '2';
    }
  }

  /** A national number written in groups, such as `0712 345 678`, becomes
      254 followed by its digits without the trunk `0`: `254712345678`. */
  lemma NormalizeGroupedNational(a: string, b: string, c: string)
    requires NoWhitespace(a) && NoWhitespace(b) && NoWhitespace(c)
    ensures Normalize("0" + a + " " + b + " " + c) == "254" + a + b + c
  {
    var f := StripWhitespace("0" + a + " " + b + " " + c);
    StripGrouped(a, b, c);
    assert f[..1] == "0";
    assert f[1..] == a + b + c;
    assert "254" + (a + b + c) == "254" + a + b + c;
  }

  lemma StripSpace()
    ensures StripWhitespace(" ") == []
  {
    assert IsWhitespace(" "[0]);
    assert " "[1..] == [];
  }

  /** Removing whitespace around one space joins the two sides. */
  lemma SpaceJoin(x: string, y: string)
    ensures StripWhitespace(x + " " + y) == StripWhitespace(x) + StripWhitespace(y)
  {
    StripWhitespaceAppend(x + " ", y);
    StripWhitespaceAppend(x, " ");
    StripSpace();
  }

  lemma TrunkPrefixNoWhitespace(a: string)
    requires NoWhitespace(a)
    ensures NoWhitespace("0" + a)
  {
    var z := "0" + a;
    assert forall i :: 1 <= i < |z| ==> z[i] == a[i - 1];
  }

  lemma StripGrouped(a: string, b: string, c: string)
    requires NoWhitespace(a) && NoWhitespace(b) && NoWhitespace(c)
    ensures StripWhitespace("0" + a + " " + b + " " + c) == "0" + a + b + c
  {
    var z := "0" + a;
    TrunkPrefixNoWhitespace(a);
    assert StripWhitespace(z) == z;
    SpaceJoin(z + " " + b, c);
    SpaceJoin(z, b);
  }
}
