/** The phone-number rules of public/js/main.js: the check that a number
    is a Kenyan number in international form, and the normaliser the
    phone field applies on every keystroke. */
module Phone {
  import opened Text

  const CountryCode: string := "254"

  /** `validatePhoneNumber`: `/^254[0-9]{9}$/`. */
  predicate ValidPhone(s: string) {
    |s| == 12 && StartsWith(s, CountryCode) && AllDigits(s)
  }

  /** `replace(/\D/g, '')`: the ASCII digits of `s`, in order. */
  function StripNonDigits(s: string): (d: string)
    ensures AllDigits(d) && |d| <= |s|
    ensures AllDigits(s) ==> d == s
    ensures forall c :: c in d <==> c in s && IsDigit(c)
  {
    if s == [] then []
    else
      var rest := StripNonDigits(s[1..]);
      assert forall c :: c in s <==> c == s[0] || c in s[1..];
      if IsDigit(s[0]) then [s[0]] + rest else rest
  }

  /** One character is kept exactly when it is a digit. */
  lemma StripOne(c: char)
    ensures StripNonDigits([c]) == if IsDigit(c) then [c] else []
  {
    assert [c][1..] == [];
  }

  /** Stripping works piece by piece: the digits of a concatenation are
      the digits of the first part followed by those of the second, so
      the digits keep their order. */
  lemma {:induction false} StripAppend(a: string, b: string)
    ensures StripNonDigits(a + b) == StripNonDigits(a) + StripNonDigits(b)
  {
    if a == [] {
      assert a + b == b;
    } else {
      assert (a + b)[1..] == a[1..] + b;
      StripAppend(a[1..], b);
    }
  }

  /** The `input` listener: strip the non-digits, then replace a leading
      `0` by the country code, or put the country code in front of nine
      digits starting with `7`. */
  function Normalize(s: string): (r: string)
    ensures AllDigits(r)
    ensures var d := StripNonDigits(s);
      && (|d| >= 1 && d[0] == '0' ==> r == CountryCode + d[1..])
      && (|d| == 9 && d[0] == '7' ==> r == CountryCode + d)
      && (!(|d| >= 1 && d[0] == '0') && !(|d| == 9 && d[0] == '7') ==> r == d)
  {
    var d := StripNonDigits(s);
    if StartsWith(d, "0") then
      var r := CountryCode + d[1..];
      assert AllDigits(CountryCode);
      r
    else if StartsWith(d, "7") && |d| == 9 then
      assert AllDigits(CountryCode);
      CountryCode + d
    else d
  }

  /** Normalising twice gives what normalising once gave: the result
      either starts with `2` or was already left alone. */
  lemma NormalizeIdempotent(s: string)
    ensures Normalize(Normalize(s)) == Normalize(s)
  {
    var r := Normalize(s);
    assert StripNonDigits(r) == r;
    var d := StripNonDigits(s);
    if |d| >= 1 && d[0] == '0' {
      assert r[0] == '2';
    } else if |d| == 9 && d[0] == '7' {
      assert r[0] == '2';
    }
  }

  /** Exactly the inputs whose digits are a local number `0XXXXXXXXX`, a
      short number `7XXXXXXXX` or an international number `254XXXXXXXXX`
      normalise to a number that passes validation. */
  lemma NormalizedValid(s: string)
    ensures var d := StripNonDigits(s);
      ValidPhone(Normalize(s)) <==>
        (|d| == 10 && d[0] == '0') || (|d| == 9 && d[0] == '7') || (|d| == 12 && StartsWith(d, CountryCode))
  {
    var d := StripNonDigits(s);
    var r := Normalize(s);
    if |d| >= 1 && d[0] == '0' {
      assert r == CountryCode + d[1..];
      assert |r| == |d| + 2;
      assert r[..3] == CountryCode;
      assert !StartsWith(d, CountryCode);
    } else if |d| == 9 && d[0] == '7' {
      assert r == CountryCode + d;
      assert r[..3] == CountryCode;
    } else {
      assert r == d;
    }
  }

  /** A zero followed by nine digits, or a seven followed by eight digits,
      becomes a valid number. */
  lemma LocalNumbersBecomeValid(rest: string)
    requires AllDigits(rest)
    ensures |rest| == 9 ==> ValidPhone(Normalize("0" + rest))
    ensures |rest| == 8 ==> ValidPhone(Normalize("7" + rest))
  {
    assert AllDigits("0" + rest) && AllDigits("7" + rest);
    NormalizedValid("0" + rest);
    NormalizedValid("7" + rest);
  }
}
