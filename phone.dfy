// The phone normalizer: `normalize_phone` and its country table.
module Phone {
  import opened Text

  datatype Option<T> = None | Some(value: T)

  /** The country table shipped with the tool: country key to calling code. */
  const CountryCodes: map<string, string> := map["KE" := "254"]

  /** The triple `normalize_phone` returns. */
  datatype Normalized = Normalized(phone: string, applied00: bool, appliedCountry: bool)

  /** The string the country rules inspect: the stripped phone with a
      leading "00" rewritten to "+". */
  function Prepared(phone: string): string {
    var s := Strip(phone);
    if StartsWith(s, "00") then "+" + s[2..] else s
  }

  /** The calling code that applies, if the country key is given and known. */
  function CallingCode(country: Option<string>, table: map<string, string>): Option<string> {
    if country.Some? && country.value in table then Some(table[country.value]) else None
  }

  /** `normalize_phone(phone, country)` with the country table as a parameter. */
  function Normalize(phone: string, country: Option<string>, table: map<string, string>): Normalized
  {
    if phone == "" then Normalized(phone, false, false)
    else
      var n00 := StartsWith(Strip(phone), "00");
      var t := Prepared(phone);
      if country.Some? && country.value in table then
        var cc := table[country.value];
        if StartsWith(t, "0") && |t| >= 9 then
          Normalized("+" + cc + t[1..], n00, true)
        else if StartsWith(t, cc) && !StartsWith(t, "+") then
          Normalized("+" + t, n00, true)
        else if StartsWith(t, "7") && |t| >= 9 then
          Normalized("+" + cc + t, n00, true)
        else
          Normalized(t, n00, false)
      else
        Normalized(t, n00, false)
  }

  /** What the flags report: an empty phone passes through untouched; the
      "00" flag is set exactly when the stripped phone starts with "00", and
      then the result is "+" and the rest; the rewrite leaves a "+" in front,
      so no country rule can fire after it and the two flags are never both
      set; a country rule fires only for a known country and leaves "+cc" in
      front; with no flag set the result is the stripped phone. */
  lemma NormalizeFlags(phone: string, country: Option<string>, table: map<string, string>)
    ensures var r := Normalize(phone, country, table);
      && (phone == "" ==> r == Normalized("", false, false))
      && (r.applied00 <==> phone != "" && StartsWith(Strip(phone), "00"))
      && !(r.applied00 && r.appliedCountry)
      && (r.applied00 ==> r.phone == "+" + Strip(phone)[2..])
      && (!r.applied00 && !r.appliedCountry ==> r.phone == Strip(phone))
      && (CallingCode(country, table).None? ==> !r.appliedCountry)
      && (r.appliedCountry ==> StartsWith(r.phone, "+" + CallingCode(country, table).value))
      && (r.applied00 || r.appliedCountry ==> StartsWith(r.phone, "+"))
  {
  }

  /** With a known country, exactly the first matching rule fires, in the
      order leading "0", bare calling code, leading "7"; otherwise the
      prepared string is returned. */
  lemma CountryRules(phone: string, country: Option<string>, table: map<string, string>)
    requires phone != "" && CallingCode(country, table).Some?
    ensures var t, cc, r := Prepared(phone), CallingCode(country, table).value, Normalize(phone, country, table);
      var zero, bare, seven := StartsWith(t, "0") && |t| >= 9,
                               StartsWith(t, cc) && !StartsWith(t, "+"),
                               StartsWith(t, "7") && |t| >= 9;
      && (r.appliedCountry <==> zero || bare || seven)
      && (zero ==> r.phone == "+" + cc + t[1..])
      && (!zero && bare ==> r.phone == "+" + t)
      && (!zero && !bare && seven ==> r.phone == "+" + cc + t)
      && (!(zero || bare || seven) ==> r.phone == t)
  {
  }

  /** Without a known country only the strip and the "00" rewrite apply. */
  lemma NoCountry(phone: string, country: Option<string>, table: map<string, string>)
    requires phone != "" && CallingCode(country, table).None?
    ensures Normalize(phone, country, table) == Normalized(Prepared(phone), StartsWith(Strip(phone), "00"), false)
  {
  }

  /** A stripped phone that already begins with "+" passes through unchanged. */
  lemma PlusUnchanged(p: string, country: Option<string>, table: map<string, string>)
    requires StartsWith(p, "+") && !IsSpace(p[|p| - 1])
    ensures Normalize(p, country, table) == Normalized(p, false, false)
  {
    StripUnchanged(p);
    assert !StartsWith(p, "00") && !StartsWith(p, "0") && !StartsWith(p, "7");
  }

  /** The last character of a normalized phone is the last character of the
      prepared string, so it is never whitespace. */
  lemma {:induction false} NormalizedEnd(phone: string, country: Option<string>, table: map<string, string>)
    requires Normalize(phone, country, table).applied00 || Normalize(phone, country, table).appliedCountry
    ensures var p := Normalize(phone, country, table).phone;
            StartsWith(p, "+") && !IsSpace(p[|p| - 1])
  {
    var s := Strip(phone);
    var t := Prepared(phone);
    StripSpec(phone);
    assert t == [] || !IsSpace(t[|t| - 1]) by {
      if StartsWith(s, "00") && |s| > 2 { assert t[|t| - 1] == s[|s| - 1]; }
    }
    if CallingCode(country, table).Some? {
      CountryRules(phone, country, table);
    }
  }

  /** A phone on which no rule fired is normalized to its own strip, and
      normalizing that strip again fires nothing either. */
  lemma {:induction false} PlainUnchanged(phone: string, country: Option<string>, table: map<string, string>)
    requires phone != "" && Strip(phone) != ""
    requires !Normalize(phone, country, table).applied00 && !Normalize(phone, country, table).appliedCountry
    ensures Normalize(Strip(phone), country, table) == Normalized(Strip(phone), false, false)
  {
    var s := Strip(phone);
    StripIdempotent(phone);
    assert Prepared(s) == s == Prepared(phone);
    if CallingCode(country, table).Some? {
      CountryRules(phone, country, table);
      CountryRules(s, country, table);
    }
  }

  /** Normalizing an already normalized phone with the same country changes
      nothing and sets no flag. */
  lemma {:induction false} NormalizeIdempotent(phone: string, country: Option<string>, table: map<string, string>)
    ensures var p := Normalize(phone, country, table).phone;
            Normalize(p, country, table) == Normalized(p, false, false)
  {
    var r := Normalize(phone, country, table);
    if r.applied00 || r.appliedCountry {
      NormalizedEnd(phone, country, table);
      PlusUnchanged(r.phone, country, table);
    } else if phone != "" && Strip(phone) != "" {
      PlainUnchanged(phone, country, table);
    }
  }

  /** The examples worked out for Kenya ("KE" -> "254"). */
  lemma KenyaLeadingZero()
    ensures Normalize("0712345678", Some("KE"), CountryCodes) == Normalized("+254712345678", false, true)
  {
    StripUnchanged("0712345678");
    assert "0712345678"[..2][1] == '7';
    assert "+" + "254" + "0712345678"[1..] == "+254712345678";
  }

  lemma KenyaBareCallingCode()
    ensures Normalize("254712345678", Some("KE"), CountryCodes) == Normalized("+254712345678", false, true)
  {
    StripUnchanged("254712345678");
    assert "254712345678"[..2][0] == '2' && "254712345678"[..1][0] == '2';
    assert StartsWith("254712345678", "254") && "254712345678"[..1][0] == '2';
    assert "+" + "254712345678" == "+254712345678";
  }

  lemma KenyaBareSubscriber()
    ensures Normalize("712345678", Some("KE"), CountryCodes) == Normalized("+254712345678", false, true)
  {
    StripUnchanged("712345678");
    assert "712345678"[..2][0] == '7' && "712345678"[..1][0] == '7';
    assert "712345678"[..3][0] == '7' && StartsWith("712345678", "7");
    assert "+" + "254" + "712345678" == "+254712345678";
  }

  lemma KenyaInternationalPrefix()
    ensures Normalize("0041791234567", Some("KE"), CountryCodes) == Normalized("+41791234567", true, false)
  {
    StripUnchanged("0041791234567");
    assert StartsWith("0041791234567", "00");
    assert "+" + "0041791234567"[2..] == "+41791234567";
    assert "+41791234567"[..3][0] == '+';
  }
}
