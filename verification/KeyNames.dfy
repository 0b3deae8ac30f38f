/**
 The key names of services/keychain/keychain.go: characters that Windows refuses in a file name are
 percent-encoded, and the percent sign with them.
 */
module KeyNames {
  import opened Options
  import opened Hex

  /** The class of the regular expression. */
  predicate Unsafe(c: char) {
    || c == '<' || c == '>' || c == ':' || c == '"' || c == '/'
    || c == '\\' || c == '|' || c == '?' || c == '*' || c == '%'
  }

  function SanitizeChar(c: char): string {
    if Unsafe(c) then
      ['%', UpperDigit(c as nat / 16), UpperDigit(c as nat % 16)]
    else [c]
  }

  function SanitizeKey(key: string): string {
    if key == "" then "" else SanitizeChar(key[0]) + SanitizeKey(key[1..])
  }

  /** Percent-decoding: the inverse on sanitized keys. */
  function Decode(name: string): Option<string> {
    if name == "" then Some("")
    else if name[0] != '%' then
      match Decode(name[1..])
      case None => None
      case Some(rest) => Some([name[0]] + rest)
    else if |name| < 3 then None
    else
      match (ByteOf(name[1], name[2]), Decode(name[3..]))
      case (Some(b), Some(rest)) =>
        ByteIsSmall(name[1], name[2]);
        Some([b as char] + rest)
      case _ => None
  }

  lemma {:induction false} DecodeSanitized(key: string)
    ensures Decode(SanitizeKey(key)) == Some(key)
  {
    if key != "" {
      DecodeSanitized(key[1..]);
      var name, rest := SanitizeKey(key), SanitizeKey(key[1..]);
      if Unsafe(key[0]) {
        assert name[3..] == rest;
        assert key == [key[0]] + key[1..];
        ByteReadsBack(key[0] as nat);
      } else {
        assert name[0] == key[0] && name[1..] == rest;
        assert key == [key[0]] + key[1..];
      }
    }
  }

  /** Different keys get different names. */
  lemma NamesDoNotCollide(key: string, key': string)
    ensures SanitizeKey(key) == SanitizeKey(key') <==> key == key'
  {
    DecodeSanitized(key);
    DecodeSanitized(key');
  }

  lemma EscapeIsSafe(c: char)
    requires Unsafe(c)
    ensures forall d | d in SanitizeChar(c) :: Unsafe(d) ==> d == '%'
  {
    UpperDigitIsPlain(c as nat / 16);
    UpperDigitIsPlain(c as nat % 16);
  }

  /** No name holds a character that Windows refuses. */
  lemma {:induction false} NamesAreSafe(key: string)
    ensures forall c | c in SanitizeKey(key) :: Unsafe(c) ==> c == '%'
  {
    if key != "" {
      NamesAreSafe(key[1..]);
      if Unsafe(key[0]) {
        EscapeIsSafe(key[0]);
      }
    }
  }

  /** The keys left alone are exactly those without such a character. */
  lemma {:induction false} UnchangedIffPlain(key: string)
    ensures |SanitizeKey(key)| >= |key|
    ensures SanitizeKey(key) == key <==> forall c | c in key :: !Unsafe(c)
  {
    if key != "" {
      UnchangedIffPlain(key[1..]);
      assert key == [key[0]] + key[1..];
      if !Unsafe(key[0]) {
        assert SanitizeKey(key)[1..] == SanitizeKey(key[1..]);
        assert forall c :: c in key <==> c == key[0] || c in key[1..];
      }
    }
  }

  /** The ten characters that are escaped. */
  lemma UnsafeTable(c: char)
    ensures Unsafe(c) <==> c in "<>:\"/\\|?*%"
  {
    var all := "<>:\"/\\|?*%";
    assert Unsafe(c) ==> || c == all[0] || c == all[1] || c == all[2] || c == all[3] || c == all[4]
                         || c == all[5] || c == all[6] || c == all[7] || c == all[8] || c == all[9];
  }

  /** And what each becomes. */
  lemma EscapeTable()
    ensures SanitizeChar('<') == "%3C" && SanitizeChar('>') == "%3E" && SanitizeChar(':') == "%3A"
    ensures SanitizeChar('"') == "%22" && SanitizeChar('/') == "%2F" && SanitizeChar('\\') == "%5C"
    ensures SanitizeChar('|') == "%7C" && SanitizeChar('?') == "%3F" && SanitizeChar('*') == "%2A"
    ensures SanitizeChar('%') == "%25"
  {
  }

  /** Characters are escaped one by one. */
  lemma {:induction false} SanitizedInOrder(a: string, b: string)
    ensures SanitizeKey(a + b) == SanitizeKey(a) + SanitizeKey(b)
  {
    if a == "" {
      assert a + b == b;
    } else {
      assert (a + b)[1..] == a[1..] + b;
      SanitizedInOrder(a[1..], b);
    }
  }
}
