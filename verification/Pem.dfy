/** The PEM text of a certificate (src/pki.rs), after section 2 of RFC 7468. */
module Pem {
  import opened Wrappers
  import opened Base64Bits
  import opened Base64

  const BEGIN := "-----BEGIN CERTIFICATE-----\n"
  const END := "-----END CERTIFICATE-----\n"
  const COLUMNS := 64

  /** Lines of 64 columns, the last one possibly shorter, each ended by a newline. */
  function Wrap(s: string): string
    decreases |s|
  {
    if s == "" then ""
    else if |s| <= COLUMNS then s + "\n"
    else s[..COLUMNS] + "\n" + Wrap(s[COLUMNS..])
  }

  method DerToPemCert(der: seq<Byte>) returns (pem: string)
    ensures pem == BEGIN + Wrap(Encode(der)) + END
  {
    var code := Base64Encode(der);
    var out := "";
    var i := 0;
    assert code[0..] == code;
    while i < |code|
      invariant 0 <= i <= |code| && Wrap(code) == out + Wrap(code[i..])
    {
      var end := if i + COLUMNS < |code| then i + COLUMNS else |code|;
      NextLine(code, i, end);
      out := out + code[i..end];
      out := out + "\n";
      i := end;
    }
    pem := BEGIN + out + END;
  }

  lemma {:induction false} NextLine(s: string, i: nat, end: nat)
    requires i < |s| && end == if i + COLUMNS < |s| then i + COLUMNS else |s|
    ensures Wrap(s[i..]) == s[i..end] + "\n" + Wrap(s[end..])
  {
    var rest := s[i..];
    assert rest[..end - i] == s[i..end];
    if |rest| > COLUMNS {
      assert rest[COLUMNS..] == s[end..];
    } else {
      assert s[end..] == "";
    }
  }

  /** The text without its newlines. */
  function Unwrap(text: string): string {
    if text == "" then ""
    else (if text[0] == '\n' then "" else [text[0]]) + Unwrap(text[1..])
  }

  ghost predicate OneLine(s: string) {
    '\n' !in s
  }

  lemma {:induction false} UnwrapAppend(a: string, b: string)
    ensures Unwrap(a + b) == Unwrap(a) + Unwrap(b)
    decreases |a|
  {
    if a == "" {
      assert a + b == b;
    } else {
      assert (a + b)[1..] == a[1..] + b;
      UnwrapAppend(a[1..], b);
    }
  }

  lemma {:induction false} UnwrapLine(s: string)
    requires OneLine(s)
    ensures Unwrap(s) == s && Unwrap(s + "\n") == s
    decreases |s|
  {
    if s == "" {
      assert s + "\n" == "\n" && "\n"[1..] == "";
    } else {
      assert (s + "\n")[1..] == s[1..] + "\n";
      UnwrapLine(s[1..]);
    }
  }

  /** Wrapping loses nothing. */
  lemma {:induction false} UnwrapWrap(s: string)
    requires OneLine(s)
    ensures Unwrap(Wrap(s)) == s
    decreases |s|
  {
    if s != "" {
      if |s| <= COLUMNS {
        UnwrapLine(s);
      } else {
        var line, rest := s[..COLUMNS], s[COLUMNS..];
        UnwrapLine(line);
        UnwrapWrap(rest);
        UnwrapAppend(line + "\n", Wrap(rest));
        assert line + rest == s;
      }
    }
  }

  /** Every line but the last has exactly 64 columns: newlines stand at every sixty-fifth place and at the end. */
  lemma {:induction false} LinesAreFull(s: string, i: nat)
    requires OneLine(s) && i < |Wrap(s)|
    ensures Wrap(s)[i] == '\n' <==> i % 65 == 64 || i == |Wrap(s)| - 1
    decreases |s|
  {
    if |s| > COLUMNS && i >= 65 {
      LinesAreFull(s[COLUMNS..], i - 65);
    }
  }

  lemma {:induction false} EncodingIsOneLine(data: seq<Byte>)
    ensures OneLine(Encode(data))
  {
  }

  function BodyOf(pem: string): string
    requires |pem| >= |BEGIN| + |END|
  {
    pem[|BEGIN|..|pem| - |END|]
  }

  /** A certificate comes back byte for byte from its PEM text. */
  lemma {:induction false} PemRoundTrip(der: seq<Byte>, pem: string)
    requires pem == BEGIN + Wrap(Encode(der)) + END
    ensures BEGIN <= pem && Decode(Unwrap(BodyOf(pem))) == Some(der)
  {
    assert BodyOf(pem) == Wrap(Encode(der));
    EncodingIsOneLine(der);
    UnwrapWrap(Encode(der));
    RoundTrip(der);
  }
}
