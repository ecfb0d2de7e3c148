/**
 * The hand-written base64 encoder and PEM wrapper for certificates (src/pki.rs). The encoder is
 * shown to be the exact inverse of a strict decoder written from section 4 of RFC 4648, and the
 * 64-column wrapping of section 2 of RFC 7468 to lose nothing. Bytes become symbols first and
 * symbols become characters, so that arithmetic and alphabet are dealt with separately.
 */
module Base64 {
  import opened Wrappers
  import opened Base64Bits

  datatype Symbol = Six(value: Sextet) | Padding

  // ---------------------------------------------------------------------------------------------
  // Sextets: shifts and masks of the code read as division and remainder

  function First(b0: Byte): Sextet {
    b0 / 4
  }

  function Second(b0: Byte, b1: Byte): Sextet {
    b0 % 4 * 16 + b1 / 16
  }

  function Third(b1: Byte, b2: Byte): Sextet {
    b1 % 16 * 4 + b2 / 64
  }

  function Fourth(b2: Byte): Sextet {
    b2 % 64
  }

  function Byte0(v0: Sextet, v1: Sextet): Byte {
    v0 * 4 + v1 / 16
  }

  function Byte1(v1: Sextet, v2: Sextet): Byte {
    v1 % 16 * 16 + v2 / 4
  }

  function Byte2(v2: Sextet, v3: Sextet): Byte {
    v2 % 4 * 64 + v3
  }

  lemma {:induction false} BytesBack(b0: Byte, b1: Byte, b2: Byte)
    ensures Byte0(First(b0), Second(b0, b1)) == b0
    ensures Byte1(Second(b0, b1), Third(b1, b2)) == b1
    ensures Byte2(Third(b1, b2), Fourth(b2)) == b2
  {
  }

  lemma {:induction false} SextetsBack(v0: Sextet, v1: Sextet, v2: Sextet, v3: Sextet)
    ensures var b0, b1, b2 := Byte0(v0, v1), Byte1(v1, v2), Byte2(v2, v3);
            First(b0) == v0 && Second(b0, b1) == v1 && Third(b1, b2) == v2 && Fourth(b2) == v3
  {
  }

  // ---------------------------------------------------------------------------------------------
  // Bytes and symbols

  /** One group: three bytes, or the last one or two with padding. */
  function Group(chunk: seq<Byte>): (s: seq<Symbol>)
    requires 1 <= |chunk| <= 3
    ensures |s| == 4
  {
    var b0 := chunk[0];
    var b1: Byte := if |chunk| > 1 then chunk[1] else 0;
    var b2: Byte := if |chunk| > 2 then chunk[2] else 0;
    [Six(First(b0)), Six(Second(b0, b1)),
     if |chunk| > 1 then Six(Third(b1, b2)) else Padding,
     if |chunk| > 2 then Six(Fourth(b2)) else Padding]
  }

  function Symbols(data: seq<Byte>): seq<Symbol>
    decreases |data|
  {
    if |data| == 0 then []
    else if |data| <= 3 then Group(data)
    else Group(data[..3]) + Symbols(data[3..])
  }

  /** The bytes of one group of four; only the last may be padded, and its padded bits are zero. */
  function Ungroup(s: seq<Symbol>, last: bool): Option<seq<Byte>>
    requires |s| == 4
  {
    if s[0].Padding? || s[1].Padding? then None
    else if s[2].Padding? then
      if last && s[3].Padding? && s[1].value % 16 == 0 then Some([Byte0(s[0].value, s[1].value)]) else None
    else if s[3].Padding? then
      if last && s[2].value % 4 == 0 then Some([Byte0(s[0].value, s[1].value), Byte1(s[1].value, s[2].value)])
      else None
    else
      Some([Byte0(s[0].value, s[1].value), Byte1(s[1].value, s[2].value), Byte2(s[2].value, s[3].value)])
  }

  function BytesOf(s: seq<Symbol>): Option<seq<Byte>>
    decreases |s|
  {
    if |s| == 0 then Some([])
    else if |s| < 4 then None
    else
      var head := Ungroup(s[..4], |s| == 4);
      var tail := BytesOf(s[4..]);
      if head.None? || tail.None? then None else Some(head.value + tail.value)
  }

  /** Padding the missing bytes with zero leaves zero bits behind. */
  lemma {:induction false} SpareBits(b0: Byte, b1: Byte)
    ensures Second(b0, 0) % 16 == 0 && Third(b1, 0) % 4 == 0
  {
  }

  lemma {:induction false} SpareBytes(v1: Sextet, v2: Sextet)
    ensures v1 % 16 == 0 ==> Byte1(v1, 0) == 0
    ensures v2 % 4 == 0 ==> Byte2(v2, 0) == 0
  {
  }

  /** What `Ungroup` does to a group, in terms of the sextets alone. */
  lemma {:induction false} UngroupForms(v0: Sextet, v1: Sextet, v2: Sextet, v3: Sextet, last: bool)
    ensures Ungroup([Six(v0), Six(v1), Six(v2), Six(v3)], last) == Some([Byte0(v0, v1), Byte1(v1, v2), Byte2(v2, v3)])
    ensures v2 % 4 == 0 ==> Ungroup([Six(v0), Six(v1), Six(v2), Padding], true) == Some([Byte0(v0, v1), Byte1(v1, v2)])
    ensures v1 % 16 == 0 ==> Ungroup([Six(v0), Six(v1), Padding, Padding], true) == Some([Byte0(v0, v1)])
  {
  }

  lemma {:induction false} GroupForms(b0: Byte, b1: Byte, b2: Byte)
    ensures Group([b0, b1, b2]) == [Six(First(b0)), Six(Second(b0, b1)), Six(Third(b1, b2)), Six(Fourth(b2))]
    ensures Group([b0, b1]) == [Six(First(b0)), Six(Second(b0, b1)), Six(Third(b1, 0)), Padding]
    ensures Group([b0]) == [Six(First(b0)), Six(Second(b0, 0)), Padding, Padding]
  {
  }

  lemma {:induction false} GroupInverse(chunk: seq<Byte>, last: bool)
    requires 1 <= |chunk| <= 3 && (last || |chunk| == 3)
    ensures Ungroup(Group(chunk), last) == Some(chunk)
  {
    if |chunk| == 3 {
      FullInverse(chunk[0], chunk[1], chunk[2], last);
      assert chunk == [chunk[0], chunk[1], chunk[2]];
    } else if |chunk| == 2 {
      PaddedInverse(chunk[0], chunk[1]);
      assert chunk == [chunk[0], chunk[1]];
    } else {
      PaddedInverse(chunk[0], 0);
      assert chunk == [chunk[0]];
    }
  }

  lemma {:induction false} FullInverse(b0: Byte, b1: Byte, b2: Byte, last: bool)
    ensures Ungroup(Group([b0, b1, b2]), last) == Some([b0, b1, b2])
  {
    BytesBack(b0, b1, b2);
    GroupForms(b0, b1, b2);
    UngroupForms(First(b0), Second(b0, b1), Third(b1, b2), Fourth(b2), last);
  }

  lemma {:induction false} PaddedInverse(b0: Byte, b1: Byte)
    ensures Ungroup(Group([b0, b1]), true) == Some([b0, b1])
    ensures Ungroup(Group([b0]), true) == Some([b0])
  {
    SpareBits(b0, b1);
    GroupForms(b0, b1, 0);
    BytesBack(b0, b1, 0);
    UngroupForms(First(b0), Second(b0, b1), Third(b1, 0), 0, true);
    BytesBack(b0, 0, 0);
    UngroupForms(First(b0), Second(b0, 0), 0, 0, true);
  }

  lemma {:induction false} UngroupInverse(s: seq<Symbol>, last: bool)
    requires |s| == 4 && Ungroup(s, last).Some?
    ensures var chunk := Ungroup(s, last).value;
            1 <= |chunk| <= 3 && (|chunk| == 3 || last) && Group(chunk) == s
  {
    var v0, v1 := s[0].value, s[1].value;
    if s[3].Six? {
      assert s == [Six(v0), Six(v1), Six(s[2].value), Six(s[3].value)];
      RegroupFull(v0, v1, s[2].value, s[3].value);
    } else if s[2].Six? {
      assert s == [Six(v0), Six(v1), Six(s[2].value), Padding];
      RegroupPadded(v0, v1, s[2].value);
    } else {
      assert s == [Six(v0), Six(v1), Padding, Padding];
      RegroupPadded(v0, v1, 0);
    }
  }

  lemma {:induction false} RegroupFull(v0: Sextet, v1: Sextet, v2: Sextet, v3: Sextet)
    ensures Group([Byte0(v0, v1), Byte1(v1, v2), Byte2(v2, v3)]) == [Six(v0), Six(v1), Six(v2), Six(v3)]
  {
    SextetsBack(v0, v1, v2, v3);
    GroupForms(Byte0(v0, v1), Byte1(v1, v2), Byte2(v2, v3));
  }

  lemma {:induction false} RegroupPadded(v0: Sextet, v1: Sextet, v2: Sextet)
    ensures v2 % 4 == 0 ==> Group([Byte0(v0, v1), Byte1(v1, v2)]) == [Six(v0), Six(v1), Six(v2), Padding]
    ensures v1 % 16 == 0 ==> Group([Byte0(v0, v1)]) == [Six(v0), Six(v1), Padding, Padding]
  {
    SpareBytes(v1, v2);
    SextetsBack(v0, v1, v2, 0);
    GroupForms(Byte0(v0, v1), Byte1(v1, v2), 0);
    SextetsBack(v0, v1, 0, 0);
  }

  lemma {:induction false} FirstGroup(data: seq<Byte>)
    requires |data| > 0
    ensures var n := if |data| < 3 then |data| else 3;
            Symbols(data) == Group(data[..n]) + Symbols(data[n..])
  {
    var n := if |data| < 3 then |data| else 3;
    if |data| <= 3 {
      assert data[..n] == data && data[n..] == [];
    }
  }

  lemma {:induction false} SymbolCount(data: seq<Byte>)
    ensures |Symbols(data)| == (|data| + 2) / 3 * 4
    decreases |data|
  {
    if |data| > 3 {
      SymbolCount(data[3..]);
    }
  }

  lemma {:induction false} SymbolsRoundTrip(data: seq<Byte>)
    ensures BytesOf(Symbols(data)) == Some(data)
    decreases |data|
  {
    if |data| > 0 {
      var n := if |data| < 3 then |data| else 3;
      var head, tail, s := data[..n], data[n..], Symbols(data);
      FirstGroup(data);
      assert s[..4] == Group(head) && s[4..] == Symbols(tail);
      SymbolCount(tail);
      GroupInverse(head, |s| == 4);
      SymbolsRoundTrip(tail);
      assert head + tail == data;
    }
  }

  lemma {:induction false} SymbolsAreCanonical(s: seq<Symbol>)
    requires BytesOf(s).Some?
    ensures Symbols(BytesOf(s).value) == s
    decreases |s|
  {
    if |s| > 0 {
      UngroupInverse(s[..4], |s| == 4);
      SymbolsAreCanonical(s[4..]);
      var head, tail := Ungroup(s[..4], |s| == 4).value, BytesOf(s[4..]).value;
      var data := head + tail;
      if tail == [] {
        assert data == head;
      } else {
        SymbolCount(tail);
        assert data[..3] == head && data[3..] == tail;
      }
      assert s == s[..4] + s[4..];
    }
  }

  lemma {:induction false} GroupPadding(chunk: seq<Byte>, i: nat)
    requires 1 <= |chunk| <= 3 && i < 4
    ensures Group(chunk)[i].Padding? <==> i > |chunk|
  {
  }

  lemma {:induction false} SameRemainder(n: nat)
    requires n >= 3
    ensures n % 3 == (n - 3) % 3
  {
  }

  /** Padding stands only in the last places, as many as bytes are missing from the last group. */
  lemma {:induction false} PaddingIsAtTheEnd(data: seq<Byte>, i: nat)
    requires i < |Symbols(data)|
    ensures Symbols(data)[i].Padding? <==> |data| % 3 != 0 && i >= |Symbols(data)| - (3 - |data| % 3)
    decreases |data|
  {
    if |data| <= 3 {
      GroupPadding(data, i);
    } else {
      var rest := data[3..];
      SymbolCount(rest);
      SameRemainder(|data|);
      assert |Symbols(data)| == 4 + |Symbols(rest)|;
      if i < 4 {
        GroupPadding(data[..3], i);
        assert Symbols(data)[i] == Group(data[..3])[i];
      } else {
        PaddingIsAtTheEnd(rest, i - 4);
        assert Symbols(data)[i] == Symbols(rest)[i - 4];
      }
    }
  }

  // ---------------------------------------------------------------------------------------------
  // Symbols and characters

  /** The alphabet of table 1 of RFC 4648, by its ranges. */
  function Letter(s: Sextet): (c: char)
    ensures c != '=' && c != '\n'
  {
    if s < 26 then 'A' + s as char
    else if s < 52 then 'a' + (s - 26) as char
    else if s < 62 then '0' + (s - 52) as char
    else if s == 62 then '+'
    else '/'
  }

  function Glyph(s: Symbol): char {
    if s.Padding? then '=' else Letter(s.value)
  }

  function Reading(c: char): Option<Symbol> {
    if c == '=' then Some(Padding)
    else if 'A' <= c <= 'Z' then Some(Six(c as int - 'A' as int))
    else if 'a' <= c <= 'z' then Some(Six(c as int - 'a' as int + 26))
    else if '0' <= c <= '9' then Some(Six(c as int - '0' as int + 52))
    else if c == '+' then Some(Six(62))
    else if c == '/' then Some(Six(63))
    else None
  }

  lemma {:induction false} GlyphReads(s: Symbol)
    ensures Reading(Glyph(s)) == Some(s)
  {
  }

  lemma {:induction false} ReadingIsGlyph(c: char)
    requires Reading(c).Some?
    ensures Glyph(Reading(c).value) == c
  {
  }

  function Text(s: seq<Symbol>): string {
    seq(|s|, i requires 0 <= i < |s| => Glyph(s[i]))
  }

  function ReadAll(text: string): Option<seq<Symbol>> {
    if text == "" then Some([])
    else
      var head, tail := Reading(text[0]), ReadAll(text[1..]);
      if head.None? || tail.None? then None else Some([head.value] + tail.value)
  }

  lemma {:induction false} TextReads(s: seq<Symbol>)
    ensures ReadAll(Text(s)) == Some(s)
  {
    if s != [] {
      assert Text(s)[1..] == Text(s[1..]);
      GlyphReads(s[0]);
      TextReads(s[1..]);
      assert s == [s[0]] + s[1..];
    }
  }

  lemma {:induction false} ReadingIsText(text: string)
    requires ReadAll(text).Some?
    ensures Text(ReadAll(text).value) == text
  {
    if text != "" {
      ReadingIsGlyph(text[0]);
      ReadingIsText(text[1..]);
      assert text == [text[0]] + text[1..];
    }
  }

  // ---------------------------------------------------------------------------------------------
  // Encoding and decoding

  function Encode(data: seq<Byte>): string {
    Text(Symbols(data))
  }

  /** The strict decoder of RFC 4648, section 4. */
  function Decode(text: string): Option<seq<Byte>> {
    var s := ReadAll(text);
    if s.None? then None else BytesOf(s.value)
  }

  /** Decoding undoes encoding, for every byte string. */
  lemma {:induction false} RoundTrip(data: seq<Byte>)
    ensures Decode(Encode(data)) == Some(data)
  {
    TextReads(Symbols(data));
    SymbolsRoundTrip(data);
  }

  /** The encoding is the only text the strict decoder reads back as these bytes. */
  lemma {:induction false} EncodingIsCanonical(text: string)
    requires Decode(text).Some?
    ensures Encode(Decode(text).value) == text
  {
    ReadingIsText(text);
    SymbolsAreCanonical(ReadAll(text).value);
  }

  /** Four characters for every three bytes begun. */
  lemma {:induction false} EncodedLength(data: seq<Byte>)
    ensures |Encode(data)| == (|data| + 2) / 3 * 4
  {
    SymbolCount(data);
  }

  /** The character '=' stands only at the end, as often as bytes are missing; all others are letters. */
  lemma {:induction false} EncodedPadding(data: seq<Byte>, i: nat)
    requires i < |Encode(data)|
    ensures Encode(data)[i] == '=' <==> |data| % 3 != 0 && i >= |Encode(data)| - (3 - |data| % 3)
  {
    PaddingIsAtTheEnd(data, i);
  }

  /** One pass of the loop: four characters, whose indices are computed with shifts and masks. */
  method EncodeChunk(chunk: seq<Byte>) returns (four: string)
    requires 1 <= |chunk| <= 3
    ensures var g := Group(chunk); four == [Glyph(g[0]), Glyph(g[1]), Glyph(g[2]), Glyph(g[3])]
  {
    var b0: Byte := chunk[0];
    var b1: Byte := if |chunk| > 1 then chunk[1] else 0;
    var b2: Byte := if |chunk| > 2 then chunk[2] else 0;
    var first := FirstIndex(b0);
    var second := SecondIndex(b0, b1);
    var third := ThirdIndex(b1, b2);
    var fourth := FourthIndex(b2);
    four := [Glyph(Six(first)), Glyph(Six(second)),
             if |chunk| > 1 then Glyph(Six(third)) else '=',
             if |chunk| > 2 then Glyph(Six(fourth)) else '='];
  }

  /** The loop of `base64_encode`, over chunks of three bytes. */
  method Base64Encode(data: seq<Byte>) returns (out: string)
    ensures out == Encode(data)
  {
    out := "";
    var i := 0;
    ghost var done: seq<Symbol> := [];
    assert data[0..] == data;
    while i < |data|
      invariant 0 <= i <= |data| && out == Text(done) && Symbols(data) == done + Symbols(data[i..])
    {
      var end := if i + 3 < |data| then i + 3 else |data|;
      var four := EncodeChunk(data[i..end]);
      ghost var group := Group(data[i..end]);
      NextGroup(data, i, end);
      OneMoreGroup(done, group, Symbols(data[end..]));
      out := out + four;
      done := done + group;
      i := end;
    }
  }

  lemma {:induction false} OneMoreGroup(done: seq<Symbol>, group: seq<Symbol>, rest: seq<Symbol>)
    requires |group| == 4
    ensures Text(done + group) == Text(done) + [Glyph(group[0]), Glyph(group[1]), Glyph(group[2]), Glyph(group[3])]
    ensures done + (group + rest) == (done + group) + rest
  {
  }

  lemma {:induction false} NextGroup(data: seq<Byte>, i: nat, end: nat)
    requires i < |data| && end == if i + 3 < |data| then i + 3 else |data|
    ensures Symbols(data[i..]) == Group(data[i..end]) + Symbols(data[end..])
  {
    var rest := data[i..];
    FirstGroup(rest);
    assert rest[..end - i] == data[i..end] && rest[end - i..] == data[end..];
  }
}
