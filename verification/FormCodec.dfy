/**
 * Percent-encoding and form bodies on the way out, and the decoder for query parameters on the way in.
 * They live in different files and must undo each other (sections 2.1 and 2.3 of RFC 3986).
 */
module FormCodec {
  import opened Common

  type Byte = b: int | 0 <= b < 256

  const PERCENT: Byte := 37
  const AMPERSAND: Byte := 38
  const EQUALS: Byte := 61

  const UPPER_HEX := "0123456789ABCDEF"
  const LOWER_HEX := "0123456789abcdef"

  predicate IsDigit(b: Byte) { 48 <= b <= 57 }

  /** std::isalnum in the C locale. */
  predicate IsAlnum(b: Byte) { IsDigit(b) || 65 <= b <= 90 || 97 <= b <= 122 }

  /** ALPHA / DIGIT / "-" / "_" / "." / "~" */
  predicate IsUnreserved(b: Byte) { IsAlnum(b) || b == 45 || b == 95 || b == 46 || b == 126 }

  predicate IsHexDigit(b: Byte) { IsDigit(b) || 65 <= b <= 70 || 97 <= b <= 102 }

  function HexDigit(n: nat): Byte
    requires n < 16
  {
    if n < 10 then 48 + n else 55 + n
  }

  function HexValue(b: Byte): (n: nat)
    requires IsHexDigit(b)
    ensures n < 16
  {
    if IsDigit(b) then b - 48 else if b <= 70 then b - 55 else b - 87
  }

  /** `b` is the `n`th hex digit, in either case. */
  predicate Writes(b: Byte, n: nat)
    requires n < 16
  {
    b as char == UPPER_HEX[n] || b as char == LOWER_HEX[n]
  }

  /** The digits of both cases have values, and no other bytes do; upper case is written. */
  lemma DigitsAre(b: Byte)
    ensures forall n: nat | n < 16 && Writes(b, n) :: IsHexDigit(b) && HexValue(b) == n
    ensures IsHexDigit(b) ==> Writes(b, HexValue(b))
    ensures IsHexDigit(b) && b < 97 ==> HexDigit(HexValue(b)) == b
  {}

  /** Letters, digits and four marks are written as they are, all other bytes as triplets. */
  lemma UnreservedAre(b: Byte)
    ensures EncodeByte(b) == [b] <==>
              var c := b as char; 'A' <= c <= 'Z' || 'a' <= c <= 'z' || '0' <= c <= '9' || c in {'-', '_', '.', '~'}
    ensures EncodeByte(b) != [b] ==>
              |EncodeByte(b)| == 3 && EncodeByte(b)[0] == 37
              && EncodeByte(b)[1] as char == UPPER_HEX[b / 16] && EncodeByte(b)[2] as char == UPPER_HEX[b % 16]
  {}

  function EncodeByte(b: Byte): (code: seq<Byte>) {
    if IsUnreserved(b) then [b] else [PERCENT, HexDigit(b / 16), HexDigit(b % 16)]
  }

  function Encode(s: seq<Byte>): (code: seq<Byte>) {
    if s == [] then [] else EncodeByte(s[0]) + Encode(s[1..])
  }

  /** A '%' that two hex digits follow stands for one byte; everything else for itself. */
  predicate IsTriplet(code: seq<Byte>) {
    |code| > 2 && code[0] == PERCENT && IsHexDigit(code[1]) && IsHexDigit(code[2])
  }

  function Decode(code: seq<Byte>): (s: seq<Byte>) {
    if code == [] then []
    else if IsTriplet(code) then [HexValue(code[1]) * 16 + HexValue(code[2])] + Decode(code[3..])
    else [code[0]] + Decode(code[1..])
  }

  method PercentEncode(value: seq<Byte>) returns (out: seq<Byte>)
    ensures out == Encode(value)
  {
    out := [];
    for i := 0 to |value|
      invariant out + Encode(value[i..]) == Encode(value)
    {
      var c := value[i];
      ghost var before := out;
      if IsUnreserved(c) {
        out := out + [c];
      } else {
        out := out + [PERCENT];
        out := out + [HexDigit(c / 16)];
        out := out + [HexDigit(c % 16)];
      }
      assert out == before + EncodeByte(c);
      EncodeNext(value, i, before);
    }
  }

  lemma EncodeNext(value: seq<Byte>, i: nat, before: seq<Byte>)
    requires i < |value|
    ensures (before + EncodeByte(value[i])) + Encode(value[i + 1..]) == before + Encode(value[i..])
  {
    assert value[i..][0] == value[i] && value[i..][1..] == value[i + 1..];
  }

  /** A missing parameter decodes to the empty string. */
  method DecodeParam(raw: Option<seq<Byte>>) returns (out: seq<Byte>)
    ensures out == if raw.None? then [] else Decode(raw.value)
  {
    out := [];
    if raw.None? {
      return;
    }
    var code := raw.value;
    var i := 0;
    while i < |code|
      invariant 0 <= i <= |code| && out + Decode(code[i..]) == Decode(code)
    {
      if code[i] == PERCENT && i + 2 < |code| && IsHexDigit(code[i + 1]) && IsHexDigit(code[i + 2]) {
        DecodeTriplet(code, i, out);
        out := out + [HexValue(code[i + 1]) * 16 + HexValue(code[i + 2])];
        i := i + 3;
      } else {
        DecodePlain(code, i, out);
        out := out + [code[i]];
        i := i + 1;
      }
    }
  }

  lemma DecodeTriplet(code: seq<Byte>, i: nat, out: seq<Byte>)
    requires i + 2 < |code| && code[i] == PERCENT && IsHexDigit(code[i + 1]) && IsHexDigit(code[i + 2])
    ensures (out + [HexValue(code[i + 1]) * 16 + HexValue(code[i + 2])]) + Decode(code[i + 3..]) == out + Decode(code[i..])
  {
    assert IsTriplet(code[i..]) && code[i..][3..] == code[i + 3..];
  }

  lemma DecodePlain(code: seq<Byte>, i: nat, out: seq<Byte>)
    requires i < |code|
    requires !(code[i] == PERCENT && i + 2 < |code| && IsHexDigit(code[i + 1]) && IsHexDigit(code[i + 2]))
    ensures (out + [code[i]]) + Decode(code[i + 1..]) == out + Decode(code[i..])
  {
    assert !IsTriplet(code[i..]) && code[i..][1..] == code[i + 1..];
  }

  lemma HexRoundTrips(b: Byte)
    ensures IsHexDigit(HexDigit(b / 16)) && IsHexDigit(HexDigit(b % 16))
    ensures HexValue(HexDigit(b / 16)) * 16 + HexValue(HexDigit(b % 16)) == b
  {}

  lemma DecodeByte(b: Byte, tail: seq<Byte>)
    ensures Decode(EncodeByte(b) + tail) == [b] + Decode(tail)
  {
    HexRoundTrips(b);
    var code := EncodeByte(b) + tail;
    if IsUnreserved(b) {
      assert code[0] == b && code[1..] == tail;
    } else {
      assert code[0] == PERCENT && code[1] == HexDigit(b / 16) && code[2] == HexDigit(b % 16) && code[3..] == tail;
    }
  }

  /**
   * A byte may come with hex digits of either case, each on its own; a '%' without two hex digits behind
   * it, and every other byte, stands for itself.
   */
  lemma EitherCaseDecodes(b: Byte, high: Byte, low: Byte, rest: seq<Byte>)
    requires Writes(high, b / 16) && Writes(low, b % 16)
    ensures Decode([37, high, low] + rest) == [b] + Decode(rest)
  {
    DigitsAre(high);
    DigitsAre(low);
    TripletDecodes(high, low, rest);
  }

  lemma TripletDecodes(high: Byte, low: Byte, rest: seq<Byte>)
    requires IsHexDigit(high) && IsHexDigit(low)
    ensures Decode([37, high, low] + rest) == [HexValue(high) * 16 + HexValue(low)] + Decode(rest)
  {
    var code := [PERCENT, high, low] + rest;
    assert code[0] == PERCENT && code[1] == high && code[2] == low && code[3..] == rest;
  }

  lemma OthersStandForThemselves(b: Byte, rest: seq<Byte>)
    requires b != 37 || |rest| < 2 || !IsHexDigit(rest[0]) || !IsHexDigit(rest[1])
    ensures Decode([b] + rest) == [b] + Decode(rest)
  {
    var code := [b] + rest;
    assert code[1..] == rest;
    assert |rest| >= 2 ==> code[1] == rest[0] && code[2] == rest[1];
  }

  /** Decoding an encoded string gives it back, and goes on cleanly with whatever follows. */
  lemma {:induction false} DecodeUndoesEncode(s: seq<Byte>, rest: seq<Byte>)
    ensures Decode(Encode(s) + rest) == s + Decode(rest)
  {
    if s == [] {
      assert Encode(s) + rest == rest;
      assert s + Decode(rest) == Decode(rest);
    } else {
      var tail := Encode(s[1..]) + rest;
      DecodeUndoesEncode(s[1..], rest);
      DecodeByte(s[0], tail);
      assert Encode(s) + rest == EncodeByte(s[0]) + tail;
      assert [s[0]] + (s[1..] + Decode(rest)) == s + Decode(rest);
    }
  }

  lemma {:induction false} RoundTrip(s: seq<Byte>)
    ensures Decode(Encode(s)) == s
  {
    DecodeUndoesEncode(s, []);
    assert Encode(s) + [] == Encode(s);
  }

  /** Encoded text is unreserved characters and percent signs only, so it holds no delimiter of a form. */
  lemma {:induction false} EncodedIsPlain(s: seq<Byte>)
    ensures forall b | b in Encode(s) :: IsUnreserved(b) || b == PERCENT
    ensures AMPERSAND !in Encode(s) && EQUALS !in Encode(s)
  {
    if s != [] {
      EncodedIsPlain(s[1..]);
      assert forall b | b in EncodeByte(s[0]) :: IsUnreserved(b) || b == PERCENT;
    }
  }

  // ---------------------------------------------------------------- form bodies

  datatype Field = Field(key: seq<Byte>, value: seq<Byte>)

  function EncodeField(f: Field): seq<Byte> { Encode(f.key) + [EQUALS] + Encode(f.value) }

  function FormBody(fields: seq<Field>): seq<Byte> {
    if fields == [] then []
    else if |fields| == 1 then EncodeField(fields[0])
    else FormBody(fields[..|fields| - 1]) + [AMPERSAND] + EncodeField(fields[|fields| - 1])
  }

  /** The parameters come in the order the ordered map yields them. */
  method BuildFormBody(params: seq<Field>) returns (body: seq<Byte>)
    ensures body == FormBody(params)
  {
    body := [];
    var first := true;
    for i := 0 to |params|
      invariant body == FormBody(params[..i]) && (first <==> i == 0)
    {
      assert params[..i + 1][..i] == params[..i];
      if !first {
        body := body + [AMPERSAND];
      }
      first := false;
      var key := PercentEncode(params[i].key);
      var value := PercentEncode(params[i].value);
      body := body + (key + [EQUALS] + value);
    }
    assert params[..|params|] == params;
  }

  /** The pieces between separators; a text without separator is one piece. */
  function Split(text: seq<Byte>, sep: Byte): (pieces: seq<seq<Byte>>)
    ensures pieces != []
  {
    if text == [] then [[]]
    else
      var k := |text| - 1;
      var pieces := Split(text[..k], sep);
      if text[k] == sep then pieces + [[]]
      else pieces[|pieces| - 1 := pieces[|pieces| - 1] + [text[k]]]
  }

  lemma {:induction false} SplitAppend(text: seq<Byte>, more: seq<Byte>, sep: Byte)
    requires sep !in more
    ensures var p := Split(text, sep);
            Split(text + more, sep) == p[|p| - 1 := p[|p| - 1] + more]
  {
    var p := Split(text, sep);
    if more == [] {
      assert text + more == text;
      assert p[|p| - 1] + more == p[|p| - 1];
    } else {
      var k := |more| - 1;
      SplitAppend(text, more[..k], sep);
      assert (text + more)[..|text + more| - 1] == text + more[..k];
      assert (text + more)[|text + more| - 1] == more[k];
      assert more[..k] + [more[k]] == more;
      assert (p[|p| - 1] + more[..k]) + [more[k]] == p[|p| - 1] + more;
    }
  }

  lemma SplitNext(text: seq<Byte>, more: seq<Byte>, sep: Byte)
    requires sep !in more
    ensures Split(text + [sep] + more, sep) == Split(text, sep) + [more]
  {
    assert (text + [sep])[..|text|] == text;
    SplitAppend(text + [sep], more, sep);
    assert [] + more == more;
  }

  /** What a receiver reads: fields at '&', key and value at '=', each decoded. */
  function ParseField(piece: seq<Byte>): Option<Field> {
    var parts := Split(piece, EQUALS);
    if |parts| == 2 then Some(Field(Decode(parts[0]), Decode(parts[1]))) else None
  }

  lemma FieldRoundTrip(f: Field)
    ensures ParseField(EncodeField(f)) == Some(f)
  {
    EncodedIsPlain(f.key);
    EncodedIsPlain(f.value);
    SplitAppend([], Encode(f.key), EQUALS);
    assert [] + Encode(f.key) == Encode(f.key);
    SplitNext(Encode(f.key), Encode(f.value), EQUALS);
    RoundTrip(f.key);
    RoundTrip(f.value);
  }

  function EncodedFields(fields: seq<Field>): (pieces: seq<seq<Byte>>)
    ensures |pieces| == |fields| && forall i | 0 <= i < |fields| :: pieces[i] == EncodeField(fields[i])
  {
    if fields == [] then [] else EncodedFields(fields[..|fields| - 1]) + [EncodeField(fields[|fields| - 1])]
  }

  lemma FieldHasNoAmpersand(f: Field)
    ensures AMPERSAND !in EncodeField(f) && EncodeField(f) != []
  {
    EncodedIsPlain(f.key);
    EncodedIsPlain(f.value);
  }

  lemma {:induction false} FormSplitsIntoFields(fields: seq<Field>)
    requires fields != []
    ensures Split(FormBody(fields), AMPERSAND) == EncodedFields(fields)
  {
    var k := |fields| - 1;
    var last := EncodeField(fields[k]);
    FieldHasNoAmpersand(fields[k]);
    if k == 0 {
      SplitAppend([], last, AMPERSAND);
      assert [] + last == last;
    } else {
      FormSplitsIntoFields(fields[..k]);
      SplitNext(FormBody(fields[..k]), last, AMPERSAND);
    }
  }

  /**
   * For every list of parameters, splitting the form body at '&' and '=' and decoding gives the list back;
   * an empty list is the empty body.
   */
  lemma FormRoundTrip(fields: seq<Field>)
    ensures FormBody(fields) == [] <==> fields == []
    ensures fields != [] ==>
              var pieces := Split(FormBody(fields), AMPERSAND);
              |pieces| == |fields| && forall i | 0 <= i < |fields| :: ParseField(pieces[i]) == Some(fields[i])
  {
    if fields != [] {
      FormSplitsIntoFields(fields);
      FieldHasNoAmpersand(fields[|fields| - 1]);
      forall i | 0 <= i < |fields|
        ensures ParseField(EncodedFields(fields)[i]) == Some(fields[i])
      {
        FieldRoundTrip(fields[i]);
      }
    }
  }
}
