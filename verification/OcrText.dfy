/** The text budget of src/desktop/ocr.rs: recognized UTF-16 text, cut to a number of UTF-8 bytes. */
module OcrText {
  type Unit = n: nat | n < 0x1_0000
  type Scalar = n: nat | n < 0xD800 || 0xE000 <= n < 0x11_0000

  const REPLACEMENT: Scalar := 0xFFFD

  predicate Lead(u: Unit) { 0xD800 <= u < 0xDC00 }
  predicate Trail(u: Unit) { 0xDC00 <= u < 0xE000 }

  /** The next character, and how many units it takes; an unpaired surrogate is replaced, alone. */
  function DecodeOne(units: seq<Unit>): (r: (Scalar, nat))
    requires |units| > 0
    ensures 1 <= r.1 <= |units|
  {
    if !Lead(units[0]) && !Trail(units[0]) then (units[0], 1)
    else if Lead(units[0]) && |units| > 1 && Trail(units[1]) then
      var high: int, low: int := units[0], units[1];
      (0x1_0000 + (high - 0xD800) * 0x400 + (low - 0xDC00), 2)
    else (REPLACEMENT, 1)
  }

  function Decoded(units: seq<Unit>): seq<Scalar> {
    if units == [] then []
    else
      var (character, width) := DecodeOne(units);
      [character] + Decoded(units[width..])
  }

  function Utf8Length(c: Scalar): nat {
    if c < 0x80 then 1 else if c < 0x800 then 2 else if c < 0x1_0000 then 3 else 4
  }

  function Bytes(text: seq<Scalar>): nat {
    if text == [] then 0 else Bytes(text[..|text| - 1]) + Utf8Length(text[|text| - 1])
  }

  lemma {:induction false} BytesGrow(text: seq<Scalar>, k: nat)
    requires k <= |text|
    ensures Bytes(text[..k]) <= Bytes(text) && (k < |text| ==> Bytes(text[..k]) < Bytes(text))
    decreases |text|
  {
    if k < |text| {
      BytesGrow(text[..|text| - 1], k);
      assert text[..|text| - 1][..k] == text[..k];
    } else {
      assert text[..k] == text;
    }
  }

  // --- The two encodings --------------------------------------------------------

  /** A character in UTF-16: itself, or a pair of surrogates. */
  function Encode16(c: Scalar): (units: seq<Unit>)
    ensures |units| == if c < 0x1_0000 then 1 else 2
  {
    if c < 0x1_0000 then [c]
    else [0xD800 + (c - 0x1_0000) / 0x400, 0xDC00 + (c - 0x1_0000) % 0x400]
  }

  function EncodeAll16(text: seq<Scalar>): seq<Unit> {
    if text == [] then [] else Encode16(text[0]) + EncodeAll16(text[1..])
  }

  lemma DecodeOneReadsBack(c: Scalar, rest: seq<Unit>)
    ensures DecodeOne(Encode16(c) + rest) == (c, |Encode16(c)|)
  {}

  /** Well-formed UTF-16 decodes to the text it encodes. */
  lemma {:induction false} DecodedReadsBack(text: seq<Scalar>)
    ensures Decoded(EncodeAll16(text)) == text
  {
    if text != [] {
      var units, rest := Encode16(text[0]), EncodeAll16(text[1..]);
      DecodeOneReadsBack(text[0], rest);
      DecodedReadsBack(text[1..]);
      assert (units + rest)[|units|..] == rest;
    }
  }

  /** A surrogate that is not half of a pair is replaced, and what follows is read on its own. */
  lemma LoneSurrogate(units: seq<Unit>)
    requires |units| > 0 && 0xD800 <= units[0] < 0xE000
    requires units[0] >= 0xDC00 || |units| == 1 || !(0xDC00 <= units[1] < 0xE000)
    ensures Decoded(units) == [0xFFFD] + Decoded(units[1..])
  {}

  type Octet = n: nat | n < 0x100

  /** A character in UTF-8, as section 3 of RFC 3629 encodes it. */
  function Encode8(c: Scalar): seq<Octet> {
    if c < 0x80 then [c]
    else if c < 0x800 then [0xC0 + c / 0x40, 0x80 + c % 0x40]
    else if c < 0x1_0000 then [0xE0 + c / 0x1000, 0x80 + c / 0x40 % 0x40, 0x80 + c % 0x40]
    else [0xF0 + c / 0x4_0000, 0x80 + c / 0x1000 % 0x40, 0x80 + c / 0x40 % 0x40, 0x80 + c % 0x40]
  }

  /** The lengths that the budget charges are those of the encoding. */
  lemma LengthIsEncoded(c: Scalar)
    ensures |Encode8(c)| == Utf8Length(c)
  {}

  /** `text` is the longest beginning of `all` that fits. */
  ghost predicate LongestFitting(text: seq<Scalar>, all: seq<Scalar>, limit: nat) {
    && text <= all && Bytes(text) <= limit
    && forall k | |text| < k <= |all| :: Bytes(all[..k]) > limit
  }

  lemma CutIsLongest(all: seq<Scalar>, n: nat, limit: nat)
    requires n <= |all| && Bytes(all[..n]) <= limit
    requires n < |all| ==> Bytes(all[..n]) + Utf8Length(all[n]) > limit
    ensures LongestFitting(all[..n], all, limit)
  {
    if n < |all| {
      assert all[..n + 1][..n] == all[..n];
      forall k | n < k <= |all| ensures Bytes(all[..k]) > limit {
        BytesGrow(all[..k], n + 1);
        assert all[..k][..n + 1] == all[..n + 1];
      }
    }
  }

  class TextBudget {
    var remaining: nat
    var truncated: bool

    constructor (limit: nat)
      ensures remaining == limit && !truncated
    {
      remaining, truncated := limit, false;
    }

    /** Take the longest beginning of a text that both limits allow; say so when that is not all of it. */
    method Take(utf16: seq<Unit>, atMost: nat) returns (text: seq<Scalar>)
      modifies this
      ensures LongestFitting(text, Decoded(utf16), if old(remaining) <= atMost then old(remaining) else atMost)
      ensures remaining == old(remaining) - Bytes(text)
      ensures truncated <==> old(truncated) || text != Decoded(utf16)
    {
      var limit := if remaining <= atMost then remaining else atMost;
      ghost var all := Decoded(utf16);
      var length, rest := 0, utf16;
      text := [];
      while rest != []
        invariant text + Decoded(rest) == all && length == Bytes(text) <= limit
        invariant remaining == old(remaining) && truncated == old(truncated)
        decreases |rest|
      {
        var (character, width) := DecodeOne(rest);
        assert all[..|text|] == text && all[|text|] == character;
        if length + Utf8Length(character) > limit {
          truncated := true;
          break;
        }
        assert (text + [character])[..|text|] == text;
        text := text + [character];
        length := length + Utf8Length(character);
        rest := rest[width..];
      }
      assert text == all[..|text|];
      CutIsLongest(all, |text|, limit);
      remaining := remaining - length;
    }
  }
}
