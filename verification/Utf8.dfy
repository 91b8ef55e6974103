/**
  The UTF-8 validator of the generated C++ bindings, against sections 3 and 4 of RFC 3629: it accepts
  exactly the concatenations of encodings of Unicode scalar values. Masks and shifts of the unsigned
  bytes are written as remainders, quotients and products by powers of two.
 */
module Utf8 {

  newtype Byte = b: int | 0 <= b < 256

  // ----- the encoding -----

  ghost predicate ScalarValue(s: nat) {
    s <= 0x10FFFF && !(0xD800 <= s <= 0xDFFF)
  }

  /** The number of bytes after the first one. */
  function Trail(s: nat): nat {
    if s < 0x80 then 0 else if s < 0x800 then 1 else if s < 0x10000 then 2 else 3
  }

  function Continuation(bits: nat): Byte {
    (0x80 + bits % 64) as Byte
  }

  function Encode(s: nat): (r: seq<Byte>)
    requires s <= 0x10FFFF
    ensures |r| == Trail(s) + 1
  {
    if s < 0x80 then [s as Byte]
    else if s < 0x800 then [(0xC0 + s / 64) as Byte, Continuation(s)]
    else if s < 0x10000 then [(0xE0 + s / 4096) as Byte, Continuation(s / 64), Continuation(s)]
    else [(0xF0 + s / 262144) as Byte, Continuation(s / 4096), Continuation(s / 64), Continuation(s)]
  }

  function EncodeAll(scalars: seq<nat>): seq<Byte>
    requires forall k | 0 <= k < |scalars| :: scalars[k] <= 0x10FFFF
  {
    if scalars == [] then [] else Encode(scalars[0]) + EncodeAll(scalars[1..])
  }

  ghost predicate EncodingOf(scalars: seq<nat>, text: seq<Byte>) {
    (forall k | 0 <= k < |scalars| :: ScalarValue(scalars[k])) && text == EncodeAll(scalars)
  }

  /** The text is a concatenation of encodings of scalar values. */
  ghost predicate WellFormed(text: seq<Byte>) {
    exists scalars :: EncodingOf(scalars, text)
  }

  // ----- the first character of a text -----

  /** How many bytes follow a lead byte; 4 for a byte that leads nothing. */
  function Count(lead: Byte): nat {
    if lead < 0x80 then 0
    else if 0xC2 <= lead <= 0xDF then 1
    else if 0xE0 <= lead <= 0xEF then 2
    else if 0xF0 <= lead <= 0xF4 then 3
    else 4
  }

  function LeadBits(lead: Byte): nat {
    var count := Count(lead);
    if count == 0 then lead as nat
    else if count == 1 then (lead % 0x20) as nat
    else if count == 2 then (lead % 0x10) as nat
    else (lead % 0x08) as nat
  }

  /** The scalar that the lead byte and the first `k` bytes after it make. */
  function Gathered(text: seq<Byte>, k: nat): nat
    requires k < |text|
  {
    if k == 0 then LeadBits(text[0]) else Gathered(text, k - 1) * 64 + (text[k] % 64) as nat
  }

  predicate Continues(b: Byte) {
    b / 64 == 2
  }

  predicate Allowed(count: nat, s: nat) {
    var minimum := if count == 1 then 0x80 else if count == 2 then 0x800 else 0x10000;
    !(s < minimum || s > 0x10FFFF || (0xD800 <= s <= 0xDFFF))
  }

  /** A valid character is at the start of the text. */
  predicate StartsWell(text: seq<Byte>)
    requires text != []
  {
    var count := Count(text[0]);
    count == 0 ||
    (count <= 3 && count < |text| && (forall k | 1 <= k <= count :: Continues(text[k]))
     && Allowed(count, Gathered(text, count)))
  }

  /** An encoding starts well, and its lead byte says how long it is. */
  lemma EncodedStartsWell(s: nat, rest: seq<Byte>)
    requires ScalarValue(s)
    ensures var text := Encode(s) + rest;
            Count(text[0]) == Trail(s) && StartsWell(text)
  {
    var text := Encode(s) + rest;
    var e := Encode(s);
    assert forall k | 0 <= k < |e| :: text[k] == e[k];
    if s >= 0x80 {
      EncodedGathers(s, text);
    }
  }

  // The digits of a scalar to the base 64.

  lemma Digits(s: nat)
    ensures s == s / 64 * 64 + s % 64 && s / 4096 == s / 64 / 64 && s / 262144 == s / 64 / 64 / 64
  {
  }

  lemma ContinuationBits(bits: nat)
    ensures Continues(Continuation(bits)) && (Continuation(bits) % 64) as nat == bits % 64
  {
  }

  lemma ContinuationOf(b: Byte)
    requires Continues(b)
    ensures b as nat == 0x80 + (b % 64) as nat
  {
  }

  lemma Lead1(x: nat)
    requires 2 <= x < 32
    ensures var lead := (0xC0 + x) as Byte; Count(lead) == 1 && LeadBits(lead) == x
  {
  }

  lemma Lead2(x: nat)
    requires x < 16
    ensures var lead := (0xE0 + x) as Byte; Count(lead) == 2 && LeadBits(lead) == x
  {
  }

  lemma Lead3(x: nat)
    requires x <= 4
    ensures var lead := (0xF0 + x) as Byte; Count(lead) == 3 && LeadBits(lead) == x
  {
  }

  lemma EncodedGathers(s: nat, text: seq<Byte>)
    requires 0x80 <= s <= 0x10FFFF && Trail(s) < |text| && forall k | 0 <= k <= Trail(s) :: text[k] == Encode(s)[k]
    ensures Count(text[0]) == Trail(s)
    ensures Gathered(text, Trail(s)) == s && forall k | 1 <= k <= Trail(s) :: Continues(text[k])
  {
    hide Count, LeadBits, Continues, Continuation, Gathered;
    Digits(s);
    ContinuationBits(s);
    ContinuationBits(s / 64);
    ContinuationBits(s / 4096);
    GatherFirst(text);
    if s < 0x800 {
      Lead1(s / 64);
      GatherNext(text, 1);
    } else if s < 0x10000 {
      Lead2(s / 4096);
      Digits(s / 64);
      GatherNext(text, 1);
      GatherNext(text, 2);
    } else {
      Lead3(s / 262144);
      Digits(s / 64);
      Digits(s / 4096);
      GatherNext(text, 1);
      GatherNext(text, 2);
      GatherNext(text, 3);
    }
  }

  lemma GatherFirst(text: seq<Byte>)
    requires text != []
    ensures Gathered(text, 0) == LeadBits(text[0])
  {
  }

  /** A lead byte from its bits. */
  lemma LeadFrom(lead: Byte)
    ensures Count(lead) == 1 ==> lead as nat == 0xC0 + LeadBits(lead) && 2 <= LeadBits(lead) < 32
    ensures Count(lead) == 2 ==> lead as nat == 0xE0 + LeadBits(lead) && LeadBits(lead) < 16
    ensures Count(lead) == 3 ==> lead as nat == 0xF0 + LeadBits(lead) && LeadBits(lead) <= 4
  {
  }

  lemma Quotients(x: nat, y: nat)
    requires y < 64
    ensures (x * 64 + y) / 64 == x && (x * 64 + y) % 64 == y
  {
  }

  lemma SameContinuation(b: Byte, bits: nat)
    requires Continues(b) && (b % 64) as nat == bits % 64
    ensures b == Continuation(bits)
  {
    ContinuationOf(b);
  }

  /** What starts well is the encoding of the scalar that was gathered. */
  lemma StartIsEncoding(text: seq<Byte>)
    requires text != [] && StartsWell(text)
    ensures var count := Count(text[0]);
            count < |text| && ScalarValue(Gathered(text, count)) && text[..count + 1] == Encode(Gathered(text, count))
  {
    hide Encode, Count, LeadBits, Continues, Gathered, Bits;
    var count := Count(text[0]);
    GatherFirst(text);
    if count == 0 {
      Lead0(text[0]);
      assert text[..1] == [text[0]];
    } else {
      assert Continues(text[1]);
      GatherNext(text, 1);
      if count == 1 {
        Encode1(text[0], text[1]);
        assert text[..2] == [text[0], text[1]];
      } else {
        GatherNext(text, 2);
        assert Continues(text[2]);
        if count == 2 {
          Encode2(text[0], text[1], text[2]);
          assert text[..3] == [text[0], text[1], text[2]];
        } else {
          assert Continues(text[3]);
          GatherNext(text, 3);
          Encode3(text[0], text[1], text[2], text[3]);
          assert text[..4] == [text[0], text[1], text[2], text[3]];
        }
      }
    }
  }

  function Bits(b: Byte): (n: nat)
    ensures n < 64
  {
    (b % 64) as nat
  }

  lemma Encode1(lead: Byte, b: Byte)
    requires Count(lead) == 1 && Continues(b)
    ensures var s := LeadBits(lead) * 64 + Bits(b);
            0x80 <= s < 0x800 && Encode(s) == [lead, b]
  {
    LeadFrom(lead);
    hide Count, LeadBits, Continues, Continuation, Bits;
    var s := LeadBits(lead) * 64 + Bits(b);
    Quotients(LeadBits(lead), Bits(b));
    SameBits(b, s);
  }

  lemma SameBits(b: Byte, bits: nat)
    requires Continues(b) && Bits(b) == bits % 64
    ensures b == Continuation(bits)
  {
    SameContinuation(b, bits);
  }

  lemma Encode2(lead: Byte, b: Byte, c: Byte)
    requires Count(lead) == 2 && Continues(b) && Continues(c)
    ensures var s := (LeadBits(lead) * 64 + Bits(b)) * 64 + Bits(c);
            s < 0x10000 && (s >= 0x800 ==> Encode(s) == [lead, b, c])
  {
    LeadFrom(lead);
    hide Count, LeadBits, Continues, Continuation, Bits;
    var one := LeadBits(lead) * 64 + Bits(b);
    var s := one * 64 + Bits(c);
    Quotients(LeadBits(lead), Bits(b));
    Quotients(one, Bits(c));
    Digits(s);
    SameBits(b, s / 64);
    SameBits(c, s);
  }

  lemma Encode3(lead: Byte, b: Byte, c: Byte, d: Byte)
    requires Count(lead) == 3 && Continues(b) && Continues(c) && Continues(d)
    ensures var s := ((LeadBits(lead) * 64 + Bits(b)) * 64 + Bits(c)) * 64 + Bits(d);
            0x10000 <= s <= 0x10FFFF ==> Encode(s) == [lead, b, c, d]
  {
    LeadFrom(lead);
    hide Count, LeadBits, Continues, Continuation, Bits;
    var one := LeadBits(lead) * 64 + Bits(b);
    var two := one * 64 + Bits(c);
    var s := two * 64 + Bits(d);
    Quotients(LeadBits(lead), Bits(b));
    Quotients(one, Bits(c));
    Quotients(two, Bits(d));
    Digits(s);
    SameBits(b, s / 4096);
    SameBits(c, s / 64);
    SameBits(d, s);
  }

  lemma Lead0(lead: Byte)
    requires Count(lead) == 0
    ensures LeadBits(lead) == lead as nat < 0x80 && Encode(LeadBits(lead)) == [lead]
  {
  }

  /** A text is well formed exactly when it starts well and the rest is well formed. */
  lemma OneCharacter(text: seq<Byte>)
    requires text != []
    ensures WellFormed(text) <==> StartsWell(text) && Count(text[0]) < |text| && WellFormed(text[Count(text[0]) + 1..])
  {
    if WellFormed(text) {
      var scalars :| EncodingOf(scalars, text);
      EncodedStartsWell(scalars[0], EncodeAll(scalars[1..]));
      assert text[Trail(scalars[0]) + 1..] == EncodeAll(scalars[1..]);
      assert EncodingOf(scalars[1..], text[Count(text[0]) + 1..]);
    }
    if StartsWell(text) && Count(text[0]) < |text| && WellFormed(text[Count(text[0]) + 1..]) {
      StartIsEncoding(text);
      var count := Count(text[0]);
      var s := Gathered(text, count);
      var scalars :| EncodingOf(scalars, text[count + 1..]);
      var all := [s] + scalars;
      assert all[1..] == scalars && text == text[..count + 1] + text[count + 1..];
      assert EncodingOf(all, text);
    }
  }

  /** The validator: it reads no byte past the end, and its answer is exact. */
  method ValidUtf8(text: seq<Byte>) returns (valid: bool)
    ensures valid <==> WellFormed(text)
  {
    hide StartsWell, Count, Gathered, EncodeAll, WellFormed;
    var index := 0;
    while index < |text|
      invariant 0 <= index <= |text|
      invariant WellFormed(text) <==> WellFormed(text[index..])
    {
      ghost var rest := text[index..];
      OneCharacter(rest);
      var lead := text[index];
      Leads(rest);
      if lead < 0x80 {
        index := index + 1;
        continue;
      }
      var count: nat, scalar: nat;
      if 0xC2 <= lead <= 0xDF {
        count, scalar := 1, (lead % 0x20) as nat;
      } else if 0xE0 <= lead <= 0xEF {
        count, scalar := 2, (lead % 0x10) as nat;
      } else if 0xF0 <= lead <= 0xF4 {
        count, scalar := 3, (lead % 0x08) as nat;
      } else {
        return false;
      }
      if |text| - index <= count {
        return false;
      }
      var next := 1;
      while next <= count
        invariant 1 <= next <= count + 1
        invariant scalar == Gathered(rest, next - 1)
        invariant forall k | 1 <= k < next :: Continues(rest[k])
      {
        var byte := text[index + next];
        if !Continues(byte) {
          Broken(rest, next);
          return false;
        }
        GatherNext(rest, next);
        scalar := scalar * 64 + (byte % 64) as nat;
        next := next + 1;
      }
      StartsWhen(rest, scalar);
      if !Allowed(count, scalar) {
        return false;
      }
      assert text[index..][count + 1..] == text[index + count + 1..];
      index := index + count + 1;
    }
    Nothing();
    assert text[index..] == [];
    return true;
  }

  lemma Nothing()
    ensures WellFormed([])
  {
    assert EncodingOf([], []);
  }

  lemma Leads(text: seq<Byte>)
    requires text != []
    ensures text[0] < 0x80 ==> Count(text[0]) == 0 && StartsWell(text)
    ensures 0xC2 <= text[0] <= 0xDF ==> Count(text[0]) == 1 && Gathered(text, 0) == (text[0] % 0x20) as nat
    ensures 0xE0 <= text[0] <= 0xEF ==> Count(text[0]) == 2 && Gathered(text, 0) == (text[0] % 0x10) as nat
    ensures 0xF0 <= text[0] <= 0xF4 ==> Count(text[0]) == 3 && Gathered(text, 0) == (text[0] % 0x08) as nat
    ensures text[0] >= 0x80 && !(0xC2 <= text[0] <= 0xF4) ==> !StartsWell(text)
    ensures text[0] >= 0x80 && |text| <= Count(text[0]) ==> !StartsWell(text)
  {
  }

  lemma Broken(text: seq<Byte>, k: nat)
    requires text != [] && 1 <= k <= Count(text[0]) && k < |text| && !Continues(text[k])
    ensures !StartsWell(text)
  {
  }

  lemma GatherNext(text: seq<Byte>, k: nat)
    requires 1 <= k < |text|
    ensures Gathered(text, k) == Gathered(text, k - 1) * 64 + Bits(text[k])
    ensures Bits(text[k]) == (text[k] % 64) as nat
  {
  }

  lemma StartsWhen(text: seq<Byte>, s: nat)
    requires text != [] && 1 <= Count(text[0]) <= 3 && Count(text[0]) < |text| && s == Gathered(text, Count(text[0]))
    requires forall k | 1 <= k <= Count(text[0]) :: Continues(text[k])
    ensures StartsWell(text) <==> Allowed(Count(text[0]), s)
  {
  }
}
