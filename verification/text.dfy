/** The text layer under the leaf encoders and the hasher: the UTF-8 bytes of
    a string (what `str::as_bytes` hands to the hasher), concatenation of a
    list of strings, joining fields with the `:` separator and splitting them
    again, and decimal rendering of integers (what `{}` does to an `i32` or
    an `i64`). */
module Text {

  type Byte = bv8

  // ---------------------------------------------------------------------
  // UTF-8
  // ---------------------------------------------------------------------

  /** A continuation byte carrying six payload bits of `x`. */
  function ContinuationByte(x: nat): (b: Byte)
    ensures 0x80 <= b < 0xC0
  {
    (0x80 + x % 0x40) as Byte
  }

  /** A lead byte: `marker` followed by the high payload bits `high`. */
  function LeadByte(marker: nat, high: nat): (b: Byte)
    requires 0xC0 <= marker && marker + high < 0x100
    ensures 0xC0 <= b
  {
    (marker + high) as Byte
  }

  /** The UTF-8 encoding of one Unicode scalar value: one to four bytes, the
      first one below 0x80 exactly for ASCII, the others continuation bytes. */
  function CharBytes(c: char): (r: seq<Byte>)
    ensures 1 <= |r| <= 4
    ensures |r| == 1 <==> (c as int) < 0x80
    ensures (c as int) < 0x80 ==> r == [(c as int) as Byte]
    ensures (c as int) >= 0x80 ==> 0xC0 <= r[0]
    ensures forall i :: 1 <= i < |r| ==> 0x80 <= r[i] < 0xC0
  {
    var v := c as int;
    if v < 0x80 then
      [v as Byte]
    else if v < 0x800 then
      [LeadByte(0xC0, v / 0x40), ContinuationByte(v)]
    else if v < 0x1_0000 then
      [LeadByte(0xE0, v / 0x1000), ContinuationByte(v / 0x40), ContinuationByte(v)]
    else
      [LeadByte(0xF0, v / 0x4_0000), ContinuationByte(v / 0x1000),
       ContinuationByte(v / 0x40), ContinuationByte(v)]
  }

  /** The UTF-8 bytes of a string, character by character. */
  function Utf8(s: string): (r: seq<Byte>)
    ensures |s| <= |r| <= 4 * |s|
  {
    if s == [] then [] else CharBytes(s[0]) + Utf8(s[1..])
  }

  /** Encoding distributes over concatenation, so hashing the bytes of two
      strings one after the other is hashing the bytes of their join. */
  lemma {:induction false} Utf8Append(a: string, b: string)
    ensures Utf8(a + b) == Utf8(a) + Utf8(b)
  {
    if a == [] {
      assert a + b == b;
    } else {
      assert (a + b)[0] == a[0];
      assert (a + b)[1..] == a[1..] + b;
      Utf8Append(a[1..], b);
    }
  }

  // ---------------------------------------------------------------------
  // Concatenation of a list of strings
  // ---------------------------------------------------------------------

  /** `ss[0] + ss[1] + ... + ss[|ss|-1]`. */
  function Concat(ss: seq<string>): string
  {
    if ss == [] then "" else ss[0] + Concat(ss[1..])
  }

  lemma {:induction false} ConcatAppend(a: seq<string>, b: seq<string>)
    ensures Concat(a + b) == Concat(a) + Concat(b)
  {
    if a == [] {
      assert a + b == b;
    } else {
      assert (a + b)[0] == a[0];
      assert (a + b)[1..] == a[1..] + b;
      ConcatAppend(a[1..], b);
    }
  }

  // ---------------------------------------------------------------------
  // Joining fields with the separator, and splitting them again
  // ---------------------------------------------------------------------

  /** The field separator of every leaf format string. */
  const Separator: char := ':'

  predicate SeparatorFree(s: string)
  {
    Separator !in s
  }

  /** The fields with one separator between neighbours, as a
      `"{}:{}:...:{}"` format string lays them out. */
  function Join(fields: seq<string>): string
  {
    if |fields| == 0 then ""
    else if |fields| == 1 then fields[0]
    else fields[0] + [Separator] + Join(fields[1..])
  }

  /** Joining a field in front of a non-empty list puts one separator
      between it and the join of the rest. */
  lemma JoinCons(x: string, rest: seq<string>)
    requires |rest| >= 1
    ensures Join([x] + rest) == x + [Separator] + Join(rest)
  {
    assert ([x] + rest)[1..] == rest;
  }

  /** The maximal separator-free pieces of a string, left to right. Leaves
      are never split by the original; this is the reading a verifier of a
      leaf would have to apply, and the measure of its ambiguity. */
  function Split(s: string): (r: seq<string>)
    ensures |r| >= 1
    ensures forall i :: 0 <= i < |r| ==> SeparatorFree(r[i])
  {
    if s == [] then [""]
    else if s[0] == Separator then [""] + Split(s[1..])
    else
      var t := Split(s[1..]);
      [[s[0]] + t[0]] + t[1..]
  }

  /** A string without separators is a single piece. */
  lemma {:induction false} SplitSeparatorFree(w: string)
    requires SeparatorFree(w)
    ensures Split(w) == [w]
  {
    if w != [] {
      assert w[0] != Separator;
      assert SeparatorFree(w[1..]) by {
        forall i | 0 <= i < |w[1..]| ensures w[1..][i] != Separator {
          assert w[1..][i] == w[i + 1];
        }
      }
      SplitSeparatorFree(w[1..]);
      assert w == [w[0]] + w[1..];
    }
  }

  /** A separator cuts the pieces in two: the pieces of `a` followed by
      the pieces of `b`. */
  lemma {:induction false} SplitAtSeparator(a: string, b: string)
    ensures Split(a + [Separator] + b) == Split(a) + Split(b)
  {
    var s := a + [Separator] + b;
    if a == [] {
      assert s == [Separator] + b;
      assert s[1..] == b;
    } else {
      assert s[0] == a[0];
      assert s[1..] == a[1..] + [Separator] + b;
      SplitAtSeparator(a[1..], b);
      if a[0] == Separator {
      } else {
        var t := Split(a[1..]) + Split(b);
        assert t[0] == Split(a[1..])[0];
        assert t[1..] == Split(a[1..])[1..] + Split(b);
      }
    }
  }

  /** Splitting a join of separator-free fields recovers exactly those
      fields: the encoding is unambiguous as long as no field contains the
      separator. */
  lemma {:induction false} SplitJoin(fields: seq<string>)
    requires |fields| >= 1
    requires forall i :: 0 <= i < |fields| ==> SeparatorFree(fields[i])
    ensures Split(Join(fields)) == fields
  {
    SplitSeparatorFree(fields[0]);
    if |fields| > 1 {
      SplitAtSeparator(fields[0], Join(fields[1..]));
      SplitJoin(fields[1..]);
      assert fields == [fields[0]] + fields[1..];
    }
  }

  /** A string is one piece exactly when it holds no separator. */
  lemma {:induction false} SplitSingleton(w: string)
    ensures |Split(w)| == 1 <==> SeparatorFree(w)
  {
    if w != [] {
      SplitSingleton(w[1..]);
      assert w == [w[0]] + w[1..];
      if w[0] == Separator {
        assert |Split(w)| == 1 + |Split(w[1..])|;
      } else {
        assert |Split(w)| == |Split(w[1..])|;
        assert SeparatorFree(w) <==> SeparatorFree(w[1..]);
      }
    }
  }

  /** The pieces of each field, field by field, in order. */
  function SplitAll(fields: seq<string>): seq<string>
  {
    if fields == [] then [] else Split(fields[0]) + SplitAll(fields[1..])
  }

  /** A join reads back as the pieces of its fields, field by field: each
      separator the format puts between two fields cuts there, and each
      separator inside a field cuts that field. */
  lemma {:induction false} SplitJoinAll(fields: seq<string>)
    requires |fields| >= 1
    ensures Split(Join(fields)) == SplitAll(fields)
  {
    if |fields| == 1 {
      assert SplitAll(fields) == Split(fields[0]) + SplitAll([]);
    } else {
      SplitAtSeparator(fields[0], Join(fields[1..]));
      SplitJoinAll(fields[1..]);
    }
  }

  /** Every field gives at least one piece, and exactly one each when none
      holds the separator. */
  lemma {:induction false} SplitAllBound(fields: seq<string>)
    ensures |SplitAll(fields)| >= |fields|
    ensures |SplitAll(fields)| == |fields| <==> forall i :: 0 <= i < |fields| ==> SeparatorFree(fields[i])
  {
    if fields != [] {
      SplitSingleton(fields[0]);
      SplitAllBound(fields[1..]);
      if forall i :: 0 <= i < |fields| ==> SeparatorFree(fields[i]) {
        assert forall i :: 0 <= i < |fields[1..]| ==> SeparatorFree(fields[1..][i]) by {
          forall i | 0 <= i < |fields[1..]| ensures SeparatorFree(fields[1..][i]) {
            assert fields[1..][i] == fields[i + 1];
          }
        }
      }
      if |SplitAll(fields)| == |fields| {
        forall i | 0 <= i < |fields| ensures SeparatorFree(fields[i]) {
          if i > 0 {
            assert fields[i] == fields[1..][i - 1];
          }
        }
      }
    }
  }

  /** A join of `n` fields reads back as the pieces of its fields: at least
      `n` of them, exactly `n` when no field holds the separator, and in
      that case the fields themselves. */
  lemma JoinFieldCount(fields: seq<string>)
    requires |fields| >= 1
    ensures Split(Join(fields)) == SplitAll(fields)
    ensures |Split(Join(fields))| >= |fields|
    ensures |Split(Join(fields))| == |fields| <==> forall i :: 0 <= i < |fields| ==> SeparatorFree(fields[i])
    ensures (forall i :: 0 <= i < |fields| ==> SeparatorFree(fields[i])) ==> Split(Join(fields)) == fields
  {
    SplitJoinAll(fields);
    SplitAllBound(fields);
    if forall i :: 0 <= i < |fields| ==> SeparatorFree(fields[i]) {
      SplitJoin(fields);
    }
  }

  // ---------------------------------------------------------------------
  // Decimal rendering of integers
  // ---------------------------------------------------------------------

  predicate IsDigit(c: char)
  {
    '0' <= c <= '9'
  }

  predicate AllDigits(s: string)
  {
    forall i :: 0 <= i < |s| ==> IsDigit(s[i])
  }

  function DigitChar(d: nat): (c: char)
    requires d < 10
    ensures IsDigit(c)
  {
    (d + '0' as int) as char
  }

  function DigitValue(c: char): (d: nat)
    requires IsDigit(c)
    ensures d < 10
  {
    (c as int) - ('0' as int)
  }

  /** Decimal digits of a natural number, most significant first, with no
      leading zeros. */
  function NatToDecimal(n: nat): (r: string)
    ensures |r| >= 1
    ensures AllDigits(r)
    ensures |r| > 1 ==> r[0] != '0'
  {
    if n < 10 then [DigitChar(n)] else NatToDecimal(n / 10) + [DigitChar(n % 10)]
  }

  /** How `{}` renders an integer: an optional minus sign, then the digits. */
  function IntToDecimal(n: int): (r: string)
    ensures |r| >= 1 && SeparatorFree(r)
    ensures r[0] == '-' <==> n < 0
  {
    if n < 0 then "-" + NatToDecimal(-n) else NatToDecimal(n)
  }

  /** Reads decimal digits back; the reference reading of NatToDecimal. */
  function ParseNat(s: string): nat
    requires AllDigits(s)
  {
    if s == [] then 0 else ParseNat(s[..|s| - 1]) * 10 + DigitValue(s[|s| - 1])
  }

  /** Reads an optional minus sign and decimal digits back. */
  function ParseInt(s: string): int
    requires |s| >= 1
    requires s[0] == '-' ==> AllDigits(s[1..])
    requires s[0] != '-' ==> AllDigits(s)
  {
    if s[0] == '-' then 0 - ParseNat(s[1..]) else ParseNat(s)
  }

  lemma {:induction false} NatDecimalRoundTrip(n: nat)
    ensures ParseNat(NatToDecimal(n)) == n
  {
    if n >= 10 {
      var s := NatToDecimal(n);
      assert s[..|s| - 1] == NatToDecimal(n / 10);
      NatDecimalRoundTrip(n / 10);
    }
  }

  /** Parsing the rendering of an integer gives the integer back. */
  lemma IntDecimalRoundTrip(n: int)
    ensures ParseInt(IntToDecimal(n)) == n
  {
    if n < 0 {
      assert IntToDecimal(n)[1..] == NatToDecimal(-n);
      NatDecimalRoundTrip(-n);
    } else {
      NatDecimalRoundTrip(n);
    }
  }

  /** Distinct integers render differently. */
  lemma IntToDecimalInjective(a: int, b: int)
    ensures IntToDecimal(a) == IntToDecimal(b) <==> a == b
  {
    IntDecimalRoundTrip(a);
    IntDecimalRoundTrip(b);
  }
}
