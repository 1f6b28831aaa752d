/** MongoDB object ids as the stores use them: a 12-byte value, printed by
    `toString()` as 24 lower-case hexadecimal digits and rebuilt by
    `new ObjectId(id)` from a 24-digit hexadecimal string of either case (any
    other string makes the constructor throw). */
module ObjectIds {
  import opened Prelude

  const HexWidth: nat := 24

  function Pow16(n: nat): (p: nat)
    ensures p >= 1
  {
    if n == 0 then 1 else 16 * Pow16(n - 1)
  }

  /** An object id: a number below 16^24 (twelve bytes). */
  datatype ObjectId = ObjectId(value: nat)

  predicate ValidObjectId(o: ObjectId) {
    o.value < Pow16(HexWidth)
  }

  /** The ids the driver can actually produce. */
  type Oid = o: ObjectId | ValidObjectId(o) witness ObjectId(0)

  predicate IsHexDigit(c: char) {
    ('0' <= c <= '9') || ('a' <= c <= 'f') || ('A' <= c <= 'F')
  }

  predicate AllHex(s: string) {
    forall i :: 0 <= i < |s| ==> IsHexDigit(s[i])
  }

  predicate AllLowerHex(s: string) {
    forall i :: 0 <= i < |s| ==> ('0' <= s[i] <= '9') || ('a' <= s[i] <= 'f')
  }

  function HexDigitValue(c: char): (d: nat)
    requires IsHexDigit(c)
    ensures d < 16
  {
    if '0' <= c <= '9' then c as int - '0' as int
    else if 'a' <= c <= 'f' then c as int - 'a' as int + 10
    else c as int - 'A' as int + 10
  }

  function LowerHexChar(d: nat): (c: char)
    requires d < 16
    ensures IsHexDigit(c) && HexDigitValue(c) == d
    ensures ('0' <= c <= '9') || ('a' <= c <= 'f')
  {
    if d < 10 then ('0' as int + d) as char else ('a' as int + d - 10) as char
  }

  function HexValue(s: string): nat
    requires AllHex(s)
  {
    if s == [] then 0 else HexValue(s[..|s| - 1]) * 16 + HexDigitValue(s[|s| - 1])
  }

  /** `n` as exactly `width` lower-case hexadecimal digits. */
  function HexPad(n: nat, width: nat): (s: string)
    requires n < Pow16(width)
    ensures |s| == width && AllHex(s) && AllLowerHex(s)
    ensures HexValue(s) == n
  {
    if width == 0 then []
    else
      var prefix := HexPad(n / 16, width - 1);
      var s := prefix + [LowerHexChar(n % 16)];
      assert s[..|s| - 1] == prefix;
      s
  }

  lemma {:induction false} HexValueBound(s: string)
    requires AllHex(s)
    ensures HexValue(s) < Pow16(|s|)
  {
    if s != [] {
      HexValueBound(s[..|s| - 1]);
    }
  }

  /** `ObjectId.toString()`. */
  function IdString(o: Oid): (s: string)
    ensures |s| == HexWidth && AllLowerHex(s)
  {
    HexPad(o.value, HexWidth)
  }

  datatype IdError = InvalidObjectIdString(input: string)

  /** `new ObjectId(s)` for a string argument. */
  function ParseObjectId(s: string): (r: Result<Oid, IdError>)
    ensures r.Ok? <==> |s| == HexWidth && AllHex(s)
  {
    if |s| == HexWidth && AllHex(s) then
      HexValueBound(s);
      Ok(ObjectId(HexValue(s)))
    else Err(InvalidObjectIdString(s))
  }

  /** The id string a record is serialized with is accepted back by the
      constructor and names the same record. */
  lemma IdStringRoundTrip(o: Oid)
    ensures ParseObjectId(IdString(o)) == Ok(o)
  {
  }

  /** Two distinct ids never print the same. */
  lemma IdStringInjective(a: Oid, b: Oid)
    ensures IdString(a) == IdString(b) ==> a == b
  {
    if IdString(a) == IdString(b) {
      IdStringRoundTrip(a);
      IdStringRoundTrip(b);
    }
  }
}
