/**
  MongoDB ObjectIds as the handlers see them. The store keys documents by a
  native 12-byte id; the API only ever shows its 24-character lower-case hex
  string, and turns a path or body string back into an id by accepting exactly
  24 hexadecimal characters of either case.
 */
module ObjectIds {
  import opened Wrappers
  import opened Text

  /** Characters in the string form of an id (12 bytes, two digits each). */
  const HexWidth: nat := 24

  /** Number of distinct ids: 16^24 = 2^96. */
  const IdSpace: nat := 0x1_0000_0000_0000_0000_0000_0000

  type IdValue = n: nat | n < IdSpace

  /** A native id, identified with the 96-bit number its bytes spell. */
  datatype ObjectId = ObjectId(value: IdValue)

  predicate IsHexChar(c: char) {
    '0' <= c <= '9' || 'a' <= c <= 'f' || 'A' <= c <= 'F'
  }

  predicate IsLowerHexChar(c: char) {
    '0' <= c <= '9' || 'a' <= c <= 'f'
  }

  predicate AllHex(s: string) {
    forall i :: 0 <= i < |s| ==> IsHexChar(s[i])
  }

  /** The strings an ObjectId can be built from. */
  predicate ValidOid(s: string) {
    |s| == HexWidth && AllHex(s)
  }

  /** The lower-case hex digit for `d`. */
  function DigitChar(d: nat): (c: char)
    requires d < 16
    ensures IsLowerHexChar(c)
  {
    if d < 10 then ('0' as int + d) as char else ('a' as int + d - 10) as char
  }

  /** The value of one hex digit; upper and lower case read the same. */
  function DigitValue(c: char): (d: nat)
    requires IsHexChar(c)
    ensures d < 16
    ensures DigitChar(d) == LowerChar(c)
  {
    if '0' <= c <= '9' then c as int - '0' as int
    else if 'a' <= c <= 'f' then c as int - 'a' as int + 10
    else c as int - 'A' as int + 10
  }

  function Pow16(k: nat): (p: nat)
    ensures p >= 1
  {
    if k == 0 then 1 else 16 * Pow16(k - 1)
  }

  lemma {:induction false} Pow16Add(a: nat, b: nat)
    ensures Pow16(a + b) == Pow16(a) * Pow16(b)
  {
    if a > 0 {
      Pow16Add(a - 1, b);
    }
  }

  lemma Pow16Width()
    ensures Pow16(HexWidth) == IdSpace
  {
    assert Pow16(12) == 0x1_0000_0000_0000;
    Pow16Add(12, 12);
  }

  /** The `k` low-order hex digits of `v`, most significant first. */
  function Encode(v: nat, k: nat): (s: string)
    ensures |s| == k
    ensures forall i :: 0 <= i < k ==> IsLowerHexChar(s[i])
  {
    if k == 0 then "" else Encode(v / 16, k - 1) + [DigitChar(v % 16)]
  }

  /** The number a string of hex digits spells, most significant first. */
  function Decode(s: string): (v: nat)
    requires AllHex(s)
    ensures v < Pow16(|s|)
  {
    if s == [] then 0
    else
      var v0 := Decode(s[..|s| - 1]);
      assert v0 <= Pow16(|s| - 1) - 1;
      v0 * 16 + DigitValue(s[|s| - 1])
  }

  /** `ObjectId(s)` in bson: an id for every valid string, an error otherwise. */
  function Parse(s: string): (r: Option<ObjectId>)
    ensures r.Some? <==> ValidOid(s)
  {
    if ValidOid(s) then
      Pow16Width();
      Some(ObjectId(Decode(s)))
    else None
  }

  /** `str(oid)`: the canonical 24-character lower-case form. */
  function Str(id: ObjectId): (s: string)
    ensures ValidOid(s)
    ensures Lower(s) == s
  {
    var s := Encode(id.value, HexWidth);
    assert forall i :: 0 <= i < |s| ==> LowerChar(s[i]) == s[i];
    s
  }

  lemma {:induction false} DecodeEncode(v: nat, k: nat)
    requires v < Pow16(k)
    ensures forall i :: 0 <= i < k ==> IsHexChar(Encode(v, k)[i])
    ensures Decode(Encode(v, k)) == v
  {
    if k > 0 {
      var s := Encode(v, k);
      assert s[..k - 1] == Encode(v / 16, k - 1);
      DecodeEncode(v / 16, k - 1);
    }
  }

  lemma {:induction false} EncodeDecode(s: string)
    requires AllHex(s)
    ensures Encode(Decode(s), |s|) == Lower(s)
  {
    if s != [] {
      var p := s[..|s| - 1];
      var c := s[|s| - 1];
      EncodeDecode(p);
      var v := Decode(s);
      assert v / 16 == Decode(p);
      assert v % 16 == DigitValue(c);
      assert s == p + [c];
      LowerAppend(p, [c]);
    }
  }

  /** Printing an id and parsing the string gives the id back. */
  lemma ParseStr(id: ObjectId)
    ensures Parse(Str(id)) == Some(id)
  {
    Pow16Width();
    DecodeEncode(id.value, HexWidth);
  }

  /** Parsing a valid string and printing the id gives the string lower-cased. */
  lemma StrParse(s: string)
    requires ValidOid(s)
    ensures Str(Parse(s).value) == Lower(s)
  {
    EncodeDecode(s);
  }

  /** Distinct ids have distinct string forms. */
  lemma StrInjective(a: ObjectId, b: ObjectId)
    ensures Str(a) == Str(b) <==> a == b
  {
    if Str(a) == Str(b) {
      ParseStr(a);
      ParseStr(b);
    }
  }

  lemma StrInjectiveAll()
    ensures forall a: ObjectId, b: ObjectId :: Str(a) == Str(b) ==> a == b
  {
    forall a: ObjectId, b: ObjectId | Str(a) == Str(b) {
      StrInjective(a, b);
    }
  }

  lemma ParseStrAll()
    ensures forall id: ObjectId :: Parse(Str(id)) == Some(id)
  {
    forall id: ObjectId {
      ParseStr(id);
    }
  }

  /** The first id at or above `n` that `used` does not hold. */
  function SearchFree(used: set<ObjectId>, n: nat): (r: Option<ObjectId>)
    requires n <= IdSpace
    ensures r.Some? ==> r.value !in used && n <= r.value.value
    decreases IdSpace - n
  {
    if n == IdSpace then None
    else if ObjectId(n) !in used then Some(ObjectId(n))
    else SearchFree(used, n + 1)
  }

  /** The ids numbered below `n`. */
  ghost function IdsBelow(n: nat): set<ObjectId>
    requires n <= IdSpace
  {
    set i: nat | i < n :: ObjectId(i)
  }

  lemma {:induction false} IdsBelowSize(n: nat)
    requires n <= IdSpace
    ensures |IdsBelow(n)| == n
  {
    if n > 0 {
      IdsBelowSize(n - 1);
      assert IdsBelow(n) == IdsBelow(n - 1) + {ObjectId(n - 1)};
    }
  }

  lemma {:induction false} SearchFailedCovers(used: set<ObjectId>, n: nat)
    requires n <= IdSpace
    requires SearchFree(used, n).None?
    ensures forall i: nat :: n <= i < IdSpace ==> ObjectId(i) in used
    decreases IdSpace - n
  {
    if n < IdSpace {
      SearchFailedCovers(used, n + 1);
    }
  }

  /** Pigeonhole: fewer than 2^96 used ids always leave one free. */
  lemma SearchSucceeds(used: set<ObjectId>)
    ensures |used| < IdSpace ==> SearchFree(used, 0).Some?
  {
    if SearchFree(used, 0).None? {
      SearchFailedCovers(used, 0);
      IdsBelowSize(IdSpace);
      assert IdsBelow(IdSpace) <= used;
      assert |used| == |IdsBelow(IdSpace)| + |used - IdsBelow(IdSpace)|;
    }
  }

  /**
    The id a new insert receives. The model picks the lowest id not already
    used in the collection; only its freshness matters to the handlers.
   */
  function FreshId(used: set<ObjectId>): (r: Option<ObjectId>)
    ensures r.Some? ==> r.value !in used
    ensures |used| < IdSpace ==> r.Some?
  {
    SearchSucceeds(used);
    SearchFree(used, 0)
  }
}
