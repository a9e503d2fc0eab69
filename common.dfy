/** Shared vocabulary: optional values, results, MongoDB object IDs and substring search. */
module Common {

  /** Go's nil-able pointer. */
  datatype Option<+T> = None | Some(value: T)

  /** A Go `(value, error)` pair: exactly one side is meaningful. */
  datatype Result<+T, +E> = Success(value: T) | Failure(error: E)

  /** A MongoDB ObjectID, read as the 96-bit number its 24 hex digits spell. */
  type ObjectId = nat

  /** primitive.NilObjectID: twelve zero bytes. */
  const NilObjectId: ObjectId := 0

  predicate IsHexDigit(c: char)
  {
    '0' <= c <= '9' || 'a' <= c <= 'f' || 'A' <= c <= 'F'
  }

  function HexDigitValue(c: char): (v: nat)
    requires IsHexDigit(c)
    ensures v < 16
  {
    if '0' <= c <= '9' then c as int - '0' as int
    else if 'a' <= c <= 'f' then c as int - 'a' as int + 10
    else c as int - 'A' as int + 10
  }

  function Pow16(n: nat): (p: nat)
    ensures p >= 1
  {
    if n == 0 then 1 else 16 * Pow16(n - 1)
  }

  /** The number spelled by a string of hex digits, most significant digit first. */
  function HexValue(s: string): (v: nat)
    requires forall i :: 0 <= i < |s| ==> IsHexDigit(s[i])
    ensures v < Pow16(|s|)
  {
    if s == [] then 0 else 16 * HexValue(s[..|s| - 1]) + HexDigitValue(s[|s| - 1])
  }

  /** primitive.ObjectIDFromHex: exactly 24 hex digits, otherwise an error. */
  function ObjectIdFromHex(s: string): (r: Option<ObjectId>)
    ensures r.Some? <==> |s| == 24 && forall i :: 0 <= i < |s| ==> IsHexDigit(s[i])
    ensures r.Some? ==> r.value < Pow16(24)
  {
    if |s| == 24 && forall i :: 0 <= i < |s| ==> IsHexDigit(s[i]) then Some(HexValue(s)) else None
  }

  /** `sub` occurs in `s` at position `i`. */
  predicate OccursAt(sub: string, s: string, i: nat)
  {
    i + |sub| <= |s| && s[i..i + |sub|] == sub
  }

  /** Go's strings.Contains(s, sub), searching from the left. */
  function Contains(s: string, sub: string): (r: bool)
    ensures r <==> exists i: nat :: OccursAt(sub, s, i)
    decreases |s|
  {
    if |sub| > |s| then
      false
    else if s[..|sub|] == sub then
      assert OccursAt(sub, s, 0);
      true
    else
      OccurrenceShift(s, sub);
      Contains(s[1..], sub)
  }

  /** Without a match at the front, `sub` occurs in `s` exactly when it occurs in `s[1..]`. */
  lemma OccurrenceShift(s: string, sub: string)
    requires |sub| <= |s| && s[..|sub|] != sub
    ensures (exists i: nat :: OccursAt(sub, s, i)) <==> (exists i: nat :: OccursAt(sub, s[1..], i))
  {
    forall i: nat | OccursAt(sub, s, i) ensures i > 0 && OccursAt(sub, s[1..], i - 1) {
      if i > 0 { assert s[1..][i - 1..i - 1 + |sub|] == s[i..i + |sub|]; }
    }
    forall i: nat | OccursAt(sub, s[1..], i) ensures OccursAt(sub, s, i + 1) {
      assert s[1..][i..i + |sub|] == s[i + 1..i + 1 + |sub|];
    }
  }

  /** Every text that has `sub` inside it contains `sub`. */
  lemma {:induction false} ContainsInfix(prefix: string, sub: string, suffix: string)
    ensures Contains(prefix + sub + suffix, sub)
  {
    var s := prefix + sub + suffix;
    assert s[|prefix|..|prefix| + |sub|] == sub;
    assert OccursAt(sub, s, |prefix|);
  }
}
