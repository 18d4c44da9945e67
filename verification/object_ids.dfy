/** Store identifiers: the string rule of `ObjectId.isValid`, the parse done by
    `new ObjectId(id)` and the canonical form printed by `toString()`. */
module ObjectIds {
  import opened Wrappers

  predicate IsHexDigit(c: char) {
    '0' <= c <= '9' || 'a' <= c <= 'f' || 'A' <= c <= 'F'
  }

  predicate IsLowerHexDigit(c: char) {
    '0' <= c <= '9' || 'a' <= c <= 'f'
  }

  /** `ObjectId.isValid(s)` for a string: exactly 24 hexadecimal digits. */
  predicate IsValid(s: string)
    ensures IsCanonical(s) ==> IsValid(s)
    ensures IsValid(s) ==> |s| == 24
  {
    |s| == 24 && forall i :: 0 <= i < |s| ==> IsHexDigit(s[i])
  }

  predicate IsCanonical(s: string) {
    |s| == 24 && forall i :: 0 <= i < |s| ==> IsLowerHexDigit(s[i])
  }

  /** A store identifier, kept in the form `toString()` prints: 24 lower-case hex digits. */
  type ObjectId = s: string | IsCanonical(s) witness "000000000000000000000000"

  function LowerHex(c: char): (d: char)
    requires IsHexDigit(c)
    ensures IsLowerHexDigit(d)
    ensures IsLowerHexDigit(c) ==> d == c
  {
    if 'A' <= c <= 'F' then (c as int + 32) as char else c
  }

  /** `new ObjectId(s)`: the identifier `s` denotes, or None where the constructor throws. */
  function Parse(s: string): (r: Option<ObjectId>)
    ensures r.Some? <==> IsValid(s)
    ensures r.Some? ==> forall i :: 0 <= i < |s| ==> r.value[i] == LowerHex(s[i])
    ensures IsCanonical(s) ==> r == Some(s)
  {
    if IsValid(s) then
      var id := seq(|s|, i requires 0 <= i < |s| => LowerHex(s[i]));
      assert IsCanonical(s) ==> id == s;
      Some(id)
    else None
  }

  /** `id.toString()`: a valid identifier string that parses back to `id`. */
  function ToString(id: ObjectId): (s: string)
    ensures IsValid(s) && Parse(s) == Some(id)
  {
    id
  }
}
