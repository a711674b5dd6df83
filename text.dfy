/** Byte strings: the `std::string` values the configuration code reads, compares, hashes
    and upper-cases. */
module Text {

  /** One `char` of a `std::string`. */
  type byte = bv8

  type Bytes = seq<byte>

  /** The bytes of an ASCII text (the field names the code looks up). */
  function Ascii(s: string): (r: Bytes)
    ensures |r| == |s|
  {
    seq(|s|, i requires 0 <= i < |s| => (s[i] as int % 256) as bv8)
  }

  predicate IsLower(b: byte) {
    0x61 <= b <= 0x7A
  }

  /** `at::toupper`: every ASCII letter a..z becomes A..Z, every other byte is kept. */
  function ToUpper(s: Bytes): (r: Bytes)
    ensures |r| == |s|
    ensures forall i :: 0 <= i < |r| ==> !IsLower(r[i])
    ensures forall i :: 0 <= i < |r| ==> r[i] == s[i] || (IsLower(s[i]) && r[i] == s[i] - 0x20)
  {
    seq(|s|, i requires 0 <= i < |s| => if IsLower(s[i]) then s[i] - 0x20 else s[i])
  }

  /** Upper-casing twice changes nothing more than upper-casing once. */
  lemma ToUpperIdempotent(s: Bytes)
    ensures ToUpper(ToUpper(s)) == ToUpper(s)
  {
    var u := ToUpper(s);
    forall i | 0 <= i < |u|
      ensures ToUpper(u)[i] == u[i]
    {
      assert !IsLower(u[i]);
    }
  }

  /** `std::string` ordering (the key order of a `std::map`): lexicographic on unsigned bytes. */
  predicate Less(a: Bytes, b: Bytes) {
    |b| > 0 && (|a| == 0 || a[0] < b[0] || (a[0] == b[0] && Less(a[1..], b[1..])))
  }

  lemma {:induction false} LessIrreflexive(a: Bytes)
    ensures !Less(a, a)
  {
    if |a| > 0 {
      LessIrreflexive(a[1..]);
    }
  }

  lemma {:induction false} LessTrichotomy(a: Bytes, b: Bytes)
    ensures a == b || Less(a, b) || Less(b, a)
  {
    if |a| > 0 && |b| > 0 && a[0] == b[0] {
      LessTrichotomy(a[1..], b[1..]);
      if a[1..] == b[1..] {
        assert a == [a[0]] + a[1..] && b == [b[0]] + b[1..];
      }
    }
  }

  lemma {:induction false} LessTransitive(a: Bytes, b: Bytes, c: Bytes)
    requires Less(a, b) && Less(b, c)
    ensures Less(a, c)
  {
    if |a| > 0 && a[0] == b[0] && b[0] == c[0] {
      LessTransitive(a[1..], b[1..], c[1..]);
    }
  }
}
