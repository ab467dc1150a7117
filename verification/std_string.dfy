/** The parts of `std::string` the class-name macros use, with the
    unsigned `size_type` arithmetic written out: `npos` is the largest
    value, and `+` and `-` wrap modulo 2^64. */
module StdString {
  import opened Wrappers

  const SizeModulus: int := 0x1_0000_0000_0000_0000

  type SizeType = x: int | 0 <= x < SizeModulus

  /** "Not found", and the largest size_type value. */
  const Npos: SizeType := SizeModulus - 1

  /** Unsigned addition and subtraction, wrapping as size_type does. */
  function SizeAdd(a: SizeType, b: SizeType): SizeType { (a + b) % SizeModulus }
  function SizeSub(a: SizeType, b: SizeType): SizeType { (a - b) % SizeModulus }

  /** A string the library can hold: shorter than `npos`. */
  predicate Representable(s: string) { |s| < Npos }

  /** The exception `erase` throws for a start position past the end. */
  datatype StringError = OutOfRange

  function Min(a: int, b: int): int { if a <= b then a else b }

  /** `find_first_of` with a one-character set: the first index of `c`, or `npos`. */
  function FindFirstOf(s: string, c: char): (r: SizeType)
    requires Representable(s)
    ensures r == Npos <==> c !in s
    ensures r != Npos ==> r < |s| && s[r] == c && c !in s[..r]
    decreases |s|
  {
    if |s| == 0 then Npos
    else if s[0] == c then 0
    else
      var k := FindFirstOf(s[1..], c);
      if k == Npos then Npos
      else
        assert s[..k + 1] == [s[0]] + s[1..][..k];
        k + 1
  }

  /** `find_last_of` with a one-character set: the last index of `c`, or `npos`. */
  function FindLastOf(s: string, c: char): (r: SizeType)
    requires Representable(s)
    ensures r == Npos <==> c !in s
    ensures r != Npos ==> r < |s| && s[r] == c && c !in s[r + 1..]
    decreases |s|
  {
    if |s| == 0 then Npos
    else if s[|s| - 1] == c then |s| - 1
    else
      var init := s[..|s| - 1];
      assert s == init + [s[|s| - 1]];
      var k := FindLastOf(init, c);
      assert k != Npos ==> s[k + 1..] == init[k + 1..] + [s[|s| - 1]];
      k
  }

  /** `erase(pos, len)`: removes `min(len, size - pos)` characters from
      `pos`; throws `out_of_range` when `pos > size`. */
  function Erase(s: string, pos: SizeType, len: SizeType): (r: Result<string, StringError>)
    ensures r.Failure? <==> pos > |s|
    ensures r.Success? ==>
              var n := Min(len, |s| - pos);
              && |r.value| == |s| - n
              && r.value[..pos] == s[..pos]
              && r.value[pos..] == s[pos + n..]
  {
    if pos > |s| then Failure(OutOfRange)
    else Success(s[..pos] + s[pos + Min(len, |s| - pos)..])
  }

  /** An index holding `c` with no `c` before it is what find_first_of finds. */
  lemma FirstIndexIsFound(s: string, c: char, k: nat)
    requires Representable(s)
    requires k < |s| && s[k] == c && c !in s[..k]
    ensures FindFirstOf(s, c) == k
  {
  }

  /** An index holding `c` with no `c` after it is what find_last_of finds. */
  lemma LastIndexIsFound(s: string, c: char, k: nat)
    requires Representable(s)
    requires k < |s| && s[k] == c && c !in s[k + 1..]
    ensures FindLastOf(s, c) == k
  {
  }
}
