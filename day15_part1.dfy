/** Day 15, part 1: the HASH algorithm run on every step of the initialization sequence.
    Each byte is added to the running value, which is then multiplied by 17 and reduced
    modulo 256. */
module Day15Part1 {
  import opened Text

  /** The HASH fold from the running value `acc` over the bytes of `s`, first byte first. */
  function HashFrom(acc: nat, s: string): (h: nat)
    ensures s != [] ==> h < 256
    ensures s == [] ==> h == acc
    decreases |s|
  {
    if s == [] then acc else HashFrom(((acc + s[0] as int) * 17) % 256, s[1..])
  }

  /** The HASH of a string: the fold started from zero. */
  function Hash(s: string): (h: nat)
    ensures h < 256
  {
    HashFrom(0, s)
  }

  /** Hashing one more byte is one more step of the fold. */
  lemma {:induction false} HashFromAppend(acc: nat, s: string, c: char)
    ensures HashFrom(acc, s + [c]) == ((HashFrom(acc, s) + c as int) * 17) % 256
    decreases |s|
  {
    if s != [] {
      assert (s + [c])[1..] == s[1..] + [c];
      HashFromAppend(((acc + s[0] as int) * 17) % 256, s[1..], c);
    }
  }

  /** Hashing `a + b` is hashing `b` from the hash of `a`. */
  lemma {:induction false} HashFromConcat(acc: nat, a: string, b: string)
    ensures HashFrom(acc, a + b) == HashFrom(HashFrom(acc, a), b)
    decreases |a|
  {
    if a != [] {
      assert (a + b)[1..] == a[1..] + b;
      HashFromConcat(((acc + a[0] as int) * 17) % 256, a[1..], b);
    } else {
      assert a + b == b;
    }
  }

  /** The hash of a string with one more byte, from the hash of the string. */
  lemma HashAppend(s: string, c: char)
    ensures Hash(s + [c]) == ((Hash(s) + c as int) * 17) % 256
  {
    HashFromAppend(0, s, c);
  }

  /** The steps: the input without trailing whitespace, split on commas. */
  function Steps(input: string): seq<string>
  {
    Split(TrimEnd(input), ",")
  }

  /** The sum of the hashes of `steps`; each adds at most 255. */
  function SumHashes(steps: seq<string>): (t: nat)
    ensures t <= 255 * |steps|
  {
    if steps == [] then 0 else Hash(steps[0]) + SumHashes(steps[1..])
  }

  lemma {:induction false} SumHashesConcat(a: seq<string>, b: seq<string>)
    ensures SumHashes(a + b) == SumHashes(a) + SumHashes(b)
    decreases |a|
  {
    if a != [] {
      assert (a + b)[1..] == a[1..] + b;
      SumHashesConcat(a[1..], b);
    } else {
      assert a + b == b;
    }
  }

  /** `solve`: the sum of the hashes of the steps. */
  function Solve(input: string): (r: nat)
    ensures r <= 255 * |Steps(input)|
  {
    SumHashes(Steps(input))
  }
}
