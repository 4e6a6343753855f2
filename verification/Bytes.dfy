/** Byte strings, the raw material of every codec here. */
module Bytes {
  type byte = x: int | 0 <= x < 256
  type bytes = seq<byte>

  datatype Option<+T> = None | Some(value: T)

  /** tolower, for ASCII. */
  function Lower(c: byte): byte { if 65 <= c <= 90 then c + 32 else c }

  /** Two bytes are the same but for case when they are equal or the capital and the small form of a letter. */
  lemma SameButForCase(c: byte, d: byte)
    ensures Lower(c) == Lower(d) <==>
              || c == d
              || ('A' as int <= c <= 'Z' as int && d - 'a' as int == c - 'A' as int)
              || ('A' as int <= d <= 'Z' as int && c - 'a' as int == d - 'A' as int)
    ensures !('A' as int <= Lower(c) <= 'Z' as int)
  {
  }

  function Min(x: nat, y: nat): nat { if x < y then x else y }

  function Concat<T>(parts: seq<seq<T>>): seq<T> {
    if parts == [] then [] else Concat(parts[..|parts| - 1]) + parts[|parts| - 1]
  }

  lemma ConcatAppend<T>(parts: seq<seq<T>>, p: seq<T>)
    ensures Concat(parts + [p]) == Concat(parts) + p
  {
    assert (parts + [p])[..|parts|] == parts;
  }

  lemma ConcatNone<T>()
    ensures Concat<T>([]) == []
  {
  }

  /** x shifted right by k bytes. */
  function ShiftBytes(x: nat, k: nat): nat {
    if k == 0 then x else ShiftBytes(x / 256, k - 1)
  }

  /** The byte of x with weight 256^k. */
  function ByteOf(x: nat, k: nat): byte { ShiftBytes(x, k) % 256 }

  // Numbers written in base 64.

  lemma Digits3(a: nat, b: nat, c: nat)
    requires b < 64 && c < 64
    ensures var cp := (a * 64 + b) * 64 + c; cp / 4096 == a && cp / 64 % 64 == b && cp % 64 == c
  {
    var cp := (a * 64 + b) * 64 + c;
    assert cp / 64 == a * 64 + b;
  }

  lemma Digits4(a: nat, b: nat, c: nat, d: nat)
    requires b < 64 && c < 64 && d < 64
    ensures var cp := ((a * 64 + b) * 64 + c) * 64 + d;
            cp / 262144 == a && cp / 4096 % 64 == b && cp / 64 % 64 == c && cp % 64 == d
  {
    var q := (a * 64 + b) * 64 + c;
    Digits3(a, b, c);
    var cp := q * 64 + d;
    assert cp / 64 == q;
    assert cp / 4096 == q / 64 && cp / 262144 == q / 4096;
  }
}
