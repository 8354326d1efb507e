// Types shared by every component: machine-width integers, IPv4 addresses,
// big-endian fields, and the two failure-carrying results.
module Basics {
  datatype Option<+T> = None | Some(value: T)

  datatype Result<+T, +E> = Success(value: T) | Failure(error: E)

  // The machine widths of the source, as ranges: assigning a value to a variable of one of
  // these types proves that it does not overflow.
  type Byte = b: int | 0 <= b < 0x100
  type U16 = w: int | 0 <= w < 0x1_0000
  type U32 = w: int | 0 <= w < 0x1_0000_0000

  // `u16::from_be_bytes`
  function BE16(hi: Byte, lo: Byte): U16 {
    hi * 0x100 + lo
  }

  // `u16::to_be_bytes`
  function Put16(w: U16): seq<Byte> {
    [w / 0x100, w % 0x100]
  }

  // `Ipv4Addr`: four octets.
  datatype Ipv4 = Ipv4(a: Byte, b: Byte, c: Byte, d: Byte)
  {
    // `u32::from`
    function AsU32(): U32 {
      BE16(a, b) * 0x1_0000 + BE16(c, d)
    }
  }

  // `SocketAddr`, IPv4 relays only.
  datatype SocketAddr = SocketAddr(ip: Ipv4, port: U16)

  lemma BE16Put16(w: U16)
    ensures BE16(Put16(w)[0], Put16(w)[1]) == w
  {
  }

  lemma Put16BE16(hi: Byte, lo: Byte)
    ensures Put16(BE16(hi, lo)) == [hi, lo]
  {
  }

  lemma SliceOfDrop<T>(s: seq<T>, a: nat, b: nat, c: nat)
    requires b <= c && a + c <= |s|
    ensures s[a..][b..c] == s[a + b..a + c]
  {
  }

  lemma SliceOfSlice<T>(s: seq<T>, a: nat, e: nat, b: nat, c: nat)
    requires a <= e <= |s| && b <= c && a + c <= e
    ensures s[a..e][b..c] == s[a + b..a + c]
  {
    assert forall i :: 0 <= i < c - b ==> s[a..e][b..c][i] == s[a..e][b + i] == s[a + b + i];
  }

  lemma DropPrefix<T>(s: seq<T>, t: seq<T>)
    ensures (s + t)[|s|..] == t && (s + t)[..|s|] == s
  {
  }

  lemma TakeDropPrefix<T>(s: seq<T>, t: seq<T>, k: nat)
    requires |s| <= k <= |s + t|
    ensures (s + t)[..k][|s|..] == t[..k - |s|]
  {
  }

  function Min(a: int, b: int): int {
    if a <= b then a else b
  }

  // The elements of `s` that satisfy `keep`, in order (`iter().filter(..)`).
  function Filter<T(!new)>(s: seq<T>, keep: T -> bool): (r: seq<T>)
    ensures forall x :: x in r <==> x in s && keep(x)
  {
    if s == [] then []
    else
      var rest := Filter(s[1..], keep);
      assert forall x :: x in s <==> x == s[0] || x in s[1..];
      if keep(s[0]) then [s[0]] + rest else rest
  }

  // `char::to_ascii_lowercase`
  function LowerChar(c: char): char {
    if 'A' <= c <= 'Z' then ((c as int) + 32) as char else c
  }

  function Lower(s: string): string {
    seq(|s|, i requires 0 <= i < |s| => LowerChar(s[i]))
  }
}
