/** Big-endian unsigned integers of a fixed width, as struct's '>Q' and '>H' pack them. */
module BigEndian {
  import opened Common

  function Pack(n: nat, width: nat): (s: Bytes)
    ensures |s| == width
  {
    if width == 0 then [] else Pack(n / 256, width - 1) + [n % 256]
  }

  function Unpack(s: Bytes): nat {
    if s == [] then 0 else 256 * Unpack(s[..|s| - 1]) + s[|s| - 1]
  }

  function Capacity(width: nat): nat {
    if width == 0 then 1 else 256 * Capacity(width - 1)
  }

  lemma {:induction false} UnpackPack(n: nat, width: nat)
    requires n < Capacity(width)
    ensures Unpack(Pack(n, width)) == n
  {
    if width > 0 {
      UnpackPack(n / 256, width - 1);
      assert Pack(n, width)[..width - 1] == Pack(n / 256, width - 1);
    }
  }

  lemma {:induction false} PackUnpack(s: Bytes)
    ensures Pack(Unpack(s), |s|) == s
    ensures Unpack(s) < Capacity(|s|)
  {
    if s != [] {
      var front := s[..|s| - 1];
      PackUnpack(front);
      assert Unpack(s) / 256 == Unpack(front) && Unpack(s) % 256 == s[|s| - 1];
      assert s == front + [s[|s| - 1]];
    }
  }

  lemma Capacities()
    ensures Capacity(8) == 0x1_0000_0000_0000_0000 && Capacity(2) == 0x1_0000
  {
    assert Capacity(2) == 0x1_0000;
    assert Capacity(4) == 0x1_0000_0000;
    assert Capacity(6) == 0x1_0000_0000_0000;
  }

  /** The first byte counts most. */
  lemma {:induction false} FirstCountsMost(s: Bytes)
    requires s != []
    ensures Unpack(s) == s[0] * Capacity(|s| - 1) + Unpack(s[1..])
  {
    if |s| > 1 {
      var front, last := s[..|s| - 1], s[|s| - 1];
      FirstCountsMost(front);
      assert s[1..] == front[1..] + [last] && s[1..][..|s| - 2] == front[1..];
      var c, rest := Capacity(|s| - 2), Unpack(front[1..]);
      assert Unpack(s) == 256 * Unpack(front) + last && Unpack(s[1..]) == 256 * rest + last;
      assert front[0] == s[0] && Unpack(front) == s[0] * c + rest;
      hide Unpack, Capacity;
      OnePlaceUp(s[0], c, rest);
      assert Capacity(|s| - 1) == 256 * c by {
        NextCapacity(|s| - 1);
      }
    }
  }

  lemma OnePlaceUp(digit: nat, c: nat, rest: nat)
    ensures 256 * (digit * c + rest) == digit * (256 * c) + 256 * rest
  {
  }

  lemma NextCapacity(width: nat)
    requires width > 0
    ensures Capacity(width) == 256 * Capacity(width - 1)
  {
  }

  lemma {:induction false} PackZero(width: nat)
    ensures Pack(0, width) == Fill(0, width)
  {
    if width > 0 {
      PackZero(width - 1);
      assert Pack(0, width) == Pack(0, width - 1) + [0];
    }
  }

  /** A number below 256 fills the last byte only. */
  lemma PackSmall(n: nat, width: nat)
    requires n < 256 && width > 0
    ensures Pack(n, width) == Fill(0, width - 1) + [n]
  {
    PackZero(width - 1);
    assert n / 256 == 0 && n % 256 == n;
  }
}
