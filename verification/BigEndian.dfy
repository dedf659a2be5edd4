/** Fixed-width big-endian integers. */
module BigEndian {
  import opened Hashing

  /** `256^w`, the number of values of `w` bytes. */
  function Range(w: nat): (r: nat)
    ensures r > 0
  {
    if w == 0 then 1 else 256 * Range(w - 1)
  }

  lemma Ranges()
    ensures Range(1) == 0x100 && Range(2) == 0x1_0000 && Range(4) == 0x1_0000_0000
    ensures Range(8) == 0x1_0000_0000_0000_0000
  {
    assert Range(3) == 256 * Range(2) && Range(5) == 256 * Range(4) && Range(7) == 256 * Range(6);
  }

  function Be(v: nat, w: nat): (s: seq<byte>)
    ensures |s| == w
  {
    if w == 0 then [] else Be(v / 256, w - 1) + [v % 256]
  }

  function FromBe(s: seq<byte>): nat {
    if s == [] then 0 else 256 * FromBe(s[..|s| - 1]) + s[|s| - 1]
  }

  lemma {:induction false} FromBeRange(s: seq<byte>)
    ensures FromBe(s) < Range(|s|)
  {
    if s != [] {
      FromBeRange(s[..|s| - 1]);
    }
  }

  lemma {:induction false} FromBeOfBe(v: nat, w: nat)
    requires v < Range(w)
    ensures FromBe(Be(v, w)) == v
  {
    if w > 0 {
      FromBeOfBe(v / 256, w - 1);
      var s := Be(v, w);
      assert s[..|s| - 1] == Be(v / 256, w - 1);
    }
  }

  lemma {:induction false} BeOfFromBe(s: seq<byte>)
    ensures Be(FromBe(s), |s|) == s
  {
    if s != [] {
      BeOfFromBe(s[..|s| - 1]);
      assert FromBe(s) / 256 == FromBe(s[..|s| - 1]);
    }
  }
}
