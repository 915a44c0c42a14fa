/** Numbers as bytes, most significant byte first. */
module BigEndian {
  import opened Basics

  function Put16(v: u16): (s: seq<u8>)
    ensures |s| == 2
  {
    [v / 0x100, v % 0x100]
  }

  function Put32(v: u32): (s: seq<u8>)
    ensures |s| == 4
  {
    Put16(v / 0x1_0000) + Put16(v % 0x1_0000)
  }

  function Put64(v: u64): (s: seq<u8>)
    ensures |s| == 8
  {
    Put32(v / 0x1_0000_0000) + Put32(v % 0x1_0000_0000)
  }

  function Get16(s: seq<u8>, at: nat): u16
    requires at + 2 <= |s|
  {
    (s[at] as int) * 0x100 + s[at + 1]
  }

  function Get32(s: seq<u8>, at: nat): u32
    requires at + 4 <= |s|
  {
    (Get16(s, at) as int) * 0x1_0000 + Get16(s, at + 2)
  }

  function Get64(s: seq<u8>, at: nat): u64
    requires at + 8 <= |s|
  {
    (Get32(s, at) as int) * 0x1_0000_0000 + Get32(s, at + 4)
  }

  lemma GetPut16(s: seq<u8>, at: nat, v: u16)
    requires at + 2 <= |s|
    ensures s[at..at + 2] == Put16(v) <==> Get16(s, at) == v
  {
    assert s[at..at + 2] == [s[at], s[at + 1]];
    assert s[at] == Get16(s, at) / 0x100 && s[at + 1] == Get16(s, at) % 0x100;
  }

  lemma GetPut32(s: seq<u8>, at: nat, v: u32)
    requires at + 4 <= |s|
    ensures s[at..at + 4] == Put32(v) <==> Get32(s, at) == v
  {
    var hi, lo := Get16(s, at), Get16(s, at + 2);
    GetPut16(s, at, v / 0x1_0000);
    GetPut16(s, at + 2, v % 0x1_0000);
    assert s[at..at + 4] == s[at..at + 2] + s[at + 2..at + 4];
    assert Put32(v)[..2] == Put16(v / 0x1_0000) && Put32(v)[2..] == Put16(v % 0x1_0000);
    assert s[at..at + 4][..2] == s[at..at + 2] && s[at..at + 4][2..] == s[at + 2..at + 4];
    assert Get32(s, at) / 0x1_0000 == hi && Get32(s, at) % 0x1_0000 == lo;
  }

  /** Eight bytes spell v exactly when reading them gives v. */
  lemma GetPut64(s: seq<u8>, at: nat, v: u64)
    requires at + 8 <= |s|
    ensures s[at..at + 8] == Put64(v) <==> Get64(s, at) == v
  {
    var hi, lo := Get32(s, at), Get32(s, at + 4);
    GetPut32(s, at, v / 0x1_0000_0000);
    GetPut32(s, at + 4, v % 0x1_0000_0000);
    assert s[at..at + 8] == s[at..at + 4] + s[at + 4..at + 8];
    assert Put64(v)[..4] == Put32(v / 0x1_0000_0000) && Put64(v)[4..] == Put32(v % 0x1_0000_0000);
    assert s[at..at + 8][..4] == s[at..at + 4] && s[at..at + 8][4..] == s[at + 4..at + 8];
    assert Get64(s, at) / 0x1_0000_0000 == hi && Get64(s, at) % 0x1_0000_0000 == lo;
  }
}
