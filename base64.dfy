/** Go's `base64.StdEncoding.DecodeString`: the standard alphabet of
    section 4 of RFC 4648, padded with `=`, as Go's non-strict decoder reads
    it. Carriage returns and line feeds anywhere in the input are skipped;
    the remaining characters must form whole groups of four, only the last of
    which may end in `==` or `=`; the unused low bits of a padded final group
    are ignored. */
module Base64 {
  import opened Wrappers
  import opened GoTypes

  predicate IsAlphabet(c: char)
  {
    ('A' <= c <= 'Z') || ('a' <= c <= 'z') || ('0' <= c <= '9') || c == '+' || c == '/'
  }

  /** The 6-bit value of an alphabet character. */
  function DecodeChar(c: char): (v: nat)
    requires IsAlphabet(c)
    ensures v < 64
  {
    if 'A' <= c <= 'Z' then c as int - 'A' as int
    else if 'a' <= c <= 'z' then c as int - 'a' as int + 26
    else if '0' <= c <= '9' then c as int - '0' as int + 52
    else if c == '+' then 62
    else 63
  }

  /** The alphabet character of a 6-bit value. */
  function EncodeChar(v: nat): (c: char)
    requires v < 64
    ensures IsAlphabet(c) && DecodeChar(c) == v
  {
    if v < 26 then ('A' as int + v) as char
    else if v < 52 then ('a' as int + (v - 26)) as char
    else if v < 62 then ('0' as int + (v - 52)) as char
    else if v == 62 then '+'
    else '/'
  }

  predicate IsNewline(c: char)
  {
    c == '\r' || c == '\n'
  }

  /** The input with every carriage return and line feed removed. */
  function StripNewlines(s: string): (r: string)
    ensures |r| <= |s|
    ensures forall i :: 0 <= i < |r| ==> !IsNewline(r[i])
    ensures (forall i :: 0 <= i < |s| ==> !IsNewline(s[i])) ==> r == s
  {
    if s == [] then []
    else if IsNewline(s[0]) then StripNewlines(s[1..])
    else [s[0]] + StripNewlines(s[1..])
  }

  /** The first byte of a group: all six bits of `a`, the top two of `b`. */
  function Byte0(a: nat, b: nat): byte
    requires a < 64 && b < 64
  {
    (a * 4 + b / 16) as byte
  }

  /** The second byte of a group: the low four bits of `b`, the top four of `c`. */
  function Byte1(b: nat, c: nat): byte
    requires b < 64 && c < 64
  {
    ((b % 16) * 16 + c / 4) as byte
  }

  /** The third byte of a group: the low two bits of `c`, all six of `d`. */
  function Byte2(c: nat, d: nat): byte
    requires c < 64 && d < 64
  {
    ((c % 4) * 64 + d) as byte
  }

  /** Decodes a newline-free input group by group. */
  function DecodeGroups(s: string): (r: Option<seq<byte>>)
    ensures r.Some? ==> |s| % 4 == 0 && |s| / 4 * 3 - 2 <= |r.value| <= |s| / 4 * 3
    decreases |s|
  {
    if s == [] then Some([])
    else if |s| < 4 || !IsAlphabet(s[0]) || !IsAlphabet(s[1]) then None
    else
      var a, b := DecodeChar(s[0]), DecodeChar(s[1]);
      if s[2] == '=' then
        if s[3] == '=' && |s| == 4 then Some([Byte0(a, b)]) else None
      else if !IsAlphabet(s[2]) then None
      else
        var c := DecodeChar(s[2]);
        if s[3] == '=' then
          if |s| == 4 then Some([Byte0(a, b), Byte1(b, c)]) else None
        else if !IsAlphabet(s[3]) then None
        else
          var d := DecodeChar(s[3]);
          match DecodeGroups(s[4..])
          case None => None
          case Some(rest) => Some([Byte0(a, b), Byte1(b, c), Byte2(c, d)] + rest)
  }

  /** `base64.StdEncoding.DecodeString`; `None` stands for Go's
      `CorruptInputError`. */
  function DecodeString(s: string): Option<seq<byte>>
  {
    DecodeGroups(StripNewlines(s))
  }

  /** The four characters of a final group holding one byte. */
  function Group1(b0: byte): (g: string)
    ensures |g| == 4 && !IsNewline(g[0]) && !IsNewline(g[1]) && g[2] == '=' && g[3] == '='
  {
    var x := b0 as nat;
    [EncodeChar(x / 4), EncodeChar((x % 4) * 16), '=', '=']
  }

  /** The four characters of a final group holding two bytes. */
  function Group2(b0: byte, b1: byte): (g: string)
    ensures |g| == 4 && !IsNewline(g[0]) && !IsNewline(g[1]) && !IsNewline(g[2]) && g[3] == '='
  {
    var x, y := b0 as nat, b1 as nat;
    assert (x % 4) * 16 + y / 16 < 64;
    [EncodeChar(x / 4), EncodeChar((x % 4) * 16 + y / 16), EncodeChar((y % 16) * 4), '=']
  }

  /** The four characters of a full group of three bytes. */
  function Group3(b0: byte, b1: byte, b2: byte): (g: string)
    ensures |g| == 4 && forall i :: 0 <= i < 4 ==> IsAlphabet(g[i]) && !IsNewline(g[i])
  {
    var x, y, z := b0 as nat, b1 as nat, b2 as nat;
    assert (x % 4) * 16 + y / 16 < 64;
    assert (y % 16) * 4 + z / 64 < 64;
    [EncodeChar(x / 4), EncodeChar((x % 4) * 16 + y / 16), EncodeChar((y % 16) * 4 + z / 64), EncodeChar(z % 64)]
  }

  /** The padded standard encoding of a byte sequence (Go's `EncodeToString`),
      the reference the decoder is checked against. */
  function Encode(bs: seq<byte>): (s: string)
    ensures |s| % 4 == 0
    ensures forall i :: 0 <= i < |s| ==> !IsNewline(s[i])
    decreases |bs|
  {
    if bs == [] then []
    else if |bs| == 1 then Group1(bs[0])
    else if |bs| == 2 then Group2(bs[0], bs[1])
    else
      var rest := Encode(bs[3..]);
      var g := Group3(bs[0], bs[1], bs[2]);
      assert forall i :: 4 <= i < |g + rest| ==> (g + rest)[i] == rest[i - 4];
      g + rest
  }

  lemma SplitFirst(x: nat, y: nat)
    requires x < 256 && y < 256
    ensures Byte0(x / 4, (x % 4) * 16 + y / 16) == x as byte
  {
    assert ((x % 4) * 16 + y / 16) / 16 == x % 4;
  }

  lemma SplitSecond(x: nat, y: nat, z: nat)
    requires x < 256 && y < 256 && z < 256
    ensures Byte1((x % 4) * 16 + y / 16, (y % 16) * 4 + z / 64) == y as byte
  {
    assert ((x % 4) * 16 + y / 16) % 16 == y / 16;
    assert ((y % 16) * 4 + z / 64) / 4 == y % 16;
  }

  lemma SplitThird(y: nat, z: nat)
    requires y < 256 && z < 256
    ensures Byte2((y % 16) * 4 + z / 64, z % 64) == z as byte
  {
    assert ((y % 16) * 4 + z / 64) % 4 == z / 64;
  }

  lemma DecodeGroup1(b0: byte)
    ensures DecodeGroups(Group1(b0)) == Some([b0])
  {
    var x := b0 as nat;
    SplitFirst(x, 0);
    assert (x % 4) * 16 + 0 / 16 == (x % 4) * 16;
  }

  lemma DecodeGroup2(b0: byte, b1: byte)
    ensures DecodeGroups(Group2(b0, b1)) == Some([b0, b1])
  {
    var x, y := b0 as nat, b1 as nat;
    SplitFirst(x, y);
    SplitSecond(x, y, 0);
    assert (y % 16) * 4 + 0 / 64 == (y % 16) * 4;
  }

  lemma DecodeGroup3(b0: byte, b1: byte, b2: byte, rest: string)
    requires DecodeGroups(rest).Some?
    ensures DecodeGroups(Group3(b0, b1, b2) + rest) == Some([b0, b1, b2] + DecodeGroups(rest).value)
  {
    var x, y, z := b0 as nat, b1 as nat, b2 as nat;
    var a, b, c, d := x / 4, (x % 4) * 16 + y / 16, (y % 16) * 4 + z / 64, z % 64;
    assert b < 64 && c < 64;
    var g := Group3(b0, b1, b2);
    assert g == [EncodeChar(a), EncodeChar(b), EncodeChar(c), EncodeChar(d)];
    var s := g + rest;
    assert s[..4] == g && s[4..] == rest;
    SplitFirst(x, y);
    SplitSecond(x, y, z);
    SplitThird(y, z);
    assert [Byte0(a, b), Byte1(b, c), Byte2(c, d)] == [b0, b1, b2];
    GroupThenRest(s, a, b, c, d);
  }

  /** A full group of four alphabet characters in front decodes to its three
      bytes ahead of the rest. */
  lemma GroupThenRest(s: string, a: nat, b: nat, c: nat, d: nat)
    requires a < 64 && b < 64 && c < 64 && d < 64
    requires |s| >= 4 && s[..4] == [EncodeChar(a), EncodeChar(b), EncodeChar(c), EncodeChar(d)]
    requires DecodeGroups(s[4..]).Some?
    ensures DecodeGroups(s) == Some([Byte0(a, b), Byte1(b, c), Byte2(c, d)] + DecodeGroups(s[4..]).value)
  {
    assert s[0] == s[..4][0] && s[1] == s[..4][1] && s[2] == s[..4][2] && s[3] == s[..4][3];
    assert DecodeChar(s[0]) == a && DecodeChar(s[1]) == b && DecodeChar(s[2]) == c && DecodeChar(s[3]) == d;
    assert s[2] != '=' && s[3] != '=';
  }

  lemma Split3(bs: seq<byte>)
    requires |bs| >= 3
    ensures bs == [bs[0], bs[1], bs[2]] + bs[3..]
  {
  }

  lemma DecodeEncodeOne(bs: seq<byte>)
    requires |bs| == 1
    ensures DecodeString(Encode(bs)) == Some(bs)
  {
    assert bs == [bs[0]];
    var s := Group1(bs[0]);
    assert Encode(bs) == s;
    assert StripNewlines(s) == s;
    DecodeGroup1(bs[0]);
  }

  lemma DecodeEncodeTwo(bs: seq<byte>)
    requires |bs| == 2
    ensures DecodeString(Encode(bs)) == Some(bs)
  {
    assert bs == [bs[0], bs[1]];
    var s := Group2(bs[0], bs[1]);
    assert Encode(bs) == s;
    assert StripNewlines(s) == s;
    DecodeGroup2(bs[0], bs[1]);
  }

  lemma DecodeEncodeStep(bs: seq<byte>)
    requires |bs| >= 3
    requires DecodeString(Encode(bs[3..])) == Some(bs[3..])
    ensures DecodeString(Encode(bs)) == Some(bs)
  {
    Split3(bs);
    var rest := Encode(bs[3..]);
    var s := Group3(bs[0], bs[1], bs[2]) + rest;
    assert Encode(bs) == s;
    assert StripNewlines(s) == s;
    assert StripNewlines(rest) == rest;
    DecodeGroup3(bs[0], bs[1], bs[2], rest);
  }

  /** Decoding the encoding of any byte sequence gives the sequence back. */
  lemma {:induction false} DecodeEncode(bs: seq<byte>)
    ensures DecodeString(Encode(bs)) == Some(bs)
    decreases |bs|
  {
    if bs == [] {
    } else if |bs| == 1 {
      DecodeEncodeOne(bs);
    } else if |bs| == 2 {
      DecodeEncodeTwo(bs);
    } else {
      DecodeEncode(bs[3..]);
      DecodeEncodeStep(bs);
    }
  }

  /** A carriage return or line feed in front is dropped. */
  lemma StripNewline(c: char, t: string)
    requires IsNewline(c)
    ensures StripNewlines([c] + t) == StripNewlines(t)
  {
    assert ([c] + t)[1..] == t;
  }

  /** One line break anywhere never changes what the decoder reads. */
  lemma NewlineIgnored(s: string, c: char, t: string)
    requires IsNewline(c)
    ensures DecodeString(s + [c] + t) == DecodeString(s + t)
  {
    StripAppend(s, [c] + t);
    StripAppend(s, t);
    StripNewline(c, t);
    assert s + [c] + t == s + ([c] + t);
  }

  /** Line breaks never change what the decoder reads. */
  lemma NewlinesIgnored(s: string, t: string)
    ensures DecodeString(s + "\n" + t) == DecodeString(s + t)
    ensures DecodeString(s + "\r" + t) == DecodeString(s + t)
  {
    NewlineIgnored(s, '\n', t);
    NewlineIgnored(s, '\r', t);
    assert "\n" == ['\n'] && "\r" == ['\r'];
  }

  lemma {:induction false} StripAppend(s: string, t: string)
    ensures StripNewlines(s + t) == StripNewlines(s) + StripNewlines(t)
    decreases |s|
  {
    if s != [] {
      assert (s + t)[0] == s[0];
      assert (s + t)[1..] == s[1..] + t;
      StripAppend(s[1..], t);
    } else {
      assert s + t == t;
    }
  }
}
