/**
 Base64 as app/core/security.py and app/backup/encrypted_backup.py use it: the alphabets of
 RFC 4648 sections 4 and 5, and a decoder that passes over characters outside the alphabet.
 */
module Base64 {
  import opened Wrappers

  type Byte = b: nat | b < 256

  const PAD := '='

  function Letter(n: nat, url: bool): char
    requires n < 64
  {
    if n < 26 then (65 + n) as char
    else if n < 52 then (71 + n) as char
    else if n < 62 then (n - 4) as char
    else if n == 62 then (if url then '-' else '+')
    else if url then '_' else '/'
  }

  function Sextet(c: char, url: bool): (r: Option<nat>)
    ensures r.Some? ==> r.value < 64
  {
    if 'A' <= c <= 'Z' then Some(c as int - 65)
    else if 'a' <= c <= 'z' then Some(c as int - 71)
    else if '0' <= c <= '9' then Some(c as int + 4)
    else if c == '+' || (url && c == '-') then Some(62)
    else if c == '/' || (url && c == '_') then Some(63)
    else None
  }

  // the four sextets of the bytes a, b, c
  function First(a: Byte): (n: nat) ensures n < 64 { a / 4 }
  function Second(a: Byte, b: Byte): (n: nat) ensures n < 64 { a % 4 * 16 + b / 16 }
  function Third(b: Byte, c: Byte): (n: nat) ensures n < 64 { b % 16 * 4 + c / 64 }
  function Fourth(c: Byte): (n: nat) ensures n < 64 { c % 64 }

  function Group(a: Byte, b: Byte, c: Byte, url: bool): string {
    [Letter(First(a), url), Letter(Second(a, b), url), Letter(Third(b, c), url), Letter(Fourth(c), url)]
  }

  function Encode(data: seq<Byte>, url: bool): string {
    if |data| == 0 then ""
    else if |data| == 1 then Group(data[0], 0, 0, url)[..2] + [PAD, PAD]
    else if |data| == 2 then Group(data[0], data[1], 0, url)[..3] + [PAD]
    else Group(data[0], data[1], data[2], url) + Encode(data[3..], url)
  }

  /** What the bits left over after `pos` letters of a group can be. */
  function LeftBound(pos: nat): nat {
    if pos == 1 then 64 else if pos == 2 then 16 else if pos == 3 then 4 else 1
  }

  /** `pos` letters of the current group are read, `left` are their unused bits, `pads` the pads just seen. */
  function Decode(s: string, url: bool, pos: nat, left: nat, pads: nat): Option<seq<Byte>>
    requires pos < 4 && left < LeftBound(pos)
  {
    if s == "" then if pos == 0 then Some([]) else None
    else if s[0] == PAD then
      if pos >= 2 && pos + pads + 1 >= 4 then Some([])
      else Decode(s[1..], url, pos, left, if pos >= 2 then pads + 1 else pads)
    else
      match Sextet(s[0], url)
      case None => Decode(s[1..], url, pos, left, pads)
      case Some(v) =>
        if pos == 0 then Decode(s[1..], url, 1, v, 0)
        else if pos == 1 then Prepend(left * 4 + v / 16, Decode(s[1..], url, 2, v % 16, 0))
        else if pos == 2 then Prepend(left * 16 + v / 4, Decode(s[1..], url, 3, v % 4, 0))
        else Prepend(left * 64 + v, Decode(s[1..], url, 0, 0, 0))
  }

  function Prepend(b: Byte, rest: Option<seq<Byte>>): Option<seq<Byte>> {
    if rest.None? then None else Some([b] + rest.value)
  }

  function DecodeAll(s: string, url: bool): Option<seq<Byte>> {
    Decode(s, url, 0, 0, 0)
  }

  lemma LetterReads(n: nat, url: bool)
    requires n < 64
    ensures Sextet(Letter(n, url), url) == Some(n) && Letter(n, url) != PAD && Letter(n, url) != '$'
  {
  }

  lemma DecodeLetter(n: nat, rest: string, url: bool, pos: nat, left: nat)
    requires n < 64 && pos < 4 && left < LeftBound(pos)
    ensures Decode([Letter(n, url)] + rest, url, pos, left, 0) ==
            if pos == 0 then Decode(rest, url, 1, n, 0)
            else if pos == 1 then Prepend(left * 4 + n / 16, Decode(rest, url, 2, n % 16, 0))
            else if pos == 2 then Prepend(left * 16 + n / 4, Decode(rest, url, 3, n % 4, 0))
            else Prepend(left * 64 + n, Decode(rest, url, 0, 0, 0))
  {
    LetterReads(n, url);
    assert ([Letter(n, url)] + rest)[1..] == rest;
  }

  lemma Recovered(a: Byte, b: Byte, c: Byte)
    ensures First(a) * 4 + Second(a, b) / 16 == a
    ensures Second(a, b) % 16 * 16 + Third(b, c) / 4 == b
    ensures Third(b, c) % 4 * 64 + Fourth(c) == c
  {
  }

  lemma DecodeSextets(n0: nat, n1: nat, n2: nat, n3: nat, a: Byte, b: Byte, c: Byte, url: bool, rest: string)
    requires n0 < 64 && n1 < 64 && n2 < 64 && n3 < 64
    requires n0 * 4 + n1 / 16 == a && n1 % 16 * 16 + n2 / 4 == b && n2 % 4 * 64 + n3 == c
    ensures DecodeAll([Letter(n0, url), Letter(n1, url), Letter(n2, url), Letter(n3, url)] + rest, url)
         == Prepend(a, Prepend(b, Prepend(c, DecodeAll(rest, url))))
  {
    var s3 := [Letter(n3, url)] + rest;
    var s2 := [Letter(n2, url)] + s3;
    var s1 := [Letter(n1, url)] + s2;
    assert [Letter(n0, url), Letter(n1, url), Letter(n2, url), Letter(n3, url)] + rest == [Letter(n0, url)] + s1;
    DecodeLetter(n0, s1, url, 0, 0);
    DecodeLetter(n1, s2, url, 1, n0);
    DecodeLetter(n2, s3, url, 2, n1 % 16);
    DecodeLetter(n3, rest, url, 3, n2 % 4);
  }

  lemma DecodeGroup(a: Byte, b: Byte, c: Byte, url: bool, rest: string)
    ensures DecodeAll(Group(a, b, c, url) + rest, url) == Prepend(a, Prepend(b, Prepend(c, DecodeAll(rest, url))))
  {
    Recovered(a, b, c);
    DecodeSextets(First(a), Second(a, b), Third(b, c), Fourth(c), a, b, c, url, rest);
  }

  lemma DecodeTwoSextets(n0: nat, n1: nat, a: Byte, url: bool)
    requires n0 < 64 && n1 < 64 && n0 * 4 + n1 / 16 == a
    ensures DecodeAll([Letter(n0, url), Letter(n1, url), PAD, PAD], url) == Some([a])
  {
    var s2 := [PAD, PAD];
    var s1 := [Letter(n1, url)] + s2;
    assert [Letter(n0, url), Letter(n1, url), PAD, PAD] == [Letter(n0, url)] + s1;
    DecodeLetter(n0, s1, url, 0, 0);
    DecodeLetter(n1, s2, url, 1, n0);
    DecodePads(n1 % 16, url);
    assert [a] + [] == [a];
  }

  lemma DecodePads(left: nat, url: bool)
    requires left < 16
    ensures Decode([PAD, PAD], url, 2, left, 0) == Some([])
  {
    assert [PAD, PAD][1..] == [PAD];
  }

  lemma DecodeThreeSextets(n0: nat, n1: nat, n2: nat, a: Byte, b: Byte, url: bool)
    requires n0 < 64 && n1 < 64 && n2 < 64 && n0 * 4 + n1 / 16 == a && n1 % 16 * 16 + n2 / 4 == b
    ensures DecodeAll([Letter(n0, url), Letter(n1, url), Letter(n2, url), PAD], url) == Some([a, b])
  {
    var s2 := [Letter(n2, url)] + [PAD];
    var s1 := [Letter(n1, url)] + s2;
    assert [Letter(n0, url), Letter(n1, url), Letter(n2, url), PAD] == [Letter(n0, url)] + s1;
    DecodeLetter(n0, s1, url, 0, 0);
    DecodeLetter(n1, s2, url, 1, n0);
    DecodeLetter(n2, [PAD], url, 2, n1 % 16);
    assert Decode([PAD], url, 3, n2 % 4, 0) == Some([]);
    assert [a] + ([b] + []) == [a, b];
  }

  /** Whatever was encoded decodes to itself. */
  lemma {:induction false} RoundTrip(data: seq<Byte>, url: bool)
    ensures DecodeAll(Encode(data, url), url) == Some(data)
  {
    if |data| >= 3 {
      RoundTrip(data[3..], url);
      DecodeGroup(data[0], data[1], data[2], url, Encode(data[3..], url));
      assert data == [data[0]] + ([data[1]] + ([data[2]] + data[3..]));
    } else if |data| == 2 {
      Recovered(data[0], data[1], 0);
      DecodeThreeSextets(First(data[0]), Second(data[0], data[1]), Third(data[1], 0), data[0], data[1], url);
      assert Encode(data, url)
          == [Letter(First(data[0]), url), Letter(Second(data[0], data[1]), url), Letter(Third(data[1], 0), url), PAD];
      assert data == [data[0], data[1]];
    } else if |data| == 1 {
      Recovered(data[0], 0, 0);
      DecodeTwoSextets(First(data[0]), Second(data[0], 0), data[0], url);
      assert Encode(data, url) == [Letter(First(data[0]), url), Letter(Second(data[0], 0), url), PAD, PAD];
      assert data == [data[0]];
    }
  }

  // ---------- padding taken off and put back ----------

  function StripPads(s: string): string {
    if s != "" && s[|s| - 1] == PAD then StripPads(s[..|s| - 1]) else s
  }

  function Pads(n: nat): string {
    if n == 0 then "" else [PAD] + Pads(n - 1)
  }

  /** Python's `-len % 4`. */
  function Missing(length: nat): nat {
    (4 - length % 4) % 4
  }

  function DecodeStripped(raw: string): Option<seq<Byte>> {
    DecodeAll(raw + Pads(Missing(|raw|)), true)
  }

  lemma {:induction false} StripAfterLetters(letters: string, rest: string)
    requires letters != "" && letters[|letters| - 1] != PAD
    ensures StripPads(letters + rest) == letters + StripPads(rest)
    decreases |rest|
  {
    if rest == "" {
      assert letters + rest == letters;
    } else {
      assert (letters + rest)[..|letters + rest| - 1] == letters + rest[..|rest| - 1];
      if rest[|rest| - 1] == PAD {
        StripAfterLetters(letters, rest[..|rest| - 1]);
      }
    }
  }

  lemma GroupLetters(a: Byte, b: Byte, c: Byte, url: bool, i: nat)
    requires i < 4
    ensures Group(a, b, c, url)[i] != PAD && Group(a, b, c, url)[i] != '$'
  {
    LetterReads(First(a), url);
    LetterReads(Second(a, b), url);
    LetterReads(Third(b, c), url);
    LetterReads(Fourth(c), url);
  }

  lemma StripTail(letters: string, count: nat)
    requires 1 <= count <= 2 && letters != "" && letters[|letters| - 1] != PAD
    ensures StripPads(letters + Pads(count)) == letters
  {
    StripAfterLetters(letters, Pads(count));
    assert Pads(1) == [PAD] && Pads(2) == [PAD, PAD];
    assert [PAD][..0] == "" && [PAD, PAD][..1] == [PAD];
    assert StripPads([PAD]) == "" && StripPads([PAD, PAD]) == StripPads([PAD]);
    assert letters + "" == letters;
  }

  ghost predicate Restorable(encoded: string) {
    var raw := StripPads(encoded);
    raw + Pads(Missing(|raw|)) == encoded && '$' !in raw
  }

  lemma RestorableGroup(letters: string, rest: string)
    requires |letters| == 4 && PAD !in letters && '$' !in letters && Restorable(rest)
    ensures Restorable(letters + rest)
  {
    StripAfterLetters(letters, rest);
    var raw := StripPads(rest);
    assert (letters + raw) + Pads(Missing(|raw|)) == letters + (raw + Pads(Missing(|raw|)));
  }

  lemma RestorableTail(letters: string, missing: nat)
    requires |letters| + missing == 4 && 1 <= missing <= 2 && PAD !in letters && '$' !in letters
    ensures Restorable(letters + Pads(missing))
  {
    StripTail(letters, missing);
    assert Missing(2) == 2 && Missing(3) == 1;
  }

  lemma GroupIsClean(a: Byte, b: Byte, c: Byte, url: bool)
    ensures PAD !in Group(a, b, c, url) && '$' !in Group(a, b, c, url)
  {
    forall i | 0 <= i < 4
      ensures Group(a, b, c, url)[i] != PAD && Group(a, b, c, url)[i] != '$'
    {
      GroupLetters(a, b, c, url, i);
    }
  }

  lemma {:induction false} RestoredIsEncoded(data: seq<Byte>, url: bool)
    ensures Restorable(Encode(data, url))
  {
    assert Pads(1) == [PAD] && Pads(2) == [PAD, PAD];
    if |data| >= 3 {
      RestoredIsEncoded(data[3..], url);
      GroupIsClean(data[0], data[1], data[2], url);
      RestorableGroup(Group(data[0], data[1], data[2], url), Encode(data[3..], url));
    } else if |data| == 2 {
      GroupIsClean(data[0], data[1], 0, url);
      RestorableTail(Group(data[0], data[1], 0, url)[..3], 1);
    } else if |data| == 1 {
      GroupIsClean(data[0], 0, 0, url);
      RestorableTail(Group(data[0], 0, 0, url)[..2], 2);
    }
  }

  /** Stripping the padding loses nothing, for data of every length. */
  lemma StrippedRoundTrip(data: seq<Byte>)
    ensures DecodeStripped(StripPads(Encode(data, true))) == Some(data)
  {
    RestoredIsEncoded(data, true);
    RoundTrip(data, true);
  }

  /** Test vectors of RFC 4648 section 10, and where the two alphabets differ. */
  lemma TestVectors()
    ensures Encode([102], false) == "Zg==" && Encode([102, 111], false) == "Zm8="
    ensures Encode([102, 111, 111], false) == "Zm9v"
    ensures Encode([251, 255], false) == "+/8=" && Encode([251, 255], true) == "-_8="
  {
    assert Group(102, 111, 111, false) == "Zm9v";
  }

  lemma LongTestVector()
    ensures Encode([102, 111, 111, 98, 97, 114], false) == "Zm9vYmFy"
  {
    var bar: seq<Byte> := [98, 97, 114];
    assert [102, 111, 111, 98, 97, 114][3..] == bar;
    assert Group(98, 97, 114, false) == "YmFy" && Encode(bar, false) == "YmFy";
  }
}
