/** String operations of Python 2 that python-jss relies on, written out over
    `seq<char>`: case mapping, whitespace stripping, `str.split`/`join`,
    `rstrip`, `replace`, `str(int)` and `int(str)`. */
module Text {
  import opened Errors

  // ---------------------------------------------------------------------------
  // Characters

  /** Python's `str.isspace` for the C locale. */
  predicate IsSpace(c: char) {
    c == ' ' || c == '\t' || c == '\n' || c == '\r' || c == '\U{B}' || c == '\U{C}'
  }

  predicate IsDigit(c: char) { '0' <= c <= '9' }

  predicate IsAsciiLetter(c: char) { 'a' <= c <= 'z' || 'A' <= c <= 'Z' }

  /** ASCII upper-casing, as `str.upper` does on byte strings. */
  function UpperChar(c: char): char {
    if 'a' <= c <= 'z' then (c as int - 32) as char else c
  }

  function Upper(s: string): (r: string)
    ensures |r| == |s|
    ensures forall i :: 0 <= i < |s| ==> r[i] == UpperChar(s[i])
  {
    seq(|s|, i requires 0 <= i < |s| => UpperChar(s[i]))
  }

  lemma UpperAppend(a: string, b: string)
    ensures Upper(a + b) == Upper(a) + Upper(b)
  {
    assert |Upper(a + b)| == |Upper(a) + Upper(b)|;
    forall i | 0 <= i < |a + b| ensures Upper(a + b)[i] == (Upper(a) + Upper(b))[i] {
      if i < |a| { assert (a + b)[i] == a[i]; } else { assert (a + b)[i] == b[i - |a|]; }
    }
  }

  lemma UpperIdempotent(s: string)
    ensures Upper(Upper(s)) == Upper(s)
  {
  }

  // ---------------------------------------------------------------------------
  // Searching

  /** `needle in hay` for strings. */
  predicate Contains(hay: string, needle: string)
    decreases |hay|
  {
    needle <= hay || (|hay| > 0 && Contains(hay[1..], needle))
  }

  /** `needle` occurs in `hay` starting at index `i`. */
  predicate OccursAt(hay: string, needle: string, i: int) {
    0 <= i <= |hay| - |needle| && hay[i..i + |needle|] == needle
  }

  lemma {:induction false} ContainsAt(hay: string, needle: string)
    ensures Contains(hay, needle) <==> exists i :: OccursAt(hay, needle, i)
    decreases |hay|
  {
    if needle <= hay {
      assert OccursAt(hay, needle, 0);
    } else if |hay| > 0 {
      ContainsAt(hay[1..], needle);
      if Contains(hay[1..], needle) {
        var i :| OccursAt(hay[1..], needle, i);
        assert hay[i + 1..i + 1 + |needle|] == hay[1..][i..i + |needle|];
        assert OccursAt(hay, needle, i + 1);
      }
      if exists i :: OccursAt(hay, needle, i) {
        var i :| OccursAt(hay, needle, i);
        assert i != 0;
        assert hay[1..][i - 1..i - 1 + |needle|] == hay[i..i + |needle|];
        assert OccursAt(hay[1..], needle, i - 1);
      }
    } else {
      assert !exists i :: OccursAt(hay, needle, i);
    }
  }

  // ---------------------------------------------------------------------------
  // Splitting and joining

  /** Python's `s.split(sep)` for a non-empty separator. */
  function Split(s: string, sep: string): (r: seq<string>)
    requires |sep| > 0
    ensures |r| >= 1
    decreases |s|
  {
    if |s| < |sep| then [s]
    else if s[..|sep|] == sep then [""] + Split(s[|sep|..], sep)
    else
      var rest := Split(s[1..], sep);
      [[s[0]] + rest[0]] + rest[1..]
  }

  /** Python's `sep.join(parts)`. */
  function Join(parts: seq<string>, sep: string): string {
    if parts == [] then ""
    else if |parts| == 1 then parts[0]
    else parts[0] + sep + Join(parts[1..], sep)
  }

  lemma JoinCons(a: string, rest: seq<string>, sep: string)
    requires |rest| >= 1
    ensures Join([a] + rest, sep) == a + sep + Join(rest, sep)
  {
    assert ([a] + rest)[1..] == rest;
  }

  lemma SplitAtSep(s: string, sep: string)
    requires |sep| > 0 && |s| >= |sep| && s[..|sep|] == sep
    ensures Split(s, sep) == [""] + Split(s[|sep|..], sep)
  {
  }

  lemma SplitAtOther(s: string, sep: string)
    requires |sep| > 0 && |s| >= |sep| && s[..|sep|] != sep
    ensures Split(s, sep) == [[s[0]] + Split(s[1..], sep)[0]] + Split(s[1..], sep)[1..]
  {
  }

  /** Joining the pieces of a split restores the string. */
  lemma {:induction false} JoinSplit(s: string, sep: string)
    requires |sep| > 0
    ensures Join(Split(s, sep), sep) == s
    decreases |s|
  {
    if |s| < |sep| {
    } else if s[..|sep|] == sep {
      JoinSplit(s[|sep|..], sep);
      SplitAtSep(s, sep);
      JoinCons("", Split(s[|sep|..], sep), sep);
      assert s == sep + s[|sep|..];
    } else {
      JoinSplit(s[1..], sep);
      SplitAtOther(s, sep);
      JoinPrepend(s[0], Split(s[1..], sep), sep);
      assert s == [s[0]] + s[1..];
    }
  }

  /** `s.split(sep)` has a second piece exactly when `sep in s`. */
  lemma {:induction false} SplitContains(s: string, sep: string)
    requires |sep| > 0
    ensures Contains(s, sep) <==> |Split(s, sep)| > 1
    decreases |s|
  {
    if |s| < |sep| {
      NotContainsShort(s, sep);
    } else if s[..|sep|] == sep {
      assert sep <= s;
    } else {
      SplitContains(s[1..], sep);
      assert !(sep <= s);
    }
  }

  lemma {:induction false} NotContainsShort(s: string, sep: string)
    requires |s| < |sep|
    ensures !Contains(s, sep)
    decreases |s|
  {
    if |s| > 0 {
      NotContainsShort(s[1..], sep);
    }
  }

  /** The first piece of a split is a prefix holding no separator. */
  lemma {:induction false} SplitFirstPieceFree(s: string, sep: string)
    requires |sep| > 0
    ensures Split(s, sep)[0] <= s && !Contains(Split(s, sep)[0], sep)
    decreases |s|
  {
    if |s| < |sep| {
      NotContainsShort(s, sep);
    } else if s[..|sep|] == sep {
      NotContainsShort("", sep);
    } else {
      SplitFirstPieceFree(s[1..], sep);
      var p := Split(s[1..], sep)[0];
      var x := [s[0]] + p;
      assert x[1..] == p;
      assert x <= s by { assert s == [s[0]] + s[1..]; }
      assert !(sep <= x) by { assert !(sep <= s); }
    }
  }

  /** `sep.join(parts)` starts with the first part. */
  lemma JoinHead(parts: seq<string>, sep: string)
    requires |parts| >= 1
    ensures parts[0] <= Join(parts, sep)
  {
  }

  lemma JoinPrepend(c: char, rest: seq<string>, sep: string)
    requires |rest| >= 1
    ensures Join([[c] + rest[0]] + rest[1..], sep) == [c] + Join(rest, sep)
  {
    if |rest| > 1 {
      JoinCons([c] + rest[0], rest[1..], sep);
      JoinCons(rest[0], rest[1..], sep);
      assert [rest[0]] + rest[1..] == rest;
    }
  }

  /** Splitting on a single character yields pieces free of that character. */
  lemma {:induction false} SplitPiecesFree(s: string, c: char)
    ensures forall k :: 0 <= k < |Split(s, [c])| ==> c !in Split(s, [c])[k]
    decreases |s|
  {
    if |s| < 1 {
    } else if s[..1] == [c] {
      SplitPiecesFree(s[1..], c);
    } else {
      SplitPiecesFree(s[1..], c);
      assert s[0] != c by { assert s[..1] == [s[0]]; }
    }
  }

  /** Joining pieces that are free of a one-character separator and splitting
      again gives the pieces back. */
  lemma {:induction false} SplitJoin(parts: seq<string>, c: char)
    requires |parts| >= 1
    requires forall k :: 0 <= k < |parts| ==> c !in parts[k]
    ensures Split(Join(parts, [c]), [c]) == parts
    decreases parts, 1
  {
    if |parts| == 1 {
      SplitFree(parts[0], c, []);
      assert parts[0] + [] == parts[0];
    } else {
      SplitJoin(parts[1..], c);
      var tail := Join(parts[1..], [c]);
      assert Join(parts, [c]) == parts[0] + ([c] + tail);
      SplitFree(parts[0], c, [c] + tail);
      assert Split([c] + tail, [c]) == [""] + Split(tail, [c]) by {
        assert ([c] + tail)[..1] == [c];
        assert ([c] + tail)[1..] == tail;
      }
      assert parts[0] + "" == parts[0];
      assert [parts[0]] + parts[1..] == parts;
    }
  }

  /** Splitting `a + b` where `a` holds no separator prepends `a` to the first piece. */
  lemma {:induction false} SplitFree(a: string, c: char, b: string)
    requires c !in a
    requires b == [] || b[0] == c
    ensures Split(a + b, [c]) == [a + Split(b, [c])[0]] + Split(b, [c])[1..]
    decreases |a|
  {
    if a == [] {
      assert a + b == b;
    } else {
      SplitFree(a[1..], c, b);
      assert (a + b)[1..] == a[1..] + b;
      assert (a + b)[..1] == [a[0]];
      assert [a[0]] + (a[1..] + Split(b, [c])[0]) == a + Split(b, [c])[0];
    }
  }

  // ---------------------------------------------------------------------------
  // Stripping and replacing

  /** `s.rstrip(c)`: drops every trailing occurrence of `c`. */
  function RStripChar(s: string, c: char): (r: string)
    ensures r <= s
    ensures r == [] || r[|r| - 1] != c
    ensures forall i :: |r| <= i < |s| ==> s[i] == c
  {
    if s != [] && s[|s| - 1] == c then RStripChar(s[..|s| - 1], c) else s
  }

  function LStripSpace(s: string): (r: string)
    ensures r == [] || !IsSpace(r[0])
  {
    if s != [] && IsSpace(s[0]) then LStripSpace(s[1..]) else s
  }

  function RStripSpace(s: string): (r: string)
    ensures r == [] || !IsSpace(r[|r| - 1])
  {
    if s != [] && IsSpace(s[|s| - 1]) then RStripSpace(s[..|s| - 1]) else s
  }

  /** `s.strip()`. */
  function Strip(s: string): string {
    RStripSpace(LStripSpace(s))
  }

  /** A string that neither starts nor ends with whitespace is its own strip. */
  lemma StripNoSpace(s: string)
    requires s == [] || (!IsSpace(s[0]) && !IsSpace(s[|s| - 1]))
    ensures Strip(s) == s
  {
  }

  /** Stripping removes only whitespace. */
  lemma {:induction false} StripKeeps(s: string, c: char)
    requires c in s && !IsSpace(c)
    ensures c in Strip(s)
  {
    LStripKeeps(s, c);
    RStripKeeps(LStripSpace(s), c);
  }

  lemma {:induction false} LStripKeeps(s: string, c: char)
    requires c in s && !IsSpace(c)
    ensures c in LStripSpace(s)
  {
    if s != [] && IsSpace(s[0]) {
      assert c in s[1..] by { assert s == [s[0]] + s[1..]; }
      LStripKeeps(s[1..], c);
    }
  }

  lemma {:induction false} RStripKeeps(s: string, c: char)
    requires c in s && !IsSpace(c)
    ensures c in RStripSpace(s)
  {
    if s != [] && IsSpace(s[|s| - 1]) {
      assert c in s[..|s| - 1] by { assert s == s[..|s| - 1] + [s[|s| - 1]]; }
      RStripKeeps(s[..|s| - 1], c);
    }
  }

  /** `int(s)` raises when `s` holds a character that is neither whitespace,
      a digit nor a sign. */
  lemma ParseIntRejects(s: string, c: char)
    requires c in s && !IsSpace(c) && !IsDigit(c) && c != '-' && c != '+'
    ensures ParseInt(s).None?
  {
    StripKeeps(s, c);
    var t := Strip(s);
    var i :| 0 <= i < |t| && t[i] == c;
    if |t| > 1 && (t[0] == '-' || t[0] == '+') {
      assert t[1..][i - 1] == c;
    }
  }

  /** `s.replace(a, b)` for one-character `a` and `b`. */
  function ReplaceChar(s: string, a: char, b: char): (r: string)
    ensures |r| == |s|
    ensures forall i :: 0 <= i < |s| ==> r[i] == (if s[i] == a then b else s[i])
  {
    if s == [] then [] else [if s[0] == a then b else s[0]] + ReplaceChar(s[1..], a, b)
  }

  // ---------------------------------------------------------------------------
  // Integers and their decimal text

  function DigitChar(d: nat): (c: char)
    requires d < 10
    ensures IsDigit(c) && c as int - '0' as int == d
  {
    ('0' as int + d) as char
  }

  function DigitValue(c: char): nat
    requires IsDigit(c)
  {
    c as int - '0' as int
  }

  /** `str(n)` for a natural number. */
  function NatToString(n: nat): (r: string)
    ensures |r| > 0 && forall i :: 0 <= i < |r| ==> IsDigit(r[i])
    decreases n
  {
    if n < 10 then [DigitChar(n)] else NatToString(n / 10) + [DigitChar(n % 10)]
  }

  /** `str(i)` for any int. */
  function IntToString(i: int): (r: string)
    ensures |r| > 0
  {
    if i < 0 then "-" + NatToString(-i) else NatToString(i)
  }

  /** `str(i)` is a sign and digits, all ASCII. */
  lemma IntToStringAscii(i: int)
    ensures forall k :: 0 <= k < |IntToString(i)| ==> IntToString(i)[k] as int < 0x80
  {
    var s := IntToString(i);
    forall k | 0 <= k < |s| ensures s[k] as int < 0x80 {
      if i < 0 && k > 0 {
        assert s[k] == NatToString(-i)[k - 1];
      }
    }
  }

  predicate AllDigits(s: string) {
    forall i :: 0 <= i < |s| ==> IsDigit(s[i])
  }

  function DigitsValue(s: string): nat
    requires AllDigits(s)
  {
    if s == [] then 0 else 10 * DigitsValue(s[..|s| - 1]) + DigitValue(s[|s| - 1])
  }

  /** Python 2 `int(s)` on a string in base 10: surrounding whitespace is
      ignored, one optional sign, then at least one digit; anything else is a
      ValueError, modelled as `None`. */
  function ParseInt(s: string): Option<int> {
    var t := Strip(s);
    if |t| > 1 && (t[0] == '-' || t[0] == '+') && AllDigits(t[1..]) then
      Some(if t[0] == '-' then -(DigitsValue(t[1..]) as int) else DigitsValue(t[1..]))
    else if |t| > 0 && AllDigits(t) then Some(DigitsValue(t))
    else None
  }

  lemma {:induction false} DigitsOfNat(n: nat)
    ensures AllDigits(NatToString(n)) && DigitsValue(NatToString(n)) == n
    decreases n
  {
    if n >= 10 {
      DigitsOfNat(n / 10);
      var s := NatToString(n);
      assert s[..|s| - 1] == NatToString(n / 10);
    }
  }

  /** `int(str(i)) == i`. */
  lemma ParseIntToString(i: int)
    ensures ParseInt(IntToString(i)) == Some(i)
  {
    var s := IntToString(i);
    if i < 0 {
      DigitsOfNat(-i);
      assert s[1..] == NatToString(-i);
    } else {
      DigitsOfNat(i);
    }
    StripNoSpace(s);
  }

  /** A string of digits with no sign is read as a natural number. */
  lemma ParseIntDigits(s: string)
    requires |s| > 0 && AllDigits(s)
    ensures ParseInt(s).Some? && ParseInt(s).value >= 0
  {
    StripNoSpace(s);
  }

  // ---------------------------------------------------------------------------
  // Bytes, UTF-8 and percent-quoting

  newtype byte = x: int | 0 <= x < 256

  /** The UTF-8 encoding of one Unicode scalar value. */
  function Utf8Char(c: char): (r: seq<byte>)
    ensures 1 <= |r| <= 4
    ensures |r| == 1 <==> c as int < 0x80
    ensures |r| == 1 ==> r[0] as int == c as int
    ensures forall k :: 1 <= k < |r| ==> 0x80 <= r[k] < 0xC0
  {
    var n := c as int;
    if n < 0x80 then [n as byte]
    else if n < 0x800 then [(0xC0 + n / 64) as byte, (0x80 + n % 64) as byte]
    else if n < 0x10000 then
      [(0xE0 + n / 4096) as byte, (0x80 + (n / 64) % 64) as byte, (0x80 + n % 64) as byte]
    else
      [(0xF0 + (n / 262144) % 8) as byte, (0x80 + (n / 4096) % 64) as byte,
       (0x80 + (n / 64) % 64) as byte, (0x80 + n % 64) as byte]
  }

  function Utf8(s: string): (r: seq<byte>)
    ensures |r| >= |s|
  {
    if s == [] then [] else Utf8Char(s[0]) + Utf8(s[1..])
  }

  lemma {:induction false} Utf8Ascii(s: string)
    requires forall i :: 0 <= i < |s| ==> s[i] as int < 0x80
    ensures |Utf8(s)| == |s|
    ensures forall i :: 0 <= i < |s| ==> Utf8(s)[i] as int == s[i] as int
  {
    if s != [] {
      Utf8Ascii(s[1..]);
    }
  }

  predicate IsContinuation(b: byte) { 0x80 <= b < 0xC0 }

  /** Strict decoding of the first scalar value of a UTF-8 byte string: the
      character and the number of bytes it takes, or None when the leading
      bytes are not the shortest-form encoding of a scalar value. */
  function Utf8DecodeOne(bs: seq<byte>): (r: Option<(char, nat)>)
    requires |bs| > 0
    ensures r.Some? ==> 1 <= r.value.1 <= 4 && r.value.1 <= |bs|
  {
    var b0 := bs[0] as int;
    if b0 < 0x80 then Some((b0 as char, 1))
    else if 0xC2 <= b0 < 0xE0 && |bs| >= 2 && IsContinuation(bs[1]) then
      Some((((b0 - 0xC0) * 64 + (bs[1] as int - 0x80)) as char, 2))
    else if 0xE0 <= b0 < 0xF0 && |bs| >= 3 && IsContinuation(bs[1]) && IsContinuation(bs[2]) then
      var n := (b0 - 0xE0) * 4096 + (bs[1] as int - 0x80) * 64 + (bs[2] as int - 0x80);
      if 0x800 <= n && !(0xD800 <= n < 0xE000) then Some((n as char, 3)) else None
    else if 0xF0 <= b0 < 0xF5 && |bs| >= 4 && IsContinuation(bs[1]) && IsContinuation(bs[2])
      && IsContinuation(bs[3]) then
      var n := (b0 - 0xF0) * 262144 + (bs[1] as int - 0x80) * 4096 + (bs[2] as int - 0x80) * 64
        + (bs[3] as int - 0x80);
      if 0x10000 <= n < 0x110000 then Some((n as char, 4)) else None
    else None
  }

  /** `bytes.decode('UTF-8')`: None where Python raises UnicodeDecodeError. */
  function Utf8Decode(bs: seq<byte>): Option<string>
    decreases |bs|
  {
    if bs == [] then Some("")
    else match Utf8DecodeOne(bs)
      case None => None
      case Some((c, n)) =>
        match Utf8Decode(bs[n..])
        case None => None
        case Some(s) => Some([c] + s)
  }

  lemma Utf8DecodeOneChar(c: char, rest: seq<byte>)
    ensures Utf8DecodeOne(Utf8Char(c) + rest) == Some((c, |Utf8Char(c)|))
  {
    var n := c as int;
    if n < 0x80 {
    } else if n < 0x800 {
      Utf8DecodeTwo(c, rest);
    } else if n < 0x10000 {
      Utf8DecodeThree(c, rest);
    } else {
      Utf8DecodeFour(c, rest);
    }
  }

  lemma Utf8DecodeTwo(c: char, rest: seq<byte>)
    requires 0x80 <= c as int < 0x800
    ensures Utf8DecodeOne(Utf8Char(c) + rest) == Some((c, 2))
  {
    var n := c as int;
    var b0, b1 := (0xC0 + n / 64) as byte, (0x80 + n % 64) as byte;
    assert Utf8Char(c) == [b0, b1];
    var bs := [b0, b1] + rest;
    assert bs[0] == b0 && bs[1] == b1;
    assert (b0 as int - 0xC0) * 64 + (b1 as int - 0x80) == n;
  }

  lemma Utf8DecodeThree(c: char, rest: seq<byte>)
    requires 0x800 <= c as int < 0x10000
    ensures Utf8DecodeOne(Utf8Char(c) + rest) == Some((c, 3))
  {
    var n := c as int;
    var q, r := n / 64, n % 64;
    var hi, mid := q / 64, q % 64;
    assert n == hi * 4096 + mid * 64 + r;
    assert hi == n / 4096;
    var b0, b1, b2 := (0xE0 + hi) as byte, (0x80 + mid) as byte, (0x80 + r) as byte;
    assert Utf8Char(c) == [b0, b1, b2];
    var bs := [b0, b1, b2] + rest;
    assert bs[0] == b0 && bs[1] == b1 && bs[2] == b2;
  }

  lemma Utf8DecodeFour(c: char, rest: seq<byte>)
    requires 0x10000 <= c as int
    ensures Utf8DecodeOne(Utf8Char(c) + rest) == Some((c, 4))
  {
    var n := c as int;
    var hi, top, mid, r := FourDigits(n);
    var b0, b1, b2, b3 := (0xF0 + hi) as byte, (0x80 + top) as byte, (0x80 + mid) as byte, (0x80 + r) as byte;
    assert Utf8Char(c) == [b0, b1, b2, b3];
    var bs := [b0, b1, b2, b3] + rest;
    assert bs[0] == b0 && bs[1] == b1 && bs[2] == b2 && bs[3] == b3;
  }

  /** The base-64 digits of a supplementary code point, as `Utf8Char` computes them. */
  lemma FourDigits(n: int) returns (hi: int, top: int, mid: int, r: int)
    requires 0x10000 <= n < 0x110000
    ensures hi == (n / 262144) % 8 && top == (n / 4096) % 64 && mid == (n / 64) % 64 && r == n % 64
    ensures 0 <= hi <= 4 && 0 <= top < 64 && 0 <= mid < 64 && 0 <= r < 64
    ensures n == hi * 262144 + top * 4096 + mid * 64 + r
  {
    var q := n / 64;
    r := n % 64;
    var q2 := q / 64;
    mid := q % 64;
    hi := q2 / 64;
    top := q2 % 64;
    assert q2 == n / 4096;
    assert hi == n / 262144;
  }

  /** Decoding undoes encoding: `s.encode('UTF-8').decode('UTF-8') == s`. */
  lemma {:induction false} Utf8RoundTrip(s: string)
    ensures Utf8Decode(Utf8(s)) == Some(s)
  {
    if s != [] {
      var head := Utf8Char(s[0]);
      Utf8DecodeOneChar(s[0], Utf8(s[1..]));
      assert (head + Utf8(s[1..]))[|head|..] == Utf8(s[1..]);
      Utf8RoundTrip(s[1..]);
      assert [s[0]] + s[1..] == s;
    }
  }

  function HexChar(d: nat): char
    requires d < 16
  {
    "0123456789ABCDEF"[d]
  }

  /** The characters `urllib.quote` never escapes in Python 2. */
  predicate AlwaysSafe(c: char) {
    IsAsciiLetter(c) || IsDigit(c) || c == '_' || c == '.' || c == '-'
  }

  /** A byte that `quote(.., safe)` keeps as itself. */
  predicate KeepsByte(b: byte, safe: string) {
    b < 0x80 && (AlwaysSafe(b as int as char) || b as int as char in safe)
  }

  function QuoteByte(b: byte, safe: string): (r: string)
    ensures |r| == 1 || |r| == 3
  {
    if KeepsByte(b, safe) then [b as int as char]
    else ['%', HexChar(b as int / 16), HexChar(b as int % 16)]
  }

  function QuoteBytes(bs: seq<byte>, safe: string): string {
    if bs == [] then "" else QuoteByte(bs[0], safe) + QuoteBytes(bs[1..], safe)
  }

  /** `urllib.quote(s, safe)` on the UTF-8 bytes of `s`. */
  function Quote(s: string, safe: string): string {
    QuoteBytes(Utf8(s), safe)
  }

  /** The characters a quoted string can hold. */
  predicate QuotedAlphabet(c: char, safe: string) {
    AlwaysSafe(c) || c in safe || c == '%'
  }

  lemma {:induction false} QuoteBytesAlphabet(bs: seq<byte>, safe: string)
    ensures forall i :: 0 <= i < |QuoteBytes(bs, safe)| ==> QuotedAlphabet(QuoteBytes(bs, safe)[i], safe)
  {
    if bs != [] {
      QuoteBytesAlphabet(bs[1..], safe);
      var h := QuoteByte(bs[0], safe);
      var t := QuoteBytes(bs[1..], safe);
      forall i | 0 <= i < |h + t| ensures QuotedAlphabet((h + t)[i], safe) {
        if i >= |h| { assert (h + t)[i] == t[i - |h|]; }
      }
    }
  }

  /** Every character of a quoted string is always-safe, listed in `safe`, or
      a `%` escape (hex digits are always-safe). */
  lemma QuoteAlphabet(s: string, safe: string)
    ensures forall i :: 0 <= i < |Quote(s, safe)| ==> QuotedAlphabet(Quote(s, safe)[i], safe)
  {
    QuoteBytesAlphabet(Utf8(s), safe);
  }

  function HexValue(c: char): Option<nat> {
    if '0' <= c <= '9' then Some(c as int - '0' as int)
    else if 'A' <= c <= 'F' then Some(c as int - 'A' as int + 10)
    else None
  }

  /** Percent-decoding back to bytes; `None` for text a quote cannot produce. */
  function PercentDecode(s: string): Option<seq<byte>>
    decreases |s|
  {
    if s == [] then Some([])
    else if s[0] == '%' then
      if |s| >= 3 && HexValue(s[1]).Some? && HexValue(s[2]).Some? then
        match PercentDecode(s[3..])
        case None => None
        case Some(rest) => Some([(HexValue(s[1]).value * 16 + HexValue(s[2]).value) as byte] + rest)
      else None
    else if s[0] as int < 0x80 then
      match PercentDecode(s[1..])
      case None => None
      case Some(rest) => Some([s[0] as int as byte] + rest)
    else None
  }

  lemma HexRoundTrip(d: nat)
    requires d < 16
    ensures HexValue(HexChar(d)) == Some(d)
  {
  }

  /** Percent-decoding a quoted byte string gives the bytes back, whatever the
      safe set, as long as `%` itself is not declared safe. */
  lemma {:induction false} QuoteBytesRoundTrip(bs: seq<byte>, safe: string)
    requires '%' !in safe
    ensures PercentDecode(QuoteBytes(bs, safe)) == Some(bs)
  {
    if bs != [] {
      QuoteBytesRoundTrip(bs[1..], safe);
      var b := bs[0];
      var t := QuoteBytes(bs[1..], safe);
      var s := QuoteByte(b, safe) + t;
      assert QuoteBytes(bs, safe) == s;
      assert bs == [b] + bs[1..];
      if KeepsByte(b, safe) {
        assert s[0] == b as int as char && s[1..] == t;
        assert s[0] != '%' && s[0] as int < 0x80;
        assert s[0] as int as byte == b;
      } else {
        HexRoundTrip(b as int / 16);
        HexRoundTrip(b as int % 16);
        assert s[0] == '%' && s[3..] == t;
        assert s[1] == HexChar(b as int / 16) && s[2] == HexChar(b as int % 16);
        assert (HexValue(s[1]).value * 16 + HexValue(s[2]).value) as byte == b;
        assert PercentDecode(s) == Some([b] + bs[1..]);
      }
    }
  }

  /** `quote` is injective: its result decodes to the UTF-8 text it came from. */
  lemma QuoteRoundTrip(s: string, safe: string)
    requires '%' !in safe
    ensures PercentDecode(Quote(s, safe)) == Some(Utf8(s))
  {
    QuoteBytesRoundTrip(Utf8(s), safe);
  }
}
