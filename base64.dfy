/** Base64 as in section 4 of RFC 4648, with the decoding rules of .NET's
    Convert.FromBase64String: the white-space characters space, tab, CR and LF are ignored
    anywhere, the remaining text must be a whole number of four-character quads, and only
    the last quad may end in one or two '=' pad characters. The unused low bits of a
    padded quad are not checked. */
module Base64 {

  import opened Exceptions

  type byte = x: int | 0 <= x < 256
  type sextet = x: int | 0 <= x < 64

  /** Table 1 of RFC 4648: the value of each of the 64 characters. */
  function Char(v: sextet): (c: char)
  {
    if v < 26 then ('A' as int + v) as char
    else if v < 52 then ('a' as int + (v - 26)) as char
    else if v < 62 then ('0' as int + (v - 52)) as char
    else if v == 62 then '+'
    else '/'
  }

  /** The inverse of Table 1: the value of `c`, or None when `c` is not in the alphabet. */
  function Value(c: char): (r: Option<sextet>)
    ensures r.Some? ==> Char(r.value) == c
  {
    if 'A' <= c <= 'Z' then Some((c as int - 'A' as int) as sextet)
    else if 'a' <= c <= 'z' then Some((c as int - 'a' as int + 26) as sextet)
    else if '0' <= c <= '9' then Some((c as int - '0' as int + 52) as sextet)
    else if c == '+' then Some(62)
    else if c == '/' then Some(63)
    else None
  }

  lemma ValueOfChar(v: sextet)
    ensures Value(Char(v)) == Some(v)
  {
  }

  /** The characters Convert.FromBase64String skips: none of them is in the alphabet or
      the pad character. */
  predicate IsSkipped(c: char)
    ensures IsSkipped(c) ==> Value(c).None? && c != '='
  {
    c == ' ' || c == '\t' || c == '\r' || c == '\n'
  }

  /** The significant characters of `s`, in order: every skipped character is dropped
      (RemoveSkippedCounts and RemoveSkippedAppend say the rest is kept, in place). */
  function RemoveSkipped(s: string): (r: string)
    ensures forall i :: 0 <= i < |r| ==> !IsSkipped(r[i])
    ensures forall c :: c in r ==> c in s
  {
    if s == [] then []
    else if IsSkipped(s[0]) then RemoveSkipped(s[1..])
    else [s[0]] + RemoveSkipped(s[1..])
  }

  /** Every character that is not skipped is kept as often as it occurs. */
  lemma {:induction false} RemoveSkippedCounts(s: string, c: char)
    requires !IsSkipped(c)
    ensures multiset(RemoveSkipped(s))[c] == multiset(s)[c]
  {
    if s != [] {
      RemoveSkippedCounts(s[1..], c);
      assert s == [s[0]] + s[1..];
    }
  }

  /** Skipping works character by character, keeping the order of the rest: a skipped
      character vanishes, any other stays in place. */
  lemma {:induction false} RemoveSkippedAppend(a: string, b: string)
    ensures RemoveSkipped(a + b) == RemoveSkipped(a) + RemoveSkipped(b)
    decreases |a|
  {
    if a == [] {
      assert a + b == b;
    } else {
      var ab := a + b;
      assert ab[0] == a[0];
      assert ab[1..] == a[1..] + b;
      RemoveSkippedAppend(a[1..], b);
      if IsSkipped(a[0]) {
        assert RemoveSkipped(ab) == RemoveSkipped(a[1..] + b);
        assert RemoveSkipped(a) == RemoveSkipped(a[1..]);
      } else {
        var x, y := RemoveSkipped(a[1..]), RemoveSkipped(b);
        assert RemoveSkipped(ab) == [a[0]] + (x + y);
        assert RemoveSkipped(a) == [a[0]] + x;
        assert [a[0]] + (x + y) == ([a[0]] + x) + y;
      }
    }
  }

  lemma RemoveSkippedOne(c: char)
    ensures RemoveSkipped([c]) == if IsSkipped(c) then [] else [c]
  {
    assert [c][1..] == [];
  }

  // ---------------------------------------------------------------- encoding

  /** The six-bit groups of section 4 of RFC 4648: three bytes x, y, z are cut into the
      high six bits of x, the low two of x with the high four of y, the low four of y with
      the high two of z, and the low six of z. */
  function High6(x: byte): sextet {
    x / 4
  }

  function Low2High4(x: byte, y: byte): sextet {
    (x % 4) * 16 + y / 16
  }

  function Low4High2(y: byte, z: byte): sextet {
    (y % 16) * 4 + z / 64
  }

  function Low6(z: byte): sextet {
    z % 64
  }

  /** Three bytes become four characters. */
  function EncodeQuad(x: byte, y: byte, z: byte): string {
    [Char(High6(x)), Char(Low2High4(x, y)), Char(Low4High2(y, z)), Char(Low6(z))]
  }

  /** Base64 encoding with padding (section 4 of RFC 4648): a last group of one byte gives
      two characters and "==", one of two bytes three characters and "=". */
  function Encode(b: seq<byte>): (s: string)
    ensures |s| % 4 == 0
    ensures 4 * |b| <= 3 * |s| < 4 * |b| + 12
  {
    if |b| == 0 then []
    else if |b| == 1 then [Char(High6(b[0])), Char(Low2High4(b[0], 0)), '=', '=']
    else if |b| == 2 then [Char(High6(b[0])), Char(Low2High4(b[0], b[1])), Char(Low4High2(b[1], 0)), '=']
    else EncodeQuad(b[0], b[1], b[2]) + Encode(b[3..])
  }

  // ---------------------------------------------------------------- decoding

  /** The byte made of the six bits of `c0` and the high two bits of `c1`. */
  function First(c0: sextet, c1: sextet): byte {
    c0 * 4 + c1 / 16
  }

  /** The byte made of the low four bits of `c1` and the high four bits of `c2`. */
  function Second(c1: sextet, c2: sextet): byte {
    (c1 % 16) * 16 + c2 / 4
  }

  /** The byte made of the low two bits of `c2` and the six bits of `c3`. */
  function Third(c2: sextet, c3: sextet): byte {
    (c2 % 4) * 64 + c3
  }

  /** Four alphabet characters become three bytes. */
  function DecodeFull(q: string): (r: Option<seq<byte>>)
    requires |q| == 4
    ensures r.Some? ==> |r.value| == 3
  {
    match (Value(q[0]), Value(q[1]), Value(q[2]), Value(q[3]))
    case (Some(c0), Some(c1), Some(c2), Some(c3)) =>
      Some([First(c0, c1), Second(c1, c2), Third(c2, c3)])
    case _ => None
  }

  /** The last quad, which may carry one or two pad characters. */
  function DecodeLast(q: string): (r: Option<seq<byte>>)
    requires |q| == 4
    ensures r.Some? ==> 1 <= |r.value| <= 3
  {
    if q[2] == '=' && q[3] == '=' then
      match (Value(q[0]), Value(q[1]))
      case (Some(c0), Some(c1)) => Some([First(c0, c1)])
      case _ => None
    else if q[3] == '=' then
      match (Value(q[0]), Value(q[1]), Value(q[2]))
      case (Some(c0), Some(c1), Some(c2)) => Some([First(c0, c1), Second(c1, c2)])
      case _ => None
    else DecodeFull(q)
  }

  function DecodeQuads(t: string): (r: Option<seq<byte>>)
    requires |t| % 4 == 0
    decreases |t|
  {
    if t == [] then Some([])
    else if |t| == 4 then DecodeLast(t)
    else
      match (DecodeFull(t[..4]), DecodeQuads(t[4..]))
      case (Some(head), Some(tail)) => Some(head + tail)
      case _ => None
  }

  /** Convert.FromBase64String: the bytes, or the FormatException it throws. Every text
      whose significant characters are not a whole number of quads is rejected, and every
      accepted text yields at most three bytes per quad. */
  function Decode(s: string): (r: Option<seq<byte>>)
    ensures |RemoveSkipped(s)| % 4 != 0 ==> r.None?
    ensures r.Some? ==> 4 * |r.value| <= 3 * |RemoveSkipped(s)|
  {
    var t := RemoveSkipped(s);
    if |t| % 4 != 0 then None
    else
      var r := DecodeQuads(t);
      DecodeQuadsLength(t);
      r
  }

  /** The significant text the decoder accepts: whole quads of alphabet characters, except
      that the text may end in "=" or "==" (a '=' is only ever followed by another '='). */
  predicate WellFormed(t: string) {
    && |t| % 4 == 0
    && forall i :: 0 <= i < |t| ==> Value(t[i]).Some? || (t[i] == '=' && i >= |t| - 2 && t[|t| - 1] == '=')
  }

  lemma DecodeFullAcceptsExactly(q: string)
    requires |q| == 4
    ensures DecodeFull(q).Some? <==> Value(q[0]).Some? && Value(q[1]).Some? && Value(q[2]).Some? && Value(q[3]).Some?
  {
  }

  lemma DecodeLastAcceptsExactly(q: string)
    requires |q| == 4
    ensures DecodeLast(q).Some? <==> WellFormed(q)
  {
    DecodeFullAcceptsExactly(q);
    assert Value('=').None?;
    if WellFormed(q) {
      assert Value(q[2]).Some? || (q[2] == '=' && q[3] == '=');
      assert Value(q[3]).Some? || q[3] == '=';
    } else {
      var i :| 0 <= i < 4 && !(Value(q[i]).Some? || (q[i] == '=' && i >= 2 && q[3] == '='));
    }
  }

  lemma {:induction false} DecodeQuadsAcceptsExactly(t: string)
    requires |t| % 4 == 0
    ensures DecodeQuads(t).Some? <==> WellFormed(t)
    decreases |t|
  {
    if |t| == 4 {
      DecodeLastAcceptsExactly(t);
    } else if |t| > 4 {
      var head := t[..4];
      var tail := t[4..];
      DecodeQuadsAcceptsExactly(tail);
      DecodeFullAcceptsExactly(head);
      AppendWellFormed(head, tail);
      assert t == head + tail;
    }
  }

  /** A text of more than one quad is well formed exactly when its first quad is all
      alphabet and the rest is well formed. */
  lemma AppendWellFormed(head: string, tail: string)
    requires |head| == 4 && |tail| % 4 == 0 && tail != []
    ensures WellFormed(head + tail) <==>
      (forall i :: 0 <= i < 4 ==> Value(head[i]).Some?) && WellFormed(tail)
  {
    var t := head + tail;
    if WellFormed(t) {
      forall i | 0 <= i < 4 ensures Value(head[i]).Some? {
        assert t[i] == head[i];
      }
      forall j | 0 <= j < |tail|
        ensures Value(tail[j]).Some? || (tail[j] == '=' && j >= |tail| - 2 && tail[|tail| - 1] == '=')
      {
        assert t[j + 4] == tail[j];
      }
    }
    if (forall i :: 0 <= i < 4 ==> Value(head[i]).Some?) && WellFormed(tail) {
      forall i | 0 <= i < |t|
        ensures Value(t[i]).Some? || (t[i] == '=' && i >= |t| - 2 && t[|t| - 1] == '=')
      {
        if i < 4 { assert t[i] == head[i]; } else { assert t[i] == tail[i - 4]; }
      }
    }
  }

  /** Convert.FromBase64String accepts a text exactly when its significant characters are
      well formed: every character outside the alphabet, a '=' before the last two
      positions and a '=' followed by anything but '=' make it throw. */
  lemma {:induction false} DecodeAcceptsExactly(s: string)
    ensures Decode(s).Some? <==> WellFormed(RemoveSkipped(s))
  {
    if |RemoveSkipped(s)| % 4 == 0 {
      DecodeQuadsAcceptsExactly(RemoveSkipped(s));
    }
  }

  /** A significant character that is neither in the alphabet nor '=' is refused wherever it
      stands. */
  lemma {:induction false} DecodeRejectsForeignCharacter(s: string, c: char)
    requires c in s && !IsSkipped(c) && c != '=' && Value(c).None?
    ensures Decode(s).None?
  {
    var t := RemoveSkipped(s);
    RemoveSkippedCounts(s, c);
    assert multiset(t)[c] > 0;
    assert c in t;
    var i :| 0 <= i < |t| && t[i] == c;
    DecodeAcceptsExactly(s);
  }

  /** Padding anywhere but at the very end is refused. */
  lemma {:induction false} DecodeRejectsInnerPad(s: string, i: nat)
    requires i < |RemoveSkipped(s)| - 2 && RemoveSkipped(s)[i] == '='
    ensures Decode(s).None?
  {
    DecodeAcceptsExactly(s);
  }

  /** Worked cases: a character outside the alphabet, a leading pad and a pad followed by a
      letter are each refused. */
  lemma {:induction false} DecodeExamples()
    ensures Decode("!!!!").None?
    ensures Decode("=QQQ").None?
    ensures Decode("QQ=A").None?
  {
    DecodeRejectsForeignCharacter("!!!!", '!');
    RemoveSkippedNone("=QQQ");
    DecodeRejectsInnerPad("=QQQ", 0);
    RemoveSkippedNone("QQ=A");
    DecodeAcceptsExactly("QQ=A");
    assert Value("QQ=A"[2]).None?;
  }

  lemma {:induction false} DecodeQuadsLength(t: string)
    requires |t| % 4 == 0
    ensures DecodeQuads(t).Some? ==> 4 * |DecodeQuads(t).value| <= 3 * |t|
    decreases |t|
  {
    if |t| > 4 {
      DecodeQuadsLength(t[4..]);
    }
  }

  // ---------------------------------------------------------------- round trip

  lemma FirstOfGroups(x: byte, y: byte)
    ensures First(High6(x), Low2High4(x, y)) == x
  {
    assert Low2High4(x, y) / 16 == x % 4;
  }

  lemma SecondOfGroups(x: byte, y: byte, z: byte)
    ensures Second(Low2High4(x, y), Low4High2(y, z)) == y
  {
    assert Low2High4(x, y) % 16 == y / 16;
    assert Low4High2(y, z) / 4 == y % 16;
  }

  lemma ThirdOfGroups(y: byte, z: byte)
    ensures Third(Low4High2(y, z), Low6(z)) == z
  {
    assert Low4High2(y, z) % 4 == z / 64;
  }

  lemma DecodeEncodeQuad(x: byte, y: byte, z: byte)
    ensures DecodeFull(EncodeQuad(x, y, z)) == Some([x, y, z])
  {
    ValueOfChar(High6(x));
    ValueOfChar(Low2High4(x, y));
    ValueOfChar(Low4High2(y, z));
    ValueOfChar(Low6(z));
    FirstOfGroups(x, y);
    SecondOfGroups(x, y, z);
    ThirdOfGroups(y, z);
  }

  lemma DecodeEncodeOne(x: byte)
    ensures DecodeLast([Char(High6(x)), Char(Low2High4(x, 0)), '=', '=']) == Some([x])
  {
    ValueOfChar(High6(x));
    ValueOfChar(Low2High4(x, 0));
    FirstOfGroups(x, 0);
  }

  lemma DecodeEncodeTwo(x: byte, y: byte)
    ensures DecodeLast([Char(High6(x)), Char(Low2High4(x, y)), Char(Low4High2(y, 0)), '=']) == Some([x, y])
  {
    ValueOfChar(High6(x));
    ValueOfChar(Low2High4(x, y));
    ValueOfChar(Low4High2(y, 0));
    FirstOfGroups(x, y);
    SecondOfGroups(x, y, 0);
  }

  lemma CharNotSkipped(v: sextet)
    ensures !IsSkipped(Char(v)) && Char(v) != '='
  {
    ValueOfChar(v);
  }

  /** Every character of an encoding is an alphabet character or a pad. */
  lemma {:induction false} EncodeNotSkipped(b: seq<byte>)
    ensures forall i :: 0 <= i < |Encode(b)| ==> !IsSkipped(Encode(b)[i])
  {
    if |b| == 1 {
      CharNotSkipped(High6(b[0]));
      CharNotSkipped(Low2High4(b[0], 0));
    } else if |b| == 2 {
      CharNotSkipped(High6(b[0]));
      CharNotSkipped(Low2High4(b[0], b[1]));
      CharNotSkipped(Low4High2(b[1], 0));
    } else if |b| >= 3 {
      CharNotSkipped(High6(b[0]));
      CharNotSkipped(Low2High4(b[0], b[1]));
      CharNotSkipped(Low4High2(b[1], b[2]));
      CharNotSkipped(Low6(b[2]));
      EncodeNotSkipped(b[3..]);
      var q := EncodeQuad(b[0], b[1], b[2]);
      assert Encode(b) == q + Encode(b[3..]);
      forall i | 0 <= i < |Encode(b)| ensures !IsSkipped(Encode(b)[i]) {
        if i >= 4 { assert Encode(b)[i] == Encode(b[3..])[i - 4]; }
      }
    }
  }

  lemma {:induction false} RemoveSkippedNone(s: string)
    requires forall i :: 0 <= i < |s| ==> !IsSkipped(s[i])
    ensures RemoveSkipped(s) == s
  {
    if s != [] {
      RemoveSkippedNone(s[1..]);
      assert s == [s[0]] + s[1..];
    }
  }

  /** Decoding undoes encoding, for every byte sequence. */
  lemma {:induction false} DecodeEncode(b: seq<byte>)
    ensures Decode(Encode(b)) == Some(b)
  {
    EncodeNotSkipped(b);
    RemoveSkippedNone(Encode(b));
    DecodeQuadsEncode(b);
  }

  /** Line breaks and blanks put anywhere into an encoding, as a MIME serialiser does
      when it wraps base64 lines, do not change what it decodes to. */
  lemma DecodeAnyLineBreaks(b: seq<byte>, s: string)
    requires RemoveSkipped(s) == Encode(b)
    ensures Decode(s) == Some(b)
  {
    DecodeQuadsEncode(b);
  }

  lemma DecodeQuadsCons(q: string, rest: string)
    requires |q| == 4 && |rest| % 4 == 0 && rest != []
    ensures DecodeQuads(q + rest) ==
      match (DecodeFull(q), DecodeQuads(rest))
      case (Some(head), Some(tail)) => Some(head + tail)
      case _ => None
  {
    assert (q + rest)[..4] == q;
    assert (q + rest)[4..] == rest;
  }

  lemma {:induction false} DecodeQuadsEncode(b: seq<byte>)
    ensures DecodeQuads(Encode(b)) == Some(b)
    decreases |b|, 1
  {
    if |b| == 1 {
      DecodeEncodeOne(b[0]);
      assert [b[0]] == b;
    } else if |b| == 2 {
      DecodeEncodeTwo(b[0], b[1]);
      assert [b[0], b[1]] == b;
    } else if |b| >= 3 {
      DecodeQuadsEncodeLong(b);
    }
  }

  lemma {:induction false} DecodeQuadsEncodeLong(b: seq<byte>)
    requires |b| >= 3
    ensures DecodeQuads(Encode(b)) == Some(b)
    decreases |b|, 0
  {
    var q := EncodeQuad(b[0], b[1], b[2]);
    var rest := Encode(b[3..]);
    assert Encode(b) == q + rest;
    DecodeEncodeQuad(b[0], b[1], b[2]);
    assert b == [b[0], b[1], b[2]] + b[3..];
    if |b| == 3 {
      CharNotSkipped(Low6(b[2]));
      assert |rest| == 0;
      assert q + rest == q;
      assert q[3] != '=';
      assert DecodeQuads(q) == DecodeLast(q) == DecodeFull(q);
      assert b == [b[0], b[1], b[2]];
    } else {
      DecodeQuadsEncode(b[3..]);
      DecodeQuadsCons(q, rest);
    }
  }
}
