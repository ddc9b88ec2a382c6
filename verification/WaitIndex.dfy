/**
 The wait-index member: how four identity fields are spelled as one sorted-set
 member, and how the member is rebuilt from a reply alone.
 */
module WaitIndex {
  import opened Wrappers

  const SEPARATOR := '|'
  const ESCAPE := '\\'
  const WAIT_INDEX_SHARDS := 16

  datatype Member = Member(sessionId: string, parentMessageId: string, childMessageId: string, taskGroupId: string)

  /** The identity half of a message header; the other header fields never reach the wait index. */
  datatype Header = Header(sessionId: string, messageId: string, parentMessageId: string, taskGroupId: string)

  // ---------------------------------------------------------------- encoding

  /** Python's str.replace for a one-character pattern. */
  function Replace(s: string, pattern: char, image: string): string {
    if s == "" then "" else (if s[0] == pattern then image else [s[0]]) + Replace(s[1..], pattern, image)
  }

  /** Two passes, in this order: the second must not see the escapes of its own output. */
  function Escaped(value: string): string {
    Replace(Replace(value, ESCAPE, [ESCAPE, ESCAPE]), SEPARATOR, [ESCAPE, SEPARATOR])
  }

  function EncodeMember(m: Member): string {
    Escaped(m.sessionId) + [SEPARATOR] + Escaped(m.parentMessageId) + [SEPARATOR]
    + Escaped(m.childMessageId) + [SEPARATOR] + Escaped(m.taskGroupId)
  }

  // ---------------------------------------------------------------- decoding

  function Prepend(c: char, fields: Option<seq<string>>): Option<seq<string>>
    requires fields.Some? ==> |fields.value| > 0
  {
    match fields
    case None => None
    case Some(fs) => Some([[c] + fs[0]] + fs[1..])
  }

  /** The fields of an encoded string, read from the left; None for a dangling escape. */
  function Fields(encoded: string): (fields: Option<seq<string>>)
    ensures fields.Some? ==> |fields.value| > 0
  {
    if encoded == "" then Some([""])
    else if encoded[0] == ESCAPE then
      if |encoded| == 1 then None else Prepend(encoded[1], Fields(encoded[2..]))
    else if encoded[0] == SEPARATOR then
      match Fields(encoded[1..]) case None => None case Some(fs) => Some([""] + fs)
    else Prepend(encoded[0], Fields(encoded[1..]))
  }

  function DecodeMember(member: string): Option<Member> {
    match Fields(member)
    case None => None
    case Some(fs) => if |fs| == 4 then Some(Member(fs[0], fs[1], fs[2], fs[3])) else None
  }

  /** What the scanner still owes: the fields closed so far, the open one, and the unread rest. */
  ghost function Scanned(fields: seq<string>, current: string, escaped: bool, rest: string): Option<seq<string>>
    decreases |rest|
  {
    if escaped then
      if rest == "" then None else Scanned(fields, current + [rest[0]], false, rest[1..])
    else
      match Fields(rest)
      case None => None
      case Some(fs) => Some(fields + [current + fs[0]] + fs[1..])
  }

  /** One step of the scanner keeps what it owes. */
  lemma ScannedStep(fields: seq<string>, current: string, escaped: bool, rest: string)
    requires rest != ""
    ensures Scanned(fields, current, escaped, rest)
         == if escaped then Scanned(fields, current + [rest[0]], false, rest[1..])
            else if rest[0] == ESCAPE then Scanned(fields, current, true, rest[1..])
            else if rest[0] == SEPARATOR then Scanned(fields + [current], "", false, rest[1..])
            else Scanned(fields, current + [rest[0]], false, rest[1..])
  {
    var tail := rest[1..];
    if !escaped {
      if rest[0] == ESCAPE {
        if tail != "" {
          assert tail[1..] == rest[2..];
          if Fields(rest[2..]).Some? {
            var fs := Fields(rest[2..]).value;
            assert current + ([tail[0]] + fs[0]) == (current + [tail[0]]) + fs[0];
          }
        }
      } else if Fields(tail).Some? {
        var fs := Fields(tail).value;
        if rest[0] == SEPARATOR {
          assert current + "" == current && "" + fs[0] == fs[0];
          assert fields + [current + ""] + fs == (fields + [current]) + ["" + fs[0]] + fs[1..];
        } else {
          assert current + ([rest[0]] + fs[0]) == (current + [rest[0]]) + fs[0];
        }
      }
    }
  }

  lemma PrependNothing(fields: seq<string>)
    requires |fields| > 0
    ensures ["" + fields[0]] + fields[1..] == fields
  {
    assert "" + fields[0] == fields[0];
  }

  lemma ScannedAtStart(encoded: string)
    ensures Scanned([], "", false, encoded) == Fields(encoded)
  {
    if Fields(encoded).Some? {
      var fs := Fields(encoded).value;
      PrependNothing(fs);
      assert [] + ["" + fs[0]] + fs[1..] == ["" + fs[0]] + fs[1..];
    }
  }

  /** The decoder's character loop computes exactly the fields. */
  method SplitEscaped(encoded: string) returns (result: Option<seq<string>>)
    ensures result == Fields(encoded)
  {
    var fields: seq<string>, current, escaped := [], "", false;
    assert encoded[0..] == encoded;
    ScannedAtStart(encoded);
    for i := 0 to |encoded|
      invariant Scanned(fields, current, escaped, encoded[i..]) == Fields(encoded)
    {
      var c := encoded[i];
      ScannedStep(fields, current, escaped, encoded[i..]);
      assert encoded[i..][1..] == encoded[i + 1..];
      if escaped {
        current := current + [c];
        escaped := false;
      } else if c == ESCAPE {
        escaped := true;
      } else if c == SEPARATOR {
        fields := fields + [current];
        current := "";
      } else {
        current := current + [c];
      }
    }
    if escaped {
      return None;
    }
    assert current + "" == current && fields + [current] + [""][1..] == fields + [current];
    result := Some(fields + [current]);
  }

  // ---------------------------------------------------------------- round trip

  lemma {:induction false} ReplaceConcat(a: string, b: string, pattern: char, image: string)
    ensures Replace(a + b, pattern, image) == Replace(a, pattern, image) + Replace(b, pattern, image)
  {
    if a == "" {
      assert a + b == b;
    } else {
      assert (a + b)[1..] == a[1..] + b;
      ReplaceConcat(a[1..], b, pattern, image);
    }
  }

  function EscapedChar(c: char): string {
    if c == ESCAPE || c == SEPARATOR then [ESCAPE, c] else [c]
  }

  /** The two passes amount to escaping each character once. */
  lemma EscapedCons(c: char, rest: string)
    ensures Escaped([c] + rest) == EscapedChar(c) + Escaped(rest)
  {
    var first := if c == ESCAPE then [ESCAPE, ESCAPE] else [c];
    assert ([c] + rest)[1..] == rest;
    assert Replace([c] + rest, ESCAPE, [ESCAPE, ESCAPE]) == first + Replace(rest, ESCAPE, [ESCAPE, ESCAPE]);
    ReplaceConcat(first, Replace(rest, ESCAPE, [ESCAPE, ESCAPE]), SEPARATOR, [ESCAPE, SEPARATOR]);
    assert Replace([c], SEPARATOR, [ESCAPE, SEPARATOR]) == if c == SEPARATOR then [ESCAPE, SEPARATOR] else [c];
    if c == ESCAPE {
      assert first == [ESCAPE] + [ESCAPE];
      ReplaceConcat([ESCAPE], [ESCAPE], SEPARATOR, [ESCAPE, SEPARATOR]);
    }
  }

  function PrependAll(prefix: string, fields: Option<seq<string>>): Option<seq<string>>
    requires fields.Some? ==> |fields.value| > 0
  {
    match fields
    case None => None
    case Some(fs) => Some([prefix + fs[0]] + fs[1..])
  }

  /** Reading an escaped value gives the value back and leaves the rest unread. */
  lemma {:induction false} FieldsOfEscaped(value: string, rest: string)
    ensures Fields(Escaped(value) + rest) == PrependAll(value, Fields(rest))
  {
    if value == "" {
      assert Escaped(value) + rest == rest;
      if Fields(rest).Some? {
        PrependNothing(Fields(rest).value);
      }
    } else {
      var c, tail := value[0], value[1..];
      assert value == [c] + tail;
      EscapedCons(c, tail);
      FieldsOfEscaped(tail, rest);
      var text := Escaped(value) + rest;
      assert text[|EscapedChar(c)|..] == Escaped(tail) + rest;
      assert Fields(text) == Prepend(c, Fields(Escaped(tail) + rest));
      if Fields(rest).Some? {
        assert [c] + (tail + Fields(rest).value[0]) == value + Fields(rest).value[0];
      }
    }
  }

  /** The fields of two encoded parts joined by the separator. */
  lemma FieldsOfJoined(value: string, rest: string)
    requires Fields(rest).Some?
    ensures Fields(Escaped(value) + [SEPARATOR] + rest) == Some([value] + Fields(rest).value)
  {
    assert Escaped(value) + [SEPARATOR] + rest == Escaped(value) + ([SEPARATOR] + rest);
    assert ([SEPARATOR] + rest)[1..] == rest;
    FieldsOfEscaped(value, [SEPARATOR] + rest);
    assert Fields([SEPARATOR] + rest) == Some([""] + Fields(rest).value);
    assert value + "" == value;
  }

  lemma FieldsOfLast(value: string)
    ensures Fields(Escaped(value)) == Some([value])
  {
    assert Escaped(value) + "" == Escaped(value);
    FieldsOfEscaped(value, "");
    assert value + "" == value && [value] + [""][1..] == [value];
  }

  /** Decoding an encoded member gives the member back, whatever characters its fields hold. */
  lemma RoundTrip(m: Member)
    ensures DecodeMember(EncodeMember(m)) == Some(m)
  {
    hide Escaped, Fields;
    var c := Escaped(m.childMessageId) + [SEPARATOR] + Escaped(m.taskGroupId);
    var p := Escaped(m.parentMessageId) + [SEPARATOR] + c;
    FieldsOfLast(m.taskGroupId);
    FieldsOfJoined(m.childMessageId, Escaped(m.taskGroupId));
    FieldsOfJoined(m.parentMessageId, c);
    FieldsOfJoined(m.sessionId, p);
    assert EncodeMember(m) == Escaped(m.sessionId) + [SEPARATOR] + p;
  }

  /** Two waits never share a member. */
  lemma EncodeInjective(a: Member, b: Member)
    requires EncodeMember(a) == EncodeMember(b)
    ensures a == b
  {
    RoundTrip(a);
    RoundTrip(b);
  }

  // ---------------------------------------------------------------- re-encoding

  /** Every escape is one the encoder would have written. */
  predicate WellEscaped(s: string) {
    s == ""
    || (if s[0] == ESCAPE then |s| > 1 && (s[1] == ESCAPE || s[1] == SEPARATOR) && WellEscaped(s[2..])
        else WellEscaped(s[1..]))
  }

  function JoinEscaped(fields: seq<string>): string
    requires |fields| > 0
  {
    if |fields| == 1 then Escaped(fields[0])
    else Escaped(fields[0]) + [SEPARATOR] + JoinEscaped(fields[1..])
  }

  lemma {:induction false} EscapedIsWellEscaped(value: string, rest: string)
    requires WellEscaped(rest)
    ensures WellEscaped(Escaped(value) + rest)
  {
    if value == "" {
      assert Escaped(value) + rest == rest;
    } else {
      assert value == [value[0]] + value[1..];
      EscapedCons(value[0], value[1..]);
      EscapedIsWellEscaped(value[1..], rest);
      assert (Escaped(value) + rest)[|EscapedChar(value[0])|..] == Escaped(value[1..]) + rest;
    }
  }

  lemma {:induction false} JoinEscapedIsWellEscaped(fields: seq<string>)
    requires |fields| > 0
    ensures WellEscaped(JoinEscaped(fields))
  {
    if |fields| == 1 {
      EscapedIsWellEscaped(fields[0], "");
      assert Escaped(fields[0]) + "" == Escaped(fields[0]);
    } else {
      JoinEscapedIsWellEscaped(fields[1..]);
      var rest := [SEPARATOR] + JoinEscaped(fields[1..]);
      assert rest[1..] == JoinEscaped(fields[1..]);
      EscapedIsWellEscaped(fields[0], rest);
      assert JoinEscaped(fields) == Escaped(fields[0]) + rest;
    }
  }

  lemma JoinEscapedPrepend(c: char, fields: seq<string>)
    requires |fields| > 0
    ensures JoinEscaped([[c] + fields[0]] + fields[1..]) == EscapedChar(c) + JoinEscaped(fields)
  {
    var more := [[c] + fields[0]] + fields[1..];
    assert more[0] == [c] + fields[0] && more[1..] == fields[1..];
    EscapedCons(c, fields[0]);
    if |fields| > 1 {
      Reassociate(EscapedChar(c), Escaped(fields[0]), [SEPARATOR], JoinEscaped(fields[1..]));
    }
  }

  lemma Reassociate(a: string, b: string, c: string, d: string)
    ensures (a + b) + c + d == a + (b + c + d)
  {
  }

  lemma {:induction false} WellEscapedRejoins(s: string)
    requires WellEscaped(s)
    ensures Fields(s).Some? && JoinEscaped(Fields(s).value) == s
  {
    if s != "" {
      if s[0] == ESCAPE {
        WellEscapedRejoins(s[2..]);
        JoinEscapedPrepend(s[1], Fields(s[2..]).value);
      } else {
        WellEscapedRejoins(s[1..]);
        if s[0] != SEPARATOR {
          JoinEscapedPrepend(s[0], Fields(s[1..]).value);
        } else {
          var fs := Fields(s[1..]).value;
          assert ([""] + fs)[1..] == fs;
          assert Escaped("") == "";
        }
      }
    }
  }

  /** Re-encoding a decoded string restores it exactly when it carries no escape the encoder would not write. */
  lemma ReencodeIffWellEscaped(member: string)
    requires DecodeMember(member).Some?
    ensures EncodeMember(DecodeMember(member).value) == member <==> WellEscaped(member)
  {
    var fs := Fields(member).value;
    var m := DecodeMember(member).value;
    assert fs == [fs[0]] + [fs[1]] + [fs[2]] + [fs[3]];
    assert fs[1..][1..] == fs[2..] && fs[2..][1..] == fs[3..];
    assert JoinEscaped(fs[3..]) == Escaped(fs[3]);
    assert JoinEscaped(fs[2..]) == Escaped(fs[2]) + [SEPARATOR] + Escaped(fs[3]);
    assert JoinEscaped(fs) == EncodeMember(m);
    JoinEscapedIsWellEscaped(fs);
    if WellEscaped(member) {
      WellEscapedRejoins(member);
    }
  }

  /** What the encoder produced is well escaped. */
  lemma EncodeIsWellEscaped(m: Member)
    ensures WellEscaped(EncodeMember(m))
  {
    RoundTrip(m);
    ReencodeIffWellEscaped(EncodeMember(m));
  }

  // ---------------------------------------------------------------- rebuilding from a reply

  /** A reply names the caller in message_id and the sub-task in parent_message_id. */
  function MemberFromResume(h: Header): string {
    EncodeMember(Member(h.sessionId, h.messageId, h.parentMessageId, h.taskGroupId))
  }

  // ---------------------------------------------------------------- shards

  function Utf8(c: char): seq<bv8> {
    var n := c as int;
    if n < 0x80 then [n as bv8]
    else if n < 0x800 then [(0xC0 + n / 0x40) as bv8, (0x80 + n % 0x40) as bv8]
    else if n < 0x1_0000 then
      [(0xE0 + n / 0x1000) as bv8, (0x80 + n / 0x40 % 0x40) as bv8, (0x80 + n % 0x40) as bv8]
    else
      [(0xF0 + n / 0x4_0000) as bv8, (0x80 + n / 0x1000 % 0x40) as bv8,
       (0x80 + n / 0x40 % 0x40) as bv8, (0x80 + n % 0x40) as bv8]
  }

  function Utf8Text(text: string): seq<bv8> {
    if text == "" then [] else Utf8(text[0]) + Utf8Text(text[1..])
  }

  /** One byte folded in; 32-bit arithmetic wraps round. */
  function Folded(digest: bv32, byte: bv8): bv32 {
    (digest ^ (byte as bv32)) * 0x0100_0193
  }

  function Fnv1a(bytes: seq<bv8>): bv32 {
    if bytes == [] then 0x811C_9DC5
    else Folded(Fnv1a(bytes[..|bytes| - 1]), bytes[|bytes| - 1])
  }

  method Fnv1a32(text: string) returns (digest: bv32)
    ensures digest == Fnv1a(Utf8Text(text))
  {
    hide Folded, Utf8Text;
    var bytes := Utf8Text(text);
    digest := 0x811C_9DC5;
    for i := 0 to |bytes|
      invariant digest == Fnv1a(bytes[..i])
    {
      assert bytes[..i + 1][..i] == bytes[..i];
      digest := Folded(digest, bytes[i]);
    }
    assert bytes[..|bytes|] == bytes;
  }

  /** Published values of the hash. */
  lemma KnownDigests()
    ensures Fnv1a(Utf8Text("")) == 0x811C_9DC5
    ensures Fnv1a(Utf8Text("a")) == 0xE40C_292C
    ensures Fnv1a(Utf8Text("fo")) == 0x6222_E842
  {
    assert Utf8('a') == [0x61] && Utf8('f') == [0x66] && Utf8('o') == [0x6F];
    assert Utf8Text("a") == Utf8('a') + Utf8Text("");
    assert Utf8Text("o") == Utf8('o') + Utf8Text("");
    assert "fo"[1..] == "o";
    assert Utf8Text("fo") == [0x66, 0x6F];
    assert [0x61 as bv8][..0] == [] && [0x66 as bv8, 0x6F][..1] == [0x66] && [0x66 as bv8][..0] == [];
    assert Fnv1a([0x61]) == Folded(0x811C_9DC5, 0x61);
    assert Fnv1a([0x66, 0x6F]) == Folded(Folded(0x811C_9DC5, 0x66), 0x6F);
  }

  /** The shard that owns a session's entries. */
  function ShardOf(sessionId: string): (shard: nat)
    ensures shard < WAIT_INDEX_SHARDS
  {
    (Fnv1a(Utf8Text(sessionId)) % 16) as nat
  }

  /** The shard is the digest's last hexadecimal digit. */
  lemma ShardIsLastDigit(sessionId: string)
    ensures ShardOf(sessionId) == (Fnv1a(Utf8Text(sessionId)) & 0xF) as nat
    ensures ShardOf("") == 5 && ShardOf("a") == 12 && ShardOf("fo") == 2
  {
    KnownDigests();
    var digest := Fnv1a(Utf8Text(sessionId));
    assert digest % 16 == digest & 0xF;
  }
}
