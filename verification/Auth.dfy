/** SASL payloads: auth/sasl_plain.go and auth/sasl_scram.go. */
module Auth {
  import opened Bytes

  /** Where `sep` first occurs, or the length. */
  function IndexOf(s: Bytes, sep: byte): (i: nat)
    ensures i <= |s|
    ensures i < |s| ==> s[i] == sep
    ensures sep !in s[..i]
  {
    if s == [] || s[0] == sep then 0
    else
      var i := 1 + IndexOf(s[1..], sep);
      assert s[..i] == [s[0]] + s[1..][..i - 1];
      i
  }

  /** The parts before and after the first `sep`. */
  function CutByte(s: Bytes, sep: byte): Option<(Bytes, Bytes)> {
    var i := IndexOf(s, sep);
    if i < |s| then Some((s[..i], s[i + 1..])) else None
  }

  lemma {:induction false} IndexOfJoined(before: Bytes, sep: byte, after: Bytes)
    requires sep !in before
    ensures IndexOf(before + [sep] + after, sep) == |before|
  {
    var s := before + [sep] + after;
    if before != [] {
      assert s[1..] == before[1..] + [sep] + after;
      assert before == [before[0]] + before[1..];
      IndexOfJoined(before[1..], sep, after);
    }
  }

  lemma CutIff(s: Bytes, sep: byte, before: Bytes, after: Bytes)
    ensures CutByte(s, sep) == Some((before, after)) <==> sep !in before && s == before + [sep] + after
  {
    var i := IndexOf(s, sep);
    if i < |s| {
      assert s == s[..i] + [s[i]] + s[i + 1..];
    }
    if sep !in before && s == before + [sep] + after {
      IndexOfJoined(before, sep, after);
      assert s[..|before|] == before && s[|before| + 1..] == after;
    }
  }

  // --------------------------------------------------------------------- PLAIN

  datatype PlainCredentials = PlainCredentials(authzid: Bytes, username: Bytes, password: Bytes)

  const NUL: byte := 0

  /** The message of section 2 of RFC 4616. */
  function PlainMessage(c: PlainCredentials): Bytes {
    c.authzid + [NUL] + (c.username + [NUL] + c.password)
  }

  function Plain(payload: Bytes): Option<PlainCredentials> {
    match CutByte(payload, NUL)
    case None => None
    case Some((authzid, rest)) =>
      match CutByte(rest, NUL)
      case None => None
      case Some((username, password)) => Some(PlainCredentials(authzid, username, password))
  }

  /** Exactly the PLAIN messages are accepted, each as the credentials it carries;
      a password may hold NULs. */
  lemma PlainIff(payload: Bytes, c: PlainCredentials)
    ensures Plain(payload) == Some(c)
            <==> payload == PlainMessage(c) && NUL !in c.authzid && NUL !in c.username
  {
    var rest := c.username + [NUL] + c.password;
    CutIff(payload, NUL, c.authzid, rest);
    CutIff(rest, NUL, c.username, c.password);
    if Plain(payload) == Some(c) {
      var (authzid, tail) := CutByte(payload, NUL).value;
      CutIff(payload, NUL, authzid, tail);
      CutIff(tail, NUL, c.username, c.password);
    }
  }

  /** The parser's one scan for two NULs. */
  method ParsePlain(payload: Bytes) returns (r: Option<PlainCredentials>)
    ensures r == Plain(payload)
  {
    var first := -1;
    var second := -1;
    for i := 0 to |payload|
      invariant second == -1
      invariant first == -1 ==> NUL !in payload[..i]
      invariant first != -1 ==> 0 <= first < i && payload[first] == NUL && NUL !in payload[..first]
      invariant first != -1 ==> NUL !in payload[first + 1..i]
    {
      assert payload[..i + 1] == payload[..i] + [payload[i]];
      if payload[i] != NUL {
        assert first != -1 ==> payload[first + 1..i + 1] == payload[first + 1..i] + [payload[i]];
        continue;
      }
      if first == -1 {
        first := i;
        continue;
      }
      second := i;
      break;
    }
    if first == -1 || second == -1 {
      if first == -1 {
        assert payload[..|payload|] == payload;
      } else {
        var rest := payload[first + 1..];
        assert payload == payload[..first] + [NUL] + rest;
        CutIff(payload, NUL, payload[..first], rest);
        assert payload[first + 1..|payload|] == rest;
      }
      return None;
    }
    var c := PlainCredentials(payload[..first], payload[first + 1..second], payload[second + 1..]);
    assert payload == PlainMessage(c);
    PlainIff(payload, c);
    return Some(c);
  }

  /** What plainAuthenticate sends upstream. */
  function UpstreamPlain(username: Bytes, password: Bytes): Bytes {
    [NUL] + username + [NUL] + password
  }

  /** The broker reads the credentials it is sent exactly when the username has no
      NUL, which no username out of the parser has. */
  lemma UpstreamPlainIff(username: Bytes, password: Bytes)
    ensures Plain(UpstreamPlain(username, password)) == Some(PlainCredentials([], username, password))
            <==> NUL !in username
  {
    var c := PlainCredentials([], username, password);
    assert UpstreamPlain(username, password) == PlainMessage(c);
    PlainIff(UpstreamPlain(username, password), c);
  }

  // ------------------------------------------------------------- SCRAM saslnames

  const COMMA: byte := 0x2C
  const EQUALS: byte := 0x3D
  const ESCAPED_COMMA: Bytes := [0x3D, 0x32, 0x43]
  const ESCAPED_EQUALS: Bytes := [0x3D, 0x33, 0x44]

  /** Section 5.1 of RFC 5802: ',' is sent as "=2C" and '=' as "=3D". */
  function EscapeByte(b: byte): Bytes {
    if b == COMMA then ESCAPED_COMMA else if b == EQUALS then ESCAPED_EQUALS else [b]
  }

  function Escape(s: Bytes): Bytes {
    if s == [] then [] else EscapeByte(s[0]) + Escape(s[1..])
  }

  /** The first escaped character of a saslname, and how many bytes it takes. */
  function UnescapeFirst(raw: Bytes): (r: Option<(byte, nat)>)
    requires raw != []
    ensures r.Some? ==> 0 < r.value.1 <= |raw|
  {
    if raw[0] == COMMA then None
    else if raw[0] != EQUALS then Some((raw[0], 1))
    else if |raw| < 3 then None
    else if raw[..3] == ESCAPED_COMMA then Some((COMMA, 3))
    else if raw[..3] == ESCAPED_EQUALS then Some((EQUALS, 3))
    else None
  }

  /** `b` in front of what is still to come. */
  function Prepend(b: Bytes, rest: Option<Bytes>): Option<Bytes> {
    if rest == None then None else Some(b + rest.value)
  }

  lemma PrependNothing(b: Bytes, rest: Option<Bytes>)
    ensures Prepend([], rest) == rest && Prepend(b, Some([])) == Some(b)
  {
    assert b + [] == b;
    assert rest.Some? ==> [] + rest.value == rest.value;
  }

  function Unescape(raw: Bytes): Option<Bytes>
    decreases |raw|
  {
    if raw == [] then Some([])
    else match UnescapeFirst(raw)
         case None => None
         case Some((b, n)) => Prepend([b], Unescape(raw[n..]))
  }

  lemma {:induction false} UnescapeEscape(s: Bytes)
    ensures Unescape(Escape(s)) == Some(s)
    ensures COMMA !in Escape(s)
  {
    if s != [] {
      UnescapeEscape(s[1..]);
      var e := EscapeByte(s[0]);
      var raw := e + Escape(s[1..]);
      assert raw[..|e|] == e && raw[|e|..] == Escape(s[1..]);
      assert raw[0] == e[0];
      assert UnescapeFirst(raw) == Some((s[0], |e|)) by {
        assert raw[0] == EQUALS ==> raw[..3] == e;
      }
      assert [s[0]] + s[1..] == s;
    }
  }

  lemma EscapeFirst(raw: Bytes)
    requires raw != [] && UnescapeFirst(raw).Some?
    ensures EscapeByte(UnescapeFirst(raw).value.0) == raw[..UnescapeFirst(raw).value.1]
  {}

  lemma {:induction false} EscapeUnescape(raw: Bytes)
    ensures Unescape(raw).Some? ==> Escape(Unescape(raw).value) == raw
    decreases |raw|
  {
    hide UnescapeFirst, EscapeByte;
    if raw != [] && Unescape(raw).Some? {
      var (b, n) := UnescapeFirst(raw).value;
      EscapeUnescape(raw[n..]);
      EscapeFirst(raw);
      var rest := Unescape(raw[n..]).value;
      assert ([b] + rest)[1..] == rest;
      assert raw == raw[..n] + raw[n..];
    }
  }

  /** Escaping and unescaping are inverse bijections between all byte strings and
      the saslnames the decoder accepts. */
  lemma UnescapeIff(raw: Bytes, s: Bytes)
    ensures Unescape(raw) == Some(s) <==> raw == Escape(s)
  {
    UnescapeEscape(s);
    EscapeUnescape(raw);
  }

  lemma {:induction false} UnescapePlain(raw: Bytes)
    requires EQUALS !in raw
    ensures Unescape(raw) == if COMMA in raw then None else Some(raw)
  {
    if raw != [] {
      assert raw == [raw[0]] + raw[1..];
      assert EQUALS !in raw[1..];
      UnescapePlain(raw[1..]);
    }
  }

  /** One character moved from the input to the name built so far. */
  lemma UnescapeStep(b: Bytes, tail: Bytes)
    requires tail != [] && UnescapeFirst(tail).Some?
    ensures var (c, n) := UnescapeFirst(tail).value;
            Prepend(b, Unescape(tail)) == Prepend(b + [c], Unescape(tail[n..]))
  {
    var (c, n) := UnescapeFirst(tail).value;
    if Unescape(tail[n..]).Some? {
      var rest := Unescape(tail[n..]).value;
      assert b + ([c] + rest) == (b + [c]) + rest;
    }
  }

  /** The decoder: a fast path for names without '=', and a loop that builds the
      name byte by byte. */
  method DecodeSASLname(raw: Bytes) returns (r: Option<Bytes>)
    ensures r == Unescape(raw)
  {
    if EQUALS !in raw {
      UnescapePlain(raw);
      if COMMA in raw {
        return None;
      }
      return Some(raw);
    }
    var b: Bytes := [];
    var i := 0;
    assert raw[0..] == raw;
    PrependNothing([], Unescape(raw));
    while i < |raw|
      invariant i <= |raw|
      invariant Unescape(raw) == Prepend(b, Unescape(raw[i..]))
    {
      var c := raw[i];
      ghost var tail := raw[i..];
      if c == COMMA {
        return None;
      } else if c == EQUALS {
        if i + 2 >= |raw| {
          return None;
        }
        var esc := raw[i + 1..i + 3];
        assert tail[..3] == [c] + esc;
        assert ESCAPED_COMMA == [EQUALS] + ESCAPED_COMMA[1..] && ESCAPED_EQUALS == [EQUALS] + ESCAPED_EQUALS[1..];
        assert tail[3..] == raw[i + 3..];
        if esc == ESCAPED_COMMA[1..] {
          UnescapeStep(b, tail);
          b := b + [COMMA];
        } else if esc == ESCAPED_EQUALS[1..] {
          UnescapeStep(b, tail);
          b := b + [EQUALS];
        } else {
          assert tail[..3][1..] == esc;
          return None;
        }
        i := i + 2;
      } else {
        assert tail[1..] == raw[i + 1..];
        UnescapeStep(b, tail);
        b := b + [c];
      }
      i := i + 1;
    }
    assert raw[i..] == [];
    PrependNothing(b, None);
    return Some(b);
  }

  // -------------------------------------------------- SCRAM client-first-message

  /** Section 7 of RFC 5802, with the "n" channel-binding flag: an authzid, an
      optional reserved extension, the username, and whatever follows it. */
  datatype ClientFirst = ClientFirst(authzid: Bytes, extension: Option<Bytes>, name: Bytes, tail: Bytes)

  const FLAG_N: Bytes := [0x6E]
  const EXT: Bytes := [0x6D, 0x3D]
  const USER: Bytes := [0x6E, 0x3D]

  predicate WellFormed(m: ClientFirst) {
    COMMA !in m.authzid && m.name != [] && (m.extension.Some? ==> COMMA !in m.extension.value)
  }

  function UserPart(m: ClientFirst): Bytes {
    USER + (Escape(m.name) + [COMMA] + m.tail)
  }

  function Bare(m: ClientFirst): Bytes {
    if m.extension == None then UserPart(m) else EXT + m.extension.value + [COMMA] + UserPart(m)
  }

  function ClientFirstMessage(m: ClientFirst): Bytes {
    FLAG_N + [COMMA] + (m.authzid + [COMMA] + Bare(m))
  }

  /** The username and what follows it. */
  function ParseUser(part: Bytes): Option<(Bytes, Bytes)> {
    if !(USER <= part) then None
    else match CutByte(part[2..], COMMA)
         case None => None
         case Some((raw, tail)) =>
           if raw == [] || Unescape(raw) == None then None else Some((Unescape(raw).value, tail))
  }

  function ParseBare(bare: Bytes): Option<(Option<Bytes>, Bytes, Bytes)> {
    if EXT <= bare then
      match CutByte(bare, COMMA)
      case None => None
      case Some((ext, part)) =>
        var user := ParseUser(part);
        if user == None then None else Some((Some(ext[2..]), user.value.0, user.value.1))
    else
      var user := ParseUser(bare);
      if user == None then None else Some((None, user.value.0, user.value.1))
  }

  function ParseClientFirst(payload: Bytes): Option<ClientFirst> {
    match CutByte(payload, COMMA)
    case None => None
    case Some((flag, rest)) =>
      if flag != FLAG_N then None
      else match CutByte(rest, COMMA)
           case None => None
           case Some((authzid, bare)) =>
             match ParseBare(bare)
             case None => None
             case Some((ext, name, tail)) => Some(ClientFirst(authzid, ext, name, tail))
  }

  lemma ParseUserIff(part: Bytes, name: Bytes, tail: Bytes)
    ensures ParseUser(part) == Some((name, tail)) <==> name != [] && part == USER + (Escape(name) + [COMMA] + tail)
  {
    hide Escape, Unescape, CutByte;
    var rest := Escape(name) + [COMMA] + tail;
    UnescapeEscape(name);
    UnescapeIff([], name);
    UnescapeIff([], []);
    EscapeEmpty(name);
    assert (USER + rest)[2..] == rest;
    CutIff(rest, COMMA, Escape(name), tail);
    if ParseUser(part) == Some((name, tail)) {
      var (raw, after) := CutByte(part[2..], COMMA).value;
      CutIff(part[2..], COMMA, raw, after);
      UnescapeIff(raw, name);
      assert part == USER + part[2..];
    }
  }

  lemma EscapeEmpty(name: Bytes)
    ensures Escape(name) == [] <==> name == []
  {}

  lemma ParseBareIff(bare: Bytes, m: ClientFirst)
    requires m.extension.Some? ==> COMMA !in m.extension.value
    ensures ParseBare(bare) == Some((m.extension, m.name, m.tail)) <==> m.name != [] && bare == Bare(m)
  {
    hide Escape, Unescape, CutByte, ParseUser;
    ParseUserIff(UserPart(m), m.name, m.tail);
    ParseUserIff(bare, m.name, m.tail);
    if EXT <= bare && CutByte(bare, COMMA).Some? {
      var (ext, part) := CutByte(bare, COMMA).value;
      CutIff(bare, COMMA, ext, part);
      ParseUserIff(part, m.name, m.tail);
      assert bare[..2] == EXT;
      assert bare[0] != COMMA && bare[1] != COMMA;
      assert |ext| >= 2;
      assert ext[..2] == bare[..2];
      assert ext == EXT + ext[2..];
    }
    if m.extension.Some? {
      var e := EXT + m.extension.value;
      assert e[2..] == m.extension.value;
      assert bare == Bare(m) ==> bare == e + [COMMA] + UserPart(m);
      CutIff(bare, COMMA, e, UserPart(m));
    } else {
      assert bare == Bare(m) ==> bare[0] == USER[0];
    }
  }

  /** The parser accepts exactly the well-formed client-first-messages, and reads
      each as the one message it is. */
  lemma ClientFirstIff(payload: Bytes, m: ClientFirst)
    ensures ParseClientFirst(payload) == Some(m) <==> WellFormed(m) && payload == ClientFirstMessage(m)
  {
    hide Bare, ParseBare, CutByte;
    var rest := m.authzid + [COMMA] + Bare(m);
    CutIff(payload, COMMA, FLAG_N, rest);
    CutIff(rest, COMMA, m.authzid, Bare(m));
    if WellFormed(m) {
      ParseBareIff(Bare(m), m);
    }
    if ParseClientFirst(payload) == Some(m) {
      var (flag, after) := CutByte(payload, COMMA).value;
      CutIff(payload, COMMA, flag, after);
      var (authzid, bare) := CutByte(after, COMMA).value;
      CutIff(after, COMMA, authzid, bare);
      ExtensionHasNoComma(bare, m);
      ParseBareIff(bare, m);
    }
  }

  lemma ExtensionHasNoComma(bare: Bytes, m: ClientFirst)
    requires ParseBare(bare) == Some((m.extension, m.name, m.tail))
    ensures m.extension.Some? ==> COMMA !in m.extension.value
  {
    if m.extension.Some? {
      var (ext, part) := CutByte(bare, COMMA).value;
      CutIff(bare, COMMA, ext, part);
      assert forall b | b in ext[2..] :: b in ext;
    }
  }

  /** The tenant ID a client-first-message names. */
  method ParseSCRAMClientFirstUsername(payload: Bytes) returns (r: Option<Bytes>)
    ensures r == var m := ParseClientFirst(payload); if m == None then None else Some(m.value.name)
  {
    hide CutByte, Unescape;
    var flag := CutByte(payload, COMMA);
    if flag == None || flag.value.0 != FLAG_N {
      return None;
    }
    var authzid := CutByte(flag.value.1, COMMA);
    if authzid == None {
      return None;
    }
    var bare := authzid.value.1;
    if EXT <= bare {
      var ext := CutByte(bare, COMMA);
      if ext == None {
        return None;
      }
      bare := ext.value.1;
    }
    if !(USER <= bare) {
      return None;
    }
    var user := CutByte(bare[2..], COMMA);
    if user == None || user.value.0 == [] {
      return None;
    }
    r := DecodeSASLname(user.value.0);
  }
}
