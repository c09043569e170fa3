/** Invite strings (client/aimless/protocol.py): aimless1:<client key>:<node key>:<screen name>. */
module Invites {
  import opened Bytes
  import Base58

  const PREFIX: string := "aimless1:"
  const KEY_SIZE: nat := 32

  datatype Invite = Invite(client: string, node: string, screen: string)

  // ------------------------------------------------------------ Python's strings

  /** str.isspace for one character, as str.strip uses it. */
  predicate IsSpace(c: char) {
    var n := c as int;
    || 0x09 <= n <= 0x0D || 0x1C <= n <= 0x20 || n == 0x85 || n == 0xA0 || n == 0x1680
    || 0x2000 <= n <= 0x200A || n == 0x2028 || n == 0x2029 || n == 0x202F || n == 0x205F || n == 0x3000
  }

  /** The 29 white space characters of Unicode that str.isspace knows. */
  lemma SpacesAre(c: char)
    ensures IsSpace(c) <==>
            c as int in {9, 10, 11, 12, 13, 28, 29, 30, 31, 32, 133, 160, 5760, 8192, 8193, 8194, 8195, 8196, 8197,
                         8198, 8199, 8200, 8201, 8202, 8232, 8233, 8239, 8287, 12288}
  {
  }

  function StripLeft(s: string): string {
    if s != [] && IsSpace(s[0]) then StripLeft(s[1..]) else s
  }

  /** What is stripped is white space, up to the first other character. */
  lemma {:induction false} StripLeftIs(s: string) returns (n: nat)
    ensures n <= |s| && StripLeft(s) == s[n..]
    ensures forall i :: 0 <= i < n ==> IsSpace(s[i])
    ensures n < |s| ==> !IsSpace(s[n])
  {
    if s != [] && IsSpace(s[0]) {
      n := StripLeftIs(s[1..]);
      n := n + 1;
      assert s[1..][n - 1..] == s[n..];
      assert forall i :: 1 <= i < n ==> s[i] == s[1..][i - 1];
    } else {
      n := 0;
    }
  }

  function StripRight(s: string): (r: string)
    ensures r <= s
    ensures r == s <==> s == [] || !IsSpace(s[|s| - 1])
    ensures forall i :: |r| <= i < |s| ==> IsSpace(s[i])
  {
    if s != [] && IsSpace(s[|s| - 1]) then StripRight(s[..|s| - 1]) else s
  }

  /** str.split on one character. */
  function Split(s: string, c: char): (r: seq<string>)
    ensures |r| >= 1
    ensures c !in s ==> r == [s]
    ensures |r| == 1 ==> c !in s
  {
    if s == [] then [[]]
    else
      var rest := Split(s[1..], c);
      assert s == [s[0]] + s[1..];
      if s[0] == c then [[]] + rest else [[s[0]] + rest[0]] + rest[1..]
  }

  lemma {:induction false} StripRightKeepsHead(head: string, s: string)
    requires head != [] && !IsSpace(head[|head| - 1])
    ensures StripRight(head + s) == head + StripRight(s)
  {
    var all := head + s;
    if s == [] {
      assert all == head;
    } else if IsSpace(s[|s| - 1]) {
      assert all[..|all| - 1] == head + s[..|s| - 1];
      StripRightKeepsHead(head, s[..|s| - 1]);
    }
  }

  lemma {:induction false} SplitField(field: string, c: char, rest: string)
    requires c !in field
    ensures Split(field + [c] + rest, c) == [field] + Split(rest, c)
  {
    var all := field + [c] + rest;
    if field == [] {
      assert all[1..] == rest;
    } else {
      assert all[1..] == field[1..] + [c] + rest;
      SplitField(field[1..], c, rest);
      assert all[0] == field[0] && field == [field[0]] + field[1..];
      assert Split(all[1..], c) == [field[1..]] + Split(rest, c);
      assert Split(all[1..], c)[1..] == Split(rest, c);
    }
  }

  // ------------------------------------------------------------------ key fields

  function HexValue(c: char): (r: Option<nat>)
    ensures r.Some? ==> r.value < 16
  {
    var n := c as int;
    if 48 <= n <= 57 then Some(n - 48)
    else if 97 <= n <= 102 then Some(n - 87)
    else if 65 <= n <= 70 then Some(n - 55)
    else None
  }

  predicate AllHex(s: string) {
    forall i :: 0 <= i < |s| ==> HexValue(s[i]).Some?
  }

  /** Both cases are read, and only the sixteen digits. */
  lemma HexValueIs(c: char)
    ensures HexValue(c).Some? <==> '0' <= c <= '9' || 'a' <= c <= 'f' || 'A' <= c <= 'F'
    ensures '0' <= c <= '9' ==> HexValue(c).value == c as int - '0' as int
    ensures 'a' <= c <= 'f' ==> HexValue(c).value == c as int - 'a' as int + 10
    ensures 'A' <= c <= 'F' ==> HexValue(c).value == c as int - 'A' as int + 10
  {
  }

  function FromHex(s: string): (r: bytes)
    requires |s| % 2 == 0 && AllHex(s)
    ensures |r| == |s| / 2
  {
    if s == [] then []
    else [16 * HexValue(s[0]).value + HexValue(s[1]).value] + FromHex(s[2..])
  }

  lemma HexDigit(n: nat)
    requires n < 16
    ensures HexValue(HEX[n]) == Some(n)
  {
  }

  lemma {:induction false} FromHexOfHex(k: bytes)
    ensures AllHex(Hex(k)) && FromHex(Hex(k)) == k
  {
    if k != [] {
      FromHexOfHex(k[1..]);
      HexDigit(k[0] / 16);
      HexDigit(k[0] % 16);
      var h, t := Hex(k), Hex(k[1..]);
      assert h == [HEX[k[0] / 16], HEX[k[0] % 16]] + t && h[2..] == t;
      forall i | 0 <= i < |h| ensures i >= 2 ==> h[i] == t[i - 2] {}
      assert k == [k[0]] + k[1..];
    }
  }

  ghost function DecodeKeyField(field: string): Result<bytes> {
    if |field| == 64 && AllHex(field) then Ok(FromHex(field))
    else match Base58.Decode(field)
      case Err => Err
      case Ok(key) => if |key| != KEY_SIZE then Err else Ok(key)
  }

  lemma {:induction false} ShortWithin(n: nat, k: nat)
    requires n < Pow(58, k)
    ensures |Base58.Shortest(n, 58)| <= k
  {
    hide Base58.Remainder;
    if n > 0 {
      assert Base58.Quotient(n, 58) < Pow(58, k - 1);
      hide Base58.Quotient;
      ShortWithin(Base58.Quotient(n, 58), k - 1);
    }
  }

  lemma {:induction false} ValueWithin(d: bytes)
    ensures Base58.Value(d, 256) < Pow(256, |d|)
  {
    if d != [] {
      ValueWithin(d[..|d| - 1]);
    }
  }

  /** Three base58 digits hold two bytes. */
  lemma {:induction false} TwoBytesInThree(m: nat)
    ensures Pow(256, m) <= Pow(58, (3 * m + 1) / 2)
  {
    if m >= 2 {
      TwoBytesInThree(m - 2);
      var k := (3 * (m - 2) + 1) / 2;
      assert (3 * m + 1) / 2 == k + 3;
      assert Pow(58, k + 3) == 58 * 58 * 58 * Pow(58, k) by {
        assert Pow(58, k + 2) == 58 * Pow(58, k + 1);
      }
      assert Pow(256, m) == 256 * 256 * Pow(256, m - 2);
    } else if m == 1 {
      assert Pow(58, 2) == 58 * Pow(58, 1);
    }
  }

  lemma PowGrows(b: nat, j: nat, k: nat)
    requires b >= 1 && j <= k
    ensures Pow(b, j) <= Pow(b, k)
    decreases k
  {
    if j < k { PowGrows(b, j, k - 1); }
  }

  /** The base58 text of a 32-byte key is too short to be taken for 64 hex digits. */
  lemma KeyTextIsShort(key: bytes)
    requires |key| == KEY_SIZE
    ensures |Base58.Encode(key)| <= 48
  {
    hide Base58.Shortest, Base58.Symbols;
    var z := Base58.LeadingZeros(key);
    var body := key[z..];
    assert key == Base58.Zeros(z) + body;
    Base58.ValueIgnoresZeros(z, body, 256);
    ValueWithin(body);
    TwoBytesInThree(|body|);
    ShortWithin(Base58.Value(body, 256), (3 * |body| + 1) / 2);
  }

  /** Both spellings of a key decode to it. */
  lemma KeyFieldRoundTrip(key: bytes)
    requires |key| == KEY_SIZE
    ensures DecodeKeyField(Base58.Encode(key)) == Ok(key)
    ensures DecodeKeyField(Hex(key)) == Ok(key)
  {
    KeyTextIsShort(key);
    Base58.DecodeEncode(key);
    FromHexOfHex(key);
  }

  // --------------------------------------------------------------------- invites

  function MakeInvite(client: bytes, node: bytes, screen: string): string {
    PREFIX + Base58.Encode(client) + ":" + Base58.Encode(node) + ":" + screen
  }

  ghost function ParseInvite(text: string): Result<Invite> {
    var s := StripRight(StripLeft(text));
    if !(PREFIX <= s) then Err
    else
      var parts := Split(s[|PREFIX|..], ':');
      if |parts| != 3 then Err
      else match (DecodeKeyField(parts[0]), DecodeKeyField(parts[1]))
        case (Ok(client), Ok(node)) =>
          if parts[2] == "" then Err else Ok(Invite(Hex(client), Hex(node), parts[2]))
        case _ => Err
  }

  lemma {:induction false} FieldsAreClean(s: string, c: char)
    ensures forall i :: 0 <= i < |Split(s, c)| ==> c !in Split(s, c)[i]
  {
    if s != [] {
      FieldsAreClean(s[1..], c);
      var rest := Split(s[1..], c);
      assert c !in rest[0];
    }
  }

  /** The fields with the separator between them. */
  function JoinFields(parts: seq<string>, c: char): string {
    if parts == [] then "" else if |parts| == 1 then parts[0] else parts[0] + [c] + JoinFields(parts[1..], c)
  }

  lemma EmptyFirst(parts: seq<string>, c: char)
    requires parts != []
    ensures JoinFields([[]] + parts, c) == [c] + JoinFields(parts, c)
  {
    assert ([[]] + parts)[1..] == parts;
  }

  lemma LongerFirst(x: char, parts: seq<string>, c: char)
    requires parts != []
    ensures JoinFields([[x] + parts[0]] + parts[1..], c) == [x] + JoinFields(parts, c)
  {
    var longer := [[x] + parts[0]] + parts[1..];
    assert longer[1..] == parts[1..];
  }

  lemma {:induction false} SplitJoins(s: string, c: char)
    ensures JoinFields(Split(s, c), c) == s
  {
    if s != [] {
      SplitJoins(s[1..], c);
      var rest := Split(s[1..], c);
      assert Split(s, c) == if s[0] == c then [[]] + rest else [[s[0]] + rest[0]] + rest[1..];
      hide Split;
      assert s == [s[0]] + s[1..];
      if s[0] == c {
        EmptyFirst(rest, c);
      } else {
        LongerFirst(s[0], rest, c);
      }
    }
  }

  /** Three fields make up the text they were split from, and have no separator in them. */
  lemma Joined(s: string, c: char)
    requires |Split(s, c)| == 3
    ensures var parts := Split(s, c);
            s == parts[0] + [c] + parts[1] + [c] + parts[2] && c !in parts[0] && c !in parts[1] && c !in parts[2]
  {
    var parts := Split(s, c);
    FieldsAreClean(s, c);
    SplitJoins(s, c);
    hide Split;
    assert JoinFields(parts[1..], c) == parts[1] + [c] + JoinFields(parts[2..], c) by { assert parts[1..][1..] == parts[2..]; }
    assert JoinFields(parts[2..], c) == parts[2];
  }

  /** Which texts are keys, and of what. */
  lemma KeyFieldIs(field: string, key: bytes)
    ensures DecodeKeyField(field) == Ok(key) <==>
            if |field| == 64 && AllHex(field) then FromHex(field) == key
            else |key| == 32 && Base58.Encode(key) == field
  {
    Base58.EncodeDecode(field);
    Base58.DecodeEncode(key);
  }

  /** `text` is the prefix and three fields: the texts of two keys, and a name. */
  ghost predicate Reads(text: string, c: string, n: string, client: bytes, node: bytes, invite: Invite) {
    && text == "aimless1:" + c + ":" + n + ":" + invite.screen
    && ':' !in c && ':' !in n && ':' !in invite.screen && invite.screen != ""
    && DecodeKeyField(c) == Ok(client) && DecodeKeyField(n) == Ok(node)
    && invite.client == Hex(client) && invite.node == Hex(node)
  }

  lemma ParsedReads(text: string, invite: Invite) returns (c: string, n: string, client: bytes, node: bytes)
    requires ParseInvite(text) == Ok(invite)
    ensures Reads(StripRight(StripLeft(text)), c, n, client, node, invite)
  {
    hide StripLeft, StripRight, DecodeKeyField, Hex, Split;
    var s := StripRight(StripLeft(text));
    var rest := s[|PREFIX|..];
    var parts := Split(rest, ':');
    Joined(rest, ':');
    c, n := parts[0], parts[1];
    client, node := DecodeKeyField(c).value, DecodeKeyField(n).value;
    assert s == PREFIX + rest && rest == c + [':'] + n + [':'] + parts[2];
    assert s == "aimless1:" + c + ":" + n + ":" + parts[2];
  }

  lemma ReadParses(text: string, c: string, n: string, client: bytes, node: bytes, invite: Invite)
    requires Reads(StripRight(StripLeft(text)), c, n, client, node, invite)
    ensures ParseInvite(text) == Ok(invite)
  {
    hide StripLeft, StripRight, DecodeKeyField, Hex, Split;
    InviteSplits(c, n, invite.screen);
    SplitNone(invite.screen, ':');
    assert [c, n] + [invite.screen] == [c, n, invite.screen];
  }

  /** The parser accepts exactly three colon-separated fields behind the prefix, the first
      two of them keys and the third not empty, with white space around them all ignored. */
  lemma ParsesExactly(text: string, invite: Invite)
    ensures ParseInvite(text) == Ok(invite) <==>
            exists c, n, client, node :: Reads(StripRight(StripLeft(text)), c, n, client, node, invite)
  {
    hide ParseInvite, Reads;
    if ParseInvite(text) == Ok(invite) {
      var c, n, client, node := ParsedReads(text, invite);
    }
    if c, n, client, node :| Reads(StripRight(StripLeft(text)), c, n, client, node, invite) {
      ReadParses(text, c, n, client, node, invite);
    }
  }

  lemma SplitNone(s: string, c: char)
    requires c !in s
    ensures Split(s, c) == [s]
  {
  }

  /** White space around an invite does not matter. */
  lemma SurroundingSpaceIsIgnored(before: string, text: string, after: string)
    requires text != "" && !IsSpace(text[0]) && !IsSpace(text[|text| - 1])
    requires (forall i :: 0 <= i < |before| ==> IsSpace(before[i])) && (forall i :: 0 <= i < |after| ==> IsSpace(after[i]))
    ensures ParseInvite(before + text + after) == ParseInvite(text)
  {
    var all := before + text + after;
    var n := StripLeftIs(all);
    assert all[|before|] == text[0];
    assert n == |before|;
    assert StripLeft(all) == text + after;
    var m := StripLeftIs(text);
    assert m == 0 && StripLeft(text) == text;
    StripsRight(text, after);
  }

  lemma {:induction false} StripsRight(text: string, after: string)
    requires text != "" && !IsSpace(text[|text| - 1]) && forall i :: 0 <= i < |after| ==> IsSpace(after[i])
    ensures StripRight(text + after) == text == StripRight(text)
  {
    var all := text + after;
    if after == [] {
      assert all == text;
    } else {
      assert all[..|all| - 1] == text + after[..|after| - 1];
      StripsRight(text, after[..|after| - 1]);
    }
  }

  lemma NoColon(key: bytes)
    ensures ':' !in Base58.Encode(key)
  {
    Base58.DecodeEncode(key);
    var t := Base58.Encode(key);
    forall i | 0 <= i < |t| ensures t[i] != ':' {
      assert Base58.IndexOf(t[i]).Some?;
    }
  }

  lemma InviteStrips(c: string, n: string, screen: string)
    ensures var head := PREFIX + c + ":" + n + ":";
            StripRight(StripLeft(head + screen)) == head + StripRight(screen)
  {
    var head := PREFIX + c + ":" + n + ":";
    assert (head + screen)[0] == 'a' && head[|head| - 1] == ':';
    StripRightKeepsHead(head, screen);
  }

  lemma InviteSplits(c: string, n: string, name: string)
    requires ':' !in c && ':' !in n
    ensures var s := PREFIX + c + ":" + n + ":" + name;
            PREFIX <= s && Split(s[|PREFIX|..], ':') == [c, n] + Split(name, ':')
  {
    var s := PREFIX + c + ":" + n + ":" + name;
    var tail := n + [':'] + name;
    assert s == PREFIX + (c + [':'] + tail);
    assert s[|PREFIX|..] == c + [':'] + tail;
    SplitField(c, ':', tail);
    SplitField(n, ':', name);
    assert [c] + ([n] + Split(name, ':')) == [c, n] + Split(name, ':');
  }

  /** What the parser makes of an invite, for every screen name. */
  lemma ParsesTo(client: bytes, node: bytes, screen: string)
    requires |client| == KEY_SIZE && |node| == KEY_SIZE
    ensures var name := StripRight(screen);
            ParseInvite(MakeInvite(client, node, screen)) ==
              if name == "" || ':' in name then Err else Ok(Invite(Hex(client), Hex(node), name))
  {
    hide Base58.Encode, DecodeKeyField, StripLeft, StripRight, Hex, Split;
    var name := StripRight(screen);
    var c, n := Base58.Encode(client), Base58.Encode(node);
    NoColon(client);
    NoColon(node);
    InviteStrips(c, n, screen);
    InviteSplits(c, n, name);
    KeyFieldRoundTrip(client);
    KeyFieldRoundTrip(node);
  }

  /** An invite gives back both keys and the screen name exactly when the name is
      non-empty, has no colon and does not end in white space. */
  lemma InviteRoundTrip(client: bytes, node: bytes, screen: string)
    requires |client| == KEY_SIZE && |node| == KEY_SIZE
    ensures ParseInvite(MakeInvite(client, node, screen)) == Ok(Invite(Hex(client), Hex(node), screen)) <==>
            screen != "" && ':' !in screen && !IsSpace(screen[|screen| - 1])
  {
    hide ParseInvite, MakeInvite;
    ParsesTo(client, node, screen);
    var name := StripRight(screen);
    assert ':' in screen ==> ':' in name;
  }
}
