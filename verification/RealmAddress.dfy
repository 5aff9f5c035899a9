/** Refs, pubkey realms, and the deterministic addresses of shared realms
    (object/ref.go, object/types.go, realm/realmid.go). SHA-1 is a parameter. */
module RealmAddress {
  import opened Decimal

  type Byte = b: int | 0 <= b < 256

  // ---- Shapes ----

  predicate IsBase64URLChar(c: char) {
    'A' <= c <= 'Z' || 'a' <= c <= 'z' || '0' <= c <= '9' || c == '-' || c == '_'
  }

  predicate IsBase64URLChars(s: string) {
    forall i | 0 <= i < |s| :: IsBase64URLChar(s[i])
  }

  predicate IsHex(c: char) {
    '0' <= c <= '9' || 'a' <= c <= 'f' || 'A' <= c <= 'F'
  }

  predicate IsHyphenAt(i: int) {
    i == 8 || i == 13 || i == 18 || i == 23
  }

  predicate IsCanonicalUUID(s: string) {
    |s| == 36 && forall i | 0 <= i < 36 :: if IsHyphenAt(i) then s[i] == '-' else IsHex(s[i])
  }

  predicate IsValidRef(s: string) {
    && 80 <= |s| <= 81
    && s[|s| - 37] == '.'
    && IsBase64URLChars(s[..|s| - 37])
    && IsCanonicalUUID(s[|s| - 36..])
  }

  /** The six bits of one base64url character. */
  function Sextet(c: char): int
    requires IsBase64URLChar(c)
  {
    if 'A' <= c <= 'Z' then c as int - 'A' as int
    else if 'a' <= c <= 'z' then c as int - 'a' as int + 26
    else if '0' <= c <= '9' then c as int - '0' as int + 52
    else if c == '-' then 62 else 63
  }

  /** 44 base64url characters decode to 33 bytes; the first, from the first two characters, is 2 or 3. */
  predicate IsPubkeyRealm(s: string) {
    |s| == 44 && IsBase64URLChars(s) && var first := Sextet(s[0]) * 4 + Sextet(s[1]) / 16; first == 2 || first == 3
  }

  /** The texts of the keys of compressed points: 44 characters, the first A, the second one of g to
      z, a digit, a hyphen or an underscore. */
  lemma PubkeysExactly(s: string)
    ensures IsPubkeyRealm(s) <==>
            && |s| == 44 && IsBase64URLChars(s) && s[0] == 'A'
            && ('g' <= s[1] <= 'z' || '0' <= s[1] <= '9' || s[1] == '-' || s[1] == '_')
  {
    if |s| == 44 && IsBase64URLChars(s) {
      assert IsBase64URLChar(s[0]) && IsBase64URLChar(s[1]);
    }
  }

  /** A ref is 43 or 44 characters of a key, a dot and an id. */
  lemma RefsExactly(s: string)
    ensures IsValidRef(s) <==>
            exists pk, id :: s == pk + "." + id && 43 <= |pk| <= 44 && IsBase64URLChars(pk) && IsCanonicalUUID(id)
  {
    if IsValidRef(s) {
      assert s == s[..|s| - 37] + "." + s[|s| - 36..];
    }
    if pk, id :| s == pk + "." + id && 43 <= |pk| <= 44 && IsBase64URLChars(pk) && IsCanonicalUUID(id) {
      assert s[..|s| - 37] == pk && s[|s| - 36..] == id;
    }
  }

  // ---- UUID text ----

  function Nibble(c: char): int
    requires IsHex(c)
    ensures 0 <= Nibble(c) < 16
  {
    if '0' <= c <= '9' then c as int - '0' as int
    else if 'a' <= c <= 'f' then c as int - 'a' as int + 10
    else c as int - 'A' as int + 10
  }

  const LOWER_HEX := "0123456789abcdef"
  const UPPER_HEX := "0123456789ABCDEF"

  /** The hexadecimal digits of either case, by value. */
  lemma HexExactly(c: char)
    ensures IsHex(c) <==> c in LOWER_HEX || c in UPPER_HEX
    ensures IsHex(c) ==> LOWER_HEX[Nibble(c)] == c || UPPER_HEX[Nibble(c)] == c
  {
    if IsHex(c) {
      var n := Nibble(c);
      assert LOWER_HEX[n] == c || UPPER_HEX[n] == c;
    }
    forall i | 0 <= i < 16 ensures IsHex(LOWER_HEX[i]) && IsHex(UPPER_HEX[i]) {
    }
  }

  function HexDigit(n: int): char
    requires 0 <= n < 16
  {
    if n < 10 then '0' + n as char else 'a' + (n - 10) as char
  }

  function LowerHex(c: char): char {
    if 'A' <= c <= 'F' then 'a' + (c - 'A') else c
  }

  function Lower(s: string): string {
    seq(|s|, i requires 0 <= i < |s| => LowerHex(s[i]))
  }

  /** Where the text of byte k starts: four hyphens interrupt the bytes. */
  function Column(k: int): int {
    2 * k + (if k < 4 then 0 else if k < 6 then 1 else if k < 8 then 2 else if k < 10 then 3 else 4)
  }

  /** mustParseUUID, None where it panics. */
  function ParseUUID(s: string): (r: Option<seq<Byte>>)
    ensures r.Some? ==> |r.value| == 16
  {
    if IsCanonicalUUID(s)
    then Some(seq(16, k requires 0 <= k < 16 => (Nibble(s[Column(k)]) * 16 + Nibble(s[Column(k) + 1])) as Byte))
    else None
  }

  function Hi(b: Byte): char {
    HexDigit(b / 16)
  }

  function Lo(b: Byte): char {
    HexDigit(b % 16)
  }

  /** Every non-hyphen position belongs to exactly one byte. */
  function ByteAt(i: int): int {
    if i < 8 then i / 2 else if i < 13 then (i - 1) / 2 else if i < 18 then (i - 2) / 2
        else if i < 23 then (i - 3) / 2 else (i - 4) / 2
  }

  lemma ColumnsCover(i: int)
    requires 0 <= i < 36 && !IsHyphenAt(i)
    ensures 0 <= ByteAt(i) < 16 && (i == Column(ByteAt(i)) || i == Column(ByteAt(i)) + 1)
  {
  }

  /** The 8-4-4-4-12 layout of two lower-case digits a byte. */
  function FormatUUID(b: seq<Byte>): string
    requires |b| == 16
  {
    seq(36, i requires 0 <= i < 36 =>
      if IsHyphenAt(i) then '-' else if i == Column(ByteAt(i)) then Hi(b[ByteAt(i)]) else Lo(b[ByteAt(i)]))
  }

  /** s spells the bytes b, two digits each, in the four-hyphen layout. */
  predicate Spells(s: string, b: seq<Byte>) {
    && |s| == 36 && |b| == 16
    && (forall k | 0 <= k < 16 :: s[Column(k)] == Hi(b[k]) && s[Column(k) + 1] == Lo(b[k]))
    && s[8] == '-' && s[13] == '-' && s[18] == '-' && s[23] == '-'
  }

  lemma ColumnsMeetBytes(k: int)
    requires 0 <= k < 16
    ensures 0 <= Column(k) < 35 && ByteAt(Column(k)) == k && ByteAt(Column(k) + 1) == k
    ensures !IsHyphenAt(Column(k)) && !IsHyphenAt(Column(k) + 1)
  {
  }

  lemma FormatSpells(b: seq<Byte>)
    requires |b| == 16
    ensures Spells(FormatUUID(b), b)
  {
    var s := FormatUUID(b);
    forall k | 0 <= k < 16 ensures s[Column(k)] == Hi(b[k]) && s[Column(k) + 1] == Lo(b[k]) {
      ColumnsMeetBytes(k);
    }
  }

  lemma HexDigitIsHex(n: int)
    requires 0 <= n < 16
    ensures IsHex(HexDigit(n)) && Nibble(HexDigit(n)) == n
  {
  }

  lemma SpelledParses(s: string, b: seq<Byte>)
    requires Spells(s, b)
    ensures IsCanonicalUUID(s) && ParseUUID(s) == Some(b)
  {
    forall i | 0 <= i < 36 && !IsHyphenAt(i) ensures IsHex(s[i]) {
      ColumnsCover(i);
      HexDigitIsHex(b[ByteAt(i)] / 16);
      HexDigitIsHex(b[ByteAt(i)] % 16);
    }
    assert IsCanonicalUUID(s);
    forall k | 0 <= k < 16 ensures ParseUUID(s).value[k] == b[k] {
      HexDigitIsHex(b[k] / 16);
      HexDigitIsHex(b[k] % 16);
    }
    assert ParseUUID(s).value == b;
  }

  /** Parsing what was formatted gives back the 16 bytes. */
  lemma ParseFormat(b: seq<Byte>)
    requires |b| == 16
    ensures IsCanonicalUUID(FormatUUID(b)) && ParseUUID(FormatUUID(b)) == Some(b)
  {
    FormatSpells(b);
    SpelledParses(FormatUUID(b), b);
  }

  lemma SpelledIsLower(s: string, b: seq<Byte>, t: string)
    requires ParseUUID(s) == Some(b) && Spells(t, b)
    ensures t == Lower(s)
  {
    forall i | 0 <= i < 36 ensures t[i] == LowerHex(s[i]) {
      if !IsHyphenAt(i) {
        ColumnsCover(i);
        NibbleRoundTrip(s, b, ByteAt(i));
      }
    }
  }

  /** Formatting what was parsed gives the lower-case form; and exactly the canonical UUIDs parse. */
  lemma FormatParse(s: string)
    ensures ParseUUID(s).Some? <==> IsCanonicalUUID(s)
    ensures ParseUUID(s).Some? ==> FormatUUID(ParseUUID(s).value) == Lower(s)
  {
    if IsCanonicalUUID(s) {
      var b := ParseUUID(s).value;
      FormatSpells(b);
      SpelledIsLower(s, b, FormatUUID(b));
    }
  }

  lemma NibbleRoundTrip(s: string, b: seq<Byte>, k: int)
    requires IsCanonicalUUID(s) && ParseUUID(s) == Some(b) && 0 <= k < 16
    ensures HexDigit(b[k] / 16) == LowerHex(s[Column(k)]) && HexDigit(b[k] % 16) == LowerHex(s[Column(k) + 1])
  {
    assert IsHex(s[Column(k)]) && IsHex(s[Column(k) + 1]);
    assert b[k] == Nibble(s[Column(k)]) * 16 + Nibble(s[Column(k) + 1]);
    assert b[k] / 16 == Nibble(s[Column(k)]) && b[k] % 16 == Nibble(s[Column(k) + 1]);
  }

  /** hex.Decode's loop over a byte array, after the shape checks of mustParseUUID. */
  method MustParseUUID(s: string) returns (ok: bool, b: array<Byte>)
    ensures fresh(b) && b.Length == 16
    ensures ok == ParseUUID(s).Some?
    ensures ok ==> b[..] == ParseUUID(s).value
  {
    b := new Byte[16](_ => 0);
    if |s| != 36 || s[8] != '-' || s[13] != '-' || s[18] != '-' || s[23] != '-' { return false, b; }
    var hex := s[..8] + s[9..13] + s[14..18] + s[19..23] + s[24..];
    assert forall k | 0 <= k < 16 :: hex[2 * k] == s[Column(k)] && hex[2 * k + 1] == s[Column(k) + 1];
    for k := 0 to 16
      invariant forall j | 0 <= j < k :: IsHex(s[Column(j)]) && IsHex(s[Column(j) + 1])
      invariant forall j | 0 <= j < k :: b[j] == Nibble(s[Column(j)]) * 16 + Nibble(s[Column(j) + 1])
    {
      if !IsHex(hex[2 * k]) || !IsHex(hex[2 * k + 1]) {
        assert !IsHex(s[Column(k)]) || !IsHex(s[Column(k) + 1]);
        return false, b;
      }
      b[k] := Nibble(hex[2 * k]) * 16 + Nibble(hex[2 * k + 1]);
    }
    forall i | 0 <= i < 36 && !IsHyphenAt(i) ensures IsHex(s[i]) {
      ColumnsCover(i);
    }
    assert b[..] == ParseUUID(s).value;
    ok := true;
  }

  // ---- Realm addresses ----

  /** A SHA-1 sum: twenty bytes, of which the first sixteen are used. */
  type Sum = s: seq<Byte> | |s| == 20 witness seq(20, _ => 0)
  type Sha1 = string -> Sum

  /** The version and variant bits of section 4.3 of RFC 4122: (x & 0x0f) | 0x50 and (x & 0x3f) | 0x80. */
  function Stamp(sum: Sum): (id: seq<Byte>)
    ensures |id| == 16
  {
    sum[..16][6 := sum[6] % 16 + 0x50][8 := sum[8] % 64 + 0x80]
  }

  function RealmID(sha1: Sha1, realm: string): string
  {
    FormatUUID(Stamp(sha1(realm)))
  }

  /** RealmID's byte array: copied from the sum, then two bytes overwritten. */
  method StampInPlace(sum: Sum) returns (id: array<Byte>)
    ensures fresh(id) && id[..] == Stamp(sum)
  {
    id := new Byte[16](_ => 0);
    for i := 0 to 16
      invariant id[..i] == sum[..i]
    {
      id[i] := sum[i];
    }
    assert id[..] == sum[..16];
    id[6] := id[6] % 16 + 0x50;
    id[8] := id[8] % 64 + 0x80;
  }

  /** splitRealmOwner: the part before the first dot, when it is a pubkey realm and a name follows. */
  function SplitRealmOwner(realm: string): Option<string> {
    var dot := FirstDot(realm);
    if dot == |realm| || dot == |realm| - 1 || !IsPubkeyRealm(realm[..dot]) then None else Some(realm[..dot])
  }

  function FirstDot(s: string): (i: nat)
    ensures i <= |s| && (forall j | 0 <= j < i :: s[j] != '.') && (i < |s| ==> s[i] == '.')
  {
    if s == "" || s[0] == '.' then 0 else 1 + FirstDot(s[1..])
  }

  /** refPubkey: the part before the first dot, empty when there is no dot. */
  function RefPubkey(ref: string): string {
    if FirstDot(ref) == |ref| then "" else ref[..FirstDot(ref)]
  }

  function RealmRef(sha1: Sha1, realm: string): Option<string>
  {
    var owner := SplitRealmOwner(realm);
    if owner.None? then None else Some(owner.value + "." + RealmID(sha1, realm))
  }

  lemma SpelledVersion(s: string, b: seq<Byte>)
    requires Spells(s, b) && b[6] / 16 == 5 && 8 <= b[8] / 16 <= 11
    ensures s[14] == '5' && (s[19] == '8' || s[19] == '9' || s[19] == 'a' || s[19] == 'b')
  {
    assert Column(6) == 14 && Column(8) == 19;
  }

  /** Whatever the digest, the identifier is a version-5 UUID of the RFC 4122 variant. */
  lemma RealmIDIsVersion5(sha1: Sha1, realm: string)
    ensures var id := RealmID(sha1, realm);
            && IsCanonicalUUID(id) && Lower(id) == id
            && id[14] == '5' && (id[19] == '8' || id[19] == '9' || id[19] == 'a' || id[19] == 'b')
  {
    var b := Stamp(sha1(realm));
    ParseFormat(b);
    FormatParse(FormatUUID(b));
    FormatSpells(b);
    SpelledVersion(FormatUUID(b), b);
  }

  /** The first sixteen bytes of the digests agree but for the six bits that version and variant take. */
  predicate SameBits(a: Sum, b: Sum) {
    && (forall i | 0 <= i < 16 && i != 6 && i != 8 :: a[i] == b[i])
    && a[6] % 16 == b[6] % 16 && a[8] % 64 == b[8] % 64
  }

  lemma StampKeeps(sum: Sum)
    ensures var id := Stamp(sum);
            && (forall i | 0 <= i < 16 && i != 6 && i != 8 :: id[i] == sum[i])
            && id[6] == sum[6] % 16 + 0x50 && id[8] == sum[8] % 64 + 0x80
  {
  }

  lemma StampsAgree(a: Sum, b: Sum)
    ensures Stamp(a) == Stamp(b) <==> SameBits(a, b)
  {
    StampKeeps(a);
    StampKeeps(b);
    if SameBits(a, b) {
      forall i | 0 <= i < 16 ensures Stamp(a)[i] == Stamp(b)[i] {
        assert i != 6 && i != 8 ==> Stamp(a)[i] == a[i];
      }
    }
  }

  /** The identifier carries the digest: two realms share one exactly when 122 bits of it agree. */
  lemma RealmIDCarriesTheDigest(sha1: Sha1, r1: string, r2: string)
    ensures RealmID(sha1, r1) == RealmID(sha1, r2) <==> SameBits(sha1(r1), sha1(r2))
  {
    ParseFormat(Stamp(sha1(r1)));
    ParseFormat(Stamp(sha1(r2)));
    StampsAgree(sha1(r1), sha1(r2));
  }

  /** The owner is a key that is followed by a dot and a name. */
  lemma OwnerExactly(realm: string, owner: string)
    ensures SplitRealmOwner(realm) == Some(owner) <==>
            IsPubkeyRealm(owner) && exists name :: name != "" && realm == owner + "." + name
  {
    var dot := FirstDot(realm);
    if SplitRealmOwner(realm) == Some(owner) {
      assert realm == owner + "." + realm[dot + 1..];
    }
    if name :| IsPubkeyRealm(owner) && name != "" && realm == owner + "." + name {
      FirstDotAfter(owner, name);
    }
  }

  lemma FirstDotAfter(pk: string, rest: string)
    requires IsBase64URLChars(pk)
    ensures var s := pk + "." + rest; FirstDot(s) == |pk| && s[..|pk|] == pk
  {
    var s := pk + "." + rest;
    assert s[|pk|] == '.' && s[..|pk|] == pk;
    assert forall j | 0 <= j < |pk| :: IsBase64URLChar(pk[j]) && s[j] == pk[j];
  }

  lemma JoinedRef(owner: string, id: string)
    requires IsPubkeyRealm(owner) && IsCanonicalUUID(id)
    ensures IsValidRef(owner + "." + id) && RefPubkey(owner + "." + id) == owner
  {
    var ref := owner + "." + id;
    assert ref[..44] == owner && ref[44] == '.' && ref[45..] == id;
    assert forall j | 0 <= j < 44 :: IsBase64URLChar(owner[j]) && ref[j] == owner[j] && owner[j] != '.';
    assert FirstDot(ref) == 44;
  }

  /** Every realm address is a valid ref, and its owner is read back at the first dot of either. */
  lemma RealmRefIsValid(sha1: Sha1, realm: string)
    requires RealmRef(sha1, realm).Some?
    ensures var ref := RealmRef(sha1, realm).value;
            IsValidRef(ref) && RefPubkey(ref) == RefPubkey(realm) && IsPubkeyRealm(RefPubkey(ref))
  {
    RealmIDIsVersion5(sha1, realm);
    JoinedRef(SplitRealmOwner(realm).value, RealmID(sha1, realm));
  }
}
