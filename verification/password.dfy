/** The stored password record of `go/auth/auth.go`: a type tag, a salt and a hash, printed as `type$hex$hex`. */
module Passwords {

  type Byte = b: int | 0 <= b < 256

  const TYPE_ARGON2ID := "argon2id"

  // ---------- hex ----------

  const HEX_DIGITS := "0123456789abcdef"

  function HexDigit(n: int): char
    requires 0 <= n < 16
  {
    HEX_DIGITS[n]
  }

  /** The value of a hex digit of either case, or -1. */
  function HexValue(c: char): int {
    if '0' <= c <= '9' then c as int - '0' as int
    else if 'a' <= c <= 'f' then c as int - 'a' as int + 10
    else if 'A' <= c <= 'F' then c as int - 'A' as int + 10
    else -1
  }

  /** `encode`, that is `hex.EncodeToString`. */
  function Encode(input: seq<Byte>): string {
    if input == [] then "" else [HexDigit(input[0] / 16), HexDigit(input[0] % 16)] + Encode(input[1..])
  }

  datatype Decoded = Decoded(bytes: seq<Byte>, ok: bool)

  /** `decode`, that is `hex.DecodeString`: the bytes before the first fault come with the error. */
  function Decode(input: string): Decoded {
    if input == "" then Decoded([], true)
    else if |input| == 1 || HexValue(input[0]) < 0 || HexValue(input[1]) < 0 then Decoded([], false)
    else
      var rest := Decode(input[2..]);
      Decoded([HexValue(input[0]) * 16 + HexValue(input[1])] + rest.bytes, rest.ok)
  }

  predicate HexString(s: string) {
    |s| % 2 == 0 && forall i | 0 <= i < |s| :: HexValue(s[i]) >= 0
  }

  predicate LowerHexString(s: string) {
    HexString(s) && forall i | 0 <= i < |s| :: !('A' <= s[i] <= 'F')
  }

  lemma HexDigitValue(n: int)
    requires 0 <= n < 16
    ensures HexValue(HexDigit(n)) == n && HexDigit(n) != '$' && !('A' <= HexDigit(n) <= 'F')
  {
  }

  lemma HexValueDigit(c: char)
    requires HexValue(c) >= 0
    ensures HexValue(c) < 16 && (HexDigit(HexValue(c)) == c <==> !('A' <= c <= 'F'))
  {
  }

  lemma EncodeByte(b: Byte, rest: seq<Byte>)
    ensures Encode([b] + rest) == [HexDigit(b / 16), HexDigit(b % 16)] + Encode(rest)
  {
    assert ([b] + rest)[1..] == rest;
  }

  lemma DecodePair(a: char, b: char, rest: string)
    requires HexValue(a) >= 0 && HexValue(b) >= 0
    ensures 0 <= HexValue(a) * 16 + HexValue(b) < 256
    ensures Decode([a, b] + rest) == Decoded([HexValue(a) * 16 + HexValue(b)] + Decode(rest).bytes, Decode(rest).ok)
  {
    assert ([a, b] + rest)[2..] == rest;
  }

  lemma LowerPair(a: char, b: char, rest: string)
    ensures LowerHexString([a, b] + rest) <==>
            HexValue(a) >= 0 && HexValue(b) >= 0 && !('A' <= a <= 'F') && !('A' <= b <= 'F') && LowerHexString(rest)
    ensures HexString([a, b] + rest) <==> HexValue(a) >= 0 && HexValue(b) >= 0 && HexString(rest)
  {
    hide HexValue;
    var s := [a, b] + rest;
    assert forall i | 0 <= i < |rest| :: s[i + 2] == rest[i];
    assert forall i | 2 <= i < |s| :: s[i] == rest[i - 2];
    assert s[0] == a && s[1] == b;
  }

  lemma {:induction false} DecodeEncode(input: seq<Byte>)
    ensures Decode(Encode(input)) == Decoded(input, true)
    ensures LowerHexString(Encode(input)) && '$' !in Encode(input)
  {
    if input != [] {
      var h, l, rest := HexDigit(input[0] / 16), HexDigit(input[0] % 16), Encode(input[1..]);
      HexDigitValue(input[0] / 16);
      HexDigitValue(input[0] % 16);
      DecodeEncode(input[1..]);
      hide HexDigit, HexValue, LowerHexString;
      DecodePair(h, l, rest);
      LowerPair(h, l, rest);
      assert Encode(input) == [h, l] + rest;
      assert input == [input[0]] + input[1..];
    }
  }

  /** Decoding succeeds exactly on hex strings of even length. */
  lemma {:induction false} DecodeOkIff(input: string)
    ensures Decode(input).ok <==> HexString(input)
  {
    if |input| >= 2 {
      DecodeOkIff(input[2..]);
      hide HexValue, HexString;
      LowerPair(input[0], input[1], input[2..]);
      assert input == [input[0], input[1]] + input[2..];
    }
  }

  /** Exactly the lower-case hex strings are reproduced by encoding what was decoded. */
  lemma EncodeDecodeIff(input: string)
    ensures Encode(Decode(input).bytes) == input <==> LowerHexString(input)
  {
    hide Encode, Decode;
    DecodeOkIff(input);
    DecodeEncode(Decode(input).bytes);
    if Decode(input).ok { EncodeDecodedIff(input); }
  }

  /** One byte more: the digits come back exactly when they are lower-case. */
  lemma EncodeDecodedPair(a: char, b: char, rest: string)
    requires HexValue(a) >= 0 && HexValue(b) >= 0
    ensures Encode(Decode([a, b] + rest).bytes) == [a, b] + rest <==>
            !('A' <= a <= 'F') && !('A' <= b <= 'F') && Encode(Decode(rest).bytes) == rest
  {
    hide HexValue, HexDigit, Encode, Decode;
    HexValueDigit(a);
    HexValueDigit(b);
    DecodePair(a, b, rest);
    EncodeByte(HexValue(a) * 16 + HexValue(b), Decode(rest).bytes);
    TwoDigits(HexValue(a), HexValue(b));
    SamePairs(HexDigit(HexValue(a)), HexDigit(HexValue(b)), Encode(Decode(rest).bytes), a, b, rest);
  }

  lemma TwoDigits(h: int, l: int)
    requires 0 <= h < 16 && 0 <= l < 16
    ensures (h * 16 + l) / 16 == h && (h * 16 + l) % 16 == l
  {
  }

  lemma SamePairs(h: char, l: char, again: string, a: char, b: char, rest: string)
    ensures [h, l] + again == [a, b] + rest <==> h == a && l == b && again == rest
  {
    var x, y := [h, l] + again, [a, b] + rest;
    assert x[0] == h && x[1] == l && x[2..] == again;
    assert y[0] == a && y[1] == b && y[2..] == rest;
  }

  lemma {:induction false} EncodeDecodedIff(input: string)
    requires Decode(input).ok
    ensures Encode(Decode(input).bytes) == input <==> LowerHexString(input)
  {
    if |input| >= 2 {
      var a, b, rest := input[0], input[1], input[2..];
      EncodeDecodedIff(rest);
      hide HexValue, HexDigit, LowerHexString, Encode;
      LowerPair(a, b, rest);
      EncodeDecodedPair(a, b, rest);
      assert input == [a, b] + rest;
    }
  }

  predicate IsHexDigit(c: char) {
    '0' <= c <= '9' || 'a' <= c <= 'f' || 'A' <= c <= 'F'
  }

  lemma HexStringIff(s: string)
    ensures HexString(s) <==> |s| % 2 == 0 && forall i | 0 <= i < |s| :: IsHexDigit(s[i])
  {
    assert forall i | 0 <= i < |s| :: HexValue(s[i]) >= 0 <==> IsHexDigit(s[i]);
  }

  /** The same but for upper-case hex letters in the second string. */
  ghost predicate SameButCase(lower: string, mixed: string) {
    |lower| == |mixed| && forall i | 0 <= i < |lower| :: lower[i] == mixed[i] || LetterOf(lower[i], mixed[i])
  }

  predicate LetterOf(lower: char, upper: char) {
    'A' <= upper <= 'F' && lower as int - 'a' as int == upper as int - 'A' as int
  }

  /** Decoding does not look at the case of letters. */
  lemma {:induction false} DecodeIgnoresCase(lower: string, mixed: string)
    requires SameButCase(lower, mixed)
    ensures Decode(lower) == Decode(mixed)
  {
    if |lower| >= 2 {
      assert HexValue(lower[0]) == HexValue(mixed[0]) && HexValue(lower[1]) == HexValue(mixed[1]);
      DecodeIgnoresCase(lower[2..], mixed[2..]);
    }
  }

  // ---------- records ----------

  /** `strings.Split` */
  function Split(s: string, sep: char): (parts: seq<string>)
    ensures parts != []
  {
    if s == "" then [""]
    else
      var rest := Split(s[1..], sep);
      if s[0] == sep then [""] + rest else [[s[0]] + rest[0]] + rest[1..]
  }

  function Joined(parts: seq<string>, sep: char): string
    requires parts != []
  {
    if |parts| == 1 then parts[0] else parts[0] + [sep] + Joined(parts[1..], sep)
  }

  lemma {:induction false} SplitPart(part: string, sep: char, s: string)
    requires sep !in part
    ensures Split(part, sep) == [part]
    ensures Split(part + [sep] + s, sep) == [part] + Split(s, sep)
  {
    if part == "" {
      assert part + [sep] + s == [sep] + s;
      assert ([sep] + s)[1..] == s;
    } else {
      SplitPart(part[1..], sep, s);
      var whole := part + [sep] + s;
      assert whole[1..] == part[1..] + [sep] + s;
      assert part == [part[0]] + part[1..];
      assert [part] + Split(s, sep) == [[part[0]] + part[1..]] + Split(s, sep);
    }
  }

  /** The parts carry no separator, and joining them gives the string back. */
  lemma {:induction false} SplitJoins(s: string, sep: char)
    ensures Joined(Split(s, sep), sep) == s
    ensures forall i | 0 <= i < |Split(s, sep)| :: sep !in Split(s, sep)[i]
  {
    if s != "" {
      SplitJoins(s[1..], sep);
      var rest := Split(s[1..], sep);
      if s[0] == sep {
        assert ([""] + rest)[1..] == rest;
        assert Joined([""] + rest, sep) == [sep] + s[1..];
      } else {
        var parts := [[s[0]] + rest[0]] + rest[1..];
        assert parts[1..] == rest[1..];
        assert Joined(parts, sep) == [s[0]] + Joined(rest, sep);
      }
      assert s == [s[0]] + s[1..];
    }
  }

  datatype Record = Record(passwordType: string, salt: seq<Byte>, password: seq<Byte>, ok: bool)

  /** `DecodePassword`.  The error of the second decoding replaces that of the first. */
  function DecodePassword(input: string): Record {
    var parts := Split(input, '$');
    if |parts| != 3 then Record("", [], [], false)
    else
      var salt := Decode(parts[1]);
      var password := Decode(parts[2]);
      Record(parts[0], salt.bytes, password.bytes, password.ok)
  }

  function Printed(passwordType: string, salt: seq<Byte>, hash: seq<Byte>): string {
    passwordType + "$" + Encode(salt) + "$" + Encode(hash)
  }

  /** `EncodePassword`, given the random salt and the hash function. */
  function EncodePassword(password: string, salt: seq<Byte>, idKey: (string, seq<Byte>) -> seq<Byte>): string {
    Printed(TYPE_ARGON2ID, salt, idKey(password, salt))
  }

  datatype Verdict = Malformed | Checked(matches: bool)

  function CheckPassword(password: string, encodedPassword: string, idKey: (string, seq<Byte>) -> seq<Byte>): Verdict {
    var record := DecodePassword(encodedPassword);
    if !record.ok then Malformed
    else Checked(record.passwordType == TYPE_ARGON2ID && idKey(password, record.salt) == record.password)
  }

  lemma SplitPrinted(passwordType: string, salt: seq<Byte>, hash: seq<Byte>)
    requires '$' !in passwordType
    ensures Split(Printed(passwordType, salt, hash), '$') == [passwordType, Encode(salt), Encode(hash)]
  {
    hide Encode, Decode, LowerHexString;
    DecodeEncode(salt);
    DecodeEncode(hash);
    var tail := Encode(salt) + ['$'] + Encode(hash);
    SplitPart(Encode(hash), '$', "");
    SplitPart(Encode(salt), '$', Encode(hash));
    SplitPart(passwordType, '$', tail);
    assert Printed(passwordType, salt, hash) == passwordType + ['$'] + tail;
    assert [passwordType] + ([Encode(salt)] + [Encode(hash)]) == [passwordType, Encode(salt), Encode(hash)];
  }

  /** Every printed record decodes to its type, salt and hash. */
  lemma DecodePrinted(passwordType: string, salt: seq<Byte>, hash: seq<Byte>)
    requires '$' !in passwordType
    ensures DecodePassword(Printed(passwordType, salt, hash)) == Record(passwordType, salt, hash, true)
  {
    hide Encode, Decode, LowerHexString, Printed, Split;
    SplitPrinted(passwordType, salt, hash);
    DecodeEncode(salt);
    DecodeEncode(hash);
  }

  /** A password is accepted exactly when it hashes, under the stored salt, to the hash of the encoded one. */
  lemma CheckEncoded(password: string, attempt: string, salt: seq<Byte>, idKey: (string, seq<Byte>) -> seq<Byte>)
    ensures CheckPassword(attempt, EncodePassword(password, salt, idKey), idKey)
         == Checked(idKey(attempt, salt) == idKey(password, salt))
  {
    hide DecodePassword, Printed;
    assert '$' !in TYPE_ARGON2ID;
    DecodePrinted(TYPE_ARGON2ID, salt, idKey(password, salt));
  }

  /** Conversely, a record that decodes is reproduced by printing what was decoded if and only if its salt and its
      hash are lower-case hex. */
  lemma PrintDecodedIff(input: string)
    requires DecodePassword(input).ok
    ensures |Split(input, '$')| == 3
    ensures var r, parts := DecodePassword(input), Split(input, '$');
            Printed(r.passwordType, r.salt, r.password) == input <==>
            LowerHexString(parts[1]) && LowerHexString(parts[2])
  {
    hide Encode, Decode, LowerHexString, Split;
    var r, parts := DecodePassword(input), Split(input, '$');
    SplitJoins(input, '$');
    assert parts == [parts[0], parts[1], parts[2]];
    assert Joined(parts[2..], '$') == parts[2] && parts[1..][1..] == parts[2..];
    assert input == parts[0] + "$" + parts[1] + "$" + parts[2];
    SplitPrinted(r.passwordType, r.salt, r.password);
    EncodeDecodeIff(parts[1]);
    EncodeDecodeIff(parts[2]);
  }

  /** What the error reports: three parts, the last of them hex.  A malformed salt goes unnoticed. */
  lemma DecodeOkOnLastPart(input: string)
    ensures DecodePassword(input).ok <==> |Split(input, '$')| == 3 && HexString(Split(input, '$')[2])
  {
    hide HexString, Split;
    if |Split(input, '$')| == 3 { DecodeOkIff(Split(input, '$')[2]); }
  }

  /** A password is accepted against any record exactly if that has three parts, the first says argon2id, the last is hex,
      and the password hashes to it under what the middle decodes to.  A record of another type rejects every password,
      and only one without three parts or without hex in the last is an error. */
  lemma CheckPasswordIff(password: string, record: string, idKey: (string, seq<Byte>) -> seq<Byte>)
    ensures var parts, verdict := Split(record, '$'), CheckPassword(password, record, idKey);
            && (verdict == Malformed <==> !(|parts| == 3 && HexString(parts[2])))
            && (verdict == Checked(true) <==>
                  && |parts| == 3 && HexString(parts[2]) && parts[0] == "argon2id"
                  && idKey(password, Decode(parts[1]).bytes) == Decode(parts[2]).bytes)
  {
    hide HexString, Split, Decode;
    DecodeOkOnLastPart(record);
  }

  /** A record as it is stored, read and written. */
  lemma StoredRecord()
    ensures Printed("argon2id", [31], [160, 255]) == "argon2id$1f$a0ff"
    ensures DecodePassword("argon2id$1f$a0ff") == Record("argon2id", [31], [160, 255], true)
  {
    assert Encode([31]) == "1f" && Encode([160, 255]) == "a0ff" by {
      EncodeByte(31, []);
      EncodeByte(160, [255]);
      EncodeByte(255, []);
      assert [31] + [] == [31] && [160] + [255] == [160, 255] && [255] + [] == [255];
    }
    DecodePrinted("argon2id", [31], [160, 255]);
  }
}
