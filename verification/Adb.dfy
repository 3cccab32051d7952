/** ADB public keys: parsing a key file and printing the authorized line. */
module Adb {
  import opened Wrappers
  import opened Text
  import opened Base64

  const MAX_KEY_LINE_BYTES := 4096
  const KEY_BYTES := 524
  const PRIVATE_MARK := "PRIVATE KEY"

  // SHA-256 is a parameter: nothing below depends on its internals.
  type Digest = seq<Byte> -> seq<Byte>

  datatype AdbPublicKey = AdbPublicKey(encoded: string, comment: Option<string>, fingerprint: string)

  datatype AdbKeyError = Empty | PrivateKey | TooLarge | MultipleLines | InvalidBase64 | InvalidSize(bytes: nat)

  // Index of the first whitespace character, or the length: where splitn(2, is_whitespace) cuts.
  function FirstBreak(s: string): (k: nat)
    ensures k <= |s| && forall i :: 0 <= i < k ==> !IsWhitespace(s[i])
    ensures k < |s| ==> IsWhitespace(s[k])
  {
    if s == [] || IsWhitespace(s[0]) then 0 else 1 + FirstBreak(s[1..])
  }

  lemma {:induction false} FirstBreakAt(s: string, k: nat)
    requires k <= |s| && (forall i :: 0 <= i < k ==> !IsWhitespace(s[i])) && (k < |s| ==> IsWhitespace(s[k]))
    ensures FirstBreak(s) == k
  {
    if k > 0 {
      FirstBreakAt(s[1..], k - 1);
    }
  }

  function CommentOf(rest: string): Option<string> {
    var comment := Trim(rest);
    if comment == "" then None else Some(comment)
  }

  function Fingerprint(sha: Digest, decoded: seq<Byte>): string {
    "SHA256:" + Encode(sha(decoded))
  }

  // The tests before anything is decoded.
  function Screen(input: string): Option<AdbKeyError> {
    if input == "" then Some(Empty)
    else if ByteLen(input) > MAX_KEY_LINE_BYTES then Some(TooLarge)
    else if '\n' in input || '\r' in input then Some(MultipleLines)
    else if Contains(input, PRIVATE_MARK) then Some(PrivateKey)
    else None
  }

  function ParseFields(sha: Digest, input: string): Result<AdbPublicKey, AdbKeyError> {
    var k := FirstBreak(input);
    FieldsOf(sha, input, k, Decode(input[..k]))
  }

  function FieldsOf(sha: Digest, input: string, k: nat, decoded: Option<seq<Byte>>): Result<AdbPublicKey, AdbKeyError>
    requires k <= |input|
  {
    match decoded
    case None => Err(InvalidBase64)
    case Some(bytes) =>
      if |bytes| != KEY_BYTES then Err(InvalidSize(|bytes|))
      else
        var comment := if k == |input| then None else CommentOf(input[k + 1..]);
        Ok(AdbPublicKey(input[..k], comment, Fingerprint(sha, bytes)))
  }

  function Parse(sha: Digest, contents: string): Result<AdbPublicKey, AdbKeyError> {
    var input := Trim(contents);
    match Screen(input)
    case Some(error) => Err(error)
    case None => ParseFields(sha, input)
  }

  function AuthorizedLine(key: AdbPublicKey): string {
    match key.comment
    case Some(comment) => key.encoded + " " + comment
    case None => key.encoded
  }

  /* ---- what is accepted, and why not ---- */

  // A nonempty single line of at most 4096 bytes that does not look like a private key.
  predicate Acceptable(input: string) {
    && input != "" && ByteLen(input) <= 4096 && '\n' !in input && '\r' !in input
    && !Contains(input, "PRIVATE KEY")
  }

  lemma ScreenIff(input: string)
    ensures Screen(input) == None <==> Acceptable(input)
    ensures Screen(input) == Some(Empty) <==> input == ""
    ensures Screen(input) == Some(TooLarge) <==> input != "" && ByteLen(input) > 4096
    ensures Screen(input) == Some(MultipleLines) <==>
            input != "" && ByteLen(input) <= 4096 && ('\n' in input || '\r' in input)
    ensures Screen(input) == Some(PrivateKey) <==>
            && input != "" && ByteLen(input) <= 4096 && '\n' !in input && '\r' !in input
            && Contains(input, "PRIVATE KEY")
  {
  }

  // The text before the first whitespace character, or all of it.
  predicate FirstField(input: string, field: string) {
    && field <= input && (forall c :: c in field ==> !IsWhitespace(c))
    && (|field| < |input| ==> IsWhitespace(input[|field|]))
  }

  // What follows that character, trimmed; nothing if only whitespace is left.
  predicate CommentIs(input: string, k: nat, comment: Option<string>) {
    if k >= |input| || Trim(input[k + 1..]) == "" then comment == None else comment == Some(Trim(input[k + 1..]))
  }

  lemma FieldsIff(sha: Digest, input: string, field: string)
    requires FirstField(input, field)
    ensures var (r, decoded) := (ParseFields(sha, input), Decode(field));
            && (r == Err(InvalidBase64) <==> decoded.None?)
            && (forall n :: r == Err(InvalidSize(n)) <==> decoded.Some? && |decoded.value| == n != 524)
            && (r.Ok? <==> decoded.Some? && |decoded.value| == 524)
            && (r.Err? ==> r.error.InvalidBase64? || r.error.InvalidSize?)
            && (r.Ok? ==>
                  && r.value.encoded == field && CommentIs(input, |field|, r.value.comment)
                  && r.value.fingerprint == "SHA256:" + Encode(sha(decoded.value)))
  {
    assert forall i :: 0 <= i < |field| ==> input[i] == field[i] && field[i] in field;
    FirstBreakAt(input, |field|);
    assert input[..|field|] == field;
    FieldsOfIff(sha, input, |field|, Decode(field));
  }

  lemma FieldsOfIff(sha: Digest, input: string, k: nat, decoded: Option<seq<Byte>>)
    requires k <= |input|
    ensures var r := FieldsOf(sha, input, k, decoded);
            && (r == Err(InvalidBase64) <==> decoded.None?)
            && (forall n :: r == Err(InvalidSize(n)) <==> decoded.Some? && |decoded.value| == n != 524)
            && (r.Ok? <==> decoded.Some? && |decoded.value| == 524)
            && (r.Err? ==> r.error.InvalidBase64? || r.error.InvalidSize?)
            && (r.Ok? ==>
                  && r.value.encoded == input[..k] && CommentIs(input, k, r.value.comment)
                  && r.value.fingerprint == "SHA256:" + Encode(sha(decoded.value)))
  {
  }

  // Every result of parsing: exactly the acceptable lines whose first field is the canonical base64 text of
  // 524 bytes are keys, with the parts they are made of, and each error has its own inputs.
  lemma ParseIff(sha: Digest, contents: string, field: string)
    requires FirstField(Trim(contents), field)
    ensures var (r, input, decoded) := (Parse(sha, contents), Trim(contents), Decode(field));
            && (r.Ok? <==> Acceptable(input) && decoded.Some? && |decoded.value| == 524)
            && (r.Ok? ==>
                  && r.value.encoded == field && CommentIs(input, |field|, r.value.comment)
                  && r.value.fingerprint == "SHA256:" + Encode(sha(decoded.value)))
            && (r == Err(Empty) <==> input == "")
            && (r == Err(TooLarge) <==> input != "" && ByteLen(input) > 4096)
            && (r == Err(MultipleLines) <==>
                  input != "" && ByteLen(input) <= 4096 && ('\n' in input || '\r' in input))
            && (r == Err(PrivateKey) <==>
                  && input != "" && ByteLen(input) <= 4096 && '\n' !in input && '\r' !in input
                  && Contains(input, "PRIVATE KEY"))
            && (r == Err(InvalidBase64) <==> Acceptable(input) && decoded.None?)
            && (forall n :: r == Err(InvalidSize(n)) <==>
                  Acceptable(input) && decoded.Some? && |decoded.value| == n != 524)
  {
    ScreenIff(Trim(contents));
    FieldsIff(sha, Trim(contents), field);
    ParseIs(sha, contents);
  }

  lemma ParseIs(sha: Digest, contents: string)
    ensures Parse(sha, contents)
            == if Screen(Trim(contents)).Some? then Err(Screen(Trim(contents)).value)
               else ParseFields(sha, Trim(contents))
  {
  }

  // There is always exactly one such field.
  lemma FirstFieldIs(input: string, field: string)
    ensures FirstField(input, field) <==> field == input[..FirstBreak(input)]
  {
    var k := FirstBreak(input);
    if FirstField(input, field) {
      assert forall i :: 0 <= i < |field| ==> input[i] == field[i] && field[i] in field;
      FirstBreakAt(input, |field|);
    }
    assert forall i :: 0 <= i < k ==> !IsWhitespace(input[i]);
  }

  /* ---- the round trip ---- */

  // 524 is not a multiple of three, so the text of a key is 700 characters ending in '='.
  predicate KeyShaped(text: string) {
    && |text| == 700 && text[699] == '='
    && forall i :: 0 <= i < 700 ==> InAlphabet(text[i]) || text[i] == '='
  }

  lemma KeyText(encoded: string)
    requires Decode(encoded).Some? && |Decode(encoded).value| == KEY_BYTES
    ensures KeyShaped(encoded)
  {
    EncodeDecoded(encoded);
    KeyEncoding(Decode(encoded).value);
  }

  lemma KeyEncoding(bytes: seq<Byte>)
    requires |bytes| == KEY_BYTES
    ensures KeyShaped(Encode(bytes))
  {
    EncodedShape(bytes);
  }

  lemma KeyCharacters(text: string)
    requires KeyShaped(text)
    ensures forall i :: 0 <= i < 700 ==> !IsWhitespace(text[i])
    ensures '\n' !in text && '\r' !in text
  {
  }

  lemma SliceOfSlice(a: string, i: nat, m: nat, j: nat, n: nat)
    requires i + m <= |a| && j + n <= m
    ensures a[i..i + m][j..j + n] == a[i + j..i + j + n]
  {
    var part, whole := a[i..i + m][j..j + n], a[i + j..i + j + n];
    assert |part| == |whole| && forall k :: 0 <= k < n ==> part[k] == whole[k];
  }

  lemma ContainsTransitive(a: string, b: string, c: string)
    requires Contains(a, b) && Contains(b, c)
    ensures Contains(a, c)
  {
    var i :| 0 <= i <= |a| - |b| && OccursAt(a, b, i);
    var j :| 0 <= j <= |b| - |c| && OccursAt(b, c, j);
    SliceOfSlice(a, i, |b|, j, |c|);
    assert OccursAt(a, c, i + j);
  }

  lemma PartOf(a: string, b: string)
    requires Contains(a, b)
    ensures ByteLen(b) <= ByteLen(a)
    ensures forall c :: c in b ==> c in a
  {
    var i :| 0 <= i <= |a| - |b| && OccursAt(a, b, i);
    assert a == a[..i] + (b + a[i + |b|..]);
    ByteLenConcat(a[..i], b + a[i + |b|..]);
    ByteLenConcat(b, a[i + |b|..]);
    assert forall k :: 0 <= k < |b| ==> a[i + k] == b[k];
  }

  // The printed space cannot complete the forbidden mark, because the character before it is '='.
  lemma JoinHidesNoMark(encoded: string, comment: string)
    requires KeyShaped(encoded) && !Contains(comment, PRIVATE_MARK)
    ensures !Contains(encoded + " " + comment, PRIVATE_MARK)
  {
    var line := encoded + " " + comment;
    forall i | 0 <= i <= |line| - |PRIVATE_MARK|
      ensures !OccursAt(line, PRIVATE_MARK, i)
    {
      var part := line[i..i + |PRIVATE_MARK|];
      assert PRIVATE_MARK[0] == 'P' && PRIVATE_MARK[6] == 'E' && PRIVATE_MARK[7] == ' ';
      assert line[..700] == encoded && line[700] == ' ';
      if i + 7 < 700 {
        KeyCharacters(encoded);
        assert part[7] == encoded[i + 7];
      } else if i + 7 == 700 {
        assert part[6] == encoded[699];
      } else if i <= 700 {
        assert part[700 - i] == ' ';
        assert forall k :: 0 <= k < 7 ==> PRIVATE_MARK[k] != ' ';
      } else {
        SliceOfSlice(line, 701, |comment|, i - 701, |PRIVATE_MARK|);
        assert line[701..701 + |comment|] == comment;
        assert !OccursAt(comment, PRIVATE_MARK, i - 701);
      }
    }
  }

  // What a parsed key looks like, in terms of the trimmed input it came from.
  lemma ParsedParts(sha: Digest, contents: string)
    requires Parse(sha, contents).Ok?
    ensures var key, input := Parse(sha, contents).value, Trim(contents);
            && Screen(input) == None && ParseFields(sha, input) == Ok(key)
            && Decode(key.encoded).Some? && |Decode(key.encoded).value| == KEY_BYTES
            && key.fingerprint == Fingerprint(sha, Decode(key.encoded).value)
            && key.encoded <= input
            && (key.comment.Some? ==>
                  |key.encoded| < |input| && CommentOf(input[|key.encoded| + 1..]) == key.comment)
  {
    ParseMeansBoth(sha, contents);
    FieldsOfInput(sha, Trim(contents));
  }

  lemma FieldsOfInput(sha: Digest, input: string)
    requires ParseFields(sha, input).Ok?
    ensures var key := ParseFields(sha, input).value;
            && Decode(key.encoded).Some? && |Decode(key.encoded).value| == KEY_BYTES
            && key.fingerprint == Fingerprint(sha, Decode(key.encoded).value)
            && key.encoded <= input
            && (key.comment.Some? ==>
                  |key.encoded| < |input| && CommentOf(input[|key.encoded| + 1..]) == key.comment)
  {
    FieldsParts(sha, input, FirstBreak(input), Decode(input[..FirstBreak(input)]));
  }

  lemma ParseMeansBoth(sha: Digest, contents: string)
    requires Parse(sha, contents).Ok?
    ensures Screen(Trim(contents)) == None && ParseFields(sha, Trim(contents)) == Parse(sha, contents)
  {
  }

  lemma FieldsParts(sha: Digest, input: string, k: nat, decoded: Option<seq<Byte>>)
    requires k <= |input| && FieldsOf(sha, input, k, decoded).Ok?
    ensures var key := FieldsOf(sha, input, k, decoded).value;
            && decoded.Some? && |decoded.value| == KEY_BYTES && key.encoded == input[..k]
            && key.fingerprint == Fingerprint(sha, decoded.value)
            && (key.comment.Some? ==> k < |input| && CommentOf(input[k + 1..]) == key.comment)
  {
  }

  predicate Trimmed(s: string) {
    s != "" && !IsWhitespace(s[0]) && !IsWhitespace(s[|s| - 1])
  }

  // The comment is a nonempty trimmed part of what follows the key.
  lemma CommentParts(rest: string, comment: string)
    requires CommentOf(rest) == Some(comment)
    ensures Trimmed(comment) && Contains(rest, comment)
  {
    TrimContained(rest);
  }

  lemma TrimmedIsFixed(s: string)
    requires Trimmed(s)
    ensures Trim(s) == s
  {
    TrimFixpoint(s);
  }

  lemma PartOfTail(input: string, k: nat, comment: string)
    requires k < |input| && Contains(input[k + 1..], comment)
    ensures Contains(input, comment)
  {
    var rest := input[k + 1..];
    assert OccursAt(input, rest, k + 1);
    ContainsTransitive(input, rest, comment);
  }

  // Printing never lengthens the line: one space replaces at least one whitespace character.
  lemma LineLength(input: string, k: nat, comment: string)
    requires k < |input| && Contains(input[k + 1..], comment)
    ensures ByteLen(input[..k] + " " + comment) <= ByteLen(input)
  {
    var before, gap, rest := input[..k], [input[k]], input[k + 1..];
    PartOf(rest, comment);
    assert input == before + gap + rest;
    ByteLenConcat(before + gap, rest);
    ByteLenConcat(before, gap);
    ByteLenConcat(before + " ", comment);
    ByteLenConcat(before, " ");
    AsciiByteLen(" ");
  }

  // The printed line passes every test its input passed.
  lemma CommentedLinePasses(input: string, encoded: string, comment: string)
    requires Screen(input) == None && KeyShaped(encoded) && encoded <= input && |encoded| < |input|
    requires Trimmed(comment) && Contains(input[|encoded| + 1..], comment)
    ensures Screen(encoded + " " + comment) == None && Trimmed(encoded + " " + comment)
  {
    var line := encoded + " " + comment;
    assert encoded == input[..|encoded|];
    LineLength(input, |encoded|, comment);
    PartOfTail(input, |encoded|, comment);
    PartOf(input, comment);
    KeyCharacters(encoded);
    if Contains(comment, PRIVATE_MARK) {
      ContainsTransitive(input, comment, PRIVATE_MARK);
    }
    JoinHidesNoMark(encoded, comment);
    assert line[0] == encoded[0] && line[|line| - 1] == comment[|comment| - 1];
    assert '\n' !in line && '\r' !in line;
  }

  lemma BareLinePasses(input: string, encoded: string)
    requires Screen(input) == None && KeyShaped(encoded) && encoded <= input
    ensures Screen(encoded) == None && Trimmed(encoded)
  {
    KeyCharacters(encoded);
    assert OccursAt(input, encoded, 0);
    PartOf(input, encoded);
    if Contains(encoded, PRIVATE_MARK) {
      ContainsTransitive(input, encoded, PRIVATE_MARK);
    }
  }

  lemma LinePasses(sha: Digest, contents: string)
    ensures Parse(sha, contents).Ok? ==>
              var line := AuthorizedLine(Parse(sha, contents).value);
              Acceptable(line) && Screen(line) == None && Trimmed(line)
  {
    if Parse(sha, contents).Ok? {
      var key, input := Parse(sha, contents).value, Trim(contents);
      ParsedParts(sha, contents);
      KeyText(key.encoded);
      match key.comment {
        case Some(comment) =>
          CommentParts(input[|key.encoded| + 1..], comment);
          CommentedLinePasses(input, key.encoded, comment);
        case None =>
          BareLinePasses(input, key.encoded);
      }
      ScreenIff(AuthorizedLine(key));
    }
  }

  // Cutting the printed line at its first whitespace gives back the two fields.
  lemma LineFields(sha: Digest, key: AdbPublicKey)
    requires KeyShaped(key.encoded)
    requires key.comment.Some? ==> Trimmed(key.comment.value)
    requires Decode(key.encoded).Some? && |Decode(key.encoded).value| == KEY_BYTES
    requires key.fingerprint == Fingerprint(sha, Decode(key.encoded).value)
    ensures ParseFields(sha, AuthorizedLine(key)) == Ok(key)
  {
    var line := AuthorizedLine(key);
    KeyCharacters(key.encoded);
    assert line[..700] == key.encoded;
    assert forall i :: 0 <= i < 700 ==> line[i] == key.encoded[i];
    FirstBreakAt(line, 700);
    if key.comment.Some? {
      assert line[701..] == key.comment.value;
      TrimmedIsFixed(key.comment.value);
    }
  }

  // Every key that parses prints as a line that parses to the same key, comment and fingerprint.
  lemma RoundTrip(sha: Digest, contents: string)
    ensures Parse(sha, contents).Ok? ==>
              Parse(sha, AuthorizedLine(Parse(sha, contents).value)) == Parse(sha, contents)
  {
    if Parse(sha, contents).Ok? {
      var key, input := Parse(sha, contents).value, Trim(contents);
      ParsedParts(sha, contents);
      KeyText(key.encoded);
      if key.comment.Some? {
        CommentParts(input[|key.encoded| + 1..], key.comment.value);
      }
      LinePasses(sha, contents);
      TrimmedIsFixed(AuthorizedLine(key));
      LineFields(sha, key);
    }
  }

  // The digest tells two byte strings apart.
  predicate Separates(sha: Digest, x: seq<Byte>, y: seq<Byte>) { sha(x) == sha(y) ==> x == y }

  // Key material has one text, so two parsed keys differ at most in their comments when their
  // fingerprints agree, as far as the digest tells their own bytes apart.
  lemma SameMaterialSameText(sha: Digest, a: string, b: string)
    ensures Parse(sha, a).Ok? && Parse(sha, b).Ok? ==>
              var (k, l) := (Parse(sha, a).value, Parse(sha, b).value);
              && Decode(k.encoded).Some? && Decode(l.encoded).Some?
              && (k.encoded == l.encoded ==> k.fingerprint == l.fingerprint)
              && (k.fingerprint == l.fingerprint && Separates(sha, Decode(k.encoded).value, Decode(l.encoded).value) ==>
                    k.encoded == l.encoded)
  {
    if Parse(sha, a).Ok? && Parse(sha, b).Ok? {
      ParsedParts(sha, a);
      ParsedParts(sha, b);
      SameFingerprint(sha, Parse(sha, a).value.encoded, Parse(sha, b).value.encoded);
    }
  }

  lemma SameFingerprint(sha: Digest, k: string, l: string)
    requires Decode(k).Some? && Decode(l).Some?
    ensures k == l ==> Fingerprint(sha, Decode(k).value) == Fingerprint(sha, Decode(l).value)
    ensures Separates(sha, Decode(k).value, Decode(l).value) ==>
              (Fingerprint(sha, Decode(k).value) == Fingerprint(sha, Decode(l).value) ==> k == l)
  {
    EncodeDecoded(k);
    EncodeDecoded(l);
    var x, y := sha(Decode(k).value), sha(Decode(l).value);
    assert Fingerprint(sha, Decode(k).value)[7..] == Encode(x) && Fingerprint(sha, Decode(l).value)[7..] == Encode(y);
    DecodeEncoded(x);
    DecodeEncoded(y);
  }
}
