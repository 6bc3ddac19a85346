/** Encrypted fields and keyed digests (packages/privacy/crypto.ts). Texts are their UTF-8 bytes. */
module Fields {
  import opened Base
  import opened Cipher

  datatype KeyRing = KeyRing(active: string, keys: map<string, string>)

  predicate IdChar(c: char) {
    'a' <= c <= 'z' || 'A' <= c <= 'Z' || '0' <= c <= '9' || c == '_' || c == '-'
  }

  predicate ValidId(id: string) {
    1 <= |id| <= 24 && forall i :: 0 <= i < |id| ==> IdChar(id[i])
  }

  // Base64 with the URL alphabet and no padding (section 5 of RFC 4648).

  function Letter(n: nat): char
    requires n < 64
  {
    if n < 26 then 'A' + n as char
    else if n < 52 then 'a' + (n - 26) as char
    else if n < 62 then '0' + (n - 52) as char
    else if n == 62 then '-'
    else '_'
  }

  /** Either alphabet is understood when decoding; any other character has no value. */
  function Value(c: char): Option<nat> {
    if 'A' <= c <= 'Z' then Some((c - 'A') as nat)
    else if 'a' <= c <= 'z' then Some((c - 'a') as nat + 26)
    else if '0' <= c <= '9' then Some((c - '0') as nat + 52)
    else if c == '-' || c == '+' then Some(62)
    else if c == '_' || c == '/' then Some(63)
    else None
  }

  function Sextets(b: Bytes): (r: seq<nat>)
    ensures forall i :: 0 <= i < |r| ==> r[i] < 64
    decreases |b|
  {
    if |b| == 0 then []
    else if |b| == 1 then [b[0] / 4, b[0] % 4 * 16]
    else if |b| == 2 then [b[0] / 4, b[0] % 4 * 16 + b[1] / 16, b[1] % 16 * 4]
    else [b[0] / 4, b[0] % 4 * 16 + b[1] / 16, b[1] % 16 * 4 + b[2] / 64, b[2] % 64] + Sextets(b[3..])
  }

  /** A single left-over character carries less than a byte and is dropped. */
  function Octets(s: seq<nat>): Bytes
    requires forall i :: 0 <= i < |s| ==> s[i] < 64
    decreases |s|
  {
    if |s| < 2 then []
    else if |s| == 2 then [s[0] * 4 + s[1] / 16]
    else if |s| == 3 then [s[0] * 4 + s[1] / 16, s[1] % 16 * 16 + s[2] / 4]
    else [s[0] * 4 + s[1] / 16, s[1] % 16 * 16 + s[2] / 4, s[2] % 4 * 64 + s[3]] + Octets(s[4..])
  }

  function Letters(s: seq<nat>): (r: string)
    requires forall i :: 0 <= i < |s| ==> s[i] < 64
    ensures |r| == |s|
  {
    seq(|s|, i requires 0 <= i < |s| => Letter(s[i]))
  }

  function Values(text: string): (r: seq<nat>)
    ensures forall i :: 0 <= i < |r| ==> r[i] < 64
  {
    if |text| == 0 then []
    else (if Value(text[0]).Some? then [Value(text[0]).value] else []) + Values(text[1..])
  }

  function Encode(b: Bytes): string {
    Letters(Sextets(b))
  }

  function Decode(text: string): Bytes {
    Octets(Values(text))
  }

  lemma {:induction false} SextetsRoundTrip(b: Bytes)
    ensures Octets(Sextets(b)) == b
    decreases |b|
  {
    if |b| > 2 {
      SextetsRoundTrip(b[3..]);
      var s := Sextets(b);
      assert s[4..] == Sextets(b[3..]);
      assert b == [b[0], b[1], b[2]] + b[3..];
    }
  }

  lemma LetterRoundTrip(n: nat)
    requires n < 64
    ensures Value(Letter(n)) == Some(n) && IdChar(Letter(n))
  {
  }

  lemma {:induction false} ValuesRoundTrip(s: seq<nat>)
    requires forall i :: 0 <= i < |s| ==> s[i] < 64
    ensures Values(Letters(s)) == s
  {
    if |s| > 0 {
      LetterRoundTrip(s[0]);
      ValuesRoundTrip(s[1..]);
      assert Letters(s)[1..] == Letters(s[1..]);
    }
  }

  lemma EncodeRoundTrip(b: Bytes)
    ensures Decode(Encode(b)) == b
    ensures forall i :: 0 <= i < |Encode(b)| ==> IdChar(Encode(b)[i])
    ensures |b| > 0 ==> |Encode(b)| > 0
  {
    SextetsRoundTrip(b);
    ValuesRoundTrip(Sextets(b));
    forall i | 0 <= i < |Encode(b)|
      ensures IdChar(Encode(b)[i])
    {
      LetterRoundTrip(Sextets(b)[i]);
    }
  }

  /** Each value has one letter for writing and, the last two, a second one that is read as well. */
  lemma LettersExactly(c: char, n: nat)
    requires n < 64
    ensures Value(c) == Some(n) <==> c == Letter(n) || (n == 62 && c == '+') || (n == 63 && c == '/')
    ensures Letter(62) == '-' && Letter(63) == '_'
  {
  }

  // Splitting at dots.

  function FirstDot(text: string): (k: nat)
    ensures k <= |text|
    ensures k < |text| ==> text[k] == '.'
    ensures forall i :: 0 <= i < k ==> text[i] != '.'
  {
    if |text| == 0 || text[0] == '.' then 0 else 1 + FirstDot(text[1..])
  }

  function SplitDots(text: string): (parts: seq<string>)
    ensures |parts| > 0
    decreases |text|
  {
    var k := FirstDot(text);
    if k == |text| then [text] else [text[..k]] + SplitDots(text[k + 1..])
  }

  function JoinDots(parts: seq<string>): string
    requires |parts| > 0
  {
    if |parts| == 1 then parts[0] else parts[0] + "." + JoinDots(parts[1..])
  }

  predicate DotFree(text: string) {
    forall i :: 0 <= i < |text| ==> text[i] != '.'
  }

  lemma {:induction false} SplitInvertsJoin(parts: seq<string>)
    requires |parts| > 0 && forall i :: 0 <= i < |parts| ==> DotFree(parts[i])
    ensures SplitDots(JoinDots(parts)) == parts
  {
    var text := JoinDots(parts);
    var n := |parts[0]|;
    var k := FirstDot(text);
    if |parts| > 1 {
      assert text[n] == '.' && forall i :: 0 <= i < n ==> text[i] == parts[0][i];
      assert k == n;
      SplitInvertsJoin(parts[1..]);
      assert text[..k] == parts[0] && text[k + 1..] == JoinDots(parts[1..]);
    }
  }

  lemma {:induction false} JoinFirst(text: string, k: nat, rest: seq<string>)
    requires k < |text| && text[k] == '.' && |rest| > 0 && JoinDots(rest) == text[k + 1..]
    ensures JoinDots([text[..k]] + rest) == text
  {
    assert ([text[..k]] + rest)[1..] == rest;
  }

  /** And joining what a split gives restores the text: the four parts of a field determine it. */
  lemma {:induction false} JoinInvertsSplit(text: string)
    ensures JoinDots(SplitDots(text)) == text
    decreases |text|
  {
    var k := FirstDot(text);
    if k < |text| {
      JoinInvertsSplit(text[k + 1..]);
      JoinFirst(text, k, SplitDots(text[k + 1..]));
    }
  }

  // Key rings.

  predicate HasKey(ring: KeyRing, version: string) {
    version in ring.keys && ring.keys[version] != ""
  }

  /** `None` is the thrown 'Invalid privacy key ring'. */
  function CheckKeyRing(ring: KeyRing): Option<KeyRing> {
    if && ValidId(ring.active) && HasKey(ring, ring.active)
       && forall id :: id in ring.keys ==> ValidId(id) && |Decode(ring.keys[id])| == 32
    then Some(ring) else None
  }

  // Fields.

  function Field(version: string, nonce: Bytes, sealed: Sealed): string {
    JoinDots([version, Encode(nonce), Encode(sealed.tag), Encode(sealed.text)])
  }

  /** `nonce` is the 12 random bytes drawn for this field. */
  function EncryptWith(a: Aead, ring: KeyRing, nonce: Bytes, value: Bytes, context: Bytes): string
    requires ring.active in ring.keys
  {
    Field(ring.active, nonce, a.seal(Decode(ring.keys[ring.active]), nonce, context, value))
  }

  function DecryptWith(a: Aead, ring: KeyRing, field: string, context: Bytes): Option<Bytes> {
    var parts := SplitDots(field);
    if |parts| != 4 || !HasKey(ring, parts[0]) || parts[1] == "" || parts[2] == "" then None
    else a.open(Decode(ring.keys[parts[0]]), Decode(parts[1]), context, Sealed(Decode(parts[3]), Decode(parts[2])))
  }

  /** Any text, the empty one included, comes back under every later ring that kept the version. */
  lemma FieldRoundTrip(a: Aead, ring: KeyRing, later: KeyRing, nonce: Bytes, value: Bytes, context: Bytes)
    requires AeadOk(a) && CheckKeyRing(ring).Some? && |nonce| > 0
    requires ring.active in later.keys && later.keys[ring.active] == ring.keys[ring.active]
    ensures DecryptWith(a, later, EncryptWith(a, ring, nonce, value, context), context) == Some(value)
  {
    var sealed := a.seal(Decode(ring.keys[ring.active]), nonce, context, value);
    var parts := [ring.active, Encode(nonce), Encode(sealed.tag), Encode(sealed.text)];
    EncodeRoundTrip(nonce);
    EncodeRoundTrip(sealed.tag);
    EncodeRoundTrip(sealed.text);
    SplitInvertsJoin(parts);
  }

  /** What a key ring has to be: an active version that is there, names of 1 to 24 letters, keys of 32 bytes. */
  lemma KeyRingExactly(ring: KeyRing)
    ensures CheckKeyRing(ring) ==
      if && ring.active in ring.keys
         && forall id :: id in ring.keys ==>
              && 1 <= |id| && |id| <= 24 && (forall i :: 0 <= i < |id| ==> IdChar(id[i]))
              && |Decode(ring.keys[id])| == 32
      then Some(ring) else None
  {
  }

  /** Four parts are a field: opened under the key of its version if nonce and tag are there, and refused if not. */
  lemma FieldOpensExactly(a: Aead, ring: KeyRing, version: string, nonce: string, tag: string, text: string,
                          context: Bytes)
    requires DotFree(version) && DotFree(nonce) && DotFree(tag) && DotFree(text)
    ensures DecryptWith(a, ring, JoinDots([version, nonce, tag, text]), context) ==
      if version in ring.keys && |ring.keys[version]| > 0 && |nonce| > 0 && |tag| > 0
      then a.open(Decode(ring.keys[version]), Decode(nonce), context, Sealed(Decode(text), Decode(tag)))
      else None
  {
    SplitInvertsJoin([version, nonce, tag, text]);
  }

  /** And nothing else is one. */
  lemma {:induction false} OtherTextsRefused(a: Aead, ring: KeyRing, parts: seq<string>, context: Bytes)
    requires |parts| > 0 && |parts| != 4 && forall i :: 0 <= i < |parts| ==> DotFree(parts[i])
    ensures DecryptWith(a, ring, JoinDots(parts), context) == None
  {
    SplitInvertsJoin(parts);
  }

  datatype Written = Written(key: Key, nonce: Bytes, context: Bytes, value: Bytes)

  /** The tag lengths GCM allows (section 5.2.1.2 of NIST SP 800-38D, with its two short ones), in bytes. */
  const TAG_LENGTHS: set<nat> := {4, 8, 12, 13, 14, 15, 16}

  /** What was sealed, with its tag cut to n bytes. */
  function CutTag(a: Aead, w: Written, n: nat): Sealed {
    var sealed := a.seal(w.key, w.nonce, w.context, w.value);
    Sealed(sealed.text, sealed.tag[..Min(n, |sealed.tag|)])
  }

  /**
   An ideal cipher opens only what was sealed, under the nonce and the context it was sealed with. The
   decipher is told no tag length: it compares as much of the tag as it is given, in any allowed length.
   */
  ghost predicate Ideal(a: Aead, log: set<Written>) {
    forall key, nonce, aad, sealed {:trigger a.open(key, nonce, aad, sealed)} ::
      a.open(key, nonce, aad, sealed).Some? ==>
        |sealed.tag| in TAG_LENGTHS
        && exists w :: w in log && key == w.key && nonce == w.nonce && aad == w.context
                       && sealed == CutTag(a, w, |sealed.tag|) && a.open(key, nonce, aad, sealed) == Some(w.value)
  }

  /** The parts of the text are what encoding their own bytes gives. */
  predicate Canonical(field: string) {
    var parts := SplitDots(field);
    |parts| == 4 && forall i :: 1 <= i < 4 ==> Encode(Decode(parts[i])) == parts[i]
  }

  lemma {:induction false} SplitIsDotFree(text: string)
    ensures forall i :: 0 <= i < |SplitDots(text)| ==> DotFree(SplitDots(text)[i])
    decreases |text|
  {
    var k := FirstDot(text);
    if k < |text| {
      SplitIsDotFree(text[k + 1..]);
    }
  }

  /** The parts of the text read as these bytes. */
  predicate ReadsAs(field: string, version: string, nonce: Bytes, sealed: Sealed) {
    var parts := SplitDots(field);
    && |parts| == 4 && parts[0] == version && Decode(parts[1]) == nonce
    && Decode(parts[2]) == sealed.tag && Decode(parts[3]) == sealed.text
  }

  lemma CanonicalIsWritten(field: string, version: string, nonce: Bytes, sealed: Sealed)
    requires ReadsAs(field, version, nonce, sealed) && Canonical(field)
    ensures field == Field(version, nonce, sealed)
  {
    var parts := SplitDots(field);
    JoinInvertsSplit(field);
    assert parts == [parts[0], parts[1], parts[2], parts[3]];
  }

  lemma EncodedIsDotFree(b: Bytes)
    ensures DotFree(Encode(b)) && Encode(Decode(Encode(b))) == Encode(b)
  {
    EncodeRoundTrip(b);
    forall i | 0 <= i < |Encode(b)|
      ensures Encode(b)[i] != '.'
    {
      assert IdChar(Encode(b)[i]);
    }
  }

  lemma WrittenIsCanonical(version: string, nonce: Bytes, sealed: Sealed)
    requires DotFree(version)
    ensures |SplitDots(Field(version, nonce, sealed))| == 4
    ensures Decode(SplitDots(Field(version, nonce, sealed))[2]) == sealed.tag
    ensures Canonical(Field(version, nonce, sealed))
  {
    EncodedIsDotFree(nonce);
    EncodedIsDotFree(sealed.tag);
    EncodedIsDotFree(sealed.text);
    EncodeRoundTrip(sealed.tag);
    SplitInvertsJoin([version, Encode(nonce), Encode(sealed.tag), Encode(sealed.text)]);
  }

  /** A text is canonical exactly when it is written from the bytes it reads as. */
  lemma CanonicalExactly(field: string, version: string, nonce: Bytes, sealed: Sealed)
    requires ReadsAs(field, version, nonce, sealed)
    ensures Canonical(field) <==> field == Field(version, nonce, sealed)
  {
    SplitIsDotFree(field);
    WrittenIsCanonical(version, nonce, sealed);
    if Canonical(field) {
      CanonicalIsWritten(field, version, nonce, sealed);
    }
  }

  lemma WholeTag(a: Aead, w: Written, n: nat)
    requires KeepsLengths(a) && n <= TAG_BYTES
    ensures n == TAG_BYTES ==> CutTag(a, w, n) == a.seal(w.key, w.nonce, w.context, w.value)
  {
    var sealed := a.seal(w.key, w.nonce, w.context, w.value);
    assert |sealed.tag| == TAG_BYTES && sealed.tag[..|sealed.tag|] == sealed.tag;
  }

  /**
   A field that decrypts holds what was sealed with this key in this very context, and gives it back. Its
   text is, letter by letter, the one written then exactly when it is canonical and its tag is whole; a
   canonical text with a shorter tag is the written one with the tag cut.
   */
  lemma FieldIsOriginal(a: Aead, ring: KeyRing, log: set<Written>, field: string, context: Bytes) returns (w: Written)
    requires KeepsLengths(a) && Ideal(a, log) && DecryptWith(a, ring, field, context).Some?
    ensures w in log && w.context == context && DecryptWith(a, ring, field, context) == Some(w.value)
    ensures var version := SplitDots(field)[0];
      && HasKey(ring, version) && w.key == Decode(ring.keys[version])
      && |SplitDots(field)| == 4
      && var n := |Decode(SplitDots(field)[2])|;
         && n in TAG_LENGTHS
         && (Canonical(field) <==> field == Field(version, w.nonce, CutTag(a, w, n)))
         && (Canonical(field) && n == TAG_BYTES <==>
               field == Field(version, w.nonce, a.seal(w.key, w.nonce, w.context, w.value)))
  {
    var parts := SplitDots(field);
    var key, nonce := Decode(ring.keys[parts[0]]), Decode(parts[1]);
    var sealed := Sealed(Decode(parts[3]), Decode(parts[2]));
    assert a.open(key, nonce, context, sealed).Some?;
    w :| w in log && key == w.key && nonce == w.nonce && context == w.context
      && sealed == CutTag(a, w, |sealed.tag|) && a.open(key, nonce, context, sealed) == Some(w.value);
    CanonicalExactly(field, parts[0], nonce, sealed);
    WholeTag(a, w, |sealed.tag|);
    if field == Field(parts[0], nonce, a.seal(key, nonce, context, w.value)) {
      SplitIsDotFree(field);
      WrittenIsCanonical(parts[0], nonce, a.seal(key, nonce, context, w.value));
    }
  }

  // Digests.

  function DigestInput(value: string, context: string): string {
    context + "\0" + value
  }

  /** `hmac` gives the hexadecimal digest; `None` is the thrown 'Unknown privacy key version'. */
  function DigestWith(hmac: (Key, string) -> string, ring: KeyRing, value: string, context: string, version: string)
    : Option<string>
  {
    if !HasKey(ring, version) then None
    else Some(version + ":" + hmac(Decode(ring.keys[version]), DigestInput(value, context)))
  }

  function DigestCandidates(hmac: (Key, string) -> string, ring: KeyRing, value: string, context: string): set<string> {
    set id | id in ring.keys && HasKey(ring, id)
      :: id + ":" + hmac(Decode(ring.keys[id]), DigestInput(value, context))
  }

  predicate Without(text: string, c: char) {
    forall i :: 0 <= i < |text| ==> text[i] != c
  }

  /** Text before the first separator is determined. */
  lemma SeparatorSplits(a: string, b: string, c: char, a': string, b': string)
    requires Without(a, c) && Without(a', c) && a + [c] + b == a' + [c] + b'
    ensures a == a' && b == b'
  {
    var s, s' := a + [c] + b, a' + [c] + b';
    assert s[|a|] == c && s'[|a'|] == c;
    assert (forall i :: 0 <= i < |a| ==> s[i] != c) && (forall i :: 0 <= i < |a'| ==> s'[i] != c);
    assert s[..|a|] == a && s'[..|a'|] == a';
    assert s[|a| + 1..] == b && s'[|a'| + 1..] == b';
  }

  ghost predicate CollisionFree(hmac: (Key, string) -> string) {
    forall k, m, k', m' {:trigger hmac(k, m), hmac(k', m')} :: hmac(k, m) == hmac(k', m') ==> k == k' && m == m'
  }

  /**
   A digest stored under one ring is found again among the candidates of a later one exactly when the
   value and the context are the stored ones, provided the later ring kept the version.
   */
  lemma StoredDigestFound(hmac: (Key, string) -> string, ring: KeyRing, later: KeyRing, value: string, context: string,
                          value': string, context': string)
    requires CheckKeyRing(ring).Some? && CheckKeyRing(later).Some? && CollisionFree(hmac)
    requires ring.active in later.keys && later.keys[ring.active] == ring.keys[ring.active]
    requires forall i :: 0 <= i < |context| ==> context[i] != '\0'
    requires forall i :: 0 <= i < |context'| ==> context'[i] != '\0'
    ensures DigestWith(hmac, ring, value, context, ring.active).Some?
    ensures DigestWith(hmac, ring, value, context, ring.active).value in DigestCandidates(hmac, later, value', context')
      <==> value == value' && context == context'
  {
    var digest := DigestWith(hmac, ring, value, context, ring.active).value;
    if digest in DigestCandidates(hmac, later, value', context') {
      var id :| id in later.keys && HasKey(later, id)
        && digest == id + ":" + hmac(Decode(later.keys[id]), DigestInput(value', context'));
      SeparatorSplits(ring.active, hmac(Decode(ring.keys[ring.active]), DigestInput(value, context)), ':',
                      id, hmac(Decode(later.keys[id]), DigestInput(value', context')));
      SeparatorSplits(context, value, '\0', context', value');
    }
  }
}
