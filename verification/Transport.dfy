/** The signed room message around a frame, and its independent verification. */
module Transport {
  import opened Wrappers
  import opened Json
  import opened Radix
  import opened Frames
  import opened Contracts
  import opened Base58
  import opened Base64Url
  import Spelling

  datatype Message = Message(sequence: int, sender: Text, ts: Text, nonce: int, text: Text, sig: Text)

  // `verifies(key, signature, challenge)` is Ed25519 verification;
  // `parseTime` is the ISO-8601 reader, in milliseconds.
  datatype Env = Env(crypto: Crypto, verifies: (Bytes, Bytes, Text) -> bool, parseTime: Text -> Option<int>)

  const BAR: CodePoint := 0x7C

  /** room|nonce|text */
  function Challenge(room: Text, nonce: int, text: Text): Text {
    room + [BAR] + WriteInt(nonce, [BAR] + text)
  }

  /** UTF-8 encoding raises on a surrogate. */
  predicate Encodable(t: Text) {
    forall i | 0 <= i < |t| :: !IsHigh(t[i]) && !IsLow(t[i])
  }

  /** verify_transport */
  predicate VerifyTransport(env: Env, room: Text, m: Message) {
    && IsDid(m.sender)
    && 0 <= m.nonce < 10_000_000_000_000_000_000
    && KeyOf(m.sender).Some?
    && DecodeSignature(m.sig).Some?
    && Encodable(m.text)
    && env.verifies(KeyOf(m.sender).value, DecodeSignature(m.sig).value, Challenge(room, m.nonce, m.text))
  }

  lemma LetterIsBase58(d: nat)
    requires d < 58
    ensures Base58Char(Letter(d))
  {
  }

  lemma StartSpelled()
    ensures DID_PREFIX + TextOf(LEAD) == Lit("did:key:z6Mk")
  {
    assert TextOf(LEAD) == Lit("6Mk");
    assert Lit("did:key:z6Mk") == Lit("did:key:z") + Lit("6Mk");
  }

  /** A string that decodes to a prefixed 32-byte key always has the DID pattern,
      and the pattern alone does not make it one. */
  lemma DecodedKeyHasPattern(did: Text)
    requires KeyOf(did).Some?
    ensures IsDid(did)
  {
    hide Lit, TextOf, KeyOf;
    var key := KeyOf(did).value;
    DidOfKey(did);
    DidRoundTrip(key);
    StartSpelled();
    assert |Lit("did:key:z6Mk")| == 12 by { TwelveLong(); }
    assert did[..12] == Lit("did:key:z6Mk");
    forall i | 12 <= i < 56
      ensures Base58Char(did[i])
    {
      DidLetter(key, i);
    }
  }

  lemma TwelveLong()
    ensures |Lit("did:key:z6Mk")| == 12
  {
  }

  lemma DidLetter(key: Bytes, i: nat)
    requires InBase(256, key) && |key| == 32 && 9 <= i < |DidOf(key)|
    ensures Base58Char(DidOf(key)[i])
  {
    hide Notation, Value;
    var raw := [0xED, 0x01] + key;
    assert |DID_PREFIX| == 9;
    var n := LeadingZeroCount(raw);
    var ds := Zeros(n) + Notation(58, Value(256, raw));
    assert DidOf(key)[i] == TextOf(ds)[i - 9];
    LetterIsBase58(ds[i - 9]);
  }

  /** The digit a base58 character stands for. */
  function DigitOf(c: CodePoint): (d: nat)
    requires Base58Char(c)
    ensures d < 58 && Letter(d) == c
  {
    if c <= 0x39 then c - 0x31
    else if c <= 0x48 then c - 0x41 + 9
    else if c <= 0x4E then c - 0x4A + 17
    else if c <= 0x5A then c - 0x50 + 22
    else if c <= 0x6B then c - 0x61 + 33
    else c - 0x6D + 44
  }

  /** On every string the DID pattern accepts, the four decoders read the same bytes: the
      payload is never empty and never starts with a 1. */
  lemma DidDecodersAgree(did: Text)
    requires IsDid(did)
    ensures var payload := did[9..];
            payload != [] && Decode(payload).Some? && CloseCallDecode(payload) == Decode(payload)
  {
    hide Lit;
    var payload := did[9..];
    StartSpelled();
    TwelveLong();
    PrefixLength();
    forall i | 0 <= i < |payload|
      ensures Index(payload[i]).Some?
    {
      if i < 3 { assert did[i + 9] == did[..12][i + 9] == TextOf(LEAD)[i]; }
      IndexOfLetter(if i < 3 then LEAD[i] else DigitOf(did[i + 9]));
    }
    assert did[9] == did[..12][9] == TextOf(LEAD)[0] == Letter(5);
    IndexOfLetter(5);
    IndexOfLetter(0);
    DecodersAgree(payload);
  }

  // ---- The signed text ------------------------------------------------------------------------

  /** The room, the decimal nonce and the text, between bars. */
  lemma ChallengeSpelled(room: Text, nonce: int, text: Text)
    ensures Challenge(room, nonce, text) == room + Lit("|") + Spelling.Number(nonce) + Lit("|") + text
  {
    hide Spelling.Number, WriteInt;
    Spelling.IntSpelled(nonce, [BAR] + text);
    assert Lit("|") == [BAR];
    assert room + [BAR] + (Spelling.Number(nonce) + ([BAR] + text)) == room + [BAR] + Spelling.Number(nonce) + [BAR] + text;
  }

  predicate NoBar(room: Text) {
    forall i | 0 <= i < |room| :: room[i] != BAR
  }

  lemma SameRoom(room: Text, rest: Text, room': Text, rest': Text)
    requires NoBar(room) && NoBar(room') && room + [BAR] + rest == room' + [BAR] + rest'
    ensures room == room' && rest == rest'
  {
    var s := room + [BAR] + rest;
    assert s[|room|] == BAR && s[|room'|] == BAR;
    assert room == s[..|room|] && room' == s[..|room'|] && rest == s[|room| + 1..] && rest' == s[|room'| + 1..];
  }

  /** A signature is over one room, one nonce and one text. */
  lemma ChallengeBinds(room: Text, nonce: nat, text: Text, room': Text, nonce': nat, text': Text)
    requires NoBar(room) && NoBar(room') && Challenge(room, nonce, text) == Challenge(room', nonce', text')
    ensures room == room' && nonce == nonce' && text == text'
  {
    hide WriteNat, ReadNat;
    SameRoom(room, WriteInt(nonce, [BAR] + text), room', WriteInt(nonce', [BAR] + text'));
    NatRoundTrip(nonce, [BAR] + text);
    NatRoundTrip(nonce', [BAR] + text');
    assert text == ([BAR] + text)[1..] && text' == ([BAR] + text')[1..];
  }

  /** The signer's key and signature behind a message: the only DID of that key, the only text of
      that signature. */
  ghost predicate SignedBy(env: Env, room: Text, m: Message, key: Bytes, signature: Digits) {
    && InBase(256, key) && |key| == 32 && m.sender == DidOf(key)
    && InBase(256, signature) && |signature| == 64 && m.sig == Spell(Pack(signature, 21))
    && env.verifies(key, signature, room + Lit("|") + Spelling.Number(m.nonce) + Lit("|") + m.text)
  }

  /** A message passes exactly when its nonce has at most 19 digits, its text has no surrogate and
      some 32-byte key and 64-byte signature stand behind it. */
  lemma TransportExactly(env: Env, room: Text, m: Message)
    ensures VerifyTransport(env, room, m) <==>
              && 0 <= m.nonce <= 9_999_999_999_999_999_999
              && (forall i | 0 <= i < |m.text| :: !(0xD800 <= m.text[i] <= 0xDFFF))
              && exists key: Bytes, signature: Digits :: SignedBy(env, room, m, key, signature)
  {
    hide Lit, IsDid, KeyOf, DidOf, DecodeSignature, Spell, Pack, Challenge;
    ChallengeSpelled(room, m.nonce, m.text);
    if VerifyTransport(env, room, m) {
      var key, signature := KeyOf(m.sender).value, DecodeSignature(m.sig).value;
      DidOfKey(m.sender);
      FastTestIsExact(m.sig);
      DecodedInBase(m.sig);
      SignatureRoundTrip(signature, m.sig);
      assert SignedBy(env, room, m, key, signature);
    }
    if key: Bytes, signature: Digits :| SignedBy(env, room, m, key, signature) {
      DidRoundTrip(key);
      SignatureRoundTrip(signature, m.sig);
      DecodedKeyHasPattern(m.sender);
    }
  }

  lemma DecodedInBase(t: Text)
    requires DecodeSignature(t).Some?
    ensures InBase(256, DecodeSignature(t).value)
  {
  }
}
