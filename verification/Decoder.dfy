/** Decoding of EVM logs over bytes: the message log of the Wormhole core contract with a token transfer inside, and
    the approval log of a token.  The words and offsets are 64-bit and wrap around, and a slice that is out of
    range stops the program. */
module Decoder {
  import opened Sequences
  import opened Words

  type byte = x: int | 0 <= x < 256

  type Bytes = seq<byte>

  type Hash = h: Bytes | |h| == 32 witness seq(32, _ => 0)

  type Address = a: Bytes | |a| == 20 witness seq(20, _ => 0)

  datatype Error =
    | NoTopics
    | NoDecoder
    | TooFewTopics
    | NotTokenBridge
    | TooShort
    | OffsetOutOfBounds
    | PayloadOutOfBounds
    | UnsupportedPayload
    | BadTransfer

  /** A result, an error, or a run-time panic. */
  datatype Outcome<+T> = Ok(value: T) | Err(error: Error) | Panic

  datatype Log = Log(address: Address, topics: seq<Hash>, data: Bytes, block: nat, txHash: Hash)

  datatype RawEvent =
    | BridgeDeposit(token: Address, amount: nat, sender: Address, targetChain: nat, contract: Address, block: nat,
                    txHash: Hash)
    | TokenApproval(token: Address, amount: nat, sender: Address, spender: Address, contract: Address, block: nat,
                    txHash: Hash)

  /** The event signatures' hashes and the configured bridge. */
  datatype Registry = Registry(messageTopic: Hash, approvalTopic: Hash, tokenBridge: Address)

  // ---------------------------------------------------------------------------------------------------------
  // Numbers as bytes
  // ---------------------------------------------------------------------------------------------------------

  /** The unsigned number that the bytes spell, most significant first. */
  function Value(bs: Bytes): nat {
    if bs == [] then 0 else 256 * Value(bs[..|bs| - 1]) + bs[|bs| - 1]
  }

  /** n in `width` bytes, most significant first, cut to fit. */
  function Spell(n: nat, width: nat): (bs: Bytes)
    ensures |bs| == width
  {
    if width == 0 then [] else Spell(n / 256, width - 1) + [n % 256]
  }

  function Pow256(n: nat): (r: nat)
    ensures r >= 1
  {
    if n == 0 then 1 else 256 * Pow256(n - 1)
  }

  function Zeros(n: nat): Bytes {
    seq(n, _ => 0)
  }

  /** Spelling a number that fits and reading it back is the identity. */
  lemma {:induction false} ValueOfSpell(n: nat, width: nat)
    requires n < Pow256(width)
    ensures Value(Spell(n, width)) == n
  {
    if width > 0 {
      assert n / 256 < Pow256(width - 1);
      ValueOfSpell(n / 256, width - 1);
      assert Spell(n, width)[..width - 1] == Spell(n / 256, width - 1);
    }
  }

  /** The first byte counts most. */
  lemma {:induction false} BigEndian(first: byte, rest: Bytes)
    ensures Value([first] + rest) == first * Pow256(|rest|) + Value(rest)
  {
    if rest == [] {
      assert ([first] + rest)[..0] == [];
    } else {
      var n := |rest| - 1;
      assert ([first] + rest)[..n + 1] == [first] + rest[..n];
      BigEndian(first, rest[..n]);
      assert first * Pow256(n + 1) == 256 * (first * Pow256(n));
    }
  }

  lemma {:induction false} LeadingZeros(k: nat, bs: Bytes)
    ensures Value(Zeros(k) + bs) == Value(bs)
  {
    if bs == [] {
      assert Zeros(k) + bs == Zeros(k);
      OnlyZeros(k);
    } else {
      var n := |bs| - 1;
      LeadingZeros(k, bs[..n]);
      assert (Zeros(k) + bs)[..k + n] == Zeros(k) + bs[..n];
    }
  }

  lemma {:induction false} OnlyZeros(k: nat)
    ensures Value(Zeros(k)) == 0
  {
    if k > 0 {
      OnlyZeros(k - 1);
      assert Zeros(k)[..k - 1] == Zeros(k - 1);
    }
  }

  /** The low 64 bits of a word. */
  function Low64(word: Bytes): nat {
    Value(word) % TWO_64
  }

  /** 64-bit addition. */
  function Add64(a: nat, b: nat): nat
    requires a < TWO_64 && b < TWO_64
  {
    (a + b) % TWO_64
  }

  /** The bytes from lo up to hi, or nothing when that is no range of the data. */
  function Slice(data: Bytes, lo: nat, hi: nat): Option<Bytes> {
    if lo <= hi <= |data| then Some(data[lo..hi]) else None
  }

  // ---------------------------------------------------------------------------------------------------------
  // The decoders
  // ---------------------------------------------------------------------------------------------------------

  const MIN_DATA: nat := 160

  /** The payload of a message log: its offset is in the third word, and its length at that offset. */
  function ExtractPayload(data: Bytes): Outcome<Bytes>
    requires |data| >= MIN_DATA
  {
    var offset := Low64(data[64..96]);
    var start := Add64(offset, 32);
    if start > |data| then Err(OffsetOutOfBounds)
    else match Slice(data, offset, start)
      case None => Panic
      case Some(word) =>
        var length := Low64(word);
        var end := Add64(start, length);
        if end > |data| then Err(PayloadOutOfBounds)
        else match Slice(data, start, end)
          case None => Panic
          case Some(payload) => Ok(payload)
  }

  predicate IsTransfer(payload: Bytes) {
    payload != [] && (payload[0] == 1 || payload[0] == 3)
  }

  const MIN_TRANSFER: nat := 101

  /** A transfer's header: kind, amount, token, token chain, recipient and recipient chain.  The error for another
      kind of payload reads the first byte, which an empty payload does not have. */
  function DecodeTransfer(r: Registry, log: Log, payload: Bytes): Outcome<RawEvent> {
    if !IsTransfer(payload) then (if payload == [] then Panic else Err(UnsupportedPayload))
    else if |payload| < MIN_TRANSFER then Err(BadTransfer)
    else Ok(BridgeDeposit(payload[45..65], Value(payload[1..33]), r.tokenBridge, Value(payload[99..101]),
                          log.address, log.block, log.txHash))
  }

  function DecodeMessage(r: Registry, log: Log): Outcome<RawEvent> {
    if |log.topics| < 2 then Err(TooFewTopics)
    else if log.topics[1][12..] != r.tokenBridge then Err(NotTokenBridge)
    else if |log.data| < MIN_DATA then Err(TooShort)
    else match ExtractPayload(log.data)
      case Err(e) => Err(e)
      case Panic => Panic
      case Ok(payload) => DecodeTransfer(r, log, payload)
  }

  function DecodeApproval(log: Log): Outcome<RawEvent> {
    if |log.topics| < 3 then Err(TooFewTopics)
    else if |log.data| < 32 then Err(TooShort)
    else Ok(TokenApproval(log.address, Value(log.data[..32]), log.topics[1][12..], log.topics[2][12..],
                          log.address, log.block, log.txHash))
  }

  function Decode(r: Registry, log: Log): Outcome<RawEvent> {
    if |log.topics| == 0 then Err(NoTopics)
    else if log.topics[0] == r.messageTopic then DecodeMessage(r, log)
    else if log.topics[0] == r.approvalTopic then DecodeApproval(log)
    else Err(NoDecoder)
  }

  // ---------------------------------------------------------------------------------------------------------
  // Slice safety
  // ---------------------------------------------------------------------------------------------------------

  /** The word that the payload offset points at, when it is wholly inside the data. */
  function LengthWord(data: Bytes): nat
    requires |data| >= MIN_DATA && Low64(data[64..96]) + 32 <= |data|
  {
    Low64(data[Low64(data[64..96])..Low64(data[64..96]) + 32])
  }

  /** A 64-bit sum in the extraction wraps around. */
  predicate SumWraps(data: Bytes)
    requires |data| >= MIN_DATA
  {
    var offset := Low64(data[64..96]);
    || offset + 32 >= TWO_64
    || (offset + 32 <= |data| && offset + 32 + LengthWord(data) >= TWO_64)
  }

  /** Extraction takes slices inside the data, or fails with an error, exactly when no 64-bit sum wraps; the payload
      is then the stretch after the length word, as long as that word says. */
  lemma ExtractionIsSafe(data: Bytes)
    requires MIN_DATA <= |data| < TWO_64
    ensures ExtractPayload(data).Panic? <==> SumWraps(data)
    ensures !SumWraps(data) ==>
              var offset := Low64(data[64..96]);
              ExtractPayload(data) ==
                if offset + 32 > |data| then Err(OffsetOutOfBounds)
                else if offset + 32 + LengthWord(data) > |data| then Err(PayloadOutOfBounds)
                else Ok(data[offset + 32..offset + 32 + LengthWord(data)])
  {
    var offset := Low64(data[64..96]);
    if offset + 32 < TWO_64 {
      assert Add64(offset, 32) == offset + 32;
      if offset + 32 <= |data| {
        var length := LengthWord(data);
        if offset + 32 + length < TWO_64 {
          assert Add64(offset + 32, length) == offset + 32 + length;
        } else {
          assert Add64(offset + 32, length) == offset + 32 + length - TWO_64;
        }
      }
    } else {
      assert Add64(offset, 32) == offset + 32 - TWO_64;
    }
  }

  /** The payload's length word is inside the data, no sum wraps, and it says that there is no payload. */
  predicate EmptyPayload(data: Bytes)
    requires |data| >= MIN_DATA
  {
    Low64(data[64..96]) + 32 <= |data| && LengthWord(data) == 0
  }

  /** Decoding a log never panics, except on a message from the bridge whose extraction wraps around or whose
      payload is empty. */
  lemma DecodingIsSafe(r: Registry, log: Log)
    requires |log.data| < TWO_64
    ensures Decode(r, log).Panic? <==>
              && |log.topics| >= 2 && log.topics[0] == r.messageTopic
              && log.topics[1][12..] == r.tokenBridge
              && |log.data| >= MIN_DATA
              && (SumWraps(log.data) || EmptyPayload(log.data))
  {
    hide Value;
    if |log.data| >= MIN_DATA {
      ExtractionIsSafe(log.data);
    }
  }

  // ---------------------------------------------------------------------------------------------------------
  // What is decoded and what is refused
  // ---------------------------------------------------------------------------------------------------------

  /** A message log that the token bridge sent. */
  predicate FromBridge(r: Registry, log: Log) {
    |log.topics| >= 2 && log.topics[0] == r.messageTopic && log.topics[1][12..] == r.tokenBridge
  }

  /** The words and the payload they announce are inside the data, without any sum wrapping. */
  predicate InBounds(data: Bytes) {
    && |data| >= 160 && !SumWraps(data)
    && Low64(data[64..96]) + 32 <= |data|
    && Low64(data[64..96]) + 32 + LengthWord(data) <= |data|
  }

  /** The stretch after the length word, as long as that word says. */
  function PayloadOf(data: Bytes): Bytes
    requires InBounds(data)
  {
    var start := Low64(data[64..96]) + 32;
    data[start..start + LengthWord(data)]
  }

  lemma BridgeMessages(r: Registry, log: Log)
    requires |log.data| < TWO_64 && FromBridge(r, log) && |log.data| >= 160
    ensures InBounds(log.data) ==> Decode(r, log) == DecodeTransfer(r, log, PayloadOf(log.data))
    ensures !InBounds(log.data) ==>
              Decode(r, log) == if SumWraps(log.data) then Panic
                                else if Low64(log.data[64..96]) + 32 > |log.data| then Err(OffsetOutOfBounds)
                                else Err(PayloadOutOfBounds)
  {
    hide Value, DecodeTransfer, ExtractPayload;
    ExtractionIsSafe(log.data);
  }

  /** A log is decoded to a deposit exactly when it is a message from the token bridge whose payload is in bounds, of
      kind 1 or 3, and at least 101 bytes long, and to an approval exactly when its first topic is that of approvals,
      with two more topics and a word of data. */
  lemma DecodedExactly(r: Registry, log: Log)
    requires |log.data| < TWO_64
    ensures var d := Decode(r, log);
            && (d.Ok? && d.value.BridgeDeposit?
                <==> && FromBridge(r, log) && InBounds(log.data)
                     && var payload := PayloadOf(log.data);
                        |payload| >= 101 && (payload[0] == 1 || payload[0] == 3))
            && (d.Ok? && d.value.BridgeDeposit? ==>
                  var payload := PayloadOf(log.data);
                  && d.value.token == payload[45..65] && d.value.amount == Value(payload[1..33])
                  && d.value.sender == r.tokenBridge && d.value.targetChain == Value(payload[99..101])
                  && d.value.contract == log.address && d.value.block == log.block && d.value.txHash == log.txHash)
    ensures var d := Decode(r, log);
            && (d.Ok? && d.value.TokenApproval?
                <==> && |log.topics| >= 3 && |log.data| >= 32
                     && log.topics[0] == r.approvalTopic && log.topics[0] != r.messageTopic)
            && (d.Ok? && d.value.TokenApproval? ==>
                  && d.value.token == log.address && d.value.amount == Value(log.data[..32])
                  && d.value.sender == log.topics[1][12..] && d.value.spender == log.topics[2][12..]
                  && d.value.contract == log.address && d.value.block == log.block && d.value.txHash == log.txHash)
  {
    hide Value, ExtractPayload, SumWraps, LengthWord, Low64;
    if FromBridge(r, log) && |log.data| >= 160 {
      BridgeMessages(r, log);
    }
  }

  /** Everything else is refused with the error that says why, or panics; in particular logs of other events, messages
      of other senders and payloads of other kinds. */
  lemma RefusedExactly(r: Registry, log: Log)
    requires |log.data| < TWO_64
    ensures var d := Decode(r, log);
            && (d == Err(NoTopics) <==> |log.topics| == 0)
            && (d == Err(NoDecoder)
                <==> |log.topics| > 0 && log.topics[0] != r.messageTopic && log.topics[0] != r.approvalTopic)
            && (d == Err(NotTokenBridge)
                <==> |log.topics| >= 2 && log.topics[0] == r.messageTopic && log.topics[1][12..] != r.tokenBridge)
            && (d == Err(TooFewTopics)
                <==> || (|log.topics| == 1 && log.topics[0] == r.messageTopic)
                     || (1 <= |log.topics| <= 2 && log.topics[0] == r.approvalTopic != r.messageTopic))
            && (d == Err(TooShort)
                <==> || (FromBridge(r, log) && |log.data| < 160)
                     || (|log.topics| >= 3 && log.topics[0] == r.approvalTopic != r.messageTopic && |log.data| < 32))
    ensures var d := Decode(r, log);
            && (d == Err(OffsetOutOfBounds)
                <==> && FromBridge(r, log) && |log.data| >= 160 && !SumWraps(log.data)
                     && Low64(log.data[64..96]) + 32 > |log.data|)
            && (d == Err(PayloadOutOfBounds)
                <==> && FromBridge(r, log) && |log.data| >= 160 && !SumWraps(log.data)
                     && Low64(log.data[64..96]) + 32 <= |log.data|
                     && Low64(log.data[64..96]) + 32 + LengthWord(log.data) > |log.data|)
            && (d == Err(UnsupportedPayload)
                <==> && FromBridge(r, log) && InBounds(log.data)
                     && var payload := PayloadOf(log.data); payload != [] && payload[0] != 1 && payload[0] != 3)
            && (d == Err(BadTransfer)
                <==> && FromBridge(r, log) && InBounds(log.data)
                     && var payload := PayloadOf(log.data);
                        payload != [] && (payload[0] == 1 || payload[0] == 3) && |payload| < 101)
  {
    hide Value, ExtractPayload, SumWraps, LengthWord, Low64;
    if FromBridge(r, log) && |log.data| >= 160 {
      BridgeMessages(r, log);
    }
  }

  // ---------------------------------------------------------------------------------------------------------
  // Round trip
  // ---------------------------------------------------------------------------------------------------------

  /** The ABI encoding of a message log's data: sequence, nonce, the payload's offset, consistency level, and the
      payload with its length before it and zeros after it up to a whole word. */
  function EncodeMessage(sequence: nat, nonce: nat, payload: Bytes, consistency: byte): Bytes {
    var padding := (|payload| + 31) / 32 * 32 - |payload|;
    Zeros(24) + Spell(sequence, 8)
    + (Zeros(28) + Spell(nonce, 4))
    + (Zeros(24) + Spell(128, 8))
    + (Zeros(31) + [consistency])
    + (Zeros(24) + Spell(|payload|, 8))
    + payload + Zeros(padding)
  }

  /** A transfer payload; what follows the header is up to its kind. */
  function EncodeTransfer(kind: byte, amount: nat, token: Address, tokenChain: nat, recipient: Hash,
                          recipientChain: nat, rest: Bytes): Bytes {
    [kind] + Spell(amount, 32) + (Zeros(12) + token) + Spell(tokenChain, 2)
    + recipient + Spell(recipientChain, 2) + rest
  }

  lemma PowersOf256()
    ensures Pow256(2) == 0x1_0000 && Pow256(8) == TWO_64
  {
    assert Pow256(1) == 256;
    assert Pow256(2) == 0x1_0000;
    assert Pow256(4) == 0x1_0000_0000;
    assert Pow256(6) == 0x1_0000_0000_0000;
    assert Pow256(8) == TWO_64;
  }

  lemma Word64(n: nat)
    requires n < TWO_64
    ensures Low64(Zeros(24) + Spell(n, 8)) == n
  {
    PowersOf256();
    ValueOfSpell(n, 8);
    LeadingZeros(24, Spell(n, 8));
  }

  /** Decoding the data of an encoded message yields exactly its payload. */
  lemma {:induction false} PayloadRoundTrip(sequence: nat, nonce: nat, payload: Bytes, consistency: byte)
    requires |payload| + 192 < TWO_64
    ensures var data := EncodeMessage(sequence, nonce, payload, consistency);
            |data| >= MIN_DATA && ExtractPayload(data) == Ok(payload)
  {
    EncodedParts(sequence, nonce, payload, consistency);
    hide EncodeMessage, Spell, Value;
    Word64(128);
    Word64(|payload|);
  }

  /** Where the encoding has the payload's offset, its length and the payload itself. */
  lemma EncodedParts(sequence: nat, nonce: nat, payload: Bytes, consistency: byte)
    ensures var data := EncodeMessage(sequence, nonce, payload, consistency);
            && |data| >= 160 + |payload|
            && data[64..96] == Zeros(24) + Spell(128, 8)
            && data[128..160] == Zeros(24) + Spell(|payload|, 8)
            && data[160..160 + |payload|] == payload
  {
    hide Spell;
    var padding := (|payload| + 31) / 32 * 32 - |payload|;
    assert 0 <= padding < 32;
    var seqWord, nonceWord := Zeros(24) + Spell(sequence, 8), Zeros(28) + Spell(nonce, 4);
    var offsetWord := Zeros(24) + Spell(128, 8);
    var levelWord, lengthWord := Zeros(31) + [consistency], Zeros(24) + Spell(|payload|, 8);
    var data := EncodeMessage(sequence, nonce, payload, consistency);
    assert data == seqWord + nonceWord + offsetWord + levelWord + lengthWord + payload + Zeros(padding);
    assert |data| == 160 + |payload| + padding;
    assert data[64..96] == offsetWord;
    assert data[128..160] == lengthWord;
    assert data[160..160 + |payload|] == payload;
  }

  /** A message from the bridge with an empty payload makes the decoder panic. */
  lemma EmptyPayloadPanics(r: Registry, log: Log, sequence: nat, nonce: nat, consistency: byte)
    requires |log.topics| >= 2 && log.topics[0] == r.messageTopic && log.topics[1] == Zeros(12) + r.tokenBridge
    requires log.data == EncodeMessage(sequence, nonce, [], consistency)
    ensures Decode(r, log) == Panic
  {
    hide ExtractPayload, EncodeMessage, Value, Spell;
    PayloadRoundTrip(sequence, nonce, [], consistency);
    assert log.topics[1][12..] == r.tokenBridge;
  }

  /** A message from the bridge whose offset word is the greatest 64-bit number makes the decoder panic. */
  lemma WrappingOffsetPanics(r: Registry, log: Log)
    requires |log.topics| >= 2 && log.topics[0] == r.messageTopic && log.topics[1] == Zeros(12) + r.tokenBridge
    requires MIN_DATA <= |log.data| < TWO_64 && log.data[64..96] == Zeros(24) + Spell(TWO_64 - 1, 8)
    ensures Decode(r, log) == Panic
  {
    hide ExtractPayload, Value, Spell;
    Word64(TWO_64 - 1);
    DecodingIsSafe(r, log);
    assert log.topics[1][12..] == r.tokenBridge;
  }

  /** Encode then decode is the identity: a transfer sent through the bridge is decoded to its own amount, token
      and target chain. */
  lemma {:induction false} TransferRoundTrip(r: Registry, log: Log, sequence: nat, nonce: nat, consistency: byte,
                                             kind: byte, amount: nat, token: Address, tokenChain: nat,
                                             recipient: Hash, recipientChain: nat, rest: Bytes)
    requires kind == 1 || kind == 3
    requires amount < Pow256(32) && tokenChain < 0x1_0000 && recipientChain < 0x1_0000
    requires |rest| + 293 < TWO_64
    requires |log.topics| >= 2 && log.topics[0] == r.messageTopic && log.topics[1] == Zeros(12) + r.tokenBridge
    requires log.data == EncodeMessage(sequence, nonce,
               EncodeTransfer(kind, amount, token, tokenChain, recipient, recipientChain, rest), consistency)
    ensures Decode(r, log)
            == Ok(BridgeDeposit(token, amount, r.tokenBridge, recipientChain, log.address, log.block, log.txHash))
  {
    var payload := EncodeTransfer(kind, amount, token, tokenChain, recipient, recipientChain, rest);
    hide ExtractPayload, EncodeMessage, EncodeTransfer, Value, Pow256, Spell;
    TransferHeader(kind, amount, token, tokenChain, recipient, recipientChain, rest);
    PayloadRoundTrip(sequence, nonce, payload, consistency);
    assert log.topics[1][12..] == r.tokenBridge;
  }

  lemma TransferHeader(kind: byte, amount: nat, token: Address, tokenChain: nat, recipient: Hash, recipientChain: nat,
                       rest: Bytes)
    requires amount < Pow256(32) && tokenChain < 0x1_0000 && recipientChain < 0x1_0000
    ensures var payload := EncodeTransfer(kind, amount, token, tokenChain, recipient, recipientChain, rest);
            && |payload| == 101 + |rest| && payload[0] == kind
            && payload[45..65] == token && Value(payload[1..33]) == amount && Value(payload[99..101]) == recipientChain
  {
    hide Spell, Value, Pow256;
    var payload := EncodeTransfer(kind, amount, token, tokenChain, recipient, recipientChain, rest);
    assert payload[1..33] == Spell(amount, 32);
    assert payload[45..65] == token;
    assert payload[99..101] == Spell(recipientChain, 2);
    ValueOfSpell(amount, 32);
    PowersOf256();
    ValueOfSpell(recipientChain, 2);
  }

  /** An approval log yields its token, owner, spender and value. */
  lemma ApprovalRoundTrip(r: Registry, log: Log, owner: Address, spender: Address, amount: nat, rest: Bytes)
    requires r.approvalTopic != r.messageTopic && amount < Pow256(32)
    requires log.topics == [r.approvalTopic, Zeros(12) + owner, Zeros(12) + spender]
    requires log.data == Spell(amount, 32) + rest
    ensures Decode(r, log)
            == Ok(TokenApproval(log.address, amount, owner, spender, log.address, log.block, log.txHash))
  {
    hide Spell, Value, Pow256, DecodeMessage;
    ValueOfSpell(amount, 32);
    assert log.data[..32] == Spell(amount, 32);
    assert (Zeros(12) + owner)[12..] == owner && (Zeros(12) + spender)[12..] == spender;
  }
}
