/**
 The log parser: an ERC-20 Transfer log becomes a normalised transfer document.
 */
module Parser {
  import opened Numerals
  import opened Wrappers

  type Hash = s: seq<Byte> | |s| == 32 witness seq(32, _ => 0)
  type Address = s: seq<Byte> | |s| == 20 witness seq(20, _ => 0)

  datatype RawLog = RawLog(
    address: Address, topics: seq<Hash>, data: seq<Byte>,
    blockNumber: nat, txHash: Hash, txIndex: nat, index: nat)

  /** The stored document, without the database identifier, the wall-clock
      CreatedAt and the two lossy renderings of the value. */
  datatype Transfer = Transfer(
    eventSignature: string, token: string, from: string, to: string, valueString: string,
    blockNumber: nat, txHash: string, txIndex: nat, logIndex: nat, timestamp: int)

  /** The fields of the unique index on transfers. */
  datatype Key = Key(txHash: string, logIndex: nat)

  function KeyOf(t: Transfer): Key {
    Key(t.txHash, t.logIndex)
  }

  datatype ParseError = WrongTopicCount(count: nat) | NotTransfer | WrongDataLength(length: nat)

  /** keccak256("Transfer(address,address,uint256)") */
  const TRANSFER_SIGNATURE: Hash := [
    0xdd, 0xf2, 0x52, 0xad, 0x1b, 0xe2, 0xc8, 0x9b, 0x69, 0xc2, 0xb0, 0x68, 0xfc, 0x37, 0x8d, 0xaa,
    0x95, 0x2b, 0xa7, 0xf1, 0x63, 0xc4, 0xa1, 0x16, 0x28, 0xf5, 0x5a, 0x4d, 0xf5, 0x23, 0xb3, 0xef]

  /** Keeps the last 20 bytes, padding a short input with zeros on the left. */
  function BytesToAddress(bytes: seq<Byte>): Address {
    var tail := if |bytes| > 20 then bytes[|bytes| - 20..] else bytes;
    seq(20 - |tail|, _ => 0) + tail
  }

  function ParseTransferLog(log: RawLog, blockTime: int): Result<Transfer, ParseError> {
    if |log.topics| != 3 then Err(WrongTopicCount(|log.topics|))
    else if log.topics[0] != TRANSFER_SIGNATURE then Err(NotTransfer)
    else if |log.data| != 32 then Err(WrongDataLength(|log.data|))
    else
      var from := BytesToAddress(log.topics[1]);
      var to := BytesToAddress(log.topics[2]);
      Ok(Transfer("Transfer", Hex(log.address), Hex(from), Hex(to), Decimal(BigEndian(log.data)),
                  log.blockNumber, Hex(log.txHash), log.txIndex, log.index, blockTime))
  }

  /** Exactly the three-topic Transfer logs with one data word are parsed. */
  predicate Parseable(log: RawLog) {
    |log.topics| == 3 && log.topics[0] == TRANSFER_SIGNATURE && |log.data| == 32
  }

  predicate ValueFaithful(t: Transfer, log: RawLog) {
    && Canonical(t.valueString) && |t.valueString| <= 78
    && ParseDecimal(t.valueString) == BigEndian(log.data)
  }

  predicate FieldsFaithful(t: Transfer, log: RawLog)
    requires |log.topics| == 3
  {
    && IsHex(t.token) && DecodeHex(t.token) == log.address
    && IsHex(t.from) && DecodeHex(t.from) == log.topics[1][12..]
    && IsHex(t.to) && DecodeHex(t.to) == log.topics[2][12..]
    && IsHex(t.txHash) && DecodeHex(t.txHash) == log.txHash
  }

  lemma ValueFidelity(log: RawLog, t: Transfer)
    requires |log.data| == 32 && t.valueString == Decimal(BigEndian(log.data))
    ensures ValueFaithful(t, log)
  {
    var value := BigEndian(log.data);
    DecimalRoundTrip(value);
    BigEndianBound(log.data);
    WordFitsIn78Digits();
    DecimalLength(value, 78);
  }

  lemma FieldsFidelity(log: RawLog, t: Transfer)
    requires |log.topics| == 3
    requires t.token == Hex(log.address) && t.txHash == Hex(log.txHash)
    requires t.from == Hex(BytesToAddress(log.topics[1])) && t.to == Hex(BytesToAddress(log.topics[2]))
    ensures FieldsFaithful(t, log)
  {
    AddressOfTopic(log.topics[1]);
    AddressOfTopic(log.topics[2]);
    HexRoundTrip(log.address);
    HexRoundTrip(log.txHash);
    HexRoundTrip(log.topics[1][12..]);
    HexRoundTrip(log.topics[2][12..]);
  }

  /** The value string is the canonical decimal numeral of the big-endian data word,
      and the hexadecimal fields decode to the address, the low 20 bytes of the two
      address topics and the transaction hash. */
  lemma ParseFidelity(log: RawLog, blockTime: int)
    ensures ParseTransferLog(log, blockTime).Ok? <==> Parseable(log)
    ensures |log.topics| != 3 ==> ParseTransferLog(log, blockTime) == Err(WrongTopicCount(|log.topics|))
    ensures Parseable(log) ==>
              var t := ParseTransferLog(log, blockTime).value;
              && ValueFaithful(t, log) && FieldsFaithful(t, log)
              && t.eventSignature == "Transfer" && t.blockNumber == log.blockNumber && t.txIndex == log.txIndex
              && t.logIndex == log.index && t.timestamp == blockTime
  {
    if Parseable(log) {
      ValueFidelity(log, ParseTransferLog(log, blockTime).value);
      FieldsFidelity(log, ParseTransferLog(log, blockTime).value);
    }
  }

  lemma AddressOfTopic(topic: Hash)
    ensures BytesToAddress(topic) == topic[12..]
  {
  }

  /** A document determines its log, except for the twelve high bytes of the two
      address topics. */
  lemma ParseInjective(a: RawLog, b: RawLog, ta: int, tb: int)
    requires Parseable(a) && Parseable(b)
    requires ParseTransferLog(a, ta) == ParseTransferLog(b, tb)
    ensures ta == tb
    ensures a == b.(topics := a.topics)
    ensures a.topics[1][12..] == b.topics[1][12..] && a.topics[2][12..] == b.topics[2][12..]
  {
    ParseFidelity(a, ta);
    ParseFidelity(b, tb);
    BigEndianInjective(a.data, b.data);
  }

  /** Two documents collide on the unique index exactly when their logs have the
      same transaction hash and log index. */
  lemma KeyIdentifiesLog(a: RawLog, b: RawLog, ta: int, tb: int)
    requires Parseable(a) && Parseable(b)
    ensures KeyOf(ParseTransferLog(a, ta).value) == KeyOf(ParseTransferLog(b, tb).value)
       <==> a.txHash == b.txHash && a.index == b.index
  {
    ParseFidelity(a, ta);
    ParseFidelity(b, tb);
  }
}
