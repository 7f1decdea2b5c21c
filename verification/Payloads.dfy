/** The payloads of view-change and recovery messages. */
module Payloads {
  import opened Types
  import opened LittleEndian
  import opened LogCodec

  function EncodeDoViewChange(lastNormalView: nat, log: Log): seq<Byte> {
    Bytes(lastNormalView, 4) + EncodeLog(log)
  }

  function DecodeDoViewChange(data: seq<Byte>): Body {
    match ReadPod(data, 4)
    case NoPod => Body(false, ZERO128, 0, map[])
    case Pod(view, rest) =>
      var parsed := ReadLog(rest, map[]);
      Body(parsed.ok, ZERO128, view, parsed.log)
  }

  function EncodeStartView(log: Log): seq<Byte> {
    EncodeLog(log)
  }

  function DecodeStartView(data: seq<Byte>): Body {
    var parsed := ReadLog(data, map[]);
    Body(parsed.ok, ZERO128, 0, parsed.log)
  }

  function EncodeRecoveryRequest(nonce: U128): seq<Byte> {
    Bytes128(nonce)
  }

  function DecodeRecoveryRequest(data: seq<Byte>): Body {
    match ReadWord(data)
    case NoWord => Body(false, ZERO128, 0, map[])
    case Word(nonce, _) => Body(true, nonce, 0, map[])
  }

  function EncodeRecoveryResponse(nonce: U128, log: Log): seq<Byte> {
    Bytes128(nonce) + EncodeLog(log)
  }

  function DecodeRecoveryResponse(data: seq<Byte>): Body {
    match ReadWord(data)
    case NoWord => Body(false, ZERO128, 0, map[])
    case Word(nonce, rest) =>
      var parsed := ReadLog(rest, map[]);
      Body(parsed.ok, nonce, 0, parsed.log)
  }

  /** A DoViewChange payload arrives whole except for the acknowledgements of its log. */
  lemma {:induction false} DoViewChangeRoundTrip(lastNormalView: nat, log: Log)
    requires lastNormalView < Range(4) && LogFits(log)
    ensures DecodeDoViewChange(EncodeDoViewChange(lastNormalView, log)) == Body(true, ZERO128, lastNormalView, EraseAcks(log))
  {
    ReadWritten(lastNormalView, 4, EncodeLog(log));
    RoundTrip(log, []);
    assert EncodeLog(log) + [] == EncodeLog(log);
  }

  lemma {:induction false} StartViewRoundTrip(log: Log)
    requires LogFits(log)
    ensures DecodeStartView(EncodeStartView(log)) == Body(true, ZERO128, 0, EraseAcks(log))
  {
    RoundTrip(log, []);
    assert EncodeLog(log) + [] == EncodeLog(log);
  }

  lemma {:induction false} RecoveryRequestRoundTrip(nonce: U128)
    requires Fits128(nonce)
    ensures DecodeRecoveryRequest(EncodeRecoveryRequest(nonce)) == Body(true, nonce, 0, map[])
  {
    ReadWrittenWord(nonce, []);
    assert Bytes128(nonce) + [] == Bytes128(nonce);
  }

  lemma {:induction false} RecoveryResponseRoundTrip(nonce: U128, log: Log)
    requires Fits128(nonce) && LogFits(log)
    ensures DecodeRecoveryResponse(EncodeRecoveryResponse(nonce, log)) == Body(true, nonce, 0, EraseAcks(log))
  {
    ReadWrittenWord(nonce, EncodeLog(log));
    RoundTrip(log, []);
    assert EncodeLog(log) + [] == EncodeLog(log);
  }

  lemma {:induction false} CutBehind(a: seq<Byte>, b: seq<Byte>, k: nat)
    requires |a| <= k <= |a + b|
    ensures (a + b)[..k][|a|..] == b[..k - |a|]
  {
  }

  /** A payload that has lost any of its end is recognised as damaged. */
  lemma {:induction false} CutDoViewChangeRejected(lastNormalView: nat, log: Log, k: nat)
    requires lastNormalView < Range(4) && LogFits(log) && k < |EncodeDoViewChange(lastNormalView, log)|
    ensures !DecodeDoViewChange(EncodeDoViewChange(lastNormalView, log)[..k]).ok
  {
    if k >= 4 {
      CutBehind(Bytes(lastNormalView, 4), EncodeLog(log), k);
      TruncationRejected(log, k - 4);
    }
  }

  lemma {:induction false} RecoveryResponseNeedsLog(data: seq<Byte>)
    ensures DecodeRecoveryResponse(data).ok ==> |data| >= 16 && ReadLog(data[16..], map[]).ok
  {
  }

  lemma {:induction false} CutRecoveryResponseRejected(nonce: U128, log: Log, k: nat)
    requires Fits128(nonce) && LogFits(log) && k < |EncodeRecoveryResponse(nonce, log)|
    ensures !DecodeRecoveryResponse(EncodeRecoveryResponse(nonce, log)[..k]).ok
  {
    var head, tail := Bytes128(nonce), EncodeLog(log);
    RecoveryResponseNeedsLog((head + tail)[..k]);
    if k >= 16 {
      CutBehind(head, tail, k);
      TruncationRejected(log, k - 16);
    }
  }

  // Step by step

  method SerializeDoViewChange(lastNormalView: nat, log: Log) returns (buffer: seq<Byte>)
    ensures buffer == EncodeDoViewChange(lastNormalView, log)
  {
    buffer := [];
    buffer := buffer + Bytes(lastNormalView, 4);
    buffer := WriteLog(buffer, log);
  }

  method DeserializeDoViewChange(data: seq<Byte>) returns (body: Body)
    ensures body == DecodeDoViewChange(data)
  {
    var ok, view, ptr := TakePod(data, 0, 4);
    if !ok {
      return Body(false, ZERO128, 0, map[]);
    }
    var log;
    ok, log, ptr := TakeLog(data, ptr, map[]);
    return Body(ok, ZERO128, view, log);
  }

  method SerializeRecoveryResponse(nonce: U128, log: Log) returns (buffer: seq<Byte>)
    ensures buffer == EncodeRecoveryResponse(nonce, log)
  {
    buffer := [];
    buffer := buffer + Bytes128(nonce);
    buffer := WriteLog(buffer, log);
  }

  method DeserializeRecoveryResponse(data: seq<Byte>) returns (body: Body)
    ensures body == DecodeRecoveryResponse(data)
  {
    if 16 > |data| {
      return Body(false, ZERO128, 0, map[]);
    }
    var nonce := U128(Value(data[..8]), Value(data[8..16]));
    var ok, log, ptr := TakeLog(data, 16, map[]);
    return Body(ok, nonce, 0, log);
  }
}
