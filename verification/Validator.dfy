/** Frame validation against MLS group state, and why sequencing cannot change its verdict. */
module Validator {
  import opened BigEndian
  import opened Wire
  import opened Rooms
  import opened RoomRuns

  // Ed25519 is a parameter: which key bytes parse, and which signatures verify.
  datatype Ed25519 = Ed25519(parses: seq<Byte> -> bool, verifies: (seq<Byte>, seq<Byte>, seq<Byte>) -> bool)

  datatype GroupState = GroupState(members: seq<U64>, memberKeys: map<U64, seq<Byte>>)

  datatype Verdict = Accept | EpochMismatch | NotMember | NoKey | BadSignature

  function ValidateSignature(ed: Ed25519, f: Frame, group: GroupState): Verdict {
    var sender := SenderId(f.header);
    if sender !in group.memberKeys || !ed.parses(group.memberKeys[sender]) then NoKey
    else if !ed.verifies(group.memberKeys[sender], SigningData(f.header), Signature(f.header)) then BadSignature
    else Accept
  }

  function ValidateFrame(ed: Ed25519, f: Frame, epoch: U64, group: GroupState): Verdict {
    if Epoch(f.header) != epoch then EpochMismatch
    else if SenderId(f.header) !in group.members then NotMember
    else ValidateSignature(ed, f, group)
  }

  /** The verdict is a function of what is signed and the signature: every other header byte
      and the payload can be anything. */
  lemma VerdictReadsOnlySignedPart(ed: Ed25519, f: Frame, g: Frame, epoch: U64, group: GroupState)
    requires SigningData(f.header) == SigningData(g.header) && Signature(f.header) == Signature(g.header)
    ensures ValidateFrame(ed, f, epoch, group) == ValidateFrame(ed, g, epoch, group)
    ensures ValidateSignature(ed, f, group) == ValidateSignature(ed, g, group)
  {
    var d, d' := SigningData(f.header), SigningData(g.header);
    assert f.header[32..40] == d[32..40] == d'[32..40] == g.header[32..40];
    assert f.header[56..64] == d[48..56] == d'[48..56] == g.header[56..64];
  }

  /** A frame is accepted if and only if it is of the group's epoch, its sender is listed as a
      member and has a key that parses, and under that key its signature verifies its signed
      bytes; the first of these to fail is the reason given. */
  lemma AcceptedIff(ed: Ed25519, f: Frame, epoch: U64, group: GroupState)
    ensures var verdict, sender := ValidateFrame(ed, f, epoch, group), SenderId(f.header);
            var current, listed := Epoch(f.header) == epoch, sender in group.members;
            var keyed := sender in group.memberKeys && ed.parses(group.memberKeys[sender]);
            && (verdict == EpochMismatch <==> !current)
            && (verdict == NotMember <==> current && !listed)
            && (verdict == NoKey <==> current && listed && !keyed)
            && (verdict == BadSignature <==>
                  current && listed && keyed && !ed.verifies(group.memberKeys[sender], SigningData(f.header), Signature(f.header)))
            && (verdict == Accept <==>
                  current && listed && keyed && ed.verifies(group.memberKeys[sender], SigningData(f.header), Signature(f.header)))
    ensures ValidateFrame(ed, f, epoch, group) == Accept
       <==> Epoch(f.header) == epoch && SenderId(f.header) in group.members && ValidateSignature(ed, f, group) == Accept
  {
  }

  /** A signature verifies for one message at most. */
  ghost predicate Binding(ed: Ed25519) {
    forall k: seq<Byte>, l: seq<Byte>, x: seq<Byte>, y: seq<Byte>, signature: seq<Byte> ::
      ed.verifies(k, x, signature) && ed.verifies(l, y, signature) ==> x == y
  }

  /** Under such a scheme two accepted frames with one signature are the same but for the eight
      bytes the server writes: what it was given to sign is all a signature can be used for. */
  lemma AcceptedTwiceIsTheSame(ed: Ed25519, f: Frame, g: Frame, epoch: U64, group: GroupState)
    requires Binding(ed) && Signature(f.header) == Signature(g.header)
    requires ValidateFrame(ed, f, epoch, group) == Accept && ValidateFrame(ed, g, epoch, group) == Accept
    ensures SigningData(f.header) == SigningData(g.header)
    ensures exists index: U64 :: g.header == WithLogIndex(f.header, index)
  {
    hide SigningData, WithLogIndex;
    AcceptedIff(ed, f, epoch, group);
    AcceptedIff(ed, g, epoch, group);
    SignedPartIffSameElsewhere(f.header, g.header);
  }

  /** Assigning an index, encoding and decoding again — with anything behind the bytes — gives
      a frame with the same sender, epoch, signed part and payload, so the validator accepts it
      afterwards exactly when it did before. */
  lemma SequencingKeepsVerdict(ed: Ed25519, f: Frame, index: U64, rest: seq<Byte>, epoch: U64, group: GroupState)
    requires Sequenceable(f) && |f.payload| <= MAX_PAYLOAD_SIZE
    ensures var r := Decode(WireBytes(WithIndex(f, index)) + rest);
            && r.Ok?
            && LogIndex(r.value.header) == index
            && RoomId(r.value.header) == RoomId(f.header)
            && SenderId(r.value.header) == SenderId(f.header) && Epoch(r.value.header) == Epoch(f.header)
            && SigningData(r.value.header) == SigningData(f.header)
            && Signature(r.value.header) == Signature(f.header)
            && r.value.payload == f.payload
            && ValidateFrame(ed, r.value, epoch, group) == ValidateFrame(ed, f, epoch, group)
  {
    var g := WithIndex(f, index);
    WithLogIndexKeepsFields(f.header, index);
    DecodeEncode(g, rest);
    VerdictReadsOnlySignedPart(ed, f, g, epoch, group);
  }
}
