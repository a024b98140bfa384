/** Catching up: a client asks for pages of a room's log until the server says there is no more. */
module Sync {
  import opened BigEndian
  import opened Results
  import opened Wire
  import opened Storage
  import opened Rooms

  function EncodedPage(log: seq<Frame>, from: nat, limit: nat): seq<seq<Byte>> {
    var page := Page(log, from, limit);
    seq(|page|, i requires 0 <= i < |page| => WireBytes(page[i]))
  }

  /** A healthy answer holds the encoded page, and `has_more` says exactly whether the log goes
      on behind it — unless nothing was asked for, from the start of a log of one frame. */
  lemma HasMoreIff(m: Manager, s: Store, room: U128, session: U64, from: U64, limit: nat)
    requires room in m.metadata && room in s.frames
    ensures var log := Log(s, room);
            var r := HandleSync(m, s, room, session, from, limit, false, false);
            && r.Ok? && r.value.SendSyncResponse?
            && r.value.session == session && r.value.room == room
            && r.value.frames == EncodedPage(log, from, limit)
            && ((r.value.hasMore <==> from + |r.value.frames| < |log|)
                <==> !(limit == 0 && from == 0 && |log| == 1))
  {
    hide WireBytes;
    var page := Page(Log(s, room), from, limit);
    assert Loaded(s, room, from, limit) == Ok(page);
    assert EncodedPage(Log(s, room), from, limit)
        == seq(|page|, i requires 0 <= i < |page| => WireBytes(page[i]));
  }

  /** `frame.decode` on every entry of a response. */
  method DecodePage(encoded: seq<seq<Byte>>, ghost page: seq<Frame>) returns (frames: seq<Frame>)
    requires |encoded| == |page|
    requires forall i | 0 <= i < |page| :: encoded[i] == WireBytes(page[i]) && Encodable(page[i])
    ensures frames == page
  {
    hide Decode, Encodable, WireBytes;
    frames := [];
    for i := 0 to |encoded|
      invariant frames == page[..i]
    {
      assert WireBytes(page[i]) + [] == encoded[i];
      DecodeEncode(page[i], []);
      frames := frames + [Decode(encoded[i]).value];
    }
  }

  /** Asking for at least one frame at a time and moving on by what came back, the client ends
      up with exactly the stored suffix, decoded. */
  method SyncAll(m: Manager, s: Store, room: U128, session: U64, from: U64, limit: nat)
    returns (frames: seq<Frame>)
    requires room in m.metadata && room in s.frames && limit >= 1 && from <= |Log(s, room)| <= U64_MAX
    requires forall i | 0 <= i < |Log(s, room)| :: Encodable(Log(s, room)[i])
    ensures frames == Log(s, room)[from..]
  {
    hide HandleSync, Encodable, WireBytes;
    ghost var log := Log(s, room);
    var at: U64, more := from, true;
    frames := [];
    while more
      invariant from <= at <= |log| && frames == log[from..at]
      invariant !more ==> at == |log|
      decreases |log| - at, more
    {
      HasMoreIff(m, s, room, session, at, limit);
      var response := HandleSync(m, s, room, session, at, limit, false, false).value;
      var page := DecodePage(response.frames, Page(log, at, limit));
      assert page == log[at..at + |page|];
      assert log[from..at] + log[at..at + |page|] == log[from..at + |page|];
      frames, at, more := frames + page, at + |page|, response.hasMore;
    }
  }

  lemma PageIsSlice(log: seq<Frame>, at: nat, limit: nat)
    requires at <= |log|
    ensures at + |Page(log, at, limit)| <= |log|
    ensures Page(log, at, limit) == log[at..at + |Page(log, at, limit)|]
  {
  }
}
